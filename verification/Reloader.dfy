/** One pass of the reloader's loop in reload.rs, left undisturbed. */
module Reloader {
  import opened Wrappers
  import opened LoadBalancing
  import opened Configuration
  import opened Probers
  import opened Reload
  import opened ReloadProperties

  /** Once the previous probers are stopped only the new ones run. */
  lemma OnlyTheNewRun(live: map<ProberId, ProberSpec>, previous: seq<ProberId>, specs: seq<ProberSpec>, next: nat,
                      live': map<ProberId, ProberSpec>)
    requires LiveAre(live, previous, []) && forall id :: id in live ==> id < next
    requires var started := live + Numbered(specs, next);
             && (forall id :: id in live' <==> id in started && id !in previous)
             && forall id :: id in live' ==> live'[id] == started[id]
    ensures ProbersRun(live', Ids(next, |specs|), specs)
    ensures LiveAre(live', Ids(next, |specs|), [])
    ensures forall id :: id in live' ==> id < next + |specs|
  {
    StartedRun(live, specs, next);
    hide Numbered, Ids;
    var ids, started := Ids(next, |specs|), live + Numbered(specs, next);
    assert forall id :: id in ids ==> id !in previous by {
      assert forall id :: id in previous ==> id in live;
    }
    assert forall id :: id in live' <==> id in ids;
    hide LiveAre;
    forall i | 0 <= i < |ids|
      ensures ids[i] in live' && live'[ids[i]] == specs[i]
    {
      assert ids[i] in ids;
    }
    SameRun(live', started, ids, specs);
  }

  lemma SameRun(live: map<ProberId, ProberSpec>, other: map<ProberId, ProberSpec>,
                ids: seq<ProberId>, specs: seq<ProberSpec>)
    requires ProbersRun(other, ids, specs)
    requires forall i :: 0 <= i < |specs| && i < |ids| ==> ids[i] in live && live[ids[i]] == specs[i]
    requires forall id :: id in live <==> id in ids
    ensures ProbersRun(live, ids, specs) && LiveAre(live, ids, [])
  {
  }

  /** Everything a reload replaces, and the probers that are running. */
  class ReloadTargets {
    var config: Config
    var lbs: map<string, seq<UpstreamPool>>
    var plugins: PluginCache
    var handles: seq<ProberId>
    var live: map<ProberId, ProberSpec>
    var next: ProberId

    /** The running probers are exactly those the installed configuration asks
        for, and all handles to them are kept. */
    ghost predicate ProbersMatch()
      reads this
    {
      && ProbersRun(live, handles, ProberSpecs(config.routes))
      && LiveAre(live, handles, [])
      && forall id :: id in live ==> id < next
    }

    constructor (c: Config, gen: nat)
      ensures config == c && lbs == LbMap(c.routes) && plugins == PluginsOf(c, gen) && ProbersMatch()
    {
      hide ProberSpecs, LbMap, PluginsOf, ProbersRun, LiveAre, FirstPool;
      var specs := SpawnAll(c.routes);
      var pool := FirstPool(specs);
      config, lbs, plugins := c, LbMap(c.routes), PluginsOf(c, gen);
      handles, live, next := pool.handles, pool.live, pool.next;
      FirstPoolRuns(specs);
    }

    method Start(specs: seq<ProberSpec>) returns (started: seq<ProberId>)
      modifies this`live, this`next
      ensures started == Ids(old(next), |specs|) && next == old(next) + |specs|
      ensures live == old(live) + Numbered(specs, old(next))
    {
      started := Ids(next, |specs|);
      live := live + Numbered(specs, next);
      next := next + |specs|;
    }

    method Stop(previous: seq<ProberId>)
      modifies this`live
      ensures forall id :: id in live <==> id in old(live) && id !in previous
      ensures forall id :: id in live ==> live[id] == old(live)[id]
    {
      for i := 0 to |previous|
        invariant forall id :: id in live <==> id in old(live) && id !in previous[..i]
        invariant forall id :: id in live ==> live[id] == old(live)[id]
      {
        live := live - {previous[i]};
        assert previous[..i + 1] == previous[..i] + [previous[i]];
      }
      assert previous[..|previous|] == previous;
    }

    /** A reload either fails at loading, validation or plugin compilation and
        changes nothing, or replaces everything and leaves exactly the probers
        of the new configuration running. */
    method Reload(loaded: Option<Config>, compiles: bool, gen: nat) returns (done: bool)
      requires ProbersMatch()
      modifies this
      ensures done <==> loaded.Some? && Validate(loaded.value) == None && compiles
      ensures done ==> config == loaded.value && lbs == LbMap(config.routes) && plugins == PluginsOf(config, gen)
      ensures !done ==> config == old(config) && lbs == old(lbs) && plugins == old(plugins)
      ensures !done ==> handles == old(handles) && live == old(live)
      ensures ProbersMatch()
    {
      hide ProberSpecs, LbMap, PluginsOf, Validate, Numbered, Ids, ProbersRun, LiveAre;
      if loaded.None? || Validate(loaded.value).Some? || !compiles {
        return false;
      }
      var specs := SpawnAll(loaded.value.routes);
      ghost var before, first := live, next;
      var started := Start(specs);
      lbs := LbMap(loaded.value.routes);
      plugins := PluginsOf(loaded.value, gen);
      config := loaded.value;
      var previous := handles;
      handles := started;
      Stop(previous);
      OnlyTheNewRun(before, previous, specs, first, live);
      return true;
    }
  }
}
