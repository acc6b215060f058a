/** Route selection of routing.rs, and when a route can never be reached. */
module Routing {
  import opened Wrappers
  import opened Strings
  import opened Configuration

  const WILDCARD := "*."

  function TrimSlashes(s: string): (r: string)
    ensures r <= s && (r == "" || r[|r| - 1] != '/')
  {
    if s != "" && s[|s| - 1] == '/' then TrimSlashes(s[..|s| - 1]) else s
  }

  predicate EndsWith<T(==)>(s: seq<T>, suffix: seq<T>) {
    |suffix| <= |s| && s[|s| - |suffix|..] == suffix
  }

  predicate HostMatches(pattern: Option<string>, actual: Option<string>) {
    match pattern
    case None => true
    case Some(p) =>
      match actual
      case None => false
      case Some(a) =>
        var host := Before(a, ':');
        if WILDCARD <= p then
          var suffix := p[|WILDCARD|..];
          Lower(host) == Lower(suffix) || EndsWith(Lower(host), "." + Lower(suffix))
        else Lower(host) == Lower(p)
  }

  predicate PathMatches(pattern: Option<string>, actual: string) {
    match pattern
    case None => true
    case Some(p) =>
      var t := TrimSlashes(p);
      if t == "" then true
      else if !(t <= actual) then false
      else |actual| == |t| || actual[|t|] == '/'
  }

  predicate Matches(r: Route, host: Option<string>, path: string) {
    HostMatches(r.host, host) && PathMatches(r.path, path)
  }

  /** The first route, in configuration order, that matches the request. */
  function SelectRoute(rs: seq<Route>, host: Option<string>, path: string): (r: Option<Route>)
    ensures r.Some? ==> r.value in rs && Matches(r.value, host, path)
    ensures r.None? ==> forall q :: q in rs ==> !Matches(q, host, path)
  {
    if rs == [] then None
    else if Matches(rs[0], host, path) then Some(rs[0])
    else SelectRoute(rs[1..], host, path)
  }

  /** Configuration order is priority: route `i` is selected by exactly the
      requests it matches and no earlier route matches. */
  lemma {:induction false} EarlierRoutesWin(rs: seq<Route>, i: nat, host: Option<string>, path: string)
    requires i < |rs| && forall j :: 0 <= j < i ==> !Matches(rs[j], host, path)
    ensures SelectRoute(rs[i..], host, path) == SelectRoute(rs, host, path)
    ensures Matches(rs[i], host, path) ==> SelectRoute(rs, host, path) == Some(rs[i])
  {
    hide Matches;
    if i == 0 {
      assert rs[0..] == rs;
    } else {
      assert forall j :: 0 <= j < i - 1 ==> rs[1..][j] == rs[j + 1];
      assert rs[1..][i - 1..] == rs[i..] && rs[1..][i - 1] == rs[i];
      EarlierRoutesWin(rs[1..], i - 1, host, path);
    }
  }

  // ------------------------------------------------------- segments, labels

  function Segments(s: string): seq<string> {
    Split(s, '/')
  }

  /** The dot-separated labels of a host name, ignoring case. */
  function Labels(s: string): seq<string> {
    Split(Lower(s), '.')
  }

  lemma JoinOfPrefix(p: seq<string>, q: seq<string>, sep: char) returns (rest: string)
    requires p != [] && p <= q
    ensures Join(q, sep) == Join(p, sep) || Join(q, sep) == Join(p, sep) + [sep] + rest
  {
    rest := "";
    if |p| == |q| {
      assert p == q;
    } else {
      JoinConcat(p, q[|p|..], sep);
      assert p + q[|p|..] == q;
      rest := Join(q[|p|..], sep);
    }
  }

  lemma PiecesJoined(s: string, t: string, sep: char)
    requires Split(t, sep) <= Split(s, sep)
    ensures t <= s && (|s| == |t| || s[|t|] == sep)
  {
    hide Split, Join;
    JoinSplit(t, sep);
    JoinSplit(s, sep);
    var rest := JoinOfPrefix(Split(t, sep), Split(s, sep), sep);
  }

  /** `s` is `t` or goes on with a separator after it, exactly when its pieces
      begin with the pieces of `t`. */
  lemma PrefixBySplit(s: string, t: string, sep: char)
    ensures t <= s && (|s| == |t| || s[|t|] == sep) <==> Split(t, sep) <= Split(s, sep)
  {
    hide Split;
    if t <= s && (|s| == |t| || s[|t|] == sep) {
      if |s| > |t| {
        assert s == t + [sep] + s[|t| + 1..];
        SplitConcat(t, sep, s[|t| + 1..]);
      } else {
        assert s == t;
      }
    }
    if Split(t, sep) <= Split(s, sep) {
      PiecesJoined(s, t, sep);
    }
  }

  lemma JoinOfSuffix(p: seq<string>, q: seq<string>, sep: char) returns (head: string)
    requires p != [] && EndsWith(q, p)
    ensures Join(q, sep) == Join(p, sep) || Join(q, sep) == head + [sep] + Join(p, sep)
  {
    head := "";
    var first := q[..|q| - |p|];
    assert q == first + p;
    if first == [] {
      assert q == p;
    } else {
      JoinConcat(first, p, sep);
      head := Join(first, sep);
    }
  }

  /** `s` is `t` or ends with a separator and `t`, exactly when its pieces end
      with the pieces of `t`. */
  lemma SuffixBySplit(s: string, t: string, sep: char)
    ensures s == t || EndsWith(s, [sep] + t) <==> EndsWith(Split(s, sep), Split(t, sep))
  {
    hide Split, Join;
    if EndsWith(s, [sep] + t) {
      var head := s[..|s| - |t| - 1];
      assert s == head + [sep] + t;
      SplitConcat(head, sep, t);
    }
    if EndsWith(Split(s, sep), Split(t, sep)) {
      JoinSplit(t, sep);
      JoinSplit(s, sep);
      var head := JoinOfSuffix(Split(t, sep), Split(s, sep), sep);
      assert s == t || s == head + ([sep] + t);
    }
  }

  /** A path pattern matches the paths whose segments begin with its own. */
  lemma PathBySegments(pattern: string, actual: string)
    ensures PathMatches(Some(pattern), actual) <==>
            TrimSlashes(pattern) == "" || Segments(TrimSlashes(pattern)) <= Segments(actual)
  {
    PrefixBySplit(actual, TrimSlashes(pattern), '/');
  }

  /** A pattern that does not end in a slash matches the paths whose segments
      begin with its own. */
  lemma PlainPathBySegments(pattern: string, actual: string)
    requires pattern != "" && pattern[|pattern| - 1] != '/'
    ensures PathMatches(Some(pattern), actual) <==> Segments(pattern) <= Segments(actual)
  {
    assert TrimSlashes(pattern) == pattern;
    PathBySegments(pattern, actual);
  }

  /** A slash at the end of a pattern makes no difference. */
  lemma TrailingSlashIgnored(pattern: string, actual: string)
    ensures PathMatches(Some(pattern + "/"), actual) <==> PathMatches(Some(pattern), actual)
  {
    assert (pattern + "/")[..|pattern + "/"| - 1] == pattern;
    assert TrimSlashes(pattern + "/") == TrimSlashes(pattern);
  }

  /** A pattern of slashes alone matches every path. */
  lemma {:induction false} SlashesMatchAll(pattern: string, actual: string)
    requires forall i :: 0 <= i < |pattern| ==> pattern[i] == '/'
    ensures PathMatches(Some(pattern), actual)
  {
    if pattern != "" {
      var shorter := pattern[..|pattern| - 1];
      assert pattern == shorter + "/";
      SlashesMatchAll(shorter, actual);
      TrailingSlashIgnored(shorter, actual);
    }
  }

  /** A wildcard pattern matches the hosts whose labels end with its own,
      whatever their case and port; any other pattern, the host itself. */
  lemma HostByLabels(pattern: string, actual: string)
    ensures HostMatches(Some(pattern), Some(actual)) <==>
            if WILDCARD <= pattern then EndsWith(Labels(Before(actual, ':')), Labels(pattern[|WILDCARD|..]))
            else Lower(Before(actual, ':')) == Lower(pattern)
  {
    if WILDCARD <= pattern {
      SuffixBySplit(Lower(Before(actual, ':')), Lower(pattern[|WILDCARD|..]), '.');
      assert "." == ['.'];
    }
  }

  // --------------------------------------------------------------- coverage

  /** The host name a pattern is built on. */
  function Core(p: string): string {
    if WILDCARD <= p then p[|WILDCARD|..] else p
  }

  /** Every host `q` lets through, `p` lets through. A pattern with a colon
      lets nothing through, since ports are cut off. */
  predicate HostCovers(p: Option<string>, q: Option<string>) {
    match p
    case None => true
    case Some(a) =>
      match q
      case None => false
      case Some(b) =>
        || ':' in b
        || if WILDCARD <= a then EndsWith(Labels(Core(b)), Labels(Core(a)))
           else !(WILDCARD <= b) && Lower(a) == Lower(b)
  }

  predicate PathCovers(p: Option<string>, q: Option<string>) {
    match p
    case None => true
    case Some(a) =>
      if TrimSlashes(a) == "" then true
      else match q
           case None => false
           case Some(b) => TrimSlashes(b) != "" && Segments(TrimSlashes(a)) <= Segments(TrimSlashes(b))
  }

  predicate Covers(p: Route, q: Route) {
    HostCovers(p.host, q.host) && PathCovers(p.path, q.path)
  }

  lemma EndsWithTransitive<T>(s: seq<T>, t: seq<T>, u: seq<T>)
    requires EndsWith(s, t) && EndsWith(t, u)
    ensures EndsWith(s, u)
  {
    assert s[|s| - |u|..] == s[|s| - |t|..][|t| - |u|..];
  }

  lemma LowerPreservesLabels(a: string, b: string)
    requires Lower(a) == Lower(b)
    ensures Labels(a) == Labels(b)
  {
  }

  lemma LowerKeepsColon(s: string)
    ensures ':' in Lower(s) <==> ':' in s
  {
    if ':' in s {
      var i :| 0 <= i < |s| && s[i] == ':';
      assert Lower(s)[i] == ':';
    }
  }

  /** A host pattern with a colon matches nothing. */
  lemma ColonIsDead(pattern: string, host: Option<string>)
    requires ':' in pattern
    ensures !HostMatches(Some(pattern), host)
  {
    if host.Some? {
      var h := Before(host.value, ':');
      LowerKeepsColon(h);
      LowerKeepsColon(pattern);
      if WILDCARD <= pattern {
        var suffix := pattern[|WILDCARD|..];
        assert pattern == WILDCARD + suffix;
        assert ':' in suffix;
        LowerKeepsColon(suffix);
        assert ':' in "." + Lower(suffix);
      }
    }
  }

  lemma HostCoversSound(p: Option<string>, q: Option<string>, host: Option<string>)
    requires HostCovers(p, q) && HostMatches(q, host)
    ensures HostMatches(p, host)
  {
    hide Labels, Lower, EndsWith, Before;
    if q.Some? && ':' in q.value {
      ColonIsDead(q.value, host);
    } else if p.Some? {
      HostByLabels(p.value, host.value);
      HostByLabels(q.value, host.value);
      var h := Before(host.value, ':');
      if WILDCARD <= p.value {
        if WILDCARD <= q.value {
          EndsWithTransitive(Labels(h), Labels(Core(q.value)), Labels(Core(p.value)));
        } else {
          LowerPreservesLabels(h, q.value);
        }
      }
    }
  }

  lemma PathCoversSound(p: Option<string>, q: Option<string>, path: string)
    requires PathCovers(p, q) && PathMatches(q, path)
    ensures PathMatches(p, path)
  {
    hide Segments, TrimSlashes;
    if p.Some? && TrimSlashes(p.value) != "" {
      PathBySegments(p.value, path);
      PathBySegments(q.value, path);
    }
  }

  lemma BeforeNothing(s: string, sep: char)
    requires sep !in s
    ensures Before(s, sep) == s
  {
    BeforeConcat(s, sep, "");
    assert s + "" == s;
  }

  /** A label longer than any of the first `n` lengths. */
  function LongLabel(n: nat): (x: string)
    ensures |x| == n + 1 && forall i :: 0 <= i < |x| ==> x[i] == 'x'
  {
    seq(n + 1, i => 'x')
  }

  /** A host that `q` matches and that patterns no longer than `n` match only
      if they cover `q`. */
  function TypicalHost(q: Option<string>, n: nat): Option<string> {
    match q
    case None => None
    case Some(b) => Some(if WILDCARD <= b then LongLabel(n) + "." + Core(b) else b)
  }

  lemma TypicalLabels(core: string, n: nat)
    ensures Labels(LongLabel(n) + "." + core) == [LongLabel(n)] + Labels(core)
  {
    var x := LongLabel(n);
    assert Lower(x + "." + core) == x + ['.'] + Lower(core);
    SplitConcat(x, '.', Lower(core));
    SplitWithout(x, '.');
  }

  lemma TypicalHostMatches(q: Option<string>, n: nat)
    requires q.Some? ==> ':' !in q.value
    ensures HostMatches(q, TypicalHost(q, n))
  {
    hide Labels, Lower, EndsWith;
    if q.Some? {
      var host := TypicalHost(q, n).value;
      BeforeNothing(host, ':');
      HostByLabels(q.value, host);
      if WILDCARD <= q.value {
        TypicalLabels(Core(q.value), n);
        EndsWithTail([LongLabel(n)], Labels(Core(q.value)));
      }
    }
  }

  lemma EndsWithTail<T>(a: seq<T>, b: seq<T>)
    ensures EndsWith(a + b, b)
  {
  }

  lemma TypicalHostDecides(p: Option<string>, q: Option<string>, n: nat)
    requires q.Some? ==> ':' !in q.value
    requires (p.Some? ==> |p.value| <= n) && HostMatches(p, TypicalHost(q, n))
    ensures HostCovers(p, q)
  {
    hide Labels, Lower, EndsWith;
    if p.Some? {
      var host := TypicalHost(q, n).value;
      BeforeNothing(host, ':');
      HostByLabels(p.value, host);
      if WILDCARD <= q.value && WILDCARD <= p.value {
        TypicalLabels(Core(q.value), n);
        LongLabelDecides(Core(p.value), Labels(Core(q.value)), n);
      }
    }
  }

  /** Labels that do not hold the long one end where it begins. */
  lemma LongLabelDecides(core: string, labels: seq<string>, n: nat)
    requires |core| <= n && EndsWith([LongLabel(n)] + labels, Labels(core))
    ensures EndsWith(labels, Labels(core))
  {
    var all, own := [LongLabel(n)] + labels, Labels(core);
    if |own| == |all| {
      assert own == all;
      PiecesFit(Lower(core), '.', 0);
    } else {
      assert all[|all| - |own|..] == labels[|labels| - |own|..];
    }
  }

  /** Host coverage is inclusion of the matched hosts. */
  lemma HostCoversExact(p: Option<string>, q: Option<string>)
    ensures HostCovers(p, q) <==> forall host :: HostMatches(q, host) ==> HostMatches(p, host)
  {
    hide HostCovers, HostMatches, TypicalHost;
    if HostCovers(p, q) {
      forall host | HostMatches(q, host)
        ensures HostMatches(p, host)
      {
        HostCoversSound(p, q, host);
      }
    }
    if forall host :: HostMatches(q, host) ==> HostMatches(p, host) {
      if q.Some? && ':' in q.value {
        ColonIsCovered(p, q);
      } else {
        var n := if p.Some? then |p.value| else 0;
        TypicalHostMatches(q, n);
        TypicalHostDecides(p, q, n);
      }
    }
  }

  lemma ColonIsCovered(p: Option<string>, q: Option<string>)
    requires q.Some? && ':' in q.value
    ensures HostCovers(p, q)
  {
  }

  /** A path that `q` matches and that others match only if they cover `q`. */
  function TypicalPath(q: Option<string>): string {
    if q.None? || TrimSlashes(q.value) == "" then "/" else TrimSlashes(q.value)
  }

  lemma TypicalPathDecides(p: Option<string>, q: Option<string>)
    ensures PathMatches(q, TypicalPath(q))
    ensures PathMatches(p, TypicalPath(q)) ==> PathCovers(p, q)
  {
    if p.Some? && TrimSlashes(p.value) != "" && PathMatches(p, TypicalPath(q)) {
      PathBySegments(p.value, TypicalPath(q));
    }
  }

  /** Path coverage is inclusion of the matched paths. */
  lemma PathCoversExact(p: Option<string>, q: Option<string>)
    ensures PathCovers(p, q) <==> forall path :: PathMatches(q, path) ==> PathMatches(p, path)
  {
    hide PathCovers, PathMatches, TypicalPath;
    if PathCovers(p, q) {
      forall path | PathMatches(q, path)
        ensures PathMatches(p, path)
      {
        PathCoversSound(p, q, path);
      }
    }
    TypicalPathDecides(p, q);
  }

  /** Coverage is transitive. */
  lemma CoversTransitive(p: Route, q: Route, r: Route)
    requires Covers(p, q) && Covers(q, r)
    ensures Covers(p, r)
  {
    PathCoversExact(p.path, q.path);
    PathCoversExact(q.path, r.path);
    PathCoversExact(p.path, r.path);
    HostCoversExact(p.host, q.host);
    HostCoversExact(q.host, r.host);
    HostCoversExact(p.host, r.host);
    hide HostCovers, HostMatches, PathCovers, PathMatches;
  }

  // -------------------------------------------------------------- shadowing

  lemma {:induction false} SelectSkips(a: seq<Route>, b: seq<Route>, host: Option<string>, path: string)
    ensures SelectRoute(a + b, host, path) ==
            if SelectRoute(a, host, path).Some? then SelectRoute(a, host, path) else SelectRoute(b, host, path)
  {
    hide Matches;
    if a == [] {
      assert a + b == b;
    } else {
      SelectSkips(a[1..], b, host, path);
      assert (a + b)[1..] == a[1..] + b;
    }
  }

  /** A route covered by an earlier one is dead: leaving it out changes the
      outcome of no request. */
  lemma ShadowedRouteIsDead(rs: seq<Route>, i: nat, j: nat, host: Option<string>, path: string)
    requires i < j < |rs| && Covers(rs[i], rs[j])
    ensures SelectRoute(rs[..j] + rs[j + 1..], host, path) == SelectRoute(rs, host, path)
  {
    SelectSkips(rs[..j], rs[j + 1..], host, path);
    SelectSkips(rs[..j], rs[j..], host, path);
    assert rs == rs[..j] + rs[j..];
    assert rs[j..][1..] == rs[j + 1..];
    assert rs[i] in rs[..j];
    if Matches(rs[j], host, path) {
      HostCoversSound(rs[i].host, rs[j].host, host);
      PathCoversSound(rs[i].path, rs[j].path, path);
    }
  }

  /** No request is served by route `j`: whichever it matches, an earlier route
      matches too. */
  ghost predicate Dead(rs: seq<Route>, j: nat)
    requires j < |rs|
  {
    forall host, path :: Matches(rs[j], host, path) ==> exists i :: 0 <= i < j && Matches(rs[i], host, path)
  }

  function LongestHost(rs: seq<Route>): (n: nat)
    ensures forall r :: r in rs && r.host.Some? ==> |r.host.value| <= n
  {
    if rs == [] then 0
    else
      var n := LongestHost(rs[..|rs| - 1]);
      var last := rs[|rs| - 1];
      assert rs == rs[..|rs| - 1] + [last];
      if last.host.Some? && |last.host.value| > n then |last.host.value| else n
  }

  /** Exactly when a route is dead: its host pattern has a colon, or a single
      earlier route covers it. Several earlier routes never do so together
      unless one of them does alone. */
  lemma DeadRouteExactly(rs: seq<Route>, j: nat)
    requires j < |rs|
    ensures Dead(rs, j) <==>
            || (rs[j].host.Some? && ':' in rs[j].host.value)
            || exists i :: 0 <= i < j && Covers(rs[i], rs[j])
  {
    hide HostCovers, HostMatches, PathCovers, PathMatches, TypicalHost, TypicalPath;
    if rs[j].host.Some? && ':' in rs[j].host.value {
      forall host
        ensures !HostMatches(rs[j].host, host)
      {
        ColonIsDead(rs[j].host.value, host);
      }
    } else {
      if i :| 0 <= i < j && Covers(rs[i], rs[j]) {
        CoveredIsDead(rs, i, j);
      }
      if Dead(rs, j) {
        var i := DeadIsCovered(rs, j);
      }
    }
  }

  lemma CoveredIsDead(rs: seq<Route>, i: nat, j: nat)
    requires i < j < |rs| && Covers(rs[i], rs[j])
    ensures Dead(rs, j)
  {
    hide HostCovers, HostMatches, PathCovers, PathMatches;
    forall host, path | Matches(rs[j], host, path)
      ensures Matches(rs[i], host, path)
    {
      HostCoversSound(rs[i].host, rs[j].host, host);
      PathCoversSound(rs[i].path, rs[j].path, path);
    }
  }

  lemma DeadIsCovered(rs: seq<Route>, j: nat) returns (i: nat)
    requires j < |rs| && Dead(rs, j) && (rs[j].host.Some? ==> ':' !in rs[j].host.value)
    ensures i < j && Covers(rs[i], rs[j])
  {
    hide HostCovers, HostMatches, PathCovers, PathMatches, TypicalHost, TypicalPath;
    var n := LongestHost(rs);
    var host, path := TypicalHost(rs[j].host, n), TypicalPath(rs[j].path);
    TypicalHostMatches(rs[j].host, n);
    TypicalPathDecides(rs[j].path, rs[j].path);
    assert Matches(rs[j], host, path);
    i :| 0 <= i < j && Matches(rs[i], host, path);
    assert rs[i] in rs;
    TypicalHostDecides(rs[i].host, rs[j].host, n);
    TypicalPathDecides(rs[i].path, rs[j].path);
  }
}
