/** How long the weighted schedule can stay on one upstream. */
module Bursts {
  import opened Schedule

  function Repeat(x: nat, n: nat): (r: seq<nat>)
    ensures |r| == n && forall k :: 0 <= k < n ==> r[k] == x
  {
    seq(n, k requires 0 <= k < n => x)
  }

  ghost predicate Ascending(s: seq<nat>) {
    forall k, l :: 0 <= k < l < |s| ==> s[k] < s[l]
  }

  ghost predicate NeverRepeats(s: seq<nat>) {
    forall k :: 0 <= k < |s| - 1 ==> s[k] != s[k + 1]
  }

  /** A round lists, in configuration order, exactly the entries heavier than
      its number. */
  lemma {:induction false} RoundIsFilter(ws: seq<nat>, i: nat)
    ensures Ascending(Round(ws, i))
    ensures forall j: nat :: j in Round(ws, i) <==> j < |ws| && i < ws[j]
  {
    if ws != [] {
      var n := |ws| - 1;
      RoundIsFilter(ws[..n], i);
      forall j: nat
        ensures j in Round(ws, i) <==> j < |ws| && i < ws[j]
      {
        assert j in Round(ws, i) <==> j in Round(ws[..n], i) || j in Last(ws, i);
      }
    }
  }

  /** The heaviest entry `a`, and an entry `b` no other rival outweighs. */
  ghost predicate TopTwo(ws: seq<nat>, a: nat, b: nat) {
    && a < |ws| && b < |ws| && a != b
    && 0 < ws[b] <= ws[a]
    && forall j :: 0 <= j < |ws| && j != a ==> ws[j] <= ws[b]
  }

  /** Two or more entries always have a heaviest one and a runner-up. */
  lemma {:induction false} TopTwoExists(ws: seq<nat>) returns (a: nat, b: nat)
    requires |ws| >= 2 && forall j :: 0 <= j < |ws| ==> ws[j] > 0
    ensures TopTwo(ws, a, b)
  {
    var n := |ws| - 1;
    if n == 1 {
      a, b := if ws[0] < ws[1] then 1 else 0, if ws[0] < ws[1] then 0 else 1;
    } else {
      a, b := TopTwoExists(ws[..n]);
      assert forall j :: 0 <= j < n ==> ws[..n][j] == ws[j];
      if ws[a] < ws[n] {
        a, b := n, a;
      } else if ws[b] < ws[n] {
        b := n;
      }
    }
  }

  /** While the runner-up still takes part, a round has at least two entries. */
  lemma ContestedRound(ws: seq<nat>, a: nat, b: nat, i: nat)
    requires TopTwo(ws, a, b) && i < ws[b]
    ensures |Round(ws, i)| >= 2
  {
    RoundIsFilter(ws, i);
    assert a in Round(ws, i) && b in Round(ws, i);
  }

  /** After that, only the heaviest entry is left. */
  lemma LonelyRound(ws: seq<nat>, a: nat, b: nat, i: nat)
    requires TopTwo(ws, a, b) && ws[b] <= i < ws[a]
    ensures Round(ws, i) == [a]
  {
    RoundIsFilter(ws, i);
    var r := Round(ws, i);
    assert a in r;
    assert r[0] in r && r[|r| - 1] in r;
    assert r[0] == a && r[|r| - 1] == a;
  }

  /** An earlier round ends past the start of every later contested one. */
  lemma RoundsDoNotTouch(ws: seq<nat>, i: nat, j: nat)
    requires i <= j && |Round(ws, j)| >= 2
    ensures Round(ws, i) != []
    ensures FirstOf(Round(ws, j)) < LastOf(Round(ws, i))
    ensures FirstOf(Round(ws, i)) < LastOf(Round(ws, j))
  {
    RoundIsFilter(ws, i);
    RoundIsFilter(ws, j);
    var p, q := Round(ws, i), Round(ws, j);
    assert FirstOf(q) in q && LastOf(q) in q;
    assert FirstOf(q) in p && LastOf(q) in p;
  }

  function FirstOf(s: seq<nat>): nat
    requires s != []
  {
    s[0]
  }

  function LastOf(s: seq<nat>): nat
    requires s != []
  {
    s[|s| - 1]
  }

  lemma NeverRepeatsConcat(s: seq<nat>, t: seq<nat>)
    requires NeverRepeats(s) && Ascending(t)
    requires s != [] && t != [] ==> LastOf(s) != FirstOf(t)
    ensures NeverRepeats(s + t)
  {
  }

  /** The contested part of the schedule: no two neighbours are equal, it
      starts where round zero starts and ends where its last round ends. */
  lemma {:induction false} ContestedRounds(ws: seq<nat>, a: nat, b: nat, n: nat)
    requires TopTwo(ws, a, b) && 0 < n <= ws[b]
    ensures NeverRepeats(Rounds(ws, n)) && |Rounds(ws, n)| >= 2
    ensures Round(ws, 0) != [] && FirstOf(Rounds(ws, n)) == FirstOf(Round(ws, 0))
    ensures Round(ws, n - 1) != [] && LastOf(Rounds(ws, n)) == LastOf(Round(ws, n - 1))
  {
    hide Round;
    ContestedRound(ws, a, b, n - 1);
    RoundIsFilter(ws, n - 1);
    if n == 1 {
      assert Rounds(ws, 0) == [];
      NeverRepeatsConcat([], Round(ws, 0));
    } else {
      ContestedRounds(ws, a, b, n - 1);
      RoundsDoNotTouch(ws, n - 2, n - 1);
      NeverRepeatsConcat(Rounds(ws, n - 1), Round(ws, n - 1));
    }
  }

  lemma {:induction false} LonelyTail(ws: seq<nat>, a: nat, b: nat, d: nat)
    requires TopTwo(ws, a, b) && ws[b] + d <= ws[a]
    ensures Rounds(ws, ws[b] + d) == Rounds(ws, ws[b]) + Repeat(a, d)
  {
    hide Round;
    if d > 0 {
      LonelyTail(ws, a, b, d - 1);
      LonelyRound(ws, a, b, ws[b] + d - 1);
      assert Repeat(a, d) == Repeat(a, d - 1) + [a];
    } else {
      assert Repeat(a, 0) == [];
    }
  }

  /** Two picks that differ, among any `d + 2` consecutive tickets of a body
      without repetitions followed by `d` copies of one entry. */
  lemma RunBreaks(body: seq<nat>, a: nat, d: nat, t: nat) returns (k: nat, l: nat)
    requires |body| >= 2 && NeverRepeats(body) && FirstOf(body) != LastOf(body)
    ensures k < l <= d + 1
    ensures var s := body + Repeat(a, d); Pick(s, t + k) != Pick(s, t + l)
  {
    var s := body + Repeat(a, d);
    var len, p := |s|, t % |s|;
    if p + 1 < |body| {
      k, l := 0, 1;
    } else if p < |body| {
      k, l := 0, d + 1;
    } else {
      k, l := len - p, len - p + 1;
    }
    ModAdd(t, k, len);
    ModAdd(t, l, len);
  }

  /** The schedule is the contested rounds followed by the heaviest entry's
      own. */
  lemma SlotsShape(ws: seq<nat>, a: nat, b: nat)
    requires TopTwo(ws, a, b)
    ensures Slots(ws) == Rounds(ws, ws[b]) + Repeat(a, ws[a] - ws[b])
    ensures var body := Rounds(ws, ws[b]);
            |body| >= 2 && NeverRepeats(body) && FirstOf(body) != LastOf(body)
  {
    hide Round, Rounds;
    ContestedRounds(ws, a, b, ws[b]);
    ContestedRound(ws, a, b, ws[b] - 1);
    RoundsDoNotTouch(ws, 0, ws[b] - 1);
    LonelyTail(ws, a, b, ws[a] - ws[b]);
    assert MaxWeight(ws) == ws[a];
  }

  /** All of `n` consecutive tickets from `t` on pick the same entry. */
  ghost predicate SamePick(s: seq<nat>, t: nat, n: nat)
    requires s != []
  {
    forall u, v :: t <= u < v < t + n ==> Pick(s, u) == Pick(s, v)
  }

  lemma SlotsRunBound(r: seq<nat>, a: nat, b: nat, t: nat, n: nat)
    requires TopTwo(r, a, b) && Slots(r) != []
    requires SamePick(Slots(r), t, n)
    ensures n <= r[a] - r[b] + 1
  {
    hide Slots, Rounds, Pick;
    SlotsShape(r, a, b);
    var k, l := RunBreaks(Rounds(r, r[b]), a, r[a] - r[b], t);
  }

  /** With two or more upstreams, consecutive tickets never pick the same one
      more than (largest - second largest reduced weight) + 1 times in a row,
      across the wrap-around too. */
  lemma BurstBound(ws: seq<nat>, a: nat, b: nat, t: nat, n: nat)
    requires TopTwo(Reduced(ws), a, b)
    ensures Slots(Reduced(ws)) != []
    ensures SamePick(Slots(Reduced(ws)), t, n) ==> n <= Reduced(ws)[a] - Reduced(ws)[b] + 1
  {
    ScheduleLength(ws);
    if SamePick(Slots(Reduced(ws)), t, n) {
      SlotsRunBound(Reduced(ws), a, b, t, n);
    }
  }
}
