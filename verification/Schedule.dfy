/** The interleaved weighted schedule of upstream.rs, as a sequence of entry
    indices, and what it guarantees about shares. */
module Schedule {
  import opened Arithmetic

  // ---------------------------------------------------------------- weights

  function Clamp(w: nat): nat {
    if w == 0 then 1 else w
  }

  /** Every weight raised to at least one. */
  function Clamped(ws: seq<nat>): (r: seq<nat>)
    ensures |r| == |ws| && forall j :: 0 <= j < |ws| ==> r[j] == Clamp(ws[j])
  {
    seq(|ws|, j requires 0 <= j < |ws| => Clamp(ws[j]))
  }

  /** The divisor used for reduction: never zero, even for an empty list. */
  function Divisor(ws: seq<nat>): (g: nat)
    ensures g > 0
  {
    Clamp(GcdAll(Clamped(ws)))
  }

  function Quotient(w: nat, g: nat): nat
    requires g > 0
  {
    w / g
  }

  function Reduced(ws: seq<nat>): (r: seq<nat>)
    ensures |r| == |ws|
  {
    seq(|ws|, j requires 0 <= j < |ws| => Quotient(Clamp(ws[j]), Divisor(ws)))
  }

  function Max(a: nat, b: nat): nat {
    if a < b then b else a
  }

  function Min(a: nat, b: nat): nat {
    if a < b then a else b
  }

  /** Largest weight, and one for an empty list. */
  function MaxWeight(ws: seq<nat>): (m: nat)
    ensures forall j :: 0 <= j < |ws| ==> ws[j] <= m
    ensures ws != [] ==> m in ws
  {
    if ws == [] then 1
    else if |ws| == 1 then ws[0]
    else
      assert ws == ws[..|ws| - 1] + [ws[|ws| - 1]];
      Max(MaxWeight(ws[..|ws| - 1]), ws[|ws| - 1])
  }

  // --------------------------------------------------------------- schedule

  /** The entries that still take part in round `i`, in configuration order. */
  function Round(ws: seq<nat>, i: nat): (r: seq<nat>)
    ensures forall k :: 0 <= k < |r| ==> r[k] < |ws|
  {
    if ws == [] then []
    else Round(ws[..|ws| - 1], i) + Last(ws, i)
  }

  function Last(ws: seq<nat>, i: nat): (r: seq<nat>)
    requires ws != []
    ensures forall k :: 0 <= k < |r| ==> r[k] < |ws|
  {
    if i < ws[|ws| - 1] then [|ws| - 1] else []
  }

  function Rounds(ws: seq<nat>, n: nat): (r: seq<nat>)
    ensures forall k :: 0 <= k < |r| ==> r[k] < |ws|
  {
    if n == 0 then [] else Rounds(ws, n - 1) + Round(ws, n - 1)
  }

  /** The whole schedule: each slot holds the index of the entry it serves. */
  function Slots(ws: seq<nat>): (r: seq<nat>)
    ensures forall k :: 0 <= k < |r| ==> r[k] < |ws|
  {
    Rounds(ws, MaxWeight(ws))
  }

  /** What ticket `t` is served from the repeated schedule `s`. */
  function Pick<T>(s: seq<T>, t: nat): T
    requires s != []
  {
    s[t % |s|]
  }

  /** `n` picks made by consecutive tickets, the first of them being `t`. */
  function Window<T>(s: seq<T>, t: nat, n: nat): (r: seq<T>)
    requires s != []
    ensures |r| == n && forall k :: 0 <= k < n ==> r[k] == Pick(s, t + k)
  {
    seq(n, k requires 0 <= k < n => Pick(s, t + k))
  }

  function Sum(ws: seq<nat>): nat {
    if ws == [] then 0 else Sum(ws[..|ws| - 1]) + ws[|ws| - 1]
  }

  /** How often `x` occurs in `p`. */
  function Count(p: seq<nat>, x: nat): nat {
    if p == [] then 0
    else Count(p[..|p| - 1], x) + if p[|p| - 1] == x then 1 else 0
  }

  /** How often each of the first `n` entries occurs in `p`. */
  function Counts(p: seq<nat>, n: nat): (r: seq<nat>)
    ensures |r| == n && forall j :: 0 <= j < n ==> r[j] == Count(p, j)
  {
    seq(n, j requires 0 <= j < n => Count(p, j))
  }

  // ------------------------------------------------------------- reduction

  lemma DivisorIsGcd(ws: seq<nat>)
    requires ws != []
    ensures Divisor(ws) == GcdAll(Clamped(ws))
  {
    GcdAllPositive(Clamped(ws));
  }

  /** Reduction loses nothing: it divides exactly and leaves every weight
      positive. */
  lemma ReducedExact(ws: seq<nat>, j: nat)
    requires j < |ws|
    ensures Reduced(ws)[j] * Divisor(ws) == Clamp(ws[j])
    ensures Reduced(ws)[j] > 0
  {
    DivisorIsGcd(ws);
    GcdAllDivides(Clamped(ws), j);
    var g := Divisor(ws);
    var q: nat :| Times(g, q) == Clamp(ws[j]);
    assert q * g + 0 == Clamp(ws[j]);
    ModUnique(Clamp(ws[j]), g, q, 0);
    assert Reduced(ws)[j] == Clamp(ws[j]) / Divisor(ws);
  }

  lemma ReducedScalesBack(ws: seq<nat>)
    ensures Scaled(Divisor(ws), Reduced(ws)) == Clamped(ws)
    ensures forall j :: 0 <= j < |ws| ==> Reduced(ws)[j] > 0
  {
    forall j | 0 <= j < |ws|
      ensures Scaled(Divisor(ws), Reduced(ws))[j] == Clamped(ws)[j] && Reduced(ws)[j] > 0
    {
      ReducedExact(ws, j);
    }
  }

  /** The reduced weights have no common factor left. */
  lemma ReducedCoprime(ws: seq<nat>)
    requires ws != []
    ensures GcdAll(Reduced(ws)) == 1
  {
    ReducedScalesBack(ws);
    GcdAllScales(Divisor(ws), Reduced(ws));
    DivisorIsGcd(ws);
    CancelFactor(Divisor(ws), GcdAll(Reduced(ws)), 1);
  }

  /** Multiplying every weight by the same factor leaves the schedule alone. */
  lemma ScaleInvariant(k: nat, ws: seq<nat>)
    requires k > 0
    requires forall j :: 0 <= j < |ws| ==> ws[j] > 0
    ensures Reduced(Scaled(k, ws)) == Reduced(ws)
    ensures Slots(Reduced(Scaled(k, ws))) == Slots(Reduced(ws))
  {
    if ws != [] {
      forall j | 0 <= j < |ws|
        ensures k * ws[j] > 0
      {
      }
      assert Clamped(ws) == ws && Clamped(Scaled(k, ws)) == Scaled(k, ws);
      GcdAllScales(k, ws);
      DivisorIsGcd(ws);
      DivisorIsGcd(Scaled(k, ws));
      var g := Divisor(ws);
      assert Divisor(Scaled(k, ws)) == k * g;
      forall j | 0 <= j < |ws|
        ensures Reduced(Scaled(k, ws))[j] == Reduced(ws)[j]
      {
        ReducedExact(ws, j);
        ReducedExact(Scaled(k, ws), j);
        CancelQuotient(k, g, Reduced(Scaled(k, ws))[j], Reduced(ws)[j], ws[j]);
      }
      assert Reduced(Scaled(k, ws)) == Reduced(ws);
    }
  }

  /** The clamped weights are in the same proportion. */
  ghost predicate SameProportion(ws: seq<nat>, vs: seq<nat>) {
    && |ws| == |vs|
    && forall i, j :: 0 <= i < |ws| && 0 <= j < |ws| ==> Crossed(ws, vs, i, j)
  }

  predicate Crossed(ws: seq<nat>, vs: seq<nat>, i: nat, j: nat)
    requires i < |ws| == |vs| && j < |ws|
  {
    Clamp(ws[i]) * Clamp(vs[j]) == Clamp(ws[j]) * Clamp(vs[i])
  }

  lemma CrossedReduced(ws: seq<nat>, vs: seq<nat>, i: nat, j: nat)
    requires i < |ws| == |vs| && j < |ws|
    ensures Crossed(ws, vs, i, j) <==> Reduced(ws)[i] * Reduced(vs)[j] == Reduced(ws)[j] * Reduced(vs)[i]
  {
    hide Reduced, Divisor, Clamp;
    var r, q, g, h := Reduced(ws), Reduced(vs), Divisor(ws), Divisor(vs);
    ReducedExact(ws, i);
    ReducedExact(ws, j);
    ReducedExact(vs, i);
    ReducedExact(vs, j);
    if Crossed(ws, vs, i, j) {
      CrossReduce(r[i], q[j], r[j], q[i], g, h);
    }
    if r[i] * q[j] == r[j] * q[i] {
      assert (r[i] * g) * (q[j] * h) == (r[i] * q[j]) * (g * h);
      assert (r[j] * g) * (q[i] * h) == (r[j] * q[i]) * (g * h);
    }
  }

  lemma ProportionDivides(ws: seq<nat>, vs: seq<nat>, i: nat)
    requires SameProportion(ws, vs) && i < |ws|
    ensures Reduced(ws)[i] <= Reduced(vs)[i]
  {
    hide Reduced;
    var r, q := Reduced(ws), Reduced(vs);
    forall j | 0 <= j < |r|
      ensures Divides(r[i], q[i] * r[j])
    {
      assert Crossed(ws, vs, i, j);
      CrossedReduced(ws, vs, i, j);
      DividesCross(r[i], q[j], q[i], r[j]);
    }
    DividesGcdAllMultiple(r[i], q[i], r);
    ReducedCoprime(ws);
    ReducedExact(vs, i);
    DividesAtMost(r[i], q[i]);
  }

  lemma ProportionSymmetric(ws: seq<nat>, vs: seq<nat>)
    requires SameProportion(ws, vs)
    ensures SameProportion(vs, ws)
  {
    hide Clamp;
    forall i, j | 0 <= i < |vs| && 0 <= j < |vs|
      ensures Crossed(vs, ws, i, j)
    {
      assert Crossed(ws, vs, j, i);
    }
  }

  /** Weights reduce to the same list exactly when they are in the same
      proportion. */
  lemma SameReducedExactly(ws: seq<nat>, vs: seq<nat>)
    ensures Reduced(ws) == Reduced(vs) <==> SameProportion(ws, vs)
  {
    hide Reduced, Crossed;
    if Reduced(ws) == Reduced(vs) {
      forall i, j | 0 <= i < |ws| && 0 <= j < |ws|
        ensures Crossed(ws, vs, i, j)
      {
        CrossedReduced(ws, vs, i, j);
      }
    }
    if SameProportion(ws, vs) {
      ProportionSymmetric(ws, vs);
      forall i | 0 <= i < |ws|
        ensures Reduced(ws)[i] == Reduced(vs)[i]
      {
        ProportionDivides(ws, vs, i);
        ProportionDivides(vs, ws, i);
      }
    }
  }

  // ---------------------------------------------------------------- counts

  lemma CountEmpty(x: nat)
    ensures Count([], x) == 0
  {
  }

  lemma {:induction false} CountConcat(a: seq<nat>, b: seq<nat>, x: nat)
    ensures Count(a + b, x) == Count(a, x) + Count(b, x)
  {
    if b == [] {
      assert a + b == a;
    } else {
      var n := |b| - 1;
      assert (a + b)[..|a + b| - 1] == a + b[..n];
      CountConcat(a, b[..n], x);
    }
  }

  lemma {:induction false} RoundCount(ws: seq<nat>, i: nat, j: nat)
    ensures Count(Round(ws, i), j) == if j < |ws| && i < ws[j] then 1 else 0
  {
    if ws != [] {
      RoundCount(ws[..|ws| - 1], i, j);
      CountConcat(Round(ws[..|ws| - 1], i), Last(ws, i), j);
    }
  }

  lemma RoundsStep(ws: seq<nat>, n: nat, j: nat)
    requires n > 0
    ensures Count(Rounds(ws, n), j) == Count(Rounds(ws, n - 1), j) + Count(Round(ws, n - 1), j)
  {
    CountConcat(Rounds(ws, n - 1), Round(ws, n - 1), j);
  }

  /** After `n` rounds an entry has been served once per round it takes part in. */
  lemma {:induction false} RoundsCount(ws: seq<nat>, n: nat, j: nat)
    ensures Count(Rounds(ws, n), j) == if j < |ws| then Min(ws[j], n) else 0
  {
    hide Count, Round;
    if n == 0 {
      CountEmpty(j);
    } else {
      RoundsStep(ws, n, j);
      RoundsCount(ws, n - 1, j);
      RoundCount(ws, n - 1, j);
    }
  }

  /** One schedule serves each entry exactly as often as its weight says. */
  lemma SlotsCount(ws: seq<nat>, j: nat)
    requires j < |ws|
    ensures Count(Slots(ws), j) == ws[j]
  {
    RoundsCount(ws, MaxWeight(ws), j);
  }

  lemma {:induction false} SumOfUpdate(a: seq<nat>, b: seq<nat>, x: nat)
    requires |a| == |b| && x < |a|
    requires b[x] == a[x] + 1
    requires forall j :: 0 <= j < |a| && j != x ==> a[j] == b[j]
    ensures Sum(b) == Sum(a) + 1
  {
    var n := |a| - 1;
    if x == n {
      assert a[..n] == b[..n];
    } else {
      SumOfUpdate(a[..n], b[..n], x);
    }
  }

  lemma {:induction false} SumOfZeros(a: seq<nat>)
    requires forall j :: 0 <= j < |a| ==> a[j] == 0
    ensures Sum(a) == 0
  {
    if a != [] {
      SumOfZeros(a[..|a| - 1]);
    }
  }

  /** A sequence of picks is as long as its per-entry counts add up to. */
  lemma {:induction false} LengthIsSumOfCounts(p: seq<nat>, n: nat)
    requires forall k :: 0 <= k < |p| ==> p[k] < n
    ensures |p| == Sum(Counts(p, n))
  {
    if p == [] {
      SumOfZeros(Counts(p, n));
    } else {
      var x := p[|p| - 1];
      assert p == p[..|p| - 1] + [x];
      LengthIsSumOfCounts(p[..|p| - 1], n);
      SumOfUpdate(Counts(p[..|p| - 1], n), Counts(p, n), x);
    }
  }

  lemma SlotsLength(ws: seq<nat>)
    ensures |Slots(ws)| == Sum(ws)
  {
    forall j | 0 <= j < |ws|
      ensures Counts(Slots(ws), |ws|)[j] == ws[j]
    {
      SlotsCount(ws, j);
      assert Counts(Slots(ws), |ws|)[j] == Count(Slots(ws), j);
    }
    assert Counts(Slots(ws), |ws|) == ws;
    LengthIsSumOfCounts(Slots(ws), |ws|);
  }

  lemma {:induction false} SumScales(k: nat, ws: seq<nat>)
    ensures Sum(Scaled(k, ws)) == k * Sum(ws)
  {
    if ws != [] {
      var n := |ws| - 1;
      SumScales(k, ws[..n]);
      assert Scaled(k, ws)[..n] == Scaled(k, ws[..n]);
    }
  }

  lemma {:induction false} SumAtLeast(ws: seq<nat>, j: nat)
    requires j < |ws|
    ensures Sum(ws) >= ws[j]
  {
    if j < |ws| - 1 {
      SumAtLeast(ws[..|ws| - 1], j);
    }
  }

  lemma SlotsScaledLength(g: nat, r: seq<nat>)
    ensures |Slots(r)| * g == Sum(Scaled(g, r))
  {
    SlotsLength(r);
    SumScales(g, r);
  }

  /** The schedule of a non-empty list of upstreams is never empty, and the
      clamped weights add up to its length times the divisor. */
  lemma ScheduleLength(ws: seq<nat>)
    requires ws != []
    ensures Slots(Reduced(ws)) != []
    ensures |Slots(Reduced(ws))| * Divisor(ws) == Sum(Clamped(ws))
  {
    ReducedScalesBack(ws);
    SlotsLength(Reduced(ws));
    SumAtLeast(Reduced(ws), 0);
    SlotsScaledLength(Divisor(ws), Reduced(ws));
  }

  /** Round zero lists every entry of positive weight, in order. */
  lemma {:induction false} FirstRound(ws: seq<nat>)
    requires forall j :: 0 <= j < |ws| ==> ws[j] > 0
    ensures |Round(ws, 0)| == |ws| && forall k :: 0 <= k < |ws| ==> Round(ws, 0)[k] == k
  {
    if ws != [] {
      FirstRound(ws[..|ws| - 1]);
    }
  }

  lemma {:induction false} RoundsBeginWithFirst(ws: seq<nat>, n: nat)
    requires n > 0
    ensures Round(ws, 0) <= Rounds(ws, n)
  {
    hide Round;
    if n == 1 {
      assert Rounds(ws, 0) == [];
      assert Rounds(ws, 1) == Round(ws, 0);
    } else {
      RoundsBeginWithFirst(ws, n - 1);
    }
  }

  lemma {:induction false} SumOfPrefix(ws: seq<nat>, k: nat)
    requires k < |ws|
    ensures Sum(ws[..k]) + ws[k] <= Sum(ws)
  {
    var n := |ws| - 1;
    if k < n {
      SumOfPrefix(ws[..n], k);
      assert ws[..n][..k] == ws[..k];
    }
  }

  // --------------------------------------------------------------- windows

  lemma ModAdd(t: nat, k: nat, n: nat)
    requires n > 0 && k < n
    ensures (t + k) % n == if t % n + k < n then t % n + k else t % n + k - n
  {
    DivMod(t, n);
    var q, r := t / n, t % n;
    if r + k < n {
      ModUnique(t + k, n, q, r + k);
    } else {
      assert t + k == (q + 1) * n + (r + k - n);
      ModUnique(t + k, n, q + 1, r + k - n);
    }
  }

  /** A window of one whole period, wherever it starts, is a rotation of the
      schedule. */
  lemma WindowIsRotation<T>(s: seq<T>, t: nat)
    requires s != []
    ensures Window(s, t, |s|) == s[t % |s|..] + s[..t % |s|]
  {
    var n, r := |s|, t % |s|;
    forall k | 0 <= k < n
      ensures Window(s, t, n)[k] == (s[r..] + s[..r])[k]
    {
      ModAdd(t, k, n);
    }
    assert Window(s, t, n) == s[r..] + s[..r];
  }

  lemma RotationCount(s: seq<nat>, t: nat, x: nat)
    requires s != []
    ensures Count(Window(s, t, |s|), x) == Count(s, x)
  {
    var r := t % |s|;
    WindowIsRotation(s, t);
    assert s == s[..r] + s[r..];
    CountConcat(s[..r], s[r..], x);
    CountConcat(s[r..], s[..r], x);
  }

  lemma WindowSplit<T>(s: seq<T>, t: nat, a: nat, b: nat)
    requires s != []
    ensures Window(s, t, a + b) == Window(s, t, a) + Window(s, t + a, b)
  {
  }

  lemma {:induction false} WindowCount(s: seq<nat>, t: nat, m: nat, x: nat)
    requires s != []
    ensures Count(Window(s, t, m * |s|), x) == m * Count(s, x)
  {
    if m == 0 {
      assert Window(s, t, 0) == [];
    } else {
      var n := |s|;
      MulSucc(m, n);
      MulSucc(m, Count(s, x));
      WindowCount(s, t, m - 1, x);
      WindowSplit(s, t, (m - 1) * n, n);
      RotationCount(s, t + (m - 1) * n, x);
      CountConcat(Window(s, t, (m - 1) * n), Window(s, t + (m - 1) * n, n), x);
    }
  }

  /** Any `m` periods of consecutive tickets pick an entry exactly `m` times
      its clamped weight over the divisor, wherever they start. */
  lemma ExactShares(ws: seq<nat>, t: nat, m: nat, j: nat)
    requires j < |ws|
    ensures var s := Slots(Reduced(ws));
            s != [] &&
            Count(Window(s, t, m * |s|), j) == m * Reduced(ws)[j] &&
            Count(Window(s, t, m * |s|), j) * Divisor(ws) == m * Clamp(ws[j])
  {
    ScheduleLength(ws);
    WindowCount(Slots(Reduced(ws)), t, m, j);
    SlotsCount(Reduced(ws), j);
    ReducedExact(ws, j);
    MulAssoc(m, Reduced(ws)[j], Divisor(ws));
  }

  lemma PrefixCount(s: seq<nat>, q: nat, x: nat)
    requires q <= |s|
    ensures Count(s[..q], x) <= Count(s, x)
  {
    assert s == s[..q] + s[q..];
    CountConcat(s[..q], s[q..], x);
  }

  /** In every prefix of `s`, entry `b` is at most one pick ahead of `a`. */
  ghost predicate Balanced(s: seq<nat>, a: nat, b: nat) {
    forall p :: 0 <= p <= |s| ==> Count(s[..p], b) <= Count(s[..p], a) + 1
  }

  lemma BalancedEmpty(a: nat, b: nat)
    ensures Balanced([], a, b)
  {
  }

  /** A balanced sequence in which `b` is not ahead stays balanced when `b`
      occurs at most once in what follows. */
  lemma BalancedConcat(s: seq<nat>, t: seq<nat>, a: nat, b: nat)
    requires Balanced(s, a, b) && Count(s, b) + Count(t, b) <= Count(s, a) + 1
    ensures Balanced(s + t, a, b)
  {
    forall p | 0 <= p <= |s + t|
      ensures Count((s + t)[..p], b) <= Count((s + t)[..p], a) + 1
    {
      if p <= |s| {
        assert (s + t)[..p] == s[..p];
      } else {
        var q := p - |s|;
        assert (s + t)[..p] == s + t[..q];
        CountConcat(s, t[..q], a);
        CountConcat(s, t[..q], b);
        PrefixCount(t, q, b);
      }
    }
  }

  lemma RoundAhead(ws: seq<nat>, i: nat, a: nat, b: nat)
    requires a < |ws| && b < |ws| && ws[b] <= ws[a]
    ensures Count(Rounds(ws, i), b) + Count(Round(ws, i), b) <= Count(Rounds(ws, i), a) + 1
  {
    hide Count, Rounds, Round;
    RoundsCount(ws, i, a);
    RoundsCount(ws, i, b);
    RoundCount(ws, i, b);
  }

  lemma {:induction false} RoundsBalanced(ws: seq<nat>, n: nat, a: nat, b: nat)
    requires a < |ws| && b < |ws| && ws[b] <= ws[a]
    ensures Balanced(Rounds(ws, n), a, b)
  {
    hide Count, Round;
    if n == 0 {
      assert Rounds(ws, 0) == [];
      BalancedEmpty(a, b);
    } else {
      RoundsBalanced(ws, n - 1, a, b);
      RoundAhead(ws, n - 1, a, b);
      BalancedConcat(Rounds(ws, n - 1), Round(ws, n - 1), a, b);
    }
  }

  lemma WindowPrefix<T>(s: seq<T>, m: nat, p: nat)
    requires s != [] && p < |s|
    ensures Window(s, m * |s|, p) == s[..p]
  {
    var len := |s|;
    forall k | 0 <= k < p
      ensures Window(s, m * len, p)[k] == s[k]
    {
      ModUnique(m * len + k, len, m, k);
    }
  }

  /** The first `m` periods and `p` slots more, from ticket zero. */
  lemma WindowFromZero(s: seq<nat>, m: nat, p: nat, x: nat)
    requires s != [] && p < |s|
    ensures Count(Window(s, 0, m * |s| + p), x) == m * Count(s, x) + Count(s[..p], x)
  {
    hide Count, Window;
    var whole := m * |s|;
    WindowSplit(s, 0, whole, p);
    WindowPrefix(s, m, p);
    CountConcat(Window(s, 0, whole), s[..p], x);
    WindowCount(s, 0, m, x);
  }

  lemma QuotRem(n: nat, len: nat) returns (m: nat, p: nat)
    requires len > 0
    ensures n == m * len + p && p < len
  {
    DivMod(n, len);
    m, p := n / len, n % len;
  }

  lemma SlotsNeverTrail(r: seq<nat>, n: nat, a: nat, b: nat)
    requires a < |r| && b < |r| && r[b] <= r[a] && Slots(r) != []
    ensures var p := Window(Slots(r), 0, n); Count(p, b) <= Count(p, a) + 1
  {
    var m, p := QuotRem(n, |Slots(r)|);
    WindowFromZero(Slots(r), m, p, a);
    WindowFromZero(Slots(r), m, p, b);
    SlotsCount(r, a);
    SlotsCount(r, b);
    MulMonotone(m, r[b], r[a]);
    RoundsBalanced(r, MaxWeight(r), a, b);
  }

  lemma ReducedMonotone(ws: seq<nat>, a: nat, b: nat)
    requires a < |ws| && b < |ws| && Clamp(ws[b]) <= Clamp(ws[a])
    ensures Reduced(ws)[b] <= Reduced(ws)[a]
  {
    hide Reduced, Divisor, Clamp;
    ReducedExact(ws, a);
    ReducedExact(ws, b);
    QuotientOrder(Divisor(ws), Reduced(ws)[b], Reduced(ws)[a]);
  }

  /** Counted from ticket zero, an entry is never more than one pick behind
      an entry that weighs no more than it does. */
  lemma NeverTrails(ws: seq<nat>, n: nat, a: nat, b: nat)
    requires a < |ws| && b < |ws| && Clamp(ws[b]) <= Clamp(ws[a])
    ensures Slots(Reduced(ws)) != []
    ensures var p := Window(Slots(Reduced(ws)), 0, n); Count(p, b) <= Count(p, a) + 1
  {
    ScheduleLength(ws);
    ReducedMonotone(ws, a, b);
    SlotsNeverTrail(Reduced(ws), n, a, b);
  }

  // ------------------------------------------------------------ minimality

  ghost predicate InProportion(ws: seq<nat>, p: seq<nat>, i: nat, j: nat)
    requires i < |ws| && j < |ws|
  {
    Count(p, i) * Clamp(ws[j]) == Count(p, j) * Clamp(ws[i])
  }

  /** `p` serves the entries in exact proportion to their clamped weights. */
  ghost predicate Proportional(ws: seq<nat>, p: seq<nat>) {
    && (forall k :: 0 <= k < |p| ==> p[k] < |ws|)
    && forall i, j :: 0 <= i < |ws| && 0 <= j < |ws| ==> InProportion(ws, p, i, j)
  }

  lemma ProportionalReduced(ws: seq<nat>, p: seq<nat>)
    requires Proportional(ws, p)
    ensures Proportional(Reduced(ws), p)
  {
    forall i, j | 0 <= i < |ws| && 0 <= j < |ws|
      ensures InProportion(Reduced(ws), p, i, j)
    {
      ReducedExact(ws, i);
      ReducedExact(ws, j);
      assert InProportion(ws, p, i, j);
      CancelCross(Divisor(ws), Count(p, i), Reduced(ws)[j], Count(p, j), Reduced(ws)[i]);
    }
  }

  /** A weight divides its count in any sequence proportional to coprime
      weights. */
  lemma WeightDividesCount(r: seq<nat>, p: seq<nat>, j: nat)
    requires Proportional(r, p) && GcdAll(r) == 1 && j < |r|
    requires forall i :: 0 <= i < |r| ==> r[i] > 0
    ensures Divides(r[j], Count(p, j))
  {
    forall i | 0 <= i < |r|
      ensures Divides(r[j], Count(p, j) * r[i])
    {
      assert InProportion(r, p, j, i);
      DividesCross(r[j], Count(p, i), Count(p, j), r[i]);
    }
    DividesGcdAllMultiple(r[j], Count(p, j), r);
  }

  lemma ProportionalLength(r: seq<nat>, p: seq<nat>)
    requires r != [] && Proportional(r, p) && GcdAll(r) == 1
    requires forall i :: 0 <= i < |r| ==> r[i] > 0
    ensures exists m: nat :: |p| == Times(|Slots(r)|, m)
  {
    WeightDividesCount(r, p, 0);
    var m: nat :| Times(r[0], m) == Count(p, 0);
    forall j | 0 <= j < |r|
      ensures Counts(p, |r|)[j] == Scaled(m, r)[j]
    {
      assert InProportion(r, p, 0, j);
      EqualRatios(r[0], m, r[j], Count(p, j));
    }
    assert Counts(p, |r|) == Scaled(m, r);
    LengthIsSumOfCounts(p, |r|);
    SumScales(m, r);
    SlotsLength(r);
    assert |p| == Times(|Slots(r)|, m);
  }

  /** No shorter schedule is fair: every exactly proportional sequence of
      picks is a whole number of schedules long. */
  lemma MinimalSchedule(ws: seq<nat>, p: seq<nat>)
    requires ws != [] && Proportional(ws, p)
    ensures exists m: nat :: |p| == Times(|Slots(Reduced(ws))|, m)
  {
    ReducedCoprime(ws);
    ReducedScalesBack(ws);
    ProportionalReduced(ws, p);
    ProportionalLength(Reduced(ws), p);
  }
}
