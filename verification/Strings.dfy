/** The few string operations the proxy's text handling is built from. */
module Strings {
  import opened Wrappers

  /** Cut a string at every occurrence of `sep`. */
  function Split(s: string, sep: char): (parts: seq<string>)
    ensures parts != []
  {
    if s == "" then [""]
    else
      Prepend(s[0], sep, Split(s[1..], sep))
  }

  function Join(parts: seq<string>, sep: char): string
    requires parts != []
  {
    if |parts| == 1 then parts[0] else parts[0] + [sep] + Join(parts[1..], sep)
  }

  lemma {:induction false} JoinSplit(s: string, sep: char)
    ensures Join(Split(s, sep), sep) == s
  {
    if s != "" {
      JoinSplit(s[1..], sep);
      var rest := Split(s[1..], sep);
      assert s == [s[0]] + s[1..];
      if s[0] == sep {
        assert ([""] + rest)[1..] == rest;
      } else if |rest| > 1 {
        assert ([[s[0]] + rest[0]] + rest[1..])[1..] == rest[1..];
      }
    }
  }

  /** What one more leading character does to the pieces. */
  function Prepend(c: char, sep: char, parts: seq<string>): seq<string>
    requires parts != []
  {
    if c == sep then [""] + parts else [[c] + parts[0]] + parts[1..]
  }

  lemma SplitHead(s: string, sep: char)
    requires s != ""
    ensures Split(s, sep) == Prepend(s[0], sep, Split(s[1..], sep))
  {
  }

  lemma PrependConcat(c: char, sep: char, x: seq<string>, y: seq<string>)
    requires x != []
    ensures Prepend(c, sep, x + y) == Prepend(c, sep, x) + y
  {
    assert (x + y)[1..] == x[1..] + y;
  }

  lemma {:induction false} SplitConcat(a: string, sep: char, b: string)
    ensures Split(a + [sep] + b, sep) == Split(a, sep) + Split(b, sep)
  {
    if a == "" {
      assert a + [sep] + b == [sep] + b;
      assert ([sep] + b)[1..] == b;
    } else {
      SplitConcat(a[1..], sep, b);
      assert (a + [sep] + b)[1..] == a[1..] + [sep] + b;
      SplitHead(a + [sep] + b, sep);
      SplitHead(a, sep);
      PrependConcat(a[0], sep, Split(a[1..], sep), Split(b, sep));
    }
  }

  lemma {:induction false} SplitWithout(s: string, sep: char)
    requires sep !in s
    ensures Split(s, sep) == [s]
  {
    if s != "" {
      SplitWithout(s[1..], sep);
      assert s == [s[0]] + s[1..];
    }
  }

  /** No piece is longer than the string. */
  lemma {:induction false} PiecesFit(s: string, sep: char, k: nat)
    requires k < |Split(s, sep)|
    ensures |Split(s, sep)[k]| <= |s|
  {
    if s != "" {
      var rest := Split(s[1..], sep);
      var j := if s[0] == sep && k > 0 then k - 1 else k;
      if j < |rest| {
        PiecesFit(s[1..], sep, j);
      }
    }
  }

  /** `s[i..j]` is delimited by separators or the ends of `s`, and holds none. */
  ghost predicate PieceAt(s: string, sep: char, i: nat, j: nat) {
    && i <= j <= |s| && sep !in s[i..j]
    && (i == 0 || s[i - 1] == sep) && (j == |s| || s[j] == sep)
  }

  lemma PieceIsSplitOff(s: string, sep: char, i: nat, j: nat)
    requires PieceAt(s, sep, i, j)
    ensures s[i..j] in Split(s, sep)
  {
    hide Split;
    SplitWithout(s[i..j], sep);
    var rest := s[i..];
    if j == |s| {
      assert rest == s[i..j];
    } else {
      assert rest == s[i..j] + [sep] + s[j + 1..];
      SplitConcat(s[i..j], sep, s[j + 1..]);
    }
    if i == 0 {
      assert rest == s;
    } else {
      assert s == s[..i - 1] + [sep] + rest;
      SplitConcat(s[..i - 1], sep, rest);
    }
  }

  lemma PieceMoves(head: string, rest: string, sep: char, i: nat, j: nat)
    requires PieceAt(rest, sep, i, j) && head != "" && head[|head| - 1] == sep
    ensures PieceAt(head + rest, sep, i + |head|, j + |head|)
    ensures (head + rest)[i + |head|..j + |head|] == rest[i..j]
  {
    assert (head + rest)[i + |head|..j + |head|] == rest[i..j];
  }

  lemma SplitFirst(s: string, sep: char)
    ensures var first := Before(s, sep);
            && PieceAt(s, sep, 0, |first|) && s[0..|first|] == first
            && (first == s ==> Split(s, sep) == [s])
            && (first != s ==>
                  && s == (first + [sep]) + s[|first| + 1..]
                  && Split(s, sep) == [first] + Split(s[|first| + 1..], sep))
  {
    hide Split;
    var first := Before(s, sep);
    SplitWithout(first, sep);
    assert s[0..|first|] == first;
    if first != s {
      assert s == first + [sep] + s[|first| + 1..];
      SplitConcat(first, sep, s[|first| + 1..]);
    }
  }

  lemma {:induction false} SplitOffIsPiece(s: string, sep: char, k: nat) returns (i: nat, j: nat)
    requires k < |Split(s, sep)|
    ensures PieceAt(s, sep, i, j) && s[i..j] == Split(s, sep)[k]
  {
    hide Split, Before;
    var first := Before(s, sep);
    SplitFirst(s, sep);
    i, j := 0, |first|;
    if k > 0 {
      var rest := s[|first| + 1..];
      i, j := SplitOffIsPiece(rest, sep, k - 1);
      PieceMoves(first + [sep], rest, sep, i, j);
      i, j := i + |first| + 1, j + |first| + 1;
    }
  }

  lemma {:induction false} JoinConcat(p: seq<string>, q: seq<string>, sep: char)
    requires p != [] && q != []
    ensures Join(p + q, sep) == Join(p, sep) + [sep] + Join(q, sep)
  {
    if |p| == 1 {
      assert (p + q)[1..] == q;
    } else {
      JoinConcat(p[1..], q, sep);
      assert (p + q)[1..] == p[1..] + q;
    }
  }

  /** `str::split(sep).next()`: everything before the first separator. */
  function Before(s: string, sep: char): (r: string)
    ensures r <= s && sep !in r
    ensures r == s || (|r| < |s| && s[|r|] == sep)
  {
    if s == "" || s[0] == sep then "" else [s[0]] + Before(s[1..], sep)
  }

  lemma {:induction false} BeforeConcat(a: string, sep: char, b: string)
    requires sep !in a && (b == "" || b[0] == sep)
    ensures Before(a + b, sep) == a
  {
    if a != "" {
      BeforeConcat(a[1..], sep, b);
      assert (a + b)[1..] == a[1..] + b;
    }
  }

  /** Index of the last occurrence of `c`. */
  function LastIndexOf(s: string, c: char): (r: Option<nat>)
    ensures r.Some? ==> r.value < |s| && s[r.value] == c && c !in s[r.value + 1..]
    ensures r.None? ==> c !in s
  {
    if s == "" then None
    else if s[|s| - 1] == c then Some(|s| - 1)
    else
      var r := LastIndexOf(s[..|s| - 1], c);
      assert s == s[..|s| - 1] + [s[|s| - 1]];
      assert r.Some? ==> s[r.value + 1..] == s[..|s| - 1][r.value + 1..] + [s[|s| - 1]];
      r
  }

  lemma {:induction false} LastIndexIs(s: string, c: char, j: nat)
    requires j < |s| && s[j] == c && c !in s[j + 1..]
    ensures LastIndexOf(s, c) == Some(j)
  {
    if j < |s| - 1 {
      assert s[|s| - 1] == s[j + 1..][|s| - j - 2];
      assert s[..|s| - 1][j + 1..] == s[j + 1..][..|s| - j - 2];
      LastIndexIs(s[..|s| - 1], c, j);
    }
  }

  /** `str::rsplit_once(sep)`. */
  function SplitLast(s: string, sep: char): Option<(string, string)> {
    match LastIndexOf(s, sep)
    case None => None
    case Some(i) => Some((s[..i], s[i + 1..]))
  }

  lemma SplitLastOf(a: string, sep: char, b: string)
    requires sep !in b
    ensures SplitLast(a + [sep] + b, sep) == Some((a, b))
  {
    var s := a + [sep] + b;
    assert s[..|a|] == a && s[|a| + 1..] == b;
    LastIndexIs(s, sep, |a|);
  }

  // ------------------------------------------------------------- characters

  function LowerChar(c: char): char {
    if 'A' <= c <= 'Z' then (c as int + 32) as char else c
  }

  /** ASCII lower-casing. */
  function Lower(s: string): (r: string)
    ensures |r| == |s| && forall i :: 0 <= i < |s| ==> r[i] == LowerChar(s[i])
  {
    seq(|s|, i requires 0 <= i < |s| => LowerChar(s[i]))
  }

  predicate IsDigit(c: char) {
    '0' <= c <= '9'
  }

  function DigitValue(c: char): nat
    requires IsDigit(c)
  {
    c as int - '0' as int
  }

  function DigitChar(d: nat): (c: char)
    requires d < 10
    ensures IsDigit(c) && DigitValue(c) == d
  {
    ('0' as int + d) as char
  }

  /** The value of a string of decimal digits. */
  function DigitsValue(s: string): Option<nat> {
    if s == "" then Some(0)
    else
      var high := DigitsValue(s[..|s| - 1]);
      var last := s[|s| - 1];
      if high.Some? && IsDigit(last) then Some(10 * high.value + DigitValue(last)) else None
  }

  /** Decimal representation without leading zeros. */
  function Decimal(n: nat): (s: string)
    ensures s != "" && forall i :: 0 <= i < |s| ==> IsDigit(s[i])
  {
    if n < 10 then [DigitChar(n)] else Decimal(n / 10) + [DigitChar(n % 10)]
  }

  lemma {:induction false} DecimalValue(n: nat)
    ensures DigitsValue(Decimal(n)) == Some(n)
  {
    var s := Decimal(n);
    if n < 10 {
      assert s[..|s| - 1] == "";
    } else {
      DecimalValue(n / 10);
      assert s[..|s| - 1] == Decimal(n / 10);
    }
  }
}
