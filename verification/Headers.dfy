/** Header handling of proxy.rs: what each attempt sends to an upstream. */
module Headers {
  import opened Wrappers
  import opened Strings

  /** A header map: for each lower-case name, its values in order. */
  type Fields = f: map<string, seq<string>> | forall n :: n in f ==> f[n] != []

  /** Overrides in the order in which the configured map is iterated. */
  type Overrides = seq<(string, string)>

  const HOP_BY_HOP: seq<string> := [
    "connection", "keep-alive", "proxy-authenticate", "proxy-authorization",
    "te", "trailer", "transfer-encoding", "upgrade"
  ]
  const HOST := "host"
  const FORWARDED_FOR := "x-forwarded-for"
  const FORWARDED_PROTO := "x-forwarded-proto"
  const FINGERPRINT := "x-client-cert-fingerprint"
  const MAX_NAME_LENGTH: nat := 0xFFFF

  /** `HeaderMap::insert`: one value in place of all earlier ones. */
  function Put(f: Fields, name: string, value: string): Fields {
    f[name := [value]]
  }

  // ----------------------------------------------------------------- tokens

  /** Token characters (section 5.6.2 of RFC 9110). */
  predicate IsTokenChar(c: char) {
    'a' <= c <= 'z' || 'A' <= c <= 'Z' || IsDigit(c) || c in "!#$%&'*+-.^_`|~"
  }

  /** A header name, folded to lower case. */
  function ParseName(s: string): Option<string> {
    if 0 < |s| <= MAX_NAME_LENGTH && forall i :: 0 <= i < |s| ==> IsTokenChar(s[i])
    then Some(Lower(s)) else None
  }

  /** What a header value may hold at all. */
  predicate ValidValue(v: string) {
    forall i :: 0 <= i < |v| ==> (' ' <= v[i] && v[i] != 127 as char) || v[i] == '\t'
  }

  /** Values that can be read back as text. */
  predicate Visible(v: string) {
    forall i :: 0 <= i < |v| ==> ' ' <= v[i] <= '~' || v[i] == '\t'
  }

  predicate IsBlank(c: char) {
    c == ' ' || c == '\t'
  }

  function TrimStart(s: string): string {
    if s != "" && IsBlank(s[0]) then TrimStart(s[1..]) else s
  }

  function TrimEnd(s: string): string {
    if s != "" && IsBlank(s[|s| - 1]) then TrimEnd(s[..|s| - 1]) else s
  }

  function Trim(s: string): string {
    TrimEnd(TrimStart(s))
  }

  /** The character classes in other words: tokens are made of the visible
      characters that delimit nothing (section 5.6.2 of RFC 9110); values hold no
      control characters but tabs; those of text are ASCII. */
  lemma CharacterClasses(c: char)
    ensures IsTokenChar(c) <==> '!' <= c <= '~' && c !in "\"(),/:;<=>?@[\\]{}"
    ensures ValidValue([c]) <==> c == '\t' || (c as int >= 32 && c as int != 127)
    ensures Visible([c]) <==> ValidValue([c]) && c as int < 128
    ensures IsBlank(c) <==> c as int == 32 || c as int == 9
  {
    assert [c][0] == c;
  }

  lemma Characterwise(v: string)
    ensures ValidValue(v) <==> forall i :: 0 <= i < |v| ==> ValidValue([v[i]])
    ensures Visible(v) <==> forall i :: 0 <= i < |v| ==> Visible([v[i]])
  {
    assert forall i :: 0 <= i < |v| ==> [v[i]][0] == v[i];
  }

  /** Positions `i` up to `j` of `s` hold blanks. */
  ghost predicate Blanks(s: string, i: nat, j: nat)
    requires j <= |s|
  {
    forall k :: i <= k < j ==> IsBlank(s[k])
  }

  /** Trimming cuts blanks off both ends, and all of them. */
  lemma {:induction false} TrimCuts(s: string) returns (p: nat, q: nat)
    ensures p <= q <= |s| && Trim(s) == s[p..q] && Blanks(s, 0, p) && Blanks(s, q, |s|)
    ensures p < q ==> !IsBlank(s[p]) && !IsBlank(s[q - 1])
  {
    hide IsBlank;
    p := TrimStartCuts(s);
    var k := TrimEndCuts(s[p..]);
    q := p + k;
    assert forall i :: q <= i < |s| ==> s[i] == s[p..][i - p];
  }

  lemma {:induction false} TrimStartCuts(s: string) returns (p: nat)
    ensures p <= |s| && TrimStart(s) == s[p..] && Blanks(s, 0, p) && (p < |s| ==> !IsBlank(s[p]))
  {
    p := 0;
    if s != "" && IsBlank(s[0]) {
      p := TrimStartCuts(s[1..]);
      assert forall i :: 1 <= i < p + 1 ==> s[i] == s[1..][i - 1];
      assert s[p + 1..] == s[1..][p..];
      p := p + 1;
    }
  }

  lemma {:induction false} TrimEndCuts(s: string) returns (q: nat)
    ensures q <= |s| && TrimEnd(s) == s[..q] && Blanks(s, q, |s|) && (q > 0 ==> !IsBlank(s[q - 1]))
  {
    q := |s|;
    if s != "" && IsBlank(s[|s| - 1]) {
      var n := |s| - 1;
      q := TrimEndCuts(s[..n]);
      assert forall i :: q <= i < n ==> s[i] == s[..n][i];
      assert s[..n][..q] == s[..q];
    }
  }

  /** What is left is all there is between blanks. */
  lemma TrimUnique(s: string, p: nat, q: nat)
    requires p < q <= |s| && Blanks(s, 0, p) && Blanks(s, q, |s|) && !IsBlank(s[p]) && !IsBlank(s[q - 1])
    ensures Trim(s) == s[p..q]
  {
    hide Trim, IsBlank;
    var a, b := TrimCuts(s);
  }

  // ------------------------------------------------------------- hop by hop

  function NamesIn(pieces: seq<string>): seq<string> {
    if pieces == [] then []
    else match ParseName(Trim(pieces[0]))
         case Some(n) => [n] + NamesIn(pieces[1..])
         case None => NamesIn(pieces[1..])
  }

  function NamesOf(values: seq<string>): seq<string> {
    if values == [] then []
    else (if Visible(values[0]) then NamesIn(Split(values[0], ',')) else []) + NamesOf(values[1..])
  }

  /** The header names the Connection header lists. */
  function Named(f: Fields): seq<string> {
    if "connection" in f then NamesOf(f["connection"]) else []
  }

  function RemoveAll(f: Fields, names: seq<string>): Fields {
    if names == [] then f else RemoveAll(f - {names[0]}, names[1..])
  }

  function Strip(f: Fields): Fields {
    RemoveAll(RemoveAll(f, Named(f)), HOP_BY_HOP)
  }

  lemma {:induction false} RemoveAllExact(f: Fields, names: seq<string>, n: string)
    ensures n in RemoveAll(f, names) <==> n in f && n !in names
    ensures n in RemoveAll(f, names) ==> RemoveAll(f, names)[n] == f[n]
  {
    if names != [] {
      RemoveAllExact(f - {names[0]}, names[1..], n);
    }
  }

  lemma {:induction false} NamesInExact(pieces: seq<string>, n: string)
    ensures n in NamesIn(pieces) <==>
            exists i :: 0 <= i < |pieces| && ParseName(Trim(pieces[i])) == Some(n)
  {
    if pieces != [] {
      NamesInExact(pieces[1..], n);
      if i :| 0 <= i < |pieces| && ParseName(Trim(pieces[i])) == Some(n) {
        if i > 0 {
          assert pieces[1..][i - 1] == pieces[i];
        }
      }
    }
  }

  /** `s` is a token that names header `n`. */
  ghost predicate TokenNamed(s: string, n: string) {
    0 < |s| <= MAX_NAME_LENGTH && (forall i :: 0 <= i < |s| ==> IsTokenChar(s[i])) && Lower(s) == n
  }

  /** A token that names `n` lies between blanks in `piece`. */
  ghost predicate NamedBetweenBlanks(piece: string, n: string) {
    exists p: nat, q: nat :: NamedAt(piece, p, q, n)
  }

  ghost predicate NamedAt(piece: string, p: nat, q: nat, n: string) {
    p <= q <= |piece| && Blanks(piece, 0, p) && TokenNamed(piece[p..q], n) && Blanks(piece, q, |piece|)
  }

  lemma PieceNames(piece: string, n: string)
    ensures ParseName(Trim(piece)) == Some(n) <==> NamedBetweenBlanks(piece, n)
  {
    var p, q := TrimCuts(piece);
    if ParseName(Trim(piece)) == Some(n) {
      assert NamedAt(piece, p, q, n);
    }
    if a: nat, b: nat :| NamedAt(piece, a, b, n) {
      assert IsTokenChar(piece[a..b][0]) && IsTokenChar(piece[a..b][b - a - 1]);
      TrimUnique(piece, a, b);
    }
  }

  /** A readable line lists `n`: one of the pieces between its commas is a token
      that names `n`, with or without blanks around it. */
  ghost predicate Lists(value: string, n: string) {
    Visible(value) && exists i: nat, j: nat :: ListsAt(value, i, j, n)
  }

  ghost predicate ListsAt(value: string, i: nat, j: nat, n: string) {
    PieceAt(value, ',', i, j) && NamedBetweenBlanks(value[i..j], n)
  }

  lemma LineNames(value: string, n: string)
    ensures (exists k :: 0 <= k < |Split(value, ',')| && ParseName(Trim(Split(value, ',')[k])) == Some(n)) <==>
            exists i: nat, j: nat :: ListsAt(value, i, j, n)
  {
    hide Split, ParseName, Trim, NamedBetweenBlanks;
    var pieces := Split(value, ',');
    if k :| 0 <= k < |pieces| && ParseName(Trim(pieces[k])) == Some(n) {
      var i, j := SplitOffIsPiece(value, ',', k);
      PieceNames(pieces[k], n);
      assert ListsAt(value, i, j, n);
    }
    if i: nat, j: nat :| ListsAt(value, i, j, n) {
      PieceIsSplitOff(value, ',', i, j);
      PieceNames(value[i..j], n);
      var k :| 0 <= k < |pieces| && pieces[k] == value[i..j];
    }
  }

  lemma {:induction false} NamesOfExact(values: seq<string>, n: string)
    ensures n in NamesOf(values) <==> exists k :: 0 <= k < |values| && Lists(values[k], n)
  {
    if values != [] {
      hide Split, ParseName, Trim, NamesIn, Visible, ListsAt;
      LineNames(values[0], n);
      NamesOfExact(values[1..], n);
      NamesInExact(Split(values[0], ','), n);
      if k :| 0 <= k < |values| && Lists(values[k], n) {
        if k > 0 {
          assert values[1..][k - 1] == values[k];
        }
      }
      if k :| 0 <= k < |values[1..]| && Lists(values[1..][k], n) {
        assert Lists(values[k + 1], n);
      }
    }
  }

  /** Some Connection header line lists `n`. */
  ghost predicate ConnectionLists(f: Fields, n: string) {
    "connection" in f && exists k :: 0 <= k < |f["connection"]| && Lists(f["connection"][k], n)
  }

  lemma NamedExact(f: Fields, n: string)
    ensures n in Named(f) <==> ConnectionLists(f, n)
  {
    hide Lists, NamesOf;
    if "connection" in f {
      NamesOfExact(f["connection"], n);
    }
  }

  lemma NothingNamedAfterStrip(f: Fields)
    ensures Named(Strip(f)) == []
  {
    assert HOP_BY_HOP[0] == "connection";
    StripByName(f, "connection");
  }

  /** Stripping removes exactly the fixed hop-by-hop fields and the ones the
      Connection header lists (section 7.6.1 of RFC 9110), and keeps every
      other field's value list. */
  lemma StripExact(f: Fields, n: string)
    ensures n in Strip(f) <==> n in f && n !in HOP_BY_HOP && !ConnectionLists(f, n)
    ensures n in Strip(f) ==> Strip(f)[n] == f[n]
  {
    hide Strip, Named, ConnectionLists;
    StripByName(f, n);
    NamedExact(f, n);
  }

  /** Stripping twice changes nothing more. */
  lemma StripIdempotent(f: Fields)
    ensures Strip(Strip(f)) == Strip(f)
  {
    hide Strip, Named;
    NothingNamedAfterStrip(f);
    forall n
      ensures n in Strip(Strip(f)) <==> n in Strip(f)
      ensures n in Strip(f) ==> Strip(Strip(f))[n] == Strip(f)[n]
    {
      StripByName(f, n);
      StripByName(Strip(f), n);
    }
  }

  lemma StripByName(f: Fields, n: string)
    ensures n in Strip(f) <==> n in f && n !in HOP_BY_HOP && n !in Named(f)
    ensures n in Strip(f) ==> Strip(f)[n] == f[n]
  {
    RemoveAllExact(f, Named(f), n);
    RemoveAllExact(RemoveAll(f, Named(f)), HOP_BY_HOP, n);
  }

  // -------------------------------------------------------------- overrides

  function ApplyOne(f: Fields, name: string, value: string): Fields {
    match ParseName(name)
    case None => f
    case Some(n) => if value == "" then f - {n} else if ValidValue(value) then Put(f, n, value) else f
  }

  function ApplyOverrides(f: Fields, overrides: Overrides): Fields {
    if overrides == [] then f
    else
      var last := overrides[|overrides| - 1];
      ApplyOne(ApplyOverrides(f, overrides[..|overrides| - 1]), last.0, last.1)
  }

  /** An override that does something to header `n`. */
  predicate Affects(o: (string, string), n: string) {
    ParseName(o.0) == Some(n) && ValidValue(o.1)
  }

  /** The override that decides header `n`: the last one that affects it. */
  function Deciding(overrides: Overrides, n: string): (r: Option<string>)
    ensures r.Some? <==> exists i :: 0 <= i < |overrides| && Affects(overrides[i], n)
    ensures r.Some? ==> exists i :: 0 <= i < |overrides| && Affects(overrides[i], n) && overrides[i].1 == r.value
  {
    if overrides == [] then None
    else
      var k := |overrides| - 1;
      if Affects(overrides[k], n) then Some(overrides[k].1)
      else
        assert forall i :: 0 <= i < k ==> overrides[..k][i] == overrides[i];
        Deciding(overrides[..k], n)
  }

  /** The deciding override sets the header to its value alone, or removes it
      when that value is empty; other headers keep all their values. */
  lemma {:induction false} OverridesByName(f: Fields, overrides: Overrides, n: string)
    ensures var r := ApplyOverrides(f, overrides);
            match Deciding(overrides, n)
            case None => (n in r <==> n in f) && (n in r ==> r[n] == f[n])
            case Some(v) => (n in r <==> v != "") && (n in r ==> r[n] == [v])
  {
    if overrides != [] {
      OverridesByName(f, overrides[..|overrides| - 1], n);
    }
  }

  /** Overrides that affect the same header carry the same value. */
  ghost predicate Agreeing(overrides: Overrides) {
    forall i, j, n ::
      0 <= i < |overrides| && 0 <= j < |overrides| && Affects(overrides[i], n) && Affects(overrides[j], n) ==>
      overrides[i].1 == overrides[j].1
  }

  /** Every order of the overrides has the same result on every head. */
  ghost predicate OrderIrrelevant(overrides: Overrides) {
    forall other: Overrides, f: Fields :: multiset(other) == multiset(overrides) ==>
      ApplyOverrides(f, other) == ApplyOverrides(f, overrides)
  }

  /** The unspecified iteration order is immaterial exactly when no two
      overrides set one header to different values. */
  lemma OverrideOrderIrrelevant(overrides: Overrides)
    ensures OrderIrrelevant(overrides) <==> Agreeing(overrides)
  {
    hide ApplyOverrides, Affects, Agreeing;
    if Agreeing(overrides) {
      forall other: Overrides, f: Fields | multiset(other) == multiset(overrides)
        ensures ApplyOverrides(f, other) == ApplyOverrides(f, overrides)
      {
        AnyOrder(f, overrides, other);
      }
    } else {
      var other := OtherOrder(overrides);
    }
  }

  lemma AnyOrder(f: Fields, a: Overrides, b: Overrides)
    requires Agreeing(a) && multiset(a) == multiset(b)
    ensures ApplyOverrides(f, a) == ApplyOverrides(f, b)
  {
    hide ApplyOverrides, Affects, Agreeing;
    forall n
      ensures n in ApplyOverrides(f, a) <==> n in ApplyOverrides(f, b)
      ensures n in ApplyOverrides(f, a) ==> ApplyOverrides(f, a)[n] == ApplyOverrides(f, b)[n]
    {
      SameDeciding(a, b, n);
      OverridesByName(f, a, n);
      OverridesByName(f, b, n);
    }
  }

  lemma SameDeciding(a: Overrides, b: Overrides, n: string)
    requires Agreeing(a) && multiset(a) == multiset(b)
    ensures Deciding(a, n) == Deciding(b, n)
  {
    hide Affects, Deciding, Agreeing;
    SameMembers(a, b);
    SameMembers(b, a);
    if i :| 0 <= i < |a| && Affects(a[i], n) {
      assert a[i] in b;
      var j :| 0 <= j < |b| && b[j] == a[i];
      var k := LastDecides(a, n);
      var m := LastDecides(b, n);
      assert b[m] in a;
      var x :| 0 <= x < |a| && a[x] == b[m];
      AgreeOn(a, k, x, n);
    } else if j :| 0 <= j < |b| && Affects(b[j], n) {
      assert b[j] in a;
    }
  }

  lemma SameMembers(a: Overrides, b: Overrides)
    requires multiset(a) == multiset(b)
    ensures forall o :: o in a ==> o in b
  {
    forall o | o in a
      ensures o in b
    {
      assert o in multiset(a);
      assert o in multiset(b);
    }
  }

  lemma AgreeOn(overrides: Overrides, i: nat, j: nat, n: string)
    requires Agreeing(overrides) && i < |overrides| && j < |overrides|
    requires Affects(overrides[i], n) && Affects(overrides[j], n)
    ensures overrides[i].1 == overrides[j].1
  {
    hide Affects;
  }

  /** The last override that affects `n` decides it. */
  lemma {:induction false} LastDecides(overrides: Overrides, n: string) returns (k: nat)
    requires exists i :: 0 <= i < |overrides| && Affects(overrides[i], n)
    ensures k < |overrides| && Affects(overrides[k], n) && Deciding(overrides, n) == Some(overrides[k].1)
    ensures forall i :: k < i < |overrides| ==> !Affects(overrides[i], n)
  {
    k := |overrides| - 1;
    if !Affects(overrides[k], n) {
      assert forall i :: 0 <= i < |overrides| - 1 ==> overrides[..|overrides| - 1][i] == overrides[i];
      k := LastDecides(overrides[..|overrides| - 1], n);
    }
  }

  lemma {:induction false} DecidedBy(overrides: Overrides, n: string, k: nat)
    requires k < |overrides| && Affects(overrides[k], n)
    requires forall i :: k < i < |overrides| ==> !Affects(overrides[i], n)
    ensures Deciding(overrides, n) == Some(overrides[k].1)
  {
    var m := LastDecides(overrides, n);
  }

  function Exchanged(overrides: Overrides, i: nat, j: nat): (r: Overrides)
    requires i < |overrides| && j < |overrides|
    ensures multiset(r) == multiset(overrides)
    ensures |r| == |overrides| && r[j] == overrides[i]
    ensures forall k :: 0 <= k < |r| && k != i && k != j ==> r[k] == overrides[k]
  {
    overrides[i := overrides[j]][j := overrides[i]]
  }

  /** Two different values for one header can be put in either order. */
  lemma OtherOrder(overrides: Overrides) returns (other: Overrides)
    requires !Agreeing(overrides)
    ensures multiset(other) == multiset(overrides)
    ensures ApplyOverrides(map[], other) != ApplyOverrides(map[], overrides)
  {
    hide ApplyOverrides, Affects;
    var i, j, n :| && 0 <= i < |overrides| && 0 <= j < |overrides|
                   && Affects(overrides[i], n) && Affects(overrides[j], n) && overrides[i].1 != overrides[j].1;
    var k := LastDecides(overrides, n);
    var x := if overrides[i].1 != overrides[k].1 then i else j;
    other := Exchanged(overrides, x, k);
    assert other[k] == overrides[x] && x < k;
    hide Deciding;
    DecidedBy(other, n, k);
    OverridesByName(map[], overrides, n);
    OverridesByName(map[], other, n);
  }

  /** Names that differ in case only are names of one header. */
  lemma CaseClash()
    ensures !OrderIrrelevant([("X-A", "1"), ("x-a", "2")])
  {
    var overrides: Overrides := [("X-A", "1"), ("x-a", "2")];
    assert ParseName("X-A") == Some("x-a") && ParseName("x-a") == Some("x-a") by {
      assert Lower("X-A") == "x-a" && Lower("x-a") == "x-a";
    }
    assert Affects(overrides[0], "x-a") && Affects(overrides[1], "x-a");
    OverrideOrderIrrelevant(overrides);
  }

  // --------------------------------------------------------------- pipeline

  /** A verified client certificate replaces whatever the client sent. */
  function SetFingerprint(f: Fields, fingerprint: Option<string>): Fields {
    match fingerprint
    case Some(v) => Put(f - {FINGERPRINT}, FINGERPRINT, v)
    case None => f - {FINGERPRINT}
  }

  /** The forwarding chain: only the first field line is carried on. */
  function Forwarded(f: Fields, ip: string): string {
    if FORWARDED_FOR in f && Visible(f[FORWARDED_FOR][0])
    then f[FORWARDED_FOR][0] + ", " + ip
    else ip
  }

  lemma ForwardedIsValid(f: Fields, ip: string)
    requires Visible(ip)
    ensures ValidValue(Forwarded(f, ip))
  {
  }

  /** The chain the client sent, in full, and its address. */
  function WholeChain(f: Fields, ip: string): string {
    if FORWARDED_FOR in f then Joined(f[FORWARDED_FOR]) + ", " + ip else ip
  }

  /** Field lines of one header as a single list (section 5.3 of RFC 9110). */
  function Joined(lines: seq<string>): string
    requires lines != []
  {
    if |lines| == 1 then lines[0] else lines[0] + ", " + Joined(lines[1..])
  }

  /** At most one X-Forwarded-For line is left, and it can be read. */
  predicate OneReadableChain(f: Fields) {
    FORWARDED_FOR in f ==> |f[FORWARDED_FOR]| == 1 && Visible(f[FORWARDED_FOR][0])
  }

  lemma ForwardedExactly(f: Fields, ip: string)
    ensures Forwarded(f, ip) == WholeChain(f, ip) <==> OneReadableChain(f)
  {
    hide Visible;
    if FORWARDED_FOR in f {
      var lines := f[FORWARDED_FOR];
      assert |Joined(lines) + ", " + ip| == |Joined(lines)| + 2 + |ip|;
      if |lines| > 1 {
        assert |Joined(lines)| == |lines[0]| + 2 + |Joined(lines[1..])|;
        assert |lines[0] + ", " + ip| == |lines[0]| + 2 + |ip|;
      }
    }
  }

  function AppendForwarded(f: Fields, ip: string, proto: string): Fields {
    Put(Put(f, FORWARDED_FOR, Forwarded(f, ip)), FORWARDED_PROTO, proto)
  }

  /** The client side of a request: its address, scheme and, after mutual TLS,
      the fingerprint of its certificate. */
  datatype Client = Client(ip: string, proto: string, fingerprint: Option<string>)

  predicate ValidClient(c: Client) {
    && c.ip != "" && Visible(c.ip)
    && (c.fingerprint.Some? ==> ValidValue(c.fingerprint.value))
  }

  /** The head before it is handed to `proxy_request`. */
  function Rewritten(head: Fields, overrides: Overrides, client: Client): Fields {
    SetFingerprint(ApplyOverrides(head, overrides), client.fingerprint)
  }

  /** The head an attempt sends to the upstream printed as `authority`. */
  function AttemptHead(head: Fields, overrides: Overrides, client: Client, authority: string): Fields {
    AppendForwarded(Put(Strip(Rewritten(head, overrides, client)), HOST, authority), client.ip, client.proto)
  }

  /** Exactly one Host, X-Forwarded-Proto and X-Forwarded-For value each; the
      last is the first surviving chain with the client's address added once. */
  lemma AttemptHeadAddresses(head: Fields, overrides: Overrides, client: Client, authority: string)
    ensures var sent := AttemptHead(head, overrides, client, authority);
            var kept := Strip(Rewritten(head, overrides, client));
            && HOST in sent && sent[HOST] == [authority]
            && FORWARDED_PROTO in sent && sent[FORWARDED_PROTO] == [client.proto]
            && FORWARDED_FOR in sent && |sent[FORWARDED_FOR]| == 1
            && (sent[FORWARDED_FOR][0] == client.ip ||
                (FORWARDED_FOR in kept && sent[FORWARDED_FOR][0] == kept[FORWARDED_FOR][0] + ", " + client.ip))
            && (sent[FORWARDED_FOR][0] == client.ip <==>
                !(FORWARDED_FOR in kept && Visible(kept[FORWARDED_FOR][0])))
  {
    hide Strip, Rewritten, Visible;
    DistinctNames();
    var kept := Strip(Rewritten(head, overrides, client));
    if FORWARDED_FOR in kept {
      assert |kept[FORWARDED_FOR][0] + ", " + client.ip| > |client.ip|;
    }
  }

  /** The Connection header an attempt would send lists the chain's header. */
  predicate ChainDropped(head: Fields, overrides: Overrides) {
    FORWARDED_FOR in Named(ApplyOverrides(head, overrides))
  }

  /** The condition under which the chain the client sent goes on in full. If no
      override decides the header: the client sent at most one line, readable,
      and Connection does not list the header. An override that removes the
      header only leaves an absent chain whole; one that sets it, only a chain
      of that very text, or an absent one if the text does not get through. */
  ghost predicate ChainSurvives(head: Fields, overrides: Overrides) {
    match Deciding(overrides, FORWARDED_FOR)
    case None => OneReadableChain(head) && (FORWARDED_FOR in head ==> !ChainDropped(head, overrides))
    case Some(v) =>
      if v == "" then FORWARDED_FOR !in head
      else if FORWARDED_FOR in head then
        v == Joined(head[FORWARDED_FOR]) && Visible(v) && !ChainDropped(head, overrides)
      else !Visible(v) || ChainDropped(head, overrides)
  }

  lemma ChainAfterStrip(head: Fields, overrides: Overrides, client: Client)
    ensures var kept := Strip(Rewritten(head, overrides, client));
            var rewritten := ApplyOverrides(head, overrides);
            && (FORWARDED_FOR in kept <==> FORWARDED_FOR in rewritten && !ChainDropped(head, overrides))
            && (FORWARDED_FOR in kept ==> kept[FORWARDED_FOR] == rewritten[FORWARDED_FOR])
  {
    hide Strip, Named, ApplyOverrides;
    var rewritten := ApplyOverrides(head, overrides);
    DistinctNames();
    ChainIsEndToEnd();
    FingerprintNamesNothing(rewritten, client.fingerprint);
    StripByName(Rewritten(head, overrides, client), FORWARDED_FOR);
  }

  lemma ChainIsEndToEnd()
    ensures FORWARDED_FOR !in HOP_BY_HOP
  {
    assert |FORWARDED_FOR| == 15;
    assert forall n :: n in HOP_BY_HOP ==> |n| != 15;
  }

  /** The chain an attempt sends, given what is left of the client's. */
  lemma ChainOf(head: Fields, overrides: Overrides, client: Client, authority: string)
    ensures var kept := Strip(Rewritten(head, overrides, client));
            var sent := AttemptHead(head, overrides, client, authority);
            FORWARDED_FOR in sent && sent[FORWARDED_FOR] == [Forwarded(kept, client.ip)]
  {
    hide Strip, Rewritten, Forwarded;
    DistinctNames();
    HostNotInChain(Strip(Rewritten(head, overrides, client)), authority, client.ip);
  }

  lemma ChainLengths(lines: seq<string>, v: string, ip: string)
    requires lines != []
    ensures Joined(lines) + ", " + ip != ip
    ensures v + ", " + ip == Joined(lines) + ", " + ip <==> v == Joined(lines)
    ensures v + ", " + ip != ip
  {
    assert |Joined(lines) + ", " + ip| == |Joined(lines)| + 2 + |ip|;
    assert |v + ", " + ip| == |v| + 2 + |ip|;
    if v + ", " + ip == Joined(lines) + ", " + ip {
      assert v == (v + ", " + ip)[..|v|];
      assert Joined(lines) == (Joined(lines) + ", " + ip)[..|Joined(lines)|];
    }
  }

  /** Exactly when "appends to any client-supplied chain" holds: an attempt
      sends the chain the client sent, in full, and the client's address. */
  lemma ChainCarriedExactly(head: Fields, overrides: Overrides, client: Client, authority: string)
    ensures var sent := AttemptHead(head, overrides, client, authority);
            && FORWARDED_FOR in sent
            && (sent[FORWARDED_FOR] == [WholeChain(head, client.ip)] <==> ChainSurvives(head, overrides))
  {
    hide Strip, Rewritten, Visible, AttemptHead, ChainDropped, ApplyOverrides, Joined;
    ChainOf(head, overrides, client, authority);
    ChainAfterStrip(head, overrides, client);
    OverridesByName(head, overrides, FORWARDED_FOR);
    ForwardedExactly(head, client.ip);
    if FORWARDED_FOR in head {
      ChainLengths(head[FORWARDED_FOR], head[FORWARDED_FOR][0], client.ip);
      if Deciding(overrides, FORWARDED_FOR).Some? {
        ChainLengths(head[FORWARDED_FOR], Deciding(overrides, FORWARDED_FOR).value, client.ip);
      }
    } else if Deciding(overrides, FORWARDED_FOR).Some? {
      ChainLengths([""], Deciding(overrides, FORWARDED_FOR).value, client.ip);
    }
  }

  lemma HostNotInChain(f: Fields, authority: string, ip: string)
    ensures Forwarded(Put(f, HOST, authority), ip) == Forwarded(f, ip)
  {
    hide Visible;
    DistinctNames();
  }

  /** Of two lines the second is lost, and both are if the first cannot be
      read. */
  lemma SecondChainLost(a: string, b: string, client: Client, authority: string)
    ensures var sent := AttemptHead(map[FORWARDED_FOR := [a, b]], [], client, authority);
            && FORWARDED_FOR in sent
            && sent[FORWARDED_FOR] == [if Visible(a) then a + ", " + client.ip else client.ip]
            && sent[FORWARDED_FOR] != [a + ", " + b + ", " + client.ip]
  {
    hide Strip, Visible, Rewritten;
    var head: Fields := map[FORWARDED_FOR := [a, b]];
    var rewritten := Rewritten(head, [], client);
    TwoLinesRewritten(a, b, client);
    ChainPassesStrip(rewritten);
    HostNotInChain(Strip(rewritten), authority, client.ip);
    ChainSent(Strip(rewritten), client.ip, client.proto, authority);
    assert |a + ", " + b + ", " + client.ip| == |a| + |b| + |client.ip| + 4;
    assert |a + ", " + client.ip| == |a| + |client.ip| + 2;
  }

  lemma TwoLinesRewritten(a: string, b: string, client: Client)
    ensures var rewritten := Rewritten(map[FORWARDED_FOR := [a, b]], [], client);
            "connection" !in rewritten && FORWARDED_FOR in rewritten && rewritten[FORWARDED_FOR] == [a, b]
  {
    DistinctNames();
    FingerprintPassesStrip();
    assert |"connection"| == 10 && |FORWARDED_FOR| == 15;
  }

  lemma ChainSent(f: Fields, ip: string, proto: string, authority: string)
    ensures var sent := AppendForwarded(Put(f, HOST, authority), ip, proto);
            FORWARDED_FOR in sent && sent[FORWARDED_FOR] == [Forwarded(Put(f, HOST, authority), ip)]
  {
    hide Forwarded;
    DistinctNames();
  }

  /** A Connection header that consists of one header name lists that name. */
  lemma ConnectionListsOne(f: Fields, name: string)
    requires "connection" in f && f["connection"] == [name]
    requires Visible(name) && ',' !in name && Trim(name) == name && ParseName(name) == Some(name)
    ensures Named(f) == [name]
  {
    SplitWithout(name, ',');
    hide Split, ParseName, Trim, Visible;
    assert NamesIn([name]) == [name] by {
      assert [name][1..] == [];
      assert NamesIn([]) == [];
    }
    assert [name][1..] == [];
    assert NamesOf([]) == [];
  }

  predicate SmallLetters(name: string) {
    forall i :: 0 <= i < |name| ==> 'a' <= name[i] <= 'z' || name[i] == '-'
  }

  lemma PlainName(name: string)
    requires 0 < |name| <= MAX_NAME_LENGTH && SmallLetters(name)
    ensures Visible(name) && ',' !in name && Trim(name) == name && ParseName(name) == Some(name)
  {
    assert Lower(name) == name;
    assert !IsBlank(name[0]) && !IsBlank(name[|name| - 1]);
  }

  lemma NamesInSmallLetters()
    ensures |FORWARDED_FOR| == 15 && SmallLetters(FORWARDED_FOR)
    ensures |FINGERPRINT| == 25 && SmallLetters(FINGERPRINT)
  {
  }

  /** A head whose Connection header lists the chain's header. */
  function ConnectionNames(name: string, chain: string): Fields {
    map["connection" := [name], FORWARDED_FOR := [chain]]
  }

  lemma ConnectionNamesOne(name: string, chain: string)
    requires name == FORWARDED_FOR || name == FINGERPRINT
    ensures Named(ConnectionNames(name, chain)) == [name]
    ensures ApplyOverrides(ConnectionNames(name, chain), []) == ConnectionNames(name, chain)
  {
    hide Named, Trim, ParseName, Visible, SmallLetters;
    NamesInSmallLetters();
    PlainName(name);
    ConnectionHeld(name, chain);
    ConnectionListsOne(ConnectionNames(name, chain), name);
  }

  lemma ConnectionHeld(name: string, chain: string)
    ensures "connection" in ConnectionNames(name, chain) && ConnectionNames(name, chain)["connection"] == [name]
  {
    assert |"connection"| == 10 && |FORWARDED_FOR| == 15;
  }

  /** A client can have its own chain dropped by listing it in Connection. */
  lemma ConnectionDropsChain(chain: string, client: Client, authority: string)
    ensures var sent := AttemptHead(ConnectionNames(FORWARDED_FOR, chain), [], client, authority);
            FORWARDED_FOR in sent && sent[FORWARDED_FOR] == [client.ip]
  {
    hide Strip, Rewritten, Visible, AttemptHead, ApplyOverrides, ConnectionNames, Named;
    var head := ConnectionNames(FORWARDED_FOR, chain);
    ConnectionNamesOne(FORWARDED_FOR, chain);
    ChainOf(head, [], client, authority);
    ChainAfterStrip(head, [], client);
    assert ChainDropped(head, []);
  }

  /** So can an override that removes the header. */
  lemma OverrideDropsChain(chain: string, client: Client, authority: string)
    ensures var sent := AttemptHead(map[FORWARDED_FOR := [chain]], [(FORWARDED_FOR, "")], client, authority);
            FORWARDED_FOR in sent && sent[FORWARDED_FOR] == [client.ip]
  {
    hide Strip, Rewritten, Visible, AttemptHead, ApplyOverrides, ParseName, SmallLetters;
    var head: Fields, overrides: Overrides := map[FORWARDED_FOR := [chain]], [(FORWARDED_FOR, "")];
    NamesInSmallLetters();
    PlainName(FORWARDED_FOR);
    assert Affects(overrides[0], FORWARDED_FOR);
    OverridesByName(head, overrides, FORWARDED_FOR);
    ChainOf(head, overrides, client, authority);
    ChainAfterStrip(head, overrides, client);
  }

  /** A client can likewise keep its verified fingerprint from being sent. */
  lemma ConnectionDropsFingerprint(chain: string, client: Client, authority: string)
    ensures FINGERPRINT !in AttemptHead(ConnectionNames(FINGERPRINT, chain), [], client, authority)
  {
    hide AttemptHead, ApplyOverrides, ConnectionNames, Named;
    ConnectionNamesOne(FINGERPRINT, chain);
    AttemptHeadIdentity(ConnectionNames(FINGERPRINT, chain), [], client, authority);
  }

  lemma ChainPassesStrip(f: Fields)
    requires "connection" !in f && FORWARDED_FOR in f
    ensures FORWARDED_FOR in Strip(f) && Strip(f)[FORWARDED_FOR] == f[FORWARDED_FOR]
  {
    hide Strip;
    assert |FORWARDED_FOR| == 15;
    assert forall n :: n in HOP_BY_HOP ==> |n| != 15;
    StripByName(f, FORWARDED_FOR);
  }

  /** The headers set on every attempt have four different names. */
  lemma DistinctNames()
    ensures HOST != FORWARDED_FOR && HOST != FORWARDED_PROTO && HOST != FINGERPRINT
    ensures FORWARDED_FOR != FORWARDED_PROTO && FORWARDED_FOR != FINGERPRINT && FORWARDED_PROTO != FINGERPRINT
  {
    assert |HOST| == 4 && |FORWARDED_FOR| == 15 && |FORWARDED_PROTO| == 17 && |FINGERPRINT| == 25;
  }

  lemma FingerprintPassesStrip()
    ensures FINGERPRINT != "connection" && FINGERPRINT !in HOP_BY_HOP
  {
    assert |FINGERPRINT| == 25;
    assert forall n :: n in HOP_BY_HOP ==> |n| < 20;
  }

  /** Neither an override's result nor a fingerprint changes what the
      Connection header lists. */
  lemma FingerprintNamesNothing(f: Fields, fingerprint: Option<string>)
    ensures Named(SetFingerprint(f, fingerprint)) == Named(f)
  {
    FingerprintPassesStrip();
  }

  /** The fingerprint header is absent or exactly the verified fingerprint,
      whatever the client or an override put there; it is sent if and only if
      one was verified and the outgoing Connection header does not list it. */
  lemma AttemptHeadIdentity(head: Fields, overrides: Overrides, client: Client, authority: string)
    ensures var sent := AttemptHead(head, overrides, client, authority);
            var rewritten := ApplyOverrides(head, overrides);
            && (FINGERPRINT in sent <==> client.fingerprint.Some? && FINGERPRINT !in Named(rewritten))
            && (FINGERPRINT in sent ==> sent[FINGERPRINT] == [client.fingerprint.value])
  {
    hide Strip, Named, ApplyOverrides;
    DistinctNames();
    FingerprintPassesStrip();
    FingerprintNamesNothing(ApplyOverrides(head, overrides), client.fingerprint);
    StripByName(Rewritten(head, overrides, client), FINGERPRINT);
  }

  /** Every other header is sent exactly when it survives the overrides and is
      neither hop-by-hop nor listed by Connection, with all its values. */
  lemma AttemptHeadPassThrough(head: Fields, overrides: Overrides, client: Client, authority: string, n: string)
    requires n !in {HOST, FORWARDED_FOR, FORWARDED_PROTO, FINGERPRINT}
    ensures var sent := AttemptHead(head, overrides, client, authority);
            var rewritten := ApplyOverrides(head, overrides);
            && (n in sent <==> n in rewritten && n !in HOP_BY_HOP && n !in Named(rewritten))
            && (n in sent ==> sent[n] == rewritten[n])
  {
    hide Strip, Named, ApplyOverrides;
    FingerprintNamesNothing(ApplyOverrides(head, overrides), client.fingerprint);
    StripByName(Rewritten(head, overrides, client), n);
  }

  /** Two attempts of one request differ in their Host header and nothing else. */
  lemma AttemptsDifferInHostOnly(head: Fields, overrides: Overrides, client: Client, a: string, b: string)
    ensures Put(AttemptHead(head, overrides, client, a), HOST, b) == AttemptHead(head, overrides, client, b)
  {
    hide Strip, Rewritten;
    HostChanges(Strip(Rewritten(head, overrides, client)), client.ip, client.proto, a, b);
  }

  lemma HostChanges(f: Fields, ip: string, proto: string, a: string, b: string)
    ensures Put(AppendForwarded(Put(f, HOST, a), ip, proto), HOST, b) == AppendForwarded(Put(f, HOST, b), ip, proto)
  {
    DistinctNames();
    assert Forwarded(Put(f, HOST, a), ip) == Forwarded(Put(f, HOST, b), ip);
    hide Forwarded;
    PutsCommute(f, a, b, Forwarded(Put(f, HOST, a), ip), proto);
  }

  lemma PutsCommute(f: Fields, a: string, b: string, chain: string, proto: string)
    ensures Put(Put(Put(Put(f, HOST, a), FORWARDED_FOR, chain), FORWARDED_PROTO, proto), HOST, b)
         == Put(Put(Put(f, HOST, b), FORWARDED_FOR, chain), FORWARDED_PROTO, proto)
  {
    DistinctNames();
    LastPutWins(f, HOST, FORWARDED_FOR, FORWARDED_PROTO, [a], [b], [chain], [proto]);
  }

  lemma LastPutWins<K, V>(m: map<K, V>, k: K, x: K, y: K, first: V, latest: V, vx: V, vy: V)
    requires k != x && k != y
    ensures m[k := first][x := vx][y := vy][k := latest] == m[k := latest][x := vx][y := vy]
  {
  }

  // ------------------------------------------------------------------ class

  /** The header map of one outgoing request, edited in place. */
  class HeaderMap {
    var fields: Fields

    constructor (initial: Fields)
      ensures fields == initial
    {
      fields := initial;
    }

    method Remove(name: string)
      modifies this
      ensures fields == old(fields) - {name}
    {
      fields := fields - {name};
    }

    method Insert(name: string, value: string)
      modifies this
      ensures fields == Put(old(fields), name, value)
    {
      fields := Put(fields, name, value);
    }

    method StripHopByHop()
      modifies this
      ensures fields == Strip(old(fields))
    {
      var named := Named(fields);
      for i := 0 to |named|
        invariant RemoveAll(fields, named[i..]) == RemoveAll(old(fields), named)
      {
        assert named[i..][1..] == named[i + 1..];
        Remove(named[i]);
      }
      ghost var middle := fields;
      for i := 0 to |HOP_BY_HOP|
        invariant RemoveAll(fields, HOP_BY_HOP[i..]) == RemoveAll(middle, HOP_BY_HOP)
      {
        assert HOP_BY_HOP[i..][1..] == HOP_BY_HOP[i + 1..];
        Remove(HOP_BY_HOP[i]);
      }
    }

    method Override(overrides: Overrides)
      modifies this
      ensures fields == ApplyOverrides(old(fields), overrides)
    {
      for i := 0 to |overrides|
        invariant fields == ApplyOverrides(old(fields), overrides[..i])
      {
        assert overrides[..i + 1][..i] == overrides[..i];
        var (name, value) := overrides[i];
        var parsed := ParseName(name);
        if parsed.Some? {
          if value == "" {
            Remove(parsed.value);
          } else if ValidValue(value) {
            Insert(parsed.value, value);
          }
        }
      }
      assert overrides[..|overrides|] == overrides;
    }

    method Identify(fingerprint: Option<string>)
      modifies this
      ensures fields == SetFingerprint(old(fields), fingerprint)
    {
      Remove(FINGERPRINT);
      if fingerprint.Some? {
        Insert(FINGERPRINT, fingerprint.value);
      }
    }

    method Forward(ip: string, proto: string)
      requires Visible(ip)
      modifies this
      ensures fields == AppendForwarded(old(fields), ip, proto)
    {
      var chain := ip;
      if FORWARDED_FOR in fields && Visible(fields[FORWARDED_FOR][0]) {
        chain := fields[FORWARDED_FOR][0] + ", " + ip;
      }
      ForwardedIsValid(fields, ip);
      hide Visible, ValidValue;
      if ValidValue(chain) {
        Insert(FORWARDED_FOR, chain);
      }
      Insert(FORWARDED_PROTO, proto);
    }
  }
}
