/** Upstream addresses: proxy.rs takes them apart before every attempt. */
module Addresses {
  import opened Wrappers
  import opened Strings

  datatype AddressError = InvalidPort | MissingHost

  const SCHEME := "http://"
  const DEFAULT_PORT: nat := 80
  const PORT_LIMIT: nat := 0x1_0000

  /** `str::parse::<u16>`: an optional plus sign and at least one digit, with
      a value that fits. */
  function ParsePort(s: string): Option<nat> {
    if s == "" then None
    else
      var digits := if s[0] == '+' then s[1..] else s;
      if digits == "" then None
      else match DigitsValue(digits)
           case Some(n) => if n < PORT_LIMIT then Some(n) else None
           case None => None
  }

  function StripPrefix(s: string, prefix: string): string {
    if prefix <= s then s[|prefix|..] else s
  }

  /** Host and port of an upstream address; a path after them is ignored. */
  function HostPort(upstream: string): Result<(string, nat), AddressError> {
    PairOf(Before(StripPrefix(upstream, SCHEME), '/'))
  }

  function PairOf(authority: string): Result<(string, nat), AddressError> {
    match SplitLast(authority, ':')
    case Some((host, port)) =>
      (match ParsePort(port)
       case None => Err(InvalidPort)
       case Some(p) => if host == "" then Err(MissingHost) else Ok((host, p)))
    case None =>
      if authority == "" then Err(MissingHost) else Ok((authority, DEFAULT_PORT))
  }

  /** How an attempt prints the pair it parsed. */
  function Print(host: string, port: nat): string {
    host + ":" + Decimal(port)
  }

  /** What a host and port pair of a parsed address looks like. */
  predicate Printable(host: string, port: nat) {
    host != "" && '/' !in host && port < PORT_LIMIT
  }

  lemma DecimalParses(port: nat)
    requires port < PORT_LIMIT
    ensures ParsePort(Decimal(port)) == Some(port)
    ensures ':' !in Decimal(port) && '/' !in Decimal(port)
  {
    DecimalValue(port);
    assert IsDigit(Decimal(port)[0]);
  }

  /** Printing a pair and parsing it again gives the pair back, whatever path
      follows and however many colons the host has. */
  lemma RoundTrip(host: string, port: nat, path: string)
    requires Printable(host, port)
    requires path == "" || path[0] == '/'
    ensures HostPort(SCHEME + Print(host, port) + path) == Ok((host, port))
  {
    var text := Print(host, port);
    DecimalParses(port);
    assert (SCHEME + text + path)[|SCHEME|..] == text + path;
    assert SCHEME <= SCHEME + text + path;
    BeforeConcat(text, '/', path);
    SplitLastOf(host, ':', Decimal(port));
    assert text == host + [':'] + Decimal(port);
  }

  lemma ParsedIsPrintable(upstream: string)
    ensures HostPort(upstream).Ok? ==> Printable(HostPort(upstream).value.0, HostPort(upstream).value.1)
  {
    var rest := Before(StripPrefix(upstream, SCHEME), '/');
    var last := LastIndexOf(rest, ':');
    if last.Some? {
      assert forall c :: c in rest[..last.value] ==> c in rest;
    }
  }

  /** Parsing what was printed from a parsed address changes nothing. */
  lemma ParsePrintParse(upstream: string, path: string)
    requires HostPort(upstream).Ok?
    requires path == "" || path[0] == '/'
    ensures var (host, port) := HostPort(upstream).value;
            HostPort(SCHEME + Print(host, port) + path) == HostPort(upstream)
  {
    ParsedIsPrintable(upstream);
    var (host, port) := HostPort(upstream).value;
    RoundTrip(host, port, path);
  }

  // ------------------------------------------------------------- other forms

  /** The scheme may be left out. */
  lemma SchemeOptional(rest: string)
    requires !("http://" <= rest)
    ensures HostPort("http://" + rest) == HostPort(rest)
  {
    assert ("http://" + rest)[|"http://"|..] == rest;
    assert |"http://"| == 7;
  }

  /** The text after the last colon of an authority is a port, whose number is
      `port`. */
  ghost predicate PortAfterColon(authority: string, host: string, port: nat) {
    exists i :: 0 <= i < |authority| && ColonAt(authority, i, host, port)
  }

  ghost predicate ColonAt(authority: string, i: nat, host: string, port: nat) {
    && i < |authority| && authority[i] == ':' && ':' !in authority[i + 1..]
    && host == authority[..i] && ParsePort(authority[i + 1..]) == Some(port)
  }

  /** What an address stands for, exactly: the authority up to the first slash
      is a host and, after the last colon, a port, or a host alone, whose port is
      then 80; the host is never empty. */
  lemma HostPortExactly(authority: string, path: string, host: string, port: nat)
    requires '/' !in authority && (path == "" || path[0] == '/')
    ensures HostPort("http://" + authority + path) == Ok((host, port)) <==>
            host != "" &&
            if ':' in authority then PortAfterColon(authority, host, port) else host == authority && port == 80
  {
    hide PairOf, PortAfterColon;
    AuthorityOf(authority, path);
    PairExactly(authority, host, port);
  }

  lemma AuthorityOf(authority: string, path: string)
    requires '/' !in authority && (path == "" || path[0] == '/')
    ensures HostPort("http://" + authority + path) == PairOf(authority)
  {
    hide PairOf;
    assert ("http://" + authority + path)[|SCHEME|..] == authority + path;
    assert SCHEME <= "http://" + authority + path;
    BeforeConcat(authority, '/', path);
  }

  lemma PairExactly(authority: string, host: string, port: nat)
    ensures PairOf(authority) == Ok((host, port)) <==>
            host != "" &&
            if ':' in authority then PortAfterColon(authority, host, port) else host == authority && port == 80
  {
    hide ParsePort;
    var last := LastIndexOf(authority, ':');
    if i :| 0 <= i < |authority| && ColonAt(authority, i, host, port) {
      LastIndexIs(authority, ':', i);
    }
    if last.Some? && PairOf(authority) == Ok((host, port)) {
      assert ColonAt(authority, last.value, host, port);
    }
  }

  predicate Digits(s: string) {
    s != "" && forall i :: 0 <= i < |s| ==> '0' <= s[i] <= '9'
  }

  /** A port is written in decimal digits, zeros in front and one plus sign
      allowed, and is below 65 536. */
  lemma PortExactly(s: string)
    ensures ParsePort(s).Some? <==>
            var digits := if "+" <= s then s[1..] else s;
            Digits(digits) && NumberOf(digits) < 65_536
    ensures ParsePort(s).Some? ==> ParsePort(s).value == NumberOf(if "+" <= s then s[1..] else s)
  {
    assert "+" <= s <==> s != "" && s[0] == '+';
    var digits := if "+" <= s then s[1..] else s;
    if digits != "" {
      NumberIsValue(digits);
    }
  }

  /** The number that decimal digits stand for, the first weighing most. */
  function NumberOf(s: string): nat {
    if s == "" then 0
    else (if '0' <= s[0] <= '9' then s[0] as int - '0' as int else 0) * TenTo(|s| - 1) + NumberOf(s[1..])
  }

  function TenTo(n: nat): nat {
    if n == 0 then 1 else 10 * TenTo(n - 1)
  }

  lemma {:induction false} NumberExtends(s: string, c: char)
    requires '0' <= c <= '9'
    ensures NumberOf(s + [c]) == 10 * NumberOf(s) + (c as int - '0' as int)
  {
    if s == "" {
      assert [c][1..] == "";
      assert s + [c] == [c];
    } else {
      NumberExtends(s[1..], c);
      assert (s + [c])[1..] == s[1..] + [c];
      TenTimes(if '0' <= s[0] <= '9' then s[0] as int - '0' as int else 0, TenTo(|s| - 1));
    }
  }

  lemma TenTimes(d: nat, t: nat)
    ensures d * (10 * t) == 10 * (d * t)
  {
  }

  lemma {:induction false} NumberIsValue(s: string)
    requires s != ""
    ensures DigitsValue(s).Some? <==> Digits(s)
    ensures Digits(s) ==> DigitsValue(s) == Some(NumberOf(s))
  {
    var n := |s| - 1;
    assert s == s[..n] + [s[n]];
    if n > 0 {
      NumberIsValue(s[..n]);
    }
    if IsDigit(s[n]) {
      NumberExtends(s[..n], s[n]);
    }
  }
}
