/** The URL validator of the wire layer and the independent splitter of the HTTPS client. */
module Url {
  import opened Basics

  const MAXIMUM_URL_BYTES := 2048
  const MAXIMUM_DNS_NAME_BYTES := 253
  const DEFAULT_PORT := 443

  const SLASH: byte := 47
  const QUESTION: byte := 63
  const COLON: byte := 58
  const DOT: byte := 46
  const OPEN: byte := 91
  const CLOSE: byte := 93
  const HYPHEN: byte := 45

  // ---------------------------------------------------------------- scanning

  /** Index of the first byte in `stops`, or the length: `str::find` with `unwrap_or(len)`. */
  function FirstOf(s: Text, stops: set<byte>): (n: nat)
    ensures n <= |s|
    ensures forall i :: 0 <= i < n ==> s[i] !in stops
    ensures n < |s| ==> s[n] in stops
  {
    if s == [] || s[0] in stops then 0 else 1 + FirstOf(s[1..], stops)
  }

  /** Index of the last occurrence of `c`, or the length: what `rsplit_once` cuts at. */
  function LastOf(s: Text, c: byte): (n: nat)
    ensures n <= |s|
    ensures n < |s| ==> s[n] == c && forall i :: n < i < |s| ==> s[i] != c
    ensures n == |s| ==> c !in s
  {
    if s == [] then 0
    else if s[|s| - 1] == c then |s| - 1
    else
      var n := LastOf(s[..|s| - 1], c);
      if n < |s| - 1 then n else |s|
  }

  /** `str::split` on one byte: n separators give n + 1 parts. */
  function Split(s: Text, c: byte): (parts: seq<Text>)
    ensures |parts| >= 1
    ensures forall i, k :: 0 <= i < |parts| && 0 <= k < |parts[i]| ==> parts[i][k] != c && parts[i][k] in s
    decreases |s|
  {
    var n := FirstOf(s, {c});
    if n == |s| then [s]
    else
      [s[..n]] + Split(s[n + 1..], c)
  }

  /** Every byte of a split string is the separator or sits in one of the parts. */
  lemma {:induction false} SplitCovers(s: Text, c: byte, i: nat)
    requires i < |s| && s[i] != c
    ensures exists p :: p in Split(s, c) && s[i] in p
    decreases |s|
  {
    var n := FirstOf(s, {c});
    var parts := Split(s, c);
    if n == |s| {
      assert parts[0] == s;
      assert s in parts && s[i] in s;
    } else if i < n {
      assert parts[0] == s[..n] && s[..n][i] == s[i];
      assert s[..n] in parts && s[i] in s[..n];
    } else {
      var rest := s[n + 1..];
      SplitCovers(rest, c, i - n - 1);
      assert rest[i - n - 1] == s[i];
      var p :| p in Split(rest, c) && s[i] in p;
      assert p in parts;
    }
  }

  // ---------------------------------------------------------------- host names

  predicate ValidLabel(part: Text) {
    && 1 <= |part| <= 63
    && IsAlphanumeric(part[0]) && IsAlphanumeric(part[|part| - 1])
    && forall i :: 0 <= i < |part| ==> IsAlphanumeric(part[i]) || part[i] == HYPHEN
  }

  predicate ValidLabels(value: Text) {
    forall part :: part in Split(value, DOT) ==> ValidLabel(part)
  }

  predicate ValidHostName(value: Text) {
    |value| <= MAXIMUM_DNS_NAME_BYTES && ValidLabels(value)
  }

  predicate AllDigits(s: Text) { forall i :: 0 <= i < |s| ==> IsDigit(s[i]) }

  function DecimalValue(s: Text): nat
    requires AllDigits(s)
  {
    if s == [] then 0 else DecimalValue(s[..|s| - 1]) * 10 + (s[|s| - 1] - 48)
  }

  predicate Octet(s: Text) {
    && 1 <= |s| <= 3 && AllDigits(s)
    && (|s| > 1 ==> s[0] != 48)
    && DecimalValue(s) <= 255
  }

  predicate Ipv4Text(s: Text) {
    var parts := Split(s, DOT);
    |parts| == 4 && forall p :: p in parts ==> Octet(p)
  }

  predicate HexGroup(s: Text) {
    1 <= |s| <= 4 && forall i :: 0 <= i < |s| ==> IsHexDigit(s[i])
  }

  /** Sixteen-bit groups written by colon-separated parts; a final dotted quad counts as two. */
  function GroupCount(parts: seq<Text>, allowQuad: bool): Option<nat> {
    if parts == [] then Some(0)
    else if HexGroup(parts[0]) then
      var rest := GroupCount(parts[1..], allowQuad);
      if rest.Some? then Some(rest.value + 1) else None
    else if allowQuad && |parts| == 1 && Ipv4Text(parts[0]) then Some(2)
    else None
  }

  function Groups(s: Text, allowQuad: bool): Option<nat> {
    if s == [] then Some(0) else GroupCount(Split(s, COLON), allowQuad)
  }

  function FirstDoubleColon(s: Text): (n: nat)
    ensures n <= |s|
    ensures n < |s| ==> n + 1 < |s| && s[n] == COLON && s[n + 1] == COLON
  {
    if |s| < 2 then |s|
    else if s[0] == COLON && s[1] == COLON then 0
    else
      1 + FirstDoubleColon(s[1..])
  }

  /** The textual IPv6 form: eight groups, or two shorter runs around one `::`. */
  predicate Ipv6Text(s: Text) {
    var n := FirstDoubleColon(s);
    if n == |s| then s != [] && Groups(s, true) == Some(8)
    else
      var head, tail := Groups(s[..n], false), Groups(s[n + 2..], true);
      head.Some? && tail.Some? && head.value + tail.value <= 7
  }

  // ---------------------------------------------------------------- the validator

  predicate ValidPort(value: Text) {
    value != [] && AllDigits(value) && 0 < DecimalValue(value) < 65536
  }

  predicate ValidPortSuffix(suffix: Text) {
    suffix == [] || (suffix[0] == COLON && ValidPort(suffix[1..]))
  }

  predicate ValidAuthority(authority: Text) {
    if authority != [] && authority[0] == OPEN then
      var bracketed := authority[1..];
      var n := FirstOf(bracketed, {CLOSE});
      n < |bracketed| && n > 0 && Ipv6Text(bracketed[..n]) && ValidPortSuffix(bracketed[n + 1..])
    else
      var n := LastOf(authority, COLON);
      var host := authority[..n];
      && COLON !in host
      && host != []
      && (n < |authority| ==> ValidPort(authority[n + 1..]))
      && (Ipv4Text(host) || ValidHostName(host))
  }

  /** ASCII without whitespace, `#` or a backslash. */
  predicate CleanBytes(value: Text) {
    forall i :: 0 <= i < |value| ==>
                  value[i] < 128 && !IsWhitespace(value[i]) && value[i] != 35 && value[i] != 92
  }

  /** `bounded_url` succeeds exactly on these. */
  predicate BoundedUrl(value: Text) {
    && Ascii("https://") <= value
    && |value| <= MAXIMUM_URL_BYTES
    && CleanBytes(value)
    && var remainder := value[8..];
       var authority := remainder[..FirstOf(remainder, {SLASH, QUESTION})];
       64 !in authority && ValidAuthority(authority)
  }

  // ---------------------------------------------------------------- the splitter

  datatype Endpoint = Endpoint(authority: Text, host: Text, port: nat, pathAndQuery: Text)

  datatype SplitError = InvalidRequest

  /** `str::parse::<u16>`: one leading plus sign is accepted, overflow is not. */
  function ParseU16(value: Text): Option<nat> {
    var digits := if value != [] && value[0] == 43 then value[1..] else value;
    if digits != [] && AllDigits(digits) && DecimalValue(digits) < 65536
    then Some(DecimalValue(digits)) else None
  }

  function ParsePort(value: Text): Result<nat, SplitError> {
    match ParseU16(value)
    case Some(port) => if port != 0 then Ok(port) else Err(InvalidRequest)
    case None => Err(InvalidRequest)
  }

  function ParsePortSuffix(value: Text): Result<nat, SplitError> {
    if value == [] then Ok(DEFAULT_PORT)
    else if value[0] == COLON then ParsePort(value[1..])
    else Err(InvalidRequest)
  }

  function SplitAuthority(authority: Text): Result<(Text, nat), SplitError> {
    if authority != [] && authority[0] == OPEN then
      var bracketed := authority[1..];
      var n := FirstOf(bracketed, {CLOSE});
      if n == |bracketed| then Err(InvalidRequest)
      else
        var port :- ParsePortSuffix(bracketed[n + 1..]);
        Ok((bracketed[..n], port))
    else
      var n := LastOf(authority, COLON);
      if n == |authority| then Ok((authority, DEFAULT_PORT))
      else
        var port :- ParsePort(authority[n + 1..]);
        Ok((authority[..n], port))
  }

  function ParseEndpoint(url: Text): Result<Endpoint, SplitError> {
    if BoundedUrl(url) then ParseRemainder(url[8..]) else Err(InvalidRequest)
  }

  function ParseRemainder(remainder: Text): Result<Endpoint, SplitError> {
    var n := FirstOf(remainder, {SLASH, QUESTION});
    var authority, suffix := remainder[..n], remainder[n..];
    var (host, port) :- SplitAuthority(authority);
    Ok(Endpoint(authority, host, port, PathOf(suffix)))
  }

  function PathOf(suffix: Text): Text {
    if suffix == [] then [SLASH]
    else if suffix[0] == QUESTION then [SLASH] + suffix
    else suffix
  }

  // ---------------------------------------------------------------- reference grammar (RFC 3986 section 3.2)

  /** `suffix` is an optional `:port` denoting `port`, with 443 when absent. */
  predicate PortDenotes(suffix: Text, port: nat) {
    || (suffix == [] && port == DEFAULT_PORT)
    || (suffix != [] && suffix[0] == COLON && ValidPort(suffix[1..]) && DecimalValue(suffix[1..]) == port)
  }

  /** `authority` is written as `host` (bracketed when it is an IPv6 literal) followed by `suffix`. */
  predicate AuthorityDenotes(authority: Text, host: Text, suffix: Text, port: nat) {
    && PortDenotes(suffix, port)
    && (|| (Ipv6Text(host) && authority == [OPEN] + host + [CLOSE] + suffix)
        || (host != [] && (Ipv4Text(host) || ValidHostName(host)) && authority == host + suffix))
  }

  /** `url` is `https://` + authority + rest, and `e` is what its parts mean. */
  predicate UrlDenotes(url: Text, e: Endpoint, portSuffix: Text, rest: Text) {
    && url == Ascii("https://") + e.authority + rest
    && SLASH !in e.authority && QUESTION !in e.authority
    && (rest == [] || rest[0] == SLASH || rest[0] == QUESTION)
    && AuthorityDenotes(e.authority, e.host, portSuffix, e.port)
    && e.pathAndQuery == PathOf(rest)
  }

  // ---------------------------------------------------------------- character classes of hosts

  predicate HostByte(b: byte) { IsAlphanumeric(b) || b == HYPHEN || b == DOT }

  lemma NamedHostBytes(host: Text)
    requires Ipv4Text(host) || ValidHostName(host)
    ensures forall i :: 0 <= i < |host| ==> HostByte(host[i])
  {
    forall i | 0 <= i < |host|
      ensures HostByte(host[i])
    {
      if host[i] != DOT {
        SplitCovers(host, DOT, i);
        var p :| p in Split(host, DOT) && host[i] in p;
        if Ipv4Text(host) {
          assert Octet(p);
        } else {
          assert ValidLabel(p);
        }
      }
    }
  }

  predicate LiteralByte(b: byte) { HostByte(b) || b == COLON }

  lemma {:induction false} GroupBytes(parts: seq<Text>, allowQuad: bool, p: Text)
    requires GroupCount(parts, allowQuad).Some? && p in parts
    ensures forall i :: 0 <= i < |p| ==> HostByte(p[i])
  {
    if p == parts[0] {
      if !HexGroup(p) {
        NamedHostBytes(p);
      }
    } else {
      assert p in parts[1..];
      GroupBytes(parts[1..], allowQuad, p);
    }
  }

  lemma GroupsBytes(s: Text, allowQuad: bool)
    requires Groups(s, allowQuad).Some?
    ensures forall i :: 0 <= i < |s| ==> LiteralByte(s[i])
  {
    forall i | 0 <= i < |s|
      ensures LiteralByte(s[i])
    {
      if s[i] != COLON {
        SplitCovers(s, COLON, i);
        var p :| p in Split(s, COLON) && s[i] in p;
        GroupBytes(Split(s, COLON), allowQuad, p);
      }
    }
  }

  lemma Ipv6Bytes(s: Text)
    requires Ipv6Text(s)
    ensures s != []
    ensures forall i :: 0 <= i < |s| ==> LiteralByte(s[i])
  {
    var n := FirstDoubleColon(s);
    if n == |s| {
      GroupsBytes(s, true);
    } else {
      GroupsBytes(s[..n], false);
      GroupsBytes(s[n + 2..], true);
      assert s == s[..n] + [COLON, COLON] + s[n + 2..];
    }
  }

  lemma AuthorityBytes(authority: Text, host: Text, suffix: Text, port: nat)
    requires AuthorityDenotes(authority, host, suffix, port)
    ensures 64 !in authority
  {
    if Ipv6Text(host) {
      Ipv6Bytes(host);
    } else {
      NamedHostBytes(host);
    }
    assert 64 !in host;
    assert 64 !in suffix by {
      assert suffix != [] ==> suffix == [COLON] + suffix[1..];
    }
  }

  // ---------------------------------------------------------------- agreement

  /** On ports the validator admits, the lenient integer parser returns the decimal value. */
  lemma PortsAgree(value: Text)
    requires ValidPort(value)
    ensures ParsePort(value) == Ok(DecimalValue(value))
  {
    assert IsDigit(value[0]);
  }

  lemma BracketedSplits(authority: Text) returns (host: Text, suffix: Text)
    requires ValidAuthority(authority) && authority != [] && authority[0] == OPEN
    ensures Ipv6Text(host) && ValidPortSuffix(suffix)
    ensures authority == [OPEN] + host + [CLOSE] + suffix
  {
    var bracketed := authority[1..];
    var n := FirstOf(bracketed, {CLOSE});
    host, suffix := bracketed[..n], bracketed[n + 1..];
  }

  lemma NamedSplits(authority: Text) returns (host: Text, suffix: Text)
    requires ValidAuthority(authority) && !(authority != [] && authority[0] == OPEN)
    ensures host != [] && (Ipv4Text(host) || ValidHostName(host)) && ValidPortSuffix(suffix)
    ensures authority == host + suffix
  {
    var n := LastOf(authority, COLON);
    host, suffix := authority[..n], authority[n..];
    assert suffix != [] ==> suffix[1..] == authority[n + 1..];
  }

  /** What the validator accepts, the splitter splits, and the parts denote the authority. */
  lemma AuthoritySplits(authority: Text) returns (suffix: Text)
    requires ValidAuthority(authority)
    ensures SplitAuthority(authority).Ok?
    ensures var (host, port) := SplitAuthority(authority).value; AuthorityDenotes(authority, host, suffix, port)
  {
    var host;
    if authority != [] && authority[0] == OPEN {
      host, suffix := BracketedSplits(authority);
    } else {
      host, suffix := NamedSplits(authority);
    }
    AuthorityReading(authority, host, suffix, if suffix == [] then DEFAULT_PORT else DecimalValue(suffix[1..]));
  }

  lemma BracketedReading(host: Text, suffix: Text, port: nat)
    requires Ipv6Text(host) && PortDenotes(suffix, port)
    ensures var authority := [OPEN] + host + [CLOSE] + suffix;
            ValidAuthority(authority) && SplitAuthority(authority) == Ok((host, port))
  {
    hide Ipv4Text, ValidHostName, Ipv6Text, DecimalValue, FirstOf;
    var authority := [OPEN] + host + [CLOSE] + suffix;
    Ipv6Bytes(host);
    FirstOfCuts(host, [CLOSE] + suffix, {CLOSE});
    assert authority[1..] == host + ([CLOSE] + suffix);
    assert authority[1..][..|host|] == host && authority[1..][|host| + 1..] == suffix;
    if suffix != [] {
      PortsAgree(suffix[1..]);
    }
  }

  lemma NamedReading(host: Text, suffix: Text, port: nat)
    requires host != [] && (Ipv4Text(host) || ValidHostName(host)) && PortDenotes(suffix, port)
    ensures ValidAuthority(host + suffix) && SplitAuthority(host + suffix) == Ok((host, port))
  {
    hide Ipv4Text, ValidHostName, Ipv6Text, DecimalValue, LastOf;
    NamedHostBytes(host);
    LastColon(host, suffix);
    var authority := host + suffix;
    assert authority[0] == host[0] && authority[..|host|] == host;
    if suffix != [] {
      assert authority[|host| + 1..] == suffix[1..];
      PortsAgree(suffix[1..]);
    } else {
      assert authority == host;
    }
  }

  lemma LastColon(host: Text, suffix: Text)
    requires forall i :: 0 <= i < |host| ==> HostByte(host[i])
    requires ValidPortSuffix(suffix)
    ensures LastOf(host + suffix, COLON) == |host|
  {
    var s := host + suffix;
    if suffix != [] {
      assert s[|host|] == COLON;
      assert forall i :: |host| < i < |s| ==> s[i] == suffix[1..][i - |host| - 1];
    }
  }

  /** The grammar is unambiguous: any reading of an authority is the splitter's, and is valid. */
  lemma AuthorityReading(authority: Text, host: Text, suffix: Text, port: nat)
    requires AuthorityDenotes(authority, host, suffix, port)
    ensures ValidAuthority(authority)
    ensures SplitAuthority(authority) == Ok((host, port))
  {
    if Ipv6Text(host) && authority == [OPEN] + host + [CLOSE] + suffix {
      BracketedReading(host, suffix, port);
    } else {
      NamedReading(host, suffix, port);
    }
  }

  /**
   * The splitter succeeds on exactly the URLs the validator accepts, and what it extracts is
   * a reading of the whole URL: nothing is dropped, and the host and port are the checked ones.
   */
  lemma ParseEndpointAgrees(url: Text) returns (portSuffix: Text, rest: Text)
    ensures ParseEndpoint(url).Ok? <==> BoundedUrl(url)
    ensures BoundedUrl(url) ==> UrlDenotes(url, ParseEndpoint(url).value, portSuffix, rest)
    ensures BoundedUrl(url) ==>
              var path := ParseEndpoint(url).value.pathAndQuery; path != [] && path[0] == SLASH
  {
    hide ValidAuthority, SplitAuthority, AuthorityDenotes, CleanBytes, FirstOf;
    portSuffix, rest := [], [];
    if BoundedUrl(url) {
      var remainder := url[8..];
      var n := FirstOf(remainder, {SLASH, QUESTION});
      portSuffix := AuthoritySplits(remainder[..n]);
      rest := remainder[n..];
      assert remainder == remainder[..n] + rest;
      assert url == Ascii("https://") + remainder[..n] + rest;
    }
  }

  lemma FirstOfCuts(front: Text, rest: Text, stops: set<byte>)
    requires forall i :: 0 <= i < |front| ==> front[i] !in stops
    requires rest == [] || rest[0] in stops
    ensures FirstOf(front + rest, stops) == |front|
  {
    assert rest != [] ==> (front + rest)[|front|] == rest[0];
    assert forall i :: 0 <= i < |front| ==> (front + rest)[i] == front[i];
  }

  lemma RemainderReading(e: Endpoint, portSuffix: Text, rest: Text)
    requires SLASH !in e.authority && QUESTION !in e.authority
    requires rest == [] || rest[0] == SLASH || rest[0] == QUESTION
    requires AuthorityDenotes(e.authority, e.host, portSuffix, e.port)
    requires e.pathAndQuery == PathOf(rest)
    ensures ParseRemainder(e.authority + rest) == Ok(e)
  {
    AuthorityReading(e.authority, e.host, portSuffix, e.port);
    FirstOfCuts(e.authority, rest, {SLASH, QUESTION});
    var remainder, n := e.authority + rest, |e.authority|;
    assert remainder[..n] == e.authority && remainder[n..] == rest;
  }

  lemma SchemeDrops(authority: Text, rest: Text)
    ensures (Ascii("https://") + authority + rest)[8..] == authority + rest
  {}

  /**
   * Completeness: a clean, short enough text with any reading is accepted, and no text has two
   * readings, because whatever endpoint it denotes is the one the splitter returns.
   */
  lemma UrlReadingUnique(url: Text, e: Endpoint, portSuffix: Text, rest: Text)
    requires |url| <= MAXIMUM_URL_BYTES && CleanBytes(url)
    requires UrlDenotes(url, e, portSuffix, rest)
    ensures BoundedUrl(url)
    ensures ParseEndpoint(url) == Ok(e)
  {
    SchemeDrops(e.authority, rest);
    RemainderReading(e, portSuffix, rest);
    AuthorityReading(e.authority, e.host, portSuffix, e.port);
    AuthorityBytes(e.authority, e.host, portSuffix, e.port);
    AuthorityCut(e.authority, rest);
  }

  lemma AuthorityCut(authority: Text, rest: Text)
    requires SLASH !in authority && QUESTION !in authority
    requires rest == [] || rest[0] == SLASH || rest[0] == QUESTION
    ensures (authority + rest)[..FirstOf(authority + rest, {SLASH, QUESTION})] == authority
  {
    FirstOfCuts(authority, rest, {SLASH, QUESTION});
  }
}
