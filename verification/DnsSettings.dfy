/** The canonical binary form of DNS provider settings held inside an encrypted secret. */
module DnsSettings {
  import opened Basics
  import Url

  const VERSION: byte := 1
  const RFC2136: byte := 1
  const CLOUDFLARE: byte := 2
  const WEBHOOK: byte := 3
  const MAXIMUM_SETTINGS_BYTES := 16384
  const MAXIMUM_SECRET_BYTES := 2048
  const MAXIMUM_TOKEN_BYTES := 2048
  const MAXIMUM_ADDRESS_BYTES := 58
  const MAGIC: Text := [77, 83, 68, 78, 83, 0, 0, 0]
  const HEADER: Text := MAGIC + [VERSION]

  datatype SettingsError = InvalidInput | InvalidEncoding | Capacity

  datatype TsigAlgorithm = HmacSha256 | HmacSha512

  datatype Settings<A> =
    | Rfc2136(server: A, zone: Text, keyName: Text, algorithm: TsigAlgorithm, secret: Text)
    | Cloudflare(zoneId: Text, apiToken: Text)
    | Webhook(endpoint: Text, bearerToken: Text)

  /** How the platform prints and parses a socket address. */
  datatype AddressFormat<!A> = AddressFormat(print_: A -> Text, parse: Text -> Option<A>)

  /** Printed addresses are short ASCII and parse back; several texts may parse to one address. */
  ghost predicate Faithful<A(!new)>(format: AddressFormat<A>) {
    forall a: A ::
      && format.parse(format.print_(a)) == Some(a)
      && IsAscii(format.print_(a)) && |format.print_(a)| <= MAXIMUM_ADDRESS_BYTES
  }

  // ---------------------------------------------------------------- validity

  predicate ValidLabel(part: Text) {
    && 1 <= |part| <= 63
    && part[0] != 45 && part[|part| - 1] != 45
    && forall i :: 0 <= i < |part| ==> IsAlphanumeric(part[i]) || part[i] == 45
  }

  predicate ValidDnsName(value: Text) {
    && 1 <= |value| <= 253 && IsAscii(value)
    && forall part :: part in Url.Split(value, Url.DOT) ==> ValidLabel(part)
  }

  /** An identifier Cloudflare assigns, to a zone or to a record. */
  predicate ValidObjectId(value: Text) { |value| == 32 && forall i :: 0 <= i < 32 ==> IsHexDigit(value[i]) }

  predicate TokenByte(b: byte) {
    IsAlphanumeric(b) || b == 45 || b == 46 || b == 95 || b == 126 || b == 43 || b == 47
  }

  /** A bearer token: a nonempty run of token bytes followed only by `=`. */
  predicate ValidBearerToken(token: Text) {
    && 16 <= |token| <= MAXIMUM_TOKEN_BYTES
    && var end := Url.FirstOf(token, {61});
       && end > 0
       && (forall i :: 0 <= i < end ==> TokenByte(token[i]))
       && forall i :: end <= i < |token| ==> token[i] == 61
  }

  predicate Constructible<A>(s: Settings<A>) {
    match s
    case Rfc2136(_, zone, keyName, _, secret) =>
      ValidDnsName(zone) && ValidDnsName(keyName) && 16 <= |secret| <= MAXIMUM_SECRET_BYTES
    case Cloudflare(zoneId, apiToken) => ValidObjectId(zoneId) && ValidBearerToken(apiToken)
    case Webhook(endpoint, bearerToken) => Url.BoundedUrl(endpoint) && ValidBearerToken(bearerToken)
  }

  function Construct<A>(s: Settings<A>): Result<Settings<A>, SettingsError> {
    if Constructible(s) then Ok(s) else Err(InvalidInput)
  }

  /** Well-formed UTF-8, by the byte ranges of the Unicode standard. */
  predicate Utf8(s: Text) {
    s == []
    || (s[0] < 128 && Utf8(s[1..]))
    || (|s| >= 2 && 194 <= s[0] <= 223 && Tail(s[1]) && Utf8(s[2..]))
    || (|s| >= 3 && Tail(s[1]) && Tail(s[2]) && ThreeByteStart(s[0], s[1]) && Utf8(s[3..]))
    || (|s| >= 4 && Tail(s[1]) && Tail(s[2]) && Tail(s[3]) && FourByteStart(s[0], s[1]) && Utf8(s[4..]))
  }

  predicate Tail(b: byte) { 128 <= b <= 191 }

  predicate ThreeByteStart(a: byte, b: byte) {
    (a == 224 && b >= 160) || 225 <= a <= 236 || (a == 237 && b <= 159) || a == 238 || a == 239
  }

  predicate FourByteStart(a: byte, b: byte) {
    (a == 240 && b >= 144) || 241 <= a <= 243 || (a == 244 && b <= 143)
  }

  lemma {:induction false} AsciiIsUtf8(s: Text)
    requires IsAscii(s)
    ensures Utf8(s)
  {
    if s != [] {
      AsciiIsUtf8(s[1..]);
    }
  }

  // ---------------------------------------------------------------- encoding

  function Field(bytes: Text): Text
    requires |bytes| < 65536
  {
    BigEndian16(|bytes|) + bytes
  }

  function AlgorithmByte(algorithm: TsigAlgorithm): byte {
    match algorithm
    case HmacSha256 => 1
    case HmacSha512 => 2
  }

  function RfcTail(zone: Text, keyName: Text, algorithm: TsigAlgorithm, secret: Text): Text
    requires |zone| < 65536 && |keyName| < 65536 && |secret| < 65536
  {
    Field(zone) + (Field(keyName) + ([AlgorithmByte(algorithm)] + Field(secret)))
  }

  /** The provider byte and fields, or a capacity error for a field longer than its prefix can say. */
  function Body<A>(format: AddressFormat<A>, s: Settings<A>): Result<Text, SettingsError> {
    match s
    case Rfc2136(server, zone, keyName, algorithm, secret) =>
      var address := format.print_(server);
      if |address| >= 65536 || |zone| >= 65536 || |keyName| >= 65536 || |secret| >= 65536 then Err(Capacity)
      else Ok([RFC2136] + (Field(address) + RfcTail(zone, keyName, algorithm, secret)))
    case Cloudflare(zoneId, apiToken) =>
      if |zoneId| >= 65536 || |apiToken| >= 65536 then Err(Capacity)
      else Ok([CLOUDFLARE] + Field(zoneId) + Field(apiToken))
    case Webhook(endpoint, bearerToken) =>
      if |endpoint| >= 65536 || |bearerToken| >= 65536 then Err(Capacity)
      else Ok([WEBHOOK] + Field(endpoint) + Field(bearerToken))
  }

  function Encode<A>(format: AddressFormat<A>, s: Settings<A>): Result<Text, SettingsError> {
    var body :- Body(format, s);
    if |HEADER + body| > MAXIMUM_SETTINGS_BYTES then Err(Capacity) else Ok(HEADER + body)
  }

  /** Appends one field to the output buffer. */
  method AppendField(output: Text, bytes: Text) returns (r: Result<Text, SettingsError>)
    ensures r == if |bytes| < 65536 then Ok(output + Field(bytes)) else Err(Capacity)
  {
    if |bytes| >= 65536 {
      return Err(Capacity);
    }
    var grown := output + BigEndian16(|bytes|);
    grown := grown + bytes;
    assert grown == output + Field(bytes);
    return Ok(grown);
  }

  method EncodeSettings<A>(format: AddressFormat<A>, s: Settings<A>) returns (r: Result<Text, SettingsError>)
    ensures r == Encode(format, s)
  {
    hide Field;
    var output := HEADER;
    match s {
      case Rfc2136(server, zone, keyName, algorithm, secret) =>
        output := output + [RFC2136];
        r := AppendField(output, format.print_(server));
        if r.Err? { return; }
        r := AppendField(r.value, zone);
        if r.Err? { return; }
        r := AppendField(r.value, keyName);
        if r.Err? { return; }
        output := r.value + [AlgorithmByte(algorithm)];
        r := AppendField(output, secret);
        if r.Err? { return; }
      case Cloudflare(zoneId, apiToken) =>
        output := output + [CLOUDFLARE];
        r := AppendField(output, zoneId);
        if r.Err? { return; }
        r := AppendField(r.value, apiToken);
        if r.Err? { return; }
      case Webhook(endpoint, bearerToken) =>
        output := output + [WEBHOOK];
        r := AppendField(output, endpoint);
        if r.Err? { return; }
        r := AppendField(r.value, bearerToken);
        if r.Err? { return; }
    }
    assert r.value == HEADER + Body(format, s).value;
    if |r.value| > MAXIMUM_SETTINGS_BYTES {
      return Err(Capacity);
    }
  }

  // ---------------------------------------------------------------- decoding

  /** What a decoder step yields: a value and the bytes still unread. */
  type Parsed<T> = Result<(T, Text), SettingsError>

  function Take(rest: Text, length: nat): Parsed<Text> {
    if length <= |rest| then Ok((rest[..length], rest[length..])) else Err(InvalidEncoding)
  }

  function TakeByte(rest: Text): Parsed<byte> {
    if rest != [] then Ok((rest[0], rest[1..])) else Err(InvalidEncoding)
  }

  function TakeField(rest: Text): Parsed<Text> {
    var (prefix, after) :- Take(rest, 2);
    Take(after, Value16(prefix[0], prefix[1]))
  }

  function TakeText(rest: Text): Parsed<Text> {
    var (bytes, after) :- TakeField(rest);
    if Utf8(bytes) then Ok((bytes, after)) else Err(InvalidEncoding)
  }

  function DecodeRfc2136<A>(format: AddressFormat<A>, rest: Text): Parsed<Settings<A>> {
    var (address, r1) :- TakeText(rest);
    match format.parse(address)
    case None => Err(InvalidInput)
    case Some(server) =>
      var (zone, r2) :- TakeText(r1);
      var (keyName, r3) :- TakeText(r2);
      var (code, r4) :- TakeByte(r3);
      if code != 1 && code != 2 then Err(InvalidEncoding)
      else
        var (secret, r5) :- TakeField(r4);
        var s :- Construct(Rfc2136(server, zone, keyName, if code == 1 then HmacSha256 else HmacSha512, secret));
        Ok((s, r5))
  }

  function DecodePair<A>(provider: byte, rest: Text): Parsed<Settings<A>> {
    var (name, r1) :- TakeText(rest);
    var (token, r2) :- TakeField(r1);
    var s :- Construct(if provider == CLOUDFLARE then Cloudflare(name, token) else Webhook(name, token));
    Ok((s, r2))
  }

  function DecodeBody<A>(format: AddressFormat<A>, rest: Text): Parsed<Settings<A>> {
    var (provider, after) :- TakeByte(rest);
    if provider == RFC2136 then DecodeRfc2136(format, after)
    else if provider == CLOUDFLARE || provider == WEBHOOK then DecodePair(provider, after)
    else Err(InvalidEncoding)
  }

  function Decode<A>(format: AddressFormat<A>, bytes: Text): Result<Settings<A>, SettingsError> {
    if |bytes| < |MAGIC| + 2 || |bytes| > MAXIMUM_SETTINGS_BYTES then Err(InvalidEncoding)
    else if bytes[..|HEADER|] != HEADER then Err(InvalidEncoding)
    else
      var (s, rest) :- DecodeBody(format, bytes[|HEADER|..]);
      if rest == [] then Ok(s) else Err(InvalidEncoding)
  }

  /** The source's cursor over the payload; its unread bytes follow the functions above. */
  class Decoder {
    const bytes: Text
    var offset: nat

    ghost predicate Valid()
      reads this
    {
      offset <= |bytes|
    }

    ghost function Rest(): Text
      requires Valid()
      reads this
    {
      bytes[offset..]
    }

    constructor (bytes: Text)
      ensures Valid() && this.bytes == bytes && Rest() == bytes
    {
      this.bytes := bytes;
      offset := 0;
    }

    /** Advances by `length` bytes, or stays where it is and fails. */
    method TakeBytes(length: nat) returns (r: Result<Text, SettingsError>)
      requires Valid()
      modifies this`offset
      ensures Valid()
      ensures match Take(old(Rest()), length)
              case Ok((value, rest)) => r == Ok(value) && Rest() == rest
              case Err(e) => r == Err(e) && offset == old(offset)
    {
      var end := offset + length;
      if end > |bytes| {
        return Err(InvalidEncoding);
      }
      var value := bytes[offset..end];
      assert value == Rest()[..length] && bytes[end..] == Rest()[length..];
      offset := end;
      return Ok(value);
    }

    /** Reads a length-prefixed field; a failure leaves at most the prefix consumed. */
    method FieldBytes() returns (r: Result<Text, SettingsError>)
      requires Valid()
      modifies this`offset
      ensures Valid()
      ensures match TakeField(old(Rest()))
              case Ok((value, rest)) => r == Ok(value) && Rest() == rest
              case Err(e) => r == Err(e)
    {
      var prefix := TakeBytes(2);
      if prefix.Err? {
        return prefix;
      }
      r := TakeBytes(Value16(prefix.value[0], prefix.value[1]));
    }

    method Finished() returns (done: bool)
      requires Valid()
      ensures done <==> Rest() == []
    {
      done := offset == |bytes|;
    }
  }

  method DecodeNamed<A>(provider: byte, decoder: Decoder) returns (r: Result<Settings<A>, SettingsError>)
    requires decoder.Valid()
    modifies decoder`offset
    ensures decoder.Valid()
    ensures match DecodePair<A>(provider, old(decoder.Rest()))
            case Ok((s, rest)) => r == Ok(s) && decoder.Rest() == rest
            case Err(e) => r == Err(e)
  {
    hide Utf8, Constructible, TakeField;
    var name := decoder.FieldBytes();
    if name.Err? {
      return Err(name.error);
    }
    if !Utf8(name.value) {
      return Err(InvalidEncoding);
    }
    var token := decoder.FieldBytes();
    if token.Err? {
      return Err(token.error);
    }
    return Construct(if provider == CLOUDFLARE then Cloudflare(name.value, token.value)
                     else Webhook(name.value, token.value));
  }

  method DecodeDynamic<A>(format: AddressFormat<A>, decoder: Decoder) returns (r: Result<Settings<A>, SettingsError>)
    requires decoder.Valid()
    modifies decoder`offset
    ensures decoder.Valid()
    ensures match DecodeRfc2136(format, old(decoder.Rest()))
            case Ok((s, rest)) => r == Ok(s) && decoder.Rest() == rest
            case Err(e) => r == Err(e)
  {
    hide Utf8, Constructible, TakeField;
    var address := decoder.FieldBytes();
    if address.Err? {
      return Err(address.error);
    }
    if !Utf8(address.value) {
      return Err(InvalidEncoding);
    }
    var server := format.parse(address.value);
    if server.None? {
      return Err(InvalidInput);
    }
    var zone := decoder.FieldBytes();
    if zone.Err? {
      return Err(zone.error);
    }
    if !Utf8(zone.value) {
      return Err(InvalidEncoding);
    }
    var keyName := decoder.FieldBytes();
    if keyName.Err? {
      return Err(keyName.error);
    }
    if !Utf8(keyName.value) {
      return Err(InvalidEncoding);
    }
    var code := decoder.TakeBytes(1);
    if code.Err? {
      return Err(code.error);
    }
    if code.value[0] != 1 && code.value[0] != 2 {
      return Err(InvalidEncoding);
    }
    var secret := decoder.FieldBytes();
    if secret.Err? {
      return Err(secret.error);
    }
    return Construct(Rfc2136(server.value, zone.value, keyName.value,
                             if code.value[0] == 1 then HmacSha256 else HmacSha512, secret.value));
  }

  method DecodeSettings<A>(format: AddressFormat<A>, bytes: Text) returns (r: Result<Settings<A>, SettingsError>)
    ensures r == Decode(format, bytes)
  {
    hide DecodePair, DecodeRfc2136;
    if |bytes| < |MAGIC| + 2 || |bytes| > MAXIMUM_SETTINGS_BYTES {
      return Err(InvalidEncoding);
    }
    var decoder := new Decoder(bytes);
    var header := decoder.TakeBytes(|HEADER|);
    if header.value != HEADER {
      return Err(InvalidEncoding);
    }
    var provider := decoder.TakeBytes(1);
    match provider.value[0] {
      case 1 => r := DecodeDynamic(format, decoder);
      case 2 => r := DecodeNamed(2, decoder);
      case 3 => r := DecodeNamed(3, decoder);
      case _ => return Err(InvalidEncoding);
    }
    if r.Ok? {
      var finished := decoder.Finished();
      if !finished {
        return Err(InvalidEncoding);
      }
    }
  }

  // ---------------------------------------------------------------- round trips

  lemma TakeFieldOfField(bytes: Text, rest: Text)
    requires |bytes| < 65536
    ensures TakeField(Field(bytes) + rest) == Ok((bytes, rest))
  {
    var all := Field(bytes) + rest;
    assert all[..2] == BigEndian16(|bytes|);
    assert all[2..] == bytes + rest;
    assert (bytes + rest)[..|bytes|] == bytes && (bytes + rest)[|bytes|..] == rest;
  }

  lemma FieldOfTakeField(rest: Text)
    requires TakeField(rest).Ok?
    ensures var (bytes, after) := TakeField(rest).value; |bytes| < 65536 && rest == Field(bytes) + after
  {
    BytesOfValue16(rest[0], rest[1]);
    assert rest[..2] == [rest[0], rest[1]];
    assert rest == rest[..2] + rest[2..];
  }

  lemma TakeTextOfField(bytes: Text, rest: Text)
    requires |bytes| < 65536 && IsAscii(bytes)
    ensures TakeText(Field(bytes) + rest) == Ok((bytes, rest))
  {
    TakeFieldOfField(bytes, rest);
    AsciiIsUtf8(bytes);
  }

  lemma HexIsAscii(value: Text)
    requires ValidObjectId(value)
    ensures IsAscii(value)
  {}

  lemma DecodePairOfBody<A>(provider: byte, name: Text, token: Text, s: Settings<A>)
    requires |name| < 65536 && |token| < 65536 && IsAscii(name)
    requires s == (if provider == CLOUDFLARE then Cloudflare(name, token) else Webhook(name, token)) && Constructible(s)
    ensures DecodePair(provider, Field(name) + Field(token)) == Ok((s, []))
  {
    hide Constructible, TakeText, Field;
    TakeTextOfField(name, Field(token));
    TakeFieldOfField(token, []);
    assert Field(token) + [] == Field(token);
  }

  lemma DecodeRfcOfBody<A(!new)>(format: AddressFormat<A>, s: Settings<A>)
    requires Faithful(format) && s.Rfc2136? && Constructible(s)
    ensures var address := format.print_(s.server);
            && |address| < 65536 && |s.zone| < 65536 && |s.keyName| < 65536
            && DecodeRfc2136(format, Field(address) + RfcTail(s.zone, s.keyName, s.algorithm, s.secret)) == Ok((s, []))
  {
    hide TakeText, TakeField, Field, ValidDnsName;
    var address := format.print_(s.server);
    NamesAreShort(s.zone);
    NamesAreShort(s.keyName);
    var r4 := Field(s.secret);
    var r3 := [AlgorithmByte(s.algorithm)] + r4;
    var r2 := Field(s.keyName) + r3;
    var r1 := Field(s.zone) + r2;
    TakeTextOfField(address, r1);
    TakeTextOfField(s.zone, r2);
    TakeTextOfField(s.keyName, r3);
    TakeFieldOfField(s.secret, []);
    assert r4 + [] == r4;
    assert r3[1..] == r4;
  }

  lemma NamesAreShort(name: Text)
    requires ValidDnsName(name)
    ensures |name| <= 253 && IsAscii(name)
  {}

  /** Encoding succeeds and stays inside the secret bound for every constructible value. */
  lemma EncodeNeverFails<A(!new)>(format: AddressFormat<A>, s: Settings<A>)
    requires Faithful(format) && Constructible(s)
    ensures Encode(format, s).Ok?
  {
    if s.Rfc2136? {
      var a := s.server;
      assert |format.print_(a)| <= MAXIMUM_ADDRESS_BYTES;
    }
  }

  lemma DecodeBodyOfBody<A(!new)>(format: AddressFormat<A>, s: Settings<A>)
    requires Faithful(format) && Constructible(s) && Body(format, s).Ok?
    ensures DecodeBody(format, Body(format, s).value) == Ok((s, []))
  {
    hide Faithful, Field, DecodePair, DecodeRfc2136, Url.BoundedUrl, ValidBearerToken, ValidDnsName;
    var body := Body(format, s).value;
    match s
    case Rfc2136(server, zone, keyName, algorithm, secret) =>
      DecodeRfcOfBody(format, s);
      assert body[1..] == Field(format.print_(server)) + RfcTail(zone, keyName, algorithm, secret);
    case Cloudflare(zoneId, apiToken) =>
      HexIsAscii(zoneId);
      DecodePairOfBody(CLOUDFLARE, zoneId, apiToken, s);
      assert body[1..] == Field(zoneId) + Field(apiToken);
    case Webhook(endpoint, bearerToken) =>
      UrlIsAscii(endpoint);
      DecodePairOfBody(WEBHOOK, endpoint, bearerToken, s);
      assert body[1..] == Field(endpoint) + Field(bearerToken);
  }

  lemma UrlIsAscii(url: Text)
    requires Url.BoundedUrl(url)
    ensures IsAscii(url)
  {}

  /** Decoding undoes encoding for all three providers. */
  lemma DecodeEncode<A(!new)>(format: AddressFormat<A>, s: Settings<A>)
    requires Faithful(format) && Constructible(s)
    ensures Encode(format, s).Ok? && Decode(format, Encode(format, s).value) == Ok(s)
  {
    hide Faithful, Constructible, Body, DecodeBody;
    EncodeNeverFails(format, s);
    var body := Body(format, s).value;
    DecodeBodyOfBody(format, s);
    assert (HEADER + body)[..|HEADER|] == HEADER && (HEADER + body)[|HEADER|..] == body;
    BodyNonempty(format, s);
  }

  lemma BodyNonempty<A>(format: AddressFormat<A>, s: Settings<A>)
    requires Body(format, s).Ok?
    ensures Body(format, s).value != []
  {}

  // ---------------------------------------------------------------- canonical form

  lemma PairCanonical<A>(provider: byte, rest: Text)
    requires DecodePair<A>(provider, rest).Ok?
    ensures var (s, after) := DecodePair<A>(provider, rest).value;
            var (name, token) := if provider == CLOUDFLARE then (s.zoneId, s.apiToken) else (s.endpoint, s.bearerToken);
            |name| < 65536 && |token| < 65536 && rest == Field(name) + Field(token) + after
  {
    hide Constructible, Field, TakeField, Utf8;
    FieldOfTakeField(rest);
    var (name, r1) := TakeField(rest).value;
    FieldOfTakeField(r1);
  }

  lemma RfcCanonical<A>(format: AddressFormat<A>, rest: Text)
    requires DecodeRfc2136(format, rest).Ok?
    ensures TakeField(rest).Ok?
    ensures var (s, after) := DecodeRfc2136(format, rest).value;
            var (address, _) := TakeField(rest).value;
            && s.Rfc2136? && Constructible(s) && format.parse(address) == Some(s.server)
            && |address| < 65536 && |s.zone| < 65536 && |s.keyName| < 65536 && |s.secret| < 65536
            && rest == Field(address) + (RfcTail(s.zone, s.keyName, s.algorithm, s.secret) + after)
  {
    hide Constructible, Field, TakeField, Utf8;
    FieldOfTakeField(rest);
    var (address, r1) := TakeField(rest).value;
    FieldOfTakeField(r1);
    var (zone, r2) := TakeField(r1).value;
    FieldOfTakeField(r2);
    var (keyName, r3) := TakeField(r2).value;
    FieldOfTakeField(r3[1..]);
    var (secret, after) := TakeField(r3[1..]).value;
    TailAssociates(Field(zone), Field(keyName), [r3[0]], Field(secret), after);
    assert r3 == [r3[0]] + r3[1..];
  }

  lemma TailAssociates(a: Text, b: Text, c: Text, d: Text, after: Text)
    ensures a + (b + (c + (d + after))) == a + (b + (c + d)) + after
  {}

  /** The text of the server address inside an accepted RFC 2136 payload. */
  function ServerText(bytes: Text): Text
    requires |bytes| > |HEADER| && TakeField(bytes[|HEADER| + 1..]).Ok?
  {
    TakeField(bytes[|HEADER| + 1..]).value.0
  }

  /**
   * Every accepted Cloudflare or webhook payload is the encoding of what it decodes to. An RFC 2136
   * payload is, exactly when its server address is written the way the platform prints it.
   */
  lemma AcceptedIsCanonicalIff<A(!new)>(format: AddressFormat<A>, bytes: Text)
    requires Decode(format, bytes).Ok?
    ensures !Decode(format, bytes).value.Rfc2136? ==> Encode(format, Decode(format, bytes).value) == Ok(bytes)
    ensures Decode(format, bytes).value.Rfc2136? ==>
              && |bytes| > |HEADER| && TakeField(bytes[|HEADER| + 1..]).Ok?
              && (Encode(format, Decode(format, bytes).value) == Ok(bytes) <==>
                  ServerText(bytes) == format.print_(Decode(format, bytes).value.server))
  {
    hide Constructible, Field, TakeField, DecodePair, DecodeRfc2136;
    var body := bytes[|HEADER|..];
    var provider, rest := body[0], body[1..];
    assert bytes == HEADER + body && body == [provider] + rest;
    assert rest == bytes[|HEADER| + 1..];
    if provider == RFC2136 {
      RfcCanonical(format, rest);
      RfcReencodes(format, bytes, rest);
    } else {
      PairCanonical<A>(provider, rest);
      PairProvider<A>(provider, rest);
      var s := Decode(format, bytes).value;
      assert Body(format, s) == Ok(body) by {
        var (name, token) := if provider == CLOUDFLARE then (s.zoneId, s.apiToken) else (s.endpoint, s.bearerToken);
        assert rest == Field(name) + Field(token) + [];
        assert [provider] + Field(name) + Field(token) == body;
      }
    }
  }

  lemma PairProvider<A>(provider: byte, rest: Text)
    requires DecodePair<A>(provider, rest).Ok?
    ensures DecodePair<A>(provider, rest).value.0.Cloudflare? == (provider == CLOUDFLARE)
    ensures DecodePair<A>(provider, rest).value.0.Webhook? == (provider != CLOUDFLARE)
  {
    hide Constructible, TakeField, Utf8;
  }

  lemma RfcReencodes<A>(format: AddressFormat<A>, bytes: Text, rest: Text)
    requires DecodeRfc2136(format, rest).Ok? && DecodeRfc2136(format, rest).value.1 == []
    requires |bytes| <= MAXIMUM_SETTINGS_BYTES && bytes == HEADER + ([RFC2136] + rest)
    ensures TakeField(rest).Ok?
    ensures var s := DecodeRfc2136(format, rest).value.0;
            Encode(format, s) == Ok(bytes) <==> TakeField(rest).value.0 == format.print_(s.server)
  {
    hide Constructible, TakeField, DecodeRfc2136, Field, RfcTail;
    RfcCanonical(format, rest);
    var s := DecodeRfc2136(format, rest).value.0;
    var printed, tail := format.print_(s.server), RfcTail(s.zone, s.keyName, s.algorithm, s.secret);
    assert tail + [] == tail;
    if |printed| < 65536 {
      TakeFieldOfField(printed, tail);
      HeadsDrop([RFC2136] + (Field(printed) + tail), [RFC2136] + rest);
    }
  }

  lemma HeadsDrop(a: Text, b: Text)
    requires a != [] && b != [] && a[0] == b[0]
    ensures HEADER + a == HEADER + b <==> a[1..] == b[1..]
  {
    assert a == [a[0]] + a[1..] && b == [b[0]] + b[1..];
    assert (HEADER + a)[|HEADER|..] == a && (HEADER + b)[|HEADER|..] == b;
  }
}
