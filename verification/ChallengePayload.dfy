/** Length-prefixed challenge payloads shared by the order worker and the challenge publishers. */
module ChallengePayload {
  import opened Basics
  import Url

  const FORMAT_VERSION := 1
  const MAXIMUM_TOKEN_BYTES := 128
  const MAXIMUM_VALUE_BYTES := 512
  const MAXIMUM_DNS_NAME_BYTES := 253
  const MAXIMUM_PAYLOAD_BYTES := 1024

  datatype VersionedPayload = VersionedPayload(formatVersion: nat, bytes: Text)

  datatype PayloadError = InvalidPayload

  datatype Http01Payload = Http01Payload(token: Text, keyAuthorization: Text)

  datatype Dns01Payload = Dns01Payload(recordName: Text, recordValue: Text)

  // ---------------------------------------------------------------- pairs

  function EncodePair(first: Text, second: Text): Result<VersionedPayload, PayloadError> {
    if |first| >= 65536 || |second| >= 65536 then Err(InvalidPayload)
    else
      var bytes := BigEndian16(|first|) + first + BigEndian16(|second|) + second;
      if |bytes| > MAXIMUM_PAYLOAD_BYTES then Err(InvalidPayload)
      else Ok(VersionedPayload(FORMAT_VERSION, bytes))
  }

  /** The source's sequence of appends to one buffer. */
  method AppendPair(first: Text, second: Text) returns (r: Result<VersionedPayload, PayloadError>)
    ensures r == EncodePair(first, second)
  {
    if |first| >= 65536 || |second| >= 65536 {
      return Err(InvalidPayload);
    }
    var bytes: Text := BigEndian16(|first|);
    bytes := bytes + first;
    bytes := bytes + BigEndian16(|second|);
    bytes := bytes + second;
    if |bytes| > MAXIMUM_PAYLOAD_BYTES {
      return Err(InvalidPayload);
    }
    return Ok(VersionedPayload(FORMAT_VERSION, bytes));
  }

  /** A two-byte length at `offset` whose field still fits in the buffer. */
  function ReadLength(bytes: Text, offset: nat): (r: Result<nat, PayloadError>)
    ensures r.Ok? ==> offset + 2 + r.value <= |bytes|
  {
    if offset + 2 > |bytes| then Err(InvalidPayload)
    else
      var length := Value16(bytes[offset], bytes[offset + 1]);
      if offset + 2 + length <= |bytes| then Ok(length) else Err(InvalidPayload)
  }

  function DecodePair(value: VersionedPayload): Result<(Text, Text), PayloadError> {
    if value.formatVersion != FORMAT_VERSION || |value.bytes| > MAXIMUM_PAYLOAD_BYTES then Err(InvalidPayload)
    else
      var bytes := value.bytes;
      var firstLength :- ReadLength(bytes, 0);
      var firstEnd := 2 + firstLength;
      var secondLength :- ReadLength(bytes, firstEnd);
      var secondStart := firstEnd + 2;
      if secondStart + secondLength != |bytes| then Err(InvalidPayload)
      else Ok((bytes[2..firstEnd], bytes[secondStart..secondStart + secondLength]))
  }

  lemma DecodePairOfEncode(first: Text, second: Text)
    requires EncodePair(first, second).Ok?
    ensures DecodePair(EncodePair(first, second).value) == Ok((first, second))
  {
    var bytes := EncodePair(first, second).value.bytes;
    assert bytes[0] == BigEndian16(|first|)[0] && bytes[1] == BigEndian16(|first|)[1];
    assert ReadLength(bytes, 0) == Ok(|first|);
    assert bytes[2 + |first|] == BigEndian16(|second|)[0] && bytes[3 + |first|] == BigEndian16(|second|)[1];
    assert ReadLength(bytes, 2 + |first|) == Ok(|second|);
    assert bytes[2..2 + |first|] == first;
    assert bytes[4 + |first|..4 + |first| + |second|] == second;
  }

  lemma EncodePairOfDecode(value: VersionedPayload)
    requires DecodePair(value).Ok?
    ensures var (first, second) := DecodePair(value).value; EncodePair(first, second) == Ok(value)
  {
    var (first, second) := DecodePair(value).value;
    var bytes := value.bytes;
    BytesOfValue16(bytes[0], bytes[1]);
    BytesOfValue16(bytes[2 + |first|], bytes[3 + |first|]);
    assert bytes == [bytes[0], bytes[1]] + first + [bytes[2 + |first|], bytes[3 + |first|]] + second;
  }

  // ---------------------------------------------------------------- the two payload kinds

  predicate ValidToken(value: Text) {
    1 <= |value| <= MAXIMUM_TOKEN_BYTES && AllUrlSafe(value)
  }

  /** Bounded ASCII without whitespace: a key authorization or a TXT value. */
  predicate ValidValue(value: Text) {
    && 1 <= |value| <= MAXIMUM_VALUE_BYTES
    && forall i :: 0 <= i < |value| ==> value[i] < 128 && !IsWhitespace(value[i])
  }

  predicate RecordNameByte(b: byte) { IsLower(b) || IsDigit(b) || b == 45 || b == 95 || b == 46 }

  predicate ValidRecordName(value: Text) {
    && Ascii("_acme-challenge.") <= value
    && |value| <= MAXIMUM_DNS_NAME_BYTES
    && (forall i :: 0 <= i < |value| ==> RecordNameByte(value[i]))
    && forall part :: part in Url.Split(value, Url.DOT) ==> 1 <= |part| <= 63
  }

  predicate ConstructibleHttp(p: Http01Payload) { ValidToken(p.token) && ValidValue(p.keyAuthorization) }

  predicate ConstructibleDns(p: Dns01Payload) { ValidRecordName(p.recordName) && ValidValue(p.recordValue) }

  function NewHttp(token: Text, keyAuthorization: Text): Result<Http01Payload, PayloadError> {
    var p := Http01Payload(token, keyAuthorization);
    if ConstructibleHttp(p) then Ok(p) else Err(InvalidPayload)
  }

  function NewDns(recordName: Text, recordValue: Text): Result<Dns01Payload, PayloadError> {
    var p := Dns01Payload(recordName, recordValue);
    if ConstructibleDns(p) then Ok(p) else Err(InvalidPayload)
  }

  function EncodeHttp(p: Http01Payload): Result<VersionedPayload, PayloadError> {
    EncodePair(p.token, p.keyAuthorization)
  }

  function EncodeDns(p: Dns01Payload): Result<VersionedPayload, PayloadError> {
    EncodePair(p.recordName, p.recordValue)
  }

  // The source checks UTF-8 before building the payload. Text that is not UTF-8 is not ASCII
  // either, so the constructor refuses it with the same error.

  function DecodeHttp(value: VersionedPayload): Result<Http01Payload, PayloadError> {
    var (token, keyAuthorization) :- DecodePair(value);
    NewHttp(token, keyAuthorization)
  }

  function DecodeDns(value: VersionedPayload): Result<Dns01Payload, PayloadError> {
    var (recordName, recordValue) :- DecodePair(value);
    NewDns(recordName, recordValue)
  }

  /** Constructible HTTP payloads and accepted byte strings correspond one to one. */
  lemma HttpPayloadBijection(p: Http01Payload, value: VersionedPayload)
    requires ConstructibleHttp(p)
    ensures EncodeHttp(p) == Ok(value) <==> DecodeHttp(value) == Ok(p)
    ensures EncodeHttp(p).Ok?
  {
    if EncodeHttp(p) == Ok(value) {
      DecodePairOfEncode(p.token, p.keyAuthorization);
    }
    if DecodeHttp(value) == Ok(p) {
      EncodePairOfDecode(value);
    }
  }

  /** Constructible DNS payloads and accepted byte strings correspond one to one. */
  lemma DnsPayloadBijection(p: Dns01Payload, value: VersionedPayload)
    requires ConstructibleDns(p)
    ensures EncodeDns(p) == Ok(value) <==> DecodeDns(value) == Ok(p)
    ensures EncodeDns(p).Ok?
  {
    if EncodeDns(p) == Ok(value) {
      DecodePairOfEncode(p.recordName, p.recordValue);
    }
    if DecodeDns(value) == Ok(p) {
      EncodePairOfDecode(value);
    }
  }
}
