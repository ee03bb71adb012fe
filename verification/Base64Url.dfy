/** Unpadded base64url (section 5 of RFC 4648) and the JWS signing input built from it. */
module Base64Url {
  import opened Basics

  /** Entry `i` of the encoder's 64-byte alphabet table. */
  function Symbol(i: nat): (b: byte)
    requires i < 64
    ensures IsUrlSafe(b)
  {
    if i < 26 then 65 + i
    else if i < 52 then 97 + (i - 26)
    else if i < 62 then 48 + (i - 52)
    else if i == 62 then 45
    else 95
  }

  /** The table position of a symbol; `Symbol` undoes it. */
  function Sextet(b: byte): (i: nat)
    requires IsUrlSafe(b)
    ensures i < 64 && Symbol(i) == b
  {
    if IsUpper(b) then b - 65
    else if IsLower(b) then b - 97 + 26
    else if IsDigit(b) then b - 48 + 52
    else if b == 45 then 62
    else 63
  }

  lemma SextetOfSymbol(i: nat)
    requires i < 64
    ensures Sextet(Symbol(i)) == i
  {}

  // Shifts and masks of the source on disjoint bit fields are the quotients and remainders below:
  // `x >> 2` is `x / 4`, `(x & 3) << 4 | y >> 4` is `x % 4 * 16 + y / 16`, and so on.

  function EncodeChunk(chunk: Text): (s: Text)
    requires 1 <= |chunk| <= 3
    ensures |s| == |chunk| + 1
    ensures AllUrlSafe(s)
  {
    if |chunk| == 1 then
      [Symbol(chunk[0] / 4), Symbol(chunk[0] % 4 * 16)]
    else if |chunk| == 2 then
      [Symbol(chunk[0] / 4), Symbol(chunk[0] % 4 * 16 + chunk[1] / 16), Symbol(chunk[1] % 16 * 4)]
    else
      [Symbol(chunk[0] / 4), Symbol(chunk[0] % 4 * 16 + chunk[1] / 16),
       Symbol(chunk[1] % 16 * 4 + chunk[2] / 64), Symbol(chunk[2] % 64)]
  }

  /** The encoding of a whole byte string, three bytes at a time. */
  function Encode(bytes: Text): (s: Text)
    ensures AllUrlSafe(s)
  {
    if bytes == [] then []
    else if |bytes| < 3 then EncodeChunk(bytes)
    else
      EncodeChunk(bytes[..3]) + Encode(bytes[3..])
  }

  method EncodeBase64Url(bytes: Text) returns (encoded: Text)
    ensures encoded == Encode(bytes)
  {
    encoded := [];
    var at := 0;
    while at < |bytes|
      invariant 0 <= at <= |bytes|
      invariant encoded + Encode(bytes[at..]) == Encode(bytes)
    {
      var end := if at + 3 <= |bytes| then at + 3 else |bytes|;
      var pushed := PushChunk(encoded, bytes[at..end]);
      ChunkStep(encoded, bytes, at, end);
      encoded, at := pushed, end;
    }
    assert bytes[at..] == [];
  }

  /** The loop body: pushes two to four symbols for one chunk. */
  method PushChunk(encoded: Text, chunk: Text) returns (pushed: Text)
    requires 1 <= |chunk| <= 3
    ensures pushed == encoded + EncodeChunk(chunk)
  {
    var first := chunk[0];
    pushed := encoded + [Symbol(first / 4)];
    var second := if |chunk| > 1 then chunk[1] else 0;
    pushed := pushed + [Symbol(first % 4 * 16 + second / 16)];
    if |chunk| > 1 {
      var third := if |chunk| > 2 then chunk[2] else 0;
      pushed := pushed + [Symbol(second % 16 * 4 + third / 64)];
    }
    if |chunk| > 2 {
      pushed := pushed + [Symbol(chunk[2] % 64)];
    }
  }

  lemma ChunkStep(encoded: Text, bytes: Text, at: nat, end: nat)
    requires at < |bytes| && end == (if at + 3 <= |bytes| then at + 3 else |bytes|)
    ensures encoded + Encode(bytes[at..]) == encoded + EncodeChunk(bytes[at..end]) + Encode(bytes[end..])
  {
    var rest := bytes[at..];
    if |rest| < 3 {
      assert rest == bytes[at..end] && bytes[end..] == [];
    } else {
      assert rest[..3] == bytes[at..end] && rest[3..] == bytes[end..];
    }
  }

  // ---------------------------------------------------------------- strict decoder (reference)

  function DecodeChunk(s: Text): Option<Text>
    requires 2 <= |s| <= 4 && AllUrlSafe(s)
  {
    var a, b := Sextet(s[0]), Sextet(s[1]);
    if |s| == 2 then
      if b % 16 == 0 then Some([a * 4 + b / 16]) else None
    else
      var c := Sextet(s[2]);
      if |s| == 3 then
        if c % 4 == 0 then Some([a * 4 + b / 16, b % 16 * 16 + c / 4]) else None
      else
        Some([a * 4 + b / 16, b % 16 * 16 + c / 4, c % 4 * 64 + Sextet(s[3])])
  }

  /** Accepts only canonical text: known symbols, no length 1 mod 4, zero trailing bits. */
  function Decode(s: Text): Option<Text> {
    if !AllUrlSafe(s) || |s| == 1 then None
    else if s == [] then Some([])
    else if |s| < 4 then DecodeChunk(s)
    else
      match (DecodeChunk(s[..4]), Decode(s[4..]))
      case (Some(head), Some(tail)) => Some(head + tail)
      case _ => None
  }

  lemma ChunkRoundTrip(chunk: Text)
    requires 1 <= |chunk| <= 3
    ensures DecodeChunk(EncodeChunk(chunk)) == Some(chunk)
  {
    hide Symbol, Sextet;
    if |chunk| == 3 {
      WholeChunkRoundTrip(chunk);
    } else {
      var first, second := chunk[0], if |chunk| == 2 then chunk[1] else 0;
      SextetOfSymbol(first / 4);
      SextetOfSymbol(first % 4 * 16 + second / 16);
      SextetOfSymbol(second % 16 * 4);
      BitsRejoin(first, second, 0);
      assert chunk == if |chunk| == 2 then [first, second] else [first];
    }
  }

  lemma WholeChunkRoundTrip(chunk: Text)
    requires |chunk| == 3
    ensures DecodeChunk(EncodeChunk(chunk)) == Some(chunk)
  {
    hide Symbol, Sextet;
    SextetOfSymbol(chunk[0] / 4);
    SextetOfSymbol(chunk[0] % 4 * 16 + chunk[1] / 16);
    SextetOfSymbol(chunk[1] % 16 * 4 + chunk[2] / 64);
    SextetOfSymbol(chunk[2] % 64);
    BitsRejoin(chunk[0], chunk[1], chunk[2]);
    assert chunk == [chunk[0], chunk[1], chunk[2]];
  }

  lemma BitsRejoin(a: byte, b: byte, c: byte)
    ensures var s1, s2, s3, s4 := a / 4, a % 4 * 16 + b / 16, b % 16 * 4 + c / 64, c % 64;
            s1 * 4 + s2 / 16 == a && s2 % 16 * 16 + s3 / 4 == b && s3 % 4 * 64 + s4 == c
  {}

  lemma ChunkCanonical(s: Text)
    requires 2 <= |s| <= 4 && AllUrlSafe(s)
    requires DecodeChunk(s).Some?
    ensures |DecodeChunk(s).value| == |s| - 1
    ensures EncodeChunk(DecodeChunk(s).value) == s
  {
    hide Symbol, Sextet;
    BitsSplit(Sextet(s[0]), Sextet(s[1]),
              if |s| > 2 then Sextet(s[2]) else 0, if |s| > 3 then Sextet(s[3]) else 0);
  }

  lemma BitsSplit(s1: nat, s2: nat, s3: nat, s4: nat)
    requires s1 < 64 && s2 < 64 && s3 < 64 && s4 < 64
    ensures var a, b, c := s1 * 4 + s2 / 16, s2 % 16 * 16 + s3 / 4, s3 % 4 * 64 + s4;
            a / 4 == s1 && a % 4 * 16 + b / 16 == s2 && b % 16 * 4 + c / 64 == s3 && c % 64 == s4
            && a % 4 * 16 == s2 / 16 * 16 && b % 16 * 4 == s3 / 4 * 4
  {}

  /** Decoding undoes encoding, for every byte string. */
  lemma {:induction false} DecodeEncode(bytes: Text)
    ensures Decode(Encode(bytes)) == Some(bytes)
  {
    if bytes == [] {
    } else if |bytes| < 3 {
      ChunkRoundTrip(bytes);
    } else {
      var head, tail := EncodeChunk(bytes[..3]), Encode(bytes[3..]);
      ChunkRoundTrip(bytes[..3]);
      DecodeEncode(bytes[3..]);
      EncodeLength(bytes[3..]);
      assert (head + tail)[..4] == head && (head + tail)[4..] == tail;
      assert bytes == bytes[..3] + bytes[3..];
    }
  }

  /** Every accepted text is the encoding of what it decodes to: one text per byte string. */
  lemma {:induction false} EncodeDecode(s: Text)
    requires Decode(s).Some?
    ensures Encode(Decode(s).value) == s
  {
    if s == [] {
    } else if |s| < 4 {
      ChunkCanonical(s);
    } else {
      ChunkCanonical(s[..4]);
      EncodeDecode(s[4..]);
      var head, tail := DecodeChunk(s[..4]).value, Decode(s[4..]).value;
      assert (head + tail)[..3] == head && (head + tail)[3..] == tail;
      assert s == s[..4] + s[4..];
    }
  }

  /** Exact output length: four symbols per full chunk, then 0, 2 or 3. */
  lemma {:induction false} EncodeLength(bytes: Text)
    ensures |Encode(bytes)| == |bytes| / 3 * 4 + (if |bytes| % 3 == 0 then 0 else |bytes| % 3 + 1)
  {
    if |bytes| >= 3 {
      EncodeLength(bytes[3..]);
    }
  }

  lemma EncodeInjective(a: Text, b: Text)
    requires Encode(a) == Encode(b)
    ensures a == b
  {
    DecodeEncode(a);
    DecodeEncode(b);
  }

  // ---------------------------------------------------------------- account keys

  /** `validate_coordinate`: 43 url-safe symbols, the last one among those with two zero bits. */
  predicate ValidCoordinate(value: Text) {
    && |value| == 43
    && AllUrlSafe(value)
    && ZeroTailed(value[42])
  }

  /** One of `AEIMQUYcgkosw048`. */
  predicate ZeroTailed(b: byte) {
    || b in {65, 69, 73, 77, 81, 85, 89}
    || b in {99, 103, 107, 111, 115, 119}
    || b in {48, 52, 56}
  }

  lemma LastSymbol(b: byte)
    requires IsUrlSafe(b)
    ensures ZeroTailed(b) <==> Sextet(b) % 4 == 0
  {}

  lemma {:induction false} DecodeTotal(s: Text)
    requires AllUrlSafe(s) && |s| % 4 == 3
    ensures Decode(s).Some? <==> Sextet(s[|s| - 1]) % 4 == 0
    ensures Decode(s).Some? ==> |Decode(s).value| == |s| / 4 * 3 + 2
  {
    if |s| > 4 {
      DecodeTotal(s[4..]);
    }
  }

  /** The coordinate check accepts a text exactly when it encodes some 32-byte value. */
  lemma CoordinateIffEncodes(value: Text)
    ensures ValidCoordinate(value) <==> exists bytes: Text :: |bytes| == 32 && Encode(bytes) == value
  {
    if ValidCoordinate(value) {
      LastSymbol(value[42]);
      DecodeTotal(value);
      EncodeDecode(value);
      var bytes := Decode(value).value;
      assert |bytes| == 32 && Encode(bytes) == value;
    }
    forall bytes: Text | |bytes| == 32 && Encode(bytes) == value
      ensures ValidCoordinate(value)
    {
      EncodeLength(bytes);
      DecodeEncode(bytes);
      DecodeTotal(value);
      LastSymbol(value[42]);
    }
  }

  // ---------------------------------------------------------------- signing input

  const PERIOD: byte := 46

  function SigningInput(header: Text, payload: Text): Text {
    Encode(header) + [PERIOD] + Encode(payload)
  }

  /** What is signed determines both parts: no two (header, payload) pairs share an input. */
  lemma SigningInputInjective(header: Text, payload: Text, header': Text, payload': Text)
    requires SigningInput(header, payload) == SigningInput(header', payload')
    ensures header == header' && payload == payload'
  {
    var h, p, h', p' := Encode(header), Encode(payload), Encode(header'), Encode(payload');
    SeparatorUnique(h, p, h', p');
    EncodeInjective(header, header');
    EncodeInjective(payload, payload');
  }

  lemma SeparatorUnique(h: Text, p: Text, h': Text, p': Text)
    requires AllUrlSafe(h) && AllUrlSafe(h')
    requires h + [PERIOD] + p == h' + [PERIOD] + p'
    ensures h == h' && p == p'
  {
    var s := h + [PERIOD] + p;
    assert s[|h|] == PERIOD && s[|h'|] == PERIOD;
    assert forall i :: 0 <= i < |h| ==> s[i] == h[i];
    assert forall i :: 0 <= i < |h'| ==> s[i] == h'[i];
    assert h == s[..|h|] && h' == s[..|h'|];
    assert p == s[|h| + 1..] && p' == s[|h'| + 1..];
  }
}
