/** An RFC 2136 payload that is accepted and encodes back to different bytes. */
module DnsSettingsExample {
  import opened Basics
  import opened DnsSettings
  import Url

  /** One address with the two texts the platform reads for it and the one it prints. */
  datatype Loopback = Loopback

  const LONG: Text := Ascii("[0:0:0:0:0:0:0:1]:53")
  const SHORT: Text := Ascii("[::1]:53")

  function ReadAddress(text: Text): Option<Loopback> { if text == LONG || text == SHORT then Some(Loopback) else None }

  function PrintLong(a: Loopback): Text { LONG }

  function PrintShort(a: Loopback): Text { SHORT }

  function Platform(): AddressFormat<Loopback> { AddressFormat(PrintShort, ReadAddress) }

  /** The format of someone who writes the address out in full. */
  function Verbose(): AddressFormat<Loopback> { AddressFormat(PrintLong, ReadAddress) }

  function Sample(): Settings<Loopback> {
    Rfc2136(Loopback, Ascii("a"), Ascii("b"), HmacSha256, [1, 2, 3, 4, 5, 6, 7, 8, 9, 10, 11, 12, 13, 14, 15, 16])
  }

  lemma SampleIsConstructible()
    ensures Constructible(Sample())
    ensures Faithful(Verbose())
  {
    OneLetter(Ascii("a"));
    OneLetter(Ascii("b"));
    forall a: Loopback
      ensures Verbose().print_(a) == LONG && Verbose().parse(LONG) == Some(a)
    {
      assert Verbose().print_(a) == PrintLong(a);
      assert Verbose().parse(LONG) == ReadAddress(LONG) && a == Loopback;
    }
  }

  lemma OneLetter(name: Text)
    requires |name| == 1 && IsLower(name[0])
    ensures ValidDnsName(name)
  {
    assert Url.FirstOf(name, {Url.DOT}) == 1;
    assert Url.Split(name, Url.DOT) == [name];
  }

  /** Decoding only ever reads addresses; how they are printed does not matter. */
  lemma DecodingReads<A>(format: AddressFormat<A>, other: AddressFormat<A>, bytes: Text)
    requires format.parse == other.parse
    ensures Decode(format, bytes) == Decode(other, bytes)
  {
    hide TakeText, TakeField, TakeByte, Construct;
  }

  /** The payload with the long address is accepted, and re-encoding it shortens the address. */
  lemma LongAddressIsNotCanonical()
    ensures Encode(Verbose(), Sample()).Ok?
    ensures var bytes := Encode(Verbose(), Sample()).value;
            && Decode(Platform(), bytes) == Ok(Sample())
            && Encode(Platform(), Sample()) != Ok(bytes)
  {
    hide Encode, Decode, Constructible, Faithful, ServerText, TakeField;
    SampleIsConstructible();
    DecodeEncode(Verbose(), Sample());
    var bytes := Encode(Verbose(), Sample()).value;
    DecodingReads(Platform(), Verbose(), bytes);
    AcceptedIsCanonicalIff(Verbose(), bytes);
    AcceptedIsCanonicalIff(Platform(), bytes);
    assert LONG != SHORT by { assert |LONG| != |SHORT|; }
  }
}
