/** Public UUID text (section 4 of RFC 9562): formatting, parsing, and why they agree. */
module Uuid {
  import opened Basics

  const DASH: byte := 45

  /** Version 1 to 8 in the high nibble of byte 6, variant `10` in the top bits of byte 8. */
  predicate Versioned(value: Text)
    requires |value| == 16
  {
    1 <= value[6] / 16 <= 8 && value[8] / 64 == 2
  }

  // ---------------------------------------------------------------- hexadecimal

  function HexDigit(n: nat): byte
    requires n < 16
  {
    if n < 10 then 48 + n else 97 + (n - 10)
  }

  /** Lower-case digits only: `decode_hex`. */
  function DecodeHex(b: byte): (r: Option<nat>)
    ensures r.Some? ==> r.value < 16 && HexDigit(r.value) == b
  {
    if 48 <= b <= 57 then Some(b - 48) else if 97 <= b <= 102 then Some(b - 97 + 10) else None
  }

  lemma DecodeHexOfDigit(n: nat)
    requires n < 16
    ensures DecodeHex(HexDigit(n)) == Some(n)
  {}

  function HexText(value: Text): (h: Text)
    ensures |h| == 2 * |value|
  {
    if value == [] then []
    else HexText(value[..|value| - 1]) + [HexDigit(value[|value| - 1] / 16), HexDigit(value[|value| - 1] % 16)]
  }

  function Join(high: nat, low: nat): byte
    requires high < 16 && low < 16
  {
    high * 16 + low
  }

  lemma JoinRejoins(b: byte)
    ensures Join(b / 16, b % 16) == b
  {}

  lemma JoinSplits(high: nat, low: nat)
    requires high < 16 && low < 16
    ensures Join(high, low) / 16 == high && Join(high, low) % 16 == low
  {}

  function Unhex(h: Text): (r: Option<Text>)
    requires |h| % 2 == 0
    ensures r.Some? ==> 2 * |r.value| == |h|
  {
    if h == [] then Some([])
    else
      match (Unhex(h[..|h| - 2]), DecodeHex(h[|h| - 2]), DecodeHex(h[|h| - 1]))
      case (Some(front), Some(high), Some(low)) => Some(front + [Join(high, low)])
      case _ => None
  }

  lemma {:induction false} UnhexOfHexText(value: Text)
    ensures Unhex(HexText(value)) == Some(value)
  {
    hide HexDigit, DecodeHex, Join;
    if value != [] {
      var front, last := value[..|value| - 1], value[|value| - 1];
      UnhexOfHexText(front);
      JoinRejoins(last);
      DecodeHexOfDigit(last / 16);
      DecodeHexOfDigit(last % 16);
      var h := HexText(value);
      assert h[..|h| - 2] == HexText(front);
      assert value == front + [last];
    }
  }

  lemma {:induction false} HexTextOfUnhex(h: Text)
    requires |h| % 2 == 0 && Unhex(h).Some?
    ensures HexText(Unhex(h).value) == h
  {
    hide HexDigit, DecodeHex, Join;
    if h != [] {
      HexTextOfUnhex(h[..|h| - 2]);
      var value := Unhex(h).value;
      JoinSplits(DecodeHex(h[|h| - 2]).value, DecodeHex(h[|h| - 1]).value);
      assert value[..|value| - 1] == Unhex(h[..|h| - 2]).value;
      assert h == h[..|h| - 2] + [h[|h| - 2], h[|h| - 1]];
    }
  }

  // ---------------------------------------------------------------- dashes

  function Dashed(h: Text): (s: Text)
    requires |h| == 32
    ensures |s| == 36
  {
    h[..8] + [DASH] + h[8..12] + [DASH] + h[12..16] + [DASH] + h[16..20] + [DASH] + h[20..]
  }

  predicate DashesInPlace(s: Text)
    requires |s| == 36
  {
    s[8] == DASH && s[13] == DASH && s[18] == DASH && s[23] == DASH
  }

  /** The bytes at all other positions, in order: what the filtering iterator yields. */
  function Undashed(s: Text): (h: Text)
    requires |s| == 36
    ensures |h| == 32
  {
    s[..8] + s[9..13] + s[14..18] + s[19..23] + s[24..]
  }

  lemma UndashedOfDashed(h: Text)
    requires |h| == 32
    ensures DashesInPlace(Dashed(h)) && Undashed(Dashed(h)) == h
  {
    var s := Dashed(h);
    assert s[..8] == h[..8] && s[9..13] == h[8..12] && s[14..18] == h[12..16];
    assert s[19..23] == h[16..20] && s[24..] == h[20..];
    assert h == h[..8] + h[8..12] + h[12..16] + h[16..20] + h[20..];
  }

  lemma DashedOfUndashed(s: Text)
    requires |s| == 36 && DashesInPlace(s)
    ensures Dashed(Undashed(s)) == s
  {
    var h := Undashed(s);
    assert h[..8] == s[..8] && h[8..12] == s[9..13] && h[12..16] == s[14..18];
    assert h[16..20] == s[19..23] && h[20..] == s[24..];
    assert s == s[..8] + [s[8]] + s[9..13] + [s[13]] + s[14..18] + [s[18]] + s[19..23] + [s[23]] + s[24..];
  }

  // ---------------------------------------------------------------- the two operations

  function Format(value: Text): Text
    requires |value| == 16
  {
    Dashed(HexText(value))
  }

  function Parse(s: Text): Option<Text> {
    if |s| != 36 || !DashesInPlace(s) then None
    else
      match Unhex(Undashed(s))
      case Some(value) => if Versioned(value) then Some(s) else None
      case None => None
  }

  /** Output written before byte `i`: two digits per byte and a dash before bytes 4, 6, 8 and 10. */
  function Position(i: nat): nat
    requires i <= 16
  {
    2 * i + (if i > 10 then 4 else if i > 8 then 3 else if i > 6 then 2 else if i > 4 then 1 else 0)
  }

  lemma {:induction false} HexTextAt(value: Text, i: nat)
    requires i < |value|
    ensures HexText(value)[2 * i] == HexDigit(value[i] / 16) && HexText(value)[2 * i + 1] == HexDigit(value[i] % 16)
  {
    if i < |value| - 1 {
      HexTextAt(value[..|value| - 1], i);
    }
  }

  method FormatUuid(value: Text) returns (output: Text)
    requires |value| == 16
    ensures output == Format(value)
  {
    ghost var whole := Format(value);
    output := [];
    for i := 0 to 16
      invariant output == whole[..Position(i)]
    {
      if i == 4 || i == 6 || i == 8 || i == 10 {
        output := output + [DASH];
      }
      output := output + [HexDigit(value[i] / 16)];
      output := output + [HexDigit(value[i] % 16)];
      HexTextAt(value, i);
      FormatStep(HexText(value), i);
    }
    assert whole[..Position(16)] == whole;
  }

  lemma DashedAt(h: Text, k: nat)
    requires |h| == 32 && k < 32
    ensures var dashes := if k >= 20 then 4 else if k >= 16 then 3 else if k >= 12 then 2 else if k >= 8 then 1 else 0;
            Dashed(h)[k + dashes] == h[k]
  {}

  lemma FormatStep(h: Text, i: nat)
    requires |h| == 32 && i < 16
    ensures var s := Dashed(h);
            var dash := if i == 4 || i == 6 || i == 8 || i == 10 then [DASH] else [];
            s[..Position(i + 1)] == s[..Position(i)] + dash + [h[2 * i]] + [h[2 * i + 1]]
  {
    hide Dashed;
    var s := Dashed(h);
    UndashedOfDashed(h);
    DashedAt(h, 2 * i);
    DashedAt(h, 2 * i + 1);
    var from, to := Position(i), Position(i + 1);
    assert s[..to] == s[..from] + s[from..to];
    if i == 4 || i == 6 || i == 8 || i == 10 {
      assert s[from..to] == [s[from], s[from + 1], s[from + 2]];
    } else {
      assert s[from..to] == [s[from], s[from + 1]];
    }
  }

  method ParsePublicUuid(s: Text) returns (r: Option<Text>)
    ensures r == Parse(s)
  {
    if |s| != 36 || !DashesInPlace(s) {
      return None;
    }
    var source := Undashed(s);
    var decoded: Text := [];
    for i := 0 to 16
      invariant Unhex(source[..2 * i]) == Some(decoded)
    {
      var high, low := DecodeHex(source[2 * i]), DecodeHex(source[2 * i + 1]);
      var longer := source[..2 * i + 2];
      assert longer[..|longer| - 2] == source[..2 * i];
      if high.None? || low.None? {
        UnhexFails(source, i + 1);
        return None;
      }
      decoded := decoded + [Join(high.value, low.value)];
    }
    assert source[..32] == source;
    return if Versioned(decoded) then Some(s) else None;
  }

  lemma {:induction false} UnhexFails(h: Text, i: nat)
    requires |h| % 2 == 0 && 2 * i <= |h| && Unhex(h[..2 * i]).None?
    ensures Unhex(h).None?
  {
    if 2 * i == |h| {
      assert h[..2 * i] == h;
    } else {
      var front := h[..|h| - 2];
      assert front[..2 * i] == h[..2 * i];
      UnhexFails(front, i);
    }
  }

  // ---------------------------------------------------------------- agreement

  /** Each text comes from at most one value. */
  lemma FormatInjective(a: Text, b: Text)
    requires |a| == 16 && |b| == 16 && Format(a) == Format(b)
    ensures a == b
  {
    UndashedOfDashed(HexText(a));
    UndashedOfDashed(HexText(b));
    UnhexOfHexText(a);
    UnhexOfHexText(b);
  }

  /** The parser accepts exactly the texts that formatting produces from versioned values. */
  lemma ParseIffFormatted(s: Text)
    ensures Parse(s).Some? <==> exists value: Text :: |value| == 16 && Versioned(value) && Format(value) == s
    ensures Parse(s).Some? ==> Parse(s).value == s
  {
    if Parse(s).Some? {
      var value := Unhex(Undashed(s)).value;
      HexTextOfUnhex(Undashed(s));
      DashedOfUndashed(s);
      assert |value| == 16 && Versioned(value) && Format(value) == s;
    }
    forall value: Text | |value| == 16 && Versioned(value) && Format(value) == s
      ensures Parse(s).Some?
    {
      UndashedOfDashed(HexText(value));
      UnhexOfHexText(value);
    }
  }
}
