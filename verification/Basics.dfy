/** Shared vocabulary: results, bytes, and text as the byte strings that Rust's `String` holds. */
module Basics {

  datatype Option<+T> = None | Some(value: T)

  /** Failure-compatible, so that `:-` propagates errors as the source's `?` does. */
  datatype Result<+T, +E> = Ok(value: T) | Err(error: E) {
    predicate IsFailure() {
      Err?
    }

    function PropagateFailure<U>(): Result<U, E>
      requires Err?
    {
      Err(error)
    }

    function Extract(): T
      requires Ok?
    {
      value
    }
  }

  type byte = b: int | 0 <= b < 256

  /** UTF-8 bytes of a string; lengths are byte counts, as `str::len` reports them. */
  type Text = seq<byte>

  const I64_MAX: int := 0x7fff_ffff_ffff_ffff

  type U64 = x: int | 0 <= x < 0x1_0000_0000_0000_0000
  type I64 = x: int | -0x8000_0000_0000_0000 <= x < 0x8000_0000_0000_0000

  /** A SHA-256 output; the hash itself is a parameter wherever one is computed. */
  type Digest = d: seq<byte> | |d| == 32 witness seq(32, _ => 0)

  type Hash = Text -> Digest

  predicate IsZero(d: Digest) { forall i :: 0 <= i < |d| ==> d[i] == 0 }

  /** What becomes of a request that changes something; losing either half looks the same to the caller. */
  datatype Fate = Delivered | RequestLost | ReplyLost

  /** The bytes of an ASCII literal. */
  function Ascii(s: string): Text {
    seq(|s|, i requires 0 <= i < |s| => (s[i] as int) % 256)
  }

  /** `u16::to_be_bytes`. */
  function BigEndian16(n: nat): (bytes: Text)
    requires n < 65536
    ensures |bytes| == 2 && Value16(bytes[0], bytes[1]) == n
  {
    [n / 256, n % 256]
  }

  /** `u16::from_be_bytes`. */
  function Value16(high: byte, low: byte): (n: nat)
    ensures n < 65536
  {
    var h: int := high;
    h * 256 + low
  }

  /** The low `width` bytes of `n`, most significant first: `to_be_bytes` of wider integers. */
  function BigEndian(n: nat, width: nat): Text
    decreases width
  {
    if width == 0 then [] else BigEndian(n / 256, width - 1) + [n % 256]
  }

  lemma BytesOfValue16(high: byte, low: byte)
    ensures BigEndian16(Value16(high, low)) == [high, low]
  {}

  predicate IsLower(b: byte) { 97 <= b <= 122 }

  predicate IsUpper(b: byte) { 65 <= b <= 90 }

  predicate IsDigit(b: byte) { 48 <= b <= 57 }

  predicate IsAlphanumeric(b: byte) { IsLower(b) || IsUpper(b) || IsDigit(b) }

  predicate IsHexDigit(b: byte) { IsDigit(b) || 97 <= b <= 102 || 65 <= b <= 70 }

  /** `u8::is_ascii_whitespace`: space, tab, line feed, form feed, carriage return. */
  predicate IsWhitespace(b: byte) { b == 32 || b == 9 || b == 10 || b == 12 || b == 13 }

  predicate IsAscii(s: Text) { forall i :: 0 <= i < |s| ==> s[i] < 128 }

  /** base64url alphabet without padding: letters, digits, `-` and `_`. */
  predicate IsUrlSafe(b: byte) { IsAlphanumeric(b) || b == 45 || b == 95 }

  predicate AllUrlSafe(s: Text) { forall i :: 0 <= i < |s| ==> IsUrlSafe(s[i]) }

  predicate NoDuplicates<T(==)>(s: seq<T>) {
    forall i, j :: 0 <= i < j < |s| ==> s[i] != s[j]
  }

  function Elements<T>(s: seq<T>): set<T> {
    set x | x in s
  }

  /** A duplicate-free sequence has as many elements as positions. */
  lemma {:induction false} ElementsSize<T>(s: seq<T>)
    requires NoDuplicates(s)
    ensures |Elements(s)| == |s|
  {
    if s == [] {
      assert Elements(s) == {};
    } else {
      var front, last := s[..|s| - 1], s[|s| - 1];
      ElementsSize(front);
      assert Elements(s) == Elements(front) + {last};
    }
  }

  /** Pigeonhole: a duplicate-free sequence drawn from a set is no longer than the set. */
  lemma Pigeonhole<T>(s: seq<T>, all: set<T>)
    requires NoDuplicates(s)
    requires forall x :: x in s ==> x in all
    ensures |s| <= |all|
    ensures |s| == |all| ==> Elements(s) == all
  {
    ElementsSize(s);
    SubsetSize(Elements(s), all);
  }

  lemma {:induction false} SubsetSize<T>(small: set<T>, large: set<T>)
    requires small <= large
    ensures |small| <= |large|
    ensures |small| == |large| ==> small == large
  {
    assert large == small + (large - small);
    assert |large| == |small| + |large - small|;
  }
}
