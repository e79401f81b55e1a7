/**
 * Bytes and the lowercase hexadecimal text that `hexdigest()` renders a digest as.
 */
module HexEncoding {
  import opened Wrappers

  type Byte = x: int | 0 <= x < 256

  const Digits: string := "0123456789abcdef"

  /** Two lowercase hex digits per byte, high nibble first. */
  function Hex(b: seq<Byte>): (h: string)
    ensures |h| == 2 * |b|
    ensures forall c :: c in h ==> c in Digits
  {
    if b == [] then ""
    else [Digits[b[0] / 16], Digits[b[0] % 16]] + Hex(b[1..])
  }

  /** The value of one lowercase hex digit. */
  function DigitValue(c: char): (v: Option<nat>)
    ensures v.Some? ==> v.value < 16
  {
    if '0' <= c <= '9' then Some(c as nat - '0' as nat)
    else if 'a' <= c <= 'f' then Some(c as nat - 'a' as nat + 10)
    else None
  }

  /** Reads lowercase hex text back into bytes; None for odd length or a non-digit. */
  function Unhex(h: string): Option<seq<Byte>>
  {
    if h == [] then Some([])
    else if |h| == 1 || DigitValue(h[0]).None? || DigitValue(h[1]).None? then None
    else
      match Unhex(h[2..])
      case None => None
      case Some(rest) => Some([DigitValue(h[0]).value * 16 + DigitValue(h[1]).value] + rest)
  }

  lemma {:induction false} UnhexHex(b: seq<Byte>)
    ensures Unhex(Hex(b)) == Some(b)
  {
    if b != [] {
      var h := Hex(b);
      var hi, lo := b[0] / 16, b[0] % 16;
      assert h == [Digits[hi], Digits[lo]] + Hex(b[1..]);
      assert h[2..] == Hex(b[1..]);
      UnhexHex(b[1..]);
      DigitValueOfDigit(hi);
      DigitValueOfDigit(lo);
      UnhexPair(h, hi, lo, b[1..]);
      assert hi * 16 + lo == b[0];
      assert b == [b[0]] + b[1..];
    }
  }

  /** Two digits followed by readable text read as one byte in front of that text. */
  lemma UnhexPair(h: string, hi: nat, lo: nat, rest: seq<Byte>)
    requires |h| >= 2 && hi < 16 && lo < 16
    requires DigitValue(h[0]) == Some(hi) && DigitValue(h[1]) == Some(lo) && Unhex(h[2..]) == Some(rest)
    ensures Unhex(h) == Some([hi * 16 + lo] + rest)
  {
  }

  lemma DigitValueOfDigit(n: nat)
    requires n < 16
    ensures DigitValue(Digits[n]) == Some(n)
  {
  }

  /** Different digests never render as the same text. */
  lemma HexInjective(a: seq<Byte>, b: seq<Byte>)
    requires Hex(a) == Hex(b)
    ensures a == b
  {
    UnhexHex(a);
    UnhexHex(b);
  }
}
