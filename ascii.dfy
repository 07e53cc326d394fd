/** The character-level encodings an RDM6300 frame and the returned tag
  * identifier use: ASCII hex digits (what `ubinascii.unhexlify` and
  * `int(_, 16)` read) and base-10 numerals (what `str(int)` writes). */
module Ascii {

  import opened Wrappers

  /** One octet as it arrives on the serial line. */
  newtype byte = b: int | 0 <= b < 256

  /** 16 to the k-th: how many values k hex digits can spell. */
  function Pow16(k: nat): (p: nat)
    ensures p >= 1
  {
    if k == 0 then 1 else 16 * Pow16(k - 1)
  }

  // ---------------------------------------------------------------------
  // Hex digits

  /** '0'-'9', 'A'-'F' or 'a'-'f'. */
  predicate IsHexDigit(c: byte) {
    (0x30 <= c <= 0x39) || (0x41 <= c <= 0x46) || (0x61 <= c <= 0x66)
  }

  predicate AllHex(s: seq<byte>) {
    forall i :: 0 <= i < |s| ==> IsHexDigit(s[i])
  }

  /** The value of one hex digit, in either case. */
  function DigitValue(c: byte): (v: nat)
    requires IsHexDigit(c)
    ensures v < 16
  {
    if c <= 0x39 then c as nat - 0x30
    else if c <= 0x46 then c as nat - 0x37
    else c as nat - 0x57
  }

  /** The upper-case hex digit for v, as the reader module sends it. */
  function HexDigit(v: nat): (c: byte)
    requires v < 16
    ensures IsHexDigit(c) && DigitValue(c) == v
  {
    if v < 10 then (0x30 + v) as byte else (0x37 + v) as byte
  }

  /** `ubinascii.unhexlify`: two hex digits per octet, high nibble first.
    * An odd length or a character that is not a hex digit raises
    * ValueError, here `None`. `UnhexlifyCases` states what it returns. */
  function Unhexlify(s: seq<byte>): Option<seq<byte>> {
    if |s| == 0 then Some([])
    else if |s| == 1 || !IsHexDigit(s[0]) || !IsHexDigit(s[1]) then None
    else
      match Unhexlify(s[2..])
      case None => None
      case Some(rest) => Some([(16 * DigitValue(s[0]) + DigitValue(s[1])) as byte] + rest)
  }

  /** `unhexlify` succeeds exactly on an even number of hex digits, and then
    * each octet is the value of its two digits, the first one high. */
  lemma {:induction false} UnhexlifyCases(s: seq<byte>)
    ensures var r := Unhexlify(s);
      && (r.Some? <==> |s| % 2 == 0 && AllHex(s))
      && (r.Some? ==> 2 * |r.value| == |s|)
      && (r.Some? ==> forall i :: 0 <= i < |r.value| ==>
            r.value[i] as int == 16 * DigitValue(s[2 * i]) + DigitValue(s[2 * i + 1]))
    decreases |s|
  {
    if |s| >= 2 {
      var t := s[2..];
      assert forall j :: 0 <= j < |t| ==> t[j] == s[j + 2];
      UnhexlifyCases(t);
      if IsHexDigit(s[0]) && IsHexDigit(s[1]) && Unhexlify(t).Some? {
        var r := Unhexlify(s).value;
        forall i | 0 < i < |r|
          ensures r[i] as int == 16 * DigitValue(s[2 * i]) + DigitValue(s[2 * i + 1])
        {
          assert r[i] == Unhexlify(t).value[i - 1];
          assert t[2 * (i - 1)] == s[2 * i] && t[2 * (i - 1) + 1] == s[2 * i + 1];
        }
      }
    }
  }

  /** Upper-case hex rendering, two digits per octet, high nibble first:
    * the inverse of `Unhexlify` on the digits the reader module emits. */
  function Hexlify(bs: seq<byte>): (s: seq<byte>)
    ensures |s| == 2 * |bs| && AllHex(s)
    ensures forall i :: 0 <= i < |bs| ==>
              s[2 * i] == HexDigit(bs[i] as nat / 16) && s[2 * i + 1] == HexDigit(bs[i] as nat % 16)
  {
    if bs == [] then []
    else
      var last := bs[|bs| - 1];
      Hexlify(bs[..|bs| - 1]) + [HexDigit(last as nat / 16), HexDigit(last as nat % 16)]
  }

  /** `int(s, 16)` for a string made of hex digits only. */
  function HexValue(s: seq<byte>): (n: nat)
    requires AllHex(s)
    ensures n < Pow16(|s|)
  {
    if s == [] then 0 else 16 * HexValue(s[..|s| - 1]) + DigitValue(s[|s| - 1])
  }

  /** Octets read as one unsigned big-endian number. */
  function BigEndian(bs: seq<byte>): nat {
    if bs == [] then 0 else 256 * BigEndian(bs[..|bs| - 1]) + bs[|bs| - 1] as nat
  }

  /** The k low-order octets of n, most significant first. */
  function BytesOf(n: nat, k: nat): (bs: seq<byte>)
    ensures |bs| == k
  {
    if k == 0 then [] else BytesOf(n / 256, k - 1) + [(n % 256) as byte]
  }

  lemma {:induction false} UnhexlifyHexlify(bs: seq<byte>)
    ensures Unhexlify(Hexlify(bs)) == Some(bs)
  {
    var s := Hexlify(bs);
    var r := Unhexlify(s);
    UnhexlifyCases(s);
    assert r.Some?;
    assert |r.value| == |bs|;
    forall i | 0 <= i < |bs|
      ensures r.value[i] == bs[i]
    {
      assert r.value[i] as int == 16 * (bs[i] as nat / 16) + bs[i] as nat % 16;
    }
    assert r.value == bs;
  }

  lemma {:induction false} HexValueHexlify(bs: seq<byte>)
    ensures HexValue(Hexlify(bs)) == BigEndian(bs)
  {
    if bs != [] {
      var init, last := bs[..|bs| - 1], bs[|bs| - 1];
      var x := Hexlify(init);
      var hi, lo := HexDigit(last as nat / 16), HexDigit(last as nat % 16);
      assert Hexlify(bs) == x + [hi, lo];
      assert (x + [hi, lo])[..|x| + 1] == x + [hi];
      assert (x + [hi])[..|x|] == x;
      HexValueHexlify(init);
      calc {
        HexValue(x + [hi, lo]);
        16 * HexValue(x + [hi]) + last as nat % 16;
        16 * (16 * HexValue(x) + last as nat / 16) + last as nat % 16;
        256 * BigEndian(init) + last as nat;
      }
    }
  }

  lemma {:induction false} BigEndianBytesOf(n: nat, k: nat)
    requires n < Pow16(2 * k)
    ensures BigEndian(BytesOf(n, k)) == n
  {
    if k > 0 {
      assert Pow16(2 * k) == 256 * Pow16(2 * (k - 1));
      BigEndianBytesOf(n / 256, k - 1);
      assert BytesOf(n, k)[..k - 1] == BytesOf(n / 256, k - 1);
    }
  }

  // ---------------------------------------------------------------------
  // Decimal numerals

  predicate IsDigitChar(c: char) {
    '0' <= c <= '9'
  }

  predicate AllDigits(s: string) {
    forall i :: 0 <= i < |s| ==> IsDigitChar(s[i])
  }

  /** A numeral as Python's `str(int)` writes a non-negative integer:
    * digits only, and no leading zero unless the numeral is "0". */
  predicate IsCanonicalDecimal(s: string) {
    |s| >= 1 && AllDigits(s) && (s[0] == '0' ==> |s| == 1)
  }

  function DigitChar(d: nat): (c: char)
    requires d < 10
    ensures IsDigitChar(c)
  {
    (0x30 + d) as char
  }

  /** The number a string of digits spells in base 10. */
  function DecimalValue(s: string): nat
    requires AllDigits(s)
  {
    if s == [] then 0 else 10 * DecimalValue(s[..|s| - 1]) + (s[|s| - 1] as int - 0x30)
  }

  /** `str(n)`: the canonical base-10 numeral of n. */
  function Decimal(n: nat): (s: string)
    ensures IsCanonicalDecimal(s) && DecimalValue(s) == n
  {
    if n < 10 then [DigitChar(n)]
    else
      var init := Decimal(n / 10);
      assert (init + [DigitChar(n % 10)])[..|init|] == init;
      init + [DigitChar(n % 10)]
  }

  /** Canonical numerals and natural numbers correspond one to one:
    * rendering the value of a canonical numeral gives the numeral back. */
  lemma {:induction false} DecimalOfValue(s: string)
    requires IsCanonicalDecimal(s)
    ensures Decimal(DecimalValue(s)) == s
  {
    if |s| > 1 {
      var init := s[..|s| - 1];
      var d := s[|s| - 1] as int - 0x30;
      DecimalOfValue(init);
      var v := DecimalValue(init);
      assert DecimalValue(s) == 10 * v + d;
      assert (10 * v + d) / 10 == v && (10 * v + d) % 10 == d;
      assert DigitChar(d) == s[|s| - 1];
      assert s == init + [s[|s| - 1]];
    }
  }
}
