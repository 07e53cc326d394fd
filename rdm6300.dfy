/** The RDM6300 serial frame and its decoder (`parse_packet`).
  *
  * A frame is 14 octets: STX 0x02, ten ASCII hex digits of card data (five
  * octets: a site code, then the four octets of the tag number), two ASCII
  * hex digits of checksum (the XOR of the five card-data octets), ETX 0x03.
  * The decoder returns the tag number, without the site code, as a decimal
  * string. */
module Rdm6300 {

  import opened Wrappers
  import opened Ascii

  const FrameLength := 14
  const Stx: byte := 0x02
  const Etx: byte := 0x03

  /** The reasons `parse_packet` returns `None`. */
  datatype Rejection = InvalidLength | InvalidHeader | InvalidStopByte | ChecksumMismatch

  /** The field whose text made `unhexlify` or `int` raise ValueError. */
  datatype Field = CardData | ChecksumText

  /** What one call of `parse_packet` does: return an id, return `None`,
    * or raise. */
  datatype Verdict = Accepted(id: string) | Rejected(why: Rejection) | Raised(field: Field)

  predicate Framed(packet: seq<byte>) {
    |packet| == FrameLength && packet[0] == Stx && packet[13] == Etx
  }

  function Xor(a: byte, b: byte): byte {
    ((a as bv8) ^ (b as bv8)) as byte
  }

  /** The running XOR of the octets, folded from the first one on. */
  function XorAll(bs: seq<byte>): byte {
    if bs == [] then 0 else Xor(XorAll(bs[..|bs| - 1]), bs[|bs| - 1])
  }

  /** ASCII white space as `int()` skips it around a numeral. */
  predicate IsSpace(c: byte) {
    c == 0x20 || 0x09 <= c <= 0x0D
  }

  /** `int(chr(c0) + chr(c1), 16)`: two hex digits; or one hex digit with a
    * white-space character before or after it; or a sign followed by one
    * hex digit. Anything else raises ValueError, here `None`. */
  function IntBase16(c0: byte, c1: byte): (r: Option<int>)
    ensures IsHexDigit(c0) && IsHexDigit(c1) ==> r == Some(16 * DigitValue(c0) + DigitValue(c1))
    ensures r.Some? ==> IsHexDigit(c0) || IsHexDigit(c1)
    ensures r.Some? ==> -16 < r.value < 256
  {
    if IsHexDigit(c0) && IsHexDigit(c1) then Some(16 * DigitValue(c0) + DigitValue(c1))
    else if IsSpace(c0) && IsHexDigit(c1) then Some(DigitValue(c1))
    else if IsHexDigit(c0) && IsSpace(c1) then Some(DigitValue(c0))
    else if c0 == 0x2B && IsHexDigit(c1) then Some(DigitValue(c1))
    else if c0 == 0x2D && IsHexDigit(c1) then Some(-(DigitValue(c1) as int))
    else None
  }

  /** The five octets the card-data digits of a framed packet spell. */
  function CardBytes(packet: seq<byte>): (raw: seq<byte>)
    requires |packet| == FrameLength && AllHex(packet[1..11])
    ensures |raw| == 5
  {
    UnhexlifyCases(packet[1..11]);
    Unhexlify(packet[1..11]).value
  }

  /** The decoder, as a function of the received octets: `DecodeCases`
    * states what it decides. */
  function Decode(packet: seq<byte>): Verdict {
    if |packet| != FrameLength then Rejected(InvalidLength)
    else if packet[0] != Stx then Rejected(InvalidHeader)
    else if packet[13] != Etx then Rejected(InvalidStopByte)
    else
      var cardData := packet[1..11];
      match Unhexlify(cardData)
      case None => Raised(CardData)
      case Some(raw) =>
        match IntBase16(packet[11], packet[12])
        case None => Raised(ChecksumText)
        case Some(sent) =>
          if sent != XorAll(raw) as int then Rejected(ChecksumMismatch)
          else
            UnhexlifyCases(cardData);
            Accepted(Decimal(HexValue(cardData[2..])))
  }

  /** What the decoder decides, check by check in the source's order:
    * length, header, stop byte, the card data's hex digits, the checksum
    * field's text, the checksum's value; and what an accepted id is: the
    * canonical decimal numeral of the last eight card-data digits, a 32-bit
    * number. */
  lemma DecodeCases(packet: seq<byte>)
    ensures var v := Decode(packet);
      && (v == Rejected(InvalidLength) <==> |packet| != FrameLength)
      && (v == Rejected(InvalidHeader) <==> |packet| == FrameLength && packet[0] != Stx)
      && (v == Rejected(InvalidStopByte) <==>
            |packet| == FrameLength && packet[0] == Stx && packet[13] != Etx)
      && (v == Raised(CardData) <==> Framed(packet) && !AllHex(packet[1..11]))
      && (v == Raised(ChecksumText) <==>
            Framed(packet) && AllHex(packet[1..11]) && IntBase16(packet[11], packet[12]).None?)
      && (v.Accepted? <==>
            Framed(packet) && AllHex(packet[1..11]) &&
            IntBase16(packet[11], packet[12]) == Some(XorAll(CardBytes(packet)) as int))
      && (v.Accepted? ==>
            AllHex(packet[3..11]) && IsCanonicalDecimal(v.id) &&
            DecimalValue(v.id) == HexValue(packet[3..11]) < 0x1_0000_0000)
  {
    if |packet| == FrameLength {
      UnhexlifyCases(packet[1..11]);
    }
    if Framed(packet) && AllHex(packet[1..11]) {
      var cardData := packet[1..11];
      assert cardData[2..] == packet[3..11];
      assert forall j :: 0 <= j < 8 ==> cardData[2..][j] == cardData[j + 2];
      assert Pow16(8) == 0x1_0000_0000;
    }
  }

  /** `parse_packet` as written: the guard chain, `unhexlify`, the XOR loop,
    * `int` on the checksum text, then the decimal rendering of the last
    * eight card-data digits. */
  method ParsePacket(packet: seq<byte>) returns (v: Verdict)
    ensures v == Decode(packet)
  {
    if |packet| != FrameLength {
      return Rejected(InvalidLength);
    }
    if packet[0] != Stx {
      return Rejected(InvalidHeader);
    }
    if packet[13] != Etx {
      return Rejected(InvalidStopByte);
    }
    var cardData := packet[1..11];
    var checksum := packet[11..13];
    var decoded := Unhexlify(cardData);
    UnhexlifyCases(cardData);
    if decoded.None? {
      return Raised(CardData);
    }
    var raw := decoded.value;
    var calculated: byte := 0;
    for i := 0 to |raw|
      invariant calculated == XorAll(raw[..i])
    {
      assert raw[..i + 1][..i] == raw[..i];
      calculated := Xor(calculated, raw[i]);
    }
    assert raw[..|raw|] == raw;
    var sent := IntBase16(checksum[0], checksum[1]);
    if sent.None? {
      return Raised(ChecksumText);
    }
    if sent.value != calculated as int {
      return Rejected(ChecksumMismatch);
    }
    return Accepted(Decimal(HexValue(cardData[2..])));
  }

  // ---------------------------------------------------------------------
  // Building frames, as the reader module does

  /** The frame the reader module sends for site code `site` and tag number
    * n: the five octets [site, n's four octets] in upper-case hex, their XOR
    * in upper-case hex, between STX and ETX. */
  function EncodeFrame(site: byte, n: nat): (f: seq<byte>)
    requires n < 0x1_0000_0000
    ensures Framed(f)
  {
    var raw := [site] + BytesOf(n, 4);
    [Stx] + Hexlify(raw) + Hexlify([XorAll(raw)]) + [Etx]
  }

  /** Where the parts of an encoded frame sit. */
  lemma EncodeFrameFields(site: byte, n: nat)
    requires n < 0x1_0000_0000
    ensures var raw := [site] + BytesOf(n, 4); var f := EncodeFrame(site, n);
      && f[1..11] == Hexlify(raw)
      && f[3..11] == Hexlify(BytesOf(n, 4))
      && f[11] == HexDigit(XorAll(raw) as nat / 16)
      && f[12] == HexDigit(XorAll(raw) as nat % 16)
  {
    var raw := [site] + BytesOf(n, 4);
    var f := EncodeFrame(site, n);
    var data, tail := Hexlify(raw), Hexlify(BytesOf(n, 4));
    assert f[1..11] == data;
    forall j | 0 <= j < 8
      ensures data[2..][j] == tail[j]
    {
      var i := j / 2;
      assert raw[i + 1] == BytesOf(n, 4)[i];
      assert j == 2 * i || j == 2 * i + 1;
      assert data[2 * (i + 1)] == tail[2 * i] && data[2 * (i + 1) + 1] == tail[2 * i + 1];
    }
    assert data[2..] == tail;
  }

  /** Every site code and tag number below 2^32, framed with its checksum,
    * decodes to the decimal rendering of the tag number. */
  lemma {:induction false} RoundTrip(site: byte, n: nat)
    requires n < 0x1_0000_0000
    ensures Decode(EncodeFrame(site, n)) == Accepted(Decimal(n))
  {
    var raw := [site] + BytesOf(n, 4);
    var f := EncodeFrame(site, n);
    EncodeFrameFields(site, n);
    UnhexlifyHexlify(raw);
    ChecksumTextValue(XorAll(raw));
    assert Decode(f).Accepted?;
    IdOfEncodedFrame(site, n);
  }

  lemma ChecksumTextValue(b: byte)
    ensures IntBase16(HexDigit(b as nat / 16), HexDigit(b as nat % 16)) == Some(b as int)
  {
  }

  lemma IdOfEncodedFrame(site: byte, n: nat)
    requires n < 0x1_0000_0000
    requires Decode(EncodeFrame(site, n)).Accepted?
    ensures Decode(EncodeFrame(site, n)).id == Decimal(n)
  {
    var f := EncodeFrame(site, n);
    EncodeFrameFields(site, n);
    HexValueHexlify(BytesOf(n, 4));
    assert Pow16(8) == 0x1_0000_0000;
    BigEndianBytesOf(n, 4);
    var id := Decode(f).id;
    assert DecimalValue(id) == n;
    DecimalOfValue(id);
  }

  /** The same round trip starting from the identifier text: any canonical
    * decimal identifier below 2^32 comes back unchanged. */
  lemma IdRoundTrip(site: byte, id: string)
    requires IsCanonicalDecimal(id) && DecimalValue(id) < 0x1_0000_0000
    ensures Decode(EncodeFrame(site, DecimalValue(id))) == Accepted(id)
  {
    RoundTrip(site, DecimalValue(id));
    DecimalOfValue(id);
  }

  /** The identifier depends on the last eight card-data digits only, and
    * through their value: two accepted frames give the same identifier
    * exactly when those digits spell the same number, whatever their site
    * codes. */
  lemma SameIdIffSameNumber(p: seq<byte>, q: seq<byte>)
    requires Decode(p).Accepted? && Decode(q).Accepted?
    ensures AllHex(p[3..11]) && AllHex(q[3..11])
    ensures Decode(p).id == Decode(q).id <==> HexValue(p[3..11]) == HexValue(q[3..11])
  {
    DecodeCases(p);
    DecodeCases(q);
    if Decode(p).id == Decode(q).id {
      assert DecimalValue(Decode(p).id) == DecimalValue(Decode(q).id);
    }
  }

  // ---------------------------------------------------------------------
  // The example frame and its corruptions

  /** 0x02 "00006140C8" "E9" 0x03: site 0x00, tag number 0x006140C8. */
  const Example: seq<byte> :=
    [0x02, 0x30, 0x30, 0x30, 0x30, 0x36, 0x31, 0x34, 0x30, 0x43, 0x38, 0x45, 0x39, 0x03]

  /** The example is the frame of site 0x00 and tag number 6373576. */
  lemma ExampleEncoding()
    ensures EncodeFrame(0, 6373576) == Example
  {
    ExampleOctets();
    ExampleText();
  }

  /** The example decodes to "6373576". */
  lemma ExampleFrame()
    ensures Decode(Example) == Accepted("6373576")
  {
    ExampleEncoding();
    RoundTrip(0, 6373576);
    ExampleDecimal();
  }

  lemma ExampleOctets()
    ensures [0 as byte] + BytesOf(6373576, 4) == [0x00, 0x00, 0x61, 0x40, 0xC8]
    ensures XorAll([0x00, 0x00, 0x61, 0x40, 0xC8]) == 0xE9
  {
    assert BytesOf(0, 1) == [0x00];
    assert BytesOf(97, 2) == BytesOf(0, 1) + [0x61];
    assert BytesOf(24896, 3) == BytesOf(97, 2) + [0x40];
    assert BytesOf(6373576, 4) == BytesOf(24896, 3) + [0xC8];
    var raw: seq<byte> := [0x00, 0x00, 0x61, 0x40, 0xC8];
    assert raw[..1][..0] == [] && raw[..2][..1] == raw[..1];
    assert raw[..3][..2] == raw[..2] && raw[..4][..3] == raw[..3];
    assert raw[..5] == raw && raw[..4] == raw[..5][..4];
    assert XorAll(raw[..1]) == 0x00;
    assert XorAll(raw[..2]) == 0x00;
    assert XorAll(raw[..3]) == Xor(0x00, 0x61) == 0x61;
    assert XorAll(raw[..4]) == Xor(0x61, 0x40) == 0x21;
    assert Xor(0x21, 0xC8) == 0xE9;
  }

  lemma ExampleText()
    ensures Hexlify([0x00, 0x00, 0x61, 0x40, 0xC8]) == [0x30, 0x30, 0x30, 0x30, 0x36, 0x31, 0x34, 0x30, 0x43, 0x38]
    ensures Hexlify([0xE9]) == [0x45, 0x39]
  {
    var raw: seq<byte> := [0x00, 0x00, 0x61, 0x40, 0xC8];
    var data := Hexlify(raw);
    assert raw[0] == 0x00 && raw[1] == 0x00 && raw[2] == 0x61 && raw[3] == 0x40 && raw[4] == 0xC8;
    assert data[0] == HexDigit(0) && data[1] == HexDigit(0);
    assert data[2] == HexDigit(0) && data[3] == HexDigit(0);
    assert data[4] == HexDigit(6) && data[5] == HexDigit(1);
    assert data[6] == HexDigit(4) && data[7] == HexDigit(0);
    assert data[8] == HexDigit(12) && data[9] == HexDigit(8);
    var sum := Hexlify([0xE9]);
    assert sum[0] == HexDigit(14) && sum[1] == HexDigit(9);
  }

  lemma ExampleDecimal()
    ensures Decimal(6373576) == "6373576"
  {
    assert Decimal(6) == "6";
    assert Decimal(63) == Decimal(6) + "3";
    assert Decimal(637) == Decimal(63) + "7";
    assert Decimal(6373) == Decimal(637) + "3";
    assert Decimal(63735) == Decimal(6373) + "5";
    assert Decimal(637357) == Decimal(63735) + "7";
    assert Decimal(6373576) == Decimal(637357) + "6";
  }

  /** Corruptions of the example frame: any other readable checksum text
    * (the two digits swapped, "9E", among them), the last octet cut off,
    * the header or the stop byte zeroed. */
  lemma ExampleChecksumForged(c0: byte, c1: byte)
    requires IntBase16(c0, c1).Some? && IntBase16(c0, c1) != Some(0xE9)
    ensures Decode(Example[11 := c0][12 := c1]) == Rejected(ChecksumMismatch)
  {
    ExampleAccepted();
    ExampleChecksumText();
    ChecksumDetectsForgery(Example, c0, c1);
  }

  lemma ExampleAccepted()
    ensures Decode(Example).Accepted?
  {
    ExampleFrame();
  }

  lemma ExampleChecksumText()
    ensures IntBase16(Example[11], Example[12]) == Some(0xE9)
  {
  }

  lemma ExampleFramingCorrupted()
    ensures Decode(Example[..13]) == Rejected(InvalidLength)
    ensures Decode(Example[0 := 0x00]) == Rejected(InvalidHeader)
    ensures Decode(Example[13 := 0x00]) == Rejected(InvalidStopByte)
  {
  }

  /** Replacing the checksum text of an accepted frame by any readable text
    * of another value makes the frame fail the checksum. */
  lemma ChecksumDetectsForgery(p: seq<byte>, c0: byte, c1: byte)
    requires Decode(p).Accepted?
    requires IntBase16(c0, c1).Some? && IntBase16(c0, c1) != IntBase16(p[11], p[12])
    ensures Decode(p[11 := c0][12 := c1]) == Rejected(ChecksumMismatch)
  {
    var q := p[11 := c0][12 := c1];
    DecodeCases(p);
    assert q[1..11] == p[1..11];
  }
}
