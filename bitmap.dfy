// The 54 header bytes the generator writes in front of its pixels: a
// 14-byte BITMAPFILEHEADER followed by a 40-byte BITMAPINFOHEADER, every
// field a little-endian integer. The width, height and both pixels-per-metre
// fields are signed 32-bit values in the format (a positive height means the
// rows are stored bottom-up); they are read here as unsigned, which agrees
// with the signed reading for every value below 2^31, as all of the
// generator's are.
module Bitmap {
  import LittleEndian

  type byte = LittleEndian.byte

  import opened Optional

  /** The BITMAPFILEHEADER as the generator spells it out, one field per line. */
  const FileHeader: seq<byte> :=
    [0x42, 0x4D] +
    [0x76, 0xF3, 0x89, 0x06] +
    [0x00, 0x00] +
    [0x00, 0x00] +
    [0x36, 0x00, 0x00, 0x00]

  /** The BITMAPINFOHEADER as the generator spells it out, one field per line. */
  const InfoHeader: seq<byte> :=
    [0x28, 0x00, 0x00, 0x00] +
    [0x40, 0x1F, 0x00, 0x00] +
    [0xDB, 0x11, 0x00, 0x00] +
    [0x01, 0x00] +
    [0x18, 0x00] +
    [0x00, 0x00, 0x00, 0x00] +
    [0x40, 0xF3, 0x89, 0x06] +
    [0x13, 0x0B, 0x00, 0x00] +
    [0x13, 0x0B, 0x00, 0x00] +
    [0x00, 0x00, 0x00, 0x00] +
    [0x00, 0x00, 0x00, 0x00]

  const FileHeaderSize := 14
  const InfoHeaderSize := 40
  const HeadersSize := FileHeaderSize + InfoHeaderSize
  /** "BM" read as a little-endian 16-bit word. */
  const BM := 0x4D42
  /** 2835 pixels per metre, i.e. 72 dots per inch. */
  const PixelsPerMetre := 0x0B13
  const U16 := 0x1_0000
  const U32 := 0x1_0000_0000

  /** The fields of both headers, in file order. */
  datatype Header = Header(
    signature: nat, fileSize: nat, reserved1: nat, reserved2: nat, dataOffset: nat,
    infoSize: nat, width: nat, height: nat, planes: nat, bitCount: nat,
    compression: nat, imageSize: nat, xPixelsPerMetre: nat, yPixelsPerMetre: nat,
    coloursUsed: nat, coloursImportant: nat)
  {
    /** Every field fits its width: 16 bits for the signature, reserved
        words, planes and bit count, 32 bits for the rest. */
    predicate Fits()
    {
      signature < U16 && fileSize < U32 && reserved1 < U16 && reserved2 < U16 &&
      dataOffset < U32 && infoSize < U32 && width < U32 && height < U32 &&
      planes < U16 && bitCount < U16 && compression < U32 && imageSize < U32 &&
      xPixelsPerMetre < U32 && yPixelsPerMetre < U32 && coloursUsed < U32 &&
      coloursImportant < U32
    }
  }

  /** The header of a 24-bit, uncompressed w-by-h image whose rows are 3*w
      bytes long, with no padding. */
  function Describe(w: nat, h: nat): Header
  {
    Header(BM, HeadersSize + 3 * w * h, 0, 0, HeadersSize,
           InfoHeaderSize, w, h, 1, 24, 0, 3 * w * h, PixelsPerMetre, PixelsPerMetre, 0, 0)
  }

  function U16Bytes(v: nat): (s: seq<byte>)
    requires v < U16
    ensures |s| == 2 && LittleEndian.Decode(s) == v
  {
    LittleEndian.DecodeEncode(v, 2);
    LittleEndian.Encode(v, 2)
  }

  function U32Bytes(v: nat): (s: seq<byte>)
    requires v < U32
    ensures |s| == 4 && LittleEndian.Decode(s) == v
  {
    LittleEndian.DecodeEncode(v, 4);
    LittleEndian.Encode(v, 4)
  }

  /** The 14 bytes of the file header. */
  function FileHeaderBytes(hd: Header): (s: seq<byte>)
    requires hd.Fits()
    ensures |s| == FileHeaderSize
  {
    U16Bytes(hd.signature) + U32Bytes(hd.fileSize) + U16Bytes(hd.reserved1) +
    U16Bytes(hd.reserved2) + U32Bytes(hd.dataOffset)
  }

  /** The 40 bytes of the info header. */
  function InfoHeaderBytes(hd: Header): (s: seq<byte>)
    requires hd.Fits()
    ensures |s| == InfoHeaderSize
  {
    U32Bytes(hd.infoSize) + U32Bytes(hd.width) + U32Bytes(hd.height) +
    U16Bytes(hd.planes) + U16Bytes(hd.bitCount) + U32Bytes(hd.compression) +
    U32Bytes(hd.imageSize) + U32Bytes(hd.xPixelsPerMetre) + U32Bytes(hd.yPixelsPerMetre) +
    U32Bytes(hd.coloursUsed) + U32Bytes(hd.coloursImportant)
  }

  function Field(s: seq<byte>, offset: nat, size: nat): nat
    requires offset + size <= |s|
  {
    LittleEndian.Decode(s[offset..offset + size])
  }

  /** Reads the two headers off the front of s; None when s is shorter than 54 bytes. */
  function Parse(s: seq<byte>): (r: Option<Header>)
    ensures r.Some? <==> |s| >= HeadersSize
    ensures r.Some? ==> r.value.Fits()
  {
    if |s| < HeadersSize then None
    else
      Some(Header(Field(s, 0, 2), Field(s, 2, 4), Field(s, 6, 2), Field(s, 8, 2),
                  Field(s, 10, 4), Field(s, 14, 4), Field(s, 18, 4), Field(s, 22, 4),
                  Field(s, 26, 2), Field(s, 28, 2), Field(s, 30, 4), Field(s, 34, 4),
                  Field(s, 38, 4), Field(s, 42, 4), Field(s, 46, 4), Field(s, 50, 4)))
  }

  /** Bytes per row in a conforming 24-bit bitmap: 3 per pixel, padded to a
      multiple of 4. */
  function PaddedRowSize(w: nat): (r: nat)
    ensures r % 4 == 0 && 3 * w <= r < 3 * w + 4
  {
    (24 * w + 31) / 32 * 4
  }

  /** The bytes of both headers. */
  function HeaderBytes(hd: Header): (s: seq<byte>)
    requires hd.Fits()
    ensures |s| == HeadersSize
  {
    FileHeaderBytes(hd) + InfoHeaderBytes(hd)
  }

  lemma FileHeaderFields(hd: Header, s: seq<byte>)
    requires hd.Fits() && |s| >= FileHeaderSize && s[..FileHeaderSize] == FileHeaderBytes(hd)
    ensures Field(s, 0, 2) == hd.signature && Field(s, 2, 4) == hd.fileSize
    ensures Field(s, 6, 2) == hd.reserved1 && Field(s, 8, 2) == hd.reserved2
    ensures Field(s, 10, 4) == hd.dataOffset
  {
    var f := FileHeaderBytes(hd);
    assert s[0..2] == f[0..2] == U16Bytes(hd.signature);
    assert s[2..6] == f[2..6] == U32Bytes(hd.fileSize);
    assert s[6..8] == f[6..8] == U16Bytes(hd.reserved1);
    assert s[8..10] == f[8..10] == U16Bytes(hd.reserved2);
    assert s[10..14] == f[10..14] == U32Bytes(hd.dataOffset);
  }

  lemma InfoHeaderFields(hd: Header, s: seq<byte>)
    requires hd.Fits() && |s| >= InfoHeaderSize && s[..InfoHeaderSize] == InfoHeaderBytes(hd)
    ensures Field(s, 0, 4) == hd.infoSize && Field(s, 4, 4) == hd.width
    ensures Field(s, 8, 4) == hd.height && Field(s, 12, 2) == hd.planes
    ensures Field(s, 14, 2) == hd.bitCount && Field(s, 16, 4) == hd.compression
    ensures Field(s, 20, 4) == hd.imageSize && Field(s, 24, 4) == hd.xPixelsPerMetre
    ensures Field(s, 28, 4) == hd.yPixelsPerMetre && Field(s, 32, 4) == hd.coloursUsed
    ensures Field(s, 36, 4) == hd.coloursImportant
  {
    InfoHeaderLowFields(hd, s);
    InfoHeaderHighFields(hd, s);
  }

  lemma InfoHeaderLowFields(hd: Header, s: seq<byte>)
    requires hd.Fits() && |s| >= InfoHeaderSize && s[..InfoHeaderSize] == InfoHeaderBytes(hd)
    ensures Field(s, 0, 4) == hd.infoSize && Field(s, 4, 4) == hd.width
    ensures Field(s, 8, 4) == hd.height && Field(s, 12, 2) == hd.planes
    ensures Field(s, 14, 2) == hd.bitCount
  {
    var f := InfoHeaderBytes(hd);
    assert s[0..4] == f[0..4] == U32Bytes(hd.infoSize);
    assert s[4..8] == f[4..8] == U32Bytes(hd.width);
    assert s[8..12] == f[8..12] == U32Bytes(hd.height);
    assert s[12..14] == f[12..14] == U16Bytes(hd.planes);
    assert s[14..16] == f[14..16] == U16Bytes(hd.bitCount);
  }

  lemma InfoHeaderHighFields(hd: Header, s: seq<byte>)
    requires hd.Fits() && |s| >= InfoHeaderSize && s[..InfoHeaderSize] == InfoHeaderBytes(hd)
    ensures Field(s, 16, 4) == hd.compression
    ensures Field(s, 20, 4) == hd.imageSize && Field(s, 24, 4) == hd.xPixelsPerMetre
    ensures Field(s, 28, 4) == hd.yPixelsPerMetre && Field(s, 32, 4) == hd.coloursUsed
    ensures Field(s, 36, 4) == hd.coloursImportant
  {
    var f := InfoHeaderBytes(hd);
    assert s[16..20] == f[16..20] == U32Bytes(hd.compression);
    assert s[20..24] == f[20..24] == U32Bytes(hd.imageSize);
    assert s[24..28] == f[24..28] == U32Bytes(hd.xPixelsPerMetre);
    assert s[28..32] == f[28..32] == U32Bytes(hd.yPixelsPerMetre);
    assert s[32..36] == f[32..36] == U32Bytes(hd.coloursUsed);
    assert s[36..40] == f[36..40] == U32Bytes(hd.coloursImportant);
  }

  /** Writing a header and reading it back, whatever follows it, gives the header. */
  lemma ParseHeaderBytes(hd: Header, rest: seq<byte>)
    requires hd.Fits()
    ensures Parse(HeaderBytes(hd) + rest) == Some(hd)
  {
    var s := HeaderBytes(hd) + rest;
    assert s[..FileHeaderSize] == FileHeaderBytes(hd);
    FileHeaderFields(hd, s);
    var t := s[FileHeaderSize..];
    assert t[..InfoHeaderSize] == InfoHeaderBytes(hd);
    InfoHeaderFields(hd, t);
    forall k: nat, n: nat | FileHeaderSize <= k && k + n <= HeadersSize
      ensures Field(s, k, n) == Field(t, k - FileHeaderSize, n)
    {
      assert s[k..k + n] == t[k - FileHeaderSize..k - FileHeaderSize + n];
    }
  }

  lemma FileHeaderBytesOfParse(s: seq<byte>)
    requires |s| >= HeadersSize
    ensures FileHeaderBytes(Parse(s).value) == s[..FileHeaderSize]
  {
    var hd := Parse(s).value;
    assert U16Bytes(hd.signature) == s[0..2] by { LittleEndian.EncodeDecode(s[0..2]); }
    assert U32Bytes(hd.fileSize) == s[2..6] by { LittleEndian.EncodeDecode(s[2..6]); }
    assert U16Bytes(hd.reserved1) == s[6..8] by { LittleEndian.EncodeDecode(s[6..8]); }
    assert U16Bytes(hd.reserved2) == s[8..10] by { LittleEndian.EncodeDecode(s[8..10]); }
    assert U32Bytes(hd.dataOffset) == s[10..14] by { LittleEndian.EncodeDecode(s[10..14]); }
    assert FileHeaderBytes(hd) == s[0..2] + s[2..6] + s[6..8] + s[8..10] + s[10..14];
  }

  lemma InfoHeaderBytesOfParse(s: seq<byte>)
    requires |s| >= HeadersSize
    ensures InfoHeaderBytes(Parse(s).value) == s[FileHeaderSize..HeadersSize]
  {
    var hd := Parse(s).value;
    InfoHeaderLowBytesOfParse(s);
    InfoHeaderHighBytesOfParse(s);
    assert InfoHeaderBytes(hd) ==
      s[14..18] + s[18..22] + s[22..26] + s[26..28] + s[28..30] + s[30..34] +
      s[34..38] + s[38..42] + s[42..46] + s[46..50] + s[50..54];
  }

  lemma InfoHeaderLowBytesOfParse(s: seq<byte>)
    requires |s| >= HeadersSize
    ensures var hd := Parse(s).value;
      U32Bytes(hd.infoSize) == s[14..18] && U32Bytes(hd.width) == s[18..22] &&
      U32Bytes(hd.height) == s[22..26] && U16Bytes(hd.planes) == s[26..28] &&
      U16Bytes(hd.bitCount) == s[28..30]
  {
    var hd := Parse(s).value;
    assert U32Bytes(hd.infoSize) == s[14..18] by { LittleEndian.EncodeDecode(s[14..18]); }
    assert U32Bytes(hd.width) == s[18..22] by { LittleEndian.EncodeDecode(s[18..22]); }
    assert U32Bytes(hd.height) == s[22..26] by { LittleEndian.EncodeDecode(s[22..26]); }
    assert U16Bytes(hd.planes) == s[26..28] by { LittleEndian.EncodeDecode(s[26..28]); }
    assert U16Bytes(hd.bitCount) == s[28..30] by { LittleEndian.EncodeDecode(s[28..30]); }
  }

  lemma InfoHeaderHighBytesOfParse(s: seq<byte>)
    requires |s| >= HeadersSize
    ensures var hd := Parse(s).value;
      U32Bytes(hd.compression) == s[30..34] && U32Bytes(hd.imageSize) == s[34..38] &&
      U32Bytes(hd.xPixelsPerMetre) == s[38..42] && U32Bytes(hd.yPixelsPerMetre) == s[42..46] &&
      U32Bytes(hd.coloursUsed) == s[46..50] && U32Bytes(hd.coloursImportant) == s[50..54]
  {
    var hd := Parse(s).value;
    assert U32Bytes(hd.compression) == s[30..34] by { LittleEndian.EncodeDecode(s[30..34]); }
    assert U32Bytes(hd.imageSize) == s[34..38] by { LittleEndian.EncodeDecode(s[34..38]); }
    assert U32Bytes(hd.xPixelsPerMetre) == s[38..42] by { LittleEndian.EncodeDecode(s[38..42]); }
    assert U32Bytes(hd.yPixelsPerMetre) == s[42..46] by { LittleEndian.EncodeDecode(s[42..46]); }
    assert U32Bytes(hd.coloursUsed) == s[46..50] by { LittleEndian.EncodeDecode(s[46..50]); }
    assert U32Bytes(hd.coloursImportant) == s[50..54] by { LittleEndian.EncodeDecode(s[50..54]); }
  }

  /** Any 54 bytes are the header they parse to. */
  lemma HeaderBytesOfParse(s: seq<byte>)
    requires |s| == HeadersSize
    ensures Parse(s).Some? && HeaderBytes(Parse(s).value) == s
  {
    var hd := Parse(s).value;
    var a, b := s[..FileHeaderSize], s[FileHeaderSize..HeadersSize];
    assert FileHeaderBytes(hd) == a by { FileHeaderBytesOfParse(s); }
    assert InfoHeaderBytes(hd) == b by { InfoHeaderBytesOfParse(s); }
    assert s == a + b;
  }

  lemma FileHeaderFieldBytes()
    ensures U16Bytes(BM) == [0x42, 0x4D]
    ensures U32Bytes(109704054) == [0x76, 0xF3, 0x89, 0x06]
    ensures U16Bytes(0) == [0x00, 0x00]
    ensures U32Bytes(54) == [0x36, 0x00, 0x00, 0x00]
  {
  }

  lemma InfoHeaderSizeBytes()
    ensures U32Bytes(40) == [0x28, 0x00, 0x00, 0x00]
    ensures U32Bytes(8000) == [0x40, 0x1F, 0x00, 0x00]
    ensures U32Bytes(4571) == [0xDB, 0x11, 0x00, 0x00]
  {
    assert U32Bytes(40) == [0x28, 0x00, 0x00, 0x00];
    assert U32Bytes(8000) == [0x40, 0x1F, 0x00, 0x00];
  }

  lemma InfoHeaderFormatBytes()
    ensures U16Bytes(1) == [0x01, 0x00]
    ensures U16Bytes(24) == [0x18, 0x00]
    ensures U32Bytes(0) == [0x00, 0x00, 0x00, 0x00]
    ensures U32Bytes(109704000) == [0x40, 0xF3, 0x89, 0x06]
    ensures U32Bytes(2835) == [0x13, 0x0B, 0x00, 0x00]
  {
  }

  /** The literal file header is the file header of an 8000 by 4571 image. */
  lemma LiteralFileHeader()
    ensures Describe(8000, 4571).Fits()
    ensures FileHeaderBytes(Describe(8000, 4571)) == FileHeader
  {
    FileHeaderFieldBytes();
  }

  /** The literal info header is the info header of an 8000 by 4571 image. */
  lemma LiteralInfoHeader()
    ensures Describe(8000, 4571).Fits()
    ensures InfoHeaderBytes(Describe(8000, 4571)) == InfoHeader
  {
    var d := Describe(8000, 4571);
    assert d.imageSize == 109704000 && d.xPixelsPerMetre == d.yPixelsPerMetre == 2835;
    InfoHeaderSizeBytes();
    InfoHeaderFormatBytes();
  }

  /** The literal bytes are exactly the headers of an 8000 by 4571, 24-bit,
      uncompressed image, and they are read back as such whatever follows them. */
  lemma LiteralHeaders(pixels: seq<byte>)
    ensures Describe(8000, 4571).Fits()
    ensures FileHeader + InfoHeader == HeaderBytes(Describe(8000, 4571))
    ensures Parse(FileHeader + InfoHeader + pixels) == Some(Describe(8000, 4571))
  {
    LiteralFileHeader();
    LiteralInfoHeader();
    ParseHeaderBytes(Describe(8000, 4571), pixels);
  }
}
