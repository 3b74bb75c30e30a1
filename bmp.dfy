/** The descriptor and header arithmetic of save_bitmap_file: the colour-depth
    class, the palette size, the image size and the two headers of a Windows
    bitmap (the 14-byte BITMAPFILEHEADER and the 40-byte BITMAPINFOHEADER),
    their byte layout, and a reader that parses them back. */
module Bmp {
  import opened Bytes

  /** A WORD (16-bit unsigned) quantity. */
  type Word = x: int | 0 <= x < 0x1_0000
  /** A non-negative LONG (32-bit signed) quantity, as GetObject reports the
      size of a bitmap. */
  type Long = x: int | 0 <= x < 0x8000_0000

  /** The BITMAP structure that GetObject fills in: the parts the encoder reads. */
  datatype Bitmap = Bitmap(width: Long, height: Long, planes: Word, bitsPixel: Word)

  /** The opaque bytes GetDIBits stores: the colour table (RGBQUAD entries)
      after the info header, and the pixel array. */
  datatype Dib = Dib(colors: seq<byte>, pixels: seq<byte>)

  const FileHeaderSize: nat := 14  // sizeof(BITMAPFILEHEADER)
  const InfoHeaderSize: nat := 40  // sizeof(BITMAPINFOHEADER)
  const RgbQuadSize: nat := 4      // sizeof(RGBQUAD)
  const BfTypeBM: nat := 0x4d42    // "BM" read as a little-endian WORD
  const BiRgb: nat := 0            // BI_RGB: uncompressed

  datatype FileHeader = FileHeader(
    bfType: nat, bfSize: nat, bfReserved1: nat, bfReserved2: nat, bfOffBits: nat)

  datatype InfoHeader = InfoHeader(
    biSize: nat, biWidth: nat, biHeight: nat, biPlanes: nat, biBitCount: nat,
    biCompression: nat, biSizeImage: nat, biXPelsPerMeter: nat,
    biYPelsPerMeter: nat, biClrUsed: nat, biClrImportant: nat)

  /** The colour-depth classes save_bitmap_file rounds to. */
  predicate IsDepthClass(c: int) {
    c == 1 || c == 4 || c == 8 || c == 16 || c == 24 || c == 32
  }

  /** The ladder that turns a bit count into a depth class: the smallest class
      that holds `p` bits, except that 0 (which only equals 1 when it is 1) falls
      through to 4, and everything above 24 becomes 32. */
  function DepthClass(p: nat): (c: nat)
    ensures IsDepthClass(c)
    ensures 1 <= p <= 32 ==> p <= c && forall d :: IsDepthClass(d) && p <= d ==> c <= d
    ensures p == 0 ==> c == 4
    ensures 24 < p ==> c == 32
  {
    if p == 1 then 1
    else if p <= 4 then 4
    else if p <= 8 then 8
    else if p <= 16 then 16
    else if p <= 24 then 24
    else 32
  }

  /** cClrBits: the product planes * bitsPixel is cast to WORD before the ladder. */
  function ColorBits(bm: Bitmap): (c: nat)
    ensures IsDepthClass(c)
  {
    DepthClass(WordProduct(bm.planes, bm.bitsPixel))
  }

  /** (WORD)(planes * bitsPixel). */
  function WordProduct(planes: Word, bitsPixel: Word): (p: nat)
    ensures p < Two16
    ensures planes * bitsPixel < Two16 ==> p == planes * bitsPixel
  {
    (planes * bitsPixel) % Two16
  }

  function Pow2(n: nat): (r: nat)
    ensures 1 <= r
  {
    if n == 0 then 1 else 2 * Pow2(n - 1)
  }

  /** biClrUsed for a depth class: set to 2^cClrBits only below 24 bits;
      otherwise it keeps the zero that the zero-initialising allocation (LPTR)
      left in it. */
  function ClrUsedFor(c: nat): (n: nat)
    requires IsDepthClass(c)
    ensures n == 0 <==> 24 <= c
    ensures c == 1 ==> n == 2
    ensures c == 4 ==> n == 16
    ensures c == 8 ==> n == 256
    ensures c == 16 ==> n == 65536
  {
    if c < 24 then Pow2(c) else 0
  }

  function ClrUsed(bm: Bitmap): (n: nat)
    ensures n <= 65536
  {
    ClrUsedFor(ColorBits(bm))
  }

  /** biSizeImage: ((biWidth + 7) / 8) * biHeight * cClrBits, stored in a DWORD. */
  function SizeImage(bm: Bitmap): (n: nat)
    ensures n < Two32
    ensures bm.width == 0 || bm.height == 0 ==> n == 0
  {
    ((bm.width + 7) / 8 * bm.height * ColorBits(bm)) % Two32
  }

  lemma MulLe(a: nat, b: nat, k: nat)
    requires a <= b
    ensures a * k <= b * k
  {
  }

  lemma MulLt(a: nat, b: nat, k: nat)
    requires a < b && 0 < k
    ensures a * k < b * k
  {
  }

  lemma MulAssoc(a: nat, b: nat, k: nat)
    ensures a * b * k == a * (b * k)
  {
  }

  /** Each row gets ceil(width / 8) * cClrBits bytes, i.e. it is padded to a
      multiple of 8 pixels: without DWORD overflow the image size covers
      width*height*cClrBits bits, exactly so when the width is a multiple of 8,
      and never by a whole 8 pixels per row more. */
  lemma SizeImageCoversPixels(bm: Bitmap)
    requires (bm.width + 7) / 8 * bm.height * ColorBits(bm) < Two32
    ensures 8 * SizeImage(bm) >= bm.width * bm.height * ColorBits(bm)
    ensures bm.height == 0 || 8 * SizeImage(bm) < (bm.width + 8) * bm.height * ColorBits(bm)
    ensures bm.width % 8 == 0 ==> 8 * SizeImage(bm) == bm.width * bm.height * ColorBits(bm)
  {
    var w: nat, h: nat, c: nat := bm.width, bm.height, ColorBits(bm);
    var q := (w + 7) / 8;
    var hc := h * c;
    MulAssoc(q, h, c);
    MulAssoc(w, h, c);
    MulAssoc(w + 8, h, c);
    MulAssoc(8, q, hc);
    assert SizeImage(bm) == q * hc;
    RowPadding(w, hc);
    if h != 0 {
      assert hc > 0;
    }
  }

  /** Rounding a row of w pixels up to a multiple of 8, repeated hc times. */
  lemma RowPadding(w: nat, hc: nat)
    ensures w * hc <= 8 * ((w + 7) / 8) * hc
    ensures hc == 0 || 8 * ((w + 7) / 8) * hc < (w + 8) * hc
    ensures w % 8 == 0 ==> 8 * ((w + 7) / 8) * hc == w * hc
  {
    var q := (w + 7) / 8;
    assert w <= 8 * q < w + 8;
    MulLe(w, 8 * q, hc);
    if hc != 0 {
      MulLt(8 * q, w + 8, hc);
    }
    if w % 8 == 0 {
      assert 8 * q == w;
    }
  }

  /** The BITMAPINFOHEADER as save_bitmap_file leaves it. */
  function InfoHeaderOf(bm: Bitmap): InfoHeader {
    InfoHeader(
      biSize := InfoHeaderSize, biWidth := bm.width, biHeight := bm.height,
      biPlanes := bm.planes, biBitCount := bm.bitsPixel, biCompression := BiRgb,
      biSizeImage := SizeImage(bm), biXPelsPerMeter := 0, biYPelsPerMeter := 0,
      biClrUsed := ClrUsed(bm), biClrImportant := 0)
  }

  /** The BITMAPFILEHEADER computed from an info header (DWORD fields). */
  function FileHeaderOf(info: InfoHeader): FileHeader {
    FileHeader(
      bfType := BfTypeBM,
      bfSize := (FileHeaderSize + info.biSize + info.biClrUsed * RgbQuadSize + info.biSizeImage) % Two32,
      bfReserved1 := 0, bfReserved2 := 0,
      bfOffBits := (FileHeaderSize + info.biSize + info.biClrUsed * RgbQuadSize) % Two32)
  }

  /** The number of colour-table bytes written after the info header. */
  function ColorTableBytes(bm: Bitmap): nat {
    ClrUsed(bm) * RgbQuadSize
  }

  /** Header facts: the magic, the reserved words, where the pixels start and
      how large the file claims to be. */
  lemma FileHeaderFields(bm: Bitmap)
    ensures var fh := FileHeaderOf(InfoHeaderOf(bm));
      && fh.bfType == BfTypeBM
      && fh.bfReserved1 == 0 && fh.bfReserved2 == 0
      && fh.bfOffBits == FileHeaderSize + InfoHeaderSize + RgbQuadSize * ClrUsed(bm)
      && fh.bfOffBits <= 54 + 4 * 65536
      && fh.bfSize == (fh.bfOffBits + SizeImage(bm)) % Two32
  {
    assert ClrUsed(bm) <= 65536;
  }

  function EncodeFileHeader(h: FileHeader): (r: seq<byte>)
    ensures |r| == FileHeaderSize
  {
    Le16(h.bfType) + (Le32(h.bfSize) + (Le16(h.bfReserved1) + (Le16(h.bfReserved2) + Le32(h.bfOffBits))))
  }

  function EncodeInfoHeader(h: InfoHeader): (r: seq<byte>)
    ensures |r| == InfoHeaderSize
  {
    Le32(h.biSize) + (Le32(h.biWidth) + (Le32(h.biHeight) + (Le16(h.biPlanes)
    + (Le16(h.biBitCount) + (Le32(h.biCompression) + (Le32(h.biSizeImage)
    + (Le32(h.biXPelsPerMeter) + (Le32(h.biYPelsPerMeter) + (Le32(h.biClrUsed)
    + Le32(h.biClrImportant))))))))))
  }

  /** The three buffers the encoder hands to WriteFile, in order: the file
      header, the info header with its colour table, and the pixel array. */
  function Payloads(bm: Bitmap, dib: Dib): (p: seq<seq<byte>>)
    ensures |p| == 3
  {
    var info := InfoHeaderOf(bm);
    [ EncodeFileHeader(FileHeaderOf(info)),
      EncodeInfoHeader(info) + Fit(dib.colors, ColorTableBytes(bm)),
      Fit(dib.pixels, SizeImage(bm)) ]
  }

  /** The complete file a successful save leaves behind. */
  function ImageBytes(bm: Bitmap, dib: Dib): seq<byte> {
    var p := Payloads(bm, dib);
    p[0] + p[1] + p[2]
  }

  predicate FileHeaderFits(h: FileHeader) {
    h.bfType < Two16 && h.bfSize < Two32 && h.bfReserved1 < Two16
    && h.bfReserved2 < Two16 && h.bfOffBits < Two32
  }

  predicate InfoHeaderFits(h: InfoHeader) {
    h.biSize < Two32 && h.biWidth < Two32 && h.biHeight < Two32 && h.biPlanes < Two16
    && h.biBitCount < Two16 && h.biCompression < Two32 && h.biSizeImage < Two32
    && h.biXPelsPerMeter < Two32 && h.biYPelsPerMeter < Two32 && h.biClrUsed < Two32
    && h.biClrImportant < Two32
  }

  /** A reader for the file header: None unless the file starts with "BM". */
  function ParseFileHeader(s: seq<byte>): Option<FileHeader> {
    if |s| < FileHeaderSize || Dec16(s[..2]) != BfTypeBM then None
    else
      var s1 := s[2..]; var s2 := s1[4..]; var s3 := s2[2..]; var s4 := s3[2..];
      Some(FileHeader(Dec16(s[..2]), Dec32(s1[..4]), Dec16(s2[..2]), Dec16(s3[..2]), Dec32(s4[..4])))
  }

  /** A reader for the info header at the start of `s`, field by field. */
  function ParseInfoHeader(s: seq<byte>): Option<InfoHeader> {
    if |s| < InfoHeaderSize then None
    else
      var s1 := s[4..]; var s2 := s1[4..]; var s3 := s2[4..]; var s4 := s3[2..];
      var s5 := s4[2..]; var s6 := s5[4..]; var s7 := s6[4..]; var s8 := s7[4..];
      var s9 := s8[4..]; var s10 := s9[4..];
      Some(InfoHeader(
        Dec32(s[..4]), Dec32(s1[..4]), Dec32(s2[..4]), Dec16(s3[..2]), Dec16(s4[..2]),
        Dec32(s5[..4]), Dec32(s6[..4]), Dec32(s7[..4]), Dec32(s8[..4]),
        Dec32(s9[..4]), Dec32(s10[..4])))
  }

  lemma Field32(v: nat, t: seq<byte>)
    requires v < Two32
    ensures Dec32((Le32(v) + t)[..4]) == v && (Le32(v) + t)[4..] == t
  {
    assert (Le32(v) + t)[..4] == Le32(v);
    Dec32Le32(v);
  }

  lemma Field16(v: nat, t: seq<byte>)
    requires v < Two16
    ensures Dec16((Le16(v) + t)[..2]) == v && (Le16(v) + t)[2..] == t
  {
    assert (Le16(v) + t)[..2] == Le16(v);
    Dec16Le16(v);
  }

  lemma FileHeaderRoundTrip(h: FileHeader, rest: seq<byte>)
    requires FileHeaderFits(h) && h.bfType == BfTypeBM
    ensures ParseFileHeader(EncodeFileHeader(h) + rest) == Some(h)
  {
    var t4 := Le32(h.bfOffBits) + rest;
    var t3 := Le16(h.bfReserved2) + t4;
    var t2 := Le16(h.bfReserved1) + t3;
    var t1 := Le32(h.bfSize) + t2;
    var t0 := Le16(h.bfType) + t1;
    assert EncodeFileHeader(h) + rest == t0;
    Field16(h.bfType, t1);
    Field32(h.bfSize, t2);
    Field16(h.bfReserved1, t3);
    Field16(h.bfReserved2, t4);
    Field32(h.bfOffBits, rest);
  }

  /** Appending to the info header re-associates field by field. */
  lemma InfoHeaderAppend(h: InfoHeader, rest: seq<byte>)
    ensures EncodeInfoHeader(h) + rest
      == Le32(h.biSize) + (Le32(h.biWidth) + (Le32(h.biHeight) + (Le16(h.biPlanes)
         + (Le16(h.biBitCount) + (Le32(h.biCompression) + (Le32(h.biSizeImage)
         + (Le32(h.biXPelsPerMeter) + (Le32(h.biYPelsPerMeter) + (Le32(h.biClrUsed)
         + (Le32(h.biClrImportant) + rest))))))))))
  {
  }

  lemma InfoHeaderRoundTrip(h: InfoHeader, rest: seq<byte>)
    requires InfoHeaderFits(h)
    ensures ParseInfoHeader(EncodeInfoHeader(h) + rest) == Some(h)
  {
    var t10 := Le32(h.biClrImportant) + rest;
    var t9 := Le32(h.biClrUsed) + t10;
    var t8 := Le32(h.biYPelsPerMeter) + t9;
    var t7 := Le32(h.biXPelsPerMeter) + t8;
    var t6 := Le32(h.biSizeImage) + t7;
    var t5 := Le32(h.biCompression) + t6;
    var t4 := Le16(h.biBitCount) + t5;
    var t3 := Le16(h.biPlanes) + t4;
    var t2 := Le32(h.biHeight) + t3;
    var t1 := Le32(h.biWidth) + t2;
    var t0 := Le32(h.biSize) + t1;
    InfoHeaderAppend(h, rest);
    Field32(h.biSize, t1);
    Field32(h.biWidth, t2);
    Field32(h.biHeight, t3);
    Field16(h.biPlanes, t4);
    Field16(h.biBitCount, t5);
    Field32(h.biCompression, t6);
    Field32(h.biSizeImage, t7);
    Field32(h.biXPelsPerMeter, t8);
    Field32(h.biYPelsPerMeter, t9);
    Field32(h.biClrUsed, t10);
    Field32(h.biClrImportant, rest);
  }

  /** The three writes are 14, 40 + 4*biClrUsed and biSizeImage bytes long. */
  lemma PayloadSizes(bm: Bitmap, dib: Dib)
    ensures var p := Payloads(bm, dib);
      && |p[0]| == FileHeaderSize
      && |p[1]| == InfoHeaderSize + RgbQuadSize * ClrUsed(bm)
      && |p[2]| == SizeImage(bm)
  {
  }

  /** The file is as long as bfOffBits + biSizeImage, bfSize records that
      length (as a DWORD), and the pixel array is what follows bfOffBits. */
  lemma ImageSize(bm: Bitmap, dib: Dib)
    ensures var file, fh := ImageBytes(bm, dib), FileHeaderOf(InfoHeaderOf(bm));
      && |file| == fh.bfOffBits + SizeImage(bm)
      && fh.bfSize == |file| % Two32
      && (|file| < Two32 ==> fh.bfSize == |file|)
      && file[fh.bfOffBits..] == Fit(dib.pixels, SizeImage(bm))
  {
    var p := Payloads(bm, dib);
    PayloadSizes(bm, dib);
    FileHeaderFields(bm);
    ConcatTail(p[0], p[1], p[2]);
    var n := |ImageBytes(bm, dib)|;
    if n < Two32 {
      Mod32Small(n);
    }
  }

  lemma ConcatTail(a: seq<byte>, b: seq<byte>, c: seq<byte>)
    ensures |a + b + c| == |a| + |b| + |c|
    ensures (a + b + c)[|a| + |b|..] == c
  {
  }

  lemma MagicBytes()
    ensures Le16(BfTypeBM) == [0x42, 0x4d]
  {
  }

  lemma InfoHeaderOfFits(bm: Bitmap)
    ensures InfoHeaderFits(InfoHeaderOf(bm))
  {
    assert ClrUsed(bm) <= 65536;
  }

  /** The file header reads back from the front of the saved file. */
  lemma FileHeaderReadBack(bm: Bitmap, dib: Dib)
    ensures var file := ImageBytes(bm, dib);
      && file[..2] == [0x42, 0x4d]
      && ParseFileHeader(file) == Some(FileHeaderOf(InfoHeaderOf(bm)))
  {
    var p := Payloads(bm, dib);
    var file := ImageBytes(bm, dib);
    FileHeaderFields(bm);
    var tail := p[1] + p[2];
    assert file == p[0] + tail;
    FileHeaderRoundTrip(FileHeaderOf(InfoHeaderOf(bm)), tail);
    MagicBytes();
    assert file[..2] == p[0][..2];
  }

  /** The info header reads back from just past the file header. */
  lemma InfoHeaderReadBack(bm: Bitmap, dib: Dib)
    ensures var file := ImageBytes(bm, dib);
      ParseInfoHeader(file[FileHeaderSize..]) == Some(InfoHeaderOf(bm))
  {
    var p := Payloads(bm, dib);
    var info := InfoHeaderOf(bm);
    var file := ImageBytes(bm, dib);
    InfoHeaderOfFits(bm);
    var tail := p[1] + p[2];
    assert file == p[0] + tail;
    assert file[FileHeaderSize..] == tail;
    var colorsAndPixels := Fit(dib.colors, ColorTableBytes(bm)) + p[2];
    assert tail == EncodeInfoHeader(info) + colorsAndPixels;
    InfoHeaderRoundTrip(info, colorsAndPixels);
  }

  /** Reading the headers back from a saved file gives the headers the encoder
      computed: the magic is "BM", and width, height and bit count survive. */
  lemma ImageHeadersReadBack(bm: Bitmap, dib: Dib)
    ensures var file, info := ImageBytes(bm, dib), InfoHeaderOf(bm);
      && file[..2] == [0x42, 0x4d]
      && ParseFileHeader(file) == Some(FileHeaderOf(info))
      && ParseInfoHeader(file[FileHeaderSize..]) == Some(info)
      && info.biWidth == bm.width && info.biHeight == bm.height
      && info.biBitCount == bm.bitsPixel
  {
    FileHeaderReadBack(bm, dib);
    InfoHeaderReadBack(bm, dib);
  }
}
