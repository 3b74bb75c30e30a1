/** The step sequence of save_bitmap_file: query the bitmap, allocate the
    pixel buffer, fetch the bits, create the file, three writes, close, free.
    Every operating-system call is an oracle answer; the file system and the
    two kinds of resource the function acquires are a value that the method
    threads through the steps. */
module SaveBitmap {
  import opened Bytes
  import opened Bmp

  /** What a WriteFile call does: it succeeds with the whole buffer written;
      it returns TRUE having written only `count` bytes (the count it stores
      in dwTmp, which save_bitmap_file never reads); or it fails after `count`
      bytes of the buffer reached the file. */
  datatype WriteResult = Complete | Short(count: nat) | Failed(count: nat)

  /** The answers of the operating system to the calls save_bitmap_file makes,
      in call order. */
  datatype SaveOracle = SaveOracle(
    getObject: Option<Bitmap>,   // GetObject: the bitmap's geometry, or failure
    globalAlloc: bool,           // GlobalAlloc of biSizeImage bytes
    getDIBits: Option<Dib>,      // GetDIBits: colour table and pixels, or failure
    createFile: bool,            // CreateFile with CREATE_ALWAYS
    write1: WriteResult,         // WriteFile of the file header
    write2: WriteResult,         // WriteFile of the info header and colour table
    write3: WriteResult,         // WriteFile of the pixel array
    closeHandle: bool)           // CloseHandle

  /** The part of the world the function touches: the files by name, the
      number of GlobalAlloc blocks not yet freed, and the number of open
      file handles. */
  datatype Env = Env(files: map<string, seq<byte>>, liveBlocks: nat, openHandles: nat)

  /** Every step succeeds: the function's result. */
  predicate SaveSucceeds(o: SaveOracle) {
    && o.getObject.Some? && o.globalAlloc && o.getDIBits.Some? && o.createFile
    && !o.write1.Failed? && !o.write2.Failed? && !o.write3.Failed? && o.closeHandle
  }

  /** Every WriteFile call wrote its whole buffer. */
  predicate FullWrites(o: SaveOracle) {
    o.write1.Complete? && o.write2.Complete? && o.write3.Complete?
  }

  /** No WriteFile call returned TRUE after writing only part of its buffer. */
  predicate NoShortWrites(o: SaveOracle) {
    !o.write1.Short? && !o.write2.Short? && !o.write3.Short?
  }

  /** The pixel buffer was allocated. */
  predicate BufferAllocated(o: SaveOracle) {
    o.getObject.Some? && o.globalAlloc
  }

  /** Every step before CreateFile succeeded, and CreateFile did too. */
  predicate FileCreated(o: SaveOracle) {
    BufferAllocated(o) && o.getDIBits.Some? && o.createFile
  }

  /** The file a complete save produces from the oracle's bitmap and bits. */
  function FullImage(o: SaveOracle): seq<byte>
    requires o.getObject.Some? && o.getDIBits.Some?
  {
    ImageBytes(o.getObject.value, o.getDIBits.value)
  }

  /** How many bytes of an n-byte buffer a WriteFile call puts in the file. */
  function Landing(r: WriteResult, n: nat): (k: nat)
    ensures k <= n
    ensures r.Complete? ==> k == n
  {
    match r
    case Complete => n
    case Short(count) => if count < n then count else n
    case Failed(count) => if count < n then count else n
  }

  /** The part of `data` a WriteFile call puts in the file. */
  function Put(r: WriteResult, data: seq<byte>): (d: seq<byte>)
    ensures d <= data
    ensures r.Complete? ==> d == data
  {
    data[..Landing(r, |data|)]
  }

  /** What the three writes of the payloads `p` leave in the empty file: each
      appends the part of its buffer that landed, and a write that returns
      FALSE ends the sequence. */
  function WrittenOf(o: SaveOracle, p: seq<seq<byte>>): seq<byte>
    requires |p| == 3
  {
    var a := Put(o.write1, p[0]);
    if o.write1.Failed? then a
    else
      var b := a + Put(o.write2, p[1]);
      if o.write2.Failed? then b
      else b + Put(o.write3, p[2])
  }

  /** What is on disk once the function returns, given that the file was
      created. */
  function Written(o: SaveOracle): seq<byte>
    requires FileCreated(o)
  {
    WrittenOf(o, Payloads(o.getObject.value, o.getDIBits.value))
  }

  /** The world after save_bitmap_file: a file exists only once CreateFile has
      succeeded, and it then holds what the writes put there; the pixel
      buffer stays allocated and the handle stays open on every path except
      full success. */
  function EnvAfterSave(o: SaveOracle, filename: string, env: Env): Env {
    Env(
      files := if FileCreated(o) then env.files[filename := Written(o)] else env.files,
      liveBlocks := env.liveBlocks + (if BufferAllocated(o) && !SaveSucceeds(o) then 1 else 0),
      openHandles := env.openHandles + (if FileCreated(o) && !SaveSucceeds(o) then 1 else 0))
  }

  /** The writes never put more than the full image on disk. */
  lemma WrittenBounds(o: SaveOracle)
    requires FileCreated(o)
    ensures |Written(o)| <= |FullImage(o)|
  {
    PayloadSizes(o.getObject.value, o.getDIBits.value);
  }

  /** CreateFile with CREATE_ALWAYS: the named file exists and is empty. */
  method CreateFile(env: Env, filename: string, succeeds: bool) returns (ok: bool, env': Env)
    ensures ok == succeeds
    ensures ok ==> env' == env.(files := env.files[filename := []], openHandles := env.openHandles + 1)
    ensures !ok ==> env' == env
  {
    ok := succeeds;
    env' := env;
    if ok {
      env' := env.(files := env.files[filename := []], openHandles := env.openHandles + 1);
    }
  }

  /** WriteFile: append `data`, or as much of it as the oracle lets through. */
  method WriteFile(env: Env, filename: string, data: seq<byte>, r: WriteResult) returns (ok: bool, env': Env)
    requires filename in env.files
    ensures ok <==> !r.Failed?
    ensures env' == env.(files := env.files[filename := env.files[filename] + data[..Landing(r, |data|)]])
  {
    ok := !r.Failed?;
    env' := env.(files := env.files[filename := env.files[filename] + data[..Landing(r, |data|)]]);
  }

  /** The three WriteFile calls of save_bitmap_file, in order: each appends
      what lands of its buffer, and the first that returns FALSE ends the
      sequence. */
  method WriteImage(env: Env, filename: string, header: seq<byte>, info: seq<byte>, pixels: seq<byte>, o: SaveOracle)
    returns (ok: bool, env': Env)
    requires filename in env.files && env.files[filename] == []
    ensures ok <==> !o.write1.Failed? && !o.write2.Failed? && !o.write3.Failed?
    ensures env' == env.(files := env.files[filename := WrittenOf(o, [header, info, pixels])])
  {
    ghost var p := [header, info, pixels];
    ok, env' := WriteFile(env, filename, header, o.write1);
    assert env'.files[filename] == Put(o.write1, header);
    if !ok {
      return;
    }
    ok, env' := WriteFile(env', filename, info, o.write2);
    assert env'.files[filename] == Put(o.write1, header) + Put(o.write2, info);
    if !ok {
      return;
    }
    ok, env' := WriteFile(env', filename, pixels, o.write3);
    assert env'.files[filename] == Put(o.write1, header) + Put(o.write2, info) + Put(o.write3, pixels);
  }

  /** The first half of save_bitmap_file: the info header is filled in field
      by field into the zeroed block LocalAlloc(LPTR, ...) returns, so the
      palette count stays 0 at 24 bits and above. */
  method FillInfoHeader(bmp: Bitmap) returns (info: InfoHeader)
    ensures info == InfoHeaderOf(bmp)
  {
    var cClrBits := ColorBits(bmp);
    info := InfoHeader(0, 0, 0, 0, 0, 0, 0, 0, 0, 0, 0);
    info := info.(biSize := InfoHeaderSize);
    info := info.(biWidth := bmp.width);
    info := info.(biHeight := bmp.height);
    info := info.(biPlanes := bmp.planes);
    info := info.(biBitCount := bmp.bitsPixel);
    if cClrBits < 24 {
      info := info.(biClrUsed := Pow2(cClrBits));
    }
    assert info.biClrUsed == ClrUsed(bmp);
    info := info.(biCompression := BiRgb);
    info := info.(biSizeImage := ((info.biWidth + 7) / 8 * info.biHeight * cClrBits) % Two32);
    assert info.biSizeImage == SizeImage(bmp);
    info := info.(biClrImportant := 0);
  }

  /** The file header is filled in from the finished info header. */
  method FillFileHeader(info: InfoHeader) returns (hdr: FileHeader)
    ensures hdr == FileHeaderOf(info)
  {
    hdr := FileHeader(0, 0, 0, 0, 0);
    hdr := hdr.(bfType := BfTypeBM);
    hdr := hdr.(bfSize := (FileHeaderSize + info.biSize + info.biClrUsed * RgbQuadSize + info.biSizeImage) % Two32);
    hdr := hdr.(bfReserved1 := 0);
    hdr := hdr.(bfReserved2 := 0);
    hdr := hdr.(bfOffBits := (FileHeaderSize + info.biSize + info.biClrUsed * RgbQuadSize) % Two32);
  }

  /** save_bitmap_file: every failing step returns false at once, leaving
      behind whatever it had allocated or opened. */
  method SaveBitmapFile(o: SaveOracle, filename: string, env: Env) returns (ok: bool, env': Env)
    ensures ok <==> SaveSucceeds(o)
    ensures env' == EnvAfterSave(o, filename, env)
  {
    env' := env;
    if o.getObject.None? {
      return false, env';
    }
    var bmp := o.getObject.value;

    var info := FillInfoHeader(bmp);

    // GlobalAlloc(GMEM_FIXED, biSizeImage)
    if !o.globalAlloc {
      return false, env';
    }
    env' := env'.(liveBlocks := env'.liveBlocks + 1);

    // GetDIBits fills the colour table behind the info header and the pixel buffer.
    if o.getDIBits.None? {
      return false, env';
    }
    var dib := o.getDIBits.value;
    var colorTable := Fit(dib.colors, info.biClrUsed * RgbQuadSize);
    var lpBits := Fit(dib.pixels, info.biSizeImage);

    var created;
    created, env' := CreateFile(env', filename, o.createFile);
    if !created {
      return false, env';
    }

    var hdr := FillFileHeader(info);
    ghost var p := Payloads(bmp, dib);
    assert p == [EncodeFileHeader(hdr), EncodeInfoHeader(info) + colorTable, lpBits];
    var written;
    written, env' := WriteImage(env', filename, EncodeFileHeader(hdr), EncodeInfoHeader(info) + colorTable, lpBits, o);
    assert Written(o) == WrittenOf(o, p);
    if !written {
      return false, env';
    }
    if !o.closeHandle {
      return false, env';
    }
    env' := env'.(openHandles := env'.openHandles - 1);

    // GlobalFree: reached only on this path.
    env' := env'.(liveBlocks := env'.liveBlocks - 1);
    return true, env';
  }

  /** A successful save whose writes were all complete leaves exactly the
      image on disk: its length is bfSize, its headers read back, and the
      pixels start at bfOffBits. */
  lemma SavedFileIsImage(o: SaveOracle, filename: string, env: Env)
    requires SaveSucceeds(o) && FullWrites(o)
    ensures filename in EnvAfterSave(o, filename, env).files
    ensures EnvAfterSave(o, filename, env).files[filename] == FullImage(o)
    ensures var bm := o.getObject.value;
      var fh := FileHeaderOf(InfoHeaderOf(bm));
      && |FullImage(o)| == fh.bfOffBits + SizeImage(bm)
      && (|FullImage(o)| < Two32 ==> fh.bfSize == |FullImage(o)|)
      && FullImage(o)[fh.bfOffBits..] == Fit(o.getDIBits.value.pixels, SizeImage(bm))
      && ParseFileHeader(FullImage(o)) == Some(fh)
      && ParseInfoHeader(FullImage(o)[FileHeaderSize..]) == Some(InfoHeaderOf(bm))
  {
    var bm, dib := o.getObject.value, o.getDIBits.value;
    var p := Payloads(bm, dib);
    assert Written(o) == p[0] + p[1] + p[2];
    ImageSize(bm, dib);
    ImageHeadersReadBack(bm, dib);
  }

  /** The result does not look at how many bytes each write reports: a
      write that returns TRUE short of its buffer still makes the function
      return true, with a file shorter than the image. */
  lemma ShortWriteGoesUnnoticed(o: SaveOracle, filename: string, env: Env)
    requires SaveSucceeds(o)
    requires var p := Payloads(o.getObject.value, o.getDIBits.value);
      || (o.write1.Short? && o.write1.count < |p[0]|)
      || (o.write2.Short? && o.write2.count < |p[1]|)
      || (o.write3.Short? && o.write3.count < |p[2]|)
    ensures filename in EnvAfterSave(o, filename, env).files
    ensures |EnvAfterSave(o, filename, env).files[filename]| < |FullImage(o)|
  {
    PayloadSizes(o.getObject.value, o.getDIBits.value);
  }

  /** Nothing is created or changed on disk when GetObject, GlobalAlloc,
      GetDIBits or CreateFile fails, and the pixel buffer is not freed on
      any failing path after GlobalAlloc. */
  lemma EarlyFailureTouchesNoFile(o: SaveOracle, filename: string, env: Env)
    requires !FileCreated(o)
    ensures EnvAfterSave(o, filename, env).files == env.files
    ensures EnvAfterSave(o, filename, env).openHandles == env.openHandles
    ensures EnvAfterSave(o, filename, env).liveBlocks == env.liveBlocks + (if BufferAllocated(o) then 1 else 0)
  {
  }

  /** Once the file exists, and unless a write returned TRUE short of its
      buffer, it holds a prefix of the image whatever happens; a write that
      fails before its buffer is through leaves the file short. */
  lemma FailedWriteLeavesPrefix(o: SaveOracle, filename: string, env: Env)
    requires FileCreated(o) && NoShortWrites(o)
    ensures var file := EnvAfterSave(o, filename, env).files[filename];
      file <= FullImage(o)
    ensures var p := Payloads(o.getObject.value, o.getDIBits.value);
      var file := EnvAfterSave(o, filename, env).files[filename];
      || (o.write1.Failed? && o.write1.count < |p[0]|)
      || (!o.write1.Failed? && o.write2.Failed? && o.write2.count < |p[1]|)
      || (!o.write1.Failed? && !o.write2.Failed? && o.write3.Failed? && o.write3.count < |p[2]|)
      ==> |file| < |FullImage(o)|
  {
    var p := Payloads(o.getObject.value, o.getDIBits.value);
    PayloadSizes(o.getObject.value, o.getDIBits.value);
    assert FullImage(o) == p[0] + (p[1] + p[2]);
    var k1 := Put(o.write1, p[0]);
    if o.write1.Failed? {
      PrefixExtend(k1, p[0], p[1] + p[2]);
    } else {
      assert k1 == p[0];
      var k2 := Put(o.write2, p[1]);
      PrefixExtend(k2, p[1], p[2]);
      if o.write2.Failed? {
        PrefixAppend(p[0], k2, p[1] + p[2]);
      } else {
        assert k2 == p[1];
        var k3 := Put(o.write3, p[2]);
        assert Written(o) == p[0] + (p[1] + k3);
        PrefixAppend(p[1], k3, p[2]);
        PrefixAppend(p[0], p[1] + k3, p[1] + p[2]);
      }
    }
  }

  lemma PrefixAppend(a: seq<byte>, x: seq<byte>, y: seq<byte>)
    requires x <= y
    ensures a + x <= a + y
  {
    assert forall i :: 0 <= i < |a + x| ==> (a + x)[i] == (a + y)[i];
  }

  lemma PrefixExtend(x: seq<byte>, y: seq<byte>, z: seq<byte>)
    requires x <= y
    ensures x <= y + z
  {
    assert forall i :: 0 <= i < |x| ==> x[i] == (y + z)[i];
  }
}
