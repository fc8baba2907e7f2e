/** The image codec glue and the NV21 conversion of src/cv.cpp: file
    extension parsing, the writer-support check, the JPEG quality parameter
    scan, encoder dispatch for imwrite and imencode, the byte sink the
    encoders write through, the pixel layout and clamping of the NV21 to
    BGR loop, and the null results of imread / imdecode. The encoders and
    decoders themselves are parameters. */
module Cv {
  import opened Common

  // ---- getExt --------------------------------------------------------

  /** `std::string::npos`, and the modulus of `size_t` arithmetic. */
  const NPOS := 0xFFFF_FFFF_FFFF_FFFF
  const SIZE_MOD := 0x1_0000_0000_0000_0000

  /** `rfind('.')`: the position of the last '.', if any. */
  function LastDot(s: string): (r: Option<nat>)
    ensures r.Some? ==> r.value < |s| && s[r.value] == '.'
    ensures r.Some? ==> forall k :: r.value < k < |s| ==> s[k] != '.'
    ensures r.None? ==> forall k :: 0 <= k < |s| ==> s[k] != '.'
  {
    if s == [] then None
    else if s[|s| - 1] == '.' then Some(|s| - 1)
    else LastDot(s[..|s| - 1])
  }

  /** `rfind('.') + 1` in `size_t`: without a '.', `npos + 1` wraps to 0. */
  function ExtStart(s: string): (p: nat)
    ensures p <= |s|
  {
    match LastDot(s)
    case None => (NPOS + 1) % SIZE_MOD
    case Some(d) => d + 1
  }

  /** `::tolower` in the C locale. */
  function LowerChar(c: char): (r: char)
    ensures r == '.' <==> c == '.'
    ensures 'A' <= c <= 'Z' ==> 'a' <= r <= 'z'
    ensures !('A' <= c <= 'Z') ==> r == c
  {
    if 'A' <= c <= 'Z' then (c as int + 32) as char else c
  }

  function Lower(s: string): (r: string)
    ensures |r| == |s|
    ensures forall k :: 0 <= k < |s| ==> r[k] == LowerChar(s[k])
  {
    seq(|s|, k requires 0 <= k < |s| => LowerChar(s[k]))
  }

  /** `getExt(name)`: the lower-cased text after the last '.', or the whole
      name lower-cased when it has none. */
  function GetExt(name: string): (ext: string)
    ensures |ext| <= |name|
    ensures ext == Lower(name[|name| - |ext|..])
    ensures forall k :: 0 <= k < |ext| ==> ext[k] != '.'
    ensures |ext| < |name| ==> name[|name| - |ext| - 1] == '.'
    ensures (forall k :: 0 <= k < |name| ==> name[k] != '.') ==> |ext| == |name|
  {
    Lower(name[ExtStart(name)..])
  }

  /** The extension of `base.e` is `e`, lower-cased, whatever `base` holds
      (more dots included). */
  lemma GetExtOfJoined(base: string, e: string)
    requires forall k :: 0 <= k < |e| ==> e[k] != '.'
    ensures GetExt(base + "." + e) == Lower(e)
  {
    var name := base + "." + e;
    var ext := GetExt(name);
    var n := |name|;
    assert name[n - |e| - 1] == '.';
    assert name[n - |e|..] == e;
  }

  // ---- Writers -------------------------------------------------------

  /** `mnn_cv_haveImageWriter`: the extension is one a writer exists for. */
  predicate HaveImageWriter(filename: string)
  {
    GetExt(filename) in {"jpg", "jpeg", "png", "bmp"}
  }

  /** Writer support depends only on the text after the last '.', and not
      on its case: `photo.v2.JPG` can be written, `photo.jpg.gif` cannot. */
  lemma WriterForJoined(base: string, e: string)
    requires forall k :: 0 <= k < |e| ==> e[k] != '.'
    ensures HaveImageWriter(base + "." + e) <==> Lower(e) in {"jpg", "jpeg", "png", "bmp"}
  {
    GetExtOfJoined(base, e);
  }

  /** `IMWRITE_JPEG_QUALITY` (src/include/mnn_c/cv.h) and the default. */
  const IMWRITE_JPEG_QUALITY := 1
  const DEFAULT_JPEG_QUALITY := 95

  /** The quality the scan settles on, scanning the (key, value) pairs from
      index `i`: the value of the first pair whose key is
      IMWRITE_JPEG_QUALITY, or the default. `None` when that key is the last
      element, so that its value would be read past the array. */
  function QualityFrom(ps: seq<int>, len: nat, i: nat): Option<int>
    requires len <= |ps|
    decreases len - i
  {
    if i >= len then Some(DEFAULT_JPEG_QUALITY)
    else if ps[i] == IMWRITE_JPEG_QUALITY then
      (if i + 1 < |ps| then Some(ps[i + 1]) else None)
    else QualityFrom(ps, len, i + 2)
  }

  /** The first pair wins: when the key at even index `k` is the first
      quality key, the scan yields its value. */
  lemma {:induction false} QualityFirstPairWins(ps: seq<int>, len: nat, i: nat, k: nat)
    requires len <= |ps| && i <= k < len && (k - i) % 2 == 0 && k + 1 < |ps|
    requires ps[k] == IMWRITE_JPEG_QUALITY
    requires forall j :: i <= j < k && (j - i) % 2 == 0 ==> ps[j] != IMWRITE_JPEG_QUALITY
    ensures QualityFrom(ps, len, i) == Some(ps[k + 1])
    decreases k - i
  {
    if i < k {
      QualityFirstPairWins(ps, len, i + 2, k);
    }
  }

  /** Without a quality key among the scanned keys the default is used. */
  lemma {:induction false} QualityDefault(ps: seq<int>, len: nat, i: nat)
    requires len <= |ps|
    requires forall j :: i <= j < len && (j - i) % 2 == 0 ==> ps[j] != IMWRITE_JPEG_QUALITY
    ensures QualityFrom(ps, len, i) == Some(DEFAULT_JPEG_QUALITY)
    decreases len - i
  {
    if i < len {
      QualityDefault(ps, len, i + 2);
    }
  }

  /** The quality loop of `mnn_cv_imwrite` and `mnn_cv_imencode`: steps
      through the pairs and stops at the first quality key. */
  method JpegQuality(params: array<int>, paramsLength: nat) returns (quality: Option<int>)
    requires paramsLength <= params.Length
    ensures quality == QualityFrom(params[..], paramsLength, 0)
  {
    quality := Some(DEFAULT_JPEG_QUALITY);
    var i := 0;
    while i < paramsLength
      invariant i % 2 == 0
      invariant QualityFrom(params[..], paramsLength, 0) == QualityFrom(params[..], paramsLength, i)
      decreases paramsLength - i
    {
      if params[i] == IMWRITE_JPEG_QUALITY {
        quality := if i + 1 < params.Length then Some(params[i + 1]) else None;
        return;
      }
      i := i + 2;
    }
  }

  /** What the binding asks an stb encoder for. */
  datatype Encoding = Jpeg(quality: int) | Png | Bmp

  /** `mnn_cv_imwrite`'s dispatch: the encoder for the file's extension,
      `None` (and a false result) for any other extension; `written` is the
      stb writer's success. The JPEG quality comes from the scan, which must
      not read past `params`. */
  method Imwrite(filename: string, params: array<int>, paramsLength: nat, written: Encoding -> bool)
    returns (ok: bool, used: Option<Encoding>)
    requires paramsLength <= params.Length
    requires GetExt(filename) in {"jpg", "jpeg"} ==> QualityFrom(params[..], paramsLength, 0).Some?
    ensures used.Some? <==> HaveImageWriter(filename)
    ensures used.None? ==> !ok
    ensures used.Some? ==> ok == written(used.value)
    ensures GetExt(filename) in {"jpg", "jpeg"} ==>
      used == Some(Jpeg(QualityFrom(params[..], paramsLength, 0).value))
    ensures GetExt(filename) == "png" ==> used == Some(Png)
    ensures GetExt(filename) == "bmp" ==> used == Some(Bmp)
  {
    var ext := GetExt(filename);
    if ext == "jpg" || ext == "jpeg" {
      var q := JpegQuality(params, paramsLength);
      used := Some(Jpeg(q.value));
      return written(used.value), used;
    }
    if ext == "png" {
      return written(Png), Some(Png);
    }
    if ext == "bmp" {
      return written(Bmp), Some(Bmp);
    }
    return false, None;
  }

  /** The `std::vector<uint8_t>` an encoder writes into through `writeFunc`. */
  class ByteSink {
    var bytes: seq<Byte>

    constructor ()
      ensures bytes == []
    {
      bytes := [];
    }

    /** `writeFunc(context, data, size)`: appends `data[0 .. size)`. */
    method Write(data: seq<Byte>, size: nat)
      requires size <= |data|
      modifies this
      ensures bytes == old(bytes) + data[..size]
    {
      bytes := bytes + data[..size];
    }
  }

  /** What an stb encoder does: its success flag and the bytes it hands to
      `writeFunc`. */
  type Encoder = Encoding -> (bool, seq<Byte>)

  /** `mnn_cv_imencode` as written: its first test, `_ext == "jpg" ||
      "jpeg"`, is always true, so the JPEG encoder always runs; a png or bmp
      request then also runs that encoder into the same sink. */
  method ImencodeAsWritten(ext: string, params: array<int>, paramsLength: nat, encoder: Encoder)
    returns (res: bool, out: seq<Byte>)
    requires paramsLength <= params.Length
    requires QualityFrom(params[..], paramsLength, 0).Some?
    ensures var e := GetExt(ext);
      var q := QualityFrom(params[..], paramsLength, 0).value;
      && (e != "png" && e != "bmp" ==> res == encoder(Jpeg(q)).0 && out == encoder(Jpeg(q)).1)
      && (e == "png" ==> res == encoder(Png).0 && out == encoder(Jpeg(q)).1 + encoder(Png).1)
      && (e == "bmp" ==> res == encoder(Bmp).0 && out == encoder(Jpeg(q)).1 + encoder(Bmp).1)
  {
    var e := GetExt(ext);
    res, out := EncodersAsWritten(e, params, paramsLength, encoder);
  }

  /** The encoder tests of `mnn_cv_imencode` as written, once the
      extension `e` is known. */
  method EncodersAsWritten(e: string, params: array<int>, paramsLength: nat, encoder: Encoder)
    returns (res: bool, out: seq<Byte>)
    requires paramsLength <= params.Length
    requires QualityFrom(params[..], paramsLength, 0).Some?
    ensures var q := QualityFrom(params[..], paramsLength, 0).value;
      && (e != "png" && e != "bmp" ==> res == encoder(Jpeg(q)).0 && out == encoder(Jpeg(q)).1)
      && (e == "png" ==> res == encoder(Png).0 && out == encoder(Jpeg(q)).1 + encoder(Png).1)
      && (e == "bmp" ==> res == encoder(Bmp).0 && out == encoder(Jpeg(q)).1 + encoder(Bmp).1)
  {
    res := false;
    var buf := new ByteSink();
    var jpegTest := e == "jpg" || true;
    ghost var q := QualityFrom(params[..], paramsLength, 0).value;
    if jpegTest {
      var quality := JpegQuality(params, paramsLength);
      var r := encoder(Jpeg(quality.value));
      buf.Write(r.1, |r.1|);
      res := r.0;
    }
    assert buf.bytes == encoder(Jpeg(q)).1 && res == encoder(Jpeg(q)).0;
    if e == "png" {
      var r := encoder(Png);
      buf.Write(r.1, |r.1|);
      res := r.0;
    }
    if e == "bmp" {
      var r := encoder(Bmp);
      buf.Write(r.1, |r.1|);
      res := r.0;
    }
    out := buf.bytes;
  }

  /** As written, asking for "x.png" gets the JPEG bytes in front of the
      PNG bytes, which is not what the intended version produces. */
  method ImencodePngGetsJpegPrefix(params: array<int>, encoder: Encoder) returns (out: seq<Byte>)
    requires params.Length == 0
    requires encoder(Jpeg(DEFAULT_JPEG_QUALITY)) == (true, [0xFF, 0xD8])
    requires encoder(Png) == (true, [0x89])
    ensures out == [0xFF, 0xD8, 0x89]
    ensures out != ImencodeOutput(encoder, "x.png", params[..], 0)
  {
    assert QualityFrom(params[..], 0, 0) == Some(DEFAULT_JPEG_QUALITY);
    GetExtOfJoined("x", "png");
    assert "x" + "." + "png" == "x.png";
    assert Lower("png") == "png";
    var ok;
    ok, out := ImencodeAsWritten("x.png", params, 0, encoder);
  }

  /** The bytes `mnn_cv_imencode` evidently means to produce: the output
      of the one encoder the extension names, nothing for other extensions. */
  function ImencodeOutput(encoder: Encoder, ext: string, ps: seq<int>, paramsLength: nat): (out: seq<Byte>)
    requires paramsLength <= |ps|
    requires GetExt(ext) in {"jpg", "jpeg"} ==> QualityFrom(ps, paramsLength, 0).Some?
  {
    var e := GetExt(ext);
    if e == "jpg" || e == "jpeg" then encoder(Jpeg(QualityFrom(ps, paramsLength, 0).value)).1
    else if e == "png" then encoder(Png).1
    else if e == "bmp" then encoder(Bmp).1
    else []
  }

  /** `mnn_cv_imencode` with the extension test as intended: exactly one
      encoder runs, the one `Imwrite` would use for the same extension, and
      the output holds only its bytes; any other extension gives false and
      no bytes. */
  method Imencode(ext: string, params: array<int>, paramsLength: nat, encoder: Encoder)
    returns (res: bool, out: seq<Byte>, used: Option<Encoding>)
    requires paramsLength <= params.Length
    requires GetExt(ext) in {"jpg", "jpeg"} ==> QualityFrom(params[..], paramsLength, 0).Some?
    ensures used.Some? <==> HaveImageWriter(ext)
    ensures used.None? ==> !res && out == []
    ensures used.Some? ==> res == encoder(used.value).0 && out == encoder(used.value).1
    ensures out == ImencodeOutput(encoder, ext, params[..], paramsLength)
    ensures GetExt(ext) in {"jpg", "jpeg"} ==> used == Some(Jpeg(QualityFrom(params[..], paramsLength, 0).value))
    ensures GetExt(ext) == "png" ==> used == Some(Png)
    ensures GetExt(ext) == "bmp" ==> used == Some(Bmp)
  {
    var e := GetExt(ext);
    res, used := false, None;
    var buf := new ByteSink();
    if e == "jpg" || e == "jpeg" {
      var q := JpegQuality(params, paramsLength);
      used := Some(Jpeg(q.value));
    } else if e == "png" {
      used := Some(Png);
    } else if e == "bmp" {
      used := Some(Bmp);
    }
    if used.Some? {
      var r := encoder(used.value);
      buf.Write(r.1, |r.1|);
      res := r.0;
    }
    out := buf.bytes;
  }

  /** The version as written produces the intended bytes exactly when the
      extension is jpg or jpeg, or the JPEG encoder writes nothing: for
      every other extension its output carries the JPEG bytes in front. */
  method ImencodeAsWrittenAgrees(ext: string, params: array<int>, paramsLength: nat, encoder: Encoder)
    returns (out: seq<Byte>)
    requires paramsLength <= params.Length
    requires QualityFrom(params[..], paramsLength, 0).Some?
    ensures var jpeg := encoder(Jpeg(QualityFrom(params[..], paramsLength, 0).value)).1;
      out == ImencodeOutput(encoder, ext, params[..], paramsLength) <==>
      GetExt(ext) in {"jpg", "jpeg"} || jpeg == []
  {
    var ok;
    ok, out := ImencodeAsWritten(ext, params, paramsLength, encoder);
    ghost var jpeg := encoder(Jpeg(QualityFrom(params[..], paramsLength, 0).value)).1;
    ghost var e := GetExt(ext);
    if e == "png" {
      assert out == jpeg + encoder(Png).1;
      assert out == encoder(Png).1 ==> |jpeg| == 0;
    } else if e == "bmp" {
      assert out == jpeg + encoder(Bmp).1;
      assert out == encoder(Bmp).1 ==> |jpeg| == 0;
    }
  }

  // ---- imread / imdecode ----------------------------------------------

  /** A decoded image (`stbi_load` forced to 3 channels). */
  datatype DecodedImage = DecodedImage(width: int, height: int, pixels: seq<Byte>)

  /** `mnn_cv_imread` / `mnn_cv_imdecode`: null when the decoder returned
      null, otherwise the Variable built from the 3-channel pixels. */
  function ImageOrNull(decoded: Option<DecodedImage>, build: DecodedImage -> Handle): (r: Handle)
    ensures decoded.None? ==> r == NULL
    ensures decoded.Some? ==> r == build(decoded.value)
  {
    match decoded
    case None => NULL
    case Some(img) => build(img)
  }

  // ---- NV21 ------------------------------------------------------------

  /** `nvIndex = i / 2 * width + j - j % 2`: the offset of the chroma pair
      shared by the 2x2 block holding pixel (i, j). For non-negative
      operands C's truncating division agrees with Dafny's. */
  function NvIndex(i: nat, j: nat, w: nat): nat
  {
    i / 2 * w + j - j % 2
  }

  /** `rgbaIndex % width + i * width`: the pixel index the inner loop
      recomputes from the running one. */
  function RecomputedIndex(k: nat, i: nat, w: nat): nat
    requires w > 0
  {
    k % w + i * w
  }

  /** Every read of the loop stays inside the source buffer. */
  predicate ReadsInBounds(len: nat, w: nat, h: nat)
  {
    && w * h <= len
    && forall i: nat, j: nat :: i < h && j < w ==> w * h + NvIndex(i, j, w) + 1 < len
  }

  /** `r < 0 ? 0 : r > 255 ? 255 : r`. */
  function Clamp(x: int): (r: int)
    ensures 0 <= r <= 255
    ensures 0 <= x <= 255 ==> r == x
    ensures x < 0 ==> r == 0
    ensures x > 255 ==> r == 255
  {
    if x < 0 then 0 else if x > 255 then 255 else x
  }

  /** The YUV-to-RGB formulas: (y, u, v) to unclamped (r, g, b). */
  type Yuv = (int, int, int) -> (int, int, int)

  lemma PixelIndex(i: nat, j: nat, w: nat, h: nat)
    requires i < h && j < w
    ensures i * w + j < w * h
    ensures (i * w + j) / w == i && (i * w + j) % w == j
  {
    assert i * w + j < i * w + w == (i + 1) * w;
    assert (i + 1) * w <= h * w by {
      MulMonotone(i + 1, h, w);
    }
    DivModUnique(i * w + j, w, i, j);
  }

  /** The source byte at `k`; `Nv21ToBgr`'s precondition keeps every
      read it makes below the length, where this is `src[k]`. */
  function Sample(src: seq<Byte>, k: nat): Byte
  {
    if k < |src| then src[k] else 0
  }

  /** The byte the loop stores for pixel (i, j) on channel c: B, G, R at
      c = 0, 1, 2, each clamped; the luma byte is the pixel's own, the
      chroma pair the block's, read with U first. */
  function PixelByte(src: seq<Byte>, w: nat, h: nat, yuv: Yuv, i: nat, j: nat, c: nat): Byte
    requires c < 3
  {
    var y := Sample(src, i * w + j) as int;
    var u := Sample(src, w * h + NvIndex(i, j, w)) as int;
    var v := Sample(src, w * h + NvIndex(i, j, w) + 1) as int;
    var rgb := yuv(y, u, v);
    (if c == 0 then Clamp(rgb.2) else if c == 1 then Clamp(rgb.1) else Clamp(rgb.0)) as Byte
  }

  /** The three bytes, B, G, R, the loop stores for one pixel. */
  type Bgr = (Byte, Byte, Byte)

  function Channel(p: Bgr, c: nat): Byte
    requires c < 3
  {
    if c == 0 then p.0 else if c == 1 then p.1 else p.2
  }

  /** The bytes of pixel (i, j), as the loop computes them. */
  function PixelBgr(src: seq<Byte>, w: nat, h: nat, yuv: Yuv): (nat, nat) -> Bgr
  {
    (i: nat, j: nat) => (PixelByte(src, w, h, yuv, i, j, 0), PixelByte(src, w, h, yuv, i, j, 1), PixelByte(src, w, h, yuv, i, j, 2))
  }

  /** The bytes of the first `j` pixels of row `i`, in order. */
  function RowBytes(px: (nat, nat) -> Bgr, i: nat, j: nat): (r: seq<Byte>)
    ensures |r| == 3 * j
  {
    if j == 0 then [] else RowBytes(px, i, j - 1) + [px(i, j - 1).0, px(i, j - 1).1, px(i, j - 1).2]
  }

  /** The bytes of the first `i` rows of width `w`, in order: the packed
      BGR image when `i` is the height. */
  function Rows(px: (nat, nat) -> Bgr, w: nat, i: nat): (r: seq<Byte>)
    ensures |r| == 3 * (i * w)
  {
    if i == 0 then [] else Rows(px, w, i - 1) + RowBytes(px, i - 1, w)
  }

  /** Within a row, pixel j occupies bytes 3*j .. 3*j+2. */
  lemma {:induction false} RowLayout(px: (nat, nat) -> Bgr, i: nat, m: nat, j: nat, c: nat)
    requires j < m && c < 3
    ensures RowBytes(px, i, m)[3 * j + c] == Channel(px(i, j), c)
  {
    if j < m - 1 {
      RowLayout(px, i, m - 1, j, c);
    }
  }

  /** The pixel layout of the output: pixel (i, j) occupies bytes
      3*(i*w+j) .. 3*(i*w+j)+2, B first, so every byte of the image is
      a channel of exactly one pixel. */
  lemma {:induction false} Layout(px: (nat, nat) -> Bgr, w: nat, n: nat, i: nat, j: nat, c: nat)
    requires i < n && j < w && c < 3
    ensures 3 * (i * w + j) + c < 3 * (n * w)
    ensures Rows(px, w, n)[3 * (i * w + j) + c] == Channel(px(i, j), c)
  {
    var m: nat := n - 1;
    PixelOffset(i, j, w, n, c);
    var k := 3 * (i * w + j) + c;
    if i < m {
      Layout(px, w, m, i, j, c);
      RowsEarlier(px, w, n, m, k);
    } else {
      RowLayout(px, i, w, j, c);
      RowsLast(px, w, n, i, k, 3 * j + c);
    }
  }

  /** Adding a row leaves the bytes of the earlier rows where they were. */
  lemma RowsEarlier(px: (nat, nat) -> Bgr, w: nat, n: nat, m: nat, k: nat)
    requires m + 1 == n && k < 3 * (m * w)
    ensures k < 3 * (n * w)
    ensures Rows(px, w, n)[k] == Rows(px, w, m)[k]
  {
  }

  /** The bytes of row r follow the 3*r*w bytes of the rows before it. */
  lemma RowsLast(px: (nat, nat) -> Bgr, w: nat, n: nat, r: nat, k: nat, m: nat)
    requires r + 1 == n && m < 3 * w && k == 3 * (r * w) + m
    ensures k < 3 * (n * w)
    ensures Rows(px, w, n)[k] == RowBytes(px, r, w)[m]
  {
    MulSucc(r, w);
  }

  /** Where byte c of pixel (i, j) falls in an image of n rows: inside
      it, and in the last row right after the 3*(n-1)*w earlier bytes. */
  lemma PixelOffset(i: nat, j: nat, w: nat, n: nat, c: nat)
    requires i < n && j < w && c < 3
    ensures 3 * (i * w + j) + c < 3 * (n * w)
    ensures i + 1 < n ==> 3 * (i * w + j) + c < 3 * ((n - 1) * w)
    ensures 3 * (i * w + j) + c == 3 * (i * w) + (3 * j + c)
  {
    MulMonotone(i + 1, n, w);
    MulSucc(i, w);
    if i < n - 1 {
      MulMonotone(i + 1, n - 1, w);
    }
  }

  /** The output byte at position k of the packed image: channel k % 3
      of pixel k / 3, whose row is (k / 3) / w and column (k / 3) % w. */
  function OutByte(src: seq<Byte>, w: nat, h: nat, yuv: Yuv, k: nat): Byte
  {
    if w == 0 then 0 else PixelByte(src, w, h, yuv, k / 3 / w, k / 3 % w, k % 3)
  }

  /** Position by position, the row-by-row image is `OutByte`. */
  lemma RowsAreOutBytes(src: seq<Byte>, w: nat, h: nat, yuv: Yuv, k: nat)
    requires k < 3 * (w * h)
    ensures Rows(PixelBgr(src, w, h, yuv), w, h)[k] == OutByte(src, w, h, yuv, k)
  {
    var i, j, c := Decompose(k, w, h);
    Layout(PixelBgr(src, w, h, yuv), w, h, i, j, c);
  }

  /** Every output position is channel c of exactly the pixel (i, j) that
      `OutByte` reads. */
  lemma Decompose(k: nat, w: nat, h: nat) returns (i: nat, j: nat, c: nat)
    requires k < 3 * (w * h)
    ensures i < h && j < w && c < 3
    ensures k == 3 * (i * w + j) + c
    ensures i == k / 3 / w && j == k / 3 % w && c == k % 3
  {
    assert w > 0;
    var p := k / 3;
    i, j, c := p / w, p % w, k % 3;
    assert p < w * h;
    if i >= h {
      MulMonotone(h, i, w);
      assert false;
    }
    assert p == i * w + j;
  }

  /** `image` is the whole output, byte by byte. */
  ghost predicate IsImage(image: seq<Byte>, src: seq<Byte>, w: nat, h: nat, yuv: Yuv)
  {
    && |image| == 3 * (w * h)
    && forall t {:trigger OutByte(src, w, h, yuv, t)} :: 0 <= t < |image| ==> image[t] == OutByte(src, w, h, yuv, t)
  }

  lemma ExpectedImage(src: seq<Byte>, w: nat, h: nat, yuv: Yuv) returns (image: seq<Byte>)
    ensures IsImage(image, src, w, h, yuv)
  {
    image := seq(3 * (w * h), t requires 0 <= t < 3 * (w * h) => OutByte(src, w, h, yuv, t));
  }

  /** The loops of `mnn_cv_buildImgVarpYuvNV21`: a new buffer of w*h*3
      bytes in which byte k is channel k % 3 of pixel k / 3. The buffer is
      handed to the Variable builder afterwards. */
  method Nv21ToBgr(src: array<Byte>, height: nat, width: nat, yuv: Yuv) returns (rgb: array<Byte>)
    requires ReadsInBounds(src.Length, width, height)
    ensures fresh(rgb) && rgb.Length == 3 * (width * height)
    ensures forall k :: 0 <= k < rgb.Length ==> rgb[k] == OutByte(src[..], width, height, yuv, k)
  {
    var w, h := width, height;
    var n: int := w * h;
    rgb := new Byte[3 * n];
    ghost var frame := src[..];
    ghost var expected := ExpectedImage(frame, w, h, yuv);
    var nvStart: int := n;
    var rgbaIndex: int := 0;
    var i: int := 0;
    while i < h
      invariant 0 <= i <= h
      invariant 0 <= rgbaIndex == i * w <= n
      invariant src[..] == frame
      invariant Filled(rgb[..], expected, 3 * rgbaIndex)
    {
      PixelIndexRow(i, w, h);
      var j: int := 0;
      while j < w
        invariant 0 <= j <= w
        invariant 0 <= rgbaIndex == i * w + j <= n
        invariant src[..] == frame
        invariant Filled(rgb[..], expected, 3 * rgbaIndex)
      {
        PixelStep(frame, w, h, yuv, i, j, expected);
        var nvIndex: int := NvIndex(i, j, w);
        var y := src[rgbaIndex] as int;
        var u := src[nvStart + nvIndex] as int;
        var v := src[nvStart + nvIndex + 1] as int;
        var converted := yuv(y, u, v);
        var r := Clamp(converted.0);
        var g := Clamp(converted.1);
        var b := Clamp(converted.2);
        var index := RecomputedIndex(rgbaIndex, i, w);
        assert index == rgbaIndex;
        ghost var before := rgb[..];
        StorePixel(rgb, index * 3, b as Byte, g as Byte, r as Byte);
        FillStep(before, expected, 3 * index);
        rgbaIndex := rgbaIndex + 1;
        j := j + 1;
      }
      i := i + 1;
    }
    assert rgbaIndex == n;
  }

  /** The three stores `rgb[m + 0] = b; rgb[m + 1] = g; rgb[m + 2] = r`. */
  method StorePixel(rgb: array<Byte>, m: nat, b: Byte, g: Byte, r: Byte)
    requires m + 3 <= rgb.Length
    modifies rgb
    ensures rgb[..] == old(rgb[..])[m := b][m + 1 := g][m + 2 := r]
  {
    rgb[m + 0] := b;
    rgb[m + 1] := g;
    rgb[m + 2] := r;
  }

  /** The first `m` bytes of `a` are those of `e`. */
  ghost predicate Filled(a: seq<Byte>, e: seq<Byte>, m: int)
  {
    m <= |a| && m <= |e| && forall t {:trigger a[t]} :: 0 <= t < m ==> a[t] == e[t]
  }

  /** Storing the next pixel's three bytes extends the filled prefix. */
  lemma FillStep(a: seq<Byte>, e: seq<Byte>, m: nat)
    requires m + 3 <= |a| && m + 3 <= |e| && Filled(a, e, m)
    ensures Filled(a[m := e[m]][m + 1 := e[m + 1]][m + 2 := e[m + 2]], e, m + 3)
  {
  }

  /** The arithmetic of one step of the loops at pixel (i, j): the index
      the loop recomputes is the running one, every read is in bounds, and
      the three bytes it stores are the image's bytes at that pixel. */
  lemma PixelStep(src: seq<Byte>, w: nat, h: nat, yuv: Yuv, i: nat, j: nat, image: seq<Byte>)
    requires i < h && j < w
    requires ReadsInBounds(|src|, w, h)
    requires IsImage(image, src, w, h, yuv)
    ensures i * w + j < w * h
    ensures RecomputedIndex(i * w + j, i, w) == i * w + j
    ensures w * h + NvIndex(i, j, w) + 1 < |src|
    ensures var p := i * w + j;
      var rgb := yuv(src[p] as int, src[w * h + NvIndex(i, j, w)] as int, src[w * h + NvIndex(i, j, w) + 1] as int);
      && image[3 * p] == Clamp(rgb.2) as Byte
      && image[3 * p + 1] == Clamp(rgb.1) as Byte
      && image[3 * p + 2] == Clamp(rgb.0) as Byte
  {
    PixelIndex(i, j, w, h);
    assert w * h + NvIndex(i, j, w) + 1 < |src|;
    OutByteAt(src, w, h, yuv, i, j, 0);
    OutByteAt(src, w, h, yuv, i, j, 1);
    OutByteAt(src, w, h, yuv, i, j, 2);
  }

  /** Pixel (i, j) occupies output bytes 3*(i*w+j) .. 3*(i*w+j)+2, B first. */
  lemma OutByteAt(src: seq<Byte>, w: nat, h: nat, yuv: Yuv, i: nat, j: nat, c: nat)
    requires i < h && j < w && c < 3
    ensures OutByte(src, w, h, yuv, 3 * (i * w + j) + c) == PixelByte(src, w, h, yuv, i, j, c)
  {
    PixelIndex(i, j, w, h);
    DivModUnique(3 * (i * w + j) + c, 3, i * w + j, c);
  }

  lemma PixelIndexRow(i: nat, w: nat, h: nat)
    requires i < h
    ensures (i + 1) * w <= w * h
    ensures (i + 1) * w == i * w + w
  {
    MulMonotone(i + 1, h, w);
  }

  /** For even width and height, every chroma read index lies below the
      3*w*h/2 bytes of an NV21 frame. */
  lemma ChromaBound(w: nat, h: nat, i: nat, j: nat)
    requires w % 2 == 0 && h % 2 == 0 && i < h && j < w
    ensures w * h + NvIndex(i, j, w) + 1 < 3 * (w * h) / 2
  {
    var hh := h / 2;
    assert i / 2 <= hh - 1;
    MulMonotone(i / 2, hh - 1, w);
    assert j - j % 2 <= w - 2;
    assert NvIndex(i, j, w) + 1 <= (hh - 1) * w + w - 1;
    assert (hh - 1) * w + w == hh * w;
    assert w * h == 2 * (hh * w);
  }

  /** So a standard NV21 frame of even dimensions satisfies the loop's
      read bounds. */
  lemma FrameSizeSuffices(len: nat, w: nat, h: nat)
    requires w % 2 == 0 && h % 2 == 0 && len >= 3 * (w * h) / 2
    ensures ReadsInBounds(len, w, h)
  {
    forall i: nat, j: nat | i < h && j < w
      ensures w * h + NvIndex(i, j, w) + 1 < len
    {
      ChromaBound(w, h, i, j);
    }
  }
}
