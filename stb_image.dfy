/** The in-place buffer transforms of src/mnn_stb_image.cpp: flattening an
    interleaved image into planes, and the per-channel float arithmetic
    with its null and divide-by-zero guards. The float operations
    themselves are parameters; only which element meets which channel
    value is modelled. */
module StbImage {
  import opened Common

  // ---- Flattening ------------------------------------------------------

  /** Where plane position k of a `pixels` x `channels` image comes from:
      pixel k % pixels, channel k / pixels, of the interleaved buffer. */
  lemma PlanarSource(pixels: nat, channels: nat, k: nat)
    requires k < pixels * channels
    ensures pixels > 0
    ensures k / pixels < channels
    ensures (k % pixels) * channels + k / pixels < pixels * channels
  {
    var i, c := k % pixels, k / pixels;
    if c >= channels {
      MulMonotone(channels, c, pixels);
      assert false;
    }
    MulMonotone(i, pixels - 1, channels);
    assert (pixels - 1) * channels + channels == pixels * channels;
  }

  /** Byte k of the planar layout: plane c = k / P holds channel c of every
      pixel, in pixel order. */
  function PlanarAt(s: seq<Byte>, pixels: nat, channels: nat, k: nat): Byte
    requires pixels * channels <= |s| && k < pixels * channels
  {
    PlanarSource(pixels, channels, k);
    s[(k % pixels) * channels + k / pixels]
  }

  /** The first P*C bytes of `s`, rearranged from interleaved to planar. */
  function Planar(s: seq<Byte>, pixels: nat, channels: nat): (t: seq<Byte>)
    requires pixels * channels <= |s|
    ensures |t| == pixels * channels
  {
    seq(pixels * channels, k requires 0 <= k < pixels * channels => PlanarAt(s, pixels, channels, k))
  }

  /** The inverse rearrangement: byte k of the interleaved layout is
      channel k % C of pixel k / C. */
  function Interleaved(t: seq<Byte>, pixels: nat, channels: nat): (s: seq<Byte>)
    requires pixels * channels <= |t|
    ensures |s| == pixels * channels
  {
    seq(pixels * channels, k requires 0 <= k < pixels * channels => InterleavedAt(t, pixels, channels, k))
  }

  /** Byte k of the interleaved layout. */
  function InterleavedAt(t: seq<Byte>, pixels: nat, channels: nat, k: nat): Byte
    requires pixels * channels <= |t| && k < pixels * channels
  {
    InterleavedSource(pixels, channels, k);
    t[(k % channels) * pixels + k / channels]
  }

  lemma InterleavedSource(pixels: nat, channels: nat, k: nat)
    requires k < pixels * channels
    ensures channels > 0
    ensures (k % channels) * pixels + k / channels < pixels * channels
  {
    PlanarSource(channels, pixels, k);
  }

  /** Channel c of pixel i lands at c*P + i. */
  lemma PlanarCoordinates(s: seq<Byte>, pixels: nat, channels: nat, c: nat, i: nat)
    requires pixels * channels <= |s| && c < channels && i < pixels
    ensures c * pixels + i < pixels * channels
    ensures i * channels + c < pixels * channels
    ensures Planar(s, pixels, channels)[c * pixels + i] == s[i * channels + c]
  {
    MulMonotone(c + 1, channels, pixels);
    MulMonotone(i + 1, pixels, channels);
    DivModUnique(c * pixels + i, pixels, c, i);
  }

  /** Interleaving the planes gives back the bytes that were flattened. */
  lemma InterleavedPlanar(s: seq<Byte>, pixels: nat, channels: nat)
    requires pixels * channels <= |s|
    ensures Interleaved(Planar(s, pixels, channels), pixels, channels) == s[..pixels * channels]
  {
    var t := Planar(s, pixels, channels);
    var r := Interleaved(t, pixels, channels);
    forall k | 0 <= k < pixels * channels
      ensures r[k] == s[k]
    {
      var i, c := k / channels, k % channels;
      InterleavedSource(pixels, channels, k);
      assert i < pixels && c < channels by {
        DivModUnique(k, channels, i, c);
        if i >= pixels {
          MulMonotone(pixels, i, channels);
        }
      }
      PlanarCoordinates(s, pixels, channels, c, i);
      assert r[k] == t[c * pixels + i];
      assert k == i * channels + c;
    }
  }

  /** Flattening the interleaving of planes gives back the planes. */
  lemma PlanarInterleaved(t: seq<Byte>, pixels: nat, channels: nat)
    requires pixels * channels <= |t|
    ensures Planar(Interleaved(t, pixels, channels), pixels, channels) == t[..pixels * channels]
  {
    var s := Interleaved(t, pixels, channels);
    var r := Planar(s, pixels, channels);
    forall k | 0 <= k < pixels * channels
      ensures r[k] == t[k]
    {
      PlanarInterleavedAt(t, s, pixels, channels, k);
    }
  }

  lemma PlanarInterleavedAt(t: seq<Byte>, s: seq<Byte>, pixels: nat, channels: nat, k: nat)
    requires pixels * channels <= |t| && s == Interleaved(t, pixels, channels)
    requires k < pixels * channels
    ensures PlanarAt(s, pixels, channels, k) == t[k]
  {
    var i: nat, c: nat := k % pixels, k / pixels;
    PlanarSource(pixels, channels, k);
    var k' := i * channels + c;
    assert PlanarAt(s, pixels, channels, k) == s[k'];
    assert s[k'] == InterleavedAt(t, pixels, channels, k');
    InterleavedFrom(t, pixels, channels, i, c);
    DivModSum(k, pixels);
  }

  /** Channel c of pixel i of the interleaving comes from c*P + i. */
  lemma InterleavedFrom(t: seq<Byte>, pixels: nat, channels: nat, i: nat, c: nat)
    requires pixels * channels <= |t| && i < pixels && c < channels
    ensures i * channels + c < pixels * channels && c * pixels + i < pixels * channels
    ensures InterleavedAt(t, pixels, channels, i * channels + c) == t[c * pixels + i]
  {
    MulMonotone(i + 1, pixels, channels);
    MulMonotone(c + 1, channels, pixels);
    DivModUnique(i * channels + c, channels, i, c);
  }

  /** With one channel, flattening changes nothing. */
  lemma PlanarSingleChannel(s: seq<Byte>, pixels: nat)
    requires pixels <= |s|
    ensures Planar(s, pixels, 1) == s[..pixels]
  {
    forall k | 0 <= k < pixels
      ensures Planar(s, pixels, 1)[k] == s[k]
    {
      DivModUnique(k, pixels, 0, k);
    }
  }

  /** `Planar(s, P, C)` as a sequence, related to `PlanarAt` only where a
      `PlanarAt` term is at hand. */
  ghost predicate IsPlanar(t: seq<Byte>, s: seq<Byte>, pixels: nat, channels: nat)
    requires pixels * channels <= |s|
  {
    && |t| == pixels * channels
    && forall k {:trigger PlanarAt(s, pixels, channels, k)} :: 0 <= k < |t| ==> t[k] == PlanarAt(s, pixels, channels, k)
  }

  lemma PlanarIsPlanar(s: seq<Byte>, pixels: nat, channels: nat) returns (t: seq<Byte>)
    requires pixels * channels <= |s|
    ensures IsPlanar(t, s, pixels, channels)
  {
    t := Planar(s, pixels, channels);
  }

  lemma IsPlanarIsPlanar(t: seq<Byte>, s: seq<Byte>, pixels: nat, channels: nat)
    requires pixels * channels <= |s| && IsPlanar(t, s, pixels, channels)
    ensures t == Planar(s, pixels, channels)
  {
    var p := Planar(s, pixels, channels);
    forall k | 0 <= k < |t|
      ensures t[k] == p[k]
    {
      assert t[k] == PlanarAt(s, pixels, channels, k);
    }
  }

  /** One step of the copy loop: the temp and source indices are in
      bounds and the byte copied is the planar byte at c*P + i. */
  lemma FlattenStep(s: seq<Byte>, t: seq<Byte>, pixels: nat, channels: nat, c: nat, i: nat)
    requires pixels * channels <= |s| && c < channels && i < pixels
    requires IsPlanar(t, s, pixels, channels)
    ensures 0 <= c * pixels + i < pixels * channels
    ensures 0 <= i * channels + c < pixels * channels
    ensures t[c * pixels + i] == s[i * channels + c]
    ensures c * pixels + pixels <= pixels * channels
  {
    PlanarCoordinates(s, pixels, channels, c, i);
    MulMonotone(c + 1, channels, pixels);
    assert (c + 1) * pixels == c * pixels + pixels;
    assert t[c * pixels + i] == PlanarAt(s, pixels, channels, c * pixels + i);
  }

  /** `mnn_stbi_rgb_flatten_uint8`: 0 on a null buffer; otherwise the
      first width*height*channels bytes are rearranged from interleaved to
      planar through a temporary copy, the bytes after them are untouched,
      and the result is 1. */
  method Flatten(data: array?<Byte>, width: int, height: int, channels: int) returns (r: int)
    requires 0 <= width * height && 0 <= channels
    requires data != null ==> width * height * channels <= data.Length
    modifies data
    ensures data == null ==> r == 0
    ensures data != null ==> r == 1
    ensures data != null ==>
      data[..] == Planar(old(data[..]), width * height, channels) + old(data[..])[width * height * channels..]
  {
    if data == null {
      return 0;
    }
    FlattenPixels(data, width * height, channels);
    r := 1;
  }

  /** The body of `mnn_stbi_rgb_flatten_uint8` once `pixel_count` is
      known: the two copy loops through the temporary buffer. */
  method FlattenPixels(data: array<Byte>, pixelCount: int, channels: int)
    requires 0 <= pixelCount && 0 <= channels && pixelCount * channels <= data.Length
    modifies data
    ensures data[..] == Planar(old(data[..]), pixelCount, channels) + old(data[..])[pixelCount * channels..]
  {
    ghost var s := data[..];
    ghost var planar := PlanarIsPlanar(s, pixelCount, channels);
    var temp := new Byte[pixelCount * channels];
    FillPlanar(data, temp, pixelCount, channels, planar);
    forall k | 0 <= k < pixelCount * channels {
      data[k] := temp[k];
    }
    assert data[..] == planar + s[pixelCount * channels..];
    IsPlanarIsPlanar(planar, s, pixelCount, channels);
  }

  /** The copy loops of `mnn_stbi_rgb_flatten_uint8`: plane c of `temp`
      receives channel c of every pixel of `data`. */
  method FillPlanar(data: array<Byte>, temp: array<Byte>, pixelCount: int, channels: int, ghost planar: seq<Byte>)
    requires 0 <= pixelCount && 0 <= channels && pixelCount * channels <= data.Length
    requires temp.Length == pixelCount * channels && temp != data
    requires IsPlanar(planar, data[..], pixelCount, channels)
    modifies temp
    ensures temp[..] == planar
  {
    ghost var s := data[..];
    var c: int := 0;
    while c < channels
      invariant 0 <= c <= channels
      invariant c * pixelCount <= pixelCount * channels
      invariant forall k :: 0 <= k < c * pixelCount ==> temp[k] == planar[k]
    {
      var i: int := 0;
      while i < pixelCount
        invariant 0 <= i <= pixelCount
        invariant c * pixelCount + i <= pixelCount * channels
        invariant forall k :: 0 <= k < c * pixelCount + i ==> temp[k] == planar[k]
      {
        FlattenStep(s, planar, pixelCount, channels, c, i);
        temp[c * pixelCount + i] := data[i * channels + c];
        i := i + 1;
      }
      c := c + 1;
    }
  }

  // ---- Per-channel arithmetic -----------------------------------------

  /** `value == 0.0f`: both signed zeros compare equal to zero. */
  predicate IsZeroF32(v: F32)
  {
    v & 0x7FFF_FFFF == 0
  }

  /** Element k of an interleaved buffer meets channel value k % C. */
  lemma ChannelOfIndex(i: nat, channels: nat, c: nat)
    requires c < channels
    ensures (i * channels + c) % channels == c
  {
    DivModUnique(i * channels + c, channels, i, c);
  }

  /** The per-channel loop shared by add, sub, mul and div: for every pixel
      i < width*height and channel c < channels, element i*C + c becomes
      `op(element, value[c])`; every other element keeps its value. The
      float buffer is `data` reinterpreted as floats. */
  method ApplyPerChannel(op: (F32, F32) -> F32, data: array<F32>, width: int, height: int, channels: int, value: array<F32>)
    requires 0 <= width * height && 0 <= channels
    requires width * height * channels <= data.Length && channels <= value.Length
    requires data != value
    modifies data
    ensures forall k :: 0 <= k < width * height * channels ==> data[k] == op(old(data[k]), value[k % channels])
    ensures forall k :: width * height * channels <= k < data.Length ==> data[k] == old(data[k])
  {
    var pixels: int := width * height;
    var n: int := pixels * channels;
    ghost var orig := data[..];
    var i: int := 0;
    var base: int := 0;
    while i < pixels
      invariant 0 <= i <= pixels && base == i * channels
      invariant 0 <= base <= n
      invariant |orig| == data.Length
      invariant UpdatedBelow(op, data[..], orig, value[..], channels, base)
      invariant UntouchedFrom(data[..], orig, base)
    {
      MulMonotone(i + 1, pixels, channels);
      var c: int := 0;
      while c < channels
        invariant 0 <= c <= channels
        invariant base + channels <= n
        invariant UpdatedBelow(op, data[..], orig, value[..], channels, base + c)
        invariant UntouchedFrom(data[..], orig, base + c)
      {
        ChannelOfIndex(i, channels, c);
        var pos := base + c;
        ghost var before := data[..];
        data[pos] := op(data[pos], value[c]);
        assert data[..] == before[pos := op(orig[pos], value[c])];
        UpdateStep(op, before, orig, value[..], channels, pos, c);
        c := c + 1;
      }
      MulSucc(i, channels);
      i := i + 1;
      base := base + channels;
    }
  }

  /** Elements below `bound` hold `op(old, value[k % C])`. */
  ghost predicate UpdatedBelow(op: (F32, F32) -> F32, d: seq<F32>, o: seq<F32>, v: seq<F32>, channels: int, bound: int)
    requires 0 < channels <= |v| || bound <= 0
    requires bound <= |d| && |d| == |o|
  {
    forall k {:trigger d[k]} :: 0 <= k < bound ==> d[k] == op(o[k], v[k % channels])
  }

  /** One step of the per-channel loop: updating element `pos`, whose
      channel is `c`, extends the updated prefix by one. */
  lemma UpdateStep(op: (F32, F32) -> F32, d: seq<F32>, o: seq<F32>, v: seq<F32>, channels: int, pos: int, c: int)
    requires 0 <= c < channels <= |v| && pos % channels == c
    requires 0 <= pos < |d| == |o|
    requires UpdatedBelow(op, d, o, v, channels, pos) && UntouchedFrom(d, o, pos)
    ensures UpdatedBelow(op, d[pos := op(o[pos], v[c])], o, v, channels, pos + 1)
    ensures UntouchedFrom(d[pos := op(o[pos], v[c])], o, pos + 1)
  {
  }

  /** Elements from `bound` on keep their old values. */
  ghost predicate UntouchedFrom(d: seq<F32>, o: seq<F32>, bound: int)
    requires |d| == |o|
  {
    forall k {:trigger d[k]} :: 0 <= bound <= k < |d| ==> d[k] == o[k]
  }

  /** `mnn_stbi_add_f32`, `_sub_f32` and `_mul_f32`: 0, changing nothing,
      when the data or the value pointer is null; otherwise the per-channel
      update with `op` (+, - or *) and 1. */
  method ChannelArith(op: (F32, F32) -> F32, data: array?<F32>, width: int, height: int, channels: int, value: array?<F32>)
    returns (r: int)
    requires 0 <= width * height && 0 <= channels
    requires data != null ==> width * height * channels <= data.Length
    requires value != null ==> channels <= value.Length
    requires data == null || data != value
    modifies data
    ensures data == null || value == null ==> r == 0
    ensures data != null && value == null ==> data[..] == old(data[..])
    ensures data != null && value != null ==> r == 1
    ensures data != null && value != null ==>
      forall k :: 0 <= k < width * height * channels ==> data[k] == op(old(data[k]), value[k % channels])
    ensures data != null && value != null ==>
      forall k :: width * height * channels <= k < data.Length ==> data[k] == old(data[k])
  {
    if data == null || value == null {
      return 0;
    }
    ApplyPerChannel(op, data, width, height, channels, value);
    r := 1;
  }

  /** The zero-divisor scan of `mnn_stbi_div_f32` over `value[0 .. channels)`. */
  method HasZeroDivisor(value: array<F32>, channels: int) returns (found: bool)
    requires 0 <= channels <= value.Length
    ensures found <==> exists c :: 0 <= c < channels && IsZeroF32(value[c])
  {
    var c := 0;
    while c < channels
      invariant 0 <= c <= channels
      invariant forall c' :: 0 <= c' < c ==> !IsZeroF32(value[c'])
    {
      if IsZeroF32(value[c]) {
        return true;
      }
      c := c + 1;
    }
    return false;
  }

  /** `mnn_stbi_div_f32`: 0, changing nothing, on a null pointer or when
      any of the first `channels` divisors is zero; otherwise the
      per-channel division and 1. */
  method Div(div: (F32, F32) -> F32, data: array?<F32>, width: int, height: int, channels: int, value: array?<F32>)
    returns (r: int)
    requires 0 <= width * height && 0 <= channels
    requires data != null ==> width * height * channels <= data.Length
    requires value != null ==> channels <= value.Length
    requires data == null || data != value
    modifies data
    ensures data == null || value == null ==> r == 0
    ensures data != null && value == null ==> data[..] == old(data[..])
    ensures data != null && value != null ==>
      (r == 0 <==> exists c :: 0 <= c < channels && IsZeroF32(value[c]))
    ensures data != null && r == 0 ==> data[..] == old(data[..])
    ensures data != null && value != null && r != 0 ==> r == 1
    ensures data != null && value != null && r != 0 ==>
      forall k :: 0 <= k < width * height * channels ==> data[k] == div(old(data[k]), value[k % channels])
    ensures data != null && value != null ==>
      forall k :: width * height * channels <= k < data.Length ==> data[k] == old(data[k])
  {
    if data == null || value == null {
      return 0;
    }
    var zero := HasZeroDivisor(value, channels);
    if zero {
      return 0;
    }
    ApplyPerChannel(div, data, width, height, channels, value);
    r := 1;
  }
}
