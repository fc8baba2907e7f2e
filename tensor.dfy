/** The tensor wrapper (src/tensor.cpp): the two data-type mappings between
    the serialized `DataType` enumeration and halide types, the null-handle
    sentinels of the accessors, the bounds-checked shape export, the
    dimension-checked image copy, and the guards around creation, copying
    and device calls. */
module TensorApi {
  import opened Common

  // `DataType` of the serialized model format.
  const DT_INVALID := 0
  const DT_FLOAT := 1
  const DT_DOUBLE := 2
  const DT_INT32 := 3
  const DT_UINT8 := 4
  const DT_INT16 := 5
  const DT_INT8 := 6
  const DT_STRING := 7
  const DT_COMPLEX64 := 8
  const DT_INT64 := 9
  const DT_BOOL := 10
  const DT_QINT8 := 11
  const DT_QUINT8 := 12
  const DT_QINT32 := 13
  const DT_BFLOAT16 := 14
  const DT_QINT16 := 15
  const DT_QUINT16 := 16
  const DT_UINT16 := 17

  // `halide_type_code_t`.
  const HALIDE_INT := 0
  const HALIDE_UINT := 1
  const HALIDE_FLOAT := 2
  const HALIDE_HANDLE := 3
  const HALIDE_BFLOAT := 4

  /** `halide_type_of<float>()`, also the fallback for unsupported types. */
  const Float32 := HalideType(HALIDE_FLOAT, 32, 1)

  /** The (code, bits) pairs `mnn_tensor_data_type_from_halide_type` knows. */
  predicate KnownHalide(code: int, bits: int) {
    || (code == HALIDE_UINT && (bits == 8 || bits == 16))
    || (code == HALIDE_INT && (bits == 8 || bits == 16 || bits == 32 || bits == 64))
    || (code == HALIDE_FLOAT && (bits == 32 || bits == 64))
    || (code == HALIDE_BFLOAT && bits == 16)
  }

  /** `mnn_tensor_data_type_from_halide_type`: lanes are ignored; every
      pair outside the known table is DT_INVALID. */
  function DataTypeFromHalide(h: HalideType): (t: int)
    ensures t == DT_INVALID <==> !KnownHalide(h.code, h.bits)
    ensures h.code == HALIDE_FLOAT && h.bits == 64 ==> t == DT_DOUBLE
    ensures h.code == HALIDE_INT && h.bits == 64 ==> t == DT_INT64
  {
    if h.code == HALIDE_UINT then
      if h.bits == 8 then DT_UINT8 else if h.bits == 16 then DT_UINT16 else DT_INVALID
    else if h.code == HALIDE_INT then
      if h.bits == 8 then DT_INT8
      else if h.bits == 16 then DT_INT16
      else if h.bits == 32 then DT_INT32
      else if h.bits == 64 then DT_INT64
      else DT_INVALID
    else if h.code == HALIDE_FLOAT then
      if h.bits == 32 then DT_FLOAT else if h.bits == 64 then DT_DOUBLE else DT_INVALID
    else if h.code == HALIDE_BFLOAT then
      if h.bits == 16 then DT_BFLOAT16 else DT_INVALID
    else DT_INVALID
  }

  /** `mnn_halide_type_from_tensor_data_type`: every data type maps to a
      single-lane halide type the reverse mapping knows; the seven types
      with an exact halide counterpart survive the round trip, DOUBLE and
      INT64 are narrowed, the quantized and boolean types collapse onto
      their storage type, and anything unsupported becomes float32. */
  function HalideFromDataType(t: int): (h: HalideType)
    ensures h.lanes == 1
    ensures DataTypeFromHalide(h) != DT_INVALID
    ensures t in {DT_FLOAT, DT_INT32, DT_UINT8, DT_INT8, DT_UINT16, DT_INT16, DT_BFLOAT16} ==>
      DataTypeFromHalide(h) == t
    ensures t == DT_DOUBLE ==> DataTypeFromHalide(h) == DT_FLOAT
    ensures t in {DT_INT64, DT_BOOL, DT_QINT32} ==> DataTypeFromHalide(h) == DT_INT32
    ensures t == DT_QINT8 ==> DataTypeFromHalide(h) == DT_INT8
    ensures t == DT_QUINT8 ==> DataTypeFromHalide(h) == DT_UINT8
    ensures t == DT_QINT16 ==> DataTypeFromHalide(h) == DT_INT16
    ensures t == DT_QUINT16 ==> DataTypeFromHalide(h) == DT_UINT16
    ensures !(DT_FLOAT <= t <= DT_UINT16) || t in {DT_STRING, DT_COMPLEX64} ==> h == Float32
  {
    if t == DT_DOUBLE || t == DT_FLOAT then Float32
    else if t == DT_BFLOAT16 then HalideType(HALIDE_BFLOAT, 16, 1)
    else if t == DT_QINT32 || t == DT_INT32 || t == DT_BOOL || t == DT_INT64 then HalideType(HALIDE_INT, 32, 1)
    else if t == DT_QINT8 || t == DT_INT8 then HalideType(HALIDE_INT, 8, 1)
    else if t == DT_QUINT8 || t == DT_UINT8 then HalideType(HALIDE_UINT, 8, 1)
    else if t == DT_QUINT16 || t == DT_UINT16 then HalideType(HALIDE_UINT, 16, 1)
    else if t == DT_QINT16 || t == DT_INT16 then HalideType(HALIDE_INT, 16, 1)
    else Float32
  }

  /** The reverse round trip: a single-lane halide type the table knows
      comes back unchanged, except float64 and int64, which have no halide
      image and come back as float32 and int32. */
  lemma HalideRoundTrip(h: HalideType)
    requires h.lanes == 1 && KnownHalide(h.code, h.bits)
    ensures h.bits == 64 ==> HalideFromDataType(DataTypeFromHalide(h)) == HalideType(h.code, 32, 1)
    ensures h.bits != 64 ==> HalideFromDataType(DataTypeFromHalide(h)) == h
  {
  }

  /** `mnn_dimension_type_t`: the dimension order a tensor reports. */
  datatype DimensionType = TensorFlow | Caffe | CaffeC4

  /** A `MNN::Tensor` as the binding observes it. `lengths` and `strides`
      are the per-dimension extents and strides; `dimType` is the
      dimension order, from which the engine reads width, height, channel
      and batch out of `lengths`; `host` is the float view of its host
      memory. */
  class Tensor {
    var dimType: DimensionType
    var lengths: seq<int>
    var strides: seq<int>
    var size: int
    var elementSize: int
    var deviceId: nat
    var host: array<F32>

    ghost predicate Valid()
      reads this
    {
      |strides| == |lengths|
    }

    constructor (lengths: seq<int>, dimType: DimensionType, hostLength: nat)
      ensures Valid() && fresh(host) && host.Length == hostLength
      ensures this.lengths == lengths && strides == seq(|lengths|, _ => 0)
      ensures this.dimType == dimType
    {
      this.lengths := lengths;
      strides := seq(|lengths|, _ => 0);
      this.dimType := dimType;
      size, elementSize, deviceId := 0, 0, 0;
      host := new F32[hostLength];
    }
  }

  /** The integer-valued accessors of a tensor handle. */
  datatype Query =
    | Dimensions | Size | ElementSize | USize | DeviceId
    | Width | Height | Channel | Batch
    | Stride(index: int) | Length(index: int)
  {
    /** Width, height, channel and batch: read from one dimension. */
    predicate IsAxis() {
      Width? || Height? || Channel? || Batch?
    }
  }

  /** The dimension the engine reads for an image axis: NHWC order for
      TENSORFLOW, NCHW for CAFFE and CAFFE_C4. */
  function Axis(q: Query, d: DimensionType): (k: nat)
    requires q.IsAxis()
    ensures k < 4
    ensures q.Batch? <==> k == 0
  {
    match q
    case Width => if d.TensorFlow? then 2 else 3
    case Height => if d.TensorFlow? then 1 else 2
    case Channel => if d.TensorFlow? then 3 else 1
    case Batch => 0
  }

  /** A tensor of rank at least four has every image axis. */
  predicate HasImageAxes(t: Tensor)
    reads t
  {
    4 <= |t.lengths|
  }

  /** `(size_t)-1` / `(uint64_t)-1`: the null sentinel of the unsigned accessors. */
  const U64_MAX := 0xFFFF_FFFF_FFFF_FFFF

  /** The sentinel an accessor returns in place of an answer. */
  function Sentinel(q: Query): (r: int)
  {
    if q.USize? || q.DeviceId? then U64_MAX else -1
  }

  /** `mnn_tensor_dimensions`, `_size`, `_element_size`, `_usize`,
      `_device_id`, `_width`, `_height`, `_channel`, `_batch`, `_stride`
      and `_length`: the sentinel for a null handle or a negative index,
      otherwise the engine's answer. A non-negative index, and the
      dimension an image axis reads, must exist. */
  function Ask(t: Tensor?, q: Query): (r: int)
    requires t != null && (q.Stride? || q.Length?) && q.index >= 0 ==> t.Valid() && q.index < |t.lengths|
    requires t != null && q.IsAxis() ==> Axis(q, t.dimType) < |t.lengths|
    reads t
    ensures t == null ==> r == Sentinel(q)
    ensures (q.Stride? || q.Length?) && q.index < 0 ==> r == -1
    ensures t != null && q.Dimensions? ==> r == |t.lengths|
    ensures t != null && (q.Length? || q.Stride?) && q.index >= 0 ==>
      r == (if q.Length? then t.lengths else t.strides)[q.index]
    ensures t != null && q.IsAxis() ==> r == t.lengths[Axis(q, t.dimType)]
    ensures t != null && (q.Size? || q.USize?) ==> r == t.size
    ensures t != null && q.ElementSize? ==> r == t.elementSize
    ensures t != null && q.DeviceId? ==> r == t.deviceId
  {
    if t == null then Sentinel(q)
    else match q
      case Dimensions => |t.lengths|
      case Size => t.size
      case ElementSize => t.elementSize
      case USize => t.size
      case DeviceId => t.deviceId
      case Width => t.lengths[Axis(q, t.dimType)]
      case Height => t.lengths[Axis(q, t.dimType)]
      case Channel => t.lengths[Axis(q, t.dimType)]
      case Batch => t.lengths[0]
      case Stride(i) => if i < 0 then -1 else t.strides[i]
      case Length(i) => if i < 0 then -1 else t.lengths[i]
  }

  /** `mnn_tensor_set_stride`: a no-op on a null handle or negative index. */
  method SetStride(t: Tensor?, index: int, stride: int)
    requires t != null && index >= 0 ==> t.Valid() && index < |t.strides|
    modifies t
    ensures t != null ==> t.Valid() == old(t.Valid()) && t.lengths == old(t.lengths)
    ensures t != null && index >= 0 ==> t.strides == old(t.strides)[index := stride]
    ensures t != null && index < 0 ==> t.strides == old(t.strides)
    ensures t != null ==> t.host == old(t.host) && t.dimType == old(t.dimType)
    ensures t != null ==>
      t.size == old(t.size) && t.elementSize == old(t.elementSize) && t.deviceId == old(t.deviceId)
  {
    if t != null && index >= 0 {
      t.strides := t.strides[index := stride];
    }
  }

  /** `mnn_tensor_set_length`: a no-op on a null handle or negative index;
      otherwise that length changes, and with it the image axis, if any,
      that the tensor's dimension order reads from it. */
  method SetLength(t: Tensor?, index: int, length: int)
    requires t != null && index >= 0 ==> t.Valid() && index < |t.lengths|
    modifies t
    ensures t != null ==> t.Valid() == old(t.Valid()) && t.strides == old(t.strides)
    ensures t != null && index >= 0 ==> t.lengths == old(t.lengths)[index := length]
    ensures t != null && index < 0 ==> t.lengths == old(t.lengths)
    ensures t != null ==> t.host == old(t.host) && t.dimType == old(t.dimType) && t.deviceId == old(t.deviceId)
    ensures t != null && index >= 0 ==> forall q: Query {:trigger Ask(t, q)} ::
      q.IsAxis() && Axis(q, t.dimType) == index ==> Ask(t, q) == length
  {
    if t != null && index >= 0 {
      t.lengths := t.lengths[index := length];
    }
  }

  /** `mnn_tensor_shape`: INVALID_VALUE, writing nothing, on a null argument
      or a buffer smaller than the rank; otherwise NO_ERROR with
      `shape[i] == length(i)` for every dimension and later entries
      untouched. The caller's buffer holds at least `shapeSize` ints. */
  method Shape(t: Tensor?, shape: array?<int>, shapeSize: int) returns (code: ErrorCode)
    requires t != null && shape != null && shapeSize >= |t.lengths| ==> |t.lengths| <= shape.Length
    modifies shape
    ensures code == INVALID_VALUE <==> t == null || shape == null || shapeSize < |t.lengths|
    ensures code != INVALID_VALUE ==> code == NO_ERROR
    ensures code == INVALID_VALUE && shape != null ==> shape[..] == old(shape[..])
    ensures code == NO_ERROR ==>
      shape[..|t.lengths|] == t.lengths && shape[|t.lengths|..] == old(shape[|t.lengths|..])
  {
    if t == null || shape == null || shapeSize < |t.lengths| {
      return INVALID_VALUE;
    }
    var i := 0;
    while i < |t.lengths|
      invariant 0 <= i <= |t.lengths|
      invariant forall k :: 0 <= k < i ==> shape[k] == t.lengths[k]
      invariant forall k :: i <= k < shape.Length ==> shape[k] == old(shape[k])
    {
      shape[i] := t.lengths[i];
      i := i + 1;
    }
    code := NO_ERROR;
  }

  /** The tensor reports this width, height and channel count. */
  predicate ImageIs(t: Tensor, width: int, height: int, channel: int)
    requires HasImageAxes(t)
    reads t
  {
    Ask(t, Width) == width && Ask(t, Height) == height && Ask(t, Channel) == channel
  }

  /** `mnn_tensor_set_image_f32`: INVALID_PTR on a null argument;
      INVALID_VALUE, writing nothing, when the width, height or channel
      count differs from what the tensor reports; otherwise exactly `w*h*c` floats of
      `data` are copied to the host buffer starting at image `index`, and
      the rest of the buffer is untouched. */
  method SetImageF32(t: Tensor?, index: int, data: array?<F32>, width: int, height: int, channel: int)
    returns (code: ErrorCode)
    requires t != null && data != null ==> HasImageAxes(t)
    requires t != null && data != null && ImageIs(t, width, height, channel) ==>
      var n := width * height * channel;
      && 0 <= n && 0 <= index * n && index * n + n <= t.host.Length
      && n <= data.Length && data != t.host
    modifies if t != null then {t.host} else {}
    ensures code == INVALID_PTR <==> t == null || data == null
    ensures code == INVALID_VALUE <==>
      t != null && data != null && !ImageIs(t, width, height, channel)
    ensures code != INVALID_PTR && code != INVALID_VALUE ==> code == NO_ERROR
    ensures code != NO_ERROR && t != null ==> t.host[..] == old(t.host[..])
    ensures code == NO_ERROR ==>
      var n := width * height * channel;
      var off := index * n;
      && t.host[off..off + n] == data[..n]
      && t.host[..off] == old(t.host[..off])
      && t.host[off + n..] == old(t.host[off + n..])
  {
    if t == null || data == null {
      return INVALID_PTR;
    }
    if Ask(t, Width) != width || Ask(t, Height) != height || Ask(t, Channel) != channel {
      return INVALID_VALUE;
    }
    var n := width * height * channel;
    CopyAt(t.host, index * n, data, n);
    code := NO_ERROR;
  }

  /** The `memcpy` of `mnn_tensor_set_image_f32`: `data[0 .. n)` lands at
      `dst[off .. off + n)` and nothing else in `dst` changes. */
  method CopyAt(dst: array<F32>, off: int, data: array<F32>, n: int)
    requires 0 <= off && 0 <= n && off + n <= dst.Length && n <= data.Length && data != dst
    modifies dst
    ensures dst[off..off + n] == data[..n]
    ensures dst[..off] == old(dst[..off]) && dst[off + n..] == old(dst[off + n..])
  {
    var k := 0;
    while k < n
      invariant 0 <= k <= n
      invariant forall j :: 0 <= j < k ==> dst[off + j] == data[j]
      invariant forall j :: 0 <= j < off ==> dst[j] == old(dst[j])
      invariant forall j :: off + k <= j < dst.Length ==> dst[j] == old(dst[j])
    {
      dst[off + k] := data[k];
      k := k + 1;
    }
  }

  /** `mnn_tensor_copy_from_host` and `mnn_tensor_copy_to_host`:
      INVALID_VALUE when either tensor is null (the engine is not called);
      otherwise the engine's boolean as BOOL_TRUE / BOOL_FALSE, and
      UNKNOWN_ERROR if it threw. */
  function HostCopyCode(self: Tensor?, other: Tensor?, engine: Outcome<bool>): (code: ErrorCode)
    ensures code == INVALID_VALUE <==> self == null || other == null
    ensures self != null && other != null ==>
      && (code == UNKNOWN_ERROR <==> engine.Threw?)
      && (code == BOOL_TRUE <==> engine == Returned(true))
      && (code == BOOL_FALSE <==> engine == Returned(false))
  {
    if self == null || other == null then INVALID_VALUE
    else match engine
      case Threw => UNKNOWN_ERROR
      case Returned(r) => BoolCode(r)
  }

  /** `mnn_tensor_wait` and `mnn_tensor_set_device_ptr`: INVALID_PTR when
      a required pointer is null, otherwise NO_ERROR, or UNKNOWN_ERROR when
      the engine threw. */
  function DeviceCallCode(t: Tensor?, devicePtr: Option<Handle>, engine: Outcome<()>): (code: ErrorCode)
    ensures code == INVALID_PTR <==> t == null || devicePtr == Some(NULL)
    ensures code == NO_ERROR <==> t != null && devicePtr != Some(NULL) && engine.Returned?
    ensures code == UNKNOWN_ERROR <==> t != null && devicePtr != Some(NULL) && engine.Threw?
  {
    if t == null || devicePtr == Some(NULL) then INVALID_PTR
    else if engine.Threw? then UNKNOWN_ERROR
    else NO_ERROR
  }

  /** `mnn_tensor_create_device` and `mnn_tensor_create_with_data`: null
      when the shape is missing or empty, or (for create_with_data) the
      data pointer is null; otherwise the engine is given the vector
      `shape[0 .. shapeSize)` and the dimension order as passed, and the
      result is its tensor, or null when it threw. */
  method CreateGuarded(shape: array?<int>, shapeSize: int, dimType: DimensionType, data: Option<Handle>,
                       engine: Outcome<Tensor>)
    returns (t: Tensor?, passed: Option<(seq<int>, DimensionType)>)
    requires shape != null && shapeSize > 0 ==> shapeSize <= shape.Length
    ensures passed.None? <==> shape == null || shapeSize <= 0 || data == Some(NULL)
    ensures passed.Some? ==> passed.value == (shape[..shapeSize], dimType) && |passed.value.0| == shapeSize
    ensures t == null <==> passed.None? || engine.Threw?
    ensures t != null ==> engine == Returned(t)
  {
    if shape == null || shapeSize <= 0 || data == Some(NULL) {
      return null, None;
    }
    passed := Some((shape[..shapeSize], dimType));
    match engine
    case Threw => t := null;
    case Returned(made) => t := made;
  }

  /** `mnn_tensor_create_from_tensor` and `mnn_tensor_clone`: null for a
      null source or when the engine threw; otherwise the engine's tensor. */
  method Derive(src: Tensor?, engine: Outcome<Tensor>) returns (t: Tensor?)
    ensures t == null <==> src == null || engine.Threw?
    ensures t != null ==> engine == Returned(t)
  {
    if src == null {
      return null;
    }
    t := if engine.Threw? then null else engine.value;
  }
}
