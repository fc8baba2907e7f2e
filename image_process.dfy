/** The ImageProcess and Matrix wrappers (src/image_process.cpp): how a
    preprocessing configuration is built from C arguments, the boxed
    shared ownership of an ImageProcess, the null guard of `set_matrix`,
    and how points are copied in and out around a matrix mapping. */
module ImageProcessApi {
  import opened Common

  /** `MNN::CV::ImageProcess::Config` (and `mnn_image_process_config_t`):
      four means and four normals. */
  datatype Config = Config(
    filterType: int, sourceFormat: int, destFormat: int, wrap: int,
    mean: seq<F32>, normal: seq<F32>)

  predicate WellFormed(c: Config)
  {
    |c.mean| == 4 && |c.normal| == 4
  }

  /** The `i`-th entry of a configuration array after copying at most
      four of `count` caller values over the defaults. */
  function Slot(defaults: seq<F32>, values: array?<F32>, count: int, i: nat): F32
    requires i < |defaults|
    requires values != null && 0 < count ==> (if count < 4 then count else 4) <= values.Length
    requires i < 4
    reads values
  {
    if values != null && count > 0 && i < count then values[i] else defaults[i]
  }

  /** Copies `values[0 .. min(count, 4))` over `into`, when `values` is
      present and `count` is positive. */
  method CopyCapped(into: array<F32>, values: array?<F32>, count: int)
    requires into.Length == 4
    requires values != null && 0 < count ==> (if count < 4 then count else 4) <= values.Length
    requires values != into
    modifies into
    ensures forall i :: 0 <= i < 4 ==> into[i] == Slot(old(into[..]), values, count, i)
    ensures values == null || count <= 0 ==> into[..] == old(into[..])
  {
    if values != null && count > 0 {
      var i := 0;
      while i < count && i < 4
        invariant 0 <= i <= 4
        invariant i <= count
        invariant forall k :: 0 <= k < i ==> into[k] == values[k]
        invariant forall k :: i <= k < 4 ==> into[k] == old(into[k])
      {
        into[i] := values[i];
        i := i + 1;
      }
    }
  }

  /** The configuration `mnn_cv_image_process_create` builds: the four
      enumerations as given, and the engine's default means and normals
      with at most the first `min(count, 4)` caller values copied over them
      (none when the pointer is null or the count is not positive). */
  method BuildConfig(defaults: Config, sourceFormat: int, destFormat: int,
                     means: array?<F32>, meanCount: int, normals: array?<F32>, normalCount: int,
                     filterType: int, wrap: int)
    returns (config: Config)
    requires WellFormed(defaults)
    requires means != null && 0 < meanCount ==> (if meanCount < 4 then meanCount else 4) <= means.Length
    requires normals != null && 0 < normalCount ==> (if normalCount < 4 then normalCount else 4) <= normals.Length
    ensures WellFormed(config)
    ensures config.sourceFormat == sourceFormat && config.destFormat == destFormat
    ensures config.filterType == filterType && config.wrap == wrap
    ensures forall i :: 0 <= i < 4 ==> config.mean[i] == Slot(defaults.mean, means, meanCount, i)
    ensures forall i :: 0 <= i < 4 ==> config.normal[i] == Slot(defaults.normal, normals, normalCount, i)
    ensures forall i :: 0 <= i < 4 && (i >= meanCount || means == null) ==> config.mean[i] == defaults.mean[i]
  {
    var mean := new F32[4](i requires 0 <= i < 4 => defaults.mean[i]);
    var normal := new F32[4](i requires 0 <= i < 4 => defaults.normal[i]);
    assert mean[..] == defaults.mean;
    assert normal[..] == defaults.normal;
    CopyCapped(mean, means, meanCount);
    CopyCapped(normal, normals, normalCount);
    config := Config(filterType, sourceFormat, destFormat, wrap, mean[..], normal[..]);
  }

  /** The configuration `mnn_cv_image_process_create_with_config` builds:
      every field of the C struct, all four means and all four normals. */
  method ConfigFromC(c: Config) returns (config: Config)
    requires WellFormed(c)
    ensures WellFormed(config)
    ensures config == c
  {
    var mean := new F32[4];
    var normal := new F32[4];
    var i := 0;
    while i < 4
      invariant 0 <= i <= 4
      invariant forall k :: 0 <= k < i ==> mean[k] == c.mean[k] && normal[k] == c.normal[k]
    {
      mean[i] := c.mean[i];
      normal[i] := c.normal[i];
      i := i + 1;
    }
    config := Config(c.filterType, c.sourceFormat, c.destFormat, c.wrap, mean[..], normal[..]);
  }

  /** A 2-D point of floats (`mnn_cv_point_t`). */
  datatype Point = Point(x: F32, y: F32)

  /** The loop copying `from[0 .. count)` into a new `std::vector`. */
  method CopyIn(from: array<Point>, count: int) returns (v: array<Point>)
    requires 0 <= count <= from.Length
    ensures fresh(v) && v[..] == from[..count]
  {
    v := new Point[count](_ => Point(0, 0));
    var i := 0;
    while i < count
      invariant 0 <= i <= count
      invariant forall k :: 0 <= k < i ==> v[k] == from[k]
    {
      v[i] := from[i];
      i := i + 1;
    }
  }

  /** The loop copying `v[0 .. count)` back out to `into`. */
  method CopyOut(into: array<Point>, v: array<Point>, count: int)
    requires 0 <= count <= into.Length && count <= v.Length && into != v
    modifies into
    ensures into[..count] == v[..count]
    ensures into[count..] == old(into[count..])
  {
    var i := 0;
    while i < count
      invariant 0 <= i <= count
      invariant forall k :: 0 <= k < i ==> into[k] == v[k]
      invariant forall k :: i <= k < into.Length ==> into[k] == old(into[k])
    {
      into[i] := v[i];
      i := i + 1;
    }
  }

  /** `mnn_cv_matrix_map_points`: the first `count` source points are
      copied into a temporary, mapped by the matrix (`transform`, pointwise), and
      copied out to `dst`; the result is always true. `dst` may be `src`,
      since every point is read before any is written. A negative `count`
      makes the temporary's constructor throw `std::length_error`, which
      the binding does not catch: nothing is written. */
  method MapPoints(transform: Point -> Point, dst: array<Point>, src: array<Point>, count: int) returns (r: Outcome<bool>)
    requires count <= src.Length && count <= dst.Length
    modifies dst
    ensures r == Threw <==> count < 0
    ensures r.Returned? ==> r.value
    ensures forall i :: 0 <= i < count ==> dst[i] == transform(old(src[i]))
    ensures forall i :: 0 <= i < dst.Length && (count < 0 || count <= i) ==> dst[i] == old(dst[i])
  {
    if count < 0 {
      return Threw;
    }
    var s := CopyIn(src, count);
    var d := new Point[count](k requires 0 <= k < count reads s => transform(s[k]));
    CopyOut(dst, d, count);
    assert forall i :: 0 <= i < count ==> dst[i] == dst[..count][i];
    assert forall i :: count <= i < dst.Length ==> dst[i] == dst[count..][i - count];
    r := Returned(true);
  }

  /** `mnn_cv_matrix_map_points_inplace`: exactly the first `count` points
      are replaced by their images. A negative `count` throws
      `std::length_error` from the temporary's constructor, uncaught, and
      leaves the points as they were. */
  method MapPointsInPlace(transform: Point -> Point, points: array<Point>, count: int) returns (r: Outcome<()>)
    requires count <= points.Length
    modifies points
    ensures r == Threw <==> count < 0
    ensures forall i :: 0 <= i < count ==> points[i] == transform(old(points[i]))
    ensures forall i :: 0 <= i < points.Length && (count < 0 || count <= i) ==> points[i] == old(points[i])
  {
    if count < 0 {
      return Threw;
    }
    var p := CopyIn(points, count);
    var mapped := new Point[count](k requires 0 <= k < count reads p => transform(p[k]));
    CopyOut(points, mapped, count);
    assert forall i :: 0 <= i < count ==> points[i] == points[..count][i];
    assert forall i :: count <= i < points.Length ==> points[i] == points[count..][i - count];
    r := Returned(());
  }

  /** The ImageProcess and Matrix boxes handed out, and the processes they
      keep alive. An ImageProcess box holds the only `shared_ptr` to its
      process, whose deleter destroys the process. */
  class Processes {
    /** Each ImageProcess box and the process it owns. */
    var boxes: map<Handle, Handle>
    /** Processes not yet destroyed. */
    var alive: set<Handle>
    /** The matrix each live process applies. */
    var matrixOf: map<Handle, seq<F32>>
    /** Matrix boxes handed out. */
    var matrices: set<Handle>

    ghost predicate Valid()
      reads this
    {
      && NULL !in boxes && NULL !in matrices
      && (forall b :: b in boxes ==> boxes[b] in alive)
      && (forall b, c :: b in boxes && c in boxes && b != c ==> boxes[b] != boxes[c])
    }

    constructor ()
      ensures Valid() && boxes == map[] && alive == {} && matrices == {}
    {
      boxes, alive, matrixOf, matrices := map[], {}, map[], {};
    }

    /** `mnn_cv_image_process_create` / `_create_with_config`: a new box
        owning the engine's new process `p` (any configuration built above). */
    method Adopt(box: Handle, p: Handle)
      requires Valid() && box != NULL && box !in boxes && p !in alive
      modifies this
      ensures Valid()
      ensures boxes == old(boxes)[box := p] && alive == old(alive) + {p}
      ensures matrixOf == old(matrixOf) && matrices == old(matrices)
    {
      boxes := boxes[box := p];
      alive := alive + {p};
    }

    /** `mnn_cv_image_process_destroy`: a no-op on null; otherwise the
        shared pointer is reset first, which destroys the process it alone
        owns, and then the box is deleted. */
    method DestroyProcess(box: Handle)
      requires Valid() && (box == NULL || box in boxes)
      modifies this
      ensures Valid()
      ensures box == NULL ==> boxes == old(boxes) && alive == old(alive)
      ensures box != NULL ==> boxes.Keys == old(boxes.Keys) - {box} && alive == old(alive) - {old(boxes[box])}
      ensures forall b :: b in boxes ==> b in old(boxes) && boxes[b] == old(boxes[b])
      ensures matrixOf == old(matrixOf) && matrices == old(matrices)
    {
      if box != NULL {
        var p := boxes[box];
        alive := alive - {p};
        boxes := boxes - {box};
      }
    }

    /** `mnn_cv_matrix_destroy`: a no-op on null. */
    method DestroyMatrix(m: Handle)
      requires Valid() && (m == NULL || m in matrices)
      modifies this
      ensures Valid()
      ensures matrices == DeleteBox(old(matrices), m)
      ensures boxes == old(boxes) && alive == old(alive) && matrixOf == old(matrixOf)
    {
      matrices := DeleteBox(matrices, m);
    }

    /** `mnn_cv_image_process_set_matrix`: INVALID_PTR, changing nothing,
        when the box or the matrix is null; otherwise the process takes the
        matrix's value and the result is NO_ERROR. */
    method SetMatrix(box: Handle, matrix: Option<seq<F32>>) returns (code: ErrorCode)
      requires Valid() && (box == NULL || box in boxes)
      modifies this
      ensures Valid()
      ensures code == INVALID_PTR <==> box == NULL || matrix.None?
      ensures code != INVALID_PTR ==> code == NO_ERROR
      ensures boxes == old(boxes) && alive == old(alive) && matrices == old(matrices)
      ensures code == NO_ERROR ==> matrixOf == old(matrixOf)[boxes[box] := matrix.value]
      ensures code == INVALID_PTR ==> matrixOf == old(matrixOf)
    {
      if box == NULL || matrix.None? {
        return INVALID_PTR;
      }
      matrixOf := matrixOf[boxes[box] := matrix.value];
      code := NO_ERROR;
    }
  }
}
