/** Shared vocabulary of the binding layer: the C error-code enumeration,
    optional values for nullable C pointers, and the outcome of a call into
    the engine, which either returns a value or throws a C++ exception. */
module Common {

  /** `mnn_error_code_t` (src/error_code.h). Codes travel as plain ints,
      because some entry points pass the engine's own code through. */
  type ErrorCode = int

  const NO_ERROR: ErrorCode := 0
  const OUT_OF_MEMORY: ErrorCode := 1
  const NOT_SUPPORT: ErrorCode := 2
  const INVALID_VALUE: ErrorCode := 5
  const BOOL_TRUE: ErrorCode := 100
  const BOOL_FALSE: ErrorCode := 101
  const UNKNOWN_ERROR: ErrorCode := 102
  const INVALID_PTR: ErrorCode := 103

  /** A boolean answer of the engine as the binding reports it. */
  function BoolCode(b: bool): (c: ErrorCode)
    ensures c == BOOL_TRUE || c == BOOL_FALSE
    ensures (c == BOOL_TRUE) == b
  {
    if b then BOOL_TRUE else BOOL_FALSE
  }

  datatype Option<+T> = None | Some(value: T)

  /** What a call into the engine did: returned a value, or threw. */
  datatype Outcome<+T> = Returned(value: T) | Threw

  /** Opaque handles: boxes the binding allocates; 0 is the null pointer. */
  type Handle = nat
  const NULL: Handle := 0

  /** 32-bit IEEE floats are carried as their bit patterns: the binding
      only copies them, so copying bits is exact. */
  type F32 = bv32

  /** `halide_type_t` / `halide_type_c_t`: type code, bit width, lanes. */
  datatype HalideType = HalideType(code: int, bits: int, lanes: int)

  /** Bytes (`uint8_t`, `stbi_uc`). */
  newtype Byte = x: int | 0 <= x < 256

  /** A caller-supplied out-parameter (`T *out`): the binding writes the
      result through it. */
  class Cell<T> {
    var value: T

    constructor (v: T)
      ensures value == v
    {
      value := v;
    }
  }

  /** The live boxes after a null-safe `delete h`: a null handle changes
      nothing, any other handle must be live and is released. */
  function DeleteBox(live: set<Handle>, h: Handle): (after: set<Handle>)
    requires NULL !in live
    requires h == NULL || h in live
    ensures h == NULL ==> after == live
    ensures h != NULL ==> h !in after && after + {h} == live
  {
    live - {h}
  }

  /** Proof helper, no source counterpart: multiplication by a natural
      number is monotone. The bounds on row-major and planar indices in
      the NV21 conversion (`Cv.PixelIndex`, `Cv.ChromaBound`) and in the
      stb flatten and per-channel loops (`StbImage.PlanarCoordinates`,
      `StbImage.ApplyPerChannel`) rest on it. */
  lemma MulMonotone(a: nat, b: nat, c: nat)
    requires a <= b
    ensures a * c <= b * c
  {
    assert b * c == a * c + (b - a) * c;
  }

  /** Proof helper, no source counterpart: one more row adds one row's
      width. It advances the running offsets of `StbImage.ApplyPerChannel`
      and the row induction of `Cv.Layout`. */
  lemma MulSucc(a: nat, c: nat)
    ensures (a + 1) * c == a * c + c
  {
  }

  /** Proof helper, no source counterpart: a number is its quotient times
      the divisor plus its remainder. It returns a planar index to its
      origin in `StbImage.PlanarInterleavedAt`. */
  lemma DivModSum(k: nat, p: nat)
    requires 0 < p
    ensures (k / p) * p + k % p == k
  {
  }

  /** Proof helper, no source counterpart: quotient and remainder are
      unique, so `n == q * w + r` with `0 <= r < w` fixes `n / w` and
      `n % w`. It recovers (row, column, channel) from a flat index in
      `Cv.PixelIndex`, `Cv.OutByteAt` and the `StbImage` bijection lemmas. */
  lemma DivModUnique(n: nat, w: nat, q: nat, r: nat)
    requires 0 <= r < w && n == q * w + r
    ensures n / w == q && n % w == r
  {
    var q', r' := n / w, n % w;
    assert n == q' * w + r';
    if q' < q {
      MulMonotone(q' + 1, q, w);
      assert false;
    } else if q' > q {
      MulMonotone(q + 1, q', w);
      assert false;
    }
  }
}
