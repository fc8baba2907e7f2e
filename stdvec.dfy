/** The dynamic array bridge: every `std_VecXX_*` entry point works on a
    heap-boxed `std::vector<ELEM>` that the caller holds as an opaque
    pointer. The element types of the instantiations (uint8 … double) are
    all numeric, so elements are modelled as `int` and the value-initialised
    element is 0. */
module StdVec {
  import opened Common

  /** `std::vector::resize(n)`: keep a prefix, zero-fill any growth. */
  function Resized(s: seq<int>, n: nat): (r: seq<int>)
    ensures |r| == n
    ensures forall i :: 0 <= i < n && i < |s| ==> r[i] == s[i]
    ensures forall i :: |s| <= i < n ==> r[i] == 0
  {
    if n <= |s| then s[..n] else s + seq(n - |s|, _ => 0)
  }

  class Vec {
    /** The vector's elements. */
    var elems: seq<int>
    /** Its allocated capacity (`std::vector::capacity`). */
    var capacity: nat

    ghost predicate Valid()
      reads this
    {
      |elems| <= capacity
    }

    /** `std_XX_new(length)`: `length` value-initialised (zero) elements. */
    constructor New(length: nat)
      ensures Valid()
      ensures elems == seq(length, _ => 0)
    {
      elems := seq(length, _ => 0);
      capacity := length;
    }

    /** `std_XX_new_1(length, val)`: `length` copies of `val`. */
    constructor NewFilled(length: nat, val: int)
      ensures Valid()
      ensures |elems| == length && forall i :: 0 <= i < length ==> elems[i] == val
    {
      elems := seq(length, _ => val);
      capacity := length;
    }

    /** `std_XX_new_2(length, val_ptr)`: a copy of `val_ptr[0..length)`;
        the caller's buffer must hold `length` elements. */
    constructor NewFromBuffer(length: nat, buf: array<int>)
      requires length <= buf.Length
      ensures Valid()
      ensures elems == buf[..length]
    {
      elems := buf[..length];
      capacity := length;
    }

    /** `std_XX_length`. */
    method Length() returns (n: nat)
      ensures n == |elems|
    {
      n := |elems|;
    }

    /** `std_XX_get(index)`: `at(index)`, which throws `std::out_of_range`
        past the end; `None` stands for that exception. */
    method Get(index: nat) returns (r: Option<int>)
      ensures r.Some? <==> index < |elems|
      ensures r.Some? ==> r.value == elems[index]
    {
      if index < |elems| {
        r := Some(elems[index]);
      } else {
        r := None;
      }
    }

    /** `std_XX_set(index, val)`: `at(index) = val`; `ok` is false where
        `at` throws, and then nothing changes. */
    method Set(index: nat, val: int) returns (ok: bool)
      requires Valid()
      modifies this
      ensures Valid() && capacity == old(capacity)
      ensures ok == (index < |old(elems)|)
      ensures ok ==> elems == old(elems)[index := val]
      ensures !ok ==> elems == old(elems)
    {
      ok := index < |elems|;
      if ok {
        elems := elems[index := val];
      }
    }

    /** `std_XX_push_back(val)`. */
    method PushBack(val: int)
      requires Valid()
      modifies this
      ensures Valid() && capacity >= old(capacity)
      ensures elems == old(elems) + [val]
    {
      elems := elems + [val];
      if capacity < |elems| {
        capacity := |elems|;
      }
    }

    /** `std_XX_resize(new_len)`. */
    method Resize(newLen: nat)
      requires Valid()
      modifies this
      ensures Valid() && capacity >= old(capacity)
      ensures elems == Resized(old(elems), newLen)
    {
      elems := Resized(elems, newLen);
      if capacity < newLen {
        capacity := newLen;
      }
    }

    /** `std_XX_reserve(new_len)`: capacity at least `new_len`, contents kept. */
    method Reserve(newLen: nat)
      requires Valid()
      modifies this
      ensures Valid() && elems == old(elems)
      ensures capacity >= newLen && capacity >= old(capacity)
    {
      if capacity < newLen {
        capacity := newLen;
      }
    }

    /** `std_XX_shrink_to_fit`: a non-binding request; the model grants it. */
    method ShrinkToFit()
      requires Valid()
      modifies this
      ensures Valid() && elems == old(elems)
      ensures capacity == |elems|
    {
      capacity := |elems|;
    }

    /** `std_XX_clear`: no elements, capacity kept. */
    method Clear()
      requires Valid()
      modifies this
      ensures Valid() && capacity == old(capacity)
      ensures elems == []
    {
      elems := [];
    }

    /** `std_XX_extend(self, other)`: `insert(end(), other.begin(), other.end())`.
        The range may not come from `self` itself (undefined for
        `std::vector::insert`). */
    method Extend(other: Vec)
      requires Valid() && other.Valid()
      requires other != this
      modifies this
      ensures Valid()
      ensures elems == old(elems) + other.elems
      ensures other.elems == old(other.elems)
    {
      elems := elems + other.elems;
      if capacity < |elems| {
        capacity := |elems|;
      }
    }

    /** `std_XX_clone`: a new, independently owned box with equal contents. */
    method Clone() returns (c: Vec)
      requires Valid()
      ensures fresh(c) && c.Valid()
      ensures c.elems == elems
    {
      c := new Vec.NewFromSeq(elems);
    }

    constructor NewFromSeq(s: seq<int>)
      ensures Valid() && elems == s
    {
      elems := s;
      capacity := |s|;
    }
  }

  /** A mutating call on one vector box. */
  datatype Op = PushOp(x: int) | SetOp(index: nat, x: int) | ResizeOp(n: nat) | ReserveOp(n: nat) | ShrinkOp | ClearOp

  /** What a sequence of calls does to the contents of the box it is made on. */
  function Effect(s: seq<int>, ops: seq<Op>): (r: seq<int>)
    decreases |ops|
  {
    if ops == [] then s
    else
      var s' := match ops[0]
        case PushOp(x) => s + [x]
        case SetOp(i, x) => if i < |s| then s[i := x] else s
        case ResizeOp(n) => Resized(s, n)
        case ReserveOp(_) => s
        case ShrinkOp => s
        case ClearOp => [];
      Effect(s', ops[1..])
  }

  /** Makes the calls `ops` on `w`, in order. */
  method Run(w: Vec, ops: seq<Op>)
    requires w.Valid()
    modifies w
    ensures w.Valid() && w.elems == Effect(old(w.elems), ops)
  {
    var k := 0;
    while k < |ops|
      invariant 0 <= k <= |ops|
      invariant w.Valid() && Effect(old(w.elems), ops) == Effect(w.elems, ops[k..])
    {
      assert ops[k..][1..] == ops[k + 1..];
      match ops[k] {
        case PushOp(x) => w.PushBack(x);
        case SetOp(i, x) => var _ := w.Set(i, x);
        case ResizeOp(n) => w.Resize(n);
        case ReserveOp(n) => w.Reserve(n);
        case ShrinkOp => w.ShrinkToFit();
        case ClearOp => w.Clear();
      }
      k := k + 1;
    }
  }

  /** Clone independence: after `clone`, any calls made on the clone and
      any calls made on the original each change only their own box, so
      each ends up as if the other did not exist. */
  method CloneIndependence(v: Vec, onClone: seq<Op>, onOriginal: seq<Op>) returns (c: Vec)
    requires v.Valid()
    modifies v
    ensures fresh(c) && c != v
    ensures c.elems == Effect(old(v.elems), onClone)
    ensures v.elems == Effect(old(v.elems), onOriginal)
  {
    c := v.Clone();
    Run(c, onClone);
    Run(v, onOriginal);
  }
}
