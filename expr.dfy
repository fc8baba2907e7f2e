/** The handle-boxing bridge for Variables and Expressions (src/expr.cpp).

    Every `VARP_t` / `EXPRP_t` the caller holds is the address of a heap box
    around a `std::shared_ptr`; the containers (`VecVARP`, `VecWeakEXPRP`,
    `VARMAP`) are boxed standard containers; `mnn_expr_Variable_Info` is an
    owned C struct. `Bridge` is that heap as a handle table, together with
    the part of the engine's graph the bridge can observe: which Expression
    and output slot each Variable denotes, which Expressions are still
    alive, and which Variables can report their info. */
module Expr {
  import opened Common
  import opened OrderedMap

  /** A Variable or Expression object inside the engine. */
  type VarId = nat
  type ExprId = nat

  /** The value of a `VARP` (`std::shared_ptr<Variable>`): empty, or a
      strong reference to a Variable. */
  datatype VarRef = EmptyVar | Var(id: VarId)

  /** The value of an `EXPRP`, or the target of a `std::weak_ptr<Expr>`. */
  datatype ExprRef = EmptyExpr | Expr(id: ExprId)

  /** A `VARP_t` as the caller holds it: null, an owned box, or a pointer
      borrowed from inside a `VecVARP` or a `VARMAP`. Only null and owned
      boxes may be passed to `VARP_free`. */
  datatype VarPtr =
    | NullVar
    | Box(h: Handle)
    | VecSlot(vec: Handle, index: nat, epoch: nat)
    | MapSlot(varMap: Handle, key: string)

  /** `Variable::Info` as the engine computes it. */
  datatype ShapeInfo = ShapeInfo(order: int, dim: seq<int>, htype: HalideType, size: nat)

  /** `mnn_expr_Variable_Info`: the owned struct handed to the caller;
      `ndim` is the length of the `dim` array. */
  datatype CInfo = CInfo(order: int, dim: seq<int>, ndim: nat, htype: HalideType, size: nat)

  /** The owned struct built from the engine's info: `ndim` is the number
      of dimensions and `dim` an element-wise copy of them. */
  function ExportInfo(s: ShapeInfo): (c: CInfo)
    ensures c.ndim == |c.dim| == |s.dim|
    ensures forall i :: 0 <= i < |s.dim| ==> c.dim[i] == s.dim[i]
    ensures c.order == s.order && c.htype == s.htype && c.size == s.size
  {
    CInfo(s.order, s.dim, |s.dim|, s.htype, s.size)
  }

  /** `Variable_expr_pair`: a new `EXPRP` box and an output slot. */
  datatype ExprPair = ExprPair(expr: Handle, index: int)

  /** `delete` on a box: a no-op on the null handle. */
  function Release<T>(m: map<Handle, T>, h: Handle): (r: map<Handle, T>)
    ensures h == NULL ==> r == m
    ensures h != NULL ==> r.Keys == m.Keys - {h}
    ensures forall k :: k in r ==> k in m && r[k] == m[k]
  {
    if h == NULL then m else m - {h}
  }

  class Bridge {
    // The engine's graph, as far as the bridge can observe it.
    /** The Expression and output slot each Variable denotes. */
    var exprOf: map<VarId, (ExprId, int)>
    /** Expressions that are still alive. */
    var live: set<ExprId>
    /** Variables whose shape information the engine can determine. */
    var infoOf: map<VarId, ShapeInfo>

    // The boxes and containers the binding has handed out.
    var vars: map<Handle, VarRef>
    var exprs: map<Handle, ExprRef>
    var varVecs: map<Handle, seq<VarRef>>
    var weakVecs: map<Handle, seq<ExprRef>>
    var varMaps: map<Handle, Entries<VarRef>>
    var infos: map<Handle, CInfo>
    /** Every handle handed out so far is below `next`. */
    var next: Handle
    /** How many times each `VecVARP` has grown by `push_back`; a pointer
        borrowed from a vector is good only while this count is unchanged,
        since growing may move the elements. */
    var pushes: map<Handle, nat>

    ghost predicate InUse(h: Handle)
      reads this
    {
      h in vars || h in exprs || h in varVecs || h in weakVecs || h in varMaps || h in infos
    }

    ghost predicate HandlesBelowNext()
      reads this
    {
      && 0 < next
      && (forall h :: h in vars ==> 0 < h < next)
      && (forall h :: h in exprs ==> 0 < h < next)
      && (forall h :: h in varVecs ==> 0 < h < next)
      && (forall h :: h in weakVecs ==> 0 < h < next)
      && (forall h :: h in varMaps ==> 0 < h < next)
      && (forall h :: h in infos ==> 0 < h < next)
    }

    /** A strong reference keeps what it denotes alive: a Variable keeps
        its Expression alive. */
    ghost predicate HoldsLive(r: VarRef)
      reads this
    {
      r.EmptyVar? || (r.id in exprOf && exprOf[r.id].0 in live)
    }

    ghost predicate Valid()
      reads this
    {
      && HandlesBelowNext()
      && (forall h :: h in vars ==> HoldsLive(vars[h]))
      && (forall h, i :: h in varVecs && 0 <= i < |varVecs[h]| ==> HoldsLive(varVecs[h][i]))
      && (forall h :: h in varMaps ==> Sorted(varMaps[h]))
      && (forall h, i :: h in varMaps && 0 <= i < |varMaps[h]| ==> HoldsLive(varMaps[h][i].1))
      && (forall h :: h in exprs ==> exprs[h].EmptyExpr? || exprs[h].id in live)
    }

    constructor ()
      ensures Valid()
      ensures vars == map[] && exprs == map[] && varVecs == map[] && weakVecs == map[]
      ensures varMaps == map[] && infos == map[]
    {
      exprOf, live, infoOf := map[], {}, map[];
      vars, exprs, varVecs, weakVecs, varMaps, infos := map[], map[], map[], map[], map[], map[];
      next := 1;
      pushes := map[];
    }

    /** The growth count of vector `v`: 0 until its first `push_back`. */
    function Epoch(v: Handle): nat
      reads this
    {
      if v in pushes then pushes[v] else 0
    }

    /** `p` can be dereferenced: an owned box, a borrowed map node that
        exists, or a borrowed vector slot that exists and was borrowed
        since the vector last grew. */
    predicate Points(p: VarPtr)
      reads this
    {
      match p
      case NullVar => false
      case Box(h) => h in vars
      case VecSlot(v, i, e) => v in varVecs && i < |varVecs[v]| && e == Epoch(v)
      case MapSlot(m, k) => m in varMaps && Lookup(varMaps[m], k).Some?
    }

    /** `*p`. */
    function Deref(p: VarPtr): VarRef
      requires Points(p)
      reads this
    {
      match p
      case Box(h) => vars[h]
      case VecSlot(v, i, _) => varVecs[v][i]
      case MapSlot(m, k) => Lookup(varMaps[m], k).value
    }

    lemma DerefLive(p: VarPtr)
      requires Valid() && Points(p)
      ensures HoldsLive(Deref(p))
    {
      if p.MapSlot? {
        var es := varMaps[p.varMap];
        var i :| 0 <= i < |es| && es[i] == (p.key, Deref(p));
        assert HoldsLive(es[i].1);
      }
    }

    // ---- VecVARP ---------------------------------------------------------

    /** `mnn_expr_VecVARP_create(length, value)`: `length` copies of `*value`,
        or `length` empty VARPs when `value` is null. */
    method VecVarCreate(length: nat, value: VarPtr) returns (h: Handle)
      requires Valid()
      requires value == NullVar || Points(value)
      modifies this
      ensures pushes == old(pushes)
      ensures Valid()
      ensures h != NULL && !old(InUse(h))
      ensures h in varVecs && varVecs == old(varVecs)[h := varVecs[h]] && |varVecs[h]| == length
      ensures value == NullVar ==> forall i :: 0 <= i < length ==> varVecs[h][i] == EmptyVar
      ensures value != NullVar ==> forall i :: 0 <= i < length ==> varVecs[h][i] == old(Deref(value))
      ensures vars == old(vars) && exprs == old(exprs) && weakVecs == old(weakVecs)
      ensures varMaps == old(varMaps) && infos == old(infos)
      ensures exprOf == old(exprOf) && live == old(live) && infoOf == old(infoOf)
    {
      var r := EmptyVar;
      if value != NullVar {
        r := Deref(value);
        DerefLive(value);
      }
      h := next;
      next := next + 1;
      varVecs := varVecs[h := seq(length, _ => r)];
    }

    /** `mnn_expr_VecVARP_free`: deletes the box; a no-op on null. */
    method VecVarFree(h: Handle)
      requires Valid()
      requires h == NULL || h in varVecs
      modifies this
      ensures pushes == old(pushes)
      ensures Valid()
      ensures varVecs == Release(old(varVecs), h)
      ensures vars == old(vars) && exprs == old(exprs) && weakVecs == old(weakVecs)
      ensures varMaps == old(varMaps) && infos == old(infos)
      ensures exprOf == old(exprOf) && live == old(live) && infoOf == old(infoOf)
    {
      varVecs := Release(varVecs, h);
    }

    /** `mnn_expr_VecVARP_at(self, i)`: a new owned box sharing element `i`;
        `None` where `at` throws (`i` negative or past the end). */
    method VecVarAt(v: Handle, i: int) returns (r: Option<Handle>)
      requires Valid() && v in varVecs
      modifies this
      ensures pushes == old(pushes)
      ensures Valid()
      ensures r.Some? <==> 0 <= i < |old(varVecs)[v]|
      ensures r.Some? ==> r.value != NULL && !old(InUse(r.value))
      ensures r.Some? ==> vars == old(vars)[r.value := old(varVecs)[v][i]]
      ensures r.None? ==> vars == old(vars)
      ensures exprs == old(exprs) && varVecs == old(varVecs) && weakVecs == old(weakVecs)
      ensures varMaps == old(varMaps) && infos == old(infos)
      ensures exprOf == old(exprOf) && live == old(live) && infoOf == old(infoOf)
    {
      if 0 <= i < |varVecs[v]| {
        var h := next;
        next := next + 1;
        vars := vars[h := varVecs[v][i]];
        r := Some(h);
      } else {
        r := None;
      }
    }

    /** `mnn_expr_VecVARP_at_ref(self, i)`: a pointer borrowed from inside the
        vector, not a new box; `None` where `at` throws. */
    method VecVarAtRef(v: Handle, i: int) returns (r: Option<VarPtr>)
      requires v in varVecs
      ensures r.Some? <==> 0 <= i < |varVecs[v]|
      ensures r.Some? ==> Points(r.value) && Deref(r.value) == varVecs[v][i]
      ensures r.Some? ==> !r.value.Box? && r.value != NullVar
    {
      if 0 <= i < |varVecs[v]| {
        r := Some(VecSlot(v, i, Epoch(v)));
      } else {
        r := None;
      }
    }

    /** `mnn_expr_VecVARP_set(self, i, value)`: `at(i) = *value`; `ok` is false
        where `at` throws, and then nothing changes. */
    method VecVarSet(v: Handle, i: int, value: VarPtr) returns (ok: bool)
      requires Valid() && v in varVecs && Points(value)
      modifies this
      ensures pushes == old(pushes)
      ensures Valid()
      ensures ok == (0 <= i < |old(varVecs)[v]|)
      ensures ok ==> varVecs == old(varVecs)[v := old(varVecs)[v][i := old(Deref(value))]]
      ensures !ok ==> varVecs == old(varVecs)
      ensures vars == old(vars) && exprs == old(exprs) && weakVecs == old(weakVecs)
      ensures varMaps == old(varMaps) && infos == old(infos) && next == old(next)
      ensures exprOf == old(exprOf) && live == old(live) && infoOf == old(infoOf)
    {
      ok := 0 <= i < |varVecs[v]|;
      if ok {
        var r := Deref(value);
        DerefLive(value);
        varVecs := varVecs[v := varVecs[v][i := r]];
      }
    }

    /** `mnn_expr_VecVARP_push_back(self, value)`: growing may reallocate,
        so every slot pointer borrowed from `v` before the call dangles. */
    method VecVarPushBack(v: Handle, value: VarPtr)
      requires Valid() && v in varVecs && Points(value)
      modifies this
      ensures pushes == old(pushes)[v := old(Epoch(v)) + 1]
      ensures forall i: nat :: !Points(VecSlot(v, i, old(Epoch(v))))
      ensures Valid()
      ensures varVecs == old(varVecs)[v := old(varVecs)[v] + [old(Deref(value))]]
      ensures vars == old(vars) && exprs == old(exprs) && weakVecs == old(weakVecs)
      ensures varMaps == old(varMaps) && infos == old(infos) && next == old(next)
      ensures exprOf == old(exprOf) && live == old(live) && infoOf == old(infoOf)
    {
      var r := Deref(value);
      DerefLive(value);
      varVecs := varVecs[v := varVecs[v] + [r]];
      pushes := pushes[v := Epoch(v) + 1];
    }

    /** `mnn_expr_VecVARP_size`. */
    method VecVarSize(v: Handle) returns (n: nat)
      requires v in varVecs
      ensures n == |varVecs[v]|
    {
      n := |varVecs[v]|;
    }

    // ---- VecWeakEXPRP ----------------------------------------------------

    /** The box `VARP_toExprs` / `Expr_getOutputs` return around the engine's
        list of consumer back-references (the list itself is the engine's). */
    method WeakVecAdopt(refs: seq<ExprRef>) returns (h: Handle)
      requires Valid()
      modifies this
      ensures pushes == old(pushes)
      ensures Valid()
      ensures h != NULL && !old(InUse(h))
      ensures weakVecs == old(weakVecs)[h := refs]
      ensures vars == old(vars) && exprs == old(exprs) && varVecs == old(varVecs)
      ensures varMaps == old(varMaps) && infos == old(infos)
      ensures exprOf == old(exprOf) && live == old(live) && infoOf == old(infoOf)
    {
      h := next;
      next := next + 1;
      weakVecs := weakVecs[h := refs];
    }

    /** `mnn_expr_VecWeakEXPRP_free`: a no-op on null. */
    method WeakVecFree(h: Handle)
      requires Valid()
      requires h == NULL || h in weakVecs
      modifies this
      ensures pushes == old(pushes)
      ensures Valid()
      ensures weakVecs == Release(old(weakVecs), h)
      ensures vars == old(vars) && exprs == old(exprs) && varVecs == old(varVecs)
      ensures varMaps == old(varMaps) && infos == old(infos)
      ensures exprOf == old(exprOf) && live == old(live) && infoOf == old(infoOf)
    {
      weakVecs := Release(weakVecs, h);
    }

    /** A weak reference has expired when its Expression is gone (or it
        never had one). */
    predicate Expired(r: ExprRef)
      reads this
    {
      r.EmptyExpr? || r.id !in live
    }

    /** `mnn_expr_VecWeakEXPRP_at(self, i)`: `None` where `at` throws;
        otherwise null for an expired reference, else a new strong box. */
    method WeakVecAt(w: Handle, i: int) returns (r: Option<Handle>)
      requires Valid() && w in weakVecs
      modifies this
      ensures pushes == old(pushes)
      ensures Valid()
      ensures r.Some? <==> 0 <= i < |old(weakVecs)[w]|
      ensures r.Some? ==> (r.value == NULL <==> old(Expired(weakVecs[w][i])))
      ensures r.Some? && r.value != NULL ==>
        !old(InUse(r.value)) && exprs == old(exprs)[r.value := old(weakVecs)[w][i]]
      ensures r.None? || r.value == NULL ==> exprs == old(exprs)
      ensures vars == old(vars) && varVecs == old(varVecs) && weakVecs == old(weakVecs)
      ensures varMaps == old(varMaps) && infos == old(infos)
      ensures exprOf == old(exprOf) && live == old(live) && infoOf == old(infoOf)
    {
      if !(0 <= i < |weakVecs[w]|) {
        return None;
      }
      var e := weakVecs[w][i];
      if Expired(e) {
        return Some(NULL);
      }
      var h := next;
      next := next + 1;
      exprs := exprs[h := e];
      r := Some(h);
    }

    /** `mnn_expr_VecWeakEXPRP_set(self, i, value)`: stores a weak reference
        to `*value`. */
    method WeakVecSet(w: Handle, i: int, value: Handle) returns (ok: bool)
      requires Valid() && w in weakVecs && value in exprs
      modifies this
      ensures pushes == old(pushes)
      ensures Valid()
      ensures ok == (0 <= i < |old(weakVecs)[w]|)
      ensures ok ==> weakVecs == old(weakVecs)[w := old(weakVecs)[w][i := old(exprs)[value]]]
      ensures !ok ==> weakVecs == old(weakVecs)
      ensures vars == old(vars) && exprs == old(exprs) && varVecs == old(varVecs)
      ensures varMaps == old(varMaps) && infos == old(infos) && next == old(next)
      ensures exprOf == old(exprOf) && live == old(live) && infoOf == old(infoOf)
    {
      ok := 0 <= i < |weakVecs[w]|;
      if ok {
        weakVecs := weakVecs[w := weakVecs[w][i := exprs[value]]];
      }
    }

    /** `mnn_expr_VecWeakEXPRP_push_back(self, value)`. */
    method WeakVecPushBack(w: Handle, value: Handle)
      requires Valid() && w in weakVecs && value in exprs
      modifies this
      ensures pushes == old(pushes)
      ensures Valid()
      ensures weakVecs == old(weakVecs)[w := old(weakVecs)[w] + [old(exprs)[value]]]
      ensures vars == old(vars) && exprs == old(exprs) && varVecs == old(varVecs)
      ensures varMaps == old(varMaps) && infos == old(infos) && next == old(next)
      ensures exprOf == old(exprOf) && live == old(live) && infoOf == old(infoOf)
    {
      weakVecs := weakVecs[w := weakVecs[w] + [exprs[value]]];
    }

    /** `mnn_expr_VecWeakEXPRP_size`. */
    method WeakVecSize(w: Handle) returns (n: nat)
      requires w in weakVecs
      ensures n == |weakVecs[w]|
    {
      n := |weakVecs[w]|;
    }

    // ---- Variable_Info ---------------------------------------------------

    /** `mnn_expr_Variable_Info_free`: releases the struct and its `dim`
        array; a no-op on null. */
    method InfoFree(h: Handle)
      requires Valid()
      requires h == NULL || h in infos
      modifies this
      ensures pushes == old(pushes)
      ensures Valid()
      ensures infos == Release(old(infos), h)
      ensures vars == old(vars) && exprs == old(exprs) && varVecs == old(varVecs)
      ensures weakVecs == old(weakVecs) && varMaps == old(varMaps)
      ensures exprOf == old(exprOf) && live == old(live) && infoOf == old(infoOf)
    {
      infos := Release(infos, h);
    }

    // ---- VARMAP ----------------------------------------------------------

    /** `mnn_expr_VARMAP_create`: a new, empty map. */
    method VarMapCreate() returns (h: Handle)
      requires Valid()
      modifies this
      ensures pushes == old(pushes)
      ensures Valid()
      ensures h != NULL && !old(InUse(h))
      ensures varMaps == old(varMaps)[h := []]
      ensures vars == old(vars) && exprs == old(exprs) && varVecs == old(varVecs)
      ensures weakVecs == old(weakVecs) && infos == old(infos)
      ensures exprOf == old(exprOf) && live == old(live) && infoOf == old(infoOf)
    {
      h := next;
      next := next + 1;
      varMaps := varMaps[h := []];
    }

    /** `mnn_expr_VARMAP_free`: a no-op on null. */
    method VarMapFree(h: Handle)
      requires Valid()
      requires h == NULL || h in varMaps
      modifies this
      ensures pushes == old(pushes)
      ensures Valid()
      ensures varMaps == Release(old(varMaps), h)
      ensures vars == old(vars) && exprs == old(exprs) && varVecs == old(varVecs)
      ensures weakVecs == old(weakVecs) && infos == old(infos)
      ensures exprOf == old(exprOf) && live == old(live) && infoOf == old(infoOf)
    {
      varMaps := Release(varMaps, h);
    }

    /** `mnn_expr_VARMAP_size`. */
    method VarMapSize(m: Handle) returns (n: nat)
      requires m in varMaps
      ensures n == |varMaps[m]|
    {
      n := |varMaps[m]|;
    }

    /** `mnn_expr_VARMAP_keys`: exactly `size()` strings, in the map's
        ascending key order. */
    method VarMapKeys(m: Handle) returns (keys: seq<string>)
      requires Valid() && m in varMaps
      ensures |keys| == |varMaps[m]|
      ensures forall i :: 0 <= i < |keys| ==> Lookup(varMaps[m], keys[i]).Some?
      ensures forall i, j :: 0 <= i < j < |keys| ==> StrLt(keys[i], keys[j])
      ensures keys == Keys(varMaps[m])
    {
      var es := varMaps[m];
      keys := [];
      var idx := 0;
      while idx < |es|
        invariant 0 <= idx <= |es|
        invariant |keys| == idx
        invariant forall k :: 0 <= k < idx ==> keys[k] == es[k].0
      {
        keys := keys + [es[idx].0];
        idx := idx + 1;
      }
      assert forall i :: 0 <= i < |keys| ==> es[i] == (keys[i], es[i].1);
    }

    /** `mnn_expr_VARMAP_get(self, key)`: null for a missing key, otherwise
        a new owned box sharing the stored VARP. */
    method VarMapGet(m: Handle, key: string) returns (h: Handle)
      requires Valid() && m in varMaps
      modifies this
      ensures pushes == old(pushes)
      ensures Valid()
      ensures h == NULL <==> old(Lookup(varMaps[m], key)).None?
      ensures h != NULL ==> !old(InUse(h)) && vars == old(vars)[h := old(Lookup(varMaps[m], key)).value]
      ensures h == NULL ==> vars == old(vars)
      ensures exprs == old(exprs) && varVecs == old(varVecs) && weakVecs == old(weakVecs)
      ensures varMaps == old(varMaps) && infos == old(infos)
      ensures exprOf == old(exprOf) && live == old(live) && infoOf == old(infoOf)
    {
      var found := Lookup(varMaps[m], key);
      if found.None? {
        return NULL;
      }
      DerefLive(MapSlot(m, key));
      h := next;
      next := next + 1;
      vars := vars[h := found.value];
    }

    /** `mnn_expr_VARMAP_get_ref(self, key)`: a pointer borrowed from inside
        the map, or null for a missing key. */
    method VarMapGetRef(m: Handle, key: string) returns (p: VarPtr)
      requires m in varMaps
      ensures p == NullVar <==> Lookup(varMaps[m], key).None?
      ensures p != NullVar ==> !p.Box? && Points(p) && Deref(p) == Lookup(varMaps[m], key).value
    {
      if Lookup(varMaps[m], key).Some? {
        p := MapSlot(m, key);
      } else {
        p := NullVar;
      }
    }

    /** `mnn_expr_VARMAP_set(self, key, value)`: `(*self)[key] = *value`. */
    method VarMapSet(m: Handle, key: string, value: VarPtr)
      requires Valid() && m in varMaps && Points(value)
      modifies this
      ensures pushes == old(pushes)
      ensures Valid()
      ensures varMaps == old(varMaps)[m := Assign(old(varMaps)[m], key, old(Deref(value)))]
      ensures Lookup(varMaps[m], key) == Some(old(Deref(value)))
      ensures forall k :: k != key ==> Lookup(varMaps[m], k) == old(Lookup(varMaps[m], k))
      ensures vars == old(vars) && exprs == old(exprs) && varVecs == old(varVecs)
      ensures weakVecs == old(weakVecs) && infos == old(infos) && next == old(next)
      ensures exprOf == old(exprOf) && live == old(live) && infoOf == old(infoOf)
    {
      var r := Deref(value);
      DerefLive(value);
      var es := varMaps[m];
      var es' := Assign(es, key, r);
      AssignSorted(es, key, r);
      LookupAssignSame(es, key, r);
      forall k | k != key ensures Lookup(es', k) == Lookup(es, k) {
        LookupAssignOther(es, key, r, k);
      }
      AssignHoldsLive(es, key, r);
      varMaps := varMaps[m := es'];
    }

    /** Assigning a live reference into a map of live references leaves
        every value live. */
    lemma AssignHoldsLive(es: Entries<VarRef>, key: string, r: VarRef)
      requires HoldsLive(r)
      requires forall i :: 0 <= i < |es| ==> HoldsLive(es[i].1)
      ensures forall i :: 0 <= i < |Assign(es, key, r)| ==> HoldsLive(Assign(es, key, r)[i].1)
    {
      var es' := Assign(es, key, r);
      AssignEntries(es, key, r);
      forall i | 0 <= i < |es'| ensures HoldsLive(es'[i].1) {
        assert es'[i] in es';
        if es'[i] != (key, r) {
          var j :| 0 <= j < |es| && es[j] == es'[i];
        }
      }
    }

    // ---- VARP ------------------------------------------------------------

    /** `mnn_expr_VARP_create_empty`: a new box holding an empty VARP. */
    method VarCreateEmpty() returns (h: Handle)
      requires Valid()
      modifies this
      ensures pushes == old(pushes)
      ensures Valid()
      ensures h != NULL && !old(InUse(h))
      ensures vars == old(vars)[h := EmptyVar]
      ensures exprs == old(exprs) && varVecs == old(varVecs) && weakVecs == old(weakVecs)
      ensures varMaps == old(varMaps) && infos == old(infos)
      ensures exprOf == old(exprOf) && live == old(live) && infoOf == old(infoOf)
    {
      h := next;
      next := next + 1;
      vars := vars[h := EmptyVar];
    }

    /** `mnn_expr_VARP_create_VARP(other)`: a new box sharing `*other`. */
    method VarCreateCopy(other: VarPtr) returns (h: Handle)
      requires Valid() && Points(other)
      modifies this
      ensures pushes == old(pushes)
      ensures Valid()
      ensures h != NULL && !old(InUse(h))
      ensures vars == old(vars)[h := old(Deref(other))]
      ensures exprs == old(exprs) && varVecs == old(varVecs) && weakVecs == old(weakVecs)
      ensures varMaps == old(varMaps) && infos == old(infos)
      ensures exprOf == old(exprOf) && live == old(live) && infoOf == old(infoOf)
    {
      var r := Deref(other);
      DerefLive(other);
      h := next;
      next := next + 1;
      vars := vars[h := r];
    }

    /** `mnn_expr_VARP_free`: a no-op on null; only owned boxes may be freed. */
    method VarFree(p: VarPtr)
      requires Valid()
      requires p == NullVar || (p.Box? && p.h in vars)
      modifies this
      ensures pushes == old(pushes)
      ensures Valid()
      ensures p == NullVar ==> vars == old(vars)
      ensures p.Box? ==> vars == Release(old(vars), p.h)
      ensures exprs == old(exprs) && varVecs == old(varVecs) && weakVecs == old(weakVecs)
      ensures varMaps == old(varMaps) && infos == old(infos)
      ensures exprOf == old(exprOf) && live == old(live) && infoOf == old(infoOf)
    {
      if p.Box? {
        vars := Release(vars, p.h);
      }
    }

    /** `mnn_expr_VARP_getInfo(self)`: null for a null handle or when the
        engine cannot determine the info; otherwise a new owned struct whose
        `ndim` is the number of dimensions and whose `dim` copies them. */
    method VarGetInfo(p: VarPtr) returns (h: Handle)
      requires Valid()
      requires p == NullVar || (Points(p) && Deref(p).Var?)
      modifies this
      ensures pushes == old(pushes)
      ensures Valid()
      ensures h == NULL <==> p == NullVar || old(Deref(p)).id !in infoOf
      ensures h != NULL ==> !old(InUse(h)) && h in infos
      ensures h != NULL ==>
        infos == old(infos)[h := ExportInfo(infoOf[old(Deref(p)).id])]
      ensures h == NULL ==> infos == old(infos)
      ensures vars == old(vars) && exprs == old(exprs) && varVecs == old(varVecs)
      ensures weakVecs == old(weakVecs) && varMaps == old(varMaps)
      ensures exprOf == old(exprOf) && live == old(live) && infoOf == old(infoOf)
    {
      if p == NullVar {
        return NULL;
      }
      var v := Deref(p).id;
      if v !in infoOf {
        return NULL;
      }
      h := next;
      next := next + 1;
      infos := infos[h := ExportInfo(infoOf[v])];
    }

    /** `mnn_expr_VARP_getExpr(self)`: the Variable's output slot and a new
        owned box around its Expression. */
    method VarGetExpr(p: VarPtr) returns (pair: ExprPair)
      requires Valid() && Points(p) && Deref(p).Var?
      modifies this
      ensures pushes == old(pushes)
      ensures Valid()
      ensures pair.index == old(exprOf[Deref(p).id].1)
      ensures pair.expr != NULL && !old(InUse(pair.expr))
      ensures exprs == old(exprs)[pair.expr := Expr(old(exprOf[Deref(p).id].0))]
      ensures vars == old(vars) && varVecs == old(varVecs) && weakVecs == old(weakVecs)
      ensures varMaps == old(varMaps) && infos == old(infos)
      ensures exprOf == old(exprOf) && live == old(live) && infoOf == old(infoOf)
    {
      DerefLive(p);
      var e := exprOf[Deref(p).id];
      var h := next;
      next := next + 1;
      exprs := exprs[h := Expr(e.0)];
      pair := ExprPair(h, e.1);
    }

    /** `mnn_expr_VARP_static_create_EXPRP(expr, index)`: the engine makes a
        new Variable `v` denoting output `index` of `*expr`; the binding
        boxes it. */
    method VarCreateFromExpr(e: Handle, index: int, v: VarId) returns (h: Handle)
      requires Valid() && e in exprs && exprs[e].Expr? && v !in exprOf
      modifies this
      ensures pushes == old(pushes)
      ensures Valid()
      ensures h != NULL && !old(InUse(h))
      ensures vars == old(vars)[h := Var(v)]
      ensures exprOf == old(exprOf)[v := (old(exprs)[e].id, index)]
      ensures exprs == old(exprs) && varVecs == old(varVecs) && weakVecs == old(weakVecs)
      ensures varMaps == old(varMaps) && infos == old(infos)
      ensures live == old(live) && infoOf == old(infoOf)
    {
      exprOf := exprOf[v := (exprs[e].id, index)];
      h := next;
      next := next + 1;
      vars := vars[h := Var(v)];
    }

    // ---- EXPRP -----------------------------------------------------------

    /** `mnn_expr_Expr_create_empty`: a new box holding an empty EXPRP. */
    method ExprCreateEmpty() returns (h: Handle)
      requires Valid()
      modifies this
      ensures pushes == old(pushes)
      ensures Valid()
      ensures h != NULL && !old(InUse(h))
      ensures exprs == old(exprs)[h := EmptyExpr]
      ensures vars == old(vars) && varVecs == old(varVecs) && weakVecs == old(weakVecs)
      ensures varMaps == old(varMaps) && infos == old(infos)
      ensures exprOf == old(exprOf) && live == old(live) && infoOf == old(infoOf)
    {
      h := next;
      next := next + 1;
      exprs := exprs[h := EmptyExpr];
    }

    /** `mnn_expr_Expr_free`: a no-op on null. */
    method ExprFree(h: Handle)
      requires Valid()
      requires h == NULL || h in exprs
      modifies this
      ensures pushes == old(pushes)
      ensures Valid()
      ensures exprs == Release(old(exprs), h)
      ensures vars == old(vars) && varVecs == old(varVecs) && weakVecs == old(weakVecs)
      ensures varMaps == old(varMaps) && infos == old(infos)
      ensures exprOf == old(exprOf) && live == old(live) && infoOf == old(infoOf)
    {
      exprs := Release(exprs, h);
    }

    /** Some box or container of the binding still holds `e` strongly,
        directly or through a Variable. */
    ghost predicate HeldByBinding(e: ExprId)
      reads this
    {
      || (exists h :: h in exprs && exprs[h] == Expr(e))
      || (exists h :: h in vars && Denotes(vars[h], e))
      || (exists h, i :: h in varVecs && 0 <= i < |varVecs[h]| && Denotes(varVecs[h][i], e))
      || (exists h, i :: h in varMaps && 0 <= i < |varMaps[h]| && Denotes(varMaps[h][i].1, e))
    }

    ghost predicate Denotes(r: VarRef, e: ExprId)
      reads this
    {
      r.Var? && r.id in exprOf && exprOf[r.id].0 == e
    }

    /** The engine drops its last reference to `e`. This can only happen
        once no handle of the binding holds `e`: a box keeps what it holds
        alive. Weak references to `e` then read back as expired. */
    method EngineDrops(e: ExprId)
      requires Valid() && e in live && !HeldByBinding(e)
      modifies this
      ensures pushes == old(pushes)
      ensures Valid()
      ensures live == old(live) - {e}
      ensures forall w, i :: w in weakVecs && 0 <= i < |weakVecs[w]| && weakVecs[w][i] == Expr(e) ==>
        Expired(weakVecs[w][i])
      ensures vars == old(vars) && exprs == old(exprs) && varVecs == old(varVecs)
      ensures weakVecs == old(weakVecs) && varMaps == old(varMaps) && infos == old(infos)
      ensures exprOf == old(exprOf) && infoOf == old(infoOf)
    {
      live := live - {e};
      assert forall h :: h in vars ==> !Denotes(vars[h], e);
      assert forall h, i :: h in varVecs && 0 <= i < |varVecs[h]| ==> !Denotes(varVecs[h][i], e);
      assert forall h, i :: h in varMaps && 0 <= i < |varMaps[h]| ==> !Denotes(varMaps[h][i].1, e);
    }
  }
}
