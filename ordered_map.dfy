/** `std::map<std::string, V>` as the binding sees it: an association list
    kept strictly ascending by `std::string`'s `operator<` (byte-wise
    lexicographic order). Iterating a `std::map` visits its entries in this
    order, which is what every "export as parallel arrays" loop relies on. */
module OrderedMap {
  import opened Common

  /** `a < b` for `std::string`: lexicographic, a proper prefix first. */
  predicate StrLt(a: string, b: string)
    decreases |a|
  {
    if a == [] then b != []
    else if b == [] then false
    else a[0] < b[0] || (a[0] == b[0] && StrLt(a[1..], b[1..]))
  }

  lemma {:induction false} StrLtIrreflexive(a: string)
    ensures !StrLt(a, a)
    decreases |a|
  {
    if a != [] { StrLtIrreflexive(a[1..]); }
  }

  lemma {:induction false} StrLtTransitive(a: string, b: string, c: string)
    requires StrLt(a, b) && StrLt(b, c)
    ensures StrLt(a, c)
    decreases |a|
  {
    if a != [] && a[0] == b[0] && b[0] == c[0] {
      StrLtTransitive(a[1..], b[1..], c[1..]);
    }
  }

  /** Any two distinct strings are ordered one way or the other. */
  lemma {:induction false} StrLtTotal(a: string, b: string)
    requires a != b
    ensures StrLt(a, b) || StrLt(b, a)
    decreases |a|
  {
    if a != [] && b != [] && a[0] == b[0] {
      assert a == [a[0]] + a[1..] && b == [b[0]] + b[1..];
      StrLtTotal(a[1..], b[1..]);
    }
  }

  type Entries<V> = seq<(string, V)>

  /** The map invariant: keys strictly ascending, hence unique. */
  ghost predicate Sorted<V>(es: Entries<V>)
  {
    forall i, j :: 0 <= i < j < |es| ==> StrLt(es[i].0, es[j].0)
  }

  function Keys<V>(es: Entries<V>): (ks: seq<string>)
    ensures |ks| == |es|
    ensures forall i :: 0 <= i < |es| ==> ks[i] == es[i].0
  {
    if es == [] then [] else [es[0].0] + Keys(es[1..])
  }

  function Values<V>(es: Entries<V>): (vs: seq<V>)
    ensures |vs| == |es|
    ensures forall i :: 0 <= i < |es| ==> vs[i] == es[i].1
  {
    if es == [] then [] else [es[0].1] + Values(es[1..])
  }

  /** `find(key)`: the value stored under `key`, if any. */
  function Lookup<V>(es: Entries<V>, key: string): (r: Option<V>)
    ensures r.Some? <==> exists i :: 0 <= i < |es| && es[i].0 == key
    ensures r.Some? ==> exists i :: 0 <= i < |es| && es[i] == (key, r.value)
  {
    if es == [] then None
    else if es[0].0 == key then Some(es[0].1)
    else
      var r := Lookup(es[1..], key);
      assert forall i :: 1 <= i < |es| ==> es[i] == es[1..][i - 1];
      r
  }

  /** `m[key] = value`: overwrite the entry for `key`, or insert it at the
      place the order demands. */
  function Assign<V>(es: Entries<V>, key: string, value: V): Entries<V>
  {
    if es == [] then [(key, value)]
    else if es[0].0 == key then [(key, value)] + es[1..]
    else if StrLt(key, es[0].0) then [(key, value)] + es
    else [es[0]] + Assign(es[1..], key, value)
  }

  /** Every entry after an assignment is the assigned one or an old one. */
  lemma {:induction false} AssignEntries<V>(es: Entries<V>, key: string, value: V)
    ensures (key, value) in Assign(es, key, value)
    ensures forall e :: e in Assign(es, key, value) ==> e == (key, value) || e in es
  {
    if es != [] && es[0].0 != key && !StrLt(key, es[0].0) {
      AssignEntries(es[1..], key, value);
      assert Assign(es, key, value) == [es[0]] + Assign(es[1..], key, value);
      assert forall e :: e in es[1..] ==> e in es;
    } else if es != [] && es[0].0 == key {
      assert forall e :: e in es[1..] ==> e in es;
    }
  }

  /** Assignment keeps the map sorted. */
  lemma {:induction false} AssignSorted<V>(es: Entries<V>, key: string, value: V)
    requires Sorted(es)
    ensures Sorted(Assign(es, key, value))
  {
    var r := Assign(es, key, value);
    if es == [] {
    } else if es[0].0 == key {
      forall i, j | 0 <= i < j < |r| ensures StrLt(r[i].0, r[j].0) {
        assert r[j] == es[j];
        if i > 0 { assert r[i] == es[i]; }
      }
    } else if StrLt(key, es[0].0) {
      forall i, j | 0 <= i < j < |r| ensures StrLt(r[i].0, r[j].0) {
        assert r[j] == es[j - 1];
        if i > 0 { assert r[i] == es[i - 1]; }
        else if j > 1 { StrLtTransitive(key, es[0].0, es[j - 1].0); }
      }
    } else {
      StrLtTotal(key, es[0].0);
      var t := Assign(es[1..], key, value);
      assert Sorted(es[1..]) by {
        forall i, j | 0 <= i < j < |es[1..]| ensures StrLt(es[1..][i].0, es[1..][j].0) {
          assert es[1..][i] == es[i + 1] && es[1..][j] == es[j + 1];
        }
      }
      AssignSorted(es[1..], key, value);
      AssignEntries(es[1..], key, value);
      assert r == [es[0]] + t;
      forall i, j | 0 <= i < j < |r| ensures StrLt(r[i].0, r[j].0) {
        if i == 0 {
          assert r[j] == t[j - 1];
          assert t[j - 1] in t;
          if t[j - 1].0 != key {
            var m :| 0 <= m < |es[1..]| && es[1..][m] == t[j - 1];
            assert es[m + 1].0 == t[j - 1].0;
          }
        } else {
          assert r[i] == t[i - 1] && r[j] == t[j - 1];
        }
      }
    }
  }

  /** Reading back the key just assigned yields the assigned value. */
  lemma {:induction false} LookupAssignSame<V>(es: Entries<V>, key: string, value: V)
    ensures Lookup(Assign(es, key, value), key) == Some(value)
  {
    if es != [] && es[0].0 != key && !StrLt(key, es[0].0) {
      LookupAssignSame(es[1..], key, value);
      assert Assign(es, key, value)[1..] == Assign(es[1..], key, value);
    }
  }

  /** Assigning one key leaves every other key's value as it was. */
  lemma {:induction false} LookupAssignOther<V>(es: Entries<V>, key: string, value: V, other: string)
    requires other != key
    ensures Lookup(Assign(es, key, value), other) == Lookup(es, other)
  {
    var r := Assign(es, key, value);
    if es == [] {
    } else if es[0].0 == key {
      assert r[1..] == es[1..];
    } else if StrLt(key, es[0].0) {
      assert r[1..] == es;
    } else {
      LookupAssignOther(es[1..], key, value, other);
      assert r[1..] == Assign(es[1..], key, value);
    }
  }

  /** The map grows by one entry exactly when the key was absent. */
  lemma {:induction false} AssignSize<V>(es: Entries<V>, key: string, value: V)
    requires Sorted(es)
    ensures |Assign(es, key, value)| == |es| + (if Lookup(es, key).None? then 1 else 0)
  {
    if es == [] {
    } else if es[0].0 == key {
    } else if StrLt(key, es[0].0) {
      forall i | 0 <= i < |es| ensures es[i].0 != key {
        if i > 0 { StrLtTransitive(key, es[0].0, es[i].0); }
        if es[i].0 == key { StrLtIrreflexive(key); }
      }
    } else {
      assert Sorted(es[1..]) by {
        forall i, j | 0 <= i < j < |es[1..]| ensures StrLt(es[1..][i].0, es[1..][j].0) {
          assert es[1..][i] == es[i + 1] && es[1..][j] == es[j + 1];
        }
      }
      AssignSize(es[1..], key, value);
    }
  }

  /** In a map with distinct keys, looking up the key of entry `i` finds
      entry `i`. */
  lemma {:induction false} LookupAt<V>(es: Entries<V>, i: nat)
    requires Sorted(es) && i < |es|
    ensures Lookup(es, es[i].0) == Some(es[i].1)
  {
    if i == 0 {
    } else {
      assert StrLt(es[0].0, es[i].0);
      StrLtIrreflexive(es[0].0);
      assert Sorted(es[1..]);
      LookupAt(es[1..], i - 1);
    }
  }
}
