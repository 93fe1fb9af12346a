/** Python dictionaries as the tools use them: a run of `d[k] = v`
    assignments, where the last assignment to a key decides its value and the
    first one decides its place in iteration order. */
module OrderedMaps {
  import opened Wrappers

  /** The map built by assigning the pairs of `ps` in order. */
  function MapFromPairs<K, V>(ps: seq<(K, V)>): map<K, V> {
    if ps == [] then map[] else MapFromPairs(ps[..|ps| - 1])[ps[|ps| - 1].0 := ps[|ps| - 1].1]
  }

  /** `i` is the last position of `ps` that assigns key `k`. */
  ghost predicate LastWith<K, V>(ps: seq<(K, V)>, k: K, i: int) {
    0 <= i < |ps| && ps[i].0 == k && forall j :: i < j < |ps| ==> ps[j].0 != k
  }

  /** `i` is the first position of `ps` that assigns key `k`. */
  ghost predicate FirstWith<K, V>(ps: seq<(K, V)>, k: K, i: int) {
    0 <= i < |ps| && ps[i].0 == k && forall j :: 0 <= j < i ==> ps[j].0 != k
  }

  /** The keys are exactly the keys that some pair assigns. */
  lemma {:induction false} MapFromPairsKeys<K, V>(ps: seq<(K, V)>)
    ensures forall k :: k in MapFromPairs(ps) ==> exists i :: 0 <= i < |ps| && ps[i].0 == k
    ensures forall i :: 0 <= i < |ps| ==> ps[i].0 in MapFromPairs(ps)
  {
    if ps != [] {
      var p := ps[..|ps| - 1];
      MapFromPairsKeys(p);
      forall k | k in MapFromPairs(ps)
        ensures exists i :: 0 <= i < |ps| && ps[i].0 == k
      {
        if k != ps[|ps| - 1].0 {
          assert k in MapFromPairs(p);
          var i :| 0 <= i < |p| && p[i].0 == k;
          assert ps[i].0 == k;
        }
      }
      forall i | 0 <= i < |ps|
        ensures ps[i].0 in MapFromPairs(ps)
      {
        if i < |p| { assert p[i].0 == ps[i].0; }
      }
    }
  }

  /** Last writer wins: a key's value is the one its last pair assigns. */
  lemma {:induction false} MapFromPairsAt<K, V>(ps: seq<(K, V)>, k: K, i: int)
    requires LastWith(ps, k, i)
    ensures k in MapFromPairs(ps) && MapFromPairs(ps)[k] == ps[i].1
  {
    if i < |ps| - 1 {
      var p := ps[..|ps| - 1];
      assert LastWith(p, k, i);
      MapFromPairsAt(p, k, i);
    }
  }

  /** A key that some pair assigns has a last such pair. */
  lemma LastWithExists<K, V>(ps: seq<(K, V)>, k: K, i: int)
    requires 0 <= i < |ps| && ps[i].0 == k
    ensures exists l :: i <= l && LastWith(ps, k, l)
    decreases |ps| - i
  {
    if !LastWith(ps, k, i) {
      var j :| i < j < |ps| && ps[j].0 == k;
      LastWithExists(ps, k, j);
    }
  }

  /** A key that some pair assigns has a first such pair. */
  lemma FirstWithExists<K, V>(ps: seq<(K, V)>, k: K, i: int)
    requires 0 <= i < |ps| && ps[i].0 == k
    ensures exists f :: f <= i && FirstWith(ps, k, f)
    decreases i
  {
    if !FirstWith(ps, k, i) {
      var j :| 0 <= j < i && ps[j].0 == k;
      FirstWithExists(ps, k, j);
    }
  }

  /** A key assigned before the last pair is first assigned at the same place
      in the prefix. */
  lemma FirstWithPrefix<K, V>(ps: seq<(K, V)>, k: K, i: int)
    requires |ps| > 0 && k in MapFromPairs(ps[..|ps| - 1]) && FirstWith(ps, k, i)
    ensures FirstWith(ps[..|ps| - 1], k, i)
  {
    var p := ps[..|ps| - 1];
    MapFromPairsKeys(p);
    var t :| 0 <= t < |p| && p[t].0 == k;
    assert ps[t].0 == k;
  }

  /** An insertion-ordered dictionary: `keys` in iteration order, `values`
      the contents. */
  datatype OrderedMap<K, V> = OrderedMap(keys: seq<K>, values: map<K, V>) {

    ghost predicate Valid() {
      && (forall a, b :: 0 <= a < b < |keys| ==> keys[a] != keys[b])
      && (forall i :: 0 <= i < |keys| ==> keys[i] in values)
      && (forall k :: k in values ==> k in keys)
    }

    /** `d[k] = v`: a new key goes to the end, an existing one keeps its place. */
    function Put(k: K, v: V): (r: OrderedMap<K, V>)
      ensures Valid() ==> r.Valid()
      ensures r.values == values[k := v]
      ensures k in values ==> r.keys == keys
      ensures k !in values ==> r.keys == keys + [k]
    {
      if k in values then OrderedMap(keys, values[k := v]) else OrderedMap(keys + [k], values[k := v])
    }

    /** `d.get(k)` */
    function Get(k: K): (r: Option<V>)
      ensures r.Some? <==> k in values
      ensures r.Some? ==> r.value == values[k]
    {
      if k in values then Some(values[k]) else None
    }
  }

  function EmptyMap<K, V>(): (r: OrderedMap<K, V>)
    ensures r.Valid() && r.keys == [] && r.values == map[]
  {
    OrderedMap([], map[])
  }

  /** The dictionary built by assigning the pairs of `ps` in order. */
  function FromPairs<K, V>(ps: seq<(K, V)>): OrderedMap<K, V> {
    if ps == [] then EmptyMap() else FromPairs(ps[..|ps| - 1]).Put(ps[|ps| - 1].0, ps[|ps| - 1].1)
  }

  /** A dictionary built from pairs is well formed and holds what the plain
      last-writer-wins map holds. */
  lemma {:induction false} FromPairsValues<K, V>(ps: seq<(K, V)>)
    ensures FromPairs(ps).Valid() && FromPairs(ps).values == MapFromPairs(ps)
  {
    if ps != [] {
      FromPairsValues(ps[..|ps| - 1]);
    }
  }

  /** Iteration order is the order in which keys are first assigned. */
  lemma {:induction false} FromPairsOrder<K, V>(ps: seq<(K, V)>)
    ensures forall a, b, i, j ::
              (0 <= a < b < |FromPairs(ps).keys| && FirstWith(ps, FromPairs(ps).keys[a], i) && FirstWith(ps, FromPairs(ps).keys[b], j))
              ==> i < j
  {
    if ps != [] {
      var n := |ps| - 1;
      var p := ps[..n];
      var e := ps[n];
      var m := FromPairs(p);
      FromPairsOrder(p);
      FromPairsValues(p);
      MapFromPairsKeys(p);
      var keys := FromPairs(ps).keys;
      forall k, i | k in m.values && FirstWith(ps, k, i)
        ensures FirstWith(p, k, i)
      {
        FirstWithPrefix(ps, k, i);
      }
      forall a, b, i, j | 0 <= a < b < |keys| && FirstWith(ps, keys[a], i) && FirstWith(ps, keys[b], j)
        ensures i < j
      {
        if e.0 in m.values || b < |m.keys| {
          assert keys[a] == m.keys[a] && keys[b] == m.keys[b];
          assert FirstWith(p, keys[a], i) && FirstWith(p, keys[b], j);
        } else {
          assert keys[b] == e.0 && keys[a] == m.keys[a];
          assert FirstWith(p, keys[a], i);
          assert j == n;
        }
      }
    }
  }

  /** A run of `d[k] = v` whose pairs are computed one at a time, stopping at
      the first computation that fails. */
  function PutAll<K, V, E>(rs: seq<Result<(K, V), E>>): Result<OrderedMap<K, V>, E> {
    if rs == [] then Ok(EmptyMap())
    else
      match PutAll(rs[..|rs| - 1])
      case Err(e) => Err(e)
      case Ok(d) =>
        match rs[|rs| - 1]
        case Err(e) => Err(e)
        case Ok(kv) => Ok(d.Put(kv.0, kv.1))
  }

  predicate AllOk<T, E>(rs: seq<Result<T, E>>) {
    forall i :: 0 <= i < |rs| ==> rs[i].Ok?
  }

  function OkValues<T, E>(rs: seq<Result<T, E>>): (vs: seq<T>)
    requires AllOk(rs)
    ensures |vs| == |rs| && forall i :: 0 <= i < |rs| ==> vs[i] == rs[i].value
  {
    seq(|rs|, i requires 0 <= i < |rs| && AllOk(rs) => rs[i].value)
  }

  /** The run succeeds exactly when every computation does, and then builds
      the dictionary of the computed pairs. */
  lemma {:induction false} PutAllPairs<K, V, E>(rs: seq<Result<(K, V), E>>)
    ensures PutAll(rs).Ok? <==> AllOk(rs)
    ensures AllOk(rs) ==> PutAll(rs) == Ok(FromPairs(OkValues(rs)))
  {
    if rs != [] {
      var n := |rs| - 1;
      var p := rs[..n];
      PutAllPairs(p);
      assert forall i :: 0 <= i < n ==> p[i] == rs[i];
      if AllOk(rs) {
        assert OkValues(rs)[..n] == OkValues(p);
      }
    }
  }

  /** A failed run reports the first failing computation. */
  lemma {:induction false} PutAllFirstError<K, V, E>(rs: seq<Result<(K, V), E>>) returns (i: nat)
    requires PutAll(rs).Err?
    ensures i < |rs| && rs[i].Err? && PutAll(rs).error == rs[i].error
    ensures forall j :: 0 <= j < i ==> rs[j].Ok?
  {
    var n := |rs| - 1;
    var p := rs[..n];
    if PutAll(p).Err? {
      i := PutAllFirstError(p);
      assert p[i] == rs[i];
      assert forall j :: 0 <= j < i ==> p[j] == rs[j];
    } else {
      PutAllPairs(p);
      assert forall j :: 0 <= j < n ==> p[j] == rs[j];
      i := n;
    }
  }

  /** A run's dictionary is well formed. */
  lemma PutAllValid<K, V, E>(rs: seq<Result<(K, V), E>>)
    requires PutAll(rs).Ok?
    ensures PutAll(rs).value.Valid()
  {
    PutAllPairs(rs);
    FromPairsValues(OkValues(rs));
  }

  lemma PutAllErrSticky<K, V, E>(rs: seq<Result<(K, V), E>>, n: nat)
    requires n <= |rs| && PutAll(rs[..n]).Err?
    ensures PutAll(rs) == PutAll(rs[..n])
    decreases |rs| - n
  {
    if n < |rs| {
      assert rs[..n + 1][..n] == rs[..n];
      PutAllErrSticky(rs, n + 1);
    } else {
      assert rs[..n] == rs;
    }
  }
}
