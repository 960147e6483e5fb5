/** Python's built-in `dict`, as the keyword tables use it: an insertion-ordered
    list of entries with distinct keys. Assigning to a key that is already present
    overwrites its value where it stands; a new key goes to the end. `dict(pairs)`
    and a dict comprehension insert their pairs one by one, so for a repeated key
    the LAST pair wins, at the position of the FIRST. */
module PyDict {

  datatype Option<T> = None | Some(value: T)

  /** The keys of a list of pairs, in order. */
  function Keys<K, V>(ps: seq<(K, V)>): (ks: seq<K>)
    ensures |ks| == |ps|
  {
    if ps == [] then [] else [ps[0].0] + Keys(ps[1..])
  }

  /** Every key occurs once: the invariant of a dict's entry list. */
  predicate DistinctKeys<K(==), V>(ps: seq<(K, V)>)
  {
    Unique(Keys(ps))
  }

  /** No element occurs twice. */
  predicate Unique<T(==)>(xs: seq<T>)
  {
    xs == [] || (xs[0] !in xs[1..] && Unique(xs[1..]))
  }

  /** `d.get(k)`: the value stored under `k`, or None. */
  function Get<K(==), V>(d: seq<(K, V)>, k: K): Option<V>
  {
    if d == [] then None
    else if d[0].0 == k then Some(d[0].1)
    else Get(d[1..], k)
  }

  /** `d[k] = v`: overwrite in place when `k` is present, append otherwise. */
  function Put<K(==), V>(d: seq<(K, V)>, k: K, v: V): (r: seq<(K, V)>)
    ensures Keys(r) == if k in Keys(d) then Keys(d) else Keys(d) + [k]
    ensures Get(r, k) == Some(v)
    ensures DistinctKeys(d) ==> DistinctKeys(r)
  {
    if d == [] then [(k, v)]
    else if d[0].0 == k then [(k, v)] + d[1..]
    else
      var r := [d[0]] + Put(d[1..], k, v);
      assert Keys(r) == [d[0].0] + Keys(Put(d[1..], k, v));
      if k !in Keys(d) && DistinctKeys(d) then UniqueAppend(Keys(d), k); r
      else r
  }

  /** Insert `ps` into `d`, front to back. */
  function Extend<K(==), V>(d: seq<(K, V)>, ps: seq<(K, V)>): (r: seq<(K, V)>)
    decreases |ps|
  {
    if ps == [] then d else Extend(Put(d, ps[0].0, ps[0].1), ps[1..])
  }

  /** `dict(ps)`, and equally `{f(x): g(x) for x in xs}` with `ps` the generated pairs. */
  function FromPairs<K(==), V>(ps: seq<(K, V)>): (d: seq<(K, V)>)
  {
    Extend([], ps)
  }

  /** Reference meaning of a repeated key: the value of its last pair. */
  function LastValue<K(==), V>(ps: seq<(K, V)>, k: K): Option<V>
  {
    if ps == [] then None
    else match LastValue(ps[1..], k)
      case Some(v) => Some(v)
      case None => if ps[0].0 == k then Some(ps[0].1) else None
  }

  /** `d.items()` with keys and values exchanged: the pairs a
      `{v: k for k, v in d.items()}` comprehension generates. */
  function Swapped<K, V>(ps: seq<(K, V)>): (r: seq<(V, K)>)
    ensures |r| == |ps|
    ensures forall i :: 0 <= i < |ps| ==> r[i] == (ps[i].1, ps[i].0)
  {
    seq(|ps|, i requires 0 <= i < |ps| => (ps[i].1, ps[i].0))
  }

  // ---------------------------------------------------------------- lemmas

  /** Reading after a write sees the written value, and only that key changes. */
  lemma {:induction false} GetPut<K, V>(d: seq<(K, V)>, k: K, v: V, x: K)
    ensures Get(Put(d, k, v), x) == if x == k then Some(v) else Get(d, x)
  {
    if d != [] && d[0].0 != k {
      GetPut(d[1..], k, v, x);
    }
  }

  /** The key at index `i` is the key of the `i`-th pair. */
  lemma {:induction false} KeysAt<K, V>(ps: seq<(K, V)>, i: nat)
    requires i < |ps|
    ensures Keys(ps)[i] == ps[i].0
  {
    if i > 0 {
      KeysAt(ps[1..], i - 1);
    }
  }

  lemma {:induction false} KeysConcat<K, V>(a: seq<(K, V)>, b: seq<(K, V)>)
    ensures Keys(a + b) == Keys(a) + Keys(b)
  {
    if a != [] {
      assert (a + b)[1..] == a[1..] + b;
      KeysConcat(a[1..], b);
    } else {
      assert a + b == b;
    }
  }

  /** Writing a key that is absent appends it. */
  lemma {:induction false} PutAbsent<K, V>(d: seq<(K, V)>, k: K, v: V)
    requires k !in Keys(d)
    ensures Put(d, k, v) == d + [(k, v)]
  {
    if d != [] {
      PutAbsent(d[1..], k, v);
      assert d == [d[0]] + d[1..];
    }
  }

  /** Writing a key that is present at position `i` overwrites that entry. */
  lemma {:induction false} PutPresent<K, V>(d: seq<(K, V)>, k: K, v: V, i: nat)
    requires i < |d| && d[i].0 == k
    requires forall j :: 0 <= j < i ==> d[j].0 != k
    ensures Put(d, k, v) == d[i := (k, v)]
  {
    if i > 0 {
      PutPresent(d[1..], k, v, i - 1);
    }
  }

  /** Inserting a list in two halves is inserting it in one go. */
  lemma {:induction false} ExtendConcat<K, V>(d: seq<(K, V)>, ps: seq<(K, V)>, qs: seq<(K, V)>)
    ensures Extend(d, ps + qs) == Extend(Extend(d, ps), qs)
    decreases |ps|
  {
    if ps == [] {
      assert ps + qs == qs;
    } else {
      assert (ps + qs)[0] == ps[0];
      assert (ps + qs)[1..] == ps[1..] + qs;
      ExtendConcat(Put(d, ps[0].0, ps[0].1), ps[1..], qs);
    }
  }

  /** Appending an element that is not there yet keeps a list free of repetitions. */
  lemma {:induction false} UniqueAppend<T>(xs: seq<T>, x: T)
    requires Unique(xs) && x !in xs
    ensures Unique(xs + [x])
  {
    if xs != [] {
      assert (xs + [x])[1..] == xs[1..] + [x];
      UniqueAppend(xs[1..], x);
    }
  }

  /** Pairwise distinct entries make a list free of repetitions. */
  lemma {:induction false} UniqueByIndex<T>(xs: seq<T>)
    requires forall i, j :: 0 <= i < j < |xs| ==> xs[i] != xs[j]
    ensures Unique(xs)
  {
    if xs != [] {
      UniqueByIndex(xs[1..]);
    }
  }

  /** Dropping the last element keeps a list free of repetitions, and that element was new. */
  lemma {:induction false} UniqueSnoc<T>(xs: seq<T>, x: T)
    requires Unique(xs + [x])
    ensures Unique(xs) && x !in xs
  {
    if xs != [] {
      assert (xs + [x])[1..] == xs[1..] + [x];
      UniqueSnoc(xs[1..], x);
    }
  }

  /** Inserting pairs whose keys are new and distinct appends them unchanged. */
  lemma {:induction false} ExtendFresh<K, V>(d: seq<(K, V)>, ps: seq<(K, V)>)
    requires DistinctKeys(d + ps)
    ensures Extend(d, ps) == d + ps
    decreases |ps|
  {
    if ps == [] {
      assert d + ps == d;
    } else {
      var init, x := ps[..|ps| - 1], ps[|ps| - 1];
      assert ps == init + [x];
      assert d + ps == (d + init) + [x];
      KeysConcat(d + init, [x]);
      assert Keys([x]) == [x.0];
      UniqueSnoc(Keys(d + init), x.0);
      ExtendFresh(d, init);
      ExtendConcat(d, init, [x]);
      PutAbsent(d + init, x.0, x.1);
    }
  }

  /** A list of pairs with distinct keys is already a dict: `dict(ps)` keeps it as it is. */
  lemma FromPairsDistinct<K, V>(ps: seq<(K, V)>)
    requires DistinctKeys(ps)
    ensures FromPairs(ps) == ps
  {
    assert [] + ps == ps;
    ExtendFresh([], ps);
  }

  /** Looking up in `Extend(d, ps)` finds the last pair of `ps` with that key, or else `d`'s entry. */
  lemma {:induction false} GetExtend<K, V>(d: seq<(K, V)>, ps: seq<(K, V)>, x: K)
    ensures Get(Extend(d, ps), x) ==
      match LastValue(ps, x) case Some(v) => Some(v) case None => Get(d, x)
    decreases |ps|
  {
    if ps != [] {
      GetExtend(Put(d, ps[0].0, ps[0].1), ps[1..], x);
      GetPut(d, ps[0].0, ps[0].1, x);
    }
  }

  /** `dict(ps)[k]` is the value of the last pair with key `k`: the later insertion overwrites. */
  lemma GetFromPairs<K, V>(ps: seq<(K, V)>, k: K)
    ensures Get(FromPairs(ps), k) == LastValue(ps, k)
  {
    GetExtend([], ps, k);
  }

  /** The pair at index `i` is the last one with its key, so its value is the one that wins. */
  lemma {:induction false} LastValueAt<K, V>(ps: seq<(K, V)>, i: nat)
    requires i < |ps|
    requires forall j :: i < j < |ps| ==> ps[j].0 != ps[i].0
    ensures LastValue(ps, ps[i].0) == Some(ps[i].1)
  {
    var k := ps[i].0;
    if i == 0 {
      LastValueAbsent(ps[1..], k);
    } else {
      LastValueAt(ps[1..], i - 1);
    }
  }

  /** A key no pair carries has no value. */
  lemma {:induction false} LastValueAbsent<K, V>(ps: seq<(K, V)>, k: K)
    requires forall j :: 0 <= j < |ps| ==> ps[j].0 != k
    ensures LastValue(ps, k) == None
  {
    if ps != [] {
      LastValueAbsent(ps[1..], k);
    }
  }

  /** A key no entry carries has no value. */
  lemma {:induction false} GetAbsent<K, V>(d: seq<(K, V)>, k: K)
    requires forall i :: 0 <= i < |d| ==> d[i].0 != k
    ensures Get(d, k) == None
  {
    if d != [] {
      GetAbsent(d[1..], k);
    }
  }

  /** In a dict with distinct keys, the entry at `i` is what a lookup of its key returns. */
  lemma {:induction false} GetAt<K, V>(d: seq<(K, V)>, i: nat)
    requires i < |d| && DistinctKeys(d)
    ensures Get(d, d[i].0) == Some(d[i].1)
  {
    if i > 0 {
      KeysAt(d[1..], i - 1);
      GetAt(d[1..], i - 1);
    }
  }
}
