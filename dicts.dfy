/** Python dictionaries. A `Dict` is a value: the keys in insertion order and
    the map from keys to values. A `Table` is a dictionary object that a
    script updates in place. The folds below (`PutAll`, `PutAllAbsent`,
    `GroupAll`) are the three ways the scripts fill a dictionary in a loop:
    last write wins, first write wins, and append to a bucket. */
module Dicts {
  import opened Wrappers

  datatype Dict<K(==, !new), V> = Dict(keys: seq<K>, vals: map<K, V>)

  predicate Distinct<T(==)>(s: seq<T>) {
    forall i, j :: 0 <= i < j < |s| ==> s[i] != s[j]
  }

  /** The key order lists every key of the map exactly once. */
  ghost predicate WellFormed<K(!new), V>(d: Dict<K, V>) {
    Distinct(d.keys) && forall k :: k in d.vals <==> k in d.keys
  }

  function Empty<K(==, !new), V>(): (d: Dict<K, V>)
    ensures WellFormed(d)
  {
    Dict([], map[])
  }

  /** Python `d.get(k)`. */
  function Get<K(==, !new), V>(d: Dict<K, V>, k: K): Option<V> {
    if k in d.vals then Some(d.vals[k]) else None
  }

  /** Python `d[k] = v`: a new key goes last, an existing key keeps its place. */
  function Put<K(==, !new), V>(d: Dict<K, V>, k: K, v: V): (r: Dict<K, V>)
    ensures WellFormed(d) ==> WellFormed(r)
  {
    Dict(if k in d.vals then d.keys else d.keys + [k], d.vals[k := v])
  }

  function Without<T(==, !new)>(s: seq<T>, x: T): (r: seq<T>)
    ensures forall y :: y in r <==> y in s && y != x
    ensures Distinct(s) ==> Distinct(r)
  {
    if s == [] then []
    else if s[0] == x then Without(s[1..], x)
    else
      var rest := Without(s[1..], x);
      assert Distinct(s) ==> s[0] !in s[1..] by {
        if Distinct(s) {
          forall j | 0 <= j < |s| - 1 ensures s[1..][j] != s[0] {
            assert s[1..][j] == s[j + 1];
          }
        }
      }
      [s[0]] + rest
  }

  /** Python `del d[k]`. */
  function Remove<K(==, !new), V>(d: Dict<K, V>, k: K): (r: Dict<K, V>)
    ensures WellFormed(d) ==> WellFormed(r)
  {
    Dict(Without(d.keys, k), d.vals - {k})
  }

  /** The keys of a sequence of key/value pairs (Python `[k for k, _ in items]`). */
  function KeysOf<K(==, !new), V>(ps: seq<(K, V)>): (ks: seq<K>)
    ensures |ks| == |ps|
    ensures forall i :: 0 <= i < |ps| ==> ks[i] == ps[i].0
  {
    seq(|ps|, i requires 0 <= i < |ps| => ps[i].0)
  }

  lemma KeysOfSnoc<K(!new), V>(ps: seq<(K, V)>)
    requires |ps| > 0
    ensures KeysOf(ps) == KeysOf(ps[..|ps| - 1]) + [ps[|ps| - 1].0]
  {
  }

  // ---------------------------------------------------------------------------
  // Last write wins: `for k, v in pairs: d[k] = v`
  // ---------------------------------------------------------------------------

  function PutAll<K(==, !new), V>(d: Dict<K, V>, ps: seq<(K, V)>): (r: Dict<K, V>)
    ensures WellFormed(d) ==> WellFormed(r)
    decreases |ps|
  {
    if ps == [] then d
    else
      var last := ps[|ps| - 1];
      Put(PutAll(d, ps[..|ps| - 1]), last.0, last.1)
  }

  /** One more pair is one more write. */
  lemma PutAllStep<K(!new), V>(d: Dict<K, V>, ps: seq<(K, V)>, i: int)
    requires 0 <= i < |ps|
    ensures PutAll(d, ps[..i + 1]) == Put(PutAll(d, ps[..i]), ps[i].0, ps[i].1)
  {
    assert ps[..i + 1][..i] == ps[..i];
  }

  /** The keys afterwards are the old keys and the keys written. */
  lemma {:induction false} PutAllDomain<K(!new), V>(d: Dict<K, V>, ps: seq<(K, V)>)
    ensures forall k :: k in PutAll(d, ps).vals <==> k in d.vals || k in KeysOf(ps)
    decreases |ps|
  {
    if ps != [] {
      PutAllDomain(d, ps[..|ps| - 1]);
      KeysOfSnoc(ps);
    }
  }

  /** A key's value is the one written by its last pair. */
  lemma {:induction false} PutAllLastWins<K(!new), V>(d: Dict<K, V>, ps: seq<(K, V)>, i: int)
    requires 0 <= i < |ps|
    requires forall j :: i < j < |ps| ==> ps[j].0 != ps[i].0
    ensures ps[i].0 in PutAll(d, ps).vals && PutAll(d, ps).vals[ps[i].0] == ps[i].1
    decreases |ps|
  {
    if i < |ps| - 1 {
      PutAllLastWins(d, ps[..|ps| - 1], i);
    }
  }

  /** A key that no pair writes keeps its old value, or stays absent. */
  lemma {:induction false} PutAllUntouched<K(!new), V>(d: Dict<K, V>, ps: seq<(K, V)>, k: K)
    requires k !in KeysOf(ps)
    ensures k in PutAll(d, ps).vals <==> k in d.vals
    ensures k in d.vals ==> PutAll(d, ps).vals[k] == d.vals[k]
    decreases |ps|
  {
    if ps != [] {
      KeysOfSnoc(ps);
      PutAllUntouched(d, ps[..|ps| - 1], k);
    }
  }

  // ---------------------------------------------------------------------------
  // First write wins: `for k, v in pairs: if k not in d: d[k] = v`
  // ---------------------------------------------------------------------------

  function PutAbsent<K(==, !new), V>(d: Dict<K, V>, k: K, v: V): Dict<K, V> {
    if k in d.vals then d else Put(d, k, v)
  }

  function PutAllAbsent<K(==, !new), V>(d: Dict<K, V>, ps: seq<(K, V)>): (r: Dict<K, V>)
    ensures WellFormed(d) ==> WellFormed(r)
    decreases |ps|
  {
    if ps == [] then d
    else
      var last := ps[|ps| - 1];
      PutAbsent(PutAllAbsent(d, ps[..|ps| - 1]), last.0, last.1)
  }

  /** The keys afterwards are the old keys and the keys offered. */
  lemma {:induction false} PutAllAbsentDomain<K(!new), V>(d: Dict<K, V>, ps: seq<(K, V)>)
    ensures forall k :: k in PutAllAbsent(d, ps).vals <==> k in d.vals || k in KeysOf(ps)
    decreases |ps|
  {
    if ps != [] {
      PutAllAbsentDomain(d, ps[..|ps| - 1]);
      KeysOfSnoc(ps);
    }
  }

  /** An entry that was already present is never overwritten. */
  lemma {:induction false} PutAllAbsentKeeps<K(!new), V>(d: Dict<K, V>, ps: seq<(K, V)>, k: K)
    requires k in d.vals
    ensures k in PutAllAbsent(d, ps).vals && PutAllAbsent(d, ps).vals[k] == d.vals[k]
    decreases |ps|
  {
    if ps != [] {
      PutAllAbsentKeeps(d, ps[..|ps| - 1], k);
    }
  }

  /** A key that was absent gets the value of its first pair. */
  lemma {:induction false} PutAllAbsentFirstWins<K(!new), V>(d: Dict<K, V>, ps: seq<(K, V)>, i: int)
    requires 0 <= i < |ps| && ps[i].0 !in d.vals
    requires forall j :: 0 <= j < i ==> ps[j].0 != ps[i].0
    ensures ps[i].0 in PutAllAbsent(d, ps).vals && PutAllAbsent(d, ps).vals[ps[i].0] == ps[i].1
    decreases |ps|
  {
    var init := ps[..|ps| - 1];
    if i == |ps| - 1 {
      PutAllAbsentDomain(d, init);
      assert ps[i].0 !in KeysOf(init);
    } else {
      PutAllAbsentFirstWins(d, init, i);
    }
  }

  /** A key that no pair offers keeps its old value, or stays absent. */
  lemma {:induction false} PutAllAbsentUntouched<K(!new), V>(d: Dict<K, V>, ps: seq<(K, V)>, k: K)
    requires k !in KeysOf(ps)
    ensures k in PutAllAbsent(d, ps).vals <==> k in d.vals
    ensures k in d.vals ==> PutAllAbsent(d, ps).vals[k] == d.vals[k]
    decreases |ps|
  {
    if ps != [] {
      KeysOfSnoc(ps);
      PutAllAbsentUntouched(d, ps[..|ps| - 1], k);
    }
  }

  // ---------------------------------------------------------------------------
  // Buckets: `for k, v in pairs: if k not in d: d[k] = []; d[k].append(v)`
  // ---------------------------------------------------------------------------

  /** `d.setdefault(k, []).extend(vs)` */
  function Extend<K(==, !new), V>(d: Dict<K, seq<V>>, k: K, vs: seq<V>): Dict<K, seq<V>> {
    Put(d, k, (if k in d.vals then d.vals[k] else []) + vs)
  }

  function GroupAll<K(==, !new), V>(d: Dict<K, seq<V>>, ps: seq<(K, V)>): (r: Dict<K, seq<V>>)
    ensures WellFormed(d) ==> WellFormed(r)
    decreases |ps|
  {
    if ps == [] then d
    else
      var last := ps[|ps| - 1];
      Extend(GroupAll(d, ps[..|ps| - 1]), last.0, [last.1])
  }

  /** The values paired with `k`, in order (Python `[v for k2, v in pairs if k2 == k]`). */
  function ValuesAt<K(==, !new), V>(ps: seq<(K, V)>, k: K): seq<V>
    decreases |ps|
  {
    if ps == [] then []
    else
      var last := ps[|ps| - 1];
      ValuesAt(ps[..|ps| - 1], k) + if last.0 == k then [last.1] else []
  }

  /** Each bucket is its old contents followed by the values paired with its key,
      in input order; the buckets are the old ones and one per key met. */
  lemma {:induction false} GroupAllAt<K(!new), V>(d: Dict<K, seq<V>>, ps: seq<(K, V)>, k: K)
    ensures k in GroupAll(d, ps).vals <==> k in d.vals || k in KeysOf(ps)
    ensures k in GroupAll(d, ps).vals ==>
      GroupAll(d, ps).vals[k] == (if k in d.vals then d.vals[k] else []) + ValuesAt(ps, k)
    ensures k !in KeysOf(ps) ==> ValuesAt(ps, k) == []
    decreases |ps|
  {
    if ps != [] {
      KeysOfSnoc(ps);
      GroupAllAt(d, ps[..|ps| - 1], k);
    }
  }

  /** Selecting by key distributes over concatenation: input order is kept. */
  lemma {:induction false} ValuesAtAppend<K(!new), V>(ps: seq<(K, V)>, qs: seq<(K, V)>, k: K)
    ensures ValuesAt(ps + qs, k) == ValuesAt(ps, k) + ValuesAt(qs, k)
    decreases |qs|
  {
    if qs != [] {
      var all := ps + qs;
      assert all[..|all| - 1] == ps + qs[..|qs| - 1];
      ValuesAtAppend(ps, qs[..|qs| - 1], k);
    } else {
      assert ps + qs == ps;
    }
  }

  /** A value is in the bucket of `k` exactly when it was paired with `k`. */
  lemma {:induction false} ValuesAtMember<K(!new), V>(ps: seq<(K, V)>, k: K, v: V)
    ensures v in ValuesAt(ps, k) <==> (k, v) in ps
    decreases |ps|
  {
    if ps != [] {
      var init := ps[..|ps| - 1];
      ValuesAtMember(init, k, v);
      assert ps == init + [ps[|ps| - 1]];
    }
  }

  /** The bucket of `k` has one value per occurrence of `k`; summed over all
      keys the bucket sizes therefore add up to the number of pairs. */
  lemma {:induction false} ValuesAtCount<K(!new), V>(ps: seq<(K, V)>, k: K)
    ensures |ValuesAt(ps, k)| == multiset(KeysOf(ps))[k]
    decreases |ps|
  {
    if ps != [] {
      KeysOfSnoc(ps);
      ValuesAtCount(ps[..|ps| - 1], k);
    }
  }

  // ---------------------------------------------------------------------------
  // Totals: the sizes of all values, added up in key order
  // ---------------------------------------------------------------------------

  function SumOver<K(==, !new), V>(ks: seq<K>, vals: map<K, V>, size: V -> nat): nat
    decreases |ks|
  {
    if ks == [] then 0
    else
      var k := ks[|ks| - 1];
      SumOver(ks[..|ks| - 1], vals, size) + if k in vals then size(vals[k]) else 0
  }

  /** The sizes of all the values of a dictionary, added up. */
  function Total<K(==, !new), V>(d: Dict<K, V>, size: V -> nat): nat {
    SumOver(d.keys, d.vals, size)
  }

  function Len<V>(s: seq<V>): nat {
    |s|
  }

  lemma {:induction false} SumOverOther<K(!new), V>(ks: seq<K>, vals: map<K, V>, size: V -> nat, k: K, v: V)
    requires k !in ks
    ensures SumOver(ks, vals[k := v], size) == SumOver(ks, vals, size)
    decreases |ks|
  {
    if ks != [] {
      SumOverOther(ks[..|ks| - 1], vals, size, k, v);
    }
  }

  lemma {:induction false} SumOverUpdate<K(!new), V>(ks: seq<K>, vals: map<K, V>, size: V -> nat, k: K, v: V)
    requires Distinct(ks) && k in ks && k in vals
    ensures SumOver(ks, vals[k := v], size) + size(vals[k]) == SumOver(ks, vals, size) + size(v)
    decreases |ks|
  {
    var init := ks[..|ks| - 1];
    if ks[|ks| - 1] == k {
      assert k !in init;
      SumOverOther(init, vals, size, k, v);
    } else {
      assert k in init;
      assert Distinct(init);
      SumOverUpdate(init, vals, size, k, v);
    }
  }

  /** Writing a value changes the total by the difference in size; a new key adds its size. */
  lemma PutTotal<K(!new), V>(d: Dict<K, V>, size: V -> nat, k: K, v: V)
    requires WellFormed(d)
    ensures k in d.vals ==> Total(Put(d, k, v), size) + size(d.vals[k]) == Total(d, size) + size(v)
    ensures k !in d.vals ==> Total(Put(d, k, v), size) == Total(d, size) + size(v)
  {
    if k in d.vals {
      SumOverUpdate(d.keys, d.vals, size, k, v);
    } else {
      var ks := d.keys + [k];
      assert ks[..|ks| - 1] == d.keys;
      SumOverOther(d.keys, d.vals, size, k, v);
    }
  }

  /** Every pair lands in exactly one bucket: the buckets grow by the number of pairs. */
  lemma {:induction false} GroupAllTotal<K(!new), V>(d: Dict<K, seq<V>>, ps: seq<(K, V)>)
    requires WellFormed(d)
    ensures Total(GroupAll(d, ps), Len) == Total(d, Len) + |ps|
    decreases |ps|
  {
    if ps != [] {
      var init := ps[..|ps| - 1];
      var g := GroupAll(d, init);
      var k := ps[|ps| - 1].0;
      GroupAllTotal(d, init);
      PutTotal(g, Len, k, (if k in g.vals then g.vals[k] else []) + [ps[|ps| - 1].1]);
    }
  }

  // ---------------------------------------------------------------------------
  // Keyed collection with a filter: `for x in xs: if keep(x): d[key(x)] = value(x)`
  // ---------------------------------------------------------------------------

  /** The pairs actually written, given one optional pair per input element. */
  function Somes<K, V>(ops: seq<Option<(K, V)>>): seq<(K, V)>
    decreases |ops|
  {
    if ops == [] then []
    else Somes(ops[..|ops| - 1]) + if ops[|ops| - 1].Some? then [ops[|ops| - 1].value] else []
  }

  /** One more element: a kept pair is written, a dropped one changes nothing. */
  lemma PutAllSomesStep<K(!new), V>(d: Dict<K, V>, ops: seq<Option<(K, V)>>, i: int)
    requires 0 <= i < |ops|
    ensures PutAll(d, Somes(ops[..i + 1])) ==
      if ops[i].Some? then Put(PutAll(d, Somes(ops[..i])), ops[i].value.0, ops[i].value.1)
      else PutAll(d, Somes(ops[..i]))
  {
    var prefix := ops[..i + 1];
    assert prefix[..|prefix| - 1] == ops[..i];
    assert prefix[|prefix| - 1] == ops[i];
    var ps := Somes(prefix);
    if ops[i].Some? {
      assert ps == Somes(ops[..i]) + [ops[i].value];
      assert ps[..|ps| - 1] == Somes(ops[..i]);
    } else {
      assert Somes(ops[..i]) + [] == Somes(ops[..i]);
      assert ps == Somes(ops[..i]);
    }
  }

  /** A key is present afterwards iff it was before or some kept element has it. */
  lemma {:induction false} PutAllSomesDomain<K(!new), V>(d: Dict<K, V>, ops: seq<Option<(K, V)>>, k: K)
    ensures k in PutAll(d, Somes(ops)).vals <==>
      k in d.vals || exists i :: 0 <= i < |ops| && ops[i].Some? && ops[i].value.0 == k
    decreases |ops|
  {
    PutAllDomain(d, Somes(ops));
    if ops != [] {
      var init := ops[..|ops| - 1];
      PutAllSomesDomain(d, init, k);
      PutAllDomain(d, Somes(init));
      if ops[|ops| - 1].Some? {
        KeysOfSnoc(Somes(ops));
        assert Somes(ops)[..|Somes(ops)| - 1] == Somes(init);
      } else {
        assert Somes(ops) == Somes(init);
      }
    }
  }

  /** A key holds the value of the last kept element with that key. */
  lemma {:induction false} PutAllSomesLastWins<K(!new), V>(d: Dict<K, V>, ops: seq<Option<(K, V)>>, i: int)
    requires 0 <= i < |ops| && ops[i].Some?
    requires forall j :: i < j < |ops| && ops[j].Some? ==> ops[j].value.0 != ops[i].value.0
    ensures ops[i].value.0 in PutAll(d, Somes(ops)).vals
    ensures PutAll(d, Somes(ops)).vals[ops[i].value.0] == ops[i].value.1
    decreases |ops|
  {
    var init := ops[..|ops| - 1];
    if i < |ops| - 1 {
      PutAllSomesLastWins(d, init, i);
      if ops[|ops| - 1].Some? {
        assert Somes(ops) == Somes(init) + [ops[|ops| - 1].value];
        assert Somes(ops)[..|Somes(ops)| - 1] == Somes(init);
      } else {
        assert Somes(ops) == Somes(init);
      }
    } else {
      assert Somes(ops) == Somes(init) + [ops[i].value];
      assert Somes(ops)[..|Somes(ops)| - 1] == Somes(init);
    }
  }

  // ---------------------------------------------------------------------------
  // Running a loop over two runs of pairs is running it over the first, then the second
  // ---------------------------------------------------------------------------

  lemma {:induction false} PutAllAbsentAppend<K(!new), V>(d: Dict<K, V>, xs: seq<(K, V)>, ys: seq<(K, V)>)
    ensures PutAllAbsent(d, xs + ys) == PutAllAbsent(PutAllAbsent(d, xs), ys)
    decreases |ys|
  {
    if ys == [] {
      assert xs + ys == xs;
    } else {
      var all := xs + ys;
      assert all[..|all| - 1] == xs + ys[..|ys| - 1];
      PutAllAbsentAppend(d, xs, ys[..|ys| - 1]);
    }
  }

  lemma {:induction false} GroupAllAppend<K(!new), V>(d: Dict<K, seq<V>>, xs: seq<(K, V)>, ys: seq<(K, V)>)
    ensures GroupAll(d, xs + ys) == GroupAll(GroupAll(d, xs), ys)
    decreases |ys|
  {
    if ys == [] {
      assert xs + ys == xs;
    } else {
      var all := xs + ys;
      var init := ys[..|ys| - 1];
      assert all[..|all| - 1] == xs + init;
      assert all[|all| - 1] == ys[|ys| - 1];
      GroupAllAppend(d, xs, init);
    }
  }

  // ---------------------------------------------------------------------------
  // A dictionary object updated in place
  // ---------------------------------------------------------------------------

  class Table<K(==, !new), V> {
    var keys: seq<K>
    var vals: map<K, V>

    function View(): Dict<K, V>
      reads this
    {
      Dict(keys, vals)
    }

    ghost predicate Valid()
      reads this
    {
      WellFormed(View())
    }

    constructor (d: Dict<K, V>)
      requires WellFormed(d)
      ensures Valid() && View() == d
    {
      keys := d.keys;
      vals := d.vals;
    }

    /** `table[k] = v` */
    method Set(k: K, v: V)
      requires Valid()
      modifies this
      ensures Valid() && View() == Put(old(View()), k, v)
    {
      if k !in vals {
        keys := keys + [k];
      }
      vals := vals[k := v];
    }

    /** `del table[k]` */
    method Delete(k: K)
      requires Valid()
      modifies this
      ensures Valid() && View() == Remove(old(View()), k)
    {
      keys := Without(keys, k);
      vals := vals - {k};
    }
  }
}
