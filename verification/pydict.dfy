/**
 * Python's `dict` as the converters use it: keys remember the order of their first insertion,
 * and assigning to an existing key replaces its value in place.
 */
module PyDict {
  import opened Results
  import opened Seqs
  import opened Ranking

  datatype Dict<K(==,!new), V> = Dict(keys: seq<K>, vals: map<K, V>)
  {
    ghost predicate Valid()
    {
      && NoDup(keys)
      && (forall k :: k in vals <==> k in keys)
    }

    /** `d[k] = v`. */
    function Put(k: K, v: V): (d: Dict<K, V>)
      requires Valid()
      ensures d.Valid()
      ensures d.vals == vals[k := v]
      ensures d.keys == if k in keys then keys else keys + [k]
    {
      if k in vals then Dict(keys, vals[k := v]) else Dict(keys + [k], vals[k := v])
    }
  }

  function Empty<K(==,!new), V>(): (d: Dict<K, V>)
    ensures d.Valid()
  {
    Dict([], map[])
  }

  /** The keys of a list of assignments, in assignment order. */
  function KeysOf<K, V>(pairs: seq<(K, V)>): (ks: seq<K>)
    ensures |ks| == |pairs|
    ensures forall i :: 0 <= i < |pairs| ==> ks[i] == pairs[i].0
  {
    if pairs == [] then [] else KeysOf(pairs[..|pairs| - 1]) + [pairs[|pairs| - 1].0]
  }

  /** The value of the last assignment to `k`. */
  function LastValue<K(==,!new), V>(pairs: seq<(K, V)>, k: K): V
    requires k in KeysOf(pairs)
  {
    var last := pairs[|pairs| - 1];
    if last.0 == k then last.1
    else
      assert KeysOf(pairs) == KeysOf(pairs[..|pairs| - 1]) + [last.0];
      LastValue(pairs[..|pairs| - 1], k)
  }

  /** The value of the last assignment to `k` is that of the last pair holding `k`. */
  lemma {:induction false} LastValueAt<K(!new), V>(pairs: seq<(K, V)>, k: K)
    requires k in KeysOf(pairs)
    ensures exists j :: 0 <= j < |pairs| && pairs[j] == (k, LastValue(pairs, k)) &&
                        forall l :: j < l < |pairs| ==> pairs[l].0 != k
  {
    var last := pairs[|pairs| - 1];
    if last.0 != k {
      var init := pairs[..|pairs| - 1];
      assert KeysOf(pairs) == KeysOf(init) + [last.0];
      LastValueAt(init, k);
      var j :| 0 <= j < |init| && init[j] == (k, LastValue(init, k)) &&
               forall l :: j < l < |init| ==> init[l].0 != k;
      assert pairs[j] == init[j];
    }
  }

  /** The value of the first assignment to `k`. */
  function FirstValue<K(==,!new), V>(pairs: seq<(K, V)>, k: K): V
    requires k in KeysOf(pairs)
  {
    var init := pairs[..|pairs| - 1];
    assert KeysOf(pairs) == KeysOf(init) + [pairs[|pairs| - 1].0];
    if k in KeysOf(init) then FirstValue(init, k) else pairs[|pairs| - 1].1
  }

  /** One more assignment keeps every earlier first value, and gives a new key its value. */
  lemma FirstValueSnoc<K(!new), V>(pairs: seq<(K, V)>, k: K, v: V)
    ensures KeysOf(pairs + [(k, v)]) == KeysOf(pairs) + [k]
    ensures forall x :: x in KeysOf(pairs) ==> FirstValue(pairs + [(k, v)], x) == FirstValue(pairs, x)
    ensures k !in KeysOf(pairs) ==> FirstValue(pairs + [(k, v)], k) == v
  {
    assert (pairs + [(k, v)])[..|pairs|] == pairs;
  }

  /** The value of the first assignment to `k` is that of the first pair holding `k`. */
  lemma {:induction false} FirstValueAt<K(!new), V>(pairs: seq<(K, V)>, k: K)
    requires k in KeysOf(pairs)
    ensures exists j :: 0 <= j < |pairs| && pairs[j] == (k, FirstValue(pairs, k)) &&
                        forall l :: 0 <= l < j ==> pairs[l].0 != k
  {
    var init := pairs[..|pairs| - 1];
    assert KeysOf(pairs) == KeysOf(init) + [pairs[|pairs| - 1].0];
    if k in KeysOf(init) {
      FirstValueAt(init, k);
      var j :| 0 <= j < |init| && init[j] == (k, FirstValue(init, k)) &&
               forall l :: 0 <= l < j ==> init[l].0 != k;
      assert pairs[j] == init[j];
    } else {
      assert forall l :: 0 <= l < |init| ==> init[l].0 == KeysOf(init)[l];
    }
  }

  /**
   * The dict left by performing the assignments `d[k] = v` in order, starting from `{}`: its keys
   * are the distinct keys in first-assignment order and each holds its last assigned value.
   */
  function Tabulate<K(==,!new), V>(pairs: seq<(K, V)>): (d: Dict<K, V>)
    ensures d.Valid()
    ensures d.keys == Dedup(KeysOf(pairs))
    ensures forall k :: k in d.vals ==> k in KeysOf(pairs) && d.vals[k] == LastValue(pairs, k)
  {
    if pairs == [] then Empty()
    else
      var init := pairs[..|pairs| - 1];
      var last := pairs[|pairs| - 1];
      assert KeysOf(pairs) == KeysOf(init) + [last.0];
      DedupSnoc(KeysOf(init), last.0);
      Tabulate(init).Put(last.0, last.1)
  }

  /** The values of a dict in key order. */
  function Values<K(==,!new), V>(d: Dict<K, V>): (vs: seq<V>)
    requires d.Valid()
    ensures |vs| == |d.keys|
    ensures forall i :: 0 <= i < |vs| ==> vs[i] == d.vals[d.keys[i]]
  {
    seq(|d.keys|, i requires 0 <= i < |d.keys| => d.vals[d.keys[i]])
  }

  /**
   * Python's `max(d, key=d.get)`: `None` for the `ValueError` an empty dict raises, otherwise the
   * earliest-inserted key whose value is maximal.
   */
  function MaxKey<K(==,!new)>(d: Dict<K, ExtReal>): (r: Option<K>)
    requires d.Valid()
    ensures r.None? <==> d.keys == []
    ensures r.Some? ==> r.value in d.vals
    ensures r.Some? ==> forall k :: k in d.vals ==> AtMost(d.vals[k], d.vals[r.value])
    ensures r.Some? ==> forall i, j :: 0 <= j < i < |d.keys| && d.keys[i] == r.value ==>
                          Less(d.vals[d.keys[j]], d.vals[r.value])
  {
    if d.keys == [] then None
    else
      var vs := Values(d);
      var i := FirstMaxIndex(vs);
      assert forall k :: k in d.vals ==> AtMost(d.vals[k], vs[i]) by {
        forall k | k in d.vals ensures AtMost(d.vals[k], vs[i]) {
          var j :| 0 <= j < |d.keys| && d.keys[j] == k;
          assert vs[j] == d.vals[k];
        }
      }
      Some(d.keys[i])
  }

  /**
   * Perform the assignments `d[k] = v` in order on an empty dict, then take `max(d, key=d.get)`:
   * `None` when there were no assignments, otherwise the earliest-assigned key whose last assigned
   * value is maximal.
   */
  function BestKey<K(==,!new)>(pairs: seq<(K, ExtReal)>): (r: Option<K>)
    ensures r.None? <==> pairs == []
    ensures r.Some? ==> r.value in KeysOf(pairs)
    ensures r.Some? ==> forall i :: 0 <= i < |pairs| ==>
                          AtMost(LastValue(pairs, pairs[i].0), LastValue(pairs, r.value))
    ensures r.Some? ==> forall i, j :: 0 <= j < i < |Dedup(KeysOf(pairs))| && Dedup(KeysOf(pairs))[i] == r.value ==>
                          Less(LastValue(pairs, Dedup(KeysOf(pairs))[j]), LastValue(pairs, r.value))
  {
    var d := Tabulate(pairs);
    assert pairs != [] ==> KeysOf(pairs)[0] in d.keys;
    var r := MaxKey(d);
    assert r.Some? ==> forall i :: 0 <= i < |pairs| ==>
        AtMost(LastValue(pairs, pairs[i].0), LastValue(pairs, r.value)) by {
      if r.Some? {
        forall i | 0 <= i < |pairs|
          ensures AtMost(LastValue(pairs, pairs[i].0), LastValue(pairs, r.value))
        {
          assert KeysOf(pairs)[i] == pairs[i].0;
          assert pairs[i].0 in d.vals;
        }
      }
    }
    assert r.Some? ==> forall i, j :: 0 <= j < i < |d.keys| && d.keys[i] == r.value ==>
        Less(LastValue(pairs, d.keys[j]), LastValue(pairs, r.value)) by {
      if r.Some? {
        forall i, j | 0 <= j < i < |d.keys| && d.keys[i] == r.value
          ensures Less(LastValue(pairs, d.keys[j]), LastValue(pairs, r.value))
        {
          assert d.keys[j] in d.vals;
        }
      }
    }
    r
  }

  /** An infinite last assignment that no other assignment reaches wins the `max`. */
  lemma BestKeyOfTop<K(!new)>(pairs: seq<(K, ExtReal)>, k: K)
    requires |pairs| > 0 && pairs[|pairs| - 1] == (k, PosInf)
    requires forall j :: 0 <= j < |pairs| - 1 ==> pairs[j].1 != PosInf
    ensures BestKey(pairs) == Some(k)
  {
    var last := |pairs| - 1;
    assert KeysOf(pairs)[last] == k;
    var r := BestKey(pairs);
    assert AtMost(LastValue(pairs, pairs[last].0), LastValue(pairs, r.value));
    LastValueAt(pairs, r.value);
  }
}
