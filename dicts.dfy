/**
 * Python dictionaries with string keys. A `dict` remembers insertion order,
 * and the auditor iterates over several of them (`evidences`,
 * `opinions_by_criterion`, `final_verdicts`), so a dict is modelled as its
 * list of items in iteration order.
 */
module Dicts {
  import opened Wrappers

  type Dict<V> = seq<(string, V)>

  /** No key appears twice, which every real `dict` satisfies. */
  predicate DistinctKeys<V>(d: Dict<V>) {
    forall i, j :: 0 <= i < j < |d| ==> d[i].0 != d[j].0
  }

  function Keys<V>(d: Dict<V>): (r: set<string>)
    ensures forall i :: 0 <= i < |d| ==> d[i].0 in r
    ensures forall k :: k in r ==> exists i :: 0 <= i < |d| && d[i].0 == k
  {
    if d == [] then {} else {d[0].0} + Keys(d[1..])
  }

  lemma FirstKeyNotInRest<V>(d: Dict<V>)
    requires DistinctKeys(d) && d != []
    ensures d[0].0 !in Keys(d[1..])
  {
  }

  /** `list(d.keys())`. */
  function KeyList<V>(d: Dict<V>): (r: seq<string>)
    ensures |r| == |d|
    ensures forall i :: 0 <= i < |d| ==> r[i] == d[i].0
  {
    if d == [] then [] else [d[0].0] + KeyList(d[1..])
  }

  /** `d.get(k)`: the value of the first item with key `k`. */
  function Get<V>(d: Dict<V>, k: string): (r: Option<V>)
    ensures r.None? <==> k !in Keys(d)
    ensures r.Some? ==> exists i :: 0 <= i < |d| && d[i] == (k, r.value)
  {
    if d == [] then None
    else if d[0].0 == k then Some(d[0].1)
    else Get(d[1..], k)
  }

  lemma GetAt<V>(d: Dict<V>, i: nat)
    requires DistinctKeys(d) && i < |d|
    ensures Get(d, d[i].0) == Some(d[i].1)
  {
    if i > 0 {
      GetAt(d[1..], i - 1);
    }
  }

  /** `d[k] = v`: an existing key keeps its place, a new key goes last. */
  function Put<V>(d: Dict<V>, k: string, v: V): (r: Dict<V>)
    ensures Keys(r) == Keys(d) + {k}
    ensures Get(r, k) == Some(v)
    ensures forall k' :: k' != k ==> Get(r, k') == Get(d, k')
  {
    if d == [] then [(k, v)]
    else if d[0].0 == k then [(k, v)] + d[1..]
    else [d[0]] + Put(d[1..], k, v)
  }

  /** Where `d[k] = v` puts the item: in place of the old one, or at the end. */
  lemma {:induction false} PutPlace<V>(d: Dict<V>, k: string, v: V)
    ensures k !in Keys(d) ==> Put(d, k, v) == d + [(k, v)]
    ensures k in Keys(d) ==> |Put(d, k, v)| == |d| && forall i :: 0 <= i < |d| ==> Put(d, k, v)[i].0 == d[i].0
  {
    if d != [] && d[0].0 != k {
      PutPlace(d[1..], k, v);
      assert Put(d, k, v) == [d[0]] + Put(d[1..], k, v);
    }
  }

  /** `d[k] = v` keeps the key list, or appends `k` when it is new. */
  lemma {:induction false} KeyListPut<V>(d: Dict<V>, k: string, v: V)
    ensures k in Keys(d) ==> KeyList(Put(d, k, v)) == KeyList(d)
    ensures k !in Keys(d) ==> KeyList(Put(d, k, v)) == KeyList(d) + [k]
  {
    if d != [] && d[0].0 != k {
      KeyListPut(d[1..], k, v);
      assert Put(d, k, v) == [d[0]] + Put(d[1..], k, v);
      assert k in Keys(d) <==> k in Keys(d[1..]);
    }
  }

  /** Appending an item with a new key leaves every other lookup alone. */
  lemma GetAppend<V>(d: Dict<V>, k: string, v: V, c: string)
    requires k !in Keys(d)
    ensures Get(d + [(k, v)], c) == if c == k then Some(v) else Get(d, c)
  {
    PutPlace(d, k, v);
  }

  /** The last key of a dict with distinct keys is none of the earlier ones. */
  lemma DistinctLast<V>(d: Dict<V>)
    requires DistinctKeys(d) && d != []
    ensures DistinctKeys(d[..|d| - 1])
    ensures d[|d| - 1].0 !in Keys(d[..|d| - 1])
  {
    var n := |d| - 1;
    assert forall i :: 0 <= i < n ==> d[..n][i] == d[i];
  }

  /** A new first key in front of a dict with distinct keys keeps them distinct. */
  lemma DistinctCons<V>(x: (string, V), d: Dict<V>)
    requires DistinctKeys(d) && x.0 !in Keys(d)
    ensures DistinctKeys([x] + d)
  {
    var r := [x] + d;
    forall i, j | 0 <= i < j < |r| ensures r[i].0 != r[j].0 {
      if i > 0 {
        assert r[i] == d[i - 1] && r[j] == d[j - 1];
      } else {
        assert r[j] == d[j - 1];
      }
    }
  }

  /** `d[k] = v` keeps the keys distinct. */
  lemma {:induction false} PutDistinct<V>(d: Dict<V>, k: string, v: V)
    ensures DistinctKeys(d) ==> DistinctKeys(Put(d, k, v))
  {
    if DistinctKeys(d) && d != [] {
      FirstKeyNotInRest(d);
      assert DistinctKeys(d[1..]);
      if d[0].0 == k {
        DistinctCons((k, v), d[1..]);
      } else {
        PutDistinct(d[1..], k, v);
        DistinctCons(d[0], Put(d[1..], k, v));
      }
    }
  }

  /** One step of `for k in ks: d[k] = f(k)`: the keys are those seen so far. */
  lemma PutEachKeys<V>(d: Dict<V>, ks: seq<string>, v: V, i: nat)
    requires i < |ks| && forall c :: c in Keys(d) <==> c in ks[..i]
    ensures forall c :: c in Keys(Put(d, ks[i], v)) <==> c in ks[..i + 1]
  {
    assert ks[..i + 1] == ks[..i] + [ks[i]];
  }

  /** One step of `for k in ks: d[k] = f(k)`: each key seen maps to its own value, repeated keys included. */
  lemma PutEachValues<V>(d: Dict<V>, ks: seq<string>, f: string -> V, i: nat)
    requires i < |ks|
    requires forall k :: 0 <= k < i ==> Get(d, ks[k]) == Some(f(ks[k]))
    ensures forall k :: 0 <= k < i + 1 ==> Get(Put(d, ks[i], f(ks[i])), ks[k]) == Some(f(ks[k]))
  {
  }

  /** `d = {}; for k in ks: d[k] = f(k)`. */
  method PutEach<V>(ks: seq<string>, f: string -> V) returns (d: Dict<V>)
    ensures DistinctKeys(d)
    ensures forall c :: c in Keys(d) <==> c in ks
    ensures forall k :: 0 <= k < |ks| ==> Get(d, ks[k]) == Some(f(ks[k]))
  {
    d := [];
    for i := 0 to |ks|
      invariant DistinctKeys(d)
      invariant forall c :: c in Keys(d) <==> c in ks[..i]
      invariant forall k :: 0 <= k < i ==> Get(d, ks[k]) == Some(f(ks[k]))
    {
      PutDistinct(d, ks[i], f(ks[i]));
      PutEachKeys(d, ks, f(ks[i]), i);
      PutEachValues(d, ks, f, i);
      d := Put(d, ks[i], f(ks[i]));
    }
    assert ks[..|ks|] == ks;
  }

  /** `d |= e` (`operator.ior`): every item of `e`, in order, is put into `d`. */
  function UpdateWith<V>(d: Dict<V>, e: Dict<V>): (r: Dict<V>)
    ensures Keys(r) == Keys(d) + Keys(e)
    ensures DistinctKeys(d) ==> DistinctKeys(r)
    ensures forall k :: k !in Keys(e) ==> Get(r, k) == Get(d, k)
    decreases |e|
  {
    if e == [] then d
    else
      var d' := Put(d, e[0].0, e[0].1);
      PutDistinct(d, e[0].0, e[0].1);
      UpdateWith(d', e[1..])
  }

  /** Under `|=`, a key of the right operand takes the right operand's value. */
  lemma {:induction false} UpdateWithRightWins<V>(d: Dict<V>, e: Dict<V>, k: string)
    requires DistinctKeys(e) && k in Keys(e)
    ensures Get(UpdateWith(d, e), k) == Get(e, k)
    decreases |e|
  {
    var d' := Put(d, e[0].0, e[0].1);
    assert Keys(e) == {e[0].0} + Keys(e[1..]);
    if e[0].0 == k {
      FirstKeyNotInRest(e);
    } else {
      assert DistinctKeys(e[1..]);
      UpdateWithRightWins(d', e[1..], k);
    }
  }

  /** A dict's values concatenated in iteration order (`for _, v in d.items(): out.extend(v)`). */
  function ConcatValues<T>(d: Dict<seq<T>>): (r: seq<T>)
    ensures forall i :: 0 <= i < |d| ==> |d[i].1| <= |r|
  {
    if d == [] then [] else d[0].1 + ConcatValues(d[1..])
  }

  lemma ConcatValuesAppend<T>(d: Dict<seq<T>>, k: string, v: seq<T>)
    ensures ConcatValues(d + [(k, v)]) == ConcatValues(d) + v
  {
    if d != [] {
      assert (d + [(k, v)])[1..] == d[1..] + [(k, v)];
      ConcatValuesAppend(d[1..], k, v);
    }
  }
}
