/** Python's `dict` with string keys, as the parsers build it: an
    insertion-ordered sequence of entries. Assigning to a present key keeps its
    position and replaces the value; assigning to a new key appends it. */
module PyDict {
  import opened Wrappers

  type Dict<V> = seq<(string, V)>

  function Keys<V>(d: Dict<V>): (ks: seq<string>)
    ensures |ks| == |d| && forall i :: 0 <= i < |d| ==> ks[i] == d[i].0
  {
    if d == [] then [] else [d[0].0] + Keys(d[1..])
  }

  function Values<V>(d: Dict<V>): (vs: seq<V>)
    ensures |vs| == |d| && forall i :: 0 <= i < |d| ==> vs[i] == d[i].1
  {
    if d == [] then [] else [d[0].1] + Values(d[1..])
  }

  /** The dict whose keys are `ks` and whose values are `vs`, pair by pair,
      as a dict display with one entry per key writes it. */
  function Zip<V>(ks: seq<string>, vs: seq<V>): (d: Dict<V>)
    requires |ks| == |vs|
    ensures Keys(d) == ks && Values(d) == vs
  {
    seq(|ks|, i requires 0 <= i < |ks| => (ks[i], vs[i]))
  }

  /** No key occurs twice, as in every Python dict. */
  predicate UniqueKeys<V>(d: Dict<V>) {
    forall i, j :: 0 <= i < j < |d| ==> d[i].0 != d[j].0
  }

  /** `d.get(k)`: the value stored under `k`, or `None` when `k` is absent. */
  function Get<V>(d: Dict<V>, k: string): (r: Option<V>)
    ensures r.None? <==> k !in Keys(d)
    ensures r.Some? ==> (k, r.value) in d
  {
    if d == [] then None
    else if d[0].0 == k then Some(d[0].1)
    else Get(d[1..], k)
  }

  /** In a dict with unique keys, the entry at position `i` is what `Get` finds. */
  lemma {:induction false} GetAt<V>(d: Dict<V>, i: int)
    requires UniqueKeys(d) && 0 <= i < |d|
    ensures Get(d, d[i].0) == Some(d[i].1)
  {
    if i > 0 {
      assert d[1..][i - 1] == d[i];
      GetAt(d[1..], i - 1);
    }
  }

  /** `d[k] = v`. */
  function Set<V>(d: Dict<V>, k: string, v: V): (r: Dict<V>)
    ensures Keys(r) == if k in Keys(d) then Keys(d) else Keys(d) + [k]
    ensures Get(r, k) == Some(v)
    ensures forall k' :: k' != k ==> Get(r, k') == Get(d, k')
  {
    if d == [] then [(k, v)]
    else if d[0].0 == k then [(k, v)] + d[1..]
    else
      var rest := Set(d[1..], k, v);
      var r := [d[0]] + rest;
      assert Keys(r) == [d[0].0] + Keys(rest);
      assert Keys(d) == [d[0].0] + Keys(d[1..]);
      assert k in Keys(d) <==> k in Keys(d[1..]);
      r
  }

  /** Assignment keeps the keys unique. */
  lemma SetUnique<V>(d: Dict<V>, k: string, v: V)
    requires UniqueKeys(d)
    ensures UniqueKeys(Set(d, k, v))
  {
    var r := Set(d, k, v);
    forall i, j | 0 <= i < j < |r|
      ensures r[i].0 != r[j].0
    {
      assert Keys(r)[i] == r[i].0 && Keys(r)[j] == r[j].0;
      if k !in Keys(d) && j == |d| {
        assert Keys(d)[i] == d[i].0;
      } else {
        assert Keys(d)[i] == d[i].0 && Keys(d)[j] == d[j].0;
      }
    }
  }

  /** `d[k] = v` for each pair in turn. */
  function SetAll<V>(d: Dict<V>, kvs: seq<(string, V)>): Dict<V> {
    if kvs == [] then d
    else
      var last := kvs[|kvs| - 1];
      Set(SetAll(d, kvs[..|kvs| - 1]), last.0, last.1)
  }

  /** The value of the last pair with key `k`. */
  function LastValue<V>(kvs: seq<(string, V)>, k: string): (r: Option<V>)
    ensures r.Some? ==> exists i :: 0 <= i < |kvs| && kvs[i] == (k, r.value)
    ensures r.None? ==> forall i :: 0 <= i < |kvs| ==> kvs[i].0 != k
  {
    if kvs == [] then None
    else if kvs[|kvs| - 1].0 == k then Some(kvs[|kvs| - 1].1)
    else
      var init := kvs[..|kvs| - 1];
      var r := LastValue(init, k);
      assert forall i :: 0 <= i < |init| ==> init[i] == kvs[i];
      r
  }

  /** Last write wins: after assigning a sequence of pairs, a key holds the
      value of its last pair, or what it held before when no pair has it. */
  lemma {:induction false} GetSetAll<V>(d: Dict<V>, kvs: seq<(string, V)>, k: string)
    ensures Get(SetAll(d, kvs), k) == if LastValue(kvs, k).Some? then LastValue(kvs, k) else Get(d, k)
  {
    if kvs != [] {
      GetSetAll(d, kvs[..|kvs| - 1], k);
    }
  }

  lemma SetAllSnoc<V>(d: Dict<V>, kvs: seq<(string, V)>, x: (string, V))
    ensures SetAll(d, kvs + [x]) == Set(SetAll(d, kvs), x.0, x.1)
  {
    var s := kvs + [x];
    assert s[..|s| - 1] == kvs;
  }

  /** Assigning `a + b` is assigning `a`, then `b`. */
  lemma {:induction false} SetAllAppend<V>(d: Dict<V>, a: seq<(string, V)>, b: seq<(string, V)>)
    ensures SetAll(d, a + b) == SetAll(SetAll(d, a), b)
  {
    if b == [] {
      assert a + b == a;
    } else {
      var init, x := b[..|b| - 1], b[|b| - 1];
      assert b == init + [x];
      assert a + b == (a + init) + [x];
      SetAllAppend(d, a, init);
      SetAllSnoc(d, a + init, x);
      SetAllSnoc(SetAll(d, a), init, x);
    }
  }
}
