/**
 * Python dicts with string keys: an association list in insertion order, each
 * key at most once. Assigning to an existing key keeps its position.
 */
module Dicts {
  import opened Wrappers
  import opened Sequences

  type Dict<V> = seq<(string, V)>

  function Keys<V>(m: Dict<V>): (r: seq<string>)
    ensures |r| == |m| && forall i :: 0 <= i < |m| ==> r[i] == m[i].0
  {
    if m == [] then [] else Keys(m[..|m| - 1]) + [m[|m| - 1].0]
  }

  /** `d.get(k)`. */
  function Get<V>(m: Dict<V>, k: string): (r: Option<V>)
    ensures r.None? <==> k !in Keys(m)
    ensures r.Some? ==> (k, r.value) in m
  {
    if m == [] then None
    else if m[|m| - 1].0 == k then
      assert m[|m| - 1] == (k, m[|m| - 1].1);
      Some(m[|m| - 1].1)
    else
      var pre := m[..|m| - 1];
      assert Keys(m) == Keys(pre) + [m[|m| - 1].0];
      Get(pre, k)
  }

  /** The position of `k` among the keys. */
  function Position(keys: seq<string>, k: string): (r: nat)
    requires k in keys
    ensures r < |keys| && keys[r] == k
  {
    if keys[|keys| - 1] == k then |keys| - 1 else Position(keys[..|keys| - 1], k)
  }

  /** `d[k] = v`: overwrites in place when `k` is a key, appends it otherwise. */
  function Put<V>(m: Dict<V>, k: string, v: V): (r: Dict<V>)
    requires Distinct(Keys(m))
    ensures Distinct(Keys(r))
    ensures Keys(r) == if k in Keys(m) then Keys(m) else Keys(m) + [k]
    ensures Get(r, k) == Some(v)
    ensures forall k' :: k' != k ==> Get(r, k') == Get(m, k')
  {
    if k in Keys(m) then
      var i := Position(Keys(m), k);
      var r := m[i := (k, v)];
      assert Keys(r) == Keys(m);
      assert forall j :: 0 <= j < |r| && j != i ==> Keys(r)[j] != Keys(r)[i];
      GetDistinct(r, i);
      forall k' | k' != k
        ensures Get(r, k') == Get(m, k')
      {
        GetOther(m, r, k');
      }
      r
    else
      var r := m + [(k, v)];
      assert Keys(r) == Keys(m) + [k];
      assert r[..|r| - 1] == m;
      r
  }

  /** When no other entry has the key of entry `i`, entry `i` is what `Get` finds. */
  lemma GetDistinct<V>(m: Dict<V>, i: nat)
    requires i < |m| && forall j :: 0 <= j < |m| && j != i ==> m[j].0 != m[i].0
    ensures Get(m, m[i].0) == Some(m[i].1)
  {
    var n := |m| - 1;
    if i < n {
      GetDistinct(m[..n], i);
    }
  }

  /** Two dicts that agree everywhere except at entries keyed `k'` give `k'` the same lookup, when neither has such an entry differently. */
  lemma GetOther<V>(m: Dict<V>, r: Dict<V>, k': string)
    requires |m| == |r| && Distinct(Keys(m))
    requires forall i :: 0 <= i < |m| ==> m[i].0 == r[i].0
    requires forall i :: 0 <= i < |m| && m[i].0 == k' ==> m[i] == r[i]
    ensures Get(r, k') == Get(m, k')
  {
    if m != [] {
      var n := |m| - 1;
      assert Keys(m[..n]) == Keys(m)[..n];
      GetOther(m[..n], r[..n], k');
    }
  }
}
