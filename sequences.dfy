/** Order and uniqueness facts about sequences, shared by the panel and the configuration. */
module Sequences {

  predicate Increasing(s: seq<int>)
  {
    forall i, j :: 0 <= i < j < |s| ==> s[i] < s[j]
  }

  predicate Distinct<T(==)>(s: seq<T>)
  {
    forall i, j :: 0 <= i < j < |s| ==> s[i] != s[j]
  }

  /**
   * The elements of `s` in order of first occurrence, each once: the key order
   * of a Python dict filled from `s`.
   */
  function Dedup(s: seq<string>): (r: seq<string>)
    ensures Distinct(r)
    ensures forall x :: x in r <==> x in s
    ensures |r| <= |s|
  {
    if s == [] then []
    else
      var pre := Dedup(s[..|s| - 1]);
      assert forall x :: x in s <==> x in s[..|s| - 1] || x == s[|s| - 1];
      if s[|s| - 1] in pre then pre else pre + [s[|s| - 1]]
  }

  /** First-occurrence order: an element listed before another occurs in `s` before every occurrence of the other. */
  lemma {:induction false} DedupOrder(s: seq<string>, i: nat, j: nat, b: nat)
    requires i < j < |Dedup(s)| && b < |s| && s[b] == Dedup(s)[j]
    ensures Dedup(s)[i] in s[..b]
  {
    var n := |s| - 1;
    var pre, x := s[..n], s[n];
    var d := Dedup(pre);
    assert forall k :: 0 <= k < n ==> pre[k] == s[k];
    if x in d {
      assert Dedup(s) == d;
      if b < n {
        DedupOrder(pre, i, j, b);
        assert pre[..b] == s[..b];
      } else {
        var b' :| 0 <= b' < |pre| && pre[b'] == x;
        DedupOrder(pre, i, j, b');
        assert pre[..b'] == s[..b'] && s[..b'] <= s[..b];
      }
    } else {
      assert Dedup(s) == d + [x];
      if j < |d| && b < n {
        DedupOrder(pre, i, j, b);
        assert pre[..b] == s[..b];
      } else if j < |d| {
        assert false;
      } else if b == n {
        assert Dedup(s)[i] == d[i] && d[i] in pre;
        assert s[..b] == pre;
      } else {
        assert false;
      }
    }
  }

  lemma DedupOfDistinct(s: seq<string>)
    requires Distinct(s)
    ensures Dedup(s) == s
  {
    if s != [] {
      DedupOfDistinct(s[..|s| - 1]);
    }
  }

  lemma DedupSnoc(s: seq<string>, x: string)
    ensures Dedup(s + [x]) == if x in Dedup(s) then Dedup(s) else Dedup(s) + [x]
  {
    assert (s + [x])[..|s|] == s;
  }

  /** `names` followed by each element of `keys` not seen before: the column order after assigning `keys` in turn. */
  function AppendNew(names: seq<string>, keys: seq<string>): (r: seq<string>)
    ensures forall x :: x in r <==> x in names || x in keys
  {
    if keys == [] then names
    else
      var pre := AppendNew(names, keys[..|keys| - 1]);
      var k := keys[|keys| - 1];
      assert forall x :: x in keys <==> x in keys[..|keys| - 1] || x == k;
      if k in pre then pre else pre + [k]
  }

  lemma {:induction false} AppendNewIsDedup(names: seq<string>, keys: seq<string>)
    requires Distinct(names)
    ensures AppendNew(names, keys) == Dedup(names + keys)
    decreases |keys|
  {
    if keys == [] {
      assert names + keys == names;
      DedupOfDistinct(names);
    } else {
      var pre := keys[..|keys| - 1];
      var k := keys[|keys| - 1];
      AppendNewIsDedup(names, pre);
      assert names + keys == (names + pre) + [k];
      DedupSnoc(names + pre, k);
    }
  }

  lemma DistinctConcat(a: seq<string>, b: seq<string>)
    ensures Distinct(a + b) <==> Distinct(a) && Distinct(b) && forall n :: n in b ==> n !in a
  {
    var s := a + b;
    if Distinct(s) {
      forall i, j | 0 <= i < j < |a|
        ensures a[i] != a[j]
      {
        assert s[i] == a[i] && s[j] == a[j];
      }
      forall i, j | 0 <= i < j < |b|
        ensures b[i] != b[j]
      {
        assert s[|a| + i] == b[i] && s[|a| + j] == b[j];
      }
      forall i, j | 0 <= i < |a| && 0 <= j < |b|
        ensures a[i] != b[j]
      {
        assert s[i] == a[i] && s[|a| + j] == b[j];
      }
    }
    if Distinct(a) && Distinct(b) && forall n :: n in b ==> n !in a {
      forall i, j | 0 <= i < j < |s|
        ensures s[i] != s[j]
      {
        if j >= |a| && i < |a| {
          assert s[j] in b;
        } else if i >= |a| {
          assert s[i] == b[i - |a|] && s[j] == b[j - |a|];
        }
      }
    }
  }
}
