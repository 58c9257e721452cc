/** Generic facts about sequences used by the parsing and aggregate proofs. */
module Sequences {

  lemma SliceToAppend<T>(a: seq<T>, t: seq<T>, i: nat)
    requires i <= |a|
    ensures (a + t)[..i] == a[..i]
  {
  }

  lemma SliceFromRight<T>(a: seq<T>, t: seq<T>, j: nat)
    requires j <= |t|
    ensures (a + t)[|a| + j..] == t[j..]
  {
  }

  lemma SliceFromAppend<T>(a: seq<T>, t: seq<T>, i: nat)
    requires i <= |a|
    ensures (a + t)[i..] == a[i..] + t
  {
  }

  lemma SeqAssoc<T>(x: seq<T>, p: seq<T>, q: seq<T>)
    ensures x + (p + q) == (x + p) + q
  {
  }

  /** Dropping position `k` of a sequence. */
  function Without<T>(q: seq<T>, k: nat): seq<T>
    requires k < |q|
  {
    q[..k] + q[k + 1..]
  }

  lemma WithoutMultiset<T>(q: seq<T>, k: nat)
    requires k < |q|
    ensures multiset(q) == multiset(Without(q, k)) + multiset{q[k]}
  {
    assert q == q[..k] + [q[k]] + q[k + 1..];
  }

  /** Removing one occurrence of the first element from two equal multisets. */
  lemma MatchFirst<T>(p: seq<T>, q: seq<T>) returns (k: nat)
    requires p != [] && multiset(p) == multiset(q)
    ensures k < |q| && q[k] == p[0]
    ensures multiset(p[1..]) == multiset(Without(q, k))
  {
    assert p[0] in multiset(q);
    assert p[0] in q;
    k :| 0 <= k < |q| && q[k] == p[0];
    WithoutMultiset(q, k);
    assert p == [p[0]] + p[1..];
    assert multiset(p) == multiset(p[1..]) + multiset{p[0]};
    assert multiset(p[1..]) == multiset(p) - multiset{p[0]};
    assert multiset(Without(q, k)) == multiset(q) - multiset{q[k]};
  }

  lemma SplitAround<T>(ys: seq<T>, k: nat)
    requires k < |ys|
    ensures ys == (ys[..k] + [ys[k]]) + ys[k + 1..]
    ensures Without(ys, k) == ys[..k] + ys[k + 1..]
  {
    assert ys == ys[..k] + ([ys[k]] + ys[k + 1..]) by {
      assert ys[k..] == [ys[k]] + ys[k + 1..];
      assert ys == ys[..k] + ys[k..];
    }
  }
}
