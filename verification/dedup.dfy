/** Order-preserving deduplication by a derived key: walk the sequence from
    the front, keep an element when its key has not been seen yet, and
    remember the key. The first element per key wins and the survivors keep
    their relative order.
 */
module Dedup {

  /** The set of keys of the elements of `xs`. */
  function Keys<T, K>(xs: seq<T>, key: T -> K): set<K>
  {
    set i | 0 <= i < |xs| :: key(xs[i])
  }

  /** The keys of `xs` are pairwise distinct. */
  ghost predicate DistinctKeys<T, K>(xs: seq<T>, key: T -> K)
  {
    forall i, j :: 0 <= i < j < |xs| ==> key(xs[i]) != key(xs[j])
  }

  /** `a` can be obtained from `b` by deleting elements. */
  ghost predicate IsSubseq<T>(a: seq<T>, b: seq<T>)
    decreases |b|
  {
    if |a| == 0 then true
    else if |b| == 0 then false
    else if a[|a| - 1] == b[|b| - 1] && IsSubseq(a[..|a| - 1], b[..|b| - 1]) then true
    else IsSubseq(a, b[..|b| - 1])
  }

  lemma KeysSnoc<T, K>(xs: seq<T>, x: T, key: T -> K)
    ensures Keys(xs + [x], key) == Keys(xs, key) + {key(x)}
  {
    var ys := xs + [x];
    forall k | k in Keys(ys, key)
      ensures k in Keys(xs, key) + {key(x)}
    {
      var i :| 0 <= i < |ys| && key(ys[i]) == k;
      if i < |xs| {
        assert ys[i] == xs[i];
      }
    }
    forall k | k in Keys(xs, key)
      ensures k in Keys(ys, key)
    {
      var i :| 0 <= i < |xs| && key(xs[i]) == k;
      assert ys[i] == xs[i];
    }
    assert key(ys[|xs|]) == key(x);
  }

  lemma KeysOfSplit<T, K>(xs: seq<T>, key: T -> K)
    requires |xs| > 0
    ensures Keys(xs, key) == Keys(xs[..|xs| - 1], key) + {key(xs[|xs| - 1])}
  {
    assert xs == xs[..|xs| - 1] + [xs[|xs| - 1]];
    KeysSnoc(xs[..|xs| - 1], xs[|xs| - 1], key);
  }

  /** There are no more distinct keys than elements. */
  lemma {:induction false} KeysBound<T, K>(xs: seq<T>, key: T -> K)
    ensures |Keys(xs, key)| <= |xs|
    decreases |xs|
  {
    if |xs| > 0 {
      KeysOfSplit(xs, key);
      KeysBound(xs[..|xs| - 1], key);
    }
  }

  /** The survivors of the scan over `xs`: the element at position `i` is
      kept exactly when no earlier element has the same key. The recursion
      peels the last element, so `Unique(xs[..i])` is the result list after
      `i` iterations of the scan and `Keys(xs[..i], key)` the seen-key set. */
  function Unique<T, K(==)>(xs: seq<T>, key: T -> K): (r: seq<T>)
    ensures |r| == |Keys(xs, key)| <= |xs|
    ensures Keys(r, key) == Keys(xs, key)
    ensures DistinctKeys(r, key)
    ensures forall i :: 0 <= i < |r| ==> r[i] in xs
    decreases |xs|
  {
    if |xs| == 0 then []
    else
      var init, x := xs[..|xs| - 1], xs[|xs| - 1];
      KeysOfSplit(xs, key);
      KeysBound(xs, key);
      var u := Unique(init, key);
      if key(x) in Keys(init, key) then
        assert Keys(xs, key) == Keys(init, key);
        u
      else
        KeysSnoc(u, x, key);
        assert forall i :: 0 <= i < |u| ==> key(u[i]) in Keys(u, key);
        u + [x]
  }

  /** The index of the first element of `xs` whose key is `k`. */
  function FirstIndex<T, K(==)>(xs: seq<T>, key: T -> K, k: K): (i: nat)
    requires k in Keys(xs, key)
    ensures i < |xs| && key(xs[i]) == k
    ensures forall j :: 0 <= j < i ==> key(xs[j]) != k
    decreases |xs|
  {
    if key(xs[0]) == k then 0
    else
      assert k in Keys(xs[1..], key) by {
        var i :| 0 <= i < |xs| && key(xs[i]) == k;
        assert xs[1..][i - 1] == xs[i];
      }
      1 + FirstIndex(xs[1..], key, k)
  }

  /** Any index with the "first with this key" property is `FirstIndex`. */
  lemma FirstIndexIsUnique<T, K>(xs: seq<T>, key: T -> K, i: nat)
    requires i < |xs|
    requires forall j :: 0 <= j < i ==> key(xs[j]) != key(xs[i])
    ensures FirstIndex(xs, key, key(xs[i])) == i
  {
  }

  /** Every element of `u` is the first element of `xs` with its key. */
  ghost predicate AllFirst<T, K>(u: seq<T>, xs: seq<T>, key: T -> K)
  {
    forall i :: 0 <= i < |u| ==>
      key(u[i]) in Keys(xs, key) && u[i] == xs[FirstIndex(xs, key, key(u[i]))]
  }

  /** Appending an element does not move the first occurrence of a key that
      already occurs. */
  lemma FirstIndexPrefix<T, K>(xs: seq<T>, key: T -> K, k: K)
    requires |xs| > 0 && k in Keys(xs[..|xs| - 1], key)
    ensures k in Keys(xs, key)
    ensures FirstIndex(xs, key, k) == FirstIndex(xs[..|xs| - 1], key, k)
  {
    var init := xs[..|xs| - 1];
    KeysOfSplit(xs, key);
    var f := FirstIndex(init, key, k);
    assert xs[f] == init[f];
    forall j | 0 <= j < f ensures key(xs[j]) != k {
      assert xs[j] == init[j];
    }
    FirstIndexIsUnique(xs, key, f);
  }

  /** Every survivor is the first element of `xs` carrying its key. */
  lemma {:induction false} UniqueKeepsFirst<T, K>(xs: seq<T>, key: T -> K)
    ensures AllFirst(Unique(xs, key), xs, key)
    decreases |xs|
  {
    if |xs| > 0 {
      var init, x := xs[..|xs| - 1], xs[|xs| - 1];
      var u := Unique(init, key);
      UniqueKeepsFirst(init, key);
      assert AllFirst(u, xs, key) by {
        forall i | 0 <= i < |u|
          ensures key(u[i]) in Keys(xs, key) && u[i] == xs[FirstIndex(xs, key, key(u[i]))]
        {
          var k := key(u[i]);
          FirstIndexPrefix(xs, key, k);
          assert xs[FirstIndex(init, key, k)] == init[FirstIndex(init, key, k)];
        }
      }
      if key(x) !in Keys(init, key) {
        forall j | 0 <= j < |xs| - 1
          ensures key(xs[j]) != key(x)
        {
          assert xs[j] == init[j];
        }
        FirstIndexIsUnique(xs, key, |xs| - 1);
        assert Unique(xs, key) == u + [x];
      }
    }
  }

  /** The survivors' keys first occur in `xs` in the order the survivors
      appear, so the survivors keep the order of their first occurrences
      even when `xs` holds equal elements. */
  ghost predicate FirstOrdered<T, K>(u: seq<T>, xs: seq<T>, key: T -> K)
  {
    forall i, j :: 0 <= i < j < |u| ==> KeyBefore(xs, key, key(u[i]), key(u[j]))
  }

  /** Both keys occur in `xs` and `a` occurs first before `b` does. */
  ghost predicate KeyBefore<T, K>(xs: seq<T>, key: T -> K, a: K, b: K)
  {
    a in Keys(xs, key) && b in Keys(xs, key) && FirstIndex(xs, key, a) < FirstIndex(xs, key, b)
  }

  /** Appending an element to `xs` keeps an ordering among keys that
      already occur. */
  lemma FirstOrderedSnoc<T, K>(u: seq<T>, xs: seq<T>, key: T -> K)
    requires |xs| > 0
    requires forall i :: 0 <= i < |u| ==> key(u[i]) in Keys(xs[..|xs| - 1], key)
    requires FirstOrdered(u, xs[..|xs| - 1], key)
    ensures FirstOrdered(u, xs, key)
  {
    forall i, j | 0 <= i < j < |u|
      ensures KeyBefore(xs, key, key(u[i]), key(u[j]))
    {
      assert KeyBefore(xs[..|xs| - 1], key, key(u[i]), key(u[j]));
      FirstIndexPrefix(xs, key, key(u[i]));
      FirstIndexPrefix(xs, key, key(u[j]));
    }
  }

  /** A new key appended last occurs first after every older key. */
  lemma FirstOrderedAppend<T, K>(u: seq<T>, xs: seq<T>, key: T -> K)
    requires |xs| > 0
    requires forall i :: 0 <= i < |u| ==> key(u[i]) in Keys(xs[..|xs| - 1], key)
    requires key(xs[|xs| - 1]) !in Keys(xs[..|xs| - 1], key)
    requires FirstOrdered(u, xs, key)
    ensures FirstOrdered(u + [xs[|xs| - 1]], xs, key)
  {
    var init, x, v := xs[..|xs| - 1], xs[|xs| - 1], u + [xs[|xs| - 1]];
    forall j | 0 <= j < |xs| - 1
      ensures key(xs[j]) != key(x)
    {
      assert xs[j] == init[j];
    }
    FirstIndexIsUnique(xs, key, |xs| - 1);
    forall i, j | 0 <= i < j < |v|
      ensures KeyBefore(xs, key, key(v[i]), key(v[j]))
    {
      if j == |u| {
        assert v[i] == u[i] && v[j] == x;
        FirstIndexPrefix(xs, key, key(u[i]));
      } else {
        assert v[i] == u[i] && v[j] == u[j];
      }
    }
  }

  /** The survivors keep the order in which their keys first occur. */
  lemma {:induction false} UniqueFirstOrdered<T, K>(xs: seq<T>, key: T -> K)
    ensures FirstOrdered(Unique(xs, key), xs, key)
    decreases |xs|
  {
    if |xs| > 0 {
      var init, x := xs[..|xs| - 1], xs[|xs| - 1];
      var u := Unique(init, key);
      UniqueFirstOrdered(init, key);
      forall i | 0 <= i < |u|
        ensures key(u[i]) in Keys(init, key)
      {
        assert key(u[i]) in Keys(u, key);
      }
      FirstOrderedSnoc(u, xs, key);
      if key(x) !in Keys(init, key) {
        FirstOrderedAppend(u, xs, key);
      }
    }
  }

  /** The survivors appear in `xs` in the same relative order. */
  lemma {:induction false} UniqueIsSubseq<T, K>(xs: seq<T>, key: T -> K)
    ensures IsSubseq(Unique(xs, key), xs)
    decreases |xs|
  {
    if |xs| > 0 {
      var init, x := xs[..|xs| - 1], xs[|xs| - 1];
      var u := Unique(init, key);
      UniqueIsSubseq(init, key);
      if key(x) in Keys(init, key) {
        SubseqOfLonger(u, init, x);
      } else {
        var r := u + [x];
        assert r[..|r| - 1] == u;
      }
    }
  }

  lemma {:induction false} SubseqOfLonger<T>(a: seq<T>, b: seq<T>, x: T)
    requires IsSubseq(a, b)
    ensures IsSubseq(a, b + [x])
  {
    var c := b + [x];
    assert c[..|c| - 1] == b;
  }

  /** A sequence whose keys are already distinct is its own deduplication. */
  lemma {:induction false} UniqueOfDistinct<T, K>(xs: seq<T>, key: T -> K)
    requires DistinctKeys(xs, key)
    ensures Unique(xs, key) == xs
    decreases |xs|
  {
    if |xs| > 0 {
      var init, x := xs[..|xs| - 1], xs[|xs| - 1];
      assert DistinctKeys(init, key) by {
        forall i, j | 0 <= i < j < |init|
          ensures key(init[i]) != key(init[j])
        {
          assert init[i] == xs[i] && init[j] == xs[j];
        }
      }
      UniqueOfDistinct(init, key);
      assert key(x) !in Keys(init, key) by {
        forall i | 0 <= i < |init|
          ensures key(init[i]) != key(x)
        {
          assert init[i] == xs[i];
        }
      }
      assert xs == init + [x];
    }
  }

  /** Deduplicating twice is deduplicating once. */
  lemma UniqueIdempotent<T, K>(xs: seq<T>, key: T -> K)
    ensures Unique(Unique(xs, key), key) == Unique(xs, key)
  {
    UniqueOfDistinct(Unique(xs, key), key);
  }

  /** Dedup of four elements whose keys are a, b, a, b keeps the first two. */
  lemma UniqueOfABAB<T, K>(xs: seq<T>, key: T -> K)
    requires |xs| == 4
    requires key(xs[0]) != key(xs[1]) && key(xs[2]) == key(xs[0]) && key(xs[3]) == key(xs[1])
    ensures Unique(xs, key) == xs[..2]
  {
    assert xs[..1][..0] == [];
    assert xs[..2][..1] == xs[..1];
    assert xs[..3][..2] == xs[..2];
    assert xs[..4] == xs;
    KeysOfSplit(xs[..1], key);
    KeysOfSplit(xs[..2], key);
    KeysOfSplit(xs[..3], key);
    assert Keys(xs[..0], key) == {};
    assert Unique(xs[..1], key) == [xs[0]];
    assert Unique(xs[..2], key) == [xs[0], xs[1]];
    assert Unique(xs[..3], key) == [xs[0], xs[1]];
  }
}
