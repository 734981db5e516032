/** The two Python container behaviours the registry leans on: `list.remove`,
    which drops only the first occurrence of a value, and the way deleting a
    key from a dict keeps the remaining keys in their insertion order. */
module ListOps {

  /** No value occurs twice. */
  predicate Distinct<T(==)>(xs: seq<T>)
  {
    forall i, j | 0 <= i < j < |xs| :: xs[i] != xs[j]
  }

  /** Concatenation regroups. Stated apart so that the sequence
      extensionality it needs is proved in a small context of its own. */
  lemma ConcatAssoc<T>(a: seq<T>, b: seq<T>, c: seq<T>)
    ensures (a + b) + c == a + (b + c)
  {
  }

  /** Every value of the tail is a value of the list; in a list without
      repeats none of them is the head. */
  lemma TailValues<T>(ks: seq<T>)
    requires ks != []
    ensures forall t | t in ks[1..] :: t in ks
    ensures Distinct(ks) ==> forall t | t in ks[1..] :: t != ks[0]
  {
  }

  /** Position of the first occurrence of `x`. */
  function FirstIndex<T(==)>(xs: seq<T>, x: T): (i: nat)
    requires x in xs
    ensures i < |xs| && xs[i] == x
    ensures x !in xs[..i]
  {
    if xs[0] == x then 0
    else
      var j := FirstIndex(xs[1..], x);
      assert xs[..j + 1] == [xs[0]] + xs[1..][..j];
      j + 1
  }

  /** Python's `xs.remove(x)`: the first occurrence of `x` is dropped and the
      other values keep their order. Python raises ValueError when `x` is
      absent; every caller here tests membership first. */
  function RemoveFirst<T(==)>(xs: seq<T>, x: T): (r: seq<T>)
    requires x in xs
    ensures r == xs[..FirstIndex(xs, x)] + xs[FirstIndex(xs, x) + 1..]
  {
    if xs[0] == x then
      assert xs == [x] + xs[1..];
      xs[1..]
    else
      var tail := xs[1..];
      var rest := RemoveFirst(tail, x);
      var j := FirstIndex(tail, x);
      assert FirstIndex(xs, x) == j + 1;
      assert [xs[0]] + tail[..j] == xs[..j + 1];
      assert tail[j + 1..] == xs[j + 2..];
      [xs[0]] + rest
  }

  /** Removing a value that was appended to a list not holding it gives the
      list back. */
  lemma {:induction false} RemoveAppended<T>(xs: seq<T>, x: T)
    requires x !in xs
    ensures RemoveFirst(xs + [x], x) == xs
  {
    if xs == [] {
    } else {
      assert (xs + [x])[1..] == xs[1..] + [x];
      RemoveAppended(xs[1..], x);
    }
  }

  /** Exactly one copy of `x` goes; every other value keeps its count. */
  lemma RemoveFirstCount<T>(xs: seq<T>, x: T)
    requires x in xs
    ensures multiset(RemoveFirst(xs, x)) == multiset(xs) - multiset{x}
  {
    var i := FirstIndex(xs, x);
    assert xs == xs[..i] + [x] + xs[i + 1..];
  }

  /** `x` survives its own removal exactly when it occurred at least twice. */
  lemma RemoveFirstKeepsCopy<T>(xs: seq<T>, x: T)
    requires x in xs
    ensures x in RemoveFirst(xs, x) <==> multiset(xs)[x] >= 2
  {
    var r := RemoveFirst(xs, x);
    RemoveFirstCount(xs, x);
    assert x in r <==> x in multiset(r);
  }

  /** Removing from a duplicate-free list keeps it duplicate-free and leaves
      no copy of the removed value. */
  lemma {:induction false} RemoveFirstDistinct<T>(xs: seq<T>, x: T)
    requires x in xs
    requires Distinct(xs)
    ensures Distinct(RemoveFirst(xs, x))
    ensures x !in RemoveFirst(xs, x)
  {
    DistinctSplit(xs);
    if xs[0] != x {
      var rest := RemoveFirst(xs[1..], x);
      RemoveFirstDistinct(xs[1..], x);
      RemoveFirstCount(xs[1..], x);
      assert xs[0] !in multiset(rest);
      DistinctJoin(xs[0], rest);
    }
  }

  lemma DistinctSplit<T>(xs: seq<T>)
    requires xs != [] && Distinct(xs)
    ensures Distinct(xs[1..]) && xs[0] !in xs[1..]
  {
    var tail := xs[1..];
    forall k, l | 0 <= k < l < |tail|
      ensures tail[k] != tail[l]
    {
      assert tail[k] == xs[k + 1] && tail[l] == xs[l + 1];
    }
  }

  lemma DistinctJoin<T>(h: T, rest: seq<T>)
    requires Distinct(rest) && h !in rest
    ensures Distinct([h] + rest)
  {
    var xs := [h] + rest;
    forall k, l | 0 <= k < l < |xs|
      ensures xs[k] != xs[l]
    {
      assert xs[l] == rest[l - 1];
      if k > 0 { assert xs[k] == rest[k - 1]; }
    }
  }

  /** The values of `ks` that are in `live`, in their original order: what
      deleting keys from a dict does to the order in which it lists them. */
  function Retain<T>(ks: seq<T>, live: set<T>): (r: seq<T>)
    ensures forall x | x in r :: x in ks && x in live
    ensures forall x | x in ks && x in live :: x in r
    ensures Distinct(ks) ==> Distinct(r)
  {
    if ks == [] then []
    else
      var rest := Retain(ks[1..], live);
      assert Distinct(ks) ==> Distinct(ks[1..]) && ks[0] !in ks[1..];
      if ks[0] in live then [ks[0]] + rest else rest
  }

  /** Nothing is dropped when every value is live. */
  lemma {:induction false} RetainAll<T>(ks: seq<T>, live: set<T>)
    ensures (forall x | x in ks :: x in live) ==> Retain(ks, live) == ks
  {
    if ks != [] {
      RetainAll(ks[1..], live);
      assert ks == [ks[0]] + ks[1..];
    }
  }

  /** Deleting in two rounds is deleting once with the later, smaller live set. */
  lemma {:induction false} RetainTwice<T>(ks: seq<T>, a: set<T>, b: set<T>)
    requires b <= a
    ensures Retain(Retain(ks, a), b) == Retain(ks, b)
  {
    if ks != [] {
      RetainTwice(ks[1..], a, b);
      if ks[0] in a {
        assert Retain(ks, a) == [ks[0]] + Retain(ks[1..], a);
        assert Retain(ks, a)[1..] == Retain(ks[1..], a);
      }
    }
  }

  /** Filtering distributes over appending one more value. */
  lemma {:induction false} RetainAppend<T>(ks: seq<T>, x: T, live: set<T>)
    ensures Retain(ks + [x], live) == Retain(ks, live) + (if x in live then [x] else [])
  {
    if ks != [] {
      assert (ks + [x])[1..] == ks[1..] + [x];
      RetainAppend(ks[1..], x, live);
    }
  }
}
