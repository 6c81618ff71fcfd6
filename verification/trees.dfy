/** A generic ordered n-ary tree: a node with a data value and an ordered
    list of children, compared structurally and hashed by a fold over the
    children.

    `Tree` is the value of a subtree; `TreeNode` is a node whose data and
    child list are updated in place by the list operations. */
module Trees {

  /** The range of a C# `int`. */
  type Int32 = x: int | -0x8000_0000 <= x < 0x8000_0000

  /** C#'s unchecked `int` arithmetic: the result reduced modulo 2^32 into the
      signed range. */
  function Wrap(x: int): (r: Int32)
    ensures (x - r) % 0x1_0000_0000 == 0
  {
    (x + 0x8000_0000) % 0x1_0000_0000 - 0x8000_0000
  }

  datatype Tree<T> = Node(data: T, children: seq<Tree<T>>)

  /** The fresh node that the value overloads build around a bare value. */
  function Leaf<T>(data: T): Tree<T> {
    Node(data, [])
  }

  /** Equals: equal data, and child lists of the same length that are equal
      child by child, in order. */
  predicate Equal<T(==)>(a: Tree<T>, b: Tree<T>)
    decreases a
  {
    && a.data == b.data
    && |a.children| == |b.children|
    && forall i :: 0 <= i < |a.children| ==> Equal(a.children[i], b.children[i])
  }

  lemma {:induction false} EqualReflexive<T>(a: Tree<T>)
    ensures Equal(a, a)
    decreases a
  {
    forall i | 0 <= i < |a.children| ensures Equal(a.children[i], a.children[i]) {
      EqualReflexive(a.children[i]);
    }
  }

  /** Structural equality coincides with equality of tree values. */
  lemma {:induction false} EqualIsIdentity<T>(a: Tree<T>, b: Tree<T>)
    ensures Equal(a, b) <==> a == b
    decreases a
  {
    if a == b {
      EqualReflexive(a);
    }
    if Equal(a, b) {
      forall i | 0 <= i < |a.children| ensures a.children[i] == b.children[i] {
        EqualIsIdentity(a.children[i], b.children[i]);
      }
      assert a.children == b.children;
    }
  }

  /** Equals is an equivalence: reflexive, symmetric and transitive. */
  lemma EqualIsEquivalence<T>(a: Tree<T>, b: Tree<T>, c: Tree<T>)
    ensures Equal(a, a)
    ensures Equal(a, b) <==> Equal(b, a)
    ensures Equal(a, b) && Equal(b, c) ==> Equal(a, c)
  {
    EqualIsIdentity(a, a);
    EqualIsIdentity(a, b);
    EqualIsIdentity(b, a);
    EqualIsIdentity(b, c);
    EqualIsIdentity(a, c);
  }

  /** `cs` with the children at `i` and `j` exchanged. */
  function Swap<X>(cs: seq<X>, i: nat, j: nat): (r: seq<X>)
    requires i < |cs| && j < |cs|
    ensures |r| == |cs| && r[i] == cs[j] && r[j] == cs[i]
    ensures forall k :: 0 <= k < |cs| && k != i && k != j ==> r[k] == cs[k]
  {
    cs[i := cs[j]][j := cs[i]]
  }

  /** Equality is order-sensitive: exchanging two children that differ gives
      a tree that is not equal to the original. */
  lemma SwapBreaksEquality<T>(d: T, cs: seq<Tree<T>>, i: nat, j: nat)
    requires i < |cs| && j < |cs|
    requires !Equal(cs[i], cs[j])
    ensures !Equal(Node(d, cs), Node(d, Swap(cs, i, j)))
  {
    EqualIsIdentity(cs[i], cs[j]);
    EqualIsIdentity(Node(d, cs), Node(d, Swap(cs, i, j)));
    assert Swap(cs, i, j)[i] != cs[i];
  }

  /** GetHashCode: the hash of the data, folded with each child's hash in
      order as `h * 7 + hash(child)`, in 32-bit arithmetic. `dataHash` is the
      data's own hash (0 for null data). */
  function Hash<T>(t: Tree<T>, dataHash: T -> Int32): Int32
    decreases t, |t.children| + 1
  {
    HashPrefix(t, |t.children|, dataHash)
  }

  /** The accumulator after folding in the first `n` children of `t`. */
  function HashPrefix<T>(t: Tree<T>, n: nat, dataHash: T -> Int32): Int32
    requires n <= |t.children|
    decreases t, n
  {
    if n == 0 then dataHash(t.data)
    else Wrap(HashPrefix(t, n - 1, dataHash) * 7 + Hash(t.children[n - 1], dataHash))
  }

  /** Equal trees have equal hashes. */
  lemma {:induction false} HashRespectsEqual<T>(a: Tree<T>, b: Tree<T>, dataHash: T -> Int32)
    requires Equal(a, b)
    ensures Hash(a, dataHash) == Hash(b, dataHash)
  {
    EqualIsIdentity(a, b);
  }

  /** Equals with the data compared by `dataEq`, the data type's own Equals,
      instead of by value. */
  predicate EqualBy<T>(a: Tree<T>, b: Tree<T>, dataEq: (T, T) -> bool)
    decreases a
  {
    && dataEq(a.data, b.data)
    && |a.children| == |b.children|
    && forall i :: 0 <= i < |a.children| ==> EqualBy(a.children[i], b.children[i], dataEq)
  }

  /** When the data's Equals is value equality, EqualBy is Equals. */
  lemma {:induction false} EqualByValue<T>(a: Tree<T>, b: Tree<T>, dataEq: (T, T) -> bool)
    requires forall x, y :: dataEq(x, y) <==> x == y
    ensures EqualBy(a, b, dataEq) <==> Equal(a, b)
    decreases a
  {
    if |a.children| == |b.children| {
      forall i | 0 <= i < |a.children|
        ensures EqualBy(a.children[i], b.children[i], dataEq) <==> Equal(a.children[i], b.children[i])
      {
        EqualByValue(a.children[i], b.children[i], dataEq);
      }
    }
  }

  /** Trees equal under a data Equals have equal hashes, provided the data's
      hash agrees with that Equals. */
  lemma {:induction false} HashRespectsEqualBy<T>(a: Tree<T>, b: Tree<T>, dataEq: (T, T) -> bool, dataHash: T -> Int32)
    requires forall x, y :: dataEq(x, y) ==> dataHash(x) == dataHash(y)
    requires EqualBy(a, b, dataEq)
    ensures Hash(a, dataHash) == Hash(b, dataHash)
    decreases a, |a.children| + 1
  {
    HashPrefixRespectsEqualBy(a, b, |a.children|, dataEq, dataHash);
  }

  /** The fold prefixes of two trees equal under a data Equals agree. */
  lemma {:induction false} HashPrefixRespectsEqualBy<T>(a: Tree<T>, b: Tree<T>, n: nat, dataEq: (T, T) -> bool, dataHash: T -> Int32)
    requires forall x, y :: dataEq(x, y) ==> dataHash(x) == dataHash(y)
    requires EqualBy(a, b, dataEq)
    requires n <= |a.children|
    ensures HashPrefix(a, n, dataHash) == HashPrefix(b, n, dataHash)
    decreases a, n
  {
    if n > 0 {
      HashPrefixRespectsEqualBy(a, b, n - 1, dataEq, dataHash);
      HashRespectsEqualBy(a.children[n - 1], b.children[n - 1], dataEq, dataHash);
    }
  }

  /** The fold prefix depends only on the data and the children folded so far. */
  lemma {:induction false} HashPrefixOfPrefix<T>(d: T, cs: seq<Tree<T>>, more: seq<Tree<T>>, n: nat, dataHash: T -> Int32)
    requires n <= |cs|
    ensures HashPrefix(Node(d, cs + more), n, dataHash) == HashPrefix(Node(d, cs), n, dataHash)
  {
    if n > 0 {
      HashPrefixOfPrefix(d, cs, more, n - 1, dataHash);
      assert (cs + more)[n - 1] == cs[n - 1];
    }
  }

  /** Appending a child advances the hash by one fold step. */
  lemma HashOfAppend<T>(d: T, cs: seq<Tree<T>>, c: Tree<T>, dataHash: T -> Int32)
    ensures Hash(Node(d, cs + [c]), dataHash) == Wrap(Hash(Node(d, cs), dataHash) * 7 + Hash(c, dataHash))
  {
    HashPrefixOfPrefix(d, cs, [c], |cs|, dataHash);
    assert (cs + [c])[|cs|] == c;
  }

  /** List.IndexOf over children under Equals: the first index of a child
      equal to `item`, or -1. */
  function IndexIn<T(==)>(cs: seq<Tree<T>>, item: Tree<T>): (r: int)
    ensures -1 <= r < |cs|
    ensures r == -1 <==> forall j :: 0 <= j < |cs| ==> !Equal(cs[j], item)
    ensures r >= 0 ==> Equal(cs[r], item) && forall j :: 0 <= j < r ==> !Equal(cs[j], item)
  {
    if |cs| == 0 then -1
    else if Equal(cs[0], item) then 0
    else
      var k := IndexIn(cs[1..], item);
      if k == -1 then -1 else k + 1
  }

  /** A leaf's value matches a child exactly when that child is a leaf with
      the same data; a child with children never matches. */
  lemma MatchesLeaf<T>(c: Tree<T>, v: T)
    ensures Equal(c, Leaf(v)) <==> c.data == v && c.children == []
  {
    EqualIsIdentity(c, Leaf(v));
  }

  /** The .NET collection exceptions the child-list operations raise. */
  datatype ListError = ArgumentOutOfRange | ArgumentError | IndexOutOfRange

  datatype Status = Done | Failed(error: ListError)

  datatype Fetched<T> = Found(value: T) | Missing(error: ListError)

  /** How many slots of an array of length `len`, starting at `k`, an
      element-by-element copy of `n` items fills before an index faults. */
  function Filled(k: int, n: nat, len: nat): (m: nat)
    ensures m <= n
    ensures m == n <==> n == 0 || (0 <= k && k + n <= len)
    ensures m > 0 ==> 0 <= k && k + m <= len
  {
    if k < 0 || k >= len then 0
    else if k + n <= len then n
    else len - k
  }

  class TreeNode<T(==)> {
    var data: T
    var children: seq<Tree<T>>

    /** Tree(data); the parameterless Tree() is this with default(T). */
    constructor (data: T)
      ensures this.data == data && children == []
    {
      this.data := data;
      children := [];
    }

    /** The subtree this node currently roots. */
    function Value(): Tree<T>
      reads this
    {
      Node(data, children)
    }

    function Count(): nat
      reads this
    {
      |children|
    }

    function IndexOf(item: Tree<T>): int
      reads this
    {
      IndexIn(children, item)
    }

    predicate Contains(item: Tree<T>)
      reads this
      ensures Contains(item) <==> IndexOf(item) >= 0
      ensures Contains(item) <==> exists j :: 0 <= j < |children| && Equal(children[j], item)
    {
      IndexIn(children, item) >= 0
    }

    /** The indexer's getter. */
    function Get(index: int): (r: Fetched<Tree<T>>)
      reads this
      ensures r.Found? <==> 0 <= index < Count()
      ensures r.Found? ==> r.value == children[index]
      ensures r.Missing? ==> r.error == ArgumentOutOfRange
    {
      if 0 <= index < |children| then Found(children[index]) else Missing(ArgumentOutOfRange)
    }

    /** The indexer's setter. */
    method Set(index: int, item: Tree<T>) returns (r: Status)
      modifies this
      ensures data == old(data) && Count() == old(Count())
      ensures 0 <= index < old(Count()) ==> r == Done && children == old(children)[index := item]
      ensures !(0 <= index < old(Count())) ==> r == Failed(ArgumentOutOfRange) && children == old(children)
    {
      if !(0 <= index < |children|) {
        return Failed(ArgumentOutOfRange);
      }
      children := children[index := item];
      r := Done;
    }

    method Insert(index: int, item: Tree<T>) returns (r: Status)
      modifies this
      ensures data == old(data)
      ensures 0 <= index <= old(Count()) ==>
        r == Done && children == old(children)[..index] + [item] + old(children)[index..] && Count() == old(Count()) + 1
      ensures !(0 <= index <= old(Count())) ==> r == Failed(ArgumentOutOfRange) && children == old(children)
    {
      if !(0 <= index <= |children|) {
        return Failed(ArgumentOutOfRange);
      }
      children := children[..index] + [item] + children[index..];
      r := Done;
    }

    method RemoveAt(index: int) returns (r: Status)
      modifies this
      ensures data == old(data)
      ensures 0 <= index < old(Count()) ==>
        r == Done && children == old(children)[..index] + old(children)[index + 1..] && Count() == old(Count()) - 1
      ensures !(0 <= index < old(Count())) ==> r == Failed(ArgumentOutOfRange) && children == old(children)
    {
      if !(0 <= index < |children|) {
        return Failed(ArgumentOutOfRange);
      }
      children := children[..index] + children[index + 1..];
      r := Done;
    }

    method Add(item: Tree<T>)
      modifies this
      ensures data == old(data)
      ensures children == old(children) + [item] && Count() == old(Count()) + 1
    {
      children := children + [item];
    }

    method Clear()
      modifies this
      ensures data == old(data)
      ensures children == [] && Count() == 0
    {
      children := [];
    }

    /** Removes the first child equal to `item`, reporting whether there was one. */
    method Remove(item: Tree<T>) returns (removed: bool)
      modifies this
      ensures data == old(data)
      ensures removed <==> exists j :: 0 <= j < |old(children)| && Equal(old(children)[j], item)
      ensures removed ==>
        var i := IndexIn(old(children), item);
        children == old(children)[..i] + old(children)[i + 1..]
      ensures !removed ==> children == old(children)
      ensures Count() == if removed then old(Count()) - 1 else old(Count())
    {
      var i := IndexIn(children, item);
      if i < 0 {
        return false;
      }
      children := children[..i] + children[i + 1..];
      removed := true;
    }

    /** Copies the children into `a` from index `k` on, all or nothing. */
    method CopyTo(a: array<Tree<T>>, k: int) returns (r: Status)
      modifies a
      ensures k < 0 ==> r == Failed(ArgumentOutOfRange) && a[..] == old(a[..])
      ensures 0 <= k && a.Length < k + Count() ==> r == Failed(ArgumentError) && a[..] == old(a[..])
      ensures 0 <= k && k + Count() <= a.Length ==>
        r == Done && a[..] == old(a[..k]) + children + old(a[k + Count()..])
    {
      if k < 0 {
        return Failed(ArgumentOutOfRange);
      }
      if a.Length - k < |children| {
        return Failed(ArgumentError);
      }
      forall j | k <= j < k + |children| {
        a[j] := children[j - k];
      }
      r := Done;
    }

    /** IndexOf(T): the first child that is a leaf holding `v`, or -1. */
    function IndexOfValue(v: T): (r: int)
      reads this
      ensures -1 <= r < Count()
      ensures r >= 0 ==> children[r] == Leaf(v)
      ensures r >= 0 ==> forall j :: 0 <= j < r ==> children[j] != Leaf(v)
      ensures r == -1 <==> forall j :: 0 <= j < Count() ==> !(children[j].data == v && children[j].children == [])
    {
      var r := IndexIn(children, Leaf(v));
      assert forall j :: 0 <= j < |children| ==> (Equal(children[j], Leaf(v)) <==> children[j] == Leaf(v)) by {
        forall j | 0 <= j < |children| ensures Equal(children[j], Leaf(v)) <==> children[j] == Leaf(v) {
          EqualIsIdentity(children[j], Leaf(v));
        }
      }
      r
    }

    /** Contains(T): some child is a leaf holding `v`. */
    predicate ContainsValue(v: T)
      reads this
      ensures ContainsValue(v) <==> exists j :: 0 <= j < Count() && children[j].data == v && children[j].children == []
    {
      IndexOfValue(v) >= 0
    }

    /** Insert(int, T): inserts a fresh leaf holding `v`. */
    method InsertValue(index: int, v: T) returns (r: Status)
      modifies this
      ensures data == old(data)
      ensures 0 <= index <= old(Count()) ==>
        r == Done && children == old(children)[..index] + [Leaf(v)] + old(children)[index..] && Count() == old(Count()) + 1
      ensures !(0 <= index <= old(Count())) ==> r == Failed(ArgumentOutOfRange) && children == old(children)
    {
      r := Insert(index, Leaf(v));
    }

    /** Add(T): appends a fresh leaf holding `v`. */
    method AddValue(v: T)
      modifies this
      ensures data == old(data)
      ensures children == old(children) + [Leaf(v)] && Count() == old(Count()) + 1
    {
      Add(Leaf(v));
    }

    /** Remove(T): removes the first child that is a leaf holding `v`. */
    method RemoveValue(v: T) returns (removed: bool)
      modifies this
      ensures data == old(data)
      ensures removed <==> exists j :: 0 <= j < |old(children)| && old(children)[j] == Leaf(v)
      ensures removed ==>
        exists i :: 0 <= i < |old(children)| && old(children)[i] == Leaf(v) && Leaf(v) !in old(children)[..i] &&
          children == old(children)[..i] + old(children)[i + 1..]
      ensures !removed ==> children == old(children)
      ensures Count() == if removed then old(Count()) - 1 else old(Count())
    {
      var i := IndexOfValue(v);
      if i < 0 {
        return false;
      }
      assert Leaf(v) !in children[..i];
      children := children[..i] + children[i + 1..];
      removed := true;
    }

    /** CopyTo(T[], k): writes each child's data to `a[k]`, `a[k + 1]`, ...,
        one slot at a time; a slot outside the array faults after the
        writes before it. */
    method CopyDataTo(a: array<T>, k: int) returns (r: Status)
      modifies a
      ensures var m := Filled(k, |children|, a.Length);
        && (r == Done <==> m == |children|)
        && (r != Done ==> r == Failed(IndexOutOfRange))
        && (forall j :: 0 <= j < m ==> a[k + j] == children[j].data)
        && (forall j :: 0 <= j < a.Length && !(k <= j < k + m) ==> a[j] == old(a[j]))
    {
      var m := Filled(k, |children|, a.Length);
      var index := k;
      for i := 0 to |children|
        invariant index == k + i
        invariant i <= m
        invariant forall j :: 0 <= j < i ==> a[k + j] == children[j].data
        invariant forall j :: 0 <= j < a.Length && !(k <= j < k + i) ==> a[j] == old(a[j])
      {
        if !(0 <= index < a.Length) {
          return Failed(IndexOutOfRange);
        }
        a[index] := children[i].data;
        index := index + 1;
      }
      r := Done;
    }

    /** Equals against another tree. */
    predicate Equals(other: Tree<T>)
      reads this
      ensures Equals(other) <==> data == other.data && children == other.children
    {
      EqualIsIdentity(Value(), other);
      Equal(Value(), other)
    }

    /** GetHashCode: the accumulator loop over the children. */
    method GetHashCode(dataHash: T -> Int32) returns (h: Int32)
      ensures h == Hash(Value(), dataHash)
    {
      h := dataHash(data);
      for i := 0 to |children|
        invariant h == HashPrefix(Value(), i, dataHash)
      {
        h := Wrap(h * 7 + Hash(children[i], dataHash));
      }
    }
  }
}
