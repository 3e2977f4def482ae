/** Go's container/heap over a caller-supplied order, as the nonce heap and the
    price heap use it. A heap is a slice, so it is a sequence here: every method
    returns the slice it would leave behind. */
module Heap {

  predicate Asymmetric<T>(less: (T, T) -> bool, x: T, y: T) {
    less(x, y) ==> !less(y, x)
  }

  predicate Chains<T>(less: (T, T) -> bool, x: T, y: T, z: T) {
    !less(x, y) && !less(y, z) ==> !less(x, z)
  }

  /** What a Less method has to be: a strict order whose incomparability is transitive. */
  ghost predicate WeakOrder<T(!new)>(less: (T, T) -> bool) {
    && (forall x, y :: Asymmetric(less, x, y))
    && (forall x, y, z :: Chains(less, x, y, z))
  }

  function Parent(i: int): int {
    (i - 1) / 2
  }

  /** The edge from i to its parent is in order. */
  predicate EdgeOk<T>(less: (T, T) -> bool, h: seq<T>, i: int)
    requires 0 < i < |h|
  {
    !less(h[i], h[Parent(i)])
  }

  /** Every edge whose upper end is at or above k is in order. */
  ghost predicate HeapFrom<T>(less: (T, T) -> bool, h: seq<T>, k: int) {
    forall i :: 0 < i < |h| && k <= Parent(i) ==> EdgeOk(less, h, i)
  }

  ghost predicate IsHeap<T>(less: (T, T) -> bool, h: seq<T>) {
    HeapFrom(less, h, 0)
  }

  /** The children of i are in order with i's parent, so that i may be sifted either way. */
  ghost predicate Bridged<T>(less: (T, T) -> bool, h: seq<T>, i: int, k: int)
    requires 0 <= i
  {
    forall c :: 0 < c < |h| && Parent(c) == i && 0 < i && k <= Parent(i) ==> !less(h[c], h[Parent(i)])
  }

  function Swap<T>(h: seq<T>, i: nat, j: nat): (r: seq<T>)
    requires i < |h| && j < |h|
  {
    h[i := h[j]][j := h[i]]
  }

  lemma SwapKeepsMultiset<T>(h: seq<T>, i: nat, j: nat)
    requires i < |h| && j < |h|
    ensures multiset(Swap(h, i, j)) == multiset(h)
  {
  }

  /** The root of a heap is a least element. */
  lemma {:induction false} RootIsLeast<T(!new)>(less: (T, T) -> bool, h: seq<T>, i: nat)
    requires WeakOrder(less) && IsHeap(less, h) && i < |h|
    ensures !less(h[i], h[0])
  {
    if i > 0 {
      assert EdgeOk(less, h, i);
      RootIsLeast(less, h, Parent(i));
      assert Chains(less, h[i], h[Parent(i)], h[0]);
    } else {
      assert Asymmetric(less, h[0], h[0]);
    }
  }

  /** Every edge is in order but the one up from j. */
  ghost predicate SiftingUp<T>(less: (T, T) -> bool, h: seq<T>, j: nat) {
    && (forall c :: 0 < c < |h| && c != j ==> EdgeOk(less, h, c))
    && Bridged(less, h, j, 0)
  }

  lemma UpStep<T(!new)>(less: (T, T) -> bool, h: seq<T>, i: nat, j: nat)
    requires WeakOrder(less) && SiftingUp(less, h, j)
    requires 0 < j < |h| && i == Parent(j) && less(h[j], h[i])
    ensures SiftingUp(less, Swap(h, i, j), i)
  {
    var r := Swap(h, i, j);
    assert Asymmetric(less, h[j], h[i]);
    forall c | 0 < c < |r| && c != i
      ensures EdgeOk(less, r, c)
    {
      if c != j {
        assert EdgeOk(less, h, c);
        assert Chains(less, h[c], h[i], h[j]);
      }
    }
    forall c | 0 < c < |r| && Parent(c) == i && 0 < i
      ensures !less(r[c], r[Parent(i)])
    {
      assert EdgeOk(less, h, i);
      assert c != j ==> EdgeOk(less, h, c);
      assert Chains(less, h[c], h[i], h[Parent(i)]);
    }
  }

  method Up<T(!new)>(less: (T, T) -> bool, h: seq<T>, start: nat) returns (r: seq<T>)
    requires WeakOrder(less) && start < |h| && SiftingUp(less, h, start)
    ensures IsHeap(less, r) && multiset(r) == multiset(h)
  {
    r := h;
    var j := start;
    while 0 < j && less(r[j], r[Parent(j)])
      invariant 0 <= j < |r| == |h|
      invariant multiset(r) == multiset(h) && SiftingUp(less, r, j)
      decreases j
    {
      var i := Parent(j);
      SwapKeepsMultiset(r, i, j);
      UpStep(less, r, i, j);
      r := Swap(r, i, j);
      j := i;
    }
  }

  /** Every edge below k is in order, save those down from i and, when i is where sifting
      started, the one up from i. */
  ghost predicate SiftingDown<T>(less: (T, T) -> bool, h: seq<T>, start: nat, i: nat, k: nat) {
    && (forall c :: 0 < c < |h| && k <= Parent(c) && Parent(c) != i && (c != i || i != start) ==> EdgeOk(less, h, c))
    && Bridged(less, h, i, k)
  }

  lemma DownStep<T(!new)>(less: (T, T) -> bool, h: seq<T>, start: nat, i: nat, j: nat, k: nat)
    requires WeakOrder(less) && SiftingDown(less, h, start, i, k)
    requires k <= start <= i && Parent(j) == i && i < j < |h| && less(h[j], h[i])
    requires forall c :: 0 < c < |h| && Parent(c) == i ==> !less(h[c], h[j])
    ensures SiftingDown(less, Swap(h, i, j), start, j, k)
  {
    var r := Swap(h, i, j);
    forall c | 0 < c < |r| && k <= Parent(c) && Parent(c) != j
      ensures EdgeOk(less, r, c)
    {
      if c == i {
        assert !less(h[j], h[Parent(i)]);
      } else if c == j {
        assert Asymmetric(less, h[j], h[i]);
      } else if Parent(c) != i {
        assert EdgeOk(less, h, c);
      }
    }
    forall c | 0 < c < |r| && Parent(c) == j
      ensures !less(r[c], r[Parent(j)])
    {
      assert EdgeOk(less, h, c);
    }
  }

  /** The child of i that the others do not precede. */
  function LesserChild<T>(less: (T, T) -> bool, h: seq<T>, i: nat): (j: nat)
    requires 2 * i + 1 < |h|
    ensures Parent(j) == i && i < j < |h|
  {
    if 2 * i + 2 < |h| && less(h[2 * i + 2], h[2 * i + 1]) then 2 * i + 2 else 2 * i + 1
  }

  lemma LesserChildIsLeast<T(!new)>(less: (T, T) -> bool, h: seq<T>, i: nat, c: nat)
    requires WeakOrder(less) && 2 * i + 1 < |h| && c < |h| && 0 < c && Parent(c) == i
    ensures !less(h[c], h[LesserChild(less, h, i)])
    ensures !less(h[LesserChild(less, h, i)], h[i]) ==> EdgeOk(less, h, c)
  {
    var j := LesserChild(less, h, i);
    assert Asymmetric(less, h[j], h[j]) && Asymmetric(less, h[j], h[c]) && Chains(less, h[c], h[j], h[i]);
  }

  method Down<T(!new)>(less: (T, T) -> bool, h: seq<T>, start: nat, ghost k: nat) returns (r: seq<T>, moved: bool)
    requires WeakOrder(less) && k <= start <= |h|
    requires SiftingDown(less, h, start, start, k)
    ensures multiset(r) == multiset(h) && |r| == |h|
    ensures forall c :: 0 < c < |r| && k <= Parent(c) && c != start ==> EdgeOk(less, r, c)
    ensures if moved then HeapFrom(less, r, k) else r == h
  {
    r := h;
    var i := start;
    while 2 * i + 1 < |r| && less(r[LesserChild(less, r, i)], r[i])
      invariant start <= i && |r| == |h|
      invariant multiset(r) == multiset(h)
      invariant if i == start then r == h else i < |r|
      invariant SiftingDown(less, r, start, i, k)
      decreases |r| - i
    {
      var j := LesserChild(less, r, i);
      forall c | 0 < c < |r| && Parent(c) == i
        ensures !less(r[c], r[j])
      {
        LesserChildIsLeast(less, r, i, c);
      }
      SwapKeepsMultiset(r, i, j);
      DownStep(less, r, start, i, j, k);
      r := Swap(r, i, j);
      i := j;
    }
    forall c | 0 < c < |r| && Parent(c) == i
      ensures EdgeOk(less, r, c)
    {
      LesserChildIsLeast(less, r, i, c);
    }
    moved := i > start;
  }

  method Init<T(!new)>(less: (T, T) -> bool, h: seq<T>) returns (r: seq<T>)
    requires WeakOrder(less)
    ensures IsHeap(less, r) && multiset(r) == multiset(h)
  {
    r := h;
    var i := |h| / 2;
    while i > 0
      invariant 0 <= i <= |r| == |h| && multiset(r) == multiset(h)
      invariant HeapFrom(less, r, i)
    {
      i := i - 1;
      var moved;
      r, moved := Down(less, r, i, i);
    }
  }

  method Push<T(!new)>(less: (T, T) -> bool, h: seq<T>, x: T) returns (r: seq<T>)
    requires WeakOrder(less) && IsHeap(less, h)
    ensures IsHeap(less, r) && multiset(r) == multiset(h) + multiset{x}
  {
    var g := h + [x];
    forall c | 0 < c < |g| && c != |h|
      ensures EdgeOk(less, g, c)
    {
      assert EdgeOk(less, h, c);
    }
    r := Up(less, g, |h|);
  }

  /** Takes the element at i out of the heap; Pop is the case of the root. */
  method Remove<T(!new)>(less: (T, T) -> bool, h: seq<T>, i: nat) returns (r: seq<T>, x: T)
    requires WeakOrder(less) && IsHeap(less, h) && i < |h|
    ensures IsHeap(less, r) && x == h[i] && multiset(h) == multiset(r) + multiset{x}
  {
    var n := |h| - 1;
    var g := Swap(h, i, n);
    SwapKeepsMultiset(h, i, n);
    x := g[n];
    assert g == g[..n] + [x];
    g := g[..n];
    forall c | 0 < c < n && Parent(c) != i && c != i
      ensures EdgeOk(less, g, c)
    {
      assert EdgeOk(less, h, c);
    }
    forall c | 0 < c < |g| && Parent(c) == i && 0 < i
      ensures !less(g[c], g[Parent(i)])
    {
      assert EdgeOk(less, h, c) && EdgeOk(less, h, i) && Chains(less, h[c], h[i], h[Parent(i)]);
    }
    var moved;
    r, moved := Down(less, g, i, 0);
    if !moved && i < n {
      r := Up(less, r, i);
    }
  }

  method Pop<T(!new)>(less: (T, T) -> bool, h: seq<T>) returns (r: seq<T>, x: T)
    requires WeakOrder(less) && IsHeap(less, h) && h != []
    ensures IsHeap(less, r) && x == h[0] && multiset(h) == multiset(r) + multiset{x}
    ensures forall y :: y in h ==> !less(y, x)
  {
    forall y | y in h
      ensures !less(y, h[0])
    {
      var i :| 0 <= i < |h| && h[i] == y;
      RootIsLeast(less, h, i);
    }
    r, x := Remove(less, h, 0);
  }
}
