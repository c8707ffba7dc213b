/** The binary heap of blend/queue.c: items ordered by (key1, key2), stored in a
    growable array. Index i has its parent at (i+1)/2-1. */
module Queue {

  datatype Item = Item(key1: real, key2: real, elt: int)

  /** Lexicographic strict order on the two keys. */
  predicate Less(a: Item, b: Item) {
    if a.key1 == b.key1 then a.key2 < b.key2 else a.key1 < b.key1
  }

  function Parent(i: nat): nat
    requires 0 < i
  {
    (i + 1) / 2 - 1
  }

  ghost predicate HeapOrder(s: seq<Item>) {
    forall i {:trigger Parent(i)} :: 0 < i < |s| ==> !Less(s[i], s[Parent(i)])
  }

  // ----- What the two sift loops compute -----

  function Exchange(s: seq<Item>, i: nat, j: nat): (t: seq<Item>)
    requires i < |s| && j < |s|
    ensures |t| == |s|
  {
    s[i := s[j]][j := s[i]]
  }

  function SiftedUp(s: seq<Item>, i: nat): (t: seq<Item>)
    requires i < |s|
    ensures |t| == |s|
    decreases i
  {
    if i > 0 && Less(s[i], s[Parent(i)]) then SiftedUp(Exchange(s, i, Parent(i)), Parent(i)) else s
  }

  /** The child the sift-down follows: the left one if it is alone or smaller. */
  function ChildOf(s: seq<Item>, i: nat): (j: nat)
    requires 2 * i + 1 < |s|
    ensures i < j < |s|
  {
    if 2 * i + 2 == |s| || Less(s[2 * i + 1], s[2 * i + 2]) then 2 * i + 1 else 2 * i + 2
  }

  function SiftedDown(s: seq<Item>, i: nat): (t: seq<Item>)
    ensures |t| == |s|
    decreases |s| - i
  {
    if 2 * i + 1 >= |s| || Less(s[i], s[ChildOf(s, i)]) then s
    else SiftedDown(Exchange(s, i, ChildOf(s, i)), ChildOf(s, i))
  }

  function Pushed(s: seq<Item>, x: Item): (t: seq<Item>)
    ensures |t| == |s| + 1
  {
    SiftedUp(s + [x], |s|)
  }

  function Popped(s: seq<Item>): (t: seq<Item>)
    requires s != []
    ensures |t| == |s| - 1
  {
    SiftedDown(s[0 := s[|s| - 1]][..|s| - 1], 0)
  }

  // ----- Heap order -----

  /** The root of a heap is a lexicographically least item. */
  lemma {:induction false} RootIsLeast(s: seq<Item>, k: nat)
    requires HeapOrder(s) && k < |s|
    ensures !Less(s[k], s[0])
    decreases k
  {
    if k > 0 {
      RootIsLeast(s, Parent(k));
      assert !Less(s[k], s[Parent(k)]);
    }
  }

  /** Heap order everywhere except between i and its parent. */
  ghost predicate HeapButUp(s: seq<Item>, i: nat) {
    && (forall k {:trigger Parent(k)} :: 0 < k < |s| && k != i ==> !Less(s[k], s[Parent(k)]))
    && (i > 0 ==> forall k {:trigger Parent(k)} :: 0 < k < |s| && Parent(k) == i ==>
                    Parent(i) < |s| && !Less(s[k], s[Parent(i)]))
  }

  /** Heap order everywhere except between i and its children. */
  ghost predicate HeapButDown(s: seq<Item>, i: nat) {
    && (forall k {:trigger Parent(k)} :: 0 < k < |s| && Parent(k) != i ==> !Less(s[k], s[Parent(k)]))
    && (i > 0 ==> forall k {:trigger Parent(k)} :: 0 < k < |s| && Parent(k) == i ==> !Less(s[k], s[Parent(i)]))
  }

  lemma UpMovesDefect(s: seq<Item>, i: nat)
    requires 0 < i < |s| && HeapButUp(s, i) && Less(s[i], s[Parent(i)])
    ensures HeapButUp(Exchange(s, i, Parent(i)), Parent(i))
  {
    var hi := Parent(i);
    var t := Exchange(s, i, hi);
    forall k {:trigger Parent(k)} | 0 < k < |t| && k != hi ensures !Less(t[k], t[Parent(k)]) {
      if k != i {
        assert !Less(s[k], s[Parent(k)]);
      }
    }
    if hi > 0 {
      forall k {:trigger Parent(k)} | 0 < k < |t| && Parent(k) == hi ensures !Less(t[k], t[Parent(hi)]) {
        assert !Less(s[hi], s[Parent(hi)]);
        if k != i { assert !Less(s[k], s[hi]); }
      }
    }
  }

  lemma DownMovesDefect(s: seq<Item>, i: nat)
    requires 2 * i + 1 < |s| && HeapButDown(s, i) && !Less(s[i], s[ChildOf(s, i)])
    ensures HeapButDown(Exchange(s, i, ChildOf(s, i)), ChildOf(s, i))
  {
    var j := ChildOf(s, i);
    var t := Exchange(s, i, j);
    assert Parent(j) == i;
    forall k {:trigger Parent(k)} | 0 < k < |t| && Parent(k) != j ensures !Less(t[k], t[Parent(k)]) {
      if Parent(k) == i {
        assert k == 2 * i + 1 || k == 2 * i + 2;
      } else if k == i {
        assert !Less(s[j], s[Parent(i)]);
      } else {
        assert !Less(s[k], s[Parent(k)]);
      }
    }
    forall k {:trigger Parent(k)} | 0 < k < |t| && Parent(k) == j ensures !Less(t[k], t[i]) {
      assert !Less(s[k], s[j]);
    }
  }

  lemma {:induction false} SiftedUpIsHeap(s: seq<Item>, i: nat)
    requires i < |s| && HeapButUp(s, i)
    ensures HeapOrder(SiftedUp(s, i))
    decreases i
  {
    if i > 0 && Less(s[i], s[Parent(i)]) {
      UpMovesDefect(s, i);
      SiftedUpIsHeap(Exchange(s, i, Parent(i)), Parent(i));
    }
  }

  lemma {:induction false} SiftedDownIsHeap(s: seq<Item>, i: nat)
    requires HeapButDown(s, i)
    ensures HeapOrder(SiftedDown(s, i))
    decreases |s| - i
  {
    if 2 * i + 1 < |s| {
      if Less(s[i], s[ChildOf(s, i)]) {
        forall k {:trigger Parent(k)} | 0 < k < |s| ensures !Less(s[k], s[Parent(k)]) {
          if Parent(k) == i { assert k == 2 * i + 1 || k == 2 * i + 2; }
        }
      } else {
        DownMovesDefect(s, i);
        SiftedDownIsHeap(Exchange(s, i, ChildOf(s, i)), ChildOf(s, i));
      }
    }
  }

  /** Pushing keeps the heap order. */
  lemma PushedIsHeap(s: seq<Item>, x: Item)
    requires HeapOrder(s)
    ensures HeapOrder(Pushed(s, x))
  {
    var t := s + [x];
    forall k {:trigger Parent(k)} | 0 < k < |t| && k != |s| ensures !Less(t[k], t[Parent(k)]) {
      assert !Less(s[k], s[Parent(k)]);
    }
    SiftedUpIsHeap(t, |s|);
  }

  /** Popping keeps the heap order. */
  lemma PoppedIsHeap(s: seq<Item>)
    requires HeapOrder(s) && s != []
    ensures HeapOrder(Popped(s))
  {
    var t := s[0 := s[|s| - 1]][..|s| - 1];
    forall k {:trigger Parent(k)} | 0 < k < |t| && Parent(k) != 0 ensures !Less(t[k], t[Parent(k)]) {
      assert !Less(s[k], s[Parent(k)]);
    }
    SiftedDownIsHeap(t, 0);
  }

  // ----- Contents -----

  /** The tasks (or candidates) carried by the items, in storage order. */
  ghost function EltSeq(s: seq<Item>): (e: seq<int>)
    ensures |e| == |s|
  {
    seq(|s|, i requires 0 <= i < |s| => s[i].elt)
  }

  /** The same with multiplicity, storage order forgotten. */
  ghost function Elts(s: seq<Item>): multiset<int> {
    multiset(EltSeq(s))
  }

  lemma SwapKeepsMultiset<T>(s: seq<T>, i: nat, j: nat)
    requires i < |s| && j < |s|
    ensures multiset(s[i := s[j]][j := s[i]]) == multiset(s)
  {
  }

  lemma DropRoot<T>(s: seq<T>)
    requires s != []
    ensures multiset(s) == multiset(s[0 := s[|s| - 1]][..|s| - 1]) + multiset{s[0]}
  {
    if |s| == 1 {
      assert s == [s[0]];
    } else {
      var mid, last := s[1..|s| - 1], s[|s| - 1];
      assert s == [s[0]] + (mid + [last]);
      assert s[0 := last][..|s| - 1] == [last] + mid;
    }
  }

  lemma ExchangeKeepsItems(s: seq<Item>, i: nat, j: nat)
    requires i < |s| && j < |s|
    ensures multiset(Exchange(s, i, j)) == multiset(s)
    ensures Elts(Exchange(s, i, j)) == Elts(s)
  {
    var e := EltSeq(s);
    assert EltSeq(Exchange(s, i, j)) == e[i := e[j]][j := e[i]];
    SwapKeepsMultiset(e, i, j);
    SwapKeepsMultiset(s, i, j);
  }

  lemma {:induction false} SiftedUpKeepsItems(s: seq<Item>, i: nat)
    requires i < |s|
    ensures multiset(SiftedUp(s, i)) == multiset(s) && Elts(SiftedUp(s, i)) == Elts(s)
    decreases i
  {
    if i > 0 && Less(s[i], s[Parent(i)]) {
      ExchangeKeepsItems(s, i, Parent(i));
      SiftedUpKeepsItems(Exchange(s, i, Parent(i)), Parent(i));
    }
  }

  lemma {:induction false} SiftedDownKeepsItems(s: seq<Item>, i: nat)
    ensures multiset(SiftedDown(s, i)) == multiset(s) && Elts(SiftedDown(s, i)) == Elts(s)
    decreases |s| - i
  {
    if 2 * i + 1 < |s| && !Less(s[i], s[ChildOf(s, i)]) {
      ExchangeKeepsItems(s, i, ChildOf(s, i));
      SiftedDownKeepsItems(Exchange(s, i, ChildOf(s, i)), ChildOf(s, i));
    }
  }

  /** Pushing adds exactly the new item. */
  lemma PushedItems(s: seq<Item>, x: Item)
    ensures multiset(Pushed(s, x)) == multiset(s) + multiset{x}
    ensures Elts(Pushed(s, x)) == Elts(s) + multiset{x.elt}
  {
    assert EltSeq(s + [x]) == EltSeq(s) + [x.elt];
    SiftedUpKeepsItems(s + [x], |s|);
  }

  /** Popping removes exactly the root. */
  lemma PoppedItems(s: seq<Item>)
    requires s != []
    ensures multiset(s) == multiset(Popped(s)) + multiset{s[0]}
    ensures Elts(s) == Elts(Popped(s)) + multiset{s[0].elt}
  {
    var kept := s[0 := s[|s| - 1]][..|s| - 1];
    var e := EltSeq(s);
    assert EltSeq(kept) == e[0 := e[|e| - 1]][..|e| - 1];
    SiftedDownKeepsItems(kept, 0);
    DropRoot(s);
    DropRoot(e);
  }

  // ----- Popping until empty -----

  /** The items in the order in which successive pops return them. */
  ghost function Drained(s: seq<Item>): (d: seq<Item>)
    ensures |d| == |s|
    decreases |s|
  {
    if s == [] then [] else [s[0]] + Drained(Popped(s))
  }

  lemma RootBelow(s: seq<Item>, d: seq<Item>)
    requires HeapOrder(s) && multiset(d) <= multiset(s)
    ensures forall j :: 0 <= j < |d| ==> !Less(d[j], s[0])
  {
    forall j | 0 <= j < |d| ensures !Less(d[j], s[0]) {
      assert d[j] in multiset(d);
      assert d[j] in s;
      var k :| 0 <= k < |s| && s[k] == d[j];
      RootIsLeast(s, k);
    }
  }

  ghost predicate SortedItems(d: seq<Item>) {
    forall i, j :: 0 <= i < j < |d| ==> !Less(d[j], d[i])
  }

  lemma SortedCons(x: Item, d: seq<Item>)
    requires SortedItems(d) && forall j :: 0 <= j < |d| ==> !Less(d[j], x)
    ensures SortedItems([x] + d)
  {
  }

  /** Draining a heap returns all its items in non-decreasing order of their keys. */
  lemma {:induction false} DrainedIsSorted(s: seq<Item>)
    requires HeapOrder(s)
    ensures multiset(Drained(s)) == multiset(s)
    ensures SortedItems(Drained(s))
    decreases |s|
  {
    if s != [] {
      PoppedIsHeap(s);
      PoppedItems(s);
      DrainedIsSorted(Popped(s));
      RootBelow(s, Drained(Popped(s)));
      SortedCons(s[0], Drained(Popped(s)));
    }
  }

  /** Items leave by their first key, and by their second one when the first ones are equal. */
  lemma PopOrder(s: seq<Item>, i: int, j: int)
    requires HeapOrder(s) && 0 <= i < j < |s|
    ensures var x, y := Drained(s)[i], Drained(s)[j];
            x.key1 < y.key1 || (x.key1 == y.key1 && x.key2 <= y.key2)
  {
    DrainedIsSorted(s);
  }

  class Queue {
    var size: nat
    var used: nat
    var elttab: array<Item>

    ghost predicate Valid()
      reads this, elttab
    {
      size == elttab.Length && used <= size && HeapOrder(elttab[..used])
    }

    ghost function Contents(): seq<Item>
      requires used <= elttab.Length
      reads this, elttab
    {
      elttab[..used]
    }

    constructor (size: nat)
      ensures Valid() && fresh(elttab)
      ensures Contents() == []
    {
      this.size := size;
      used := 0;
      elttab := new Item[size](_ => Item(0.0, 0.0, 0));
    }

    method Size() returns (n: nat)
      requires Valid()
      ensures n == |Contents()|
    {
      n := used;
    }

    /** Growth of pqueuePush2: the array doubles plus one and keeps its items. */
    method Grow()
      requires Valid()
      modifies this
      ensures Valid() && used < size
      ensures Contents() == old(Contents())
      ensures elttab == old(elttab) || fresh(elttab)
      ensures used == old(used)
    {
      if size == used {
        var bigger := new Item[size * 2 + 1](_ => Item(0.0, 0.0, 0));
        for k := 0 to size
          modifies bigger
          invariant bigger[..k] == elttab[..k]
        {
          bigger[k] := elttab[k];
        }
        assert bigger[..used] == elttab[..used];
        elttab := bigger;
        size := size * 2 + 1;
      }
    }

    method Swap(i: nat, j: nat)
      requires i < used <= elttab.Length && j < used
      modifies elttab
      ensures elttab[..used] == Exchange(old(elttab[..used]), i, j)
    {
      elttab[i], elttab[j] := elttab[j], elttab[i];
    }

    method SiftUp()
      requires 0 < used <= elttab.Length
      modifies elttab
      ensures elttab[..used] == SiftedUp(old(elttab[..used]), used - 1)
    {
      var i := used - 1;
      while i > 0 && Less(elttab[i], elttab[Parent(i)])
        invariant 0 <= i < used
        invariant SiftedUp(elttab[..used], i) == SiftedUp(old(elttab[..used]), used - 1)
      {
        var hi := Parent(i);
        Swap(i, hi);
        i := hi;
      }
    }

    /** Inserts one item in a queue of any size, the empty one included. */
    method Push2(elt: int, key1: real, key2: real)
      requires Valid()
      modifies this, elttab
      ensures Valid() && (elttab == old(elttab) || fresh(elttab))
      ensures Contents() == Pushed(old(Contents()), Item(key1, key2, elt))
    {
      Grow();
      ghost var before := Contents();
      elttab[used] := Item(key1, key2, elt);
      used := used + 1;
      assert elttab[..used] == before + [Item(key1, key2, elt)];
      SiftUp();
      PushedIsHeap(before, Item(key1, key2, elt));
    }

    /** The element at the head of the queue; the caller checked the size. */
    method Read() returns (elt: int)
      requires Valid() && used > 0
      ensures elt == Contents()[0].elt
    {
      elt := elttab[0].elt;
    }

    method SiftDown()
      requires used <= elttab.Length
      modifies elttab
      ensures elttab[..used] == SiftedDown(old(elttab[..used]), 0)
    {
      var i := 1;
      while i <= used / 2
        invariant 1 <= i
        invariant SiftedDown(elttab[..used], i - 1) == SiftedDown(old(elttab[..used]), 0)
        decreases used - i
      {
        var j;
        if 2 * i == used || Less(elttab[2 * i - 1], elttab[2 * i]) {
          j := 2 * i;
        } else {
          j := 2 * i + 1;
        }
        assert j - 1 == ChildOf(elttab[..used], i - 1);
        if !Less(elttab[i - 1], elttab[j - 1]) {
          Swap(i - 1, j - 1);
          i := j;
        } else {
          break;
        }
      }
    }

    /** Removes and returns a least item; an empty queue answers -1 and is left alone. */
    method Pop2() returns (elt: int, key1: real, key2: real)
      requires Valid()
      modifies this, elttab
      ensures Valid() && elttab == old(elttab)
      ensures old(used) == 0 ==> elt == -1 && Contents() == []
      ensures old(used) > 0 ==>
                var head := Item(key1, key2, elt);
                && head == old(Contents())[0]
                && (forall k :: 0 <= k < old(used) ==>
                      var x := old(Contents())[k]; key1 < x.key1 || (key1 == x.key1 && key2 <= x.key2))
                && Contents() == Popped(old(Contents()))
    {
      if used == 0 {
        return -1, 0.0, 0.0;
      }
      ghost var before := Contents();
      forall k | 0 <= k < used ensures !Less(before[k], before[0]) { RootIsLeast(before, k); }
      elt, key1, key2 := elttab[0].elt, elttab[0].key1, elttab[0].key2;
      elttab[0] := elttab[used - 1];
      used := used - 1;
      assert elttab[..used] == before[0 := before[|before| - 1]][..|before| - 1];
      SiftDown();
      PoppedIsHeap(before);
    }
  }
}
