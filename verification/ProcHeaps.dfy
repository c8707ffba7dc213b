/** The task heaps of the simulated processors (proctab[].readytask and futuretask).
    They are distinct queues; the view gives the contents of each one. */
module ProcHeaps {
  import opened Queue

  class Heaps {
    const queues: seq<Queue>
    ghost var view: seq<seq<Item>>
    ghost var Repr: set<object>

    ghost predicate Valid()
      reads this, Repr
    {
      this in Repr && |view| == |queues| && ValidFrom(0)
    }

    /** Queues k, k+1, ... are valid, hold what the view says and are all distinct. */
    ghost predicate ValidFrom(k: nat)
      reads this, Repr
      decreases |queues| - k
    {
      k < |queues| ==>
        && k < |view| && QueueOk(k)
        && (forall r :: k < r < |queues| ==> Apart(k, r))
        && ValidFrom(k + 1)
    }

    ghost predicate QueueOk(q: int)
      requires 0 <= q < |queues| && q < |view|
      reads this, Repr
    {
      && queues[q] in Repr && queues[q].elttab in Repr
      && queues[q].Valid() && queues[q].Contents() == view[q]
    }

    ghost predicate Apart(q: int, r: int)
      requires 0 <= q < |queues| && 0 <= r < |queues|
      reads this, Repr
    {
      && queues[q] in Repr && queues[r] in Repr
      && queues[q] != queues[r] && queues[q].elttab != queues[r].elttab
    }

    ghost predicate AllValid()
      reads this, Repr
    {
      && this in Repr && |view| == |queues|
      && (forall q :: 0 <= q < |queues| ==> QueueOk(q))
      && (forall q, r :: 0 <= q < r < |queues| ==> Apart(q, r))
    }

    lemma {:induction false} Unfold(k: nat)
      requires |view| == |queues| && ValidFrom(k)
      ensures forall q :: k <= q < |queues| ==> QueueOk(q)
      ensures forall q, r :: k <= q < r < |queues| ==> Apart(q, r)
      decreases |queues| - k
    {
      if k < |queues| { Unfold(k + 1); }
    }

    lemma {:induction false} Fold(k: nat)
      requires AllValid()
      ensures ValidFrom(k)
      decreases |queues| - k
    {
      if k < |queues| { Fold(k + 1); }
    }

    lemma Open(q: int)
      requires Valid() && 0 <= q < |queues|
      ensures AllValid() && QueueOk(q)
      ensures forall r :: 0 <= r < |queues| && r != q ==> queues[r] != queues[q] && queues[r].elttab != queues[q].elttab
    {
      Unfold(0);
      forall r | 0 <= r < |queues| && r != q ensures queues[r] != queues[q] && queues[r].elttab != queues[q].elttab {
        assert if r < q then Apart(r, q) else Apart(q, r);
      }
    }

    /** Only queue q changed: the others are where they were. */
    twostate lemma Refold(q: int)
      requires old(AllValid()) && 0 <= q < |queues| && this in Repr && |view| == |queues| && QueueOk(q)
      requires forall r :: 0 <= r < |queues| && r != q ==> unchanged(queues[r]) && unchanged(queues[r].elttab)
      requires forall r :: 0 <= r < |queues| && r != q ==> view[r] == old(view[r])
      requires old(Repr) <= Repr && (queues[q].elttab == old(queues[q].elttab) || fresh(queues[q].elttab))
      ensures Valid()
    {
      forall r | 0 <= r < |queues| ensures QueueOk(r) {
        if r != q { assert old(QueueOk(r)); }
      }
      forall r, t | 0 <= r < t < |queues| ensures Apart(r, t) {
        assert old(Apart(r, t));
        assert old(QueueOk(r)) && old(QueueOk(t));
      }
      Fold(0);
    }

    constructor (number: nat, initial: nat)
      ensures Valid() && fresh(Repr)
      ensures |view| == number && forall q :: 0 <= q < number ==> view[q] == []
    {
      var qs: seq<Queue> := [];
      ghost var objs: set<object> := {};
      for k := 0 to number
        invariant |qs| == k
        invariant fresh(objs)
        invariant forall q :: 0 <= q < k ==> qs[q] in objs && qs[q].elttab in objs
        invariant forall q :: 0 <= q < k ==> qs[q].Valid() && qs[q].Contents() == []
        invariant forall q, r :: 0 <= q < r < k ==> qs[q] != qs[r] && qs[q].elttab != qs[r].elttab
      {
        var another := new Queue(initial);
        qs := qs + [another];
        objs := objs + {another, another.elttab};
      }
      queues := qs;
      view := seq(number, _ => []);
      Repr := {this} + objs;
      new;
      Fold(0);
    }

    method Size(q: nat) returns (n: nat)
      requires Valid() && q < |view|
      ensures n == |view[q]|
    {
      Open(q);
      n := queues[q].Size();
    }

    method Read(q: nat) returns (elt: int)
      requires Valid() && q < |view| && view[q] != []
      ensures elt == view[q][0].elt
    {
      Open(q);
      elt := queues[q].Read();
    }

    method Push(q: nat, elt: int, key1: real, key2: real)
      requires Valid() && q < |view|
      modifies Repr
      ensures Valid() && fresh(Repr - old(Repr)) && old(Repr) <= Repr
      ensures view == old(view)[q := Pushed(old(view)[q], Item(key1, key2, elt))]
    {
      Open(q);
      queues[q].Push2(elt, key1, key2);
      view := view[q := Pushed(view[q], Item(key1, key2, elt))];
      Repr := Repr + {queues[q].elttab};
      Refold(q);
    }

    method Pop(q: nat) returns (elt: int)
      requires Valid() && q < |view| && view[q] != []
      modifies Repr
      ensures Valid() && Repr == old(Repr)
      ensures elt == old(view)[q][0].elt
      ensures view == old(view)[q := Popped(old(view)[q])]
    {
      var key1, key2;
      Open(q);
      elt, key1, key2 := queues[q].Pop2();
      view := view[q := Popped(view[q])];
      Refold(q);
    }
  }
}
