/** What goes wrong in the code as shipped: p_cursem outlives the wait, terminateProgeny then
    looks for the process on the wrong queue, and freePcb enqueues it all the same. */
module Defects {
  import opened Lists
  import opened Forest
  import opened Nucleus
  import opened Invariant
  import opened Threads
  import opened Machine
  import opened Clist
  import Pcb

  // ----- freePcb of a process that is on the ready queue -----

  /** Freeing a process that is still on the ready queue: if it is not last there, the ready
      queue is no list at all any more, for from the process on the links lead through the free
      list and back and never reach the tail; if it is last, the ready queue and the free list
      have become one and the same list. */
  lemma FreedWhileReady(m: seq<int>, rq: int, ready: seq<int>, fq: int, free: seq<int>, i: nat, t: seq<int>)
    requires IsList(m, rq, ready) && IsList(m, fq, free) && forall x :: x in ready ==> x !in free
    requires i < |ready| && 0 <= ready[i] < |m| && NIL <= fq < |m|
    ensures i < |ready| - 1 ==> !IsList(Appended(m, fq, ready[i]), rq, t)
    ensures i == |ready| - 1 ==> rq == ready[i] && IsList(Appended(m, fq, ready[i]), rq, free + [ready[i]])
  {
    var m' := Appended(m, fq, ready[i]);
    if i < |ready| - 1 {
      if IsList(m', rq, t) {
        var walk := ready[..i + 1] + free + [ready[i]];
        WalkOn(m, rq, ready, fq, free, i);
        assert walk[i] == ready[i] == walk[|walk| - 1];
        Follows(m', rq, t, walk);
        assert false;
      }
    } else {
      var p := ready[i];
      assert p in ready;
      AppendedList(m, fq, p, free);
    }
  }

  /** The links starting at the head of the ready queue. */
  lemma WalkOn(m: seq<int>, rq: int, ready: seq<int>, fq: int, free: seq<int>, i: nat)
    requires IsList(m, rq, ready) && IsList(m, fq, free) && forall x :: x in ready ==> x !in free
    requires i < |ready| - 1 && 0 <= ready[i] < |m| && NIL <= fq < |m|
    ensures var m', walk := Appended(m, fq, ready[i]), ready[..i + 1] + free + [ready[i]];
      && 0 <= rq < |m| && m'[rq] == walk[0]
      && (forall k :: 0 <= k < |walk| ==> 0 <= walk[k] < |m| && walk[k] != rq)
      && (forall k :: 0 <= k < |walk| - 1 ==> m'[walk[k]] == walk[k + 1])
  {
    var m', walk := Appended(m, fq, ready[i]), ready[..i + 1] + free + [ready[i]];
    assert (free != [] ==> fq in free) && rq in ready && ready[i] in ready;
    forall k | 0 <= k < |walk|
      ensures 0 <= walk[k] < |m| && walk[k] != rq
    {
      if i < k <= i + |free| {
        assert walk[k] == free[k - i - 1] && free[k - i - 1] in free;
      }
    }
    forall k | 0 <= k < |walk| - 1
      ensures m'[walk[k]] == walk[k + 1]
    {
      if k < i {
        assert ready[k] in ready && m[ready[k]] == ready[k + 1];
      } else if i < k < i + |free| {
        assert free[k - i - 1] in free && m[free[k - i - 1]] == free[k - i];
      }
    }
  }

  /** A list that begins like walk contains all of it, as long as walk avoids the tail. */
  lemma Follows(m: seq<int>, tail: int, t: seq<int>, walk: seq<int>)
    requires IsList(m, tail, t) && walk != [] && 0 <= tail < |m| && m[tail] == walk[0]
    requires forall k :: 0 <= k < |walk| ==> 0 <= walk[k] < |m| && walk[k] != tail
    requires forall k :: 0 <= k < |walk| - 1 ==> m[walk[k]] == walk[k + 1]
    ensures NoDup(walk)
  {
    var k := 1;
    assert t[0] == walk[0];
    while k < |walk|
      invariant 1 <= k <= |walk| && k <= |t| && t[..k] == walk[..k]
    {
      assert t[k - 1] == walk[k - 1] != tail;
      assert m[walk[k - 1]] == walk[k];
      k := k + 1;
    }
  }

  // ----- src/exceptions.c 43-44 -----

  /** The memory after freePcb of p and the count. */
  ghost function Buried(i: Image, p: int): Image
    requires Proc(i.s, p) && |i.pn| == |i.s.loc| && NIL <= i.pcbFree < |i.pn|
  {
    Pcb.FreedIn(i, p).(s := Pcb.Freed(i.s, p).(count := i.s.count - 1))
  }

  lemma BuriedState(i: Image, p: int)
    requires Proc(i.s, p) && |i.pn| == |i.s.loc| && NIL <= i.pcbFree < |i.pn|
    ensures Buried(i, p).s == Pcb.Freed(i.s, p).(count := i.s.count - 1)
    ensures Sized(i.s) ==> Sized(Buried(i, p).s)
  {
  }

  lemma TailOfFree(i: Image)
    requires Rep(i)
    ensures |i.pn| == |i.s.loc| && NIL <= i.pcbFree < |i.pn| && Sized(i.s) && Kin(i.s.fam)
    ensures forall p :: Proc(i.s, p) ==> Person(i.s.fam, p)
  {
    hide Rep, IsList, Kin;
    Pcb.QueueList(i, Free);
    TailIn(i.pn, i.pcbFree, i.s.free);
    Pcb.RepKin(i);
  }

  lemma BuriedRep(i: Image, p: int)
    requires Rep(i) && Proc(i.s, p) && i.s.loc[p] == Off && i.s.fam.parent[p] == NIL && i.s.fam.kids[p] == []
    ensures |i.pn| == |i.s.loc| && NIL <= i.pcbFree < |i.pn| && Rep(Buried(i, p))
  {
    hide Rep;
    TailOfFree(i);
    Pcb.FreeRep(i, p);
    RepSame(Pcb.FreedIn(i, p), Buried(i, p).s);
  }

  /** A process that is on the ready queue is then listed there and on the free list. */
  lemma ReadyBurial(i: Image, p: int, j: Image)
    requires Rep(i) && Proc(i.s, p) && i.s.loc[p] == Ready && |i.pn| == |i.s.loc| && NIL <= i.pcbFree < |i.pn|
    requires SameMemory(Buried(i, p), j)
    ensures !Rep(j)
  {
    if Rep(j) {
      hide Rep, IsList;
      Pcb.QueueList(i, Ready);
      Pcb.QueueList(i, Free);
      Pcb.QueueList(j, Ready);
      Pcb.QueueList(j, Free);
      TailIn(j.pn, p, j.s.free);
      assert p in i.s.ready;
      var k :| 0 <= k < |i.s.ready| && i.s.ready[k] == p;
      FreedWhileReady(i.pn, i.readyQ, i.s.ready, i.pcbFree, i.s.free, k, j.s.ready);
      TailIn(j.pn, j.readyQ, j.s.ready);
      assert false;
    }
  }

  /** Freeing a process without relatives leaves a memory that represents the state in which it is
      free, if it was on no queue; if it was on the ready queue, one that represents no state. */
  lemma BuriedIff(i: Image, p: int)
    requires Rep(i) && Proc(i.s, p) && i.s.fam.parent[p] == NIL && i.s.fam.kids[p] == []
    requires i.s.loc[p] == Off || i.s.loc[p] == Ready
    ensures |i.pn| == |i.s.loc| && NIL <= i.pcbFree < |i.pn|
    ensures Meaningful(Buried(i, p)) <==> i.s.loc[p] == Off
    ensures i.s.loc[p] == Off ==>
      Rep(Buried(i, p)) && Buried(i, p).s == Pcb.Freed(i.s, p).(count := i.s.count - 1)
  {
    hide Rep, SameMemory, Buried;
    TailOfFree(i);
    BuriedState(i, p);
    if i.s.loc[p] == Off {
      BuriedRep(i, p);
      Reflexive(Buried(i, p));
    } else {
      forall j | SameMemory(Buried(i, p), j)
        ensures !Rep(j)
      {
        ReadyBurial(i, p, j);
      }
    }
  }

  lemma Reflexive(i: Image)
    ensures SameMemory(i, i)
  {
  }
}
