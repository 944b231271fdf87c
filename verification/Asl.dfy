/** src/asl.c: the list of active semaphore descriptors, sorted by address, each with the
    queue of processes blocked on it, and the list of free descriptors. */
module Asl {
  import opened Lists
  import opened Forest
  import opened Nucleus
  import opened Shelves
  import opened Invariant
  import opened Threads
  import opened Machine
  import Clist
  import Pcb

  // ----- what the operations mean -----

  /** p waits at the end of the line of a. */
  function Blocked(s: Sys, a: int, p: int): Sys
    requires Sized(s) && Proc(s, p)
  {
    var h := Engage(s.shelf, a);
    s.(wait := s.wait[a := Queue(s, a) + [p]], loc := s.loc[p := Waiting(a)], cursem := s.cursem[p := DescOf(h, a)],
       shelf := h)
  }

  /** p has left its line; an empty line is closed and its descriptor free. */
  function Unblocked(s: Sys, p: int): Sys
    requires Proc(s, p) && s.loc[p].Waiting?
  {
    var a := s.loc[p].sem;
    var q := Minus(Queue(s, a), [p]);
    s.(wait := if q == [] then s.wait - {a} else s.wait[a := q], loc := s.loc[p := Off],
       shelf := if q == [] then Retire(s.shelf, a) else s.shelf)
  }

  // ----- searching the list of active descriptors -----

  /** An image in which lines may be empty: the memory between two steps of an operation. */
  ghost predicate Open(i: Image) {
    && Lengths(i)
    && Threaded(i.pn, i.s.loc, Qs(i.s), Ts(i))
    && Table(i.sn, i.aslh, i.semdFree, i.act, i.s.shelf.idle, i.semAdd, i.s.shelf.desc)
    && i.s.shelf.desc.Keys == i.s.wait.Keys
    && Vacant(i.act, i.procq)
    && Kids(i.ps, i.children, i.s.fam)
    && Housed(i.s.loc, i.s.fam)
    && Pointed(i.s.loc, i.s.cursem, i.s.shelf.desc)
    && i.abs == i.s.fam.born % Pcb.C.WORD
  }

  lemma OpenRep(i: Image)
    ensures Rep(i) <==> Open(i) && forall a :: a in i.s.wait ==> i.s.wait[a] != []
  {
    hide Lengths, Threaded, Table, Kids, Housed, Pointed;
  }

  ghost predicate Opened(k: Kernel)
    reads k, k.pNext, k.pSib, k.sNext
  {
    k.Apart() && Open(k.Img())
  }

  lemma ActiveList(i: Image)
    requires Open(i)
    ensures Clist.IsList(i.sn, i.aslh, i.act) && Clist.IsList(i.sn, i.semdFree, i.s.shelf.idle)
    ensures Sorted(i.act, i.semAdd) && Index(i.act, i.semAdd, i.s.shelf.desc)
    ensures Shelved(i.sn, i.aslh, i.semdFree, i.act, i.s.shelf.idle)
    ensures |i.semAdd| == |i.sn| == |i.procq| == |i.s.loc|
    ensures forall j :: 0 <= j < |i.act| ==> 0 <= i.act[j] < |i.semAdd|
    ensures i.s.shelf.desc.Keys == i.s.wait.Keys
  {
    hide Threaded, Kids, Housed, Pointed, Sorted, Index;
  }

  /** The loop that headBlocked, removeBlocked and insertBlocked share: it breaks at the
      descriptor of a, or at the first larger address. */
  method Find(k: Kernel, a: int) returns (scan: int, flag: bool)
    requires k.Valid()
    ensures flag <==> a in k.desc
    ensures flag ==> scan == k.desc[a]
  {
    hide Rep, Open, Sorted, Index, Shelved, Clist.IsList;
    ghost var im := k.Img();
    OpenRep(im);
    ActiveList(im);
    var add := k.semAdd;
    var tmp;
    ghost var i;
    scan, tmp, i := Clist.Foreach(k.sNext, k.aslh, d => 0 <= d < |add| && add[d] >= a, k.act);
    var all := Clist.ForeachAll(k.sNext, k.aslh, tmp, k.act, i);
    ScanDecides(k.act, add, k.desc, a, i);
    flag := !all && add[scan] == a;
  }

  /** headBlocked */
  method HeadBlocked(k: Kernel, a: int) returns (h: int)
    requires k.Valid()
    ensures h == Head(k.Abs(), a)
  {
    hide Rep, Open, Clist.IsList;
    var scan, flag := Find(k, a);
    ghost var i := k.Img();
    OpenRep(i);
    LineOf(i, a);
    if !flag {
      h := NIL;
    } else if k.sNext[scan] == NIL {
      assert false by { LinkOfActive(i, scan); }
    } else {
      h := Clist.Head(k.pNext, k.procq[scan], Queue(k.Abs(), a));
    }
  }

  /** The line of a is the list that starts at its descriptor. */
  lemma LineOf(i: Image, a: int)
    requires Open(i)
    ensures a in i.s.shelf.desc <==> a in i.s.wait
    ensures a in i.s.shelf.desc ==> 0 <= i.s.shelf.desc[a] < |i.procq| == |i.sn| && i.s.shelf.desc[a] in i.act
    ensures a in i.s.shelf.desc ==> Clist.IsList(i.pn, i.procq[i.s.shelf.desc[a]], Queue(i.s, a))
    ensures Tagged(Queue(i.s, a), i.s.loc, Waiting(a)) && |i.pn| == |i.s.loc|
  {
    hide Kids, Housed, Pointed, Sorted, Shelved, Clist.IsList;
    ThreadAt(i.pn, i.s.loc, Qs(i.s), Ts(i), Waiting(a));
  }

  /** The link of a listed descriptor is never null. */
  lemma LinkOfActive(i: Image, d: int)
    requires Open(i) && d in i.act
    ensures 0 <= d < |i.sn| && i.sn[d] != NIL
  {
    hide Kids, Housed, Pointed, Sorted, Index, Threaded;
    var j :| 0 <= j < |i.act| && i.act[j] == d;
    Pcb.LastOf(i.sn, i.aslh, i.act, j);
  }

  // ----- joining and leaving the line of an active descriptor -----

  /** Descriptors of different semaphores differ. */
  lemma OtherLines(i: Image, a: int, s: Sys, procq: seq<int>)
    requires Open(i) && a in i.s.shelf.desc && |procq| == |i.procq|
    requires s.free == i.s.free && s.ready == i.s.ready && s.shelf == i.s.shelf
    requires forall b :: b != a ==> Line(s.wait, b) == Line(i.s.wait, b)
    requires forall d :: 0 <= d < |procq| && d != i.s.shelf.desc[a] ==> procq[d] == i.procq[d]
    ensures Elsewhere(Qs(i.s), Ts(i), Qs(s), Ts(i.(s := s, procq := procq)), Waiting(a))
  {
    hide Kids, Housed, Pointed, Sorted, Shelved, Threaded, Lengths;
  }

  lemma JoinLine(i: Image, a: int, p: int, pn: seq<int>, tail: int)
    requires Open(i) && Proc(i.s, p) && i.s.loc[p] == Off && a in i.s.shelf.desc
    requires 0 <= i.s.shelf.desc[a] < |i.procq| && Sized(i.s)
    requires Clist.SameBut(i.pn, pn, Queue(i.s, a) + [p]) && Clist.IsList(pn, tail, Queue(i.s, a) + [p])
    ensures Open(i.(s := Blocked(i.s, a, p), pn := pn, procq := i.procq[i.s.shelf.desc[a] := tail]))
  {
    hide Threaded, Table, Kids, Kin, Clist.IsList;
    var s', procq := Blocked(i.s, a, p), i.procq[i.s.shelf.desc[a] := tail];
    var i' := i.(s := s', pn := pn, procq := procq);
    OtherLines(i, a, s', procq);
    ActiveAt(i, a);
    ThreadJoin(i.pn, i.s.loc, Qs(i.s), Ts(i), pn, Qs(s'), Ts(i'), Waiting(a), p);
    HousedOff(i.s.loc, i.s.fam, p, Waiting(a));
    assert i'.s.shelf.desc.Keys == s'.wait.Keys;
  }

  /** p has left its line, which may now be empty. */
  function Left(s: Sys, p: int): Sys
    requires Proc(s, p) && s.loc[p].Waiting?
  {
    var a := s.loc[p].sem;
    s.(wait := s.wait[a := Minus(Queue(s, a), [p])], loc := s.loc[p := Off])
  }

  lemma LeaveLine(i: Image, p: int, pn: seq<int>, tail: int)
    requires Open(i) && Proc(i.s, p) && i.s.loc[p].Waiting? && i.s.loc[p].sem in i.s.shelf.desc
    requires 0 <= i.s.shelf.desc[i.s.loc[p].sem] < |i.procq|
    requires var q := Queue(i.s, i.s.loc[p].sem); Clist.SameBut(i.pn, pn, q) && Clist.IsList(pn, tail, Minus(q, [p]))
    ensures Open(i.(s := Left(i.s, p), pn := pn, procq := i.procq[i.s.shelf.desc[i.s.loc[p].sem] := tail]))
  {
    hide Threaded, Table, Kids, Kin, Clist.IsList;
    var a := i.s.loc[p].sem;
    var s', procq := Left(i.s, p), i.procq[i.s.shelf.desc[a] := tail];
    var i' := i.(s := s', pn := pn, procq := procq);
    OtherLines(i, a, s', procq);
    ActiveAt(i, a);
    ThreadLeave(i.pn, i.s.loc, Qs(i.s), Ts(i), pn, Qs(s'), Ts(i'), Waiting(a), p);
    HousedOff(i.s.loc, i.s.fam, p, Off);
    assert i'.s.shelf.desc.Keys == s'.wait.Keys;
  }

  // ----- putting a descriptor into service and out of it -----

  lemma ThreadSame(pn: seq<int>, loc: seq<Loc>, q: Queues, t: Tails, q': Queues, t': Tails)
    requires Threaded(pn, loc, q, t)
    requires forall u: Loc :: QueueAt(q', u) == QueueAt(q, u) && TailAt(t', u) == TailAt(t, u)
    ensures Threaded(pn, loc, q', t')
  {
    forall u: Loc | u != Off
      ensures Clist.IsList(pn, TailAt(t', u), QueueAt(q', u)) && Tagged(QueueAt(q', u), loc, u)
    {
      ThreadAt(pn, loc, q, t, u);
    }
  }

  /** Descriptor d, without waiters, serves a from now on. */
  function EngagedIn(i: Image, a: int, d: int, sn: seq<int>, aslh: int, semdFree: int, act: seq<int>): Image
    requires 0 <= d < |i.semAdd| == |i.procq|
  {
    i.(s := i.s.(wait := i.s.wait[a := []], shelf := Engage(i.s.shelf, a)),
       sn := sn, aslh := aslh, semdFree := semdFree, act := act, semAdd := i.semAdd[d := a], procq := i.procq[d := NIL])
  }

  lemma EngageRep(i: Image, a: int, d: int, sn: seq<int>, aslh: int, semdFree: int, act: seq<int>)
    requires Open(i) && a !in i.s.shelf.desc && 0 <= d < |i.semAdd| == |i.procq| && d !in i.act
    requires i.s.shelf.idle != [] && d == i.s.shelf.idle[0] && |sn| == |i.sn|
    requires forall x :: x in i.act ==> x in act
    requires var h := Engage(i.s.shelf, a); Table(sn, aslh, semdFree, act, h.idle, i.semAdd[d := a], h.desc)
    ensures Open(EngagedIn(i, a, d, sn, aslh, semdFree, act))
  {
    hide Threaded, Table, Kids, Housed, Sorted, Shelved;
    var i' := EngagedIn(i, a, d, sn, aslh, semdFree, act);
    forall u: Loc
      ensures QueueAt(Qs(i'.s), u) == QueueAt(Qs(i.s), u) && TailAt(Ts(i'), u) == TailAt(Ts(i), u)
    {
      EngageTail(i, a, d, u);
    }
    ThreadSame(i.pn, i.s.loc, Qs(i.s), Ts(i), Qs(i'.s), Ts(i'));
    assert i'.s.shelf.desc.Keys == i'.s.wait.Keys;
  }

  lemma EngageTail(i: Image, a: int, d: int, u: Loc)
    requires Open(i) && a !in i.s.shelf.desc && 0 <= d < |i.semAdd| == |i.procq| && d !in i.act
    ensures Line(i.s.wait[a := []], if u.Waiting? then u.sem else a) == Line(i.s.wait, if u.Waiting? then u.sem else a)
    ensures TailAt(Tails(i.pcbFree, i.readyQ, i.procq[d := NIL], i.s.shelf.desc[a := d]), u) == TailAt(Ts(i), u)
  {
    hide Threaded, Kids, Housed, Pointed, Sorted, Shelved;
  }

  /** The descriptor d of a, whose last waiter has left, is free from now on. */
  lemma RetireRep(i: Image, a: int, sn: seq<int>, aslh: int, semdFree: int)
    requires Open(i) && a in i.s.shelf.desc && Queue(i.s, a) == [] && |sn| == |i.sn|
    requires var d := i.s.shelf.desc[a]; Shelved(sn, aslh, semdFree, Minus(i.act, [d]), i.s.shelf.idle + [d])
    ensures Open(i.(s := i.s.(wait := i.s.wait - {a}, shelf := Retire(i.s.shelf, a)), sn := sn, aslh := aslh,
                    semdFree := semdFree, act := Minus(i.act, [i.s.shelf.desc[a]])))
  {
    hide Threaded, Table, Kids, Housed, Sorted, Shelved, Clist.IsList;
    RetireTable(i, a, sn, aslh, semdFree);
    var s' := i.s.(wait := i.s.wait - {a}, shelf := Retire(i.s.shelf, a));
    var i' := i.(s := s', sn := sn, aslh := aslh, semdFree := semdFree, act := Minus(i.act, [i.s.shelf.desc[a]]));
    LineOf(i, a);
    Pcb.EmptyTail(i.pn, i.procq[i.s.shelf.desc[a]], []);
    assert TailAt(Ts(i), Waiting(a)) == NIL == TailAt(Ts(i'), Waiting(a));
    ThreadSame(i.pn, i.s.loc, Qs(i.s), Ts(i), Qs(s'), Ts(i'));
    assert i'.s.shelf.desc.Keys == s'.wait.Keys;
    NobodyWaits(i, a);
  }

  /** Descriptor d, which serves no semaphore, has been enqueued on the free list. */
  lemma RefileRep(i: Image, d: int, sn: seq<int>, semdFree: int)
    requires Open(i) && d !in i.act && 0 <= d < |i.sn| == |sn|
    requires Shelved(sn, i.aslh, semdFree, i.act, Enqueued(i.s.shelf.idle, d))
    ensures Open(i.(s := i.s.(shelf := Refile(i.s.shelf, d)), sn := sn, semdFree := semdFree))
  {
    hide Threaded, Kids, Housed, Sorted, Shelved, Enqueued;
    NotServing(i, d);
    var i' := i.(s := i.s.(shelf := Refile(i.s.shelf, d)), sn := sn, semdFree := semdFree);
    ThreadSame(i.pn, i.s.loc, Qs(i.s), Ts(i), Qs(i'.s), Ts(i'));
  }

  lemma NobodyWaits(i: Image, a: int)
    requires Open(i) && Queue(i.s, a) == []
    ensures forall p :: 0 <= p < |i.s.loc| ==> i.s.loc[p] != Waiting(a)
  {
    hide Kids, Housed, Pointed, Sorted, Shelved, Clist.IsList;
    ThreadAt(i.pn, i.s.loc, Qs(i.s), Ts(i), Waiting(a));
  }

  /** clist_delete from the active list, then clist_enqueue on the free one: an active
      descriptor d changes lists; any other is enqueued, a free one for the second time. */
  method Shelve(next: array<int>, aslh: int, semdFree: int, d: int, ghost act: seq<int>, ghost idle: seq<int>)
    returns (aslh': int, semdFree': int)
    requires Shelved(next[..], aslh, semdFree, act, idle) && 0 <= d < next.Length
    modifies next
    ensures d in act ==> Shelved(next[..], aslh', semdFree', Minus(act, [d]), idle + [d])
    ensures d !in act ==> aslh' == aslh && Shelved(next[..], aslh, semdFree', act, Enqueued(idle, d))
  {
    hide Clist.IsList, Clist.SameBut, Enqueued;
    ghost var sn := next[..];
    Clist.TailIn(sn, semdFree, idle);
    var absent;
    aslh', absent := Clist.Delete(next, aslh, d, act);
    ghost var sn1 := next[..];
    IdleIntact(sn, aslh, semdFree, act, idle, sn1);
    semdFree' := Clist.Enqueue(next, semdFree, d, idle);
    if d in act {
      ShelvedReturn(sn, aslh, semdFree, act, idle, d, sn1, aslh', next[..], semdFree');
    } else {
      ShelvedAgain(sn, aslh, semdFree, act, idle, d);
    }
  }

  lemma ShelvedAgain(sn: seq<int>, aslh: int, semdFree: int, act: seq<int>, idle: seq<int>, d: int)
    requires Shelved(sn, aslh, semdFree, act, idle) && 0 <= d < |sn| && d !in act && NIL <= semdFree < |sn|
    ensures Shelved(Clist.Appended(sn, semdFree, d), aslh, d, act, Enqueued(idle, d))
  {
    hide Clist.IsList, Clist.SameBut, Enqueued, Clist.Appended;
    var sn' := Clist.Appended(sn, semdFree, d);
    Clist.ListNoDup(sn, semdFree, idle);
    if d in idle {
      var i :| 0 <= i < |idle| && idle[i] == d;
      Clist.EnqueuedTwice(sn, semdFree, idle, i);
      EnqueuedAt(idle, i);
      Clist.SameWider(sn, sn', idle, idle + [d]);
    } else {
      Clist.AppendedList(sn, semdFree, d, idle);
      EnqueuedNew(idle, d);
    }
    EnqueuedSome(idle, d);
    Clist.Frame(sn, sn', idle + [d], aslh, act);
  }

  /** The end of removeBlocked and outBlocked for a descriptor d with an empty queue: that of a,
      which is not needed any more, or one that serves no semaphore. */
  method Dismiss(k: Kernel, d: int, ghost a: int)
    requires Opened(k) && 0 <= d < |k.loc| && (d in k.act ==> a in k.desc && d == k.desc[a] && Queue(k.Abs(), a) == [])
    modifies k, k.sNext
    ensures Opened(k) && k.semAdd == old(k.semAdd)
    ensures d in old(k.act) ==>
      k.Abs() == old(k.Abs()).(wait := old(k.wait) - {a}, shelf := Retire(old(k.Abs()).shelf, a))
    ensures d !in old(k.act) ==> k.Abs() == old(k.Abs()).(shelf := Refile(old(k.Abs()).shelf, d))
  {
    hide Open, Clist.IsList, Clist.SameBut, Sorted, Index, Shelved, Enqueued;
    ghost var i := k.Img();
    ActiveList(i);
    var aslh, semdFree := Shelve(k.sNext, k.aslh, k.semdFree, d, k.act, k.idle);
    ghost var sn := k.sNext[..];
    assert k.Img() == i.(sn := sn);
    SetHeads(k, aslh, semdFree);
    if d in k.act {
      RetireRep(i, a, sn, aslh, semdFree);
      SetTable(k, Minus(k.act, [d]), k.idle + [d], k.desc - {a});
      SetLines(k, k.wait - {a});
    } else {
      RefileRep(i, d, sn, semdFree);
      NotServing(i, d);
      SetTable(k, k.act, Enqueued(k.idle, d), k.desc);
    }
  }

  lemma NotServing(i: Image, d: int)
    requires Open(i) && d !in i.act
    ensures d !in i.s.shelf.desc.Values
  {
    hide Kids, Housed, Pointed, Threaded, Sorted, Shelved;
    forall a | a in i.s.shelf.desc
      ensures i.s.shelf.desc[a] != d
    {
      assert i.s.shelf.desc[a] in i.act;
    }
  }

  /** The heads of the two lists of descriptors. */
  method SetHeads(k: Kernel, aslh: int, semdFree: int)
    modifies k
    ensures k.Img() == old(k.Img()).(aslh := aslh, semdFree := semdFree)
  {
    k.aslh, k.semdFree := aslh, semdFree;
  }

  ghost method SetTable(k: Kernel, act: seq<int>, idle: seq<int>, desc: map<int, int>)
    modifies k
    ensures k.Img() == old(k.Img()).(act := act, s := old(k.Abs()).(shelf := Shelf(desc, idle)))
  {
    k.act, k.idle, k.desc := act, idle, desc;
  }

  ghost method SetLines(k: Kernel, wait: map<int, seq<int>>)
    modifies k
    ensures k.Img() == old(k.Img()).(s := old(k.Abs()).(wait := wait))
  {
    k.wait := wait;
  }

  lemma RetireTable(i: Image, a: int, sn: seq<int>, aslh: int, semdFree: int)
    requires Open(i) && a in i.s.shelf.desc && |sn| == |i.sn|
    requires var d := i.s.shelf.desc[a]; Shelved(sn, aslh, semdFree, Minus(i.act, [d]), i.s.shelf.idle + [d])
    ensures var d, h := i.s.shelf.desc[a], Retire(i.s.shelf, a);
      Table(sn, aslh, semdFree, Minus(i.act, [d]), h.idle, i.semAdd, h.desc)
  {
    hide Kids, Housed, Pointed, Threaded, Clist.IsList, Sorted;
    SortedRemove(i.act, i.semAdd, i.s.shelf.desc[a]);
    IndexRemove(i.act, i.semAdd, i.s.shelf.desc, a);
  }

  lemma ActiveAt(i: Image, a: int)
    requires Open(i) && a in i.s.shelf.desc
    ensures var d := i.s.shelf.desc[a]; d in i.act && d !in i.s.shelf.idle && 0 <= d < |i.sn| == |i.s.loc|
  {
    hide Kids, Housed, Pointed, Threaded, Clist.IsList, Sorted;
  }

  // ----- the operations -----

  /** p, at the end of the queue of descriptor d or taken from it, is at x. */
  ghost method SetLine(k: Kernel, p: int, x: Loc, wait: map<int, seq<int>>)
    requires Proc(k.Abs(), p)
    modifies k
    ensures k.Img() == old(k.Img()).(s := old(k.Abs()).(wait := wait, loc := old(k.loc)[p := x]))
  {
    k.loc := k.loc[p := x];
    k.wait := wait;
  }

  method SetQueue(k: Kernel, d: int, tail: int)
    requires 0 <= d < |k.procq|
    modifies k
    ensures k.Img() == old(k.Img()).(procq := old(k.procq)[d := tail])
  {
    k.procq := k.procq[d := tail];
  }

  /** removeBlocked */
  method RemoveBlocked(k: Kernel, a: int) returns (p: int)
    requires k.Valid()
    modifies k, k.pNext, k.sNext
    ensures k.Valid() && p == Head(old(k.Abs()), a) && k.semAdd == old(k.semAdd)
    ensures p == NIL ==> k.Abs() == old(k.Abs())
    ensures p != NIL ==> Proc(old(k.Abs()), p) && old(k.loc[p]) == Waiting(a) && k.Abs() == Unblocked(old(k.Abs()), p)
  {
    hide Rep, Open, Clist.IsList, Clist.SameBut;
    ghost var i := k.Img();
    OpenRep(i);
    LineOf(i, a);
    var scan, flag := Find(k, a);
    if !flag {
      p := NIL;
    } else {
      ghost var q := Queue(i.s, a);
      TaggedHead(q, i.s.loc, Waiting(a));
      MinusFirst(q);
      ActiveAt(i, a);
      p := Clist.Head(k.pNext, k.procq[scan], q);
      var tail := Clist.Dequeue(k.pNext, k.procq[scan], q);
      ghost var pn := k.pNext[..];
      LeaveLine(i, p, pn, tail);
      assert k.Img() == i.(pn := pn);
      SetQueue(k, scan, tail);
      SetLine(k, p, Off, k.wait[a := q[1..]]);
      Close(k, scan, a);
    }
  }

  /** What removeBlocked and outBlocked do with a descriptor d whose queue may be empty: that of
      a, from which an element has gone, or one that serves no semaphore. */
  method Close(k: Kernel, d: int, ghost a: int)
    requires Opened(k) && 0 <= d < |k.loc| && (d in k.act ==> a in k.desc && d == k.desc[a])
    requires forall b :: b in k.wait && (d in k.act ==> b != a) ==> k.wait[b] != []
    modifies k, k.sNext
    ensures k.Valid() && k.semAdd == old(k.semAdd)
    ensures d in old(k.act) ==> var s := old(k.Abs());
      k.Abs() == if Queue(s, a) == [] then s.(wait := s.wait - {a}, shelf := Retire(s.shelf, a)) else s
    ensures d !in old(k.act) ==> k.Abs() == old(k.Abs()).(shelf := Refile(old(k.Abs()).shelf, d))
  {
    hide Rep, Open, Clist.IsList, Clist.SameBut, Refile, Retire;
    ghost var i := k.Img();
    if d in k.act {
      LineOf(i, a);
      Pcb.EmptyTail(i.pn, i.procq[d], Queue(i.s, a));
    } else {
      Unused(i, d);
    }
    if k.procq[d] == NIL {
      Dismiss(k, d, a);
    }
    OpenRep(k.Img());
  }

  lemma Unused(i: Image, d: int)
    requires Open(i) && d !in i.act && 0 <= d < |i.s.loc|
    ensures |i.procq| == |i.s.loc| && i.procq[d] == NIL
  {
    hide Threaded, Table, Kids, Housed, Pointed;
  }

  /** The queue of descriptor d. */
  function LineAt(i: Image, d: int): seq<int> {
    if d in i.act && 0 <= d < |i.semAdd| then Queue(i.s, i.semAdd[d]) else []
  }

  /** p_cursem, when it is not null, points to a descriptor of the table, whose queue is a list;
      the process is on it exactly when it is blocked. */
  lemma PointsAt(i: Image, p: int)
    requires Rep(i) && Proc(i.s, p) && p < |i.s.cursem| && i.s.cursem[p] != NIL
    ensures var d := i.s.cursem[p];
      0 <= d < |i.procq| && |i.semAdd| == |i.procq| == |i.sn| == |i.s.loc|
      && Clist.IsList(i.pn, i.procq[d], LineAt(i, d))
      && (d in i.act <==> d in i.s.shelf.desc.Values)
      && (d in i.act ==> i.semAdd[d] in i.s.shelf.desc && i.s.shelf.desc[i.semAdd[d]] == d && LineAt(i, d) != [])
      && (p in LineAt(i, d) <==> i.s.loc[p].Waiting?)
      && (i.s.loc[p].Waiting? ==> d in i.act && i.s.loc[p].sem == i.semAdd[d])
  {
    hide Rep, Open, Clist.IsList;
    OpenRep(i);
    PointerIn(i, p);
    var d := i.s.cursem[p];
    if d in i.act {
      LineOf(i, i.semAdd[d]);
    } else {
      Unused(i, d);
      NotServing(i, d);
      NoElements(i.pn);
    }
  }

  lemma NoElements(m: seq<int>)
    ensures Clist.IsList(m, NIL, [])
  {
  }

  lemma PointerIn(i: Image, p: int)
    requires Open(i) && Proc(i.s, p) && p < |i.s.cursem| && i.s.cursem[p] != NIL
    ensures var d := i.s.cursem[p];
      0 <= d < |i.procq| && |i.semAdd| == |i.procq| == |i.sn| == |i.s.loc|
      && (d in i.act ==> i.semAdd[d] in i.s.shelf.desc && i.s.shelf.desc[i.semAdd[d]] == d)
      && (i.s.loc[p].Waiting? ==> d in i.act && i.s.loc[p].sem == i.semAdd[d])
  {
    hide Threaded, Kids, Housed, Sorted, Clist.IsList;
  }

  /** outBlocked. A blocked process is found and leaves its line. One whose p_cursem was left
      over from an earlier wait is not found; its old descriptor, unless it serves some semaphore
      now, is enqueued on the free list, where it may stand already. */
  method OutBlocked(k: Kernel, p: int) returns (r: int)
    requires k.Valid() && Proc(k.Abs(), p) && p < |k.cursem| && k.cursem[p] != NIL
    modifies k, k.pNext, k.sNext
    ensures k.Valid()
    ensures old(k.loc[p]).Waiting? ==> r == p && k.Abs() == Unblocked(old(k.Abs()), p)
    ensures !old(k.loc[p]).Waiting? ==>
      r == NIL && k.Abs() == old(k.Abs()).(shelf := Refile(old(k.Abs()).shelf, old(k.cursem[p])))
  {
    hide Rep, Open, Clist.IsList, Clist.SameBut, Enqueued;
    ghost var i := k.Img();
    OpenRep(i);
    PointsAt(i, p);
    var d := k.cursem[p];
    ghost var a := k.semAdd[d];
    ghost var q := LineAt(i, d);
    var tail, found := Pcb.OutProcQ(k.pNext, k.procq[d], p, q);
    ghost var pn := k.pNext[..];
    assert k.Img() == i.(pn := pn);
    if found {
      LeaveLine(i, p, pn, tail);
      SetQueue(k, d, tail);
      SetLine(k, p, Off, k.wait[a := Minus(q, [p])]);
    }
    Close(k, d, a);
    r := if found then p else NIL;
  }

  /** Slots counts the descriptors on the two lists of the memory, of which the active ones are as
      many as the semaphores in use. */
  lemma SlotsListed(i: Image)
    requires Open(i)
    ensures Clist.IsList(i.sn, i.aslh, i.act) && Clist.IsList(i.sn, i.semdFree, i.s.shelf.idle)
    ensures |i.act| == |i.s.wait| && |i.act| + |i.s.shelf.idle| == Slots(i.s.shelf)
    ensures forall d :: d in i.act ==> d !in i.s.shelf.idle
  {
    hide Threaded, Kids, Housed, Pointed, Sorted;
    ActiveCount(i.act, i.semAdd, i.s.shelf.desc);
  }

  /** There are as many active descriptors as semaphores in use. */
  lemma ActiveCount(act: seq<int>, add: seq<int>, desc: map<int, int>)
    requires Index(act, add, desc) && NoDup(act)
    ensures |act| == |desc|
  {
    forall j | 0 <= j < |act|
      ensures 0 <= act[j] < |add| && add[act[j]] in desc && desc[add[act[j]]] == act[j]
    {
      var d := act[j];
      assert d in act;
    }
    var served := seq(|act|, j requires 0 <= j < |act| => add[act[j]]);
    assert NoDup(served);
    ElemsSize(served);
    forall a | a in desc
      ensures a in served
    {
      var j :| 0 <= j < |act| && act[j] == desc[a];
      assert served[j] == a;
    }
    assert Elems(served) == desc.Keys;
  }

  // ----- insertBlocked -----

  /** Where the new descriptor goes: before the first larger address. */
  lemma InsertPlace(i: Image, a: int, d: int, j: nat)
    requires Open(i) && a !in i.s.shelf.desc && i.s.shelf.idle != [] && d == i.s.shelf.idle[0] && j <= |i.act|
    requires forall l :: 0 <= l < j ==> i.semAdd[i.act[l]] <= a
    requires j < |i.act| ==> a < i.semAdd[i.act[j]]
    ensures 0 <= d < |i.semAdd| && d !in i.act
    ensures var act := i.act[..j] + [d] + i.act[j..];
      Sorted(act, i.semAdd[d := a]) && Index(act, i.semAdd[d := a], i.s.shelf.desc[a := d])
  {
    hide Threaded, Kids, Housed, Pointed;
    assert d in i.s.shelf.idle;
    IndexInsert(i.act, i.semAdd, i.s.shelf.desc, j, d, a);
    forall l | 0 <= l < |i.act|
      ensures 0 <= i.act[l] < |i.semAdd|
      ensures l < j ==> i.semAdd[i.act[l]] < a
      ensures j <= l ==> a < i.semAdd[i.act[l]]
    {
      var e := i.act[l];
      assert e in i.act && i.semAdd[e] in i.s.shelf.desc;
      if j <= l {
        Ascends(i.act, i.semAdd, j, l);
      }
    }
    SortedInsert(i.act, i.semAdd, j, d, a);
  }

  /** The first free descriptor d is linked into the active list before the first one whose
      address is larger than key, at the end if there is none. */
  method Unshelve(next: array<int>, aslh: int, semdFree: int, key: int, add: seq<int>,
                  ghost act: seq<int>, ghost idle: seq<int>)
    returns (d: int, aslh': int, semdFree': int, ghost j: nat)
    requires Shelved(next[..], aslh, semdFree, act, idle) && idle != [] && |add| == next.Length
    modifies next
    ensures d == idle[0] && j <= |act| && forall l :: 0 <= l < |act| ==> 0 <= act[l] < |add|
    ensures forall l :: 0 <= l < j ==> add[act[l]] <= key
    ensures j < |act| ==> key < add[act[j]]
    ensures Shelved(next[..], aslh', semdFree', act[..j] + [d] + act[j..], idle[1..])
  {
    hide Clist.SameBut, Clist.IsList;
    ghost var sn := next[..];
    FirstIdle(sn, aslh, semdFree, act, idle);
    d := Clist.Head(next, semdFree, idle);
    semdFree' := Clist.Dequeue(next, semdFree, idle);
    ghost var sn1 := next[..];
    ActIntact(sn, aslh, semdFree, act, idle, sn1);
    aslh', j := Place(next, aslh, d, key, add, act);
    assert act == act[..j] + act[j..];
    ShelvedTake(sn, aslh, semdFree, act, idle, sn1, semdFree', next[..], aslh', act[..j] + [d] + act[j..]);
  }

  /** The second loop of insertBlocked */
  method Place(next: array<int>, aslh: int, d: int, key: int, add: seq<int>, ghost act: seq<int>)
    returns (aslh': int, ghost j: nat)
    requires Clist.IsList(next[..], aslh, act) && 0 <= d < next.Length && d !in act && |add| == next.Length
    requires forall l :: 0 <= l < |act| ==> 0 <= act[l] < |add|
    modifies next
    ensures j <= |act| && forall l :: 0 <= l < j ==> add[act[l]] <= key
    ensures j < |act| ==> key < add[act[j]]
    ensures Clist.IsList(next[..], aslh', act[..j] + [d] + act[j..])
    ensures Clist.SameBut(old(next[..]), next[..], act + [d])
  {
    hide Clist.SameBut, Clist.IsList;
    var scan, tmp;
    scan, tmp, j := Clist.Foreach(next, aslh, e => 0 <= e < |add| && key < add[e], act);
    var all := Clist.ForeachAll(next, aslh, tmp, act, j);
    if all {
      aslh' := Clist.Enqueue(next, aslh, d, act);
      assert act[..j] + [d] + act[j..] == act + [d];
    } else {
      aslh' := aslh;
      Clist.ForeachAdd(next, aslh, d, scan, tmp, act, j);
    }
  }

  lemma FirstIdle(sn: seq<int>, aslh: int, semdFree: int, act: seq<int>, idle: seq<int>)
    requires Shelved(sn, aslh, semdFree, act, idle) && idle != []
    ensures 0 <= idle[0] < |sn| && idle[0] !in act
    ensures forall l :: 0 <= l < |act| ==> 0 <= act[l] < |sn|
  {
    var d := idle[0];
    assert d in idle;
  }

  method SetServed(k: Kernel, d: int, a: int)
    requires 0 <= d < |k.procq| && d < |k.semAdd|
    modifies k
    ensures k.Img() == old(k.Img()).(semAdd := old(k.semAdd)[d := a], procq := old(k.procq)[d := NIL])
  {
    k.semAdd, k.procq := k.semAdd[d := a], k.procq[d := NIL];
  }

  /** A free descriptor is put into service for a. */
  method Employ(k: Kernel, a: int) returns (d: int)
    requires k.Valid() && a !in k.desc && k.semdFree != NIL
    modifies k, k.sNext
    ensures Opened(k) && a in k.desc && k.desc[a] == d && old(k.idle) != []
    ensures k.Abs() == old(k.Abs()).(wait := old(k.wait)[a := []], shelf := Engage(old(k.Abs()).shelf, a))
  {
    hide Rep, Open, Clist.IsList, Clist.SameBut, Sorted, Index, Shelved;
    ghost var i := k.Img();
    OpenRep(i);
    ActiveList(i);
    Pcb.EmptyTail(i.sn, i.semdFree, i.s.shelf.idle);
    var aslh, semdFree;
    ghost var j;
    d, aslh, semdFree, j := Unshelve(k.sNext, k.aslh, k.semdFree, a, k.semAdd, k.act, k.idle);
    ghost var sn := k.sNext[..];
    assert k.Img() == i.(sn := sn);
    ghost var act := k.act[..j] + [d] + k.act[j..];
    EngageStep(i, a, d, j, sn, aslh, semdFree);
    SetHeads(k, aslh, semdFree);
    SetServed(k, d, a);
    SetTable(k, act, k.idle[1..], k.desc[a := d]);
    SetLines(k, k.wait[a := []]);
  }

  lemma EngageStep(i: Image, a: int, d: int, j: nat, sn: seq<int>, aslh: int, semdFree: int)
    requires Open(i) && a !in i.s.shelf.desc && i.s.shelf.idle != [] && d == i.s.shelf.idle[0]
    requires j <= |i.act| && |sn| == |i.sn|
    requires forall l :: 0 <= l < |i.act| ==> 0 <= i.act[l] < |i.semAdd|
    requires forall l :: 0 <= l < j ==> i.semAdd[i.act[l]] <= a
    requires j < |i.act| ==> a < i.semAdd[i.act[j]]
    requires Shelved(sn, aslh, semdFree, i.act[..j] + [d] + i.act[j..], i.s.shelf.idle[1..])
    ensures 0 <= d < |i.semAdd| == |i.procq|
    ensures Open(EngagedIn(i, a, d, sn, aslh, semdFree, i.act[..j] + [d] + i.act[j..]))
  {
    hide Threaded, Kids, Housed, Pointed, Clist.IsList, Sorted, Index, Shelved;
    InsertPlace(i, a, d, j);
    assert i.act == i.act[..j] + i.act[j..];
    EngageRep(i, a, d, sn, aslh, semdFree, i.act[..j] + [d] + i.act[j..]);
  }

  method SetCursem(k: Kernel, p: int, d: int)
    requires 0 <= p < |k.cursem|
    modifies k
    ensures k.Img() == old(k.Img()).(s := old(k.Abs()).(cursem := old(k.cursem)[p := d]))
  {
    k.cursem := k.cursem[p := d];
  }

  /** p is appended to the queue of descriptor d, which serves a. */
  method Enlist(k: Kernel, d: int, p: int, ghost a: int)
    requires Opened(k) && a in k.desc && d == k.desc[a] && Proc(k.Abs(), p) && k.loc[p] == Off && Sized(k.Abs())
    requires forall b :: b in k.wait && b != a ==> k.wait[b] != []
    modifies k, k.pNext
    ensures k.Valid() && k.Abs() == Blocked(old(k.Abs()), a, p)
  {
    hide Rep, Open, Clist.IsList, Clist.SameBut;
    ghost var i := k.Img();
    LineOf(i, a);
    CursemLength(i);
    ghost var q := Queue(i.s, a);
    Pcb.NotThere(q, i.s.loc, Waiting(a), p);
    var tail := Clist.Enqueue(k.pNext, k.procq[d], p, q);
    ghost var pn := k.pNext[..];
    assert k.Img() == i.(pn := pn);
    JoinLine(i, a, p, pn, tail);
    SetQueue(k, d, tail);
    SetCursem(k, p, d);
    SetLine(k, p, Waiting(a), k.wait[a := q + [p]]);
    OpenRep(k.Img());
  }

  lemma CursemLength(i: Image)
    requires Open(i)
    ensures |i.s.cursem| == |i.s.loc|
  {
    hide Threaded, Table, Kids, Housed;
  }

  /** insertBlocked: full is its return value, 1 when a descriptor is needed and none is free. */
  method InsertBlocked(k: Kernel, a: int, p: int) returns (full: bool)
    requires k.Valid() && Proc(k.Abs(), p) && k.loc[p] == Off && Sized(k.Abs())
    modifies k, k.pNext, k.sNext
    ensures k.Valid()
    ensures full <==> Queue(old(k.Abs()), a) == [] && old(k.idle) == []
    ensures k.Abs() == if full then old(k.Abs()) else Blocked(old(k.Abs()), a, p)
  {
    hide Rep, Open, Clist.IsList, Clist.SameBut;
    ghost var i := k.Img();
    OpenRep(i);
    LineOf(i, a);
    var scan, flag := Find(k, a);
    if !flag {
      ActiveList(i);
      Pcb.EmptyTail(i.sn, i.semdFree, i.s.shelf.idle);
      if k.semdFree == NIL {
        return true;
      }
      var d := Employ(k, a);
      Enlist(k, d, p, a);
      BlockedAfter(i.s, a, p);
    } else {
      Enlist(k, scan, p, a);
    }
    full := false;
  }

  /** Opening an empty line first makes no difference. */
  lemma BlockedAfter(s: Sys, a: int, p: int)
    requires Sized(s) && Proc(s, p) && a !in s.wait && s.shelf.idle != []
    ensures Blocked(s.(wait := s.wait[a := []], shelf := Engage(s.shelf, a)), a, p) == Blocked(s, a, p)
  {
  }
}
