/** src/pcb.c: the free list of process descriptors, process queues and the process forest.
    Each operation is proved against the function of the abstract state that it computes. */
module Pcb {
  import opened Lists
  import opened Forest
  import opened Nucleus
  import opened Invariant
  import opened Threads
  import opened Machine
  import Clist
  import C = Clock
  import Clockwork

  // ----- process queues -----

  lemma QueueList(i: Image, tag: Loc)
    requires Rep(i) && tag != Off
    ensures Clist.IsList(i.pn, TailAt(Ts(i), tag), QueueAt(Qs(i.s), tag))
    ensures Tagged(QueueAt(Qs(i.s), tag), i.s.loc, tag)
    ensures |i.pn| == |i.s.loc|
  {
    hide Table, Kids, Housed, Pointed;
    ThreadAt(i.pn, i.s.loc, Qs(i.s), Ts(i), tag);
  }

  lemma RepLengths(i: Image)
    requires Rep(i)
    ensures Lengths(i) && |i.s.cursem| == |i.s.loc|
  {
    hide Table, Kids, Housed, Threaded, Occupied;
  }

  lemma NotThere(q: seq<int>, loc: seq<Loc>, tag: Loc, p: int)
    requires Tagged(q, loc, tag) && 0 <= p < |loc|
    ensures p in q <==> loc[p] == tag
  {
  }

  function Pushed(s: Sys, p: int): Sys
    requires Proc(s, p)
  {
    s.(ready := s.ready + [p], loc := s.loc[p := Ready])
  }

  function Popped(s: Sys): Sys
    requires s.ready != [] && Proc(s, s.ready[0])
  {
    s.(ready := s.ready[1..], loc := s.loc[s.ready[0] := Off])
  }

  function Pulled(s: Sys, p: int): Sys
    requires Proc(s, p)
  {
    if s.loc[p] == Ready then s.(ready := Minus(s.ready, [p]), loc := s.loc[p := Off]) else s
  }

  function Freed(s: Sys, p: int): Sys
    requires Proc(s, p)
  {
    s.(free := s.free + [p], loc := s.loc[p := Free])
  }

  lemma JoinRep(i: Image, p: int, tag: Loc, pn: seq<int>, tail: int)
    requires Rep(i) && Proc(i.s, p) && i.s.loc[p] == Off && (tag == Ready || tag == Free)
    requires tag == Free ==> Person(i.s.fam, p) && i.s.fam.parent[p] == NIL && i.s.fam.kids[p] == []
    requires Clist.SameBut(i.pn, pn, QueueAt(Qs(i.s), tag) + [p]) && Clist.IsList(pn, tail, QueueAt(Qs(i.s), tag) + [p])
    ensures tag == Ready ==> Rep(i.(s := Pushed(i.s, p), pn := pn, readyQ := tail))
    ensures tag == Free ==> Rep(i.(s := Freed(i.s, p), pn := pn, pcbFree := tail))
  {
    hide Threaded, Table, Kids, Clist.IsList;
    var i' := if tag == Ready then i.(s := Pushed(i.s, p), pn := pn, readyQ := tail)
        else i.(s := Freed(i.s, p), pn := pn, pcbFree := tail);
    ThreadJoin(i.pn, i.s.loc, Qs(i.s), Ts(i), pn, Qs(i'.s), Ts(i'), tag, p);
  }

  lemma LeaveRep(i: Image, p: int, tag: Loc, pn: seq<int>, tail: int, q: seq<int>)
    requires Rep(i) && Proc(i.s, p) && i.s.loc[p] == tag && (tag == Ready || tag == Free)
    requires q == Minus(QueueAt(Qs(i.s), tag), [p])
    requires Clist.SameBut(i.pn, pn, QueueAt(Qs(i.s), tag)) && Clist.IsList(pn, tail, q)
    ensures tag == Ready ==> Rep(i.(s := i.s.(ready := q, loc := i.s.loc[p := Off]), pn := pn, readyQ := tail))
    ensures tag == Free ==> Rep(i.(s := i.s.(free := q, loc := i.s.loc[p := Off]), pn := pn, pcbFree := tail))
  {
    hide Threaded, Table, Kids, Clist.IsList;
    var s' := if tag == Ready then i.s.(ready := q, loc := i.s.loc[p := Off])
        else i.s.(free := q, loc := i.s.loc[p := Off]);
    var i' := if tag == Ready then i.(s := s', pn := pn, readyQ := tail) else i.(s := s', pn := pn, pcbFree := tail);
    ThreadLeave(i.pn, i.s.loc, Qs(i.s), Ts(i), pn, Qs(i'.s), Ts(i'), tag, p);
  }

  /** The ready queue and its tail after p has gone to x. */
  method SetReadyQ(k: Kernel, tail: int, p: int, ghost x: Loc, ghost ready: seq<int>)
    requires Proc(k.Abs(), p)
    modifies k
    ensures k.Img() == old(k.Img()).(s := old(k.Abs()).(ready := ready, loc := old(k.loc)[p := x]), readyQ := tail)
  {
    k.readyQ := tail;
    k.ready := ready;
    k.loc := k.loc[p := x];
  }

  /** The free list and its tail after p has gone to x. */
  method SetFreeQ(k: Kernel, tail: int, p: int, ghost x: Loc, ghost free: seq<int>)
    requires Proc(k.Abs(), p)
    modifies k
    ensures k.Img() == old(k.Img()).(s := old(k.Abs()).(free := free, loc := old(k.loc)[p := x]), pcbFree := tail)
  {
    k.pcbFree := tail;
    k.free := free;
    k.loc := k.loc[p := x];
  }

  /** insertProcQ on the ready queue */
  method InsertReady(k: Kernel, p: int)
    requires k.Valid() && Proc(k.Abs(), p) && k.loc[p] == Off
    modifies k, k.pNext
    ensures k.Valid() && k.Abs() == Pushed(old(k.Abs()), p)
    ensures k.semAdd == old(k.semAdd)
  {
    hide Rep, Clist.IsList, Clist.SameBut;
    ghost var i := k.Img();
    QueueList(i, Ready);
    NotThere(i.s.ready, i.s.loc, Ready, p);
    var tail := Clist.Enqueue(k.pNext, k.readyQ, p, k.ready);
    ghost var pn := k.pNext[..];
    JoinRep(i, p, Ready, pn, tail);
    assert k.Img() == i.(pn := pn);
    SetReadyQ(k, tail, p, Ready, k.ready + [p]);
  }

  /** The memory and the state after p has been enqueued on the free list. */
  function FreedIn(i: Image, p: int): Image
    requires Proc(i.s, p) && |i.pn| == |i.s.loc| && NIL <= i.pcbFree < |i.pn|
  {
    i.(s := Freed(i.s, p), pn := Clist.Appended(i.pn, i.pcbFree, p), pcbFree := p)
  }

  lemma FreeRep(i: Image, p: int)
    requires Rep(i) && Proc(i.s, p) && i.s.loc[p] == Off
    requires Person(i.s.fam, p) && i.s.fam.parent[p] == NIL && i.s.fam.kids[p] == []
    ensures |i.pn| == |i.s.loc| && NIL <= i.pcbFree < |i.pn| && Rep(FreedIn(i, p))
  {
    hide Rep, Clist.IsList, Clist.SameBut;
    QueueList(i, Free);
    NotThere(i.s.free, i.s.loc, Free, p);
    Clist.TailIn(i.pn, i.pcbFree, i.s.free);
    Clist.AppendedList(i.pn, i.pcbFree, p, i.s.free);
    JoinRep(i, p, Free, Clist.Appended(i.pn, i.pcbFree, p), p);
  }

  /** freePcb: it appends p to the free list, provided that p is on no queue and has neither
      parent nor children; the code asks for none of this. */
  method FreePcb(k: Kernel, p: int)
    requires k.Apart() && Proc(k.Abs(), p) && k.pNext.Length == |k.loc| && NIL <= k.pcbFree < k.pNext.Length
    modifies k, k.pNext
    ensures k.Img() == FreedIn(old(k.Img()), p)
  {
    hide Clist.IsList, Clist.SameBut;
    ghost var i := k.Img();
    var tail := Clist.Enqueue(k.pNext, k.pcbFree, p, k.free);
    assert k.Img() == i.(pn := Clist.Appended(i.pn, i.pcbFree, p));
    SetFreeQ(k, tail, p, Free, k.free + [p]);
  }

  /** removeProcQ: the first element, NIL if there is none. */
  method RemoveProcQ(next: array<int>, q: int, ghost s: seq<int>) returns (q': int, p: int)
    requires Clist.IsList(next[..], q, s)
    modifies next
    ensures p == (if s == [] then NIL else s[0])
    ensures Clist.IsList(next[..], q', if s == [] then [] else s[1..])
    ensures Clist.SameBut(old(next[..]), next[..], s)
  {
    p := Clist.Head(next, q, s);
    q' := Clist.Dequeue(next, q, s);
  }

  /** removeProcQ on the ready queue, which is not empty */
  method RemoveReady(k: Kernel) returns (p: int)
    requires k.Valid() && k.ready != []
    modifies k, k.pNext
    ensures k.Valid() && p == old(k.ready[0]) && Proc(old(k.Abs()), p) && k.Abs() == Popped(old(k.Abs()))
  {
    hide Rep, Clist.IsList, Clist.SameBut;
    ghost var i := k.Img();
    QueueList(i, Ready);
    TaggedHead(i.s.ready, i.s.loc, Ready);
    MinusFirst(i.s.ready);
    var tail;
    tail, p := RemoveProcQ(k.pNext, k.readyQ, k.ready);
    ghost var pn := k.pNext[..];
    LeaveRep(i, p, Ready, pn, tail, i.s.ready[1..]);
    assert k.Img() == i.(pn := pn);
    SetReadyQ(k, tail, p, Off, k.ready[1..]);
  }

  /** outProcQ: scan the queue for p and unlink it in place. */
  method OutProcQ(next: array<int>, q: int, p: int, ghost s: seq<int>) returns (q': int, found: bool)
    requires Clist.IsList(next[..], q, s)
    modifies next
    ensures found <==> p in s
    ensures Clist.IsList(next[..], q', Minus(s, [p]))
    ensures Clist.SameBut(old(next[..]), next[..], s)
    ensures !found ==> q' == q && next[..] == old(next[..])
  {
    var scan, tmp, i := Clist.Foreach(next, q, x => x == p, s);
    var all := Clist.ForeachAll(next, q, tmp, s, i);
    if all {
      q', found := q, false;
      MinusNothing(s, [p]);
    } else {
      found := true;
      q' := Clist.ForeachDelete(next, q, scan, tmp, s, i);
    }
  }

  /** outProcQ on the ready queue */
  method OutReady(k: Kernel, p: int)
    requires k.Valid() && Proc(k.Abs(), p)
    modifies k, k.pNext
    ensures k.Valid() && k.Abs() == Pulled(old(k.Abs()), p)
  {
    hide Rep, Clist.IsList, Clist.SameBut;
    ghost var i := k.Img();
    QueueList(i, Ready);
    NotThere(i.s.ready, i.s.loc, Ready, p);
    var tail, found := OutProcQ(k.pNext, k.readyQ, p, k.ready);
    ghost var pn := k.pNext[..];
    assert k.Img() == i.(pn := pn);
    if found {
      LeaveRep(i, p, Ready, pn, tail, Minus(i.s.ready, [p]));
      SetReadyQ(k, tail, p, Off, Minus(k.ready, [p]));
    }
  }

  // ----- the process forest -----

  /** c without its parent. */
  function Detach(f: Family, c: int): Family
    requires |f.parent| == |f.kids| && 0 <= c < |f.kids|
  {
    var p := f.parent[c];
    if 0 <= p < |f.kids| then f.(parent := f.parent[c := NIL], kids := f.kids[p := Minus(f.kids[p], [c])]) else f
  }

  function Detached(s: Sys, c: int): (r: Sys)
    requires Sized(s) && Proc(s, c)
    ensures Sized(r) && r.loc == s.loc && r.fam.birth == s.fam.birth && r.fam.born == s.fam.born
  {
    s.(fam := Detach(s.fam, c))
  }

  lemma DetachLists(f: Family, c: int, q: int, x: int)
    requires Kin(f) && Person(f, c) && Person(f, q)
    ensures var g := Detach(f, c); x in g.kids[q] <==> Person(g, x) && g.parent[x] == q
  {
    assert x in f.kids[q] <==> Person(f, x) && f.parent[x] == q;
  }

  lemma DetachParents(f: Family, c: int, q: int)
    requires Kin(f) && Person(f, c) && Person(f, q)
    ensures var g := Detach(f, c);
      g.birth[q] <= g.born && NoDup(g.kids[q])
      && (g.parent[q] == NIL || (Person(g, g.parent[q]) && g.birth[g.parent[q]] < g.birth[q]))
  {
    MinusNoDup(f.kids[q], [c]);
  }

  lemma KinDetach(f: Family, c: int)
    requires Kin(f) && Person(f, c)
    ensures Kin(Detach(f, c))
  {
    hide NoDup, Detach;
    var g := Detach(f, c);
    DetachShape(f, c);
    forall q | Person(g, q)
      ensures g.birth[q] <= g.born && NoDup(g.kids[q])
      ensures g.parent[q] == NIL || (Person(g, g.parent[q]) && g.birth[g.parent[q]] < g.birth[q])
    {
      assert Person(f, q);
      DetachParents(f, c, q);
    }
    forall q, x | Person(g, q)
      ensures x in g.kids[q] <==> Person(g, x) && g.parent[x] == q
    {
      assert Person(f, q);
      DetachLists(f, c, q, x);
    }
  }

  lemma DetachShape(f: Family, c: int)
    requires |f.parent| == |f.kids| == |f.birth| && 0 <= c < |f.kids|
    ensures var g := Detach(f, c); |g.parent| == |g.kids| == |g.birth| == |f.kids|
  {
  }

  lemma HousedDetach(loc: seq<Loc>, f: Family, c: int)
    requires Housed(loc, f) && Person(f, c)
    ensures Housed(loc, Detach(f, c))
  {
    KinDetach(f, c);
    var g := Detach(f, c);
    forall q | Person(g, q) && q < |loc| && loc[q] == Free
      ensures g.parent[q] == NIL && g.kids[q] == []
    {
      assert Person(f, q);
    }
  }

  lemma ChildList(i: Image, p: int)
    requires Rep(i) && Proc(i.s, p)
    ensures Clist.IsList(i.ps, i.children[p], i.s.fam.kids[p]) && |i.ps| == |i.children| == |i.s.loc|
  {
    hide Table, Threaded, Housed, Pointed, Clist.IsList;
    KidsAt(i.ps, i.children, i.s.fam, p);
  }

  /** emptyChild */
  method EmptyChild(k: Kernel, p: int) returns (empty: bool)
    requires k.Valid() && Proc(k.Abs(), p)
    ensures empty <==> k.Abs().fam.kids[p] == []
  {
    hide Rep;
    ChildList(k.Img(), p);
    empty := k.children[p] == NIL;
  }

  /** c has been unlinked from the list of its parent p. */
  lemma DetachRep(i: Image, c: int, ps: seq<int>, tail: int)
    requires Rep(i) && Proc(i.s, c) && Proc(i.s, i.s.fam.parent[c])
    requires var p := i.s.fam.parent[c];
      Clist.SameBut(i.ps, ps, i.s.fam.kids[p]) && Clist.IsList(ps, tail, Minus(i.s.fam.kids[p], [c]))
    ensures Rep(i.(s := Detached(i.s, c), ps := ps, children := i.children[i.s.fam.parent[c] := tail]))
  {
    hide Threaded, Table, Clist.IsList;
    var f, p := i.s.fam, i.s.fam.parent[c];
    assert Person(f, p) && Person(f, c);
    HousedDetach(i.s.loc, f, c);
    KidsMoved(i.ps, i.children, f, ps, tail, Detach(f, c), p, f.kids[p]);
  }

  /** c loses its parent p, whose child list ends at tail now. */
  method CutOff(k: Kernel, c: int, p: int, tail: int)
    requires Sized(k.Abs()) && Proc(k.Abs(), c) && Proc(k.Abs(), p) && k.parent[c] == p && |k.children| == |k.loc|
    modifies k
    ensures k.Img() == old(k.Img()).(s := Detached(old(k.Abs()), c), children := old(k.children)[p := tail])
  {
    k.children := k.children[p := tail];
    k.parent := k.parent[c := NIL];
    k.kids := k.kids[p := Minus(k.kids[p], [c])];
  }

  /** removeChild, of a process that has children: its first child loses its parent. */
  method RemoveChild(k: Kernel, p: int) returns (c: int)
    requires k.Valid() && Proc(k.Abs(), p) && k.Abs().fam.kids[p] != []
    modifies k, k.pSib
    ensures k.Valid() && c == old(k.Abs()).fam.kids[p][0] && Proc(old(k.Abs()), c) && old(k.Abs()).fam.parent[c] == p
    ensures k.Abs() == Detached(old(k.Abs()), c)
  {
    hide Rep, Clist.IsList, Clist.SameBut;
    ghost var i := k.Img();
    RepLengths(i);
    ChildList(i, p);
    FirstChild(i, p);
    c := Clist.Head(k.pSib, k.children[p], k.kids[p]);
    var tail := Clist.Dequeue(k.pSib, k.children[p], k.kids[p]);
    ghost var ps := k.pSib[..];
    k.pSib[c] := NIL;
    MinusFirst(i.s.fam.kids[p]);
    Cleared(i.ps, ps, k.pSib[..], tail, i.s.fam.kids[p], c);
    DetachRep(i, c, k.pSib[..], tail);
    assert k.Img() == i.(ps := k.pSib[..]);
    CutOff(k, c, p, tail);
  }

  lemma FirstChild(i: Image, p: int)
    requires Rep(i) && Proc(i.s, p)
    ensures NoDup(i.s.fam.kids[p])
    ensures forall c :: c in i.s.fam.kids[p] ==> Proc(i.s, c) && i.s.fam.parent[c] == p
    ensures i.s.fam.kids[p] != [] ==> Proc(i.s, i.s.fam.kids[p][0]) && i.s.fam.parent[i.s.fam.kids[p][0]] == p
  {
    hide Table, Threaded, Kids, Pointed;
    assert Person(i.s.fam, p);
    if i.s.fam.kids[p] != [] {
      var c := i.s.fam.kids[p][0];
      assert c in i.s.fam.kids[p] && Person(i.s.fam, c);
    }
    forall c | c in i.s.fam.kids[p]
      ensures Proc(i.s, c) && i.s.fam.parent[c] == p
    {
      assert Person(i.s.fam, c);
    }
  }

  /** The link of the removed child c is reset. */
  lemma Cleared(m: seq<int>, m1: seq<int>, m2: seq<int>, tail: int, q: seq<int>, c: int)
    requires Clist.SameBut(m, m1, q) && Clist.IsList(m1, tail, Minus(q, [c])) && c in q && 0 <= c < |m1|
    requires m2 == m1[c := NIL]
    ensures Clist.SameBut(m, m2, q) && Clist.IsList(m2, tail, Minus(q, [c]))
  {
    Clist.Frame(m1, m2, [c], tail, Minus(q, [c]));
  }

  /** outChild: p is taken out of the child list of its parent, if it has one. */
  method OutChild(k: Kernel, p: int) returns (found: bool)
    requires k.Valid() && Proc(k.Abs(), p)
    modifies k, k.pSib
    ensures k.Valid() && k.Abs() == Detached(old(k.Abs()), p)
    ensures found <==> old(k.Abs()).fam.parent[p] != NIL
  {
    hide Rep, Clist.IsList, Clist.SameBut;
    ghost var i := k.Img();
    found := false;
    RepLengths(i);
    ParentOf(i, p);
    if k.parent[p] != NIL {
      var q := k.parent[p];
      ChildList(i, q);
      FirstChild(i, q);
      var tail, absent := Clist.Delete(k.pSib, k.children[q], p, k.kids[q]);
      ghost var ps := k.pSib[..];
      k.pSib[p] := NIL;
      found := true;
      Cleared(i.ps, ps, k.pSib[..], tail, i.s.fam.kids[q], p);
      DetachRep(i, p, k.pSib[..], tail);
      assert k.Img() == i.(ps := k.pSib[..]);
      CutOff(k, p, q, tail);
    }
  }

  lemma ParentOf(i: Image, p: int)
    requires Rep(i) && Proc(i.s, p)
    ensures var q := i.s.fam.parent[p]; q == NIL || (Proc(i.s, q) && p in i.s.fam.kids[q])
  {
    hide Table, Threaded, Kids, Pointed;
    var q := i.s.fam.parent[p];
    assert Person(i.s.fam, p);
    if q != NIL {
      assert Person(i.s.fam, q);
      assert p in i.s.fam.kids[q];
    }
  }

  /** f with p as the last child of parent. */
  function Adopted(f: Family, parent: int, p: int): Family
    requires |f.parent| == |f.kids| && 0 <= p < |f.kids| && 0 <= parent < |f.kids|
  {
    f.(parent := f.parent[p := parent], kids := f.kids[parent := f.kids[parent] + [p]])
  }

  lemma AdoptedLists(f: Family, parent: int, p: int, q: int, x: int)
    requires Kin(f) && Person(f, p) && Person(f, parent) && Person(f, q) && f.parent[p] == NIL
    ensures var g := Adopted(f, parent, p); x in g.kids[q] <==> Person(g, x) && g.parent[x] == q
  {
    assert x in f.kids[q] <==> Person(f, x) && f.parent[x] == q;
  }

  lemma AdoptedParents(f: Family, parent: int, p: int, q: int)
    requires Kin(f) && Person(f, p) && Person(f, parent) && Person(f, q)
    requires f.parent[p] == NIL && f.birth[parent] < f.birth[p]
    ensures var g := Adopted(f, parent, p);
      g.birth[q] <= g.born && NoDup(g.kids[q])
      && (g.parent[q] == NIL || (Person(g, g.parent[q]) && g.birth[g.parent[q]] < g.birth[q]))
  {
    assert p !in f.kids[q];
    Concat(f.kids[q], [p]);
  }

  lemma KinAdopted(f: Family, parent: int, p: int)
    requires Kin(f) && Person(f, p) && Person(f, parent)
    requires f.parent[p] == NIL && f.birth[parent] < f.birth[p]
    ensures Kin(Adopted(f, parent, p))
  {
    hide NoDup, Adopted;
    var g := Adopted(f, parent, p);
    assert |g.parent| == |g.kids| == |g.birth| == |f.kids| by { AdoptedShape(f, parent, p); }
    forall q | Person(g, q)
      ensures g.birth[q] <= g.born && NoDup(g.kids[q])
      ensures g.parent[q] == NIL || (Person(g, g.parent[q]) && g.birth[g.parent[q]] < g.birth[q])
    {
      assert Person(f, q);
      AdoptedParents(f, parent, p, q);
    }
    forall q, x | Person(g, q)
      ensures x in g.kids[q] <==> Person(g, x) && g.parent[x] == q
    {
      assert Person(f, q);
      AdoptedLists(f, parent, p, q, x);
    }
  }

  lemma AdoptedShape(f: Family, parent: int, p: int)
    requires |f.parent| == |f.kids| == |f.birth| && 0 <= p < |f.kids| && 0 <= parent < |f.kids|
    ensures var g := Adopted(f, parent, p); |g.parent| == |g.kids| == |g.birth| == |f.kids|
  {
  }

  lemma HousedAdopted(loc: seq<Loc>, f: Family, parent: int, p: int)
    requires Housed(loc, f) && Person(f, p) && Person(f, parent) && |loc| == |f.kids|
    requires f.parent[p] == NIL && f.birth[parent] < f.birth[p] && loc[p] != Free && loc[parent] != Free
    ensures Housed(loc, Adopted(f, parent, p))
  {
    KinAdopted(f, parent, p);
    var g := Adopted(f, parent, p);
    forall q | Person(g, q) && q < |loc| && loc[q] == Free
      ensures g.parent[q] == NIL && g.kids[q] == []
    {
      assert Person(f, q);
    }
  }

  lemma AdoptRep(i: Image, parent: int, p: int, ps: seq<int>, tail: int)
    requires Rep(i) && Proc(i.s, p) && Proc(i.s, parent)
    requires i.s.fam.parent[p] == NIL && i.s.fam.birth[parent] < i.s.fam.birth[p]
    requires i.s.loc[p] != Free && i.s.loc[parent] != Free
    requires Clist.SameBut(i.ps, ps, i.s.fam.kids[parent] + [p]) && Clist.IsList(ps, tail, i.s.fam.kids[parent] + [p])
    ensures Rep(i.(s := Adopt(i.s, parent, p), ps := ps, children := i.children[parent := tail]))
  {
    hide Threaded, Table, Clist.IsList;
    var f := i.s.fam;
    assert Person(f, p) && Person(f, parent);
    HousedAdopted(i.s.loc, f, parent, p);
    assert forall e :: e in f.kids[parent] ==> Person(f, e) && f.parent[e] == parent;
    KidsMoved(i.ps, i.children, f, ps, tail, Adopted(f, parent, p), parent, f.kids[parent] + [p]);
  }

  method SetAdopted(k: Kernel, parent: int, p: int, tail: int)
    requires Sized(k.Abs()) && Proc(k.Abs(), p) && Proc(k.Abs(), parent) && |k.children| == |k.loc|
    modifies k
    ensures k.Img() == old(k.Img()).(s := Adopt(old(k.Abs()), parent, p), children := old(k.children)[parent := tail])
  {
    k.parent := k.parent[p := parent];
    k.children := k.children[parent := tail];
    k.kids := k.kids[parent := k.kids[parent] + [p]];
  }

  /** insertChild, of a process without parent that is younger than its new one */
  method InsertChild(k: Kernel, parent: int, p: int)
    requires k.Valid() && Proc(k.Abs(), p) && Proc(k.Abs(), parent) && Sized(k.Abs())
    requires k.parent[p] == NIL && k.birth[parent] < k.birth[p]
    requires k.loc[p] != Free && k.loc[parent] != Free
    modifies k, k.pSib
    ensures k.Valid() && k.Abs() == Adopt(old(k.Abs()), parent, p)
  {
    hide Rep, Clist.IsList, Clist.SameBut;
    ghost var i := k.Img();
    RepLengths(i);
    ChildList(i, parent);
    FirstChild(i, parent);
    var tail := Clist.Enqueue(k.pSib, k.children[parent], p, k.kids[parent]);
    ghost var ps := k.pSib[..];
    AdoptRep(i, parent, p, ps, tail);
    assert k.Img() == i.(ps := ps);
    SetAdopted(k, parent, p, tail);
  }

  // ----- allocation -----

  /** All fields of p but its location are zeroed. */
  function Zeroed(s: Sys, p: int): Sys
    requires Sized(s) && Proc(s, p)
  {
    s.(cursem := s.cursem[p := NIL],
       fam := s.fam.(parent := s.fam.parent[p := NIL], kids := s.fam.kids[p := []]),
       req := s.req[p := 0], pid := s.pid[p := 0], a1 := s.a1[p := 0], clk := C.Rebirth(s.clk, p))
  }

  /** The link of an orphan is on no child list. */
  lemma KidsIdle(ps: seq<int>, tails: seq<int>, f: Family, p: int)
    requires Kin(f) && Kids(ps, tails, f) && Person(f, p) && f.parent[p] == NIL && f.kids[p] == []
    ensures Kids(ps[p := NIL], tails[p := NIL], f)
  {
    forall q | Person(f, q)
      ensures Clist.IsList(ps[p := NIL], tails[p := NIL][q], f.kids[q])
    {
      KidsAt(ps, tails, f, q);
      assert p !in f.kids[q];
      Clist.Frame(ps, ps[p := NIL], [p], tails[q], f.kids[q]);
    }
  }

  lemma UnlinkRep(i: Image, p: int)
    requires Rep(i) && Proc(i.s, p) && i.s.loc[p] == Off
    ensures p < |i.s.cursem| && p < |i.pn|
    ensures Rep(i.(s := i.s.(cursem := i.s.cursem[p := NIL]), pn := i.pn[p := NIL]))
  {
    hide Threaded, Table, Kids, Kin;
    ThreadIdle(i.pn, i.s.loc, Qs(i.s), Ts(i), i.pn[p := NIL], p);
  }

  lemma OrphanRep(i: Image, p: int)
    requires Rep(i) && Proc(i.s, p) && Sized(i.s) && i.s.fam.parent[p] == NIL && i.s.fam.kids[p] == []
    ensures p < |i.ps| && p < |i.children|
    ensures i.s.fam.parent[p := NIL] == i.s.fam.parent && i.s.fam.kids[p := []] == i.s.fam.kids
    ensures Rep(i.(ps := i.ps[p := NIL], children := i.children[p := NIL]))
  {
    hide Threaded, Table, Kids, Kin;
    assert Person(i.s.fam, p);
    KidsIdle(i.ps, i.children, i.s.fam, p);
  }

  lemma FirstFree(i: Image)
    requires Rep(i) && i.s.free != []
    ensures var p := i.s.free[0];
      Proc(i.s, p) && i.s.loc[p] == Free && i.s.fam.parent[p] == NIL && i.s.fam.kids[p] == []
    ensures i.s.free[1..] == Minus(i.s.free, [i.s.free[0]])
  {
    hide Table, Kids, Pointed, Clist.IsList;
    QueueList(i, Free);
    TaggedHead(i.s.free, i.s.loc, Free);
    assert Person(i.s.fam, i.s.free[0]);
    MinusFirst(i.s.free);
  }

  lemma AllocParts(s: Sys)
    requires Sized(s) && s.free != [] && Proc(s, s.free[0])
    ensures var p := s.free[0]; Alloc(s) == Zeroed(s.(free := s.free[1..], loc := s.loc[p := Off]), p)
  {
  }

  /** allocPcb */
  method AllocPcb(k: Kernel) returns (p: int)
    requires k.Valid() && Sized(k.Abs())
    modifies k, k.pNext, k.pSib
    ensures k.Valid()
    ensures old(k.free) == [] ==> p == NIL && k.Abs() == old(k.Abs())
    ensures old(k.free) != [] ==> p == old(k.free[0]) && Proc(old(k.Abs()), p) && k.Abs() == Alloc(old(k.Abs()))
  {
    hide Rep, Clist.IsList, Clist.SameBut;
    ghost var i := k.Img();
    RepLengths(i);
    QueueList(i, Free);
    if k.pcbFree == NIL {
      assert k.free == [] by { EmptyTail(i.pn, i.pcbFree, i.s.free); }
      p := NIL;
    } else {
      assert k.free != [] by { EmptyTail(i.pn, i.pcbFree, i.s.free); }
      FirstFree(i);
      AllocParts(i.s);
      p := TakeFree(k);
      Erase(k, p);
    }
  }

  /** The first free descriptor leaves the list. */
  method TakeFree(k: Kernel) returns (p: int)
    requires k.Valid() && k.free != []
    modifies k, k.pNext
    ensures k.Valid() && p == old(k.free[0])
    ensures Proc(old(k.Abs()), p) && k.Abs() == old(k.Abs()).(free := old(k.free)[1..], loc := old(k.loc)[p := Off])
  {
    hide Rep, Clist.IsList, Clist.SameBut;
    ghost var i := k.Img();
    QueueList(i, Free);
    FirstFree(i);
    p := Clist.Head(k.pNext, k.pcbFree, k.free);
    var tail := Clist.Dequeue(k.pNext, k.pcbFree, k.free);
    ghost var pn := k.pNext[..];
    LeaveRep(i, p, Free, pn, tail, i.s.free[1..]);
    assert k.Img() == i.(pn := pn);
    SetFreeQ(k, tail, p, Off, k.free[1..]);
  }

  lemma EmptyTail(m: seq<int>, tail: int, s: seq<int>)
    requires Clist.IsList(m, tail, s)
    ensures tail == NIL <==> s == []
  {
  }

  /** a_memset over the whole structure */
  method Erase(k: Kernel, p: int)
    requires k.Valid() && Sized(k.Abs()) && Proc(k.Abs(), p)
    requires k.loc[p] == Off && k.parent[p] == NIL && k.kids[p] == []
    modifies k, k.pNext, k.pSib
    ensures k.Valid() && k.Abs() == Zeroed(old(k.Abs()), p)
  {
    hide Rep;
    EraseLinks(k, p);
    EraseKin(k, p);
    EraseFields(k, p);
    EraseTimes(k, p);
  }

  method EraseLinks(k: Kernel, p: int)
    requires k.Valid() && Sized(k.Abs()) && Proc(k.Abs(), p) && k.loc[p] == Off
    modifies k, k.pNext
    ensures k.Valid() && k.Abs() == old(k.Abs()).(cursem := old(k.cursem)[p := NIL])
  {
    hide Rep;
    ghost var i := k.Img();
    UnlinkRep(i, p);
    k.pNext[p] := NIL;
    k.cursem := k.cursem[p := NIL];
    assert k.Img() == i.(s := i.s.(cursem := i.s.cursem[p := NIL]), pn := i.pn[p := NIL]);
  }

  method EraseKin(k: Kernel, p: int)
    requires k.Valid() && Sized(k.Abs()) && Proc(k.Abs(), p) && k.parent[p] == NIL && k.kids[p] == []
    modifies k, k.pSib
    ensures k.Valid() && k.Abs() == old(k.Abs())
    ensures k.parent == old(k.parent)[p := NIL] && k.kids == old(k.kids)[p := []]
  {
    hide Rep;
    ghost var i := k.Img();
    OrphanRep(i, p);
    k.parent, k.children := k.parent[p := NIL], k.children[p := NIL];
    k.pSib[p] := NIL;
    ghost var i' := i.(ps := i.ps[p := NIL], children := i.children[p := NIL]);
    assert k.Img() == i';
  }

  method EraseFields(k: Kernel, p: int)
    requires k.Valid() && Sized(k.Abs()) && Proc(k.Abs(), p)
    modifies k
    ensures k.Valid()
    ensures k.Abs() == old(k.Abs()).(req := old(k.req)[p := 0], pid := old(k.pid)[p := 0], a1 := old(k.a1)[p := 0])
  {
    hide Rep;
    ghost var i := k.Img();
    k.req, k.pid, k.a1 := k.req[p := 0], k.pid[p := 0], k.a1[p := 0];
    ghost var s' := i.s.(req := k.req, pid := k.pid, a1 := k.a1);
    assert k.Img() == i.(s := s');
    RepSame(i, s');
  }

  method EraseTimes(k: Kernel, p: int)
    requires k.Valid() && Sized(k.Abs()) && Proc(k.Abs(), p)
    modifies k
    ensures k.Valid() && k.Abs() == old(k.Abs()).(clk := C.Rebirth(old(k.Clk()), p))
  {
    hide Rep, C.Rebirth;
    ghost var i := k.Img();
    ghost var s' := i.s.(clk := C.Rebirth(i.s.clk, p));
    C.RebirthNow(i.s.clk, p);
    RepSame(i, s');
    ZeroTimes(k, p);
  }

  method ZeroTimes(k: Kernel, p: int)
    requires C.Slot(k.Clk(), p)
    modifies k
    ensures k.Img() == old(k.Img()).(s := old(k.Abs()).(clk := C.Rebirth(old(k.Clk()), p)))
  {
    ghost var c := k.Clk();
    ZeroColumns(k, p);
    Clockwork.Book(k, C.Rebirth(c, p).led);
  }

  method ZeroColumns(k: Kernel, p: int)
    requires C.Slot(k.Clk(), p)
    modifies k
    ensures k.Img() == old(k.Img()).(s := old(k.Abs()).(clk := old(k.Clk()).(
      slice := old(k.slice)[p := 0], glob := old(k.glob)[p := 0], user := old(k.user)[p := 0])))
  {
    k.slice, k.glob, k.user := k.slice[p := 0], k.glob[p := 0], k.user[p := 0];
  }

  // ----- search by pid -----

  lemma RepKin(i: Image)
    requires Rep(i)
    ensures Kin(i.s.fam) && Sized(i.s) && forall p :: Proc(i.s, p) <==> Person(i.s.fam, p)
  {
    hide Kin, Threaded, Table, Kids, Pointed;
  }

  /** childByPid: every child is compared; one that has children of its own ends the scan. */
  method ChildByPid(k: Kernel, p: int, id: int) returns (r: int)
    requires k.Valid() && Proc(k.Abs(), p)
    ensures Kin(k.Fam()) && Person(k.Fam(), p) && |k.pid| == |k.kids|
    ensures r == Nucleus.ChildByPid(k.Fam(), k.pid, p, id)
    decreases k.born - (if 0 <= p < |k.birth| then k.birth[p] else 0)
  {
    hide Rep, Clist.IsList, Kin;
    ghost var im := k.Img();
    RepLengths(im);
    RepKin(im);
    ChildList(im, p);
    FirstChild(im, p);
    ghost var cs := k.kids[p];
    var tail := k.children[p];
    var tmp, scan := NIL, NIL;
    ghost var i := 0;
    if tail != NIL {
      FirstOf(im.ps, tail, cs);
      scan := k.pSib[tail];
      while tmp != tail
        invariant i <= |cs| && cs != []
        invariant tmp == (if i == 0 then NIL else cs[i - 1])
        invariant scan == (if i < |cs| then cs[i] else cs[0])
        invariant SearchChildren(k.Fam(), k.pid, p, cs[i..], id) == Nucleus.ChildByPid(k.Fam(), k.pid, p, id)
        decreases |cs| - i
      {
        LastOf(im.ps, tail, cs, i);
        assert cs[i] in cs && scan == cs[i] && cs[i..][0] == scan && cs[i..][1..] == cs[i + 1..];
        YoungerChild(k.Fam(), p, scan);
        if k.pid[scan] == id {
          return scan;
        }
        var leaf := EmptyChild(k, scan);
        if !leaf {
          r := ChildByPid(k, scan, id);
          return;
        }
        tmp, scan, i := scan, k.pSib[scan], i + 1;
      }
      LastOf(im.ps, tail, cs, i);
    } else {
      EmptyTail(im.ps, tail, cs);
    }
    r := NIL;
  }

  lemma FirstOf(m: seq<int>, tail: int, s: seq<int>)
    requires Clist.IsList(m, tail, s) && tail != NIL
    ensures 0 <= tail < |m| && s != [] && m[tail] == s[0]
  {
  }

  /** The scan has passed the last element exactly when its predecessor is the tail; until
      then the link of the element leads to the next one. */
  lemma LastOf(m: seq<int>, tail: int, s: seq<int>, i: nat)
    requires Clist.IsList(m, tail, s) && i <= |s| && s != []
    ensures (if i == 0 then NIL else s[i - 1]) == tail <==> i == |s|
    ensures i < |s| ==> 0 <= s[i] < |m| && m[s[i]] == if i + 1 < |s| then s[i + 1] else s[0]
  {
  }

  lemma YoungerChild(f: Family, p: int, c: int)
    requires Kin(f) && Person(f, p) && c in f.kids[p]
    ensures Person(f, c) && f.birth[p] < f.birth[c] <= f.born
  {
  }
}
