/** src/init.c: how main brings the nucleus from blank memory to its first state. */
module Init {
  import opened Lists
  import opened Forest
  import opened Nucleus
  import opened Shelves
  import opened Invariant
  import opened Threads
  import opened Machine
  import opened Fields
  import opened Reach
  import opened Runs
  import Clist
  import Handlers
  import Pcb
  import Scheduling

  function First(n: nat): seq<int> { seq(n, i => i) }

  lemma FirstNext(i: nat)
    ensures First(i) + [i] == First(i + 1) && i !in First(i)
  {
  }

  /** The loop of initASL: all descriptors, in order. */
  method FreeList(next: array<int>) returns (tail: int)
    modifies next
    ensures Clist.IsList(next[..], tail, First(next.Length))
  {
    hide Clist.IsList;
    tail := NIL;
    var i := 0;
    NoElements(next[..]);
    assert First(0) == [];
    while i < next.Length
      invariant 0 <= i <= next.Length
      invariant Clist.IsList(next[..], tail, First(i))
    {
      FirstNext(i);
      tail := Clist.Enqueue(next, tail, i, First(i));
      i := i + 1;
    }
  }

  lemma NoElements(m: seq<int>)
    ensures Clist.IsList(m, NIL, [])
  {
  }

  /** After initPcbs and initASL everything is free. */
  ghost function Filled(i: Image, n: nat): Image {
    i.(s := i.s.(free := First(n), loc := seq(n, j => Free), shelf := Shelf(map[], First(n))))
  }

  lemma FilledRep(cfg: Config, n: nat, sem: map<int, int>, pn: seq<int>, pcbFree: int, sn: seq<int>, semdFree: int)
    requires Clist.IsList(pn, pcbFree, First(n)) && |pn| == n
    requires Clist.IsList(sn, semdFree, First(n)) && |sn| == n
    ensures Rep(Filled(Blank(cfg, n, sem), n).(pn := pn, pcbFree := pcbFree, sn := sn, semdFree := semdFree))
  {
    hide Clist.IsList, Kin;
    var i := Filled(Blank(cfg, n, sem), n).(pn := pn, pcbFree := pcbFree, sn := sn, semdFree := semdFree);
    NoElements(pn);
    NoElements(sn);
    forall d | 0 <= d < n
      ensures d in First(n)
    {
      assert First(n)[d] == d;
    }
    assert Threaded(i.pn, i.s.loc, Qs(i.s), Ts(i));
    BlankKin(n);
    KidsBlank(n);
  }

  lemma KidsBlank(n: nat)
    ensures var f := Family(seq(n, i => NIL), seq(n, i => []), seq(n, i => if i == 0 then 1 else 0), 1);
      Kids(seq(n, i => NIL), seq(n, i => NIL), f)
  {
  }

  lemma BlankKin(n: nat)
    ensures Kin(Family(seq(n, i => NIL), seq(n, i => []), seq(n, i => if i == 0 then 1 else 0), 1))
  {
  }

  /** initPcbs and initASL */
  method InitTables(k: Kernel, ghost n: nat, ghost sem: map<int, int>)
    requires k.Apart() && k.Img() == Blank(k.cfg, n, sem)
    modifies k, k.pNext, k.sNext
    ensures k.Valid() && k.Abs() == Filled(Blank(k.cfg, n, sem), n).s
  {
    hide Rep, Clist.IsList;
    ghost var i := k.Img();
    assert |i.sn| == n && |i.pn| == n;
    var pcbFree := FreeList(k.pNext);
    var semdFree := FreeList(k.sNext);
    ghost var pn, sn := k.pNext[..], k.sNext[..];
    FilledRep(k.cfg, n, sem, pn, pcbFree, sn, semdFree);
    assert k.Img() == i.(pn := pn, sn := sn);
    SetTails(k, pcbFree, semdFree);
    SetFree(k, n);
    SetIdle(k, n);
    assert k.Img() == Filled(i, n).(pn := pn, pcbFree := pcbFree, sn := sn, semdFree := semdFree);
  }

  method SetTails(k: Kernel, pcbFree: int, semdFree: int)
    modifies k
    ensures k.Img() == old(k.Img()).(pcbFree := pcbFree, semdFree := semdFree)
  {
    k.pcbFree, k.semdFree := pcbFree, semdFree;
  }

  ghost method SetFree(k: Kernel, n: nat)
    modifies k
    ensures k.Img() == old(k.Img()).(s := old(k.Abs()).(free := First(n), loc := seq(n, j => Free)))
  {
    k.free, k.loc := First(n), seq(n, j => Free);
  }

  ghost method SetIdle(k: Kernel, n: nat)
    modifies k
    ensures k.Img() == old(k.Img()).(s := old(k.Abs()).(shelf := Shelf(map[], First(n))))
  {
    k.idle, k.desc := First(n), map[];
  }

  // ----- the first process -----

  lemma FirstAlloc(cfg: Config, n: nat, sem: map<int, int>)
    requires n >= 1
    ensures var s := Filled(Blank(cfg, n, sem), n).s;
      Sized(s) && s.free != [] && s.free[0] == 0 && Proc(s, 0)
      && Sized(Alloc(s)) && Proc(Alloc(s), 0) && Alloc(s).loc[0] == Off
      && Boot(cfg, n, sem) == Pcb.Pushed(Alloc(s).(pid := Alloc(s).pid[0 := 1], issued := Alloc(s).issued + [1]), 0)
  {
    var s := Filled(Blank(cfg, n, sem), n).s;
    var r, b := Alloc(s), Boot(cfg, n, sem);
    assert r.fam == b.fam;
    assert r.req == b.req && r.a1 == b.a1 && r.cursem == b.cursem && r.pid[0 := 1] == b.pid;
    assert r.clk == b.clk;
    assert r.free == b.free && r.loc[0 := Ready] == b.loc;
  }

  /** main up to the call of the scheduler, with n process descriptors */
  method Start(cfg: Config, n: nat, sem: map<int, int>) returns (k: Kernel)
    requires n >= 1
    ensures fresh(k) && fresh(k.pNext) && fresh(k.pSib) && fresh(k.sNext)
    ensures k.Valid() && k.Abs() == Boot(cfg, n, sem)
  {
    hide Rep, Alloc;
    k := new Kernel(cfg, n, sem);
    InitTables(k, n, sem);
    FirstAlloc(cfg, n, sem);
    var p := Pcb.AllocPcb(k);
    SetPid(k, p, 1);
    Pcb.InsertReady(k, p);
  }

  lemma BootReady(cfg: Config, n: nat, sem: map<int, int>)
    requires n >= 1
    ensures var s := Boot(cfg, n, sem); Sized(s) && s.ready != [] && Proc(s, s.ready[0])
  {
  }

  /** main */
  method PowerOn(cfg: Config, n: nat, sem: map<int, int>, t: nat) returns (k: Kernel)
    requires n >= 1
    ensures fresh(k) && fresh(k.pNext) && fresh(k.pSib) && fresh(k.sNext)
    ensures k.Valid() && k.Abs() == Started(cfg, n, sem, t)
  {
    hide Rep, Boot, Nucleus.Scheduler;
    BootReady(cfg, n, sem);
    k := Start(cfg, n, sem);
    Scheduling.Scheduler(k, t);
  }

  // ----- from power on to the end of a run -----

  /** Event i of es can happen when it comes. */
  ghost predicate Happens(s: Sys, es: seq<Event>, i: nat)
    requires Inv(s) && i < |es|
  {
    Enabled(Exec(s, es[..i]), es[i])
  }

  ghost predicate Possible(s: Sys, es: seq<Event>)
    requires Inv(s)
  {
    forall i :: 0 <= i < |es| ==> Happens(s, es, i)
  }

  lemma NextEvent(s: Sys, es: seq<Event>, i: nat)
    requires Inv(s) && Possible(s, es) && i < |es|
    ensures Enabled(Exec(s, es[..i]), es[i])
    ensures Exec(s, es[..i + 1]) == Step(Exec(s, es[..i]), es[i])
  {
    hide Inv, Step, Enabled;
    assert Happens(s, es, i);
    assert es[..i + 1][..i] == es[..i] && es[..i + 1][i] == es[i];
  }

  /** Nothing happens after the lists have been broken. */
  lemma LastEvent(s: Sys, es: seq<Event>, i: nat)
    requires Inv(s) && Possible(s, es) && i < |es| && Exec(s, es[..i + 1]).mode == Broken
    ensures i + 1 == |es| && es[..i + 1] == es
  {
    hide Inv, Exec;
    assert i + 1 < |es| ==> Happens(s, es, i + 1);
  }

  /** The machine is switched on and delivers the events es. The memory of the nucleus ends up
      representing the state of that run, and everything proved of runs holds of it; or, exactly
      if the run has broken the lists, it represents no state at all. */
  method Run(cfg: Config, n: nat, sem: map<int, int>, t: nat, es: seq<Event>, ghost polite: bool)
    returns (k: Kernel, ok: bool)
    requires n >= 1
    requires Inv(Started(cfg, n, sem, t)) && Possible(Started(cfg, n, sem, t), es)
    requires polite ==> Modest(cfg, sem) && PoliteRun(cfg, es)
    ensures fresh(k) && fresh(k.pNext) && fresh(k.pSib) && fresh(k.sNext)
    ensures ok <==> Exec(Started(cfg, n, sem, t), es).mode != Broken
    ensures ok ==> k.Valid() && k.Abs() == Exec(Started(cfg, n, sem, t), es)
    ensures ok ==> Inv(k.Abs()) && Sane(k.Abs()) && Good(k.Abs(), sem, polite)
    ensures !ok ==> !Meaningful(k.Img())
  {
    hide Rep, Inv, Exec, Step, Started, Enabled, Possible, Sane, Good, Modest, Meaningful;
    ghost var s := Started(cfg, n, sem, t);
    k := PowerOn(cfg, n, sem, t);
    var i := 0;
    NoEvents(s, es);
    while i < |es|
      invariant 0 <= i <= |es| && k.Valid() && k.Abs() == Exec(s, es[..i]) && k.mode != Broken
      invariant fresh(k) && fresh(k.pNext) && fresh(k.pSib) && fresh(k.sNext)
    {
      NextEvent(s, es, i);
      ok := Handlers.Handle(k, es[i]);
      if !ok {
        LastEvent(s, es, i);
        return;
      }
      i := i + 1;
    }
    assert es[..|es|] == es;
    BootedRun(cfg, n, sem, t, es, polite);
    ok := true;
  }

  lemma NoEvents(s: Sys, es: seq<Event>)
    requires Inv(s)
    ensures Exec(s, es[..0]) == s
  {
  }
}
