/** src/scheduler.c on the machine's memory. */
module Scheduling {
  import opened Lists
  import opened Nucleus
  import opened Invariant
  import opened Machine
  import C = Clock
  import Clockwork
  import opened Fields
  import Pcb

  lemma DispatchParts(s: Sys, t: nat)
    requires Sized(s) && s.ready != [] && Proc(s, s.ready[0])
    ensures var p := s.ready[0];
      var s1 := Pcb.Popped(s).(cur := p);
      C.Slot(s.clk, p) && Sized(s1.(clk := C.Grant(s.clk, p)))
      && Dispatch(s, t) == Exit(s1.(clk := C.Grant(s.clk, p)), t, false).(mode := Running)
  {
    hide C.Exit;
  }

  lemma FirstReady(i: Image)
    requires Rep(i)
    ensures i.s.ready != [] ==> Proc(i.s, i.s.ready[0])
    ensures i.readyQ == NIL <==> i.s.ready == []
    ensures |i.pn| == |i.s.loc|
  {
    Pcb.QueueList(i, Ready);
    Pcb.EmptyTail(i.pn, i.readyQ, i.s.ready);
    if i.s.ready != [] {
      TaggedHead(i.s.ready, i.s.loc, Ready);
    }
  }

  /** scheduler */
  method Scheduler(k: Kernel, t: nat)
    requires k.Valid() && Sized(k.Abs())
    modifies k, k.pNext
    ensures k.Valid()
    ensures old(k.ready != [] ==> Proc(k.Abs(), k.ready[0])) && k.Abs() == Nucleus.Scheduler(old(k.Abs()), t)
  {
    hide Rep, C.Exit, C.Grant, Dispatch;
    ghost var s := k.Abs();
    FirstReady(k.Img());
    if k.readyQ != NIL {
      DispatchParts(s, t);
      var p := Pcb.RemoveReady(k);
      SetCurrent(k, p);
      SetSlice(k, p);
      Clockwork.OnHandlerExit(k, t, false);
      SetMode(k, Running);
    } else if k.count <= 0 || k.count > k.pNext.Length {
      SetMode(k, Halted);
    } else if k.soft > 0 {
      Clockwork.OnHandlerExit(k, t, false);
      SetMode(k, Idling);
    } else {
      SetMode(k, Deadlock);
    }
  }
}
