/** src/interrupt.c: timer and device interrupts on the machine's memory. */
module Interrupt {
  import opened Lists
  import opened Nucleus
  import opened Invariant
  import opened Machine
  import Asl
  import C = Clock
  import Clockwork
  import Exceptions
  import opened Fields
  import Pcb
  import Runs

  lemma TickStep(s: Sys)
    requires Sized(s) && Lines(s) && s.ticks > 0
    ensures var r := Release(s, s.cfg.clock, s.ticks);
      Sized(r) && Lines(r) && Lines(r.(ticks := r.ticks - 1)) && Tick(s) == Tick(r.(ticks := r.ticks - 1))
      && r.ticks == s.ticks && r.cfg == s.cfg && r.cur == s.cur
  {
    hide Lines, Release;
    LinesAfterRelease(s, s.cfg.clock, s.ticks);
    ReleaseEffect(s, s.cfg.clock, s.ticks);
    Runs.LinesSame(Release(s, s.cfg.clock, s.ticks), s.ticks - 1);
  }

  /** The loop of a pseudo-clock tick */
  method TickLoop(k: Kernel)
    requires k.Valid() && Sized(k.Abs()) && Lines(k.Abs())
    modifies k, k.pNext, k.sNext
    ensures k.Valid() && k.Abs() == Tick(old(k.Abs()))
  {
    hide Rep, Lines, Tick, Release;
    ghost var s := k.Abs();
    while k.ticks > 0
      invariant k.Valid() && Sized(k.Abs()) && Lines(k.Abs()) && Tick(k.Abs()) == Tick(s)
      decreases k.ticks
    {
      TickStep(k.Abs());
      Exceptions.Semop(k, k.cfg.clock, k.ticks, 0);
      SetTicks(k, k.ticks - 1);
    }
    TickDone(k.Abs());
  }

  lemma TickDone(s: Sys)
    requires Sized(s) && Lines(s) && s.ticks <= 0
    ensures Tick(s) == s
  {
  }

  lemma TickKeeps(s: Sys)
    requires Inv(s) && Lines(s)
    ensures Tick(s).cur == s.cur && Tick(s).mode == s.mode && Tick(s).cfg == s.cfg && Inv(Tick(s))
  {
    Runs.TickInv(s);
  }

  /** The two halves of handleTimer. */
  function Ticked(s: Sys, t: nat): (r: Sys)
    requires Sized(s) && Lines(s)
    ensures Sized(r)
  {
    if C.TickDue(s.clk, t) then Tick(s.(clk := C.Restart(s.clk))) else s
  }

  function Expired(s: Sys, t: nat): (r: Sys)
    requires Sized(s)
    ensures Sized(r)
  {
    if s.cur == NIL then (if s.cfg.build.Shipped? then s.(mode := Astray) else s)
    else if s.clk.slice[s.cur] > C.SLICE then Preempt(s, t)
    else s
  }

  lemma TimerHalves(s: Sys, t: nat, t2: nat)
    requires Inv(s) && Lines(s)
    ensures Inv(Ticked(s, t)) && Nucleus.HandleTimer(s, t, t2) == Expired(Ticked(s, t), t2)
  {
    hide Inv, Tick, Lines, C.Restart, Preempt;
    Runs.RestartInv(s);
    TickKeeps(s.(clk := C.Restart(s.clk)));
  }

  method CheckTick(k: Kernel, t: nat)
    requires k.Valid() && Sized(k.Abs()) && Lines(k.Abs())
    modifies k, k.pNext, k.sNext
    ensures k.Valid() && k.Abs() == Ticked(old(k.Abs()), t)
  {
    hide Rep, Lines, Tick, C.Restart;
    ghost var s := k.Abs();
    RestartSized(s);
    var elapsed := (t % C.WORD - k.last) % C.WORD;
    if k.left == elapsed || (k.left - elapsed) % C.WORD > C.TICK {
      RestartCountdown(k);
      TickLoop(k);
    }
  }

  lemma RestartSized(s: Sys)
    requires Sized(s) && Lines(s)
    ensures var r := s.(clk := C.Restart(s.clk)); Sized(r) && Lines(r)
  {
  }

  method CheckSlice(k: Kernel, t: nat)
    requires k.Valid() && Sized(k.Abs()) && (k.cur != NIL ==> k.loc[k.cur] == Off)
    modifies k, k.pNext
    ensures k.Valid() && k.Abs() == Expired(old(k.Abs()), t)
  {
    hide Rep, Preempt;
    if k.cur == NIL {
      if k.cfg.build.Shipped? {
        SetMode(k, Astray);
      }
    } else if k.slice[k.cur] > C.SLICE {
      Requeue(k, t);
    }
  }

  /** handleTimer */
  method HandleTimer(k: Kernel, t: nat, t2: nat)
    requires k.Valid() && Inv(k.Abs()) && Lines(k.Abs())
    modifies k, k.pNext, k.sNext
    ensures k.Valid() && k.Abs() == Nucleus.HandleTimer(old(k.Abs()), t, t2)
  {
    hide Rep, Lines, Inv, Ticked, Expired, Nucleus.HandleTimer;
    TimerHalves(k.Abs(), t, t2);
    InvSized(k.Abs());
    CheckTick(k, t);
    InvSized(k.Abs());
    CheckSlice(k, t2);
  }

  lemma InvSized(s: Sys)
    requires Inv(s)
    ensures Sized(s) && (s.cur != NIL ==> Proc(s, s.cur) && s.loc[s.cur] == Off)
  {
    hide C.Conserved, Softened, Linked, Seated, Housed;
  }

  /** The end of the time slice */
  method Requeue(k: Kernel, t: nat)
    requires k.Valid() && Sized(k.Abs()) && k.cur != NIL && k.loc[k.cur] == Off
    modifies k, k.pNext
    ensures k.Valid() && k.Abs() == Preempt(old(k.Abs()), t)
  {
    hide Rep, C.Exit;
    Clockwork.OnHandlerExit(k, t, true);
    Pcb.InsertReady(k, k.cur);
    SetCurrent(k, NIL);
  }

  // ----- devices -----

  /** If the head has changed there was one. */
  lemma HeadChanged(i: Image, a: int)
    requires Rep(i) && Sized(i.s) && Lines(i.s)
    ensures var r := if Val(i.s, a) < 1 then Release(i.s, a, 1) else i.s;
      Head(i.s, a) != Head(r, a) ==> Proc(i.s, Head(i.s, a))
    ensures |Release(i.s, a, 1).loc| == |i.s.loc|
  {
    hide Rep, Release;
    Exceptions.HeadIs(i, a);
    ReleaseEffect(i.s, a, 1);
    if Head(i.s, a) == NIL {
      assert Queue(Release(i.s, a, 1), a) == [];
    } else {
      HeadProc(i.s, a);
    }
  }

  lemma HeadProc(s: Sys, a: int)
    requires Lines(s) && Head(s, a) != NIL
    ensures Proc(s, Head(s, a))
  {
  }

  /** The semaphore tail of handleDevices, for the semaphore a of the interrupting device */
  method HandleDevice(k: Kernel, a: int, status: int)
    requires k.Valid() && Sized(k.Abs()) && Lines(k.Abs())
    modifies k, k.pNext, k.sNext
    ensures k.Valid() && k.Abs() == Nucleus.HandleDevice(old(k.Abs()), a, status)
  {
    hide Rep, Lines, Release;
    HeadChanged(k.Img(), a);
    var head := Asl.HeadBlocked(k, a);
    if Value(k.sem, a) < 1 {
      Exceptions.Semop(k, a, 1, 0);
    }
    var after := Asl.HeadBlocked(k, a);
    if head != after {
      SetA1(k, head, status);
    }
  }
}
