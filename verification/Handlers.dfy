/** The exception handlers on the machine's memory: sysBP_Handler, pgmTrap_Handler, TLB_Handler
    and InterruptExceptionHandler. Each makes exactly the step of the transition system. */
module Handlers {
  import opened Lists
  import opened Nucleus
  import opened Invariant
  import opened Machine
  import opened Runs
  import C = Clock
  import Clockwork
  import Exceptions
  import Interrupt
  import Scheduling
  import Verdicts

  lemma Ready(s: Sys)
    requires Inv(s)
    ensures Sized(s) && Lines(s) && s.count >= 0 && (s.ready != [] ==> Proc(s, s.ready[0]))
    ensures s.cur != NIL ==> Proc(s, s.cur) && s.loc[s.cur] == Off
  {
    hide C.Conserved, Softened, Linked, Seated, Housed;
    PartitionLines(s);
    Exceptions.CountLive(s);
  }

  /** defSys */
  method DefSys(k: Kernel, call: Call, t: nat) returns (ok: bool)
    requires k.Valid() && Inv(k.Abs()) && k.cur != NIL && Live(k.Abs()) && C.Later(k.Clk(), t)
    modifies k, k.pNext, k.pSib, k.sNext
    ensures ok <==> Body(old(k.Abs()), call, t).mode != Broken
    ensures ok ==> k.Valid() && k.Abs() == Body(old(k.Abs()), call, t)
    ensures !ok ==> !Meaningful(k.Img())
  {
    hide Rep, Inv, Semop, Nucleus.WaitClock, Terminate, Create, Lines, Meaningful;
    Ready(k.Abs());
    Verdicts.BodyMode(k.Abs(), call, t);
    ok := true;
    match call {
      case CreateProcess => Exceptions.CreateProcess(k);
      case TerminateProcess(id) => ok := Exceptions.TerminateProcess(k, id);
      case SemOp(a, w) => Exceptions.Semop(k, a, w, t);
      case WaitForClock => Exceptions.WaitClock(k, t);
      case IoDevOp(a) => Exceptions.Semop(k, a, -1, t);
      case Passive =>
    }
  }

  /** What a handler does between its clock readings. */
  method Respond(k: Kernel, e: Event) returns (ok: bool)
    requires k.Valid() && Inv(k.Abs()) && Enabled(k.Abs(), e)
    modifies k, k.pNext, k.pSib, k.sNext
    ensures ok <==> Work(old(k.Abs()), e).mode != Broken
    ensures ok ==> k.Valid() && k.Abs() == Work(old(k.Abs()), e)
    ensures !ok ==> !Meaningful(k.Img())
  {
    hide Rep, Inv, Body, Terminate, Nucleus.HandleTimer, Nucleus.HandleDevice, Lines, Meaningful, Verdicts.Victim;
    Ready(k.Abs());
    if !e.Syscall? && !e.Trap? && !e.Forbidden? {
      WorkUnbroken(k.Abs(), e);
    }
    ok := true;
    match e {
      case Syscall(call, at) => ok := DefSys(k, call, at.mid);
      case Trap(at) => ok := Exceptions.TerminateProcess(k, 0);
      case PassUp(at) =>
      case Forbidden(dies, at) =>
        ChargeInv(k.Abs(), at.mid);
        Clockwork.OnHandlerExit(k, at.mid, true);
        if dies {
          ok := Exceptions.TerminateProcess(k, 0);
        }
      case Timer(at) => Interrupt.HandleTimer(k, at.mid, at.mid2);
      case Device(dev, status, at) => Interrupt.HandleDevice(k, dev, status);
    }
  }

  /** Only terminations can break the lists. */
  lemma WorkUnbroken(s: Sys, e: Event)
    requires Inv(s) && Enabled(s, e) && !e.Syscall? && !e.Trap? && !e.Forbidden?
    ensures Work(s, e).mode != Broken
  {
    hide Inv, Work, Clean;
    Verdicts.WorkMode(s, e);
  }

  lemma BeginPart(s: Sys, e: Event)
    requires Inv(s) && Enabled(s, e)
    ensures var r := Begin(s, e);
      r == Enter(s, e.at.enter) && Inv(r) && Enabled(r, e) && e.at.leave <= e.at.sched
  {
    hide Inv, C.Enter;
    Ready(s);
    BeginSame(s, e.at.enter);
  }

  lemma WorkPart(s: Sys, e: Event)
    requires Inv(s) && Enabled(s, e)
    ensures var s3 := End(Work(Begin(s, e), e), e); Step(s, e) == if Live(s3) then Elect(s3, e) else s3
  {
    hide Inv, Begin, Work, End, Elect;
    BeginPart(s, e);
  }

  lemma WorkBroken(s: Sys, e: Event)
    requires Inv(s) && Enabled(s, e)
    ensures Work(Begin(s, e), e).mode == Broken <==> Step(s, e).mode == Broken
  {
    hide Inv, Begin, Work, End, Elect;
    BeginPart(s, e);
    Verdicts.LeaveMode(Work(Begin(s, e), e), e);
  }

  lemma EndPart(s: Sys, e: Event)
    requires Inv(s) && C.Later(s.clk, e.at.leave) && e.at.leave <= e.at.sched
    ensures Sized(s) && End(s, e) == if Live(s) then Exit(s, e.at.leave, e.Syscall?) else s
    ensures Inv(End(s, e)) && (Live(s) ==> C.Later(End(s, e).clk, e.at.sched))
  {
    hide Inv, Exit;
    Ready(s);
  }

  lemma ElectPart(s: Sys, e: Event)
    requires Inv(s) && C.Later(s.clk, e.at.sched) && Live(s)
    ensures Sized(s) && (s.ready != [] ==> Proc(s, s.ready[0]))
    ensures Elect(s, e) == if s.cur == NIL then Scheduler(s, e.at.sched) else s
  {
    hide Inv, Scheduler;
    Ready(s);
  }

  /** One entry into the nucleus, from the handler's first line to the dispatch that ends it, for
      any event that can happen in a state that the nucleus reaches. Either the memory represents
      the next state of the transition system, or, exactly if that is Broken, it represents no
      state at all. */
  method Handle(k: Kernel, e: Event) returns (ok: bool)
    requires k.Valid() && Inv(k.Abs()) && Enabled(k.Abs(), e)
    modifies k, k.pNext, k.pSib, k.sNext
    ensures ok <==> Step(old(k.Abs()), e).mode != Broken
    ensures ok ==> k.Valid() && Inv(k.Abs()) && k.Abs() == Step(old(k.Abs()), e)
    ensures !ok ==> !Meaningful(k.Img())
  {
    hide Rep, Inv, Enabled, Step, Begin, Work, End, Elect, Enter, Exit, Nucleus.Scheduler, Meaningful;
    BeginPart(k.Abs(), e);
    WorkPart(k.Abs(), e);
    WorkBroken(k.Abs(), e);
    Ready(k.Abs());
    Clockwork.OnHandlerEnter(k, e.at.enter);
    ok := Respond(k, e);
    if ok {
      Leave(k, e);
    }
  }

  /** The last clock reading and the choice of who runs next */
  method Leave(k: Kernel, e: Event)
    requires k.Valid() && Inv(k.Abs()) && C.Later(k.Clk(), e.at.leave) && e.at.leave <= e.at.sched
    modifies k, k.pNext
    ensures k.Valid() && var s3 := End(old(k.Abs()), e);
      (Live(s3) ==> C.Later(s3.clk, e.at.sched)) && k.Abs() == if Live(s3) then Elect(s3, e) else s3
  {
    hide Rep, Inv, End, Elect, Exit, Nucleus.Scheduler;
    EndPart(k.Abs(), e);
    if k.mode == Running || k.mode == Idling {
      Clockwork.OnHandlerExit(k, e.at.leave, e.Syscall?);
    }
    if k.mode == Running || k.mode == Idling {
      ElectPart(k.Abs(), e);
      if k.cur == NIL {
        Scheduling.Scheduler(k, e.at.sched);
      }
    }
  }
}
