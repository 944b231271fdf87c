/** Whole handlers and whole runs: an event is one entry into the nucleus, from the
    handler's first line to the dispatch that ends it. */
module Runs {
  import opened Lists
  import opened Forest
  import opened Nucleus
  import opened Invariant
  import C = Clock

  /** True times of the clock readings in the order in which one handler may make them. */
  datatype Times = Times(enter: nat, mid: nat, mid2: nat, leave: nat, sched: nat)

  datatype Call =
    | CreateProcess
    | TerminateProcess(pid: nat)
    | SemOp(sem: int, weight: int)
    | WaitForClock
    | IoDevOp(dev: int)
    | Passive

  /** Trap is a program trap, TLB exception or breakpoint for which the process has set no
      handler and dies; PassUp one that is passed up to its own handler. Forbidden is a system call
      below 12 in user mode, which sysBP_Handler turns into a program trap after charging the
      caller; it dies of it or handles it. */
  datatype Event =
    | Syscall(call: Call, at: Times)
    | Trap(at: Times)
    | PassUp(at: Times)
    | Forbidden(dies: bool, at: Times)
    | Timer(at: Times)
    | Device(dev: int, status: int, at: Times)

  predicate Ordered(now: nat, at: Times) {
    now <= at.enter <= at.mid <= at.mid2 <= at.leave <= at.sched
  }

  /** Which events can happen: system calls and traps come from a running process,
      interrupts at any time, none after the nucleus has stopped. */
  predicate Enabled(s: Sys, e: Event) {
    && Live(s)
    && Ordered(s.clk.led.now, e.at)
    && match e
       case Syscall(call, _) => s.cur != NIL && (call.IoDevOp? ==> call.dev in s.cfg.devices)
       case Trap(_) => s.cur != NIL
       case PassUp(_) => s.cur != NIL
       case Forbidden(_, _) => s.cur != NIL
       case Timer(_) => true
       case Device(dev, _, _) => dev in s.cfg.devices
  }

  /** defSys */
  ghost function Body(s: Sys, call: Call, t: nat): (r: Sys)
    requires Inv(s) && s.cur != NIL && Live(s) && C.Later(s.clk, t)
    ensures Inv(r) && C.Later(r.clk, t)
  {
    hide C.Conserved, Parted, Linked, Seated, Softened, Lines, Kin;
    PartitionLines(s);
    match call
    case CreateProcess => CreateInv(s); Create(s)
    case TerminateProcess(id) => TerminateInv(s, id); TerminateTime(s, id); Terminate(s, id)
    case SemOp(a, w) => SemopInv(s, a, w, t); Semop(s, a, w, t)
    case WaitForClock => SemopInv(s, s.cfg.clock, -1, t); WaitClock(s, t)
    case IoDevOp(a) => SemopInv(s, a, -1, t); Semop(s, a, -1, t)
    case Passive => s
  }

  /** onHandlerEnter */
  ghost function Begin(s: Sys, e: Event): (r: Sys)
    requires Inv(s) && Enabled(s, e)
    ensures Inv(r) && r.clk.led.now == e.at.enter
  {
    EnterInv(s, e.at.enter);
    Enter(s, e.at.enter)
  }

  /** What the handler of e does between its first and its last clock reading. */
  ghost function Work(s: Sys, e: Event): (r: Sys)
    requires Inv(s) && Live(s) && Ordered(s.clk.led.now, e.at)
    requires e.Syscall? || e.Trap? || e.Forbidden? ==> s.cur != NIL
    ensures Inv(r) && C.Later(r.clk, e.at.leave)
  {
    PartitionLines(s);
    match e
    case Syscall(call, at) => Body(s, call, at.mid)
    case Trap(at) =>
      TerminateInv(s, 0);
      TerminateTime(s, 0);
      Terminate(s, 0)
    case PassUp(at) => s
    case Forbidden(dies, at) =>
      ChargeInv(s, at.mid);
      var s1 := Exit(s, at.mid, true);
      if dies then
        TerminateInv(s1, 0);
        TerminateTime(s1, 0);
        Terminate(s1, 0)
      else s1
    case Timer(at) =>
      HandleTimerInv(s, at.mid, at.mid2);
      HandleTimer(s, at.mid, at.mid2)
    case Device(dev, status, at) =>
      HandleDeviceInv(s, dev, status);
      HandleDevice(s, dev, status)
  }

  /** onHandlerExit, which only system calls charge to the running process */
  ghost function End(s: Sys, e: Event): (r: Sys)
    requires Inv(s) && C.Later(s.clk, e.at.leave)
    ensures Inv(r) && (Live(s) ==> r.clk.led.now == e.at.leave)
  {
    ExitInv(s, e.at.leave, e.Syscall?);
    if Live(s) then Exit(s, e.at.leave, e.Syscall?) else s
  }

  /** The scheduler is called when nobody is running. */
  ghost function Elect(s: Sys, e: Event): (r: Sys)
    requires Inv(s) && C.Later(s.clk, e.at.sched)
    ensures Inv(r)
  {
    PartitionLines(s);
    if !Live(s) || s.cur != NIL then s
    else
      SchedulerInv(s, e.at.sched);
      Scheduler(s, e.at.sched)
  }

  ghost function Step(s: Sys, e: Event): (r: Sys)
    requires Inv(s)
    ensures Inv(r)
  {
    hide C.Conserved, Parted, Housed, Linked, Seated, Softened;
    if !Enabled(s, e) then s
    else
      BeginSame(s, e.at.enter);
      var s3 := End(Work(Begin(s, e), e), e);
      if Live(s3) then Elect(s3, e) else s3
  }

  lemma BeginSame(s: Sys, t: nat)
    requires Sized(s)
    ensures var r := Enter(s, t); r == s.(clk := r.clk)
  {
  }

  /** A run: the state after a sequence of events. */
  ghost function Exec(s: Sys, es: seq<Event>): (r: Sys)
    requires Inv(s)
    ensures Inv(r)
    decreases |es|
  {
    if es == [] then s else Step(Exec(s, es[..|es| - 1]), es[|es| - 1])
  }

  // ----- the invariant, handler by handler -----

  lemma EnterInv(s: Sys, t: nat)
    requires Inv(s) && C.Later(s.clk, t)
    ensures Inv(Enter(s, t)) && Enter(s, t).clk.led.now == t
  {
    hide C.Conserved, Parted, Housed, Linked, Seated, Softened;
    C.EnterConserves(s.clk, t, s.cur);
  }

  lemma ExitInv(s: Sys, t: nat, flag: bool)
    requires Inv(s) && C.Later(s.clk, t)
    ensures Inv(Exit(s, t, flag)) && Exit(s, t, flag).clk.led.now == t
  {
    hide C.Conserved, Parted, Housed, Linked, Seated, Softened;
    C.ExitConserves(s.clk, t, flag, s.cur);
  }

  lemma ExitSame(s: Sys, t: nat, flag: bool)
    requires Sized(s)
    ensures var r := Exit(s, t, flag); r == s.(clk := r.clk)
  {
  }

  lemma ChargeInv(s: Sys, t: nat)
    requires Inv(s) && C.Later(s.clk, t)
    ensures var r := Exit(s, t, true); Inv(r) && r == s.(clk := r.clk) && r.clk.led.now == t
  {
    hide Inv;
    ExitInv(s, t, true);
    ExitOnlyTime(s, t);
  }

  lemma ExitOnlyTime(s: Sys, t: nat)
    requires Inv(s)
    ensures var r := Exit(s, t, true); r == s.(clk := r.clk)
  {
    hide C.Conserved, Parted, Housed, Linked, Seated, Softened;
    ExitSame(s, t, true);
  }

  lemma SemopInv(s: Sys, a: int, w: int, t: nat)
    requires Inv(s) && Lines(s) && (w < 0 ==> s.cur != NIL) && C.Later(s.clk, t)
    ensures Inv(Semop(s, a, w, t)) && C.Later(Semop(s, a, w, t).clk, t)
  {
    hide C.Conserved, Parted, Housed, Linked, Seated, Softened, Lines, Wake;
    if w > 0 {
      ReleaseInv(s, a, w);
      ReleaseEffect(s, a, w);
    } else if w < 0 {
      AcquireInv(s, a, -w, t);
    }
  }

  lemma TerminateTime(s: Sys, id: int)
    requires Sized(s) && Kin(s.fam) && s.cur != NIL
    ensures Terminate(s, id).clk == s.clk
  {
    hide Kin, Clean, Post, ChildByPid;
  }

  lemma {:induction false} TickInv(s: Sys)
    requires Inv(s) && Lines(s)
    ensures Inv(Tick(s)) && Lines(Tick(s))
    ensures Tick(s).clk == s.clk && Tick(s).cur == s.cur && Tick(s).mode == s.mode && Tick(s).cfg == s.cfg
    decreases s.ticks
  {
    hide C.Conserved, Parted, Housed, Linked, Seated, Softened, Lines, Wake, Release;
    if s.ticks > 0 {
      ReleaseInv(s, s.cfg.clock, s.ticks);
      ReleaseEffect(s, s.cfg.clock, s.ticks);
      LinesAfterRelease(s, s.cfg.clock, s.ticks);
      var s1 := Release(s, s.cfg.clock, s.ticks);
      var s2 := s1.(ticks := s1.ticks - 1);
      LinesSame(s1, s1.ticks - 1);
      TickInv(s2);
    }
  }

  lemma LinesSame(s: Sys, n: int)
    requires Lines(s)
    ensures Lines(s.(ticks := n))
  {
  }

  lemma RestartInv(s: Sys)
    requires Inv(s) && Lines(s)
    ensures var r := s.(clk := C.Restart(s.clk)); Inv(r) && Lines(r) && r.clk.led.now == s.clk.led.now
  {
    hide Parted, Housed, Linked, Seated, Softened;
  }

  lemma HandleTimerInv(s: Sys, t: nat, t2: nat)
    requires Inv(s) && Lines(s) && C.Later(s.clk, t) && t <= t2
    ensures Inv(HandleTimer(s, t, t2)) && C.Later(HandleTimer(s, t, t2).clk, t2)
  {
    hide C.Conserved, Parted, Housed, Linked, Seated, Softened, Lines, Tick, C.Restart, Preempt;
    RestartInv(s);
    TickInv(s.(clk := C.Restart(s.clk)));
    var s1 := if C.TickDue(s.clk, t) then Tick(s.(clk := C.Restart(s.clk))) else s;
    if s1.cur != NIL {
      PreemptInv(s1, t2);
      PreemptTime(s1, t2);
    }
  }

  lemma PreemptTime(s: Sys, t: nat)
    requires Sized(s) && s.cur != NIL
    ensures Preempt(s, t).clk.led.now == t
  {
  }

  lemma HandleDeviceInv(s: Sys, a: int, status: int)
    requires Inv(s) && Lines(s)
    ensures Inv(HandleDevice(s, a, status)) && HandleDevice(s, a, status).clk == s.clk
  {
    hide C.Conserved, Parted, Housed, Linked, Seated, Softened, Lines, Release;
    ReleaseInv(s, a, 1);
    ReleaseEffect(s, a, 1);
  }
}
