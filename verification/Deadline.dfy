/** The pseudo-clock over whole runs: the 32-bit countdown of lib/aux.c is an absolute
    deadline as long as the last reading of each handler comes less than 2^32 - 100000
    microseconds after the last update before that handler. */
module Deadline {
  import opened Lists
  import opened Nucleus
  import opened Invariant
  import opened Runs
  import opened Verdicts
  import C = Clock

  /** All readings of e come soon enough after the last update before it. */
  predicate Brisk(s: Sys, e: Event) { C.Soon(s.clk, e.at.sched) }

  lemma AcquireDeadline(s: Sys, a: int, r: int, t: nat)
    requires Inv(s) && s.cur != NIL && C.Later(s.clk, t) && C.OnDeadline(s.clk) && C.Soon(s.clk, t)
    ensures var c := Acquire(s, a, r, t).clk; C.OnDeadline(c) && s.clk.led.now <= c.led.now
  {
    hide C.Conserved, Parted, Housed, Linked, Seated, Softened, C.OnDeadline;
    C.ExitOnDeadline(s.clk, t, true, s.cur);
  }

  lemma RebirthOnDeadline(c: C.Time, p: int)
    requires C.OnDeadline(c) && C.Slot(c, p)
    ensures C.OnDeadline(C.Rebirth(c, p)) && C.Rebirth(c, p).led.now == c.led.now
  {
  }

  lemma BodyDeadline(s: Sys, call: Call, t: nat)
    requires Inv(s) && s.cur != NIL && Live(s) && C.Later(s.clk, t) && C.OnDeadline(s.clk) && C.Soon(s.clk, t)
    ensures var c := Body(s, call, t).clk; C.OnDeadline(c) && s.clk.led.now <= c.led.now
  {
    hide C.Conserved, Parted, Housed, Linked, Seated, Softened, C.OnDeadline, Acquire, Release, Terminate, Create,
      C.Rebirth,
        Lines;
    PartitionLines(s);
    match call
    case CreateProcess =>
      if s.count < |s.loc| && s.free != [] {
        CreateFields(s);
        RebirthOnDeadline(s.clk, s.free[0]);
      } else {
        CreateClock(s);
      }
    case TerminateProcess(id) =>
      InvKin(s);
      TerminateTime(s, id);
    case SemOp(a, w) =>
      if w > 0 {
        ReleaseEffect(s, a, w);
      } else if w < 0 {
        AcquireDeadline(s, a, -w, t);
      }
    case WaitForClock => AcquireDeadline(s, s.cfg.clock, 1, t);
    case IoDevOp(a) => AcquireDeadline(s, a, 1, t);
    case Passive =>
  }

  lemma CreateClock(s: Sys)
    requires Sized(s) && s.cur != NIL && (s.free != [] ==> Proc(s, s.free[0])) && !(s.count < |s.loc| && s.free != [])
    ensures Create(s).clk == s.clk
  {
  }

  lemma HandleTimerDeadline(s: Sys, t: nat, t2: nat)
    requires Inv(s) && Lines(s) && C.Later(s.clk, t) && t <= t2 && C.OnDeadline(s.clk) && C.Soon(s.clk, t2)
    ensures var c := HandleTimer(s, t, t2).clk; C.OnDeadline(c) && s.clk.led.now <= c.led.now
  {
    hide C.Conserved, Parted, Housed, Linked, Seated, Softened, Lines, Tick;
    RestartInv(s);
    TickInv(s.(clk := C.Restart(s.clk)));
    var s1 := if C.TickDue(s.clk, t) then Tick(s.(clk := C.Restart(s.clk))) else s;
    assert C.OnDeadline(s1.clk) && s1.clk.led.now == s.clk.led.now;
    if s1.cur != NIL {
      C.ExitOnDeadline(s1.clk, t2, true, s1.cur);
    }
  }

  lemma WorkDeadline(s: Sys, e: Event)
    requires Inv(s) && Enabled(s, e) && C.OnDeadline(s.clk) && Brisk(s, e)
    ensures var c := Work(s, e).clk; C.OnDeadline(c) && s.clk.led.now <= c.led.now
  {
    hide C.Conserved, Parted, Housed, Linked, Seated, Softened, C.OnDeadline, HandleTimer, HandleDevice, Terminate,
      Body, Lines;
    PartitionLines(s);
    match e
    case Syscall(call, at) => BodyDeadline(s, call, at.mid);
    case Trap(at) =>
      InvKin(s);
      TerminateTime(s, 0);
    case PassUp(at) =>
    case Forbidden(dies, at) =>
      ChargeInv(s, at.mid);
      C.ExitOnDeadline(s.clk, at.mid, true, s.cur);
      InvKin(Exit(s, at.mid, true));
      TerminateTime(Exit(s, at.mid, true), 0);
    case Timer(at) => HandleTimerDeadline(s, at.mid, at.mid2);
    case Device(dev, status, at) => HandleDeviceInv(s, dev, status);
  }

  lemma LeaveDeadline(s: Sys, e: Event)
    requires Inv(s) && C.Later(s.clk, e.at.leave) && e.at.leave <= e.at.sched && C.OnDeadline(s.clk) && Brisk(s, e)
    ensures var s3 := End(s, e); C.OnDeadline((if Live(s3) then Elect(s3, e) else s3).clk)
  {
    hide C.Conserved, Parted, Housed, Linked, Seated, Softened;
    C.ExitOnDeadline(s.clk, e.at.leave, e.Syscall?, s.cur);
    if Live(s) {
      ElectDeadline(End(s, e), e);
    }
  }

  lemma ElectDeadline(s: Sys, e: Event)
    requires Inv(s) && C.Later(s.clk, e.at.sched) && C.OnDeadline(s.clk) && C.Soon(s.clk, e.at.sched)
    ensures C.OnDeadline(Elect(s, e).clk)
  {
    hide C.Conserved, Parted, Housed, Linked, Seated, Softened;
    if Live(s) && s.cur == NIL {
      PartitionLines(s);
      C.ExitOnDeadline(s.clk, e.at.sched, false, NIL);
      if s.ready != [] {
        var p := s.ready[0];
        C.GrantConserves(s.clk, p);
        C.ExitOnDeadline(C.Grant(s.clk, p), e.at.sched, false, p);
      }
    }
  }

  lemma StepDeadline(s: Sys, e: Event)
    requires Inv(s) && C.OnDeadline(s.clk) && Brisk(s, e)
    ensures C.OnDeadline(Step(s, e).clk)
  {
    hide C.Conserved, Parted, Housed, Linked, Seated, Softened, C.OnDeadline, Work, End, Elect;
    if Enabled(s, e) {
      BeginSame(s, e.at.enter);
      C.EnterOnDeadline(s.clk, e.at.enter, s.cur);
      var s1 := Begin(s, e);
      WorkDeadline(s1, e);
      LeaveDeadline(Work(s1, e), e);
    }
  }

  ghost predicate BriskRun(s: Sys, es: seq<Event>)
    requires Inv(s)
    decreases |es|
  {
    es != [] ==> BriskRun(s, es[..|es| - 1]) && Brisk(Exec(s, es[..|es| - 1]), es[|es| - 1])
  }

  /** g_leftTo100 is, in every reachable state, what remains until 100000 microseconds after
      the entry of the last handler that ticked. */
  lemma {:induction false} ExecOnDeadline(s: Sys, es: seq<Event>)
    requires Inv(s) && C.OnDeadline(s.clk) && BriskRun(s, es)
    ensures C.OnDeadline(Exec(s, es).clk)
    decreases |es|
  {
    hide Inv, C.OnDeadline, Step;
    if es != [] {
      ExecOnDeadline(s, es[..|es| - 1]);
      StepDeadline(Exec(s, es[..|es| - 1]), es[|es| - 1]);
    }
  }

  /** A timer interrupt whose handler reads the clock at e.at.mid ticks if and only if that
      deadline has been reached. */
  lemma TimerTicksOnTime(s: Sys, e: Event)
    requires Inv(s) && Enabled(s, e) && C.OnDeadline(s.clk) && Brisk(s, e)
    ensures C.TickDue(Begin(s, e).clk, e.at.mid) <==> e.at.mid - s.clk.led.base >= C.TICK
  {
    hide Parted, Housed, Linked, Seated, Softened;
    C.EnterOnDeadline(s.clk, e.at.enter, s.cur);
    C.EnterConserves(s.clk, e.at.enter, s.cur);
    var c := Begin(s, e).clk;
    EnterBase(s.clk, e.at.enter, s.cur);
    C.TicksAtDeadline(c, e.at.mid);
  }

  lemma EnterBase(c: C.Time, t: nat, cur: int)
    requires cur == NIL || C.Slot(c, cur)
    ensures C.Enter(c, t, cur).led.base == c.led.base && C.Enter(c, t, cur).led.now == t
  {
  }

  // ----- the interval timer -----

  /** Loaded is what remains until the next tick, or of the slice of the running process if that
      is less. */
  predicate Armed(c: C.Time, cur: int) {
    if cur == NIL then c.timer == c.left else C.Slot(c, cur) && c.timer == C.Min(c.left, c.slice[cur])
  }

  lemma ExitArms(c: C.Time, t: nat, flag: bool, cur: int)
    requires cur == NIL || C.Slot(c, cur)
    ensures Armed(C.Exit(c, t, flag, cur), cur)
  {
  }

  lemma EndArmed(s: Sys, e: Event)
    requires Inv(s) && C.Later(s.clk, e.at.leave) && e.at.leave <= e.at.sched && Live(s)
    ensures var s3 := End(s, e); Live(s3) && Armed(s3.clk, s3.cur)
  {
    hide C.Conserved, Parted, Housed, Linked, Seated, Softened, C.Exit, Armed;
    ExitArms(s.clk, e.at.leave, e.Syscall?, s.cur);
  }

  lemma ElectArmed(s: Sys, e: Event)
    requires Inv(s) && C.Later(s.clk, e.at.sched) && Live(s) && Armed(s.clk, s.cur)
    ensures var r := Elect(s, e); Live(r) ==> Armed(r.clk, r.cur)
  {
    hide C.Conserved, Parted, Housed, Linked, Seated, Softened, C.Exit, C.Grant, Armed;
    if s.cur == NIL {
      PartitionLines(s);
      ExitArms(s.clk, e.at.sched, false, NIL);
      if s.ready != [] {
        C.GrantConserves(s.clk, s.ready[0]);
        ExitArms(C.Grant(s.clk, s.ready[0]), e.at.sched, false, s.ready[0]);
      }
    }
  }

  lemma StepArmed(s: Sys, e: Event)
    requires Inv(s) && (Live(s) ==> Armed(s.clk, s.cur))
    ensures var r := Step(s, e); Live(r) ==> Armed(r.clk, r.cur)
  {
    hide C.Conserved, Parted, Housed, Linked, Seated, Softened, Armed, Work, End, Elect;
    if Enabled(s, e) {
      BeginSame(s, e.at.enter);
      var w := Work(Begin(s, e), e);
      if Live(w) {
        EndArmed(w, e);
        ElectArmed(End(w, e), e);
      } else {
        EndStopped(w, e);
      }
    }
  }

  lemma EndStopped(s: Sys, e: Event)
    requires Inv(s) && C.Later(s.clk, e.at.leave) && !Live(s)
    ensures End(s, e) == s
  {
    hide C.Conserved, Parted, Housed, Linked, Seated, Softened;
  }

  /** In every live state of a run the timer is loaded like that. */
  lemma {:induction false} ExecArmed(s: Sys, es: seq<Event>)
    requires Inv(s) && (Live(s) ==> Armed(s.clk, s.cur))
    ensures var r := Exec(s, es); Live(r) ==> Armed(r.clk, r.cur)
    decreases |es|
  {
    hide C.Conserved, Parted, Housed, Linked, Seated, Softened, Armed, Step;
    if es != [] {
      ExecArmed(s, es[..|es| - 1]);
      StepArmed(Exec(s, es[..|es| - 1]), es[|es| - 1]);
    }
  }

  /** Hence, as long as readings follow each other closely enough, the next timer interrupt is due
      no later than the next tick, or at once, and within the slice of the running process. */
  lemma TimerInTime(s: Sys, es: seq<Event>)
    requires Inv(s) && Armed(s.clk, s.cur) && C.OnDeadline(s.clk) && BriskRun(s, es) && Live(Exec(s, es))
    ensures var c := Exec(s, es).clk; c.led.now + c.timer <= c.led.base + C.TICK || c.timer <= 0
    ensures var r := Exec(s, es);
      r.cur != NIL && r.clk.led.due[r.cur] >= 0 ==> r.clk.timer <= r.clk.led.due[r.cur]
  {
    hide Parted, Housed, Linked, Seated, Softened, Exec, BriskRun;
    ExecArmed(s, es);
    ExecOnDeadline(s, es);
    var r := Exec(s, es);
    if r.cur != NIL && r.clk.led.due[r.cur] >= 0 {
      C.SliceIsDue(r.clk, r.cur);
    }
  }
}
