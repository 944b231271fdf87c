/** Who pays for the time: lib/aux.c 30-33 and 47-51, over handlers and over runs. */
module Accounts {
  import opened Lists
  import opened Forest
  import opened Nucleus
  import opened Invariant
  import opened Runs
  import opened Verdicts
  import opened Slices
  import C = Clock
  import Deadline
  import Effects

  // ----- inside a handler -----

  /** Of those who live in r, the running process of s has been charged x in total time, others
      nothing, nobody own time; whoever was free in s has no time yet. */
  ghost predicate Charged(s: Sys, r: Sys, x: int) {
    Sized(s) && Sized(r) && |r.loc| == |s.loc| &&
    forall p :: Proc(s, p) && r.loc[p] != Free ==>
      if s.loc[p] == Free then r.clk.led.own[p] == 0 && r.clk.led.total[p] == 0
      else
        && r.clk.led.own[p] == s.clk.led.own[p]
        && r.clk.led.total[p] == s.clk.led.total[p] + if p == s.cur then x else 0
  }

  /** Who is free in s is free in r. */
  ghost predicate NoneRaised(s: Sys, r: Sys) {
    |r.loc| == |s.loc| && forall p :: Proc(s, p) && s.loc[p] == Free ==> r.loc[p] == Free
  }

  /** A change that keeps the books of time and raises nobody from the dead charges nobody. */
  lemma ChargedNothing(s: Sys, r: Sys)
    requires Sized(s) && Sized(r) && r.clk.led == s.clk.led && NoneRaised(s, r)
    ensures Charged(s, r, 0)
  {
  }

  /** An exit with the flag set charges the running process, one without charges nobody. */
  lemma ExitCharged(s: Sys, t: nat, flag: bool)
    requires Inv(s) && C.Later(s.clk, t)
    ensures Charged(s, Exit(s, t, flag), if flag then t - s.clk.led.now else 0)
  {
    hide C.Conserved, Parted, Housed, Linked, Seated, Softened, C.Exit;
    ExitSame(s, t, flag);
    C.ExitCharges(s.clk, t, flag, s.cur);
  }

  /** One change after another. */
  lemma ChargedBoth(s: Sys, r: Sys, u: Sys, x: int, y: int)
    requires Charged(s, r, x) && Charged(r, u, y) && NoneRaised(r, u) && (y == 0 || r.cur == s.cur)
    requires Proc(s, s.cur) ==> s.loc[s.cur] != Free
    ensures Charged(s, u, x + y)
  {
  }

  lemma AcquireCharged(s: Sys, a: int, n: int, t: nat)
    requires Inv(s) && s.cur != NIL && C.Later(s.clk, t)
    ensures var r := Acquire(s, a, n, t);
      Charged(s, r, if r.cur == NIL then t - s.clk.led.now else 0) && (r.cur != NIL ==> r.clk == s.clk)
  {
    hide C.Conserved, Parted, Housed, Linked, Seated, Softened, C.Exit;
    C.ExitCharges(s.clk, t, true, s.cur);
    CurOff(s);
  }

  lemma ReleaseCharged(s: Sys, a: int, w: int)
    requires Inv(s) && Lines(s)
    ensures Charged(s, Release(s, a, w), 0) && NoneRaised(s, Release(s, a, w)) && Release(s, a, w).clk == s.clk
  {
    hide C.Conserved, Housed, Linked, Seated, Softened, Release, Fits;
    ReleaseEffect(s, a, w);
    var vs := Queue(s, a)[..Fits(Queue(s, a), s.req, w + Val(s, a))];
    forall p | Proc(s, p) && s.loc[p] == Free
      ensures p !in vs
    {
      assert p in vs ==> p in Queue(s, a);
    }
    ChargedNothing(s, Release(s, a, w));
  }

  lemma CreateCharged(s: Sys)
    requires Inv(s) && s.cur != NIL && (s.free != [] ==> Proc(s, s.free[0]))
    ensures Charged(s, Create(s), 0) && Create(s).clk.led.now == s.clk.led.now && Create(s).cur == s.cur
  {
    hide C.Conserved, Parted, Housed, Linked, Seated, Softened, Create, Born;
    CreateInv(s);
    CountFree(s);
    if s.count < |s.loc| {
      FreeIsFree(s);
      CreateFields(s);
    } else {
      CreateFails(s);
      ChargedNothing(s, Create(s));
    }
  }

  lemma FreeIsFree(s: Sys)
    requires Partition(s) && s.free != []
    ensures Proc(s, s.free[0]) && s.loc[s.free[0]] == Free
  {
    TaggedHead(s.free, s.loc, Free);
  }

  lemma TerminateCharged(s: Sys, id: int)
    requires Inv(s) && s.cur != NIL && Live(s)
    ensures Kin(s.fam) && Charged(s, Terminate(s, id), 0) && NoneRaised(s, Terminate(s, id))
    ensures Terminate(s, id).clk == s.clk
  {
    hide C.Conserved, Parted, Linked, Seated, Softened, ChildByPid, Clean, Kin, Post, Reaped;
    TerminateTime(s, id);
    var v := if id != 0 then ChildByPid(s.fam, s.pid, s.cur, id) else s.cur;
    if Proc(s, v) {
      ReapedLocs(s, Post(s.fam, v));
    }
    ChargedNothing(s, Terminate(s, id));
  }

  lemma ReapedLocs(s: Sys, vs: seq<int>)
    requires Sized(s)
    ensures NoneRaised(s, Reaped(s, vs))
  {
  }

  lemma {:induction false} TickRaises(s: Sys)
    requires Inv(s) && Lines(s)
    ensures NoneRaised(s, Tick(s))
    decreases s.ticks
  {
    hide C.Conserved, Parted, Housed, Linked, Seated, Softened, Release, Lines, Charged;
    if s.ticks > 0 {
      var a, n := s.cfg.clock, s.ticks;
      ReleaseCharged(s, a, n);
      ReleaseInv(s, a, n);
      ReleaseEffect(s, a, n);
      LinesAfterRelease(s, a, n);
      LinesSame(Release(s, a, n), n - 1);
      TickRaises(Release(s, a, n).(ticks := n - 1));
    }
  }

  lemma HandleTimerCharged(s: Sys, t: nat, t2: nat)
    requires Inv(s) && Lines(s) && C.Later(s.clk, t) && t <= t2
    ensures var r := HandleTimer(s, t, t2);
      Charged(s, r, if s.cur != NIL && r.cur == NIL then t2 - s.clk.led.now else 0)
  {
    hide C.Conserved, Parted, Housed, Linked, Seated, Softened, Tick, Lines, Charged, C.Exit, NoneRaised;
    var s0 := s.(clk := C.Restart(s.clk));
    RestartInv(s);
    TickInv(s0);
    TickRaises(s0);
    var w := if C.TickDue(s.clk, t) then Tick(s0) else s;
    TimerBooks(s, w);
    if s.cur != NIL && w.clk.slice[w.cur] > C.SLICE {
      PreemptCharged(w, t2);
      Effects.Sizes(s);
      ChargedBoth(s, w, Preempt(w, t2), 0, t2 - s.clk.led.now);
    } else {
      ModeCharged(s, w, 0);
    }
  }

  /** The mode does not matter. */
  lemma ModeCharged(s: Sys, w: Sys, x: int)
    requires Charged(s, w, x)
    ensures forall m: Mode :: Charged(s, w.(mode := m), x)
  {
  }

  lemma TimerBooks(s: Sys, w: Sys)
    requires Inv(s) && Inv(w)
    requires w == s || (NoneRaised(s.(clk := C.Restart(s.clk)), w) && w.clk == C.Restart(s.clk))
    ensures Charged(s, w, 0) && w.clk.led.now == s.clk.led.now
  {
    hide C.Conserved, Parted, Housed, Linked, Seated, Softened;
  }

  lemma PreemptCharged(s: Sys, t: nat)
    requires Inv(s) && s.cur != NIL && C.Later(s.clk, t)
    ensures Charged(s, Preempt(s, t), t - s.clk.led.now) && NoneRaised(s, Preempt(s, t))
  {
    hide C.Conserved, Parted, Housed, Linked, Seated, Softened, C.Exit;
    C.ExitCharges(s.clk, t, true, s.cur);
    CurOff(s);
  }

  lemma HandleDeviceCharged(s: Sys, a: int, status: int)
    requires Inv(s) && Lines(s)
    ensures Charged(s, HandleDevice(s, a, status), 0)
  {
    hide C.Conserved, Parted, Housed, Linked, Seated, Softened, Release, Lines, Charged;
    ReleaseCharged(s, a, 1);
    ReleaseInv(s, a, 1);
    HandleDeviceInv(s, a, status);
    DeviceLocs(s, a, status);
    ChargedNothing(s, HandleDevice(s, a, status));
  }

  lemma DeviceLocs(s: Sys, a: int, status: int)
    requires Sized(s) && Lines(s) && NoneRaised(s, Release(s, a, 1))
    ensures NoneRaised(s, HandleDevice(s, a, status)) && Sized(HandleDevice(s, a, status))
  {
    hide Release, Lines;
  }

  // ----- what the running process pays in one step -----

  /** For its own code, up to the entry of the handler. */
  function Used(s: Sys, e: Event): int { e.at.enter - s.clk.led.now }

  /** For the work of the handler: the part of a system call before the caller is put to sleep, or
      all of it; a forbidden system call up to the program trap; a timer interrupt that takes the
      processor away. Other traps and interrupts are at nobody's expense, and so is the end of
      the nucleus. */
  ghost function Service(s: Sys, e: Event): int
    requires Inv(s) && Enabled(s, e)
  {
    var w := Worked(s, e);
    match e
    case Syscall(_, at) => if !Live(w) then 0 else if w.cur == NIL then at.mid - at.enter else at.leave - at.enter
    case Forbidden(_, at) => at.mid - at.enter
    case Timer(at) => if w.cur == NIL then at.mid2 - at.enter else 0
    case _ => 0
  }

  /** The part of that before the last reading. */
  ghost function Within(s: Sys, e: Event, w: Sys): int {
    match e
    case Syscall(_, at) => if Live(w) && w.cur == NIL then at.mid - s.clk.led.now else 0
    case Forbidden(_, at) => at.mid - s.clk.led.now
    case Timer(at) => if w.cur == NIL then at.mid2 - s.clk.led.now else 0
    case _ => 0
  }

  lemma BodyCharged(s: Sys, call: Call, t: nat)
    requires Inv(s) && s.cur != NIL && Live(s) && C.Later(s.clk, t)
    ensures var r := Body(s, call, t);
      && Charged(s, r, if Live(r) && r.cur == NIL then t - s.clk.led.now else 0)
      && (r.cur != NIL ==> r.clk.led.now == s.clk.led.now)
  {
    hide C.Conserved, Parted, Housed, Linked, Seated, Softened, Acquire, Release, Create, Terminate, Lines;
    Effects.Sizes(s);
    Effects.FirstFree(s);
    match call
    case CreateProcess => CreateCharged(s);
    case TerminateProcess(id) =>
      TerminateCharged(s, id);
      SuicideCharged(s, id, t);
    case SemOp(a, w) =>
      if w > 0 {
        ReleaseCharged(s, a, w);
        ReleaseEffect(s, a, w);
      } else if w < 0 {
        AcquireCharged(s, a, -w, t);
        StopsAwake(s, a, -w, t);
      } else {
        ChargedNothing(s, Semop(s, a, w, t));
      }
    case WaitForClock =>
      AcquireCharged(s, s.cfg.clock, 1, t);
      StopsAwake(s, s.cfg.clock, 1, t);
    case IoDevOp(a) =>
      AcquireCharged(s, a, 1, t);
      StopsAwake(s, a, 1, t);
    case Passive => ChargedNothing(s, s);
  }

  /** A P that stops the nucleus leaves the caller running. */
  lemma StopsAwake(s: Sys, a: int, n: int, t: nat)
    requires Inv(s) && s.cur != NIL && Live(s)
    ensures Live(Acquire(s, a, n, t)) || Acquire(s, a, n, t).cur != NIL
  {
    hide C.Exit;
  }

  /** Who has terminated itself is not there to be charged. */
  lemma SuicideCharged(s: Sys, id: int, t: nat)
    requires Inv(s) && s.cur != NIL && Live(s) && Kin(s.fam) && Charged(s, Terminate(s, id), 0)
    ensures var r := Terminate(s, id);
      Charged(s, r, if Live(r) && r.cur == NIL then t - s.clk.led.now else 0)
  {
    hide Inv, ChildByPid, Kin, Clean, Post, Reaped, Charged;
    Effects.Sizes(s);
    if id == 0 && Live(Terminate(s, id)) {
      PostHasRoot(s.fam, s.cur);
      ReapedFrees(s, Post(s.fam, s.cur), s.cur);
      DeadCharged(s, Terminate(s, id), 0, t - s.clk.led.now);
    } else {
      VictimSpares(s, id);
    }
  }

  lemma ReapedFrees(s: Sys, vs: seq<int>, v: int)
    requires Sized(s) && Proc(s, v) && v in vs
    ensures Reaped(s, vs).loc[v] == Free
  {
  }

  lemma DeadCharged(s: Sys, r: Sys, x: int, y: int)
    requires Charged(s, r, x) && Proc(s, s.cur) && r.loc[s.cur] == Free
    ensures Charged(s, r, y)
  {
  }

  lemma VictimSpares(s: Sys, id: int)
    requires Sized(s) && s.cur != NIL && Live(s) && Kin(s.fam) && (id != 0 || !Live(Terminate(s, id)))
    ensures Live(Terminate(s, id)) ==> Terminate(s, id).cur != NIL
  {
    hide ChildByPid, Kin, Clean, Post, Reaped;
    var v := if id != 0 then ChildByPid(s.fam, s.pid, s.cur, id) else s.cur;
    if Proc(s, v) {
      ReapedSame(s, Post(s.fam, v));
    }
  }

  lemma PostHasRoot(f: Family, p: int)
    requires Kin(f) && Person(f, p)
    ensures p in Post(f, p)
  {
  }

  lemma WorkCharged(s: Sys, e: Event)
    requires Inv(s) && Enabled(s, e) && s.clk.led.now == e.at.enter
    ensures var w := Work(s, e);
      && Charged(s, w, Within(s, e, w))
      && (e.Syscall? && Live(w) && w.cur != NIL ==> w.clk.led.now == e.at.enter)
  {
    hide C.Conserved, Parted, Housed, Linked, Seated, Softened, Charged, Body, Terminate, HandleTimer, HandleDevice,
      Exit, Lines, NoneRaised;
    Effects.Sizes(s);
    match e
    case Syscall(call, at) => BodyCharged(s, call, at.mid);
    case Trap(at) => TerminateCharged(s, 0);
    case PassUp(at) => NothingCharged(s);
    case Forbidden(dies, at) =>
      ExitCharged(s, at.mid, true);
      ChargeInv(s, at.mid);
      if dies {
        TerminateCharged(Exit(s, at.mid, true), 0);
        ChargedBoth(s, Exit(s, at.mid, true), Work(s, e), at.mid - s.clk.led.now, 0);
      }
    case Timer(at) =>
      HandleTimerCharged(s, at.mid, at.mid2);
      if s.cur == NIL {
        NobodyCharged(s, HandleTimer(s, at.mid, at.mid2), 0, Within(s, e, Work(s, e)));
      }
    case Device(dev, status, at) => HandleDeviceCharged(s, dev, status);
  }

  lemma NothingCharged(s: Sys)
    requires Sized(s)
    ensures Charged(s, s, 0)
  {
  }

  lemma NobodyCharged(s: Sys, r: Sys, x: int, y: int)
    requires s.cur == NIL && Charged(s, r, x)
    ensures Charged(s, r, y)
  {
  }

  // ----- steps -----

  /** Who lives after the step has paid for what its code has used, if it was running, and for the
      service of the nucleus; who was created by it has paid nothing. */
  ghost predicate Paid(s: Sys, r: Sys, used: int, service: int) {
    Sized(s) && Sized(r) && |r.loc| == |s.loc| &&
    forall p :: Proc(s, p) && r.loc[p] != Free ==>
      if s.loc[p] == Free then r.clk.led.own[p] == 0 && r.clk.led.total[p] == 0
      else
        && r.clk.led.own[p] == s.clk.led.own[p] + (if p == s.cur then used else 0)
        && r.clk.led.total[p] == s.clk.led.total[p] + if p == s.cur then used + service else 0
  }

  lemma BeginPaid(s: Sys, e: Event)
    requires Inv(s) && Enabled(s, e)
    ensures Paid(s, Begin(s, e), Used(s, e), 0) && Begin(s, e) == s.(clk := Begin(s, e).clk)
    ensures Enabled(Begin(s, e), e) && Begin(s, e).clk.led.now == e.at.enter
  {
    hide C.Conserved, Parted, Housed, Linked, Seated, Softened, C.Enter;
    C.EnterCharges(s.clk, e.at.enter, s.cur);
    BeginSame(s, e.at.enter);
  }

  lemma PaidBoth(s: Sys, b: Sys, r: Sys, used: int, x: int)
    requires Paid(s, b, used, 0) && b.loc == s.loc && b.cur == s.cur && Charged(b, r, x)
    ensures Paid(s, r, used, x)
  {
  }

  lemma EndCharged(s: Sys, e: Event)
    requires Inv(s) && C.Later(s.clk, e.at.leave) && Live(s)
    ensures Charged(s, End(s, e), if e.Syscall? then e.at.leave - s.clk.led.now else 0)
    ensures End(s, e) == s.(clk := End(s, e).clk)
  {
    hide Inv, Exit;
    ExitCharged(s, e.at.leave, e.Syscall?);
    Effects.EndOnlyTime(s, e);
  }

  /** The choice of who runs next charges nobody. */
  lemma ElectCharged(s: Sys, e: Event)
    requires Inv(s) && C.Later(s.clk, e.at.sched) && Live(s)
    ensures Charged(s, Elect(s, e), 0) && NoneRaised(s, Elect(s, e))
  {
    hide C.Conserved, Parted, Housed, Linked, Seated, Softened, C.Exit, Dispatch;
    if s.cur == NIL {
      PartitionLines(s);
      if s.ready != [] {
        DispatchCharged(s, e.at.sched);
      } else {
        C.ExitCharges(s.clk, e.at.sched, false, NIL);
      }
    }
  }

  lemma DispatchCharged(s: Sys, t: nat)
    requires Inv(s) && s.cur == NIL && s.ready != [] && C.Later(s.clk, t)
    ensures Proc(s, s.ready[0]) && Charged(s, Dispatch(s, t), 0) && NoneRaised(s, Dispatch(s, t))
  {
    hide C.Conserved, Parted, Housed, Linked, Seated, Softened, C.Exit;
    ReadyIsReady(s);
    C.GrantConserves(s.clk, s.ready[0]);
    C.ExitCharges(C.Grant(s.clk, s.ready[0]), t, false, s.ready[0]);
  }

  lemma ReadyIsReady(s: Sys)
    requires Partition(s) && s.ready != []
    ensures Proc(s, s.ready[0]) && s.loc[s.ready[0]] == Ready
  {
    TaggedHead(s.ready, s.loc, Ready);
  }

  lemma LeaveCharged(b: Sys, w: Sys, e: Event, x: int)
    requires Inv(b) && Inv(w) && C.Later(w.clk, e.at.leave) && e.at.leave <= e.at.sched && Live(w)
    requires Charged(b, w, x) && (w.cur == b.cur || w.cur == NIL)
    ensures var y := if e.Syscall? && w.cur != NIL then e.at.leave - w.clk.led.now else 0;
      Charged(b, Elect(End(w, e), e), x + y)
  {
    hide Inv, Charged, Elect, End, NoneRaised;
    var y := if e.Syscall? && w.cur != NIL then e.at.leave - w.clk.led.now else 0;
    EndCharged(w, e);
    if w.cur == NIL {
      NobodyCharged(w, End(w, e), if e.Syscall? then e.at.leave - w.clk.led.now else 0, 0);
    }
    SameLocs(w, End(w, e));
    Effects.Sizes(b);
    ChargedBoth(b, w, End(w, e), x, y);
    ElectCharged(End(w, e), e);
    ChargedBoth(b, End(w, e), Elect(End(w, e), e), x + y, 0);
  }

  lemma SameLocs(s: Sys, r: Sys)
    requires r.loc == s.loc
    ensures NoneRaised(s, r)
  {
  }

  lemma StepPays(s: Sys, e: Event)
    requires Inv(s) && Enabled(s, e)
    ensures Paid(s, Step(s, e), Used(s, e), Service(s, e))
  {
    hide Inv, Charged, Work, Begin, End, Elect, Paid;
    BeginPaid(s, e);
    var b, w := Begin(s, e), Worked(s, e);
    WorkCharged(b, e);
    Effects.WorkCur(b, e);
    if Live(w) {
      LeaveCharged(b, w, e, Within(b, e, w));
      Effects.EndOnlyTime(w, e);
    } else {
      Deadline.EndStopped(w, e);
    }
    PaidBoth(s, b, Step(s, e), Used(s, e), Service(s, e));
  }

  /** The work of a handler does not touch the slice of a process that goes on running. */
  lemma WorkSlice(s: Sys, e: Event)
    requires Inv(s) && Enabled(s, e)
    ensures var w := Work(s, e);
      w.cur != NIL ==> C.Slot(s.clk, w.cur) && C.Slot(w.clk, w.cur) && w.clk.led.due[w.cur] == s.clk.led.due[w.cur]
  {
    hide C.Conserved, Parted, Housed, Linked, Seated, Softened, Body, Terminate, Tick, Release, Lines, C.Exit;
    Effects.Sizes(s);
    Effects.WorkCur(s, e);
    match e
    case Syscall(call, at) => BodySlice(s, call, at.mid);
    case Trap(at) => TerminateCharged(s, 0);
    case PassUp(at) =>
    case Forbidden(dies, at) =>
      ChargeInv(s, at.mid);
      C.ExitCharges(s.clk, at.mid, true, s.cur);
      if dies {
        TerminateCharged(Exit(s, at.mid, true), 0);
      }
    case Timer(at) =>
      RestartInv(s);
      TickInv(s.(clk := C.Restart(s.clk)));
    case Device(dev, status, at) => ReleaseCharged(s, dev, 1);
  }

  lemma BodySlice(s: Sys, call: Call, t: nat)
    requires Inv(s) && s.cur != NIL && Live(s) && C.Later(s.clk, t)
    ensures var r := Body(s, call, t);
      r.cur == s.cur ==> C.Slot(r.clk, s.cur) && C.Slot(s.clk, s.cur) && r.clk.led.due[s.cur] == s.clk.led.due[s.cur]
  {
    hide C.Conserved, Parted, Housed, Linked, Seated, Softened, Acquire, Release, Create, Terminate, Lines;
    Effects.Sizes(s);
    Effects.FirstFree(s);
    match call
    case CreateProcess => CreateSlice(s);
    case TerminateProcess(id) => TerminateCharged(s, id);
    case SemOp(a, w) =>
      if w > 0 {
        ReleaseCharged(s, a, w);
      } else if w < 0 {
        AcquireCharged(s, a, -w, t);
      }
    case WaitForClock => AcquireCharged(s, s.cfg.clock, 1, t);
    case IoDevOp(a) => AcquireCharged(s, a, 1, t);
    case Passive =>
  }

  lemma CreateSlice(s: Sys)
    requires Inv(s) && s.cur != NIL && (s.free != [] ==> Proc(s, s.free[0]))
    ensures C.Slot(Create(s).clk, s.cur) && C.Slot(s.clk, s.cur)
    ensures Create(s).clk.led.due[s.cur] == s.clk.led.due[s.cur]
  {
    hide C.Conserved, Parted, Housed, Linked, Seated, Softened, Create, Born;
    CountFree(s);
    Effects.Sizes(s);
    if s.count < |s.loc| {
      FreeIsFree(s);
      CreateFields(s);
    } else {
      CreateFails(s);
    }
  }

  /** The slice of the process that runs after the step: a full one if it has been dispatched by it,
      otherwise what its code has left of the old one. */
  lemma StepSlice(s: Sys, e: Event)
    requires Inv(s) && Enabled(s, e)
    ensures var r := Step(s, e);
      Live(r) && r.cur != NIL ==>
        C.Slot(r.clk, r.cur) && C.Slot(s.clk, r.cur)
        && (Worked(s, e).cur == NIL ==> r.clk.led.due[r.cur] == 5000)
        && (Worked(s, e).cur != NIL ==> r.cur == s.cur && r.clk.led.due[r.cur] == s.clk.led.due[r.cur] - Used(s, e))
  {
    hide Inv, Work, Begin, Worked, Step, End, Elect;
    Effects.StepLeaves(s, e);
    SlotOf(s, Step(s, e), e);
    if Worked(s, e).cur != NIL && Live(Worked(s, e)) {
      StepKeepsSlice(s, e);
    }
  }

  lemma SlotOf(s: Sys, r: Sys, e: Event)
    requires Inv(s) && Enabled(s, e) && r == Step(s, e)
    ensures r.cur != NIL ==> C.Slot(r.clk, r.cur) && C.Slot(s.clk, r.cur)
  {
    hide Inv, Step, Paid, Service;
    StepPays(s, e);
    PaidSlots(s, r, Used(s, e), Service(s, e));
  }

  lemma PaidSlots(s: Sys, r: Sys, used: int, service: int)
    requires Paid(s, r, used, service)
    ensures r.cur != NIL ==> C.Slot(r.clk, r.cur) && C.Slot(s.clk, r.cur)
  {
  }

  lemma StepKeepsSlice(s: Sys, e: Event)
    requires Inv(s) && Enabled(s, e) && Live(Worked(s, e)) && Worked(s, e).cur != NIL
    ensures var r := Step(s, e);
      r.cur == s.cur && C.Slot(r.clk, s.cur) && C.Slot(s.clk, s.cur)
      && r.clk.led.due[s.cur] == s.clk.led.due[s.cur] - Used(s, e)
  {
    hide C.Conserved, Parted, Housed, Linked, Seated, Softened, Work, C.Exit, C.Enter, Scheduler;
    C.EnterCharges(s.clk, e.at.enter, s.cur);
    BeginPaid(s, e);
    var b, w := Begin(s, e), Worked(s, e);
    WorkSlice(b, e);
    Effects.WorkCur(b, e);
    C.ExitCharges(w.clk, e.at.leave, e.Syscall?, w.cur);
  }

  // ----- runs -----

  /** What p has used in its own code since it was created, or since the start of the run. */
  ghost function OwnTime(s: Sys, es: seq<Event>, p: int): int
    requires Inv(s) && Proc(s, p)
    decreases |es|
  {
    OwnLength(s, p);
    if es == [] then s.clk.led.own[p]
    else
      var before, e := Exec(s, es[..|es| - 1]), es[|es| - 1];
      var more := if Enabled(before, e) && p == before.cur then Used(before, e) else 0;
      if Alive(before, p) then OwnTime(s, es[..|es| - 1], p) + more else 0
  }

  /** The same with what the nucleus has done for it. */
  ghost function AllTime(s: Sys, es: seq<Event>, p: int): int
    requires Inv(s) && Proc(s, p)
    decreases |es|
  {
    OwnLength(s, p);
    if es == [] then s.clk.led.total[p]
    else
      var before, e := Exec(s, es[..|es| - 1]), es[|es| - 1];
      var more := if Enabled(before, e) && p == before.cur then Used(before, e) + Service(before, e) else 0;
      if Alive(before, p) then AllTime(s, es[..|es| - 1], p) + more else 0
  }

  lemma OwnLength(s: Sys, p: int)
    requires Inv(s) && Proc(s, p)
    ensures p < |s.clk.led.own| && p < |s.clk.led.total|
  {
  }

  /** Over every run the own and the total time of each living process are these sums. */
  lemma {:induction false} ExecTimes(s: Sys, es: seq<Event>, p: int)
    requires Inv(s) && Proc(s, p)
    ensures Alive(Exec(s, es), p) ==>
      C.Slot(Exec(s, es).clk, p)
      && Exec(s, es).clk.led.own[p] == OwnTime(s, es, p) && Exec(s, es).clk.led.total[p] == AllTime(s, es, p)
    decreases |es|
  {
    hide C.Conserved, Parted, Housed, Linked, Seated, Softened, Step, Enabled, Paid, Service;
    if es != [] {
      var before, e := Exec(s, es[..|es| - 1]), es[|es| - 1];
      ExecTimes(s, es[..|es| - 1], p);
      if Enabled(before, e) {
        StepPays(before, e);
        PaidAt(before, Step(before, e), Used(before, e), Service(before, e), p);
      } else {
        Effects.StepNot(before, e);
      }
    }
  }

  lemma PaidAt(s: Sys, r: Sys, used: int, service: int, p: int)
    requires Paid(s, r, used, service)
    ensures Proc(r, p) <==> Proc(s, p)
    ensures Alive(r, p) ==>
      C.Slot(r.clk, p) && C.Slot(s.clk, p)
      && r.clk.led.own[p] == (if Alive(s, p) then s.clk.led.own[p] + (if p == s.cur then used else 0) else 0)
      && r.clk.led.total[p] ==
           if Alive(s, p) then s.clk.led.total[p] + (if p == s.cur then used + service else 0) else 0
  {
  }

  /** So p_user_time and p_global_time, which SYS8 reports, are these sums modulo 2^32. */
  lemma ColumnsTell(s: Sys, es: seq<Event>, p: int)
    requires Inv(s) && Proc(s, p) && Alive(Exec(s, es), p)
    ensures var c := Exec(s, es).clk;
      && p < |c.user| && c.user[p] == OwnTime(s, es, p) % C.WORD
      && p < |c.glob| && c.glob[p] == AllTime(s, es, p) % C.WORD
  {
    hide Parted, Housed, Linked, Seated, Softened, Exec, OwnTime, AllTime;
    ExecTimes(s, es, p);
  }
}
