/** Bounded waiting in the ready queue: src/scheduler.c 10-14 and every insertProcQ. */
module Waiting {
  import opened Lists
  import opened Forest
  import opened Nucleus
  import opened Invariant
  import opened Runs
  import opened Verdicts
  import C = Clock

  ghost predicate At(q: seq<int>, k: int, p: int) { 0 <= k < |q| && q[k] == p }

  /** Removals never move a process back. */
  lemma {:induction false} MinusAt(q: seq<int>, vs: seq<int>, k: int, p: int) returns (j: int)
    requires At(q, k, p) && p !in vs
    ensures At(Minus(q, vs), j, p) && j <= k
  {
    if k == 0 {
      j := 0;
    } else {
      j := MinusAt(q[1..], vs, k - 1, p);
      if q[0] !in vs {
        j := j + 1;
      }
    }
  }

  /** Every handler body changes the ready queue by additions at the tail or by removals. */
  ghost predicate Carried(q: seq<int>, r: seq<int>) {
    || (exists more: seq<int> :: r == q + more)
    || (exists vs: seq<int> :: r == Minus(q, vs))
  }

  lemma CarriedBy(q: seq<int>, vs: seq<int>)
    ensures Carried(q, Minus(q, vs))
  {
  }

  lemma CarriedMore(q: seq<int>, r: seq<int>, more: seq<int>)
    requires r == q + more
    ensures Carried(q, r)
  {
  }

  lemma {:induction false} TickReady(s: Sys) returns (more: seq<int>)
    requires Sized(s) && Lines(s)
    ensures Tick(s).ready == s.ready + more
    decreases s.ticks
  {
    hide Lines, Release;
    if s.ticks <= 0 {
      more := [];
    } else {
      var s1, woken := DepositReady(s);
      var rest := TickReady(s1);
      Assoc(s.ready, woken, rest);
      more := woken + rest;
    }
  }

  lemma DepositReady(s: Sys) returns (r: Sys, woken: seq<int>)
    requires Sized(s) && Lines(s) && s.ticks > 0
    ensures Sized(r) && Lines(r) && r.ready == s.ready + woken && r.ticks == s.ticks - 1 && Tick(s) == Tick(r)
  {
    hide Lines, Release;
    var a, n := s.cfg.clock, s.ticks;
    ReleaseEffect(s, a, n);
    LinesAfterRelease(s, a, n);
    LinesSame(Release(s, a, n), n - 1);
    r := Release(s, a, n).(ticks := n - 1);
    woken := r.ready[|s.ready|..];
  }

  lemma ReleaseReady(s: Sys, a: int, w: int)
    requires Sized(s) && Lines(s)
    ensures Carried(s.ready, Release(s, a, w).ready)
  {
    hide Release, Lines, Carried;
    ReleaseEffect(s, a, w);
    CarriedMore(s.ready, Release(s, a, w).ready, Release(s, a, w).ready[|s.ready|..]);
  }

  lemma TerminateReady(s: Sys, id: int)
    requires Sized(s) && Kin(s.fam) && s.cur != NIL
    ensures Carried(s.ready, Terminate(s, id).ready)
  {
    hide Carried, ChildByPid, Clean, Kin;
    var v := if id == 0 then s.cur else ChildByPid(s.fam, s.pid, s.cur, id);
    CarriedMore(s.ready, s.ready, []);
    if Proc(s, v) {
      var vs := Post(s.fam, v);
      CarriedBy(s.ready, vs);
    }
  }

  lemma BodyReady(s: Sys, call: Call, t: nat)
    requires Inv(s) && s.cur != NIL && Live(s) && C.Later(s.clk, t)
    ensures Carried(s.ready, Body(s, call, t).ready)
  {
    hide C.Conserved, Parted, Housed, Linked, Seated, Softened, Carried, Release, Terminate, Lines;
    PartitionLines(s);
    CarriedMore(s.ready, s.ready, []);
    match call
    case CreateProcess =>
      if s.count < |s.loc| && s.free != [] {
        CreateFields(s);
        CarriedMore(s.ready, s.ready + [s.free[0]], [s.free[0]]);
      }
    case TerminateProcess(id) =>
      InvKin(s);
      TerminateReady(s, id);
    case SemOp(a, w) =>
      if w > 0 {
        ReleaseReady(s, a, w);
      }
    case _ =>
  }

  lemma WorkReady(s: Sys, e: Event)
    requires Inv(s) && Enabled(s, e)
    ensures Carried(s.ready, Work(s, e).ready)
  {
    hide C.Conserved, Parted, Housed, Linked, Seated, Softened, Carried, Body, Release, Tick, Terminate, Lines;
    PartitionLines(s);
    CarriedMore(s.ready, s.ready, []);
    match e
    case Syscall(call, at) => BodyReady(s, call, at.mid);
    case Trap(at) =>
      InvKin(s);
      TerminateReady(s, 0);
    case PassUp(at) =>
    case Forbidden(dies, at) =>
      ChargeInv(s, at.mid);
      InvKin(Exit(s, at.mid, true));
      TerminateReady(Exit(s, at.mid, true), 0);
    case Timer(at) =>
      var s0 := s.(clk := C.Restart(s.clk));
      RestartInv(s);
      TickInv(s0);
      var more := TickReady(s0);
      var due := if C.TickDue(s.clk, at.mid) then more else [];
      var s1 := if C.TickDue(s.clk, at.mid) then Tick(s0) else s;
      CarriedMore(s.ready, s1.ready, due);
      Assoc(s.ready, due, [s1.cur]);
      CarriedMore(s.ready, s1.ready + [s1.cur], due + [s1.cur]);
    case Device(dev, status, at) => ReleaseReady(s, dev, 1);
  }

  /** Event e ends with the dispatch of a process. */
  ghost predicate Dispatches(s: Sys, e: Event)
    requires Inv(s)
  {
    Enabled(s, e) &&
    (BeginSame(s, e.at.enter);
     var s3 := End(Work(Begin(s, e), e), e);
     Live(s3) && s3.cur == NIL && s3.ready != [])
  }

  /** A process that is ready before and after a step has not moved back, and has moved
      forward if the step ended with a dispatch. */
  lemma StepAt(s: Sys, e: Event, k: int, p: int) returns (j: int)
    requires Inv(s) && At(s.ready, k, p) && p in Step(s, e).ready
    ensures At(Step(s, e).ready, j, p)
    ensures j + (if Dispatches(s, e) then 1 else 0) <= k
  {
    hide C.Conserved, Housed, Linked, Seated, Softened, Work, Carried;
    j := k;
    if Enabled(s, e) {
      BeginSame(s, e.at.enter);
      var s1 := Begin(s, e);
      WorkReady(s1, e);
      var s2 := Work(s1, e);
      j := ElectAt(s1.ready, s2, e, k, p);
    }
  }

  lemma CarriedAt(q: seq<int>, r: seq<int>, k: int, p: int) returns (j: int)
    requires Carried(q, r) && At(q, k, p) && p in r
    ensures At(r, j, p) && j <= k
  {
    if vs: seq<int> :| r == Minus(q, vs) {
      j := MinusAt(q, vs, k, p);
    } else {
      var more :| r == q + more;
      j := k;
    }
  }

  lemma ElectAt(q: seq<int>, s: Sys, e: Event, k: int, p: int) returns (j: int)
    requires Inv(s) && C.Later(s.clk, e.at.leave) && e.at.leave <= e.at.sched
    requires Carried(q, s.ready) && At(q, k, p)
    requires var s3 := End(s, e); p in (if Live(s3) then Elect(s3, e) else s3).ready
    ensures var s3 := End(s, e);
      At((if Live(s3) then Elect(s3, e) else s3).ready, j, p)
      && j + (if Live(s3) && s3.cur == NIL && s3.ready != [] then 1 else 0) <= k
  {
    hide C.Conserved, Housed, Linked, Seated, Softened, C.Exit, C.Grant, Carried;
    var s3 := End(s, e);
    assert s3.ready == s.ready && NoDup(s.ready);
    assert p in s.ready;
    j := CarriedAt(q, s.ready, k, p);
    if Live(s3) && s3.cur == NIL && s3.ready != [] {
      assert Elect(s3, e).ready == s.ready[1..];
      Front(s.ready, j, p);
      j := j - 1;
    }
  }

  /** A process still queued after the head was taken was not the head. */
  lemma Front(q: seq<int>, j: int, p: int)
    requires NoDup(q) && At(q, j, p) && p in q[1..]
    ensures j > 0 && At(q[1..], j - 1, p)
  {
  }

  /** How many dispatches the run es makes. */
  ghost function Dispatched(s: Sys, es: seq<Event>): nat
    requires Inv(s)
    decreases |es|
  {
    if es == [] then 0
    else
      var before := es[..|es| - 1];
      Dispatched(s, before) + (if Dispatches(Exec(s, before), es[|es| - 1]) then 1 else 0)
  }

  /** p is in the ready queue after every event of the run. */
  ghost predicate KeptWaiting(s: Sys, es: seq<Event>, p: int)
    requires Inv(s)
    decreases |es|
  {
    p in Exec(s, es).ready && (es != [] ==> KeptWaiting(s, es[..|es| - 1], p))
  }

  // ----- how a process leaves the ready queue -----

  /** p, if it was ready, is ready or has died. */
  ghost predicate Lasts(s: Sys, r: Sys, p: int) {
    |r.loc| == |s.loc| && (Proc(s, p) && s.loc[p] == Ready ==> r.loc[p] == Ready || r.loc[p] == Free)
  }

  lemma TerminateLasts(s: Sys, id: int, p: int)
    requires Sized(s) && Kin(s.fam) && s.cur != NIL
    ensures Lasts(s, Terminate(s, id), p)
  {
    hide ChildByPid, Kin, TerminateProgeny;
    var v := if id != 0 then ChildByPid(s.fam, s.pid, s.cur, id) else s.cur;
    if Proc(s, v) {
      ProgenyLasts(s, v, p);
    }
  }

  lemma ProgenyLasts(s: Sys, v: int, p: int)
    requires Sized(s) && Kin(s.fam) && Proc(s, v)
    ensures Lasts(s, TerminateProgeny(s, v), p)
  {
    hide Clean, Kin, Post;
  }

  lemma ReleaseLasts(s: Sys, a: int, w: int, p: int)
    requires Sized(s) && Lines(s)
    ensures |Release(s, a, w).loc| == |s.loc|
    ensures Proc(s, p) && s.loc[p] == Ready ==> Release(s, a, w).loc[p] == Ready
  {
    hide Release, Lines, Fits;
    ReleaseEffect(s, a, w);
  }

  lemma AcquireLasts(s: Sys, a: int, r: int, t: nat, p: int)
    requires Sized(s) && s.cur != NIL && s.loc[s.cur] == Off
    ensures Lasts(s, Acquire(s, a, r, t), p)
  {
    hide C.Exit;
  }

  lemma BodyLasts(s: Sys, call: Call, t: nat, p: int)
    requires Inv(s) && s.cur != NIL && Live(s) && C.Later(s.clk, t)
    ensures Lasts(s, Body(s, call, t), p)
  {
    hide C.Conserved, Parted, Linked, Seated, Softened, Release, Acquire, Terminate, Lines, Kin;
    PartitionLines(s);
    CurOff(s);
    match call
    case CreateProcess =>
      if s.count < |s.loc| && s.free != [] {
        CreateFields(s);
      }
    case TerminateProcess(id) => TerminateLasts(s, id, p);
    case SemOp(a, w) =>
      if w > 0 {
        ReleaseLasts(s, a, w, p);
      } else if w < 0 {
        AcquireLasts(s, a, -w, t, p);
      }
    case WaitForClock => AcquireLasts(s, s.cfg.clock, 1, t, p);
    case IoDevOp(a) => AcquireLasts(s, a, 1, t, p);
    case Passive =>
  }

  lemma {:induction false} TickLasts(s: Sys, p: int)
    requires Sized(s) && Lines(s)
    ensures |Tick(s).loc| == |s.loc|
    ensures Proc(s, p) && s.loc[p] == Ready ==> Tick(s).loc[p] == Ready
    decreases s.ticks
  {
    hide Lines, Release;
    if s.ticks > 0 {
      var a, n := s.cfg.clock, s.ticks;
      ReleaseEffect(s, a, n);
      LinesAfterRelease(s, a, n);
      LinesSame(Release(s, a, n), n - 1);
      ReleaseLasts(s, a, n, p);
      TickLasts(Release(s, a, n).(ticks := n - 1), p);
    }
  }

  lemma WorkLasts(s: Sys, e: Event, p: int)
    requires Inv(s) && Enabled(s, e)
    ensures Lasts(s, Work(s, e), p)
  {
    hide C.Conserved, Parted, Linked, Seated, Softened, Body, Release, Tick, Terminate, Lines, Kin, C.Exit, C.Restart;
    PartitionLines(s);
    match e
    case Syscall(call, at) => BodyLasts(s, call, at.mid, p);
    case Trap(at) => TerminateLasts(s, 0, p);
    case PassUp(at) =>
    case Forbidden(dies, at) =>
      ChargeInv(s, at.mid);
      TerminateLasts(Exit(s, at.mid, true), 0, p);
    case Timer(at) =>
      RestartInv(s);
      TickInv(s.(clk := C.Restart(s.clk)));
      TickLasts(s.(clk := C.Restart(s.clk)), p);
    case Device(dev, status, at) => ReleaseLasts(s, dev, 1, p);
  }

  /** p is running or has died. */
  ghost predicate Gone(s: Sys, p: int) {
    s.cur == p || (Proc(s, p) && s.loc[p] == Free)
  }

  /** A process leaves the ready queue by dispatch or by death only. */
  lemma LeavesByDispatchOrDeath(s: Sys, e: Event, p: int)
    requires Inv(s) && p in s.ready && p !in Step(s, e).ready
    ensures Gone(Step(s, e), p)
  {
    hide C.Conserved, Housed, Linked, Seated, Softened, Work, Enter;
    if Enabled(s, e) {
      BeginSame(s, e.at.enter);
      var s1 := Begin(s, e);
      WorkLasts(s1, e, p);
      ElectLasts(Work(s1, e), e, p);
    }
  }

  lemma ElectLasts(s: Sys, e: Event, p: int)
    requires Inv(s) && C.Later(s.clk, e.at.leave) && e.at.leave <= e.at.sched
    requires Proc(s, p) && (s.loc[p] == Ready || s.loc[p] == Free)
    ensures var s3 := End(s, e); var r := if Live(s3) then Elect(s3, e) else s3; p in r.ready || Gone(r, p)
  {
    hide C.Conserved, Housed, Linked, Seated, Softened, C.Exit, C.Grant;
    if Live(s) {
      ElectKeeps(End(s, e), e, p);
    } else if s.loc[p] == Ready {
      assert p in s.ready;
    }
  }

  lemma ElectKeeps(s: Sys, e: Event, p: int)
    requires Inv(s) && C.Later(s.clk, e.at.sched) && Proc(s, p) && (s.loc[p] == Ready || s.loc[p] == Free)
    ensures p in Elect(s, e).ready || Gone(Elect(s, e), p)
  {
    hide C.Conserved, Housed, Linked, Seated, Softened, C.Exit, C.Grant;
    if s.loc[p] == Ready {
      assert p in s.ready;
    } else if s.ready != [] {
      assert s.ready[0] in s.ready;
    }
  }

  /** A process that has not left the ready queue has been passed over by fewer dispatches than
      there were processes before it. */
  lemma {:induction false} StillWaiting(s: Sys, es: seq<Event>, k: int, p: int) returns (j: int)
    requires Inv(s) && At(s.ready, k, p) && KeptWaiting(s, es, p)
    ensures At(Exec(s, es).ready, j, p) && j + Dispatched(s, es) <= k
    decreases |es|
  {
    hide Inv, Step, Dispatches;
    if es == [] {
      j := k;
    } else {
      var before := es[..|es| - 1];
      j := StillWaiting(s, before, k, p);
      j := StepAt(Exec(s, before), es[|es| - 1], j, p);
    }
  }

  /** The first event of a run after which p is not ready any more. */
  lemma {:induction false} FirstAbsence(s: Sys, es: seq<Event>, p: int) returns (i: nat)
    requires Inv(s) && p in s.ready && !KeptWaiting(s, es, p)
    ensures i < |es| && KeptWaiting(s, es[..i], p) && p !in Exec(s, es[..i + 1]).ready
    decreases |es|
  {
    hide Inv, Step;
    if es != [] {
      var before := es[..|es| - 1];
      if KeptWaiting(s, before, p) {
        i := |es| - 1;
        assert es[..i + 1] == es;
      } else {
        i := FirstAbsence(s, before, p);
        assert before[..i] == es[..i] && before[..i + 1] == es[..i + 1];
      }
    }
  }

  /** A process at position k of the ready queue is dispatched or dies within the next k + 1
      dispatches: in any run that makes as many, there is an event that takes it from the ready
      queue to the processor or to its end, and by then no more than k + 1 have been made. */
  lemma BoundedWaiting(s: Sys, es: seq<Event>, k: int, p: int) returns (i: nat)
    requires Inv(s) && At(s.ready, k, p) && Dispatched(s, es) > k
    ensures i < |es| && KeptWaiting(s, es[..i], p)
    ensures Gone(Exec(s, es[..i + 1]), p) && Dispatched(s, es[..i + 1]) <= k + 1
  {
    hide Inv, Step, Dispatches;
    if KeptWaiting(s, es, p) {
      var j := StillWaiting(s, es, k, p);
      assert false;
    }
    i := FirstAbsence(s, es, p);
    var j := StillWaiting(s, es[..i], k, p);
    assert es[..i + 1][..i] == es[..i] && es[..i + 1][i] == es[i];
    KeptAtEnd(s, es[..i], p);
    LeavesByDispatchOrDeath(Exec(s, es[..i]), es[i], p);
  }

  lemma KeptAtEnd(s: Sys, es: seq<Event>, p: int)
    requires Inv(s) && KeptWaiting(s, es, p)
    ensures p in Exec(s, es).ready
  {
  }
}
