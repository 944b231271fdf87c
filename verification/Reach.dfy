/** What holds in every state that a run of the nucleus reaches. */
module Reach {
  import opened Lists
  import opened Forest
  import opened Nucleus
  import opened Shelves
  import opened Invariant
  import opened Runs
  import opened Fifo
  import opened Semaphores
  import opened Pids
  import opened Verdicts
  import opened Casualties
  import C = Clock
  import Accounts
  import Deadline
  import Effects
  import Leaks

  /** The books of every semaphore and of the process identifiers are in order; the soft-block
      count is as the history says; no semaphore is below zero unless one started there; and those
      of the nucleus keep their bounds if user processes leave them alone. */
  ghost predicate Good(s: Sys, v0: map<int, int>, polite: bool) {
    && Books(s, v0)
    && PidBook(s)
    && (Solvent(v0) ==> Solvent(s.sem))
    && Accounted(s)
    && (polite ==> Apart(s.cfg) && Units(s))
  }

  /** e does not let a user process operate on a nucleus semaphore. */
  predicate Polite(cfg: Config, e: Event) {
    e.Syscall? && e.call.SemOp? ==> !IsDev(cfg, e.call.sem)
  }

  /** Good reads neither the clock nor the ready queue nor who is running. */
  lemma GoodSame(s: Sys, r: Sys, v0: map<int, int>, polite: bool)
    requires Good(s, v0, polite)
    requires r.cfg == s.cfg && r.loc == s.loc && r.wait == s.wait && r.req == s.req && r.sem == s.sem && r.log == s.log
    requires r.fam == s.fam && r.pid == s.pid && r.issued == s.issued && r.ticks == s.ticks && r.soft == s.soft
    ensures Good(r, v0, polite)
  {
    hide Booked, Holders, Issued, Units, DevSet;
    forall a
      ensures Booked(r.log, a, Queue(r, a), r.req, Val(r, a), Base(v0, a))
    {
      BooksAt(s, a, v0);
    }
    UnitsSame(s, r);
  }

  lemma UnitsSame(s: Sys, r: Sys)
    requires r.cfg == s.cfg && r.loc == s.loc && r.wait == s.wait && r.req == s.req && r.sem == s.sem
        && r.ticks == s.ticks
    ensures Units(s) ==> Units(r)
  {
  }

  /** Nor does it mind a process that was not blocked moving among the unblocked. */
  lemma GoodMoved(s: Sys, r: Sys, v0: map<int, int>, polite: bool, p: int, x: Loc)
    requires Good(s, v0, polite) && 0 <= p < |s.loc| && s.loc[p] != Free && !s.loc[p].Waiting? && !x.Waiting?
    requires r.cfg == s.cfg && r.loc == s.loc[p := x] && r.wait == s.wait && r.req == s.req && r.sem == s.sem
        && r.log == s.log
    requires r.fam == s.fam && r.pid == s.pid && r.issued == s.issued && r.ticks == s.ticks && r.soft == s.soft
    ensures Good(r, v0, polite)
  {
    hide Booked, Holders, Issued, AllStocks, Accounted;
    MovedAccounted(s, r, p, x);
    forall a
      ensures Booked(r.log, a, Queue(r, a), r.req, Val(r, a), Base(v0, a))
    {
      BooksAt(s, a, v0);
    }
    HoldersKept(s.loc, r.loc, s.fam, r.fam, s.pid, s.issued);
  }

  // ----- handler bodies -----

  lemma ReleaseGood(s: Sys, a: int, w: int, v0: map<int, int>, polite: bool)
    requires Inv(s) && Lines(s) && Good(s, v0, polite) && w > 0
    requires polite ==> Units(Release(s, a, w))
    ensures Good(Release(s, a, w), v0, polite)
  {
    hide C.Conserved, Housed, Linked, Seated, Softened, Release, Books, Issued, Holders, Units, Accounted;
    ReleaseBooks(s, a, w, v0);
    ReleaseAccounted(s, a, w);
    ReleaseEffect(s, a, w);
    if Solvent(v0) {
      ReleaseSolvent(s, a, w);
    }
    assert Partition(s);
    var vs := Queue(s, a)[..Fits(Queue(s, a), s.req, w + Val(s, a))];
    forall p | 0 <= p < |s.loc| && SetAll(s.loc, vs, Ready)[p] != Free
      ensures s.loc[p] != Free
    {
      if p in vs {
        assert p in Queue(s, a);
      }
    }
    HoldersKept(s.loc, SetAll(s.loc, vs, Ready), s.fam, s.fam, s.pid, s.issued);
  }

  lemma AcquireGood(s: Sys, a: int, r: int, t: nat, ticks: int, v0: map<int, int>, polite: bool)
    requires Inv(s) && Good(s, v0, polite) && s.cur != NIL && r >= 1
    requires polite ==> (IsDev(s.cfg, a) ==> r == 1) && ticks == (if a == s.cfg.clock then s.ticks + 1 else s.ticks)
    ensures Good(Acquire(s, a, r, t).(ticks := ticks), v0, polite)
  {
    hide C.Conserved, Parted, Housed, Linked, Seated, Softened, Issued, Holders, Booked, UnitRequests, Stocks,
      Accounted;
    var s' := Acquire(s, a, r, t);
    CurOff(s);
    AcquireAccounted(s, a, r, t);
    AccountedTicks(s', ticks);
    AcquireBooks(s, a, r, t, v0);
    if Solvent(v0) {
      AcquireSolvent(s, a, r, t);
    }
    if polite {
      AcquireUnits(s, a, r, t);
    }
    HoldersKept(s.loc, s'.loc, s.fam, s'.fam, s.pid, s.issued);
    BooksTicks(s', ticks, v0);
  }

  lemma AccountedTicks(s: Sys, n: int)
    requires Accounted(s)
    ensures Accounted(s.(ticks := n))
  {
  }

  lemma BooksTicks(s: Sys, n: int, v0: map<int, int>)
    requires Books(s, v0)
    ensures Books(s.(ticks := n), v0)
  {
    hide Booked;
    forall a
      ensures Booked(s.log, a, Queue(s.(ticks := n), a), s.req, Val(s.(ticks := n), a), Base(v0, a))
    {
      BooksAt(s, a, v0);
    }
  }

  lemma SemopGood(s: Sys, a: int, w: int, t: nat, v0: map<int, int>, polite: bool)
    requires Inv(s) && Lines(s) && Good(s, v0, polite) && s.cur != NIL
    requires polite ==> a != s.cfg.clock && (!IsDev(s.cfg, a) || w == -1)
    ensures Good(Semop(s, a, w, t), v0, polite)
  {
    hide C.Conserved, Parted, Housed, Linked, Seated, Softened, Books, PidBook, Units, Release, Acquire, Lines;
    if w > 0 {
      if polite {
        UserReleaseUnits(s, a, w);
      }
      ReleaseGood(s, a, w, v0, polite);
    } else if w < 0 {
      AcquireGood(s, a, -w, t, s.ticks, v0, polite);
      AcquireTicks(s, a, -w, t);
    } else {
      GoodSame(s, s.(mode := BadWeight), v0, polite);
    }
  }

  lemma AcquireTicks(s: Sys, a: int, r: int, t: nat)
    requires Sized(s) && s.cur != NIL
    ensures Acquire(s, a, r, t).ticks == s.ticks && Acquire(s, a, r, t) == Acquire(s, a, r, t).(ticks := s.ticks)
  {
  }

  lemma WaitClockGood(s: Sys, t: nat, v0: map<int, int>, polite: bool)
    requires Inv(s) && Lines(s) && Good(s, v0, polite) && s.cur != NIL && Live(s)
    ensures Good(WaitClock(s, t), v0, polite)
  {
    hide C.Conserved, Parted, Housed, Linked, Seated, Softened, Books, PidBook, Units, Acquire, Lines;
    DescriptorAlwaysFound(s, s.cfg.clock, 1, t);
    AcquireTicks(s, s.cfg.clock, 1, t);
    if Acquire(s, s.cfg.clock, 1, t).mode == s.mode {
      AcquireGood(s, s.cfg.clock, 1, t, s.ticks + 1, v0, polite);
    } else {
      GoodSame(s, s.(mode := NoSemaphore), v0, polite);
    }
  }

  lemma ReapedGood(s: Sys, vs: seq<int>, v0: map<int, int>, polite: bool)
    requires Inv(s) && Good(s, v0, polite) && NoDup(vs)
    ensures Good(Reaped(s, vs), v0, polite)
  {
    hide C.Conserved, Parted, Housed, Linked, Seated, Softened, Books, Issued, Holders, Units, Accounted;
    assert Partition(s);
    ReapedBooks(s, vs, v0);
    ReapedAccounted(s, vs);
    if polite {
      ReapedUnits(s, vs);
    }
    HoldersKept(s.loc, SetAll(s.loc, vs, Free), s.fam, Orphaned(s.fam, vs), s.pid, s.issued);
  }

  lemma TerminateGood(s: Sys, id: int, v0: map<int, int>, polite: bool)
    requires Inv(s) && s.cur != NIL && Good(s, v0, polite)
    ensures Good(Terminate(s, id), v0, polite)
  {
    hide C.Conserved, Parted, Linked, Seated, Softened, Good, Reaped, ChildByPid, Clean;
    var v := if id == 0 then s.cur else ChildByPid(s.fam, s.pid, s.cur, id);
    if Proc(s, v) {
      var vs := Post(s.fam, v);
      PostNoDup(s.fam, v);
      ReapedGood(s, vs, v0, polite);
      ReapedSame(s, vs);
      GoodSame(s, s.(mode := Broken), v0, polite);
      GoodSame(Reaped(s, vs), Reaped(s, vs).(cur := NIL), v0, polite);
    }
  }

  lemma CreateGood(s: Sys, v0: map<int, int>, polite: bool)
    requires Inv(s) && s.cur != NIL && (s.free != [] ==> Proc(s, s.free[0])) && Good(s, v0, polite)
    ensures Good(Create(s), v0, polite)
  {
    hide C.Conserved, Parted, Housed, Linked, Seated, Softened, Books, PidBook, Units, Create, Accounted;
    CreateBooks(s, v0);
    CreatePids(s);
    CreateAccounted(s);
    CreateConfig(s);
    if polite {
      CreateUnits(s);
    }
  }

  lemma CreateAccounted(s: Sys)
    requires Inv(s) && Accounted(s) && s.cur != NIL && (s.free != [] ==> Proc(s, s.free[0]))
    ensures Accounted(Create(s))
  {
    hide C.Conserved, Housed, Linked, Seated, Softened, Create, DevSet, Parted, Born;
    CountFree(s);
    if s.count < |s.loc| {
      TaggedHead(s.free, s.loc, Free) by { FreeTagged(s); }
      CreateFields(s);
      CreateHistory(s);
      MovedAccounted(s, Create(s), s.free[0], Ready);
    } else {
      CreateFails(s);
    }
  }

  lemma FreeTagged(s: Sys)
    requires Partition(s)
    ensures Tagged(s.free, s.loc, Free)
  {
  }

  lemma CreateHistory(s: Sys)
    requires Sized(s) && s.cur != NIL && (s.free != [] ==> Proc(s, s.free[0]))
    ensures Create(s).log == s.log && Create(s).soft == s.soft
  {
  }

  lemma CreateConfig(s: Sys)
    requires Sized(s) && s.cur != NIL && (s.free != [] ==> Proc(s, s.free[0]))
    ensures Create(s).cfg == s.cfg && Create(s).sem == s.sem
  {
  }

  lemma BodyGood(s: Sys, call: Call, t: nat, v0: map<int, int>, polite: bool)
    requires Inv(s) && s.cur != NIL && Live(s) && C.Later(s.clk, t) && Good(s, v0, polite)
    requires call.IoDevOp? ==> call.dev in s.cfg.devices
    requires polite && call.SemOp? ==> !IsDev(s.cfg, call.sem)
    ensures Good(Body(s, call, t), v0, polite)
  {
    hide C.Conserved, Parted, Housed, Linked, Seated, Softened, Books, PidBook, Units, Semop, WaitClock, Terminate,
      Create,
        Lines;
    PartitionLines(s);
    match call
    case CreateProcess => CreateGood(s, v0, polite);
    case TerminateProcess(id) => TerminateGood(s, id, v0, polite);
    case SemOp(a, w) => SemopGood(s, a, w, t, v0, polite);
    case WaitForClock => WaitClockGood(s, t, v0, polite);
    case IoDevOp(a) => SemopGood(s, a, -1, t, v0, polite);
    case Passive =>
  }

  lemma {:induction false} TickGood(s: Sys, v0: map<int, int>, polite: bool)
    requires Inv(s) && Lines(s) && Good(s, v0, polite)
    ensures Good(Tick(s), v0, polite)
    decreases s.ticks
  {
    hide C.Conserved, Parted, Housed, Linked, Seated, Softened, Books, PidBook, Units, Release, Lines;
    if s.ticks > 0 {
      var a, n := s.cfg.clock, s.ticks;
      var s1 := Release(s, a, n);
      ReleaseInv(s, a, n);
      ReleaseEffect(s, a, n);
      LinesAfterRelease(s, a, n);
      LinesSame(s1, n - 1);
      ReleaseGood(s, a, n, v0, false) by { GoodImpolite(s, v0, polite); }
      GoodTicks(s1, n - 1, v0);
      if polite {
        TickReleaseUnits(s);
      }
      assert Good(s1.(ticks := n - 1), v0, polite);
      TickGood(s1.(ticks := n - 1), v0, polite);
    }
  }

  lemma GoodTicks(s: Sys, n: int, v0: map<int, int>)
    requires Good(s, v0, false)
    ensures Good(s.(ticks := n), v0, false)
  {
    hide Booked, Issued, Holders;
    BooksTicks(s, n, v0);
  }

  lemma GoodImpolite(s: Sys, v0: map<int, int>, polite: bool)
    requires Good(s, v0, polite)
    ensures Good(s, v0, false)
  {
  }

  lemma HandleTimerGood(s: Sys, t: nat, t2: nat, v0: map<int, int>, polite: bool)
    requires Inv(s) && Lines(s) && Good(s, v0, polite)
    ensures Good(HandleTimer(s, t, t2), v0, polite)
  {
    hide C.Conserved, Parted, Housed, Linked, Seated, Softened, Good, Tick, Lines, C.Restart;
    var s0 := s.(clk := C.Restart(s.clk));
    RestartInv(s);
    GoodSame(s, s0, v0, polite);
    TickInv(s0);
    TickGood(s0, v0, polite);
    var s1 := if C.TickDue(s.clk, t) then Tick(s0) else s;
    if s1.cur == NIL {
      GoodSame(s1, s1.(mode := Astray), v0, polite);
    } else {
      CurOff(s1) by { assert Partition(s1); }
      GoodMoved(s1, Preempt(s1, t2), v0, polite, s1.cur, Ready);
    }
  }

  lemma HandleDeviceGood(s: Sys, a: int, status: int, v0: map<int, int>, polite: bool)
    requires Inv(s) && Lines(s) && Good(s, v0, polite) && a in s.cfg.devices
    ensures Good(HandleDevice(s, a, status), v0, polite)
  {
    hide C.Conserved, Parted, Housed, Linked, Seated, Softened, Good, Release, Lines;
    if Val(s, a) < 1 {
      if polite {
        assert Units(s) && Apart(s.cfg) by { GoodUnits(s, v0); }
        DeviceReleaseUnits(s, a);
      }
      ReleaseGood(s, a, 1, v0, polite);
    }
    var s1 := if Val(s, a) < 1 then Release(s, a, 1) else s;
    GoodSame(s1, HandleDevice(s, a, status), v0, polite);
  }

  lemma GoodUnits(s: Sys, v0: map<int, int>)
    requires Good(s, v0, true)
    ensures Units(s) && Apart(s.cfg)
  {
  }

  lemma WorkGood(s: Sys, e: Event, v0: map<int, int>, polite: bool)
    requires Inv(s) && Enabled(s, e) && Good(s, v0, polite) && (polite ==> Polite(s.cfg, e))
    ensures Good(Work(s, e), v0, polite)
  {
    hide C.Conserved, Parted, Housed, Linked, Seated, Softened, Good, HandleTimer, HandleDevice, Terminate, Lines;
    PartitionLines(s);
    match e
    case Syscall(call, at) => BodyGood(s, call, at.mid, v0, polite);
    case Trap(at) => TerminateGood(s, 0, v0, polite);
    case PassUp(at) =>
    case Forbidden(dies, at) =>
      ChargeInv(s, at.mid);
      GoodSame(s, Exit(s, at.mid, true), v0, polite);
      TerminateGood(Exit(s, at.mid, true), 0, v0, polite);
    case Timer(at) => HandleTimerGood(s, at.mid, at.mid2, v0, polite);
    case Device(dev, status, at) => HandleDeviceGood(s, dev, status, v0, polite);
  }

  lemma LeaveGood(s: Sys, e: Event, v0: map<int, int>, polite: bool)
    requires Inv(s) && C.Later(s.clk, e.at.leave) && e.at.leave <= e.at.sched && Good(s, v0, polite)
    ensures var s3 := End(s, e); Good(if Live(s3) then Elect(s3, e) else s3, v0, polite)
  {
    hide C.Conserved, Parted, Housed, Linked, Seated, Softened, Good, Exit;
    var s3 := End(s, e);
    ExitSame(s, e.at.leave, e.Syscall?);
    GoodSame(s, s3, v0, polite);
    if Live(s3) {
      ElectGood(s3, e, v0, polite);
    }
  }

  lemma ElectGood(s: Sys, e: Event, v0: map<int, int>, polite: bool)
    requires Inv(s) && C.Later(s.clk, e.at.sched) && Live(s) && Good(s, v0, polite)
    ensures Good(Elect(s, e), v0, polite)
  {
    hide C.Conserved, Parted, Housed, Linked, Seated, Softened, Good, Exit;
    if s.cur == NIL {
      PartitionLines(s);
      var r := Scheduler(s, e.at.sched);
      ExitSame(s, e.at.sched, false);
      if s.ready != [] {
        assert s.loc[s.ready[0]] == Ready by { TaggedHead(s.ready, s.loc, Ready) by { ReadyTagged(s); } }
        GoodMoved(s, r, v0, polite, s.ready[0], Off);
      } else {
        GoodSame(s, r, v0, polite);
      }
    }
  }

  lemma ReadyTagged(s: Sys)
    requires Partition(s)
    ensures Tagged(s.ready, s.loc, Ready)
  {
  }

  lemma StepGood(s: Sys, e: Event, v0: map<int, int>, polite: bool)
    requires Inv(s) && Good(s, v0, polite) && (polite ==> Polite(s.cfg, e))
    ensures Good(Step(s, e), v0, polite)
  {
    hide C.Conserved, Parted, Housed, Linked, Seated, Softened, Good, Work, End, Elect, Enter;
    if Enabled(s, e) {
      BeginSame(s, e.at.enter);
      var s1 := Begin(s, e);
      GoodSame(s, s1, v0, polite);
      WorkGood(s1, e, v0, polite);
      LeaveGood(Work(s1, e), e, v0, polite);
    }
  }

  // ----- the initial state -----

  /** main, up to its call of the scheduler, with n process descriptors and memory sem. */
  function Boot(cfg: Config, n: nat, sem: map<int, int>): Sys
    requires n >= 1
  {
    Sys(cfg, Running,
        seq(n, i => if i == 0 then Ready else Free), seq(n - 1, i => i + 1), [0], map[], seq(n, i => NIL),
        Shelf(map[], seq(n, i => i)),
        Family(seq(n, i => NIL), seq(n, i => []), seq(n, i => if i == 0 then 1 else 0), 1),
        seq(n, i => 0), seq(n, i => if i == 0 then 1 else 0), seq(n, i => 0),
        NIL, 1, 0, 0, sem, 0,
        C.Time(0, C.TICK, 0, seq(n, i => 0), seq(n, i => 0), seq(n, i => 0),
               C.Ledger(0, 0, 0, seq(n, i => 0), seq(n, i => 0), seq(n, i => 0), 0, 0)),
        [], [1])
  }

  lemma {:induction false} SumZero(n: nat)
    ensures C.Sum(seq(n, i => 0)) == 0
  {
    if n > 0 {
      SumZero(n - 1);
      assert seq<nat>(n, i => 0)[1..] == seq<nat>(n - 1, i => 0);
    }
  }

  /** The semaphores of the nucleus lie apart, none starts below zero, those of devices at most
      at one; main sets them all to zero. */
  ghost predicate Modest(cfg: Config, sem: map<int, int>) {
    Apart(cfg) && (forall a :: Value(sem, a) >= 0) && (forall a :: a in cfg.devices ==> Value(sem, a) <= 1)
  }

  lemma BootInv(cfg: Config, n: nat, sem: map<int, int>)
    requires n >= 1
    ensures Inv(Boot(cfg, n, sem))
  {
    var s := Boot(cfg, n, sem);
    SumZero(n);
    assert C.Conserved(s.clk);
    BootPartition(cfg, n, sem);
    assert DevSet(cfg, s.loc) == {};
    BootKin(cfg, n, sem);
  }

  lemma BootPartition(cfg: Config, n: nat, sem: map<int, int>)
    requires n >= 1
    ensures Partition(Boot(cfg, n, sem))
  {
    var s := Boot(cfg, n, sem);
    forall p | 0 <= p < n && s.loc[p] == Free
      ensures p in s.free
    {
      assert s.free[p - 1] == p;
    }
  }

  lemma BootKin(cfg: Config, n: nat, sem: map<int, int>)
    requires n >= 1
    ensures var s := Boot(cfg, n, sem); Housed(s.loc, s.fam)
  {
  }

  lemma BootGood(cfg: Config, n: nat, sem: map<int, int>, polite: bool)
    requires n >= 1
    requires polite ==> Modest(cfg, sem)
    ensures Good(Boot(cfg, n, sem), sem, polite)
  {
    var s := Boot(cfg, n, sem);
    forall a
      ensures Booked(s.log, a, Queue(s, a), s.req, Val(s, a), Base(sem, a))
    {
    }
  }

  // ----- whole runs -----

  lemma StepConfig(s: Sys, e: Event)
    requires Inv(s)
    ensures Step(s, e).cfg == s.cfg && |Step(s, e).loc| == |s.loc|
  {
    hide C.Conserved, Parted, Housed, Linked, Seated, Softened, End, Elect, Enter, Work;
    if Enabled(s, e) {
      BeginSame(s, e.at.enter);
      var s1 := Begin(s, e);
      WorkConfig(s1, e);
      LeaveConfig(Work(s1, e), e);
    }
  }

  lemma TerminateConfig(s: Sys, id: int)
    requires Sized(s) && Kin(s.fam) && s.cur != NIL
    ensures Terminate(s, id).cfg == s.cfg && |Terminate(s, id).loc| == |s.loc|
  {
    hide ChildByPid, Clean, Kin, Post;
  }

  lemma BodyConfig(s: Sys, call: Call, t: nat)
    requires Inv(s) && s.cur != NIL && Live(s) && C.Later(s.clk, t)
    ensures Body(s, call, t).cfg == s.cfg && |Body(s, call, t).loc| == |s.loc|
  {
    hide C.Conserved, Parted, Housed, Linked, Seated, Softened, Semop, Terminate, Lines, Kin;
    PartitionLines(s);
    match call
    case CreateProcess =>
    case TerminateProcess(id) =>
      InvKin(s);
      TerminateConfig(s, id);
    case SemOp(a, w) => SemopConfig(s, a, w, t);
    case WaitForClock => SemopConfig(s, s.cfg.clock, -1, t);
    case IoDevOp(a) => SemopConfig(s, a, -1, t);
    case Passive =>
  }

  lemma SemopConfig(s: Sys, a: int, w: int, t: nat)
    requires Sized(s) && Lines(s) && s.cur != NIL
    ensures Semop(s, a, w, t).cfg == s.cfg && |Semop(s, a, w, t).loc| == |s.loc|
  {
    hide Release, Lines, C.Exit;
    if w > 0 {
      ReleaseEffect(s, a, w);
    }
  }

  lemma WorkConfig(s: Sys, e: Event)
    requires Inv(s) && Enabled(s, e)
    ensures Work(s, e).cfg == s.cfg && |Work(s, e).loc| == |s.loc|
  {
    hide C.Conserved, Parted, Housed, Linked, Seated, Softened, C.Exit, C.Restart, Release, Tick, Lines, Body,
      Kin, Terminate;
    PartitionLines(s);
    InvKin(s);
    match e
    case Syscall(call, at) => BodyConfig(s, call, at.mid);
    case Trap(at) => TerminateConfig(s, 0);
    case PassUp(at) =>
    case Forbidden(dies, at) =>
      ChargeInv(s, at.mid);
      TerminateConfig(Exit(s, at.mid, true), 0);
    case Timer(at) =>
      RestartInv(s);
      TickInv(s.(clk := C.Restart(s.clk)));
      TickConfig(s.(clk := C.Restart(s.clk)));
    case Device(dev, status, at) =>
      ReleaseEffect(s, dev, 1);
  }

  lemma {:induction false} TickConfig(s: Sys)
    requires Sized(s) && Lines(s)
    ensures Tick(s).cfg == s.cfg && |Tick(s).loc| == |s.loc|
    decreases s.ticks
  {
    hide Lines, Release;
    if s.ticks > 0 {
      ReleaseEffect(s, s.cfg.clock, s.ticks);
      LinesAfterRelease(s, s.cfg.clock, s.ticks);
      LinesSame(Release(s, s.cfg.clock, s.ticks), s.ticks - 1);
      TickConfig(Release(s, s.cfg.clock, s.ticks).(ticks := s.ticks - 1));
    }
  }

  lemma LeaveConfig(s: Sys, e: Event)
    requires Inv(s) && C.Later(s.clk, e.at.leave) && e.at.leave <= e.at.sched
    ensures var s3 := End(s, e); var r := if Live(s3) then Elect(s3, e) else s3;
      r.cfg == s.cfg && |r.loc| == |s.loc|
  {
    hide C.Conserved, Parted, Housed, Linked, Seated, Softened, C.Exit;
  }

  /** Every event of the run leaves the nucleus's semaphores to the nucleus. */
  predicate PoliteRun(cfg: Config, es: seq<Event>) {
    forall i :: 0 <= i < |es| ==> Polite(cfg, es[i])
  }

  lemma {:induction false} ExecConfig(s: Sys, es: seq<Event>)
    requires Inv(s)
    ensures Exec(s, es).cfg == s.cfg && |Exec(s, es).loc| == |s.loc|
    decreases |es|
  {
    hide Inv, Step;
    if es != [] {
      ExecConfig(s, es[..|es| - 1]);
      StepConfig(Exec(s, es[..|es| - 1]), es[|es| - 1]);
    }
  }

  /** In every state that a run reaches, the books balance: each semaphore is an ideal
      semaphore of Fifo with the same history, and identifiers belong to their holders; the
      nucleus's own semaphores stay in bounds if user processes leave them alone. */
  lemma {:induction false} ExecGood(s: Sys, es: seq<Event>, v0: map<int, int>, polite: bool)
    requires Inv(s) && Good(s, v0, polite) && (polite ==> PoliteRun(s.cfg, es))
    ensures Good(Exec(s, es), v0, polite)
    decreases |es|
  {
    hide Inv, Good, Step;
    if es != [] {
      var before := es[..|es| - 1];
      ExecGood(s, before, v0, polite);
      ExecConfig(s, before);
      StepGood(Exec(s, before), es[|es| - 1], v0, polite);
    }
  }

  /** The nucleus has not stopped without reason. In the repaired build it loses no descriptor,
      so that the third clause and Inv exclude NoSemaphore. */
  ghost predicate Sane(s: Sys) {
    && (s.mode == Deadlock ==> Stuck(s))
    && (s.mode == Halted ==> forall p :: !Alive(s, p))
    && (s.mode == NoSemaphore ==> Slots(s.shelf) < s.count)
    && (s.cfg.build.Repaired? ==> s.mode != Astray && s.mode != Broken && s.mode != NoSemaphore)
  }

  lemma LeaveSane(s: Sys, e: Event)
    requires Inv(s) && C.Later(s.clk, e.at.leave) && e.at.leave <= e.at.sched
    requires Live(s) || s.mode == BadWeight || Sane(s)
    ensures var s3 := End(s, e); Sane(if Live(s3) then Elect(s3, e) else s3)
  {
    hide C.Conserved, Parted, Housed, Linked, Seated, Softened, Exit, Stuck, Alive;
    ExitSame(s, e.at.leave, e.Syscall?);
    if Live(s) {
      ElectSane(End(s, e), e);
    }
  }

  lemma ElectSane(s: Sys, e: Event)
    requires Inv(s) && C.Later(s.clk, e.at.sched) && Live(s)
    ensures Sane(Elect(s, e))
  {
    hide C.Conserved, Parted, Housed, Linked, Seated, Softened, Exit, Stuck, Alive;
    if s.cur == NIL {
      PartitionLines(s);
      ExitSame(s, e.at.sched, false);
      if s.ready == [] {
        var r := Scheduler(s, e.at.sched);
        SchedulerVerdict(s, e.at.sched);
        StuckSame(s, r);
      }
    }
  }

  lemma StuckSame(s: Sys, r: Sys)
    requires r.loc == s.loc && r.cfg == s.cfg
    ensures Stuck(s) ==> Stuck(r)
    ensures forall p :: Alive(r, p) <==> Alive(s, p)
  {
    if Stuck(s) {
      var p :| Alive(s, p);
      assert Alive(r, p);
    }
  }

  lemma StopsForReason(s: Sys, e: Event)
    requires Inv(s) && Enabled(s, e)
    ensures var r := Work(s, e); Live(r) || r.mode == BadWeight || Sane(r)
  {
    hide C.Conserved, Parted, Housed, Linked, Seated, Softened, Work, Stuck, Alive, ChildByPid, Clean;
    WorkMode(s, e);
    WorkConfig(s, e);
    DescriptorsInUse(s);
    assert Kin(s.fam) by { InvKin(s); }
    if s.cfg.build.Repaired? && Proc(s, Victim(s, e)) {
      VictimOf(s, e);
      RepairedIsClean(s, Victim(s, e));
    }
  }

  lemma StepSane(s: Sys, e: Event)
    requires Inv(s) && Sane(s)
    ensures Sane(Step(s, e))
  {
    hide C.Conserved, Parted, Housed, Linked, Seated, Softened, Work, End, Elect, Enter, Stuck, Alive;
    if Enabled(s, e) {
      BeginSame(s, e.at.enter);
      var s1 := Begin(s, e);
      WorkMode(s1, e);
      WorkConfig(s1, e);
      StopsForReason(s1, e);
      LeaveSane(Work(s1, e), e);
    }
  }

  /** In every run: PANIC for want of a semaphore descriptor only when fewer are left than processes
      live, and never in the repaired nucleus; PANIC in the scheduler only in a deadlock; HALT only
      when nobody lives; the repaired nucleus follows no null pointer and breaks no list. */
  lemma {:induction false} ExecSane(s: Sys, es: seq<Event>)
    requires Inv(s) && Sane(s)
    ensures Sane(Exec(s, es))
    decreases |es|
  {
    hide Inv, Sane, Step;
    if es != [] {
      ExecSane(s, es[..|es| - 1]);
      StepSane(Exec(s, es[..|es| - 1]), es[|es| - 1]);
    }
  }

  /** The first state in which a process runs: main ends with a call of the scheduler. */
  function Started(cfg: Config, n: nat, sem: map<int, int>, t: nat): (r: Sys)
    requires n >= 1
    ensures r.mode == Running && r.cfg == cfg && r.cur == 0
  {
    Scheduler(Boot(cfg, n, sem), t)
  }

  lemma StartedFields(cfg: Config, n: nat, sem: map<int, int>, t: nat)
    requires n >= 1
    ensures var b, r := Boot(cfg, n, sem), Started(cfg, n, sem, t);
      r == b.(loc := b.loc[0 := Off], ready := [], cur := 0, clk := r.clk) && r.clk.led.now == t
  {
  }

  lemma StartedGood(cfg: Config, n: nat, sem: map<int, int>, t: nat, polite: bool)
    requires n >= 1
    requires polite ==> Modest(cfg, sem)
    ensures Inv(Started(cfg, n, sem, t)) && Sane(Started(cfg, n, sem, t)) && Good(Started(cfg, n, sem, t), sem, polite)
  {
    hide Inv, Good, C.Exit;
    var s := Boot(cfg, n, sem);
    BootInv(cfg, n, sem);
    BootGood(cfg, n, sem, polite);
    SchedulerInv(s, t);
    GoodMoved(s, Scheduler(s, t), sem, polite, 0, Off);
  }

  /** The countdown starts out right if the scheduler's first reading is not too late. */
  lemma StartedOnDeadline(cfg: Config, n: nat, sem: map<int, int>, t: nat)
    requires n >= 1 && t < C.WORD - C.TICK
    ensures C.OnDeadline(Started(cfg, n, sem, t).clk)
  {
    var c := C.Grant(Boot(cfg, n, sem).clk, 0);
    BootInv(cfg, n, sem);
    C.GrantConserves(Boot(cfg, n, sem).clk, 0);
    C.ExitOnDeadline(c, t, false, 0);
  }

  lemma StartedBusy(cfg: Config, n: nat, sem: map<int, int>, t: nat)
    requires n >= 1
    ensures Effects.Busy(Started(cfg, n, sem, t))
  {
  }

  /** Nobody has any time yet. */
  lemma StartedTimes(cfg: Config, n: nat, sem: map<int, int>, t: nat)
    requires n >= 1 && Inv(Started(cfg, n, sem, t))
    ensures var s := Started(cfg, n, sem, t);
      forall p :: Proc(s, p) ==> Accounts.OwnTime(s, [], p) == 0 && Accounts.AllTime(s, [], p) == 0
  {
    hide Inv;
  }

  lemma StartedArmed(cfg: Config, n: nat, sem: map<int, int>, t: nat)
    requires n >= 1
    ensures Deadline.Armed(Started(cfg, n, sem, t).clk, Started(cfg, n, sem, t).cur)
  {
    BootInv(cfg, n, sem);
    C.GrantConserves(Boot(cfg, n, sem).clk, 0);
    Deadline.ExitArms(C.Grant(Boot(cfg, n, sem).clk, 0), t, false, 0);
  }

  /** A run that loses no descriptor never lacks one. */
  lemma NeverWithout(cfg: Config, n: nat, sem: map<int, int>, t: nat, es: seq<Event>)
    requires n >= 1 && Inv(Started(cfg, n, sem, t)) && Sane(Started(cfg, n, sem, t))
    requires Leaks.Frugal(Started(cfg, n, sem, t), es)
    ensures Exec(Started(cfg, n, sem, t), es).mode != NoSemaphore
  {
    hide C.Conserved, Partition, Housed, Linked, Seated, Softened, Exec, Leaks.Frugal, Scheduler, Boot, Slots,
      Stuck, Alive;
    var s := Started(cfg, n, sem, t);
    StartedSlots(cfg, n, sem, t);
    Leaks.ExecSlots(s, es);
    ExecSane(s, es);
    ExecConfig(s, es);
    CountSays(Exec(s, es));
  }

  lemma StartedSlots(cfg: Config, n: nat, sem: map<int, int>, t: nat)
    requires n >= 1
    ensures Slots(Started(cfg, n, sem, t).shelf) == n && |Started(cfg, n, sem, t).loc| == n
  {
    hide C.Exit;
  }

  /** The same, from power on of a machine with n process descriptors, whose scheduler first
      reads the clock at t; and as long as readings follow each other closely enough, the
      countdown is the deadline of the next tick. */
  lemma BootedRun(cfg: Config, n: nat, sem: map<int, int>, t: nat, es: seq<Event>, polite: bool)
    requires n >= 1
    requires polite ==> Modest(cfg, sem)
    requires polite ==> PoliteRun(cfg, es)
    ensures Inv(Started(cfg, n, sem, t))
    ensures var s := Exec(Started(cfg, n, sem, t), es); Inv(s) && Sane(s) && Good(s, sem, polite)
    ensures t < C.WORD - C.TICK && Deadline.BriskRun(Started(cfg, n, sem, t), es) ==>
      C.OnDeadline(Exec(Started(cfg, n, sem, t), es).clk)
    ensures Leaks.Frugal(Started(cfg, n, sem, t), es) ==> Exec(Started(cfg, n, sem, t), es).mode != NoSemaphore
    ensures var s := Exec(Started(cfg, n, sem, t), es); Live(s) ==> Deadline.Armed(s.clk, s.cur)
    ensures Effects.Busy(Exec(Started(cfg, n, sem, t), es))
  {
    hide Inv, Good, Exec, C.OnDeadline, Deadline.BriskRun, Deadline.Armed, Leaks.Frugal, Effects.Busy;
    StartedGood(cfg, n, sem, t, polite);
    StartedArmed(cfg, n, sem, t);
    StartedBusy(cfg, n, sem, t);
    Effects.ExecBusy(Started(cfg, n, sem, t), es);
    Deadline.ExecArmed(Started(cfg, n, sem, t), es);
    if Leaks.Frugal(Started(cfg, n, sem, t), es) {
      NeverWithout(cfg, n, sem, t, es);
    }
    ExecSane(Started(cfg, n, sem, t), es);
    ExecGood(Started(cfg, n, sem, t), es, sem, polite);
    if t < C.WORD - C.TICK && Deadline.BriskRun(Started(cfg, n, sem, t), es) {
      StartedOnDeadline(cfg, n, sem, t);
      Deadline.ExecOnDeadline(Started(cfg, n, sem, t), es);
    }
  }
}
