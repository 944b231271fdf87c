/** The four ways in which the nucleus stops: src/scheduler.c 20-36, the two PANIC calls of
    semop, and the pointers it follows unchecked. */
module Verdicts {
  import opened Lists
  import opened Forest
  import opened Nucleus
  import opened Shelves
  import opened Invariant
  import opened Runs
  import C = Clock

  // ----- no free semaphore descriptor -----

  /** Those of the first n processes that wait, and the semaphores on which they do. */
  function Sleepers(loc: seq<Loc>, n: nat): (r: set<int>)
    requires n <= |loc|
    ensures forall p :: p in r <==> 0 <= p < n && loc[p].Waiting?
  {
    if n == 0 then {} else Sleepers(loc, n - 1) + (if loc[n - 1].Waiting? then {n - 1} else {})
  }

  function Sems(loc: seq<Loc>, n: nat): set<int>
    requires n <= |loc|
  {
    if n == 0 then {} else Sems(loc, n - 1) + (if loc[n - 1].Waiting? then {loc[n - 1].sem} else {})
  }

  lemma {:induction false} SemsSize(loc: seq<Loc>, n: nat)
    requires n <= |loc|
    ensures |Sems(loc, n)| <= |Sleepers(loc, n)|
  {
    hide Sems, Sleepers;
    OneMoreSem(loc, n);
    if n > 0 {
      SemsSize(loc, n - 1);
    }
  }

  lemma OneMoreSem(loc: seq<Loc>, n: nat)
    requires n <= |loc|
    ensures n == 0 ==> Sems(loc, n) == {}
    ensures n > 0 ==>
      |Sems(loc, n)| <= |Sems(loc, n - 1)| + (if loc[n - 1].Waiting? then 1 else 0)
      && |Sleepers(loc, n)| == |Sleepers(loc, n - 1)| + (if loc[n - 1].Waiting? then 1 else 0)
  {
    if n > 0 && (!loc[n - 1].Waiting? || loc[n - 1].sem in Sems(loc, n - 1)) {
      assert Sems(loc, n) == Sems(loc, n - 1);
    }
    if n > 0 && !loc[n - 1].Waiting? {
      assert Sleepers(loc, n) == Sleepers(loc, n - 1);
    }
  }

  lemma {:induction false} SemsHold(loc: seq<Loc>, n: nat, q: int)
    requires n <= |loc| && 0 <= q < n && loc[q].Waiting?
    ensures loc[q].sem in Sems(loc, n)
  {
    if q < n - 1 {
      SemsHold(loc, n - 1, q);
    }
  }

  /** Nobody sleeps who is free or running. */
  lemma SleepersFewer(s: Sys)
    requires Inv(s) && s.cur != NIL
    ensures |Sleepers(s.loc, |s.loc|)| < s.count
  {
    hide C.Conserved, Housed, Linked, Seated, Softened;
    CurOff(s);
    FreeOnes(s);
    ThreeApart(Sleepers(s.loc, |s.loc|), Elems(s.free), s.cur, |s.loc|);
  }

  lemma FreeOnes(s: Sys)
    requires Inv(s)
    ensures |Elems(s.free)| == |s.loc| - s.count
    ensures forall p :: p in Elems(s.free) ==> Proc(s, p) && s.loc[p] == Free
  {
    hide C.Conserved, Housed, Linked, Seated, Softened;
    ElemsSize(s.free);
  }

  lemma ThreeApart(x: set<int>, y: set<int>, c: int, n: nat)
    requires (forall p :: p in x ==> 0 <= p < n && p !in y) && forall p :: p in y ==> 0 <= p < n
    requires 0 <= c < n && c !in x && c !in y
    ensures |x| + |y| < n
  {
    assert forall p :: p in x ==> p !in y;
    assert x * y == {};
    assert (x + y) * {c} == {};
    assert |x + y + {c}| == |x| + |y| + 1;
    SubsetSize(x + y + {c}, Upto(n));
  }

  /** While a process runs, fewer semaphores have waiters than processes live. */
  lemma LinesFewerThanProcesses(s: Sys)
    requires Inv(s) && s.cur != NIL
    ensures |s.wait| < s.count
  {
    hide C.Conserved, Housed, Linked, Seated, Softened;
    SleepersFewer(s);
    SemsSize(s.loc, |s.loc|);
    forall a | a in s.wait
      ensures a in Sems(s.loc, |s.loc|)
    {
      TaggedHead(s.wait[a], s.loc, Waiting(a));
      SemsHold(s.loc, |s.loc|, s.wait[a][0]);
    }
    SubsetSize(s.wait.Keys, Sems(s.loc, |s.loc|));
  }

  lemma DescriptorsInUse(s: Sys)
    requires Inv(s)
    ensures |s.shelf.desc| == |s.wait|
    ensures s.shelf.idle == [] <==> |s.wait| >= Slots(s.shelf)
    ensures s.cfg.build.Repaired? ==> Slots(s.shelf) >= s.count
  {
    hide C.Conserved, Housed, Linked, Tagged, Softened;
    assert s.shelf.desc.Keys == s.wait.Keys;
  }

  /** The PANIC of semop for want of a descriptor occurs exactly when the caller must wait where
      nobody waits yet and as many semaphores have waiters as there are descriptors left. */
  lemma DescriptorRunsOut(s: Sys, a: int, r: int, t: nat)
    requires Inv(s) && s.cur != NIL && Live(s)
    ensures Acquire(s, a, r, t).mode == NoSemaphore <==>
      Queue(s, a) == [] && Val(s, a) < r && |s.wait| >= Slots(s.shelf)
  {
    hide C.Conserved, Parted, Housed, Linked, Seated, Softened, C.Exit;
    DescriptorsInUse(s);
  }

  /** It does not occur while at least as many descriptors are left as processes live; in the
      repaired build that is always so. */
  lemma DescriptorAlwaysFound(s: Sys, a: int, r: int, t: nat)
    requires Inv(s) && s.cur != NIL
    ensures s.cfg.build.Repaired? ==> Slots(s.shelf) >= s.count
    ensures Slots(s.shelf) >= s.count ==> Acquire(s, a, r, t).mode == s.mode
    ensures Acquire(s, a, r, t).mode == s.mode || Acquire(s, a, r, t) == s.(mode := NoSemaphore)
  {
    hide C.Conserved, Parted, Housed, Linked, Seated, Softened, C.Exit;
    LinesFewerThanProcesses(s);
    DescriptorsInUse(s);
  }

  // ----- deadlock and halt -----

  ghost predicate Alive(s: Sys, p: int) { Proc(s, p) && s.loc[p] != Free }

  /** Somebody lives, and everybody who does is blocked on a semaphore that no device and no
      clock will ever raise. */
  ghost predicate Stuck(s: Sys) {
    && (exists p :: Alive(s, p))
    && (forall p :: Alive(s, p) ==> s.loc[p].Waiting? && !IsDev(s.cfg, s.loc[p].sem))
  }

  lemma CountSays(s: Sys)
    requires Inv(s)
    ensures 0 <= s.count <= |s.loc|
    ensures s.count == 0 <==> forall p :: !Alive(s, p)
  {
    hide C.Conserved, Housed, Linked, Seated, Softened;
    assert Partition(s);
    FreeFits(s.free, |s.loc|);
    if forall p :: !Alive(s, p) {
      forall p | 0 <= p < |s.loc|
        ensures p in s.free
      {
        assert !Alive(s, p);
      }
    }
  }

  lemma NoOneStirring(s: Sys)
    requires Inv(s) && s.cur == NIL && s.ready == []
    ensures forall p :: Alive(s, p) ==> s.loc[p].Waiting?
  {
    hide C.Conserved, Housed, Linked, Seated, Softened;
    forall p | Alive(s, p)
      ensures s.loc[p].Waiting?
    {
      assert s.loc[p] == Ready ==> p in s.ready;
    }
  }

  lemma DevSetEmpty(cfg: Config, loc: seq<Loc>)
    ensures DevSet(cfg, loc) == {} <==> forall p :: 0 <= p < |loc| && loc[p].Waiting? ==> !IsDev(cfg, loc[p].sem)
  {
    forall p | 0 <= p < |loc| && loc[p].Waiting? && IsDev(cfg, loc[p].sem)
      ensures p in DevSet(cfg, loc)
    {
    }
  }

  /** The scheduler's verdict when nobody can run: HALT exactly when nobody lives; PANIC only
      in a deadlock, and exactly in one unless g_soft_block_count is overstated, which the
      repaired build excludes. */
  lemma SchedulerVerdict(s: Sys, t: nat)
    requires Inv(s) && s.cur == NIL && s.ready == []
    ensures var m := Scheduler(s, t).mode;
      && (m == Halted <==> forall p :: !Alive(s, p))
      && (m == Deadlock <==> Stuck(s) && s.soft <= 0)
      && (s.cfg.build.Repaired? ==> (m == Deadlock <==> Stuck(s)))
      && (m == Halted || m == Deadlock || m == Idling)
  {
    hide C.Conserved, Housed, Linked, Seated, Parted, DevSet;
    CountSays(s);
    NoOneStirring(s);
    DevSetEmpty(s.cfg, s.loc);
    assert s.soft <= 0 ==> DevSet(s.cfg, s.loc) == {};
    if DevSet(s.cfg, s.loc) == {} && !forall p :: !Alive(s, p) {
      assert Stuck(s);
    }
    if Stuck(s) {
      assert forall p :: 0 <= p < |s.loc| && s.loc[p].Waiting? ==> Alive(s, p);
    }
  }

  // ----- pointers followed unchecked -----

  /** The process whose progeny event e is about to terminate, NIL if none. */
  ghost function Victim(s: Sys, e: Event): int
    requires Inv(s) && Enabled(s, e)
  {
    if e.Trap? || (e.Forbidden? && e.dies) then s.cur
    else if e.Syscall? && e.call.TerminateProcess? then
      if e.call.pid == 0 then s.cur else ChildByPid(s.fam, s.pid, s.cur, e.call.pid)
    else NIL
  }

  /** When the lists of the memory lose their meaning: in the shipped build only, exactly at events
      that terminate somebody below whom a process is ready that was once woken from a semaphore. */
  lemma BrokenExactly(s: Sys, e: Event)
    requires Inv(s) && Enabled(s, e)
    ensures Step(s, e).mode == Broken <==> Proc(s, Victim(s, e)) && !Clean(s, Post(s.fam, Victim(s, e)))
    ensures Step(s, e).mode == Broken ==> s.cfg.build.Shipped?
  {
    hide C.Conserved, Parted, Softened, Linked, Seated, Housed, Work, End, Elect, Enter, ChildByPid, Clean;
    assert Kin(s.fam) by { InvKin(s); }
    BeginSame(s, e.at.enter);
    var s1 := Begin(s, e);
    WorkMode(s1, e);
    LeaveMode(Work(s1, e), e);
    if Proc(s, Victim(s, e)) {
      CleanSame(s, s1, Post(s.fam, Victim(s, e)));
      VictimOf(s, e);
      if s.cfg.build.Repaired? {
        RepairedIsClean(s, Victim(s, e));
      }
    }
  }

  lemma VictimPerson(s: Sys, p: int)
    requires Inv(s) && Proc(s, p)
    ensures Kin(s.fam) && Person(s.fam, p)
  {
    hide C.Conserved, Parted, Softened, Linked, Seated;
  }

  lemma CleanSame(s: Sys, r: Sys, vs: seq<int>)
    requires Sized(s) && Sized(r) && r.loc == s.loc && r.cursem == s.cursem
    ensures Clean(r, vs) <==> Clean(s, vs)
  {
  }

  /** A null pointer is followed exactly when, in the shipped build, the interval timer fires with
      nobody running. In particular the unchecked allocPcb of createProcess always finds a
      descriptor. */
  lemma AstrayExactly(s: Sys, e: Event)
    requires Inv(s) && Enabled(s, e)
    ensures Step(s, e).mode == Astray <==> s.cfg.build.Shipped? && e.Timer? && s.cur == NIL
  {
    hide C.Conserved, Parted, Softened, Linked, Seated, Housed, Work, End, Elect, Enter, ChildByPid, Clean;
    BeginSame(s, e.at.enter);
    var s1 := Begin(s, e);
    WorkMode(s1, e);
    LeaveMode(Work(s1, e), e);
  }

  lemma RepairedIsClean(s: Sys, p: int)
    requires Inv(s) && s.cfg.build.Repaired? && Proc(s, p) && s.loc[p] != Free
    ensures Clean(s, Post(s.fam, p))
    ensures forall v :: v in Post(s.fam, p) && Proc(s, v) && s.cursem[v] != NIL ==> s.loc[v].Waiting?
  {
    hide C.Conserved, Parted, Seated, Softened;
    LiveSubtree(s, p);
  }

  /** The victim is alive, and a victim other than the caller is below the caller. */
  lemma VictimLives(s: Sys, id: int)
    requires Inv(s) && s.cur != NIL
    ensures s.loc[s.cur] != Free
    ensures var c := ChildByPid(s.fam, s.pid, s.cur, id);
      c != NIL ==> Proc(s, c) && s.loc[c] != Free && c != s.cur && Descends(s.fam, c, s.cur)
  {
    hide C.Conserved, Softened, Linked, Seated;
    CurOff(s);
    SearchFinds(s.fam, s.pid, s.cur, s.fam.kids[s.cur], id);
    var c := ChildByPid(s.fam, s.pid, s.cur, id);
    if c != NIL {
      assert Person(s.fam, c);
    }
  }

  lemma VictimOf(s: Sys, e: Event)
    requires Inv(s) && Enabled(s, e)
    ensures Proc(s, Victim(s, e)) ==> s.cur != NIL && s.loc[Victim(s, e)] != Free
  {
    hide C.Conserved, Parted, Softened, Linked, Seated, Housed, ChildByPid;
    if s.cur != NIL {
      VictimLives(s, 0);
      if e.Syscall? && e.call.TerminateProcess? {
        VictimLives(s, e.call.pid);
      }
    }
  }

  lemma TerminateMode(s: Sys, id: int)
    requires Inv(s) && s.cur != NIL && Live(s)
    ensures var v := if id == 0 then s.cur else ChildByPid(s.fam, s.pid, s.cur, id);
      Terminate(s, id).mode == if Proc(s, v) && !Clean(s, Post(s.fam, v)) then Broken else s.mode
  {
    hide C.Conserved, Parted, Softened, Linked, Seated, Housed, Clean, Reaped, ChildByPid;
    assert Kin(s.fam) by { InvKin(s); }
    var v := if id == 0 then s.cur else ChildByPid(s.fam, s.pid, s.cur, id);
    if Proc(s, v) {
      ReapedSame(s, Post(s.fam, v));
    }
  }

  /** In particular, terminating somebody at or below whom is a process that a V has woken, and that
      is still ready, breaks the lists in the shipped build, and does not in the repaired one. */
  lemma WokenThenKilled(s: Sys, a: int, w: int, c: int, id: int)
    requires Inv(s) && Lines(s) && s.cur != NIL && Live(s)
    requires c in Queue(s, a)[..Fits(Queue(s, a), s.req, w + Val(s, a))]
    ensures Kin(s.fam) && Person(s.fam, s.cur) && |s.pid| == |s.fam.kids|
    ensures var r, v := Release(s, a, w), if id == 0 then s.cur else ChildByPid(s.fam, s.pid, s.cur, id);
      && r.fam == s.fam && r.cur == s.cur
      && (Person(s.fam, v) && c in Post(s.fam, v) ==>
            Terminate(r, id).mode == if s.cfg.build.Shipped? then Broken else s.mode)
  {
    hide C.Conserved, Parted, Linked, Seated, Softened, Release, Fits, Total, Lines, ChildByPid, Post, Kin;
    var r := Release(s, a, w);
    ReleaseEffect(s, a, w);
    ReleaseInv(s, a, w);
    WokenLinked(s, a, w, c);
    TerminateMode(r, id);
    var v := if id == 0 then s.cur else ChildByPid(s.fam, s.pid, s.cur, id);
    if s.cfg.build.Repaired? && Person(s.fam, v) {
      VictimLives(r, id);
      RepairedIsClean(r, v);
    }
  }

  /** The shipped V leaves p_cursem as it was. */
  lemma WokenLinked(s: Sys, a: int, w: int, c: int)
    requires Inv(s) && Lines(s)
    requires c in Queue(s, a)[..Fits(Queue(s, a), s.req, w + Val(s, a))]
    ensures Proc(s, c) && Release(s, a, w).loc[c] == Ready
    ensures s.cfg.build.Shipped? ==> Release(s, a, w).cursem[c] != NIL
  {
    hide C.Conserved, Softened, Housed, Seated, Fits, Total;
    assert c in Queue(s, a);
  }

  lemma InvKin(s: Sys)
    requires Inv(s)
    ensures Kin(s.fam)
  {
  }

  /** A P stops the nucleus only for want of a descriptor. */
  ghost predicate OutOf(s: Sys, r: Sys) {
    r == s.(mode := NoSemaphore) && Slots(s.shelf) < s.count
  }

  lemma SemopMode(s: Sys, a: int, w: int, t: nat)
    requires Inv(s) && Lines(s) && s.cur != NIL
    ensures var r := Semop(s, a, w, t);
      OutOf(s, r) || (w == 0 && r.mode == BadWeight) || (w != 0 && r.mode == s.mode)
  {
    hide C.Conserved, Parted, Softened, Linked, Seated, Housed, Acquire, Release, Lines;
    if w > 0 {
      ReleaseEffect(s, a, w);
    } else if w < 0 {
      DescriptorAlwaysFound(s, a, -w, t);
    }
  }

  lemma BodyMode(s: Sys, call: Call, t: nat)
    requires Inv(s) && s.cur != NIL && Live(s) && C.Later(s.clk, t)
    ensures var r := Body(s, call, t);
      call.TerminateProcess? || OutOf(s, r) || r.mode == s.mode || r.mode == BadWeight
  {
    hide C.Conserved, Parted, Softened, Linked, Seated, Housed, Semop, Terminate, Create, Lines;
    PartitionLines(s);
    match call
    case CreateProcess => CreateInv(s);
    case SemOp(a, w) => SemopMode(s, a, w, t);
    case WaitForClock => SemopMode(s, s.cfg.clock, -1, t);
    case IoDevOp(a) => SemopMode(s, a, -1, t);
    case _ =>
  }

  lemma BodyTerminate(s: Sys, id: nat, t: nat)
    requires Inv(s) && s.cur != NIL && Live(s) && C.Later(s.clk, t)
    ensures Body(s, TerminateProcess(id), t) == Terminate(s, id)
  {
    hide C.Conserved, Parted, Housed, Linked, Seated, Softened, Terminate;
  }

  lemma HandleTimerMode(s: Sys, t: nat, t2: nat)
    requires Inv(s) && Lines(s)
    ensures HandleTimer(s, t, t2).mode == if s.cur == NIL && s.cfg.build.Shipped? then Astray else s.mode
  {
    hide C.Conserved, Parted, Softened, Linked, Seated, Housed, Tick, Lines, C.Restart;
    RestartInv(s);
    TickInv(s.(clk := C.Restart(s.clk)));
  }

  lemma HandleDeviceMode(s: Sys, a: int, status: int)
    requires Inv(s) && Lines(s)
    ensures HandleDevice(s, a, status).mode == s.mode
  {
    hide C.Conserved, Parted, Softened, Linked, Seated, Housed, Release, Lines;
    ReleaseEffect(s, a, 1);
  }

  lemma WorkMode(s: Sys, e: Event)
    requires Inv(s) && Enabled(s, e)
    ensures var v, r := Victim(s, e), Work(s, e);
      if Proc(s, v) && !Clean(s, Post(s.fam, v)) then r.mode == Broken
      else if s.cfg.build.Shipped? && e.Timer? && s.cur == NIL then r.mode == Astray
      else r.mode == s.mode || r.mode == BadWeight || OutOf(s, r)
  {
    hide C.Conserved, Parted, Softened, Linked, Seated, Housed, Clean, HandleTimer, HandleDevice, Terminate, Lines,
      ChildByPid, Body;
    PartitionLines(s);
    match e
    case Syscall(call, at) =>
      if call.TerminateProcess? {
        TerminateMode(s, call.pid);
        BodyTerminate(s, call.pid, at.mid);
      } else {
        BodyMode(s, call, at.mid);
      }
    case Trap(at) => TerminateMode(s, 0);
    case PassUp(at) =>
    case Forbidden(dies, at) =>
      ChargeInv(s, at.mid);
      TerminateMode(Exit(s, at.mid, true), 0);
      if dies {
        VictimPerson(s, s.cur);
        CleanSame(s, Exit(s, at.mid, true), Post(s.fam, s.cur));
      }
    case Timer(at) => HandleTimerMode(s, at.mid, at.mid2);
    case Device(dev, status, at) => HandleDeviceMode(s, dev, status);
  }

  lemma LeaveMode(s: Sys, e: Event)
    requires Inv(s) && C.Later(s.clk, e.at.leave) && e.at.leave <= e.at.sched
    ensures var s3 := End(s, e); var m := (if Live(s3) then Elect(s3, e) else s3).mode;
      if Live(s) then m == Running || m == Idling || m == Halted || m == Deadlock else m == s.mode
  {
    hide C.Conserved, Housed, Linked, Seated, Parted, Softened;
  }
}
