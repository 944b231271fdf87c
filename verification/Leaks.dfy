/** How many semaphore descriptors are left: src/asl.c 113-132 enqueues on the free list what may
    stand there already, and what stood behind it is lost. */
module Leaks {
  import opened Lists
  import opened Forest
  import opened Nucleus
  import opened Shelves
  import opened Invariant
  import opened Runs
  import opened Verdicts
  import C = Clock

  // ----- what loses none -----

  lemma ReleaseSlots(s: Sys, a: int, w: int)
    requires Inv(s) && Lines(s)
    ensures Slots(Release(s, a, w).shelf) == Slots(s.shelf)
  {
    hide C.Conserved, Parted, Housed, Linked, Softened, Fits, Total, Lines;
    RetireOrderly(s.shelf, a, |s.loc|);
    ReleaseShelf(s, a, w);
  }

  lemma ReleaseShelf(s: Sys, a: int, w: int)
    requires Sized(s) && Lines(s)
    ensures Release(s, a, w).shelf == s.shelf || Release(s, a, w).shelf == Retire(s.shelf, a)
  {
    hide Fits, Total;
  }

  lemma {:induction false} TickSlots(s: Sys)
    requires Inv(s) && Lines(s)
    ensures Slots(Tick(s).shelf) == Slots(s.shelf)
    decreases s.ticks
  {
    hide C.Conserved, Parted, Housed, Linked, Seated, Softened, Release, Lines, Slots;
    if s.ticks > 0 {
      var a, n := s.cfg.clock, s.ticks;
      ReleaseSlots(s, a, n);
      ReleaseInv(s, a, n);
      ReleaseEffect(s, a, n);
      LinesAfterRelease(s, a, n);
      LinesSame(Release(s, a, n), n - 1);
      TickSlots(Release(s, a, n).(ticks := n - 1));
    }
  }

  lemma AcquireSlots(s: Sys, a: int, r: int, t: nat)
    requires Inv(s) && s.cur != NIL
    ensures Slots(Acquire(s, a, r, t).shelf) == Slots(s.shelf)
  {
    hide C.Conserved, Parted, Housed, Linked, Softened, C.Exit, Orderly;
    EngageOrderly(s.shelf, a, |s.loc|);
  }

  lemma CreateSlots(s: Sys)
    requires Sized(s) && s.cur != NIL && (s.free != [] ==> Proc(s, s.free[0]))
    ensures Create(s).shelf == s.shelf
  {
  }

  // ----- what does -----

  /** Descendants of the caller that can be removed have no stale p_cursem at all. */
  lemma NoneStale(s: Sys, vs: seq<int>)
    requires Inv(s) && Clean(s, vs) && s.cur !in vs && forall v :: v in vs ==> Proc(s, v) && s.loc[v] != Free
    ensures forall v :: v in vs ==> s.loc[v].Waiting? || s.cursem[v] == NIL
  {
    hide C.Conserved, Tagged, Housed, Linked, Seated, Softened;
  }

  lemma ReapedSlots(s: Sys, vs: seq<int>)
    requires Inv(s) && forall v :: v in vs ==> Proc(s, v) && (s.loc[v].Waiting? || s.cursem[v] == NIL)
    ensures var h := Vacated(s.shelf, s.wait, s.loc, s.cursem, vs); Orderly(h, |s.loc|) && Slots(h) == Slots(s.shelf)
  {
    hide C.Conserved, Parted, Housed, Linked, Seated, Softened;
    MannedServed(s);
    VacatedKeys(s.shelf, s.wait, s.loc, s.cursem, vs);
  }

  /** The processes below p, without p. */
  ghost function Offspring(f: Family, p: int): seq<int>
    requires Kin(f) && Person(f, p)
  {
    PostAll(f, p, f.kids[p])
  }

  lemma OffspringLives(s: Sys)
    requires Inv(s) && s.cur != NIL && Kin(s.fam) && Person(s.fam, s.cur)
    ensures Post(s.fam, s.cur) == Offspring(s.fam, s.cur) + [s.cur] && s.cur !in Offspring(s.fam, s.cur)
    ensures forall v :: v in Offspring(s.fam, s.cur) ==> Proc(s, v) && s.loc[v] != Free
  {
    hide C.Conserved, Linked, Seated, Softened, Parted, NoDup;
    CurOff(s) by { assert Partition(s); }
    LiveSubtree(s, s.cur);
    var us, p := Offspring(s.fam, s.cur), s.cur;
    forall v | v in us
      ensures v in Post(s.fam, p) && v != p
    {
      assert v in us + [p];
      LastOnce(us, p);
    }
  }

  lemma LastOnce(us: seq<int>, p: int)
    requires NoDup(us + [p])
    ensures p !in us
  {
    forall i | 0 <= i < |us|
      ensures us[i] != p
    {
      assert (us + [p])[i] == us[i] && (us + [p])[|us|] == p;
    }
  }

  /** A caller that terminates itself, and its progeny with it: h are the descriptors after its
      progeny has gone, none of which is lost; then its own p_cursem, if it is left over from an
      earlier wait, has that descriptor enqueued on the free list. */
  lemma OwnDeath(s: Sys) returns (h: Shelf)
    requires Inv(s) && s.cur != NIL && Live(s) && Kin(s.fam) && Terminate(s, 0).mode != Broken
    ensures Orderly(h, |s.loc|) && Slots(h) == Slots(s.shelf)
    ensures Terminate(s, 0).shelf == if s.cursem[s.cur] == NIL then h else Refile(h, s.cursem[s.cur])
    ensures s.fam.kids[s.cur] == [] ==> h == s.shelf
  {
    hide C.Conserved, Parted, Linked, Seated, Softened, Kin, Orderly, Clean, Refile, Slots;
    CurOff(s) by { assert Partition(s); }
    assert Person(s.fam, s.cur);
    OffspringLives(s);
    var us := Offspring(s.fam, s.cur);
    CleanPrefix(s, us, s.cur);
    NoneStale(s, us);
    ReapedSlots(s, us);
    h := Vacated(s.shelf, s.wait, s.loc, s.cursem, us);
    assert (us + [s.cur])[..|us|] == us;
  }

  lemma CleanPrefix(s: Sys, us: seq<int>, p: int)
    requires Sized(s)
    ensures Clean(s, us + [p]) ==> Clean(s, us)
  {
    forall v | v in us
      ensures v in us + [p]
    {
    }
  }

  /** How many that costs, d being the descriptor that p_cursem still points to: none if it serves
      some semaphore; those behind it on the free list, or all others if it is the last there; and
      if it was lost it is found again. */
  lemma LossExactly(s: Sys) returns (h: Shelf)
    requires Inv(s) && s.cur != NIL && Live(s) && Kin(s.fam) && Terminate(s, 0).mode != Broken
    ensures Slots(h) == Slots(s.shelf) && (s.fam.kids[s.cur] == [] ==> h == s.shelf)
    ensures var d, n := s.cursem[s.cur], Slots(Terminate(s, 0).shelf);
      && (d == NIL || d in h.desc.Values ==> n == Slots(s.shelf))
      && (d != NIL && d !in h.desc.Values && d !in h.idle ==> n == Slots(s.shelf) + 1)
      && (forall i :: 0 <= i < |h.idle| && h.idle[i] == d && d !in h.desc.Values && d != NIL ==>
            n == Slots(s.shelf) - (if i < |h.idle| - 1 then |h.idle| - 1 - i else i))
  {
    hide C.Conserved, Parted, Linked, Seated, Softened, Housed, Kin, Refile, Terminate;
    h := OwnDeath(s);
    RefileSlots(h, s.cursem[s.cur]);
  }

  // ----- runs -----

  /** e terminates a caller whose p_cursem is left over from an earlier wait. */
  ghost predicate Risky(s: Sys, e: Event)
    requires Inv(s) && Enabled(s, e)
  {
    s.cur != NIL && Victim(s, e) == s.cur && s.cursem[s.cur] != NIL
  }

  lemma TerminateSlots(s: Sys, id: int)
    requires Inv(s) && s.cur != NIL && Live(s) && Kin(s.fam)
    requires id == 0 ==> s.cursem[s.cur] == NIL
    ensures Slots(Terminate(s, id).shelf) == Slots(s.shelf)
  {
    hide C.Conserved, Parted, Linked, Seated, Softened, Housed, Kin, Clean, Orderly, Slots, ChildByPid, Vacated;
    if Terminate(s, id).mode != Broken {
      if id == 0 {
        var h := OwnDeath(s);
      } else {
        VictimLives(s, id);
        var c := ChildByPid(s.fam, s.pid, s.cur, id);
        if Proc(s, c) {
          LiveSubtree(s, c);
          DescendantSparesCurrent(s.fam, c, s.cur) by { assert Person(s.fam, s.cur) && Person(s.fam, c); }
          NoneStale(s, Post(s.fam, c));
          ReapedSlots(s, Post(s.fam, c));
        }
      }
    }
  }

  lemma SemopSlots(s: Sys, a: int, w: int, t: nat)
    requires Inv(s) && Lines(s) && s.cur != NIL
    ensures Slots(Semop(s, a, w, t).shelf) == Slots(s.shelf)
  {
    hide C.Conserved, Parted, Housed, Linked, Seated, Softened, Release, Acquire, Lines, Slots;
    if w > 0 {
      ReleaseSlots(s, a, w);
    } else if w < 0 {
      AcquireSlots(s, a, -w, t);
    }
  }

  lemma BodySlots(s: Sys, call: Call, t: nat)
    requires Inv(s) && s.cur != NIL && Live(s) && C.Later(s.clk, t)
    requires call == TerminateProcess(0) ==> s.cursem[s.cur] == NIL
    ensures Slots(Body(s, call, t).shelf) == Slots(s.shelf)
  {
    hide C.Conserved, Parted, Housed, Linked, Seated, Softened, Semop, Terminate, Create, Lines, Slots;
    PartitionLines(s);
    match call
    case CreateProcess => CreateSlots(s);
    case TerminateProcess(id) => TerminateSlots(s, id) by { InvKin(s); }
    case SemOp(a, w) => SemopSlots(s, a, w, t);
    case WaitForClock => SemopSlots(s, s.cfg.clock, -1, t);
    case IoDevOp(a) => SemopSlots(s, a, -1, t);
    case Passive =>
  }

  lemma WorkSlots(s: Sys, e: Event)
    requires Inv(s) && Enabled(s, e) && !Risky(s, e)
    ensures Slots(Work(s, e).shelf) == Slots(s.shelf)
  {
    hide C.Conserved, Parted, Housed, Linked, Seated, Softened, Body, Release, Tick, Terminate, Lines, Slots, C.Exit,
      C.Restart, ChildByPid;
    PartitionLines(s);
    match e
    case Syscall(call, at) => BodySlots(s, call, at.mid);
    case Trap(at) => TerminateSlots(s, 0) by { InvKin(s); }
    case PassUp(at) =>
    case Forbidden(dies, at) =>
      ChargeInv(s, at.mid);
      if dies {
        TerminateSlots(Exit(s, at.mid, true), 0) by { InvKin(Exit(s, at.mid, true)); }
      }
    case Timer(at) =>
      RestartInv(s);
      TickInv(s.(clk := C.Restart(s.clk)));
      TickSlots(s.(clk := C.Restart(s.clk)));
    case Device(dev, status, at) => ReleaseSlots(s, dev, 1);
  }

  lemma LeaveShelf(s: Sys, e: Event)
    requires Inv(s) && C.Later(s.clk, e.at.leave) && e.at.leave <= e.at.sched
    ensures var s3 := End(s, e); (if Live(s3) then Elect(s3, e) else s3).shelf == s.shelf
  {
    hide C.Conserved, Housed, Linked, Seated, Parted, Softened, C.Exit, C.Grant;
  }

  lemma StepSlots(s: Sys, e: Event)
    requires Inv(s) && (Enabled(s, e) ==> !Risky(s, e))
    ensures Slots(Step(s, e).shelf) == Slots(s.shelf)
  {
    hide C.Conserved, Parted, Housed, Linked, Seated, Softened, Work, End, Elect, Enter, Slots, ChildByPid;
    if Enabled(s, e) {
      BeginSame(s, e.at.enter);
      WorkSlots(Begin(s, e), e);
      LeaveShelf(Work(Begin(s, e), e), e);
    }
  }

  /** No event of the run terminates a caller that has ever been woken. */
  ghost predicate Frugal(s: Sys, es: seq<Event>)
    requires Inv(s)
    decreases |es|
  {
    es != [] ==>
      Frugal(s, es[..|es| - 1])
      && var r, e := Exec(s, es[..|es| - 1]), es[|es| - 1];
         Enabled(r, e) ==> !Risky(r, e)
  }

  /** Such a run keeps all descriptors. */
  lemma {:induction false} ExecSlots(s: Sys, es: seq<Event>)
    requires Inv(s) && Frugal(s, es)
    ensures Slots(Exec(s, es).shelf) == Slots(s.shelf)
    decreases |es|
  {
    hide Inv, Step, Slots, Risky;
    if es != [] {
      ExecSlots(s, es[..|es| - 1]);
      StepSlots(Exec(s, es[..|es| - 1]), es[|es| - 1]);
    }
  }
}
