/** What each entry into the nucleus does to the state as a whole: src/exceptions.c 87-115 and
    119-252, src/interrupt.c 32-57 and 112-124, src/scheduler.c 6-37. */
module Effects {
  import opened Lists
  import opened Forest
  import opened Nucleus
  import opened Shelves
  import opened Invariant
  import opened Runs
  import opened Semaphores
  import opened Progeny
  import opened Slices
  import opened Verdicts
  import C = Clock
  import Deadline

  // ----- P: semop with a negative weight, waitClock, ioDevop -----

  /** The caller has taken n tokens from a and goes on. */
  ghost predicate Takes(s: Sys, r: Sys, a: int, n: int) {
    && (forall b :: Val(r, b) == if b == a then Val(s, a) - n else Val(s, b))
    && r == s.(sem := r.sem, log := s.log + [Asked(a, s.cur, n), Met(a, s.cur, n)])
  }

  /** The caller has been put last in the line of a, on the descriptor of the others there or, if
      there are none, on the first free one, and asks for n tokens. Nobody runs. */
  ghost predicate Waits(s: Sys, r: Sys, a: int, n: int, t: nat)
    requires Sized(s) && s.cur != NIL
  {
    var p, q := s.cur, Queue(s, a);
    && (forall b :: Queue(r, b) == if b == a then q + [p] else Queue(s, b))
    && (q != [] ==> r.shelf == s.shelf && Proc(s, q[0]) && r.cursem == s.cursem[p := s.cursem[q[0]]])
    && (q == [] ==>
          s.shelf.idle != [] && r.shelf.idle == s.shelf.idle[1..] && r.cursem == s.cursem[p := s.shelf.idle[0]])
    && r.clk.led.now == t
    && r == s.(wait := r.wait, loc := s.loc[p := Waiting(a)], cursem := r.cursem, shelf := r.shelf,
               req := s.req[p := n], clk := r.clk, cur := NIL,
               soft := s.soft + (if IsDev(s.cfg, a) then 1 else 0), log := s.log + [Asked(a, p, n)])
  }

  /** The whole of a P for n tokens on a: who comes when nobody waits and the value suffices takes
      them; who does not, waits, behind everybody else; or the nucleus lacks a descriptor. */
  ghost predicate Probed(s: Sys, r: Sys, a: int, n: int, t: nat)
    requires Sized(s) && s.cur != NIL
  {
    if Queue(s, a) == [] && Val(s, a) >= n then Takes(s, r, a, n)
    else if Queue(s, a) != [] || s.shelf.idle != [] then Waits(s, r, a, n, t)
    else r == s.(mode := NoSemaphore)
  }

  lemma AcquireProbes(s: Sys, a: int, n: int, t: nat)
    requires Inv(s) && s.cur != NIL && C.Later(s.clk, t)
    ensures Probed(s, Acquire(s, a, n, t), a, n, t)
  {
    hide C.Conserved, Parted, Housed, Linked, Seated, Softened, C.Exit;
    C.ExitCharges(s.clk, t, true, s.cur);
    LineDescriptor(s, a);
  }

  /** A semaphore has a descriptor exactly if somebody waits on it, and then its waiters point to it. */
  lemma LineDescriptor(s: Sys, a: int)
    requires Inv(s)
    ensures a in s.shelf.desc <==> Queue(s, a) != []
    ensures Queue(s, a) != [] ==> Proc(s, Queue(s, a)[0]) && s.cursem[Queue(s, a)[0]] == s.shelf.desc[a]
  {
    hide C.Conserved, Housed, Linked, Softened, Orderly;
    if Queue(s, a) != [] {
      TaggedHead(Queue(s, a), s.loc, Waiting(a));
    }
  }

  /** SYS3 with a negative weight */
  lemma SemOpProbes(s: Sys, a: int, w: int, t: nat)
    requires Inv(s) && s.cur != NIL && Live(s) && C.Later(s.clk, t) && w < 0
    ensures Probed(s, Body(s, SemOp(a, w), t), a, -w, t)
  {
    hide Inv, Acquire, Probed;
    Sizes(s);
    AcquireProbes(s, a, -w, t);
  }

  lemma Sizes(s: Sys)
    requires Inv(s)
    ensures Sized(s) && Lines(s) && Kin(s.fam) && forall p :: Proc(s, p) ==> Person(s.fam, p)
    ensures s.cur != NIL ==> Alive(s, s.cur) && s.loc[s.cur] == Off
  {
    hide C.Conserved, Linked, Seated, Softened;
    PartitionLines(s);
  }

  /** SYS10: the caller waits for the interrupt of the device, unless its token is there. */
  lemma DeviceWait(s: Sys, a: int, t: nat)
    requires Inv(s) && s.cur != NIL && Live(s) && C.Later(s.clk, t)
    ensures Probed(s, Body(s, IoDevOp(a), t), a, 1, t)
  {
    hide Inv, Acquire, Probed;
    Sizes(s);
    AcquireProbes(s, a, 1, t);
  }

  /** SYS9: the caller waits for the clock, unless a token is there, and is counted for the next
      tick in either case. */
  lemma ClockWait(s: Sys, t: nat)
    requires Inv(s) && s.cur != NIL && Live(s) && C.Later(s.clk, t)
    ensures var r := Body(s, WaitForClock, t);
      && Probed(s, r.(ticks := s.ticks), s.cfg.clock, 1, t)
      && r.ticks == s.ticks + (if r.mode == NoSemaphore then 0 else 1)
      && (r.mode == NoSemaphore <==>
            Queue(s, s.cfg.clock) == [] && Val(s, s.cfg.clock) < 1 && s.shelf.idle == [])
  {
    hide Inv, Acquire;
    Sizes(s);
    AcquireProbes(s, s.cfg.clock, 1, t);
    var x := Acquire(s, s.cfg.clock, 1, t);
    assert x.(ticks := s.ticks) == x;
  }

  // ----- V: semop with a positive weight -----

  /** The first k of those who wait on a have been woken by a V of weight w. */
  ghost predicate Raised(s: Sys, r: Sys, a: int, w: int, k: nat)
    requires Sized(s) && Lines(s)
  {
    var q := Queue(s, a);
    k <= |q| && (forall i :: 0 <= i < |q| ==> 0 <= q[i] < |s.req|)
    && (forall b :: Queue(r, b) == if b == a then q[k..] else Queue(s, b))
    && (forall b :: Val(r, b) == if b == a then Val(s, a) + w - Total(q[..k], s.req) else Val(s, b))
    && r.ready == s.ready + q[..k]
    && r.loc == SetAll(s.loc, q[..k], Ready)
    && r.req == SetAll(s.req, q[..k], 0)
    && r.log == s.log + [Put(a, w)] + Meets(a, q[..k], s.req)
    && r == s.(wait := r.wait, ready := r.ready, loc := r.loc, req := r.req, cursem := r.cursem, shelf := r.shelf,
               soft := r.soft, log := r.log, sem := r.sem)
  }

  /** SYS3 with a positive weight: it wakes the longest prefix of the line that the new value
      covers, if that is not negative. */
  lemma SemOpRaises(s: Sys, a: int, w: int, t: nat) returns (k: nat)
    requires Inv(s) && s.cur != NIL && Live(s) && C.Later(s.clk, t) && w > 0
    ensures Lines(s) && Raised(s, Body(s, SemOp(a, w), t), a, w, k)
    ensures Asks(Queue(s, a), s.req)
    ensures Val(s, a) + w >= 0 ==> Longest(Queue(s, a), s.req, Val(s, a) + w, k)
  {
    hide Inv, Release, Fits, Total, Longest, SetAll, Meets;
    Sizes(s);
    QueueAsks(s, a);
    ReleaseEffect(s, a, w);
    k := Fits(Queue(s, a), s.req, w + Val(s, a));
    if Val(s, a) + w >= 0 {
      FitsLongest(Queue(s, a), s.req, w + Val(s, a));
    }
  }

  /** SYS3 with weight 0 stops the nucleus; the calls that do not touch the model's state leave it
      as it is. */
  lemma OtherCalls(s: Sys, a: int, t: nat)
    requires Inv(s) && s.cur != NIL && Live(s) && C.Later(s.clk, t)
    ensures Body(s, SemOp(a, 0), t) == s.(mode := BadWeight) && Body(s, Passive, t) == s
  {
    hide Inv;
  }

  // ----- createProcess and terminateProcess -----

  /** SYS1: the new child of NewChild, or the error value and nothing else. */
  lemma Creation(s: Sys, t: nat)
    requires Inv(s) && s.cur != NIL && Live(s) && C.Later(s.clk, t)
    ensures s.count >= |s.loc| ==> Body(s, CreateProcess, t) == s.(ret := -1)
    ensures s.count < |s.loc| ==>
      s.free != [] && Proc(s, s.free[0])
      && var p, r := s.free[0], Body(s, CreateProcess, t);
         && r.fam.parent == s.fam.parent[p := s.cur]
         && r.fam.kids[s.cur] == s.fam.kids[s.cur] + [p] && r.fam.kids[p] == []
         && r.free == s.free[1..] && r.ready == s.ready + [p] && r.loc == s.loc[p := Ready]
         && r.ret == r.pid[p] && r.cursem == s.cursem[p := NIL] && r.req == s.req[p := 0] && r.a1 == s.a1[p := 0]
         && r == s.(loc := r.loc, free := r.free, ready := r.ready, cursem := r.cursem, fam := r.fam, req := r.req,
                    pid := r.pid, a1 := r.a1, count := s.count + 1, ret := r.ret, clk := r.clk, issued := r.issued)
  {
    hide C.Conserved, Parted, Housed, Linked, Seated, Softened, Create, Born, C.Rebirth;
    Sizes(s);
    if s.count < |s.loc| {
      NewChild(s);
      CreateFields(s);
      BornFamily(s.fam, s.cur, s.free[0]);
    } else {
      FirstFree(s);
      CreateFails(s);
    }
  }

  lemma FirstFree(s: Sys)
    requires Inv(s)
    ensures s.free != [] ==> Proc(s, s.free[0])
  {
    hide C.Conserved, Housed, Linked, Seated, Softened;
    PartitionLines(s);
  }

  lemma BornFamily(f: Family, parent: int, p: int)
    requires |f.parent| == |f.kids| == |f.birth| && 0 <= p < |f.kids| && 0 <= parent < |f.kids| && p != parent
    ensures Born(f, parent, p).parent == f.parent[p := parent]
    ensures Born(f, parent, p).kids[parent] == f.kids[parent] + [p] && Born(f, parent, p).kids[p] == []
  {
  }

  /** SYS2. With 0 the caller dies and its progeny with it, and nobody runs. With the identifier of
      a process that childByPid examines, the first such process dies with its progeny and the
      caller runs on. With any other identifier nothing happens at all. */
  lemma Termination(s: Sys, id: nat, t: nat)
    requires Inv(s) && s.cur != NIL && Live(s) && C.Later(s.clk, t)
    ensures Kin(s.fam) && Person(s.fam, s.cur) && |s.pid| == |s.fam.kids|
    ensures var r, ps := Body(s, TerminateProcess(id), t), Examined(s.fam, s.cur, s.fam.kids[s.cur]);
      && (id == 0 && Clean(s, Post(s.fam, s.cur)) ==> Killed(s, r, s.cur) && r.cur == NIL)
      && (id != 0 && Nobody(s.pid, ps, id) ==> r == s)
      && (forall v :: id != 0 && FirstWith(s.pid, ps, id, v) && Person(s.fam, v) && Clean(s, Post(s.fam, v)) ==>
            Killed(s, r, v) && r.cur == s.cur)
      && (forall v :: id != 0 && FirstWith(s.pid, ps, id, v) ==> Person(s.fam, v))
  {
    hide Inv, Terminate, Killed, FirstWith, Nobody, Examined, Clean, Nucleus.TerminateProgeny, Kin, Post;
    Sizes(s);
    BodyTerminate(s, id, t);
    if id == 0 {
      OwnTermination(s);
    } else {
      OtherTermination(s, id);
    }
  }

  lemma OwnTermination(s: Sys)
    requires Inv(s) && s.cur != NIL && Live(s) && Kin(s.fam) && Person(s.fam, s.cur)
    ensures Clean(s, Post(s.fam, s.cur)) ==> Killed(s, Terminate(s, 0), s.cur) && Terminate(s, 0).cur == NIL
  {
    hide Inv, Clean, Kin, Post, Reaped;
    Sizes(s);
    if Clean(s, Post(s.fam, s.cur)) {
      KillsExactlySubtree(s, s.cur);
    }
  }

  lemma OtherTermination(s: Sys, id: int)
    requires Inv(s) && s.cur != NIL && Live(s) && id != 0
    requires Kin(s.fam) && Person(s.fam, s.cur) && |s.pid| == |s.fam.kids|
    ensures var r, ps := Terminate(s, id), Examined(s.fam, s.cur, s.fam.kids[s.cur]);
      && (Nobody(s.pid, ps, id) ==> r == s)
      && (forall v :: FirstWith(s.pid, ps, id, v) ==> Person(s.fam, v))
      && (forall v :: FirstWith(s.pid, ps, id, v) && Person(s.fam, v) && Clean(s, Post(s.fam, v)) ==>
            Killed(s, r, v) && r.cur == s.cur)
  {
    hide Inv, Clean, Kin, Post, Reaped, FirstWith, Nobody, Examined, Killed;
    Sizes(s);
    var ps, c := Examined(s.fam, s.cur, s.fam.kids[s.cur]), ChildByPid(s.fam, s.pid, s.cur, id);
    FindsIffExamined(s.fam, s.pid, s.cur, s.fam.kids[s.cur], id);
    FindsFirst(s.fam, s.pid, s.cur, s.fam.kids[s.cur], id);
    VictimLives(s, id);
    if c != NIL {
      if Clean(s, Post(s.fam, c)) {
        KillsExactlySubtree(s, c);
      }
    }
    forall v | FirstWith(s.pid, ps, id, v)
      ensures v == c && c != NIL
    {
      FirstIsFound(s.pid, ps, id, v, c);
    }
  }

  lemma FirstIsFound(pid: seq<int>, ps: seq<int>, id: int, v: int, c: int)
    requires FirstWith(pid, ps, id, v)
    requires (c == NIL <==> Nobody(pid, ps, id)) && (c != NIL ==> FirstWith(pid, ps, id, c))
    ensures v == c && c != NIL
  {
    hide FirstWith, Nobody;
    OneFirstWith(pid, ps, id, v, v);
    OneFirstWith(pid, ps, id, v, c);
  }

  /** A trap that its process has no handler for is SYS2 of itself. */
  lemma TrapTerminates(s: Sys, e: Event)
    requires Inv(s) && Enabled(s, e) && e.Trap?
    ensures Kin(s.fam) && Person(s.fam, s.cur)
    ensures Clean(s, Post(s.fam, s.cur)) ==> Killed(s, Work(s, e), s.cur) && Work(s, e).cur == NIL
  {
    hide Inv, Enabled, Terminate, Killed, Clean, Kin, Post;
    Sizes(s);
    EnabledParts(s, e);
    OwnTermination(s);
  }

  /** So is the program trap of a forbidden system call, once the caller has been charged for it;
      if the caller handles it, the charge is all. */
  lemma ForbiddenTerminates(s: Sys, e: Event)
    requires Inv(s) && Enabled(s, e) && e.Forbidden?
    ensures Kin(s.fam) && Person(s.fam, s.cur)
    ensures Work(s, e).clk.led.now == e.at.mid
    ensures var r := Work(s, e);
      if e.dies then Clean(s, Post(s.fam, s.cur)) ==> Killed(s.(clk := r.clk), r, s.cur) && r.cur == NIL
      else r == s.(clk := r.clk)
  {
    hide Inv, Enabled, Terminate, Killed, Clean, Kin, Post, Exit;
    Sizes(s);
    EnabledParts(s, e);
    ChargeInv(s, e.at.mid);
    var s1 := Exit(s, e.at.mid, true);
    CleanSame(s, s1, Post(s.fam, s.cur));
    if e.dies {
      OwnTermination(s1);
      TerminateTime(s1, 0);
    }
  }

  lemma EnabledParts(s: Sys, e: Event)
    requires Enabled(s, e)
    ensures Live(s) && Ordered(s.clk.led.now, e.at) && (e.Trap? || e.Forbidden? || e.Syscall? ==> s.cur != NIL)
  {
  }

  /** A system call does what Body says, at the caller's second clock reading; a passed-up exception
      does nothing. */
  lemma CallWorks(s: Sys, e: Event)
    requires Inv(s) && Enabled(s, e)
    ensures e.Syscall? ==>
      s.cur != NIL && Live(s) && C.Later(s.clk, e.at.mid) && Work(s, e) == Body(s, e.call, e.at.mid)
    ensures e.PassUp? ==> Work(s, e) == s
  {
    hide Inv, Body;
  }

  // ----- device interrupts -----

  /** A device interrupt is served. */
  lemma DeviceServes(s: Sys, e: Event)
    requires Inv(s) && Enabled(s, e) && e.Device? && Units(s)
    ensures Sized(s) && Sized(Work(s, e)) && Serviced(s, Work(s, e), e.dev, e.status)
  {
    hide Inv, Units, Serviced, Nucleus.HandleDevice;
    Sizes(s);
    DeviceStatusToWoken(s, e.dev, e.status);
  }

  /** On any state, also one in which user processes have meddled with the semaphore: nothing happens
      if its value is positive; otherwise a V of one token does, and who was first in the line gets
      the status if anybody has been woken. */
  lemma DeviceActs(s: Sys, e: Event) returns (k: nat)
    requires Inv(s) && Enabled(s, e) && e.Device?
    ensures Sized(s) && Lines(s)
    ensures Val(s, e.dev) >= 1 ==> Work(s, e) == s
    ensures Val(s, e.dev) < 1 ==>
      Raised(s, Work(s, e).(a1 := s.a1), e.dev, 1, k)
      && k == Fits(Queue(s, e.dev), s.req, 1 + Val(s, e.dev))
      && (k == 0 ==> Work(s, e).a1 == s.a1)
      && (k > 0 ==> var h := Queue(s, e.dev)[0]; Proc(s, h) && Work(s, e).a1 == s.a1[h := e.status])
  {
    hide Inv, Release, Fits, Raised, Lines;
    Sizes(s);
    k := HeadMoves(s, e.dev);
    var r := Work(s, e);
    assert Val(s, e.dev) < 1 ==> r.(a1 := s.a1) == Release(s, e.dev, 1);
  }

  /** A V has woken somebody exactly if the head of the line has changed. */
  lemma HeadMoves(s: Sys, a: int) returns (k: nat)
    requires Inv(s) && Lines(s) && Sized(s)
    ensures Raised(s, Release(s, a, 1), a, 1, k) && k == Fits(Queue(s, a), s.req, 1 + Val(s, a))
    ensures Head(s, a) != Head(Release(s, a, 1), a) <==> k > 0
    ensures k > 0 ==> Queue(s, a) != [] && Head(s, a) == Queue(s, a)[0] && Proc(s, Queue(s, a)[0])
    ensures Release(s, a, 1).a1 == s.a1
  {
    hide Inv, Release, Fits, Total, SetAll, Meets;
    var q := Queue(s, a);
    QueueAsks(s, a);
    QueueNoDup(s, a);
    ReleaseEffect(s, a, 1);
    k := Fits(q, s.req, 1 + Val(s, a));
    HeadOfQueue(s, a);
    HeadOfQueue(Release(s, a, 1), a);
    if 0 < k < |q| {
      assert q[k..][0] == q[k] && q[0] != q[k];
    }
  }

  // ----- how a handler ends -----

  /** The dispatch of the first ready process, with a full slice of 5000 microseconds. */
  ghost predicate Elected(s: Sys, r: Sys)
    requires s.ready != [] && Proc(s, s.ready[0])
  {
    var p := s.ready[0];
    && r == s.(mode := Running, cur := p, ready := s.ready[1..], loc := s.loc[p := Off], clk := r.clk)
    && C.Slot(r.clk, p) && r.clk.slice[p] == 5000 && r.clk.led.due[p] == 5000
  }

  lemma DispatchGives(s: Sys, t: nat)
    requires Inv(s) && s.cur == NIL && s.ready != [] && C.Later(s.clk, t)
    ensures Proc(s, s.ready[0]) && Elected(s, Dispatch(s, t))
  {
    hide C.Conserved, Housed, Linked, Seated, Softened, C.Exit;
    PartitionLines(s);
    C.GrantConserves(s.clk, s.ready[0]);
    C.ExitCharges(C.Grant(s.clk, s.ready[0]), t, false, s.ready[0]);
    assert C.Grant(s.clk, s.ready[0]).slice[s.ready[0]] == 5000;
  }

  /** After its work w a handler stops if that has stopped the nucleus; it returns to the running
      process if there is one; otherwise the first ready process is dispatched; if there is none,
      the nucleus halts when nobody lives, waits when somebody counts as blocked on a device or the
      clock, and stops with PANIC otherwise. Nothing else changes but the clocks. */
  ghost predicate Leaves(w: Sys, r: Sys) {
    if !Live(w) then r == w
    else if w.cur != NIL then r == w.(clk := r.clk)
    else if w.ready != [] then Proc(w, w.ready[0]) && Elected(w, r)
    else r == w.(clk := r.clk, mode := if w.count == 0 then Halted else if w.soft > 0 then Idling else Deadlock)
  }

  lemma StepLeaves(s: Sys, e: Event)
    requires Inv(s) && Enabled(s, e)
    ensures Leaves(Worked(s, e), Step(s, e))
  {
    hide Inv, Work, Begin, End, Elect;
    BeginSame(s, e.at.enter) by { Sizes(s); }
    var w := Worked(s, e);
    if Live(w) {
      EndOnlyTime(w, e);
      ElectLeaves(End(w, e), e);
    } else {
      Deadline.EndStopped(w, e);
    }
  }

  lemma EndOnlyTime(s: Sys, e: Event)
    requires Inv(s) && C.Later(s.clk, e.at.leave) && Live(s)
    ensures var r := End(s, e); r == s.(clk := r.clk) && r.clk.led.now == e.at.leave
  {
    hide C.Conserved, Parted, Housed, Linked, Seated, Softened, C.Exit;
  }

  lemma ElectLeaves(s: Sys, e: Event)
    requires Inv(s) && C.Later(s.clk, e.at.sched) && Live(s)
    ensures Leaves(s, Elect(s, e))
  {
    hide C.Conserved, Parted, Housed, Linked, Seated, Softened, C.Exit, Elected, Dispatch;
    PartitionLines(s);
    CountSays(s);
    if s.cur == NIL && s.ready != [] {
      DispatchGives(s, e.at.sched);
    }
  }

  // ----- the processor is never idle while somebody is ready -----

  ghost predicate Busy(s: Sys) {
    Live(s) ==> (s.mode == Running <==> s.cur != NIL) && (s.cur == NIL ==> s.ready == [])
  }

  /** No handler's work gives the processor to anybody. */
  lemma WorkCur(s: Sys, e: Event)
    requires Inv(s) && Enabled(s, e)
    ensures Work(s, e).cur == s.cur || Work(s, e).cur == NIL
  {
    hide C.Conserved, Parted, Housed, Linked, Seated, Softened, Body, Terminate, Release, Tick, Lines, C.Exit,
      C.Restart;
    Sizes(s);
    match e
    case Syscall(call, at) => BodyCur(s, call, at.mid);
    case Trap(at) => TerminateCur(s, 0);
    case PassUp(at) =>
    case Forbidden(dies, at) =>
      ChargeInv(s, at.mid);
      TerminateCur(Exit(s, at.mid, true), 0);
    case Timer(at) =>
      RestartInv(s);
      TickInv(s.(clk := C.Restart(s.clk)));
    case Device(dev, status, at) => ReleaseEffect(s, dev, 1);
  }

  lemma TerminateCur(s: Sys, id: int)
    requires Sized(s) && Kin(s.fam) && s.cur != NIL
    ensures Terminate(s, id).cur == s.cur || Terminate(s, id).cur == NIL
  {
    hide Kin, Clean, Post, ChildByPid;
  }

  lemma BodyCur(s: Sys, call: Call, t: nat)
    requires Inv(s) && s.cur != NIL && Live(s) && C.Later(s.clk, t)
    ensures Body(s, call, t).cur == s.cur || Body(s, call, t).cur == NIL
  {
    hide C.Conserved, Parted, Housed, Linked, Seated, Softened, Terminate, Release, Create, Lines, C.Exit;
    Sizes(s);
    match call
    case CreateProcess =>
      FirstFree(s);
      CreateInv(s);
    case TerminateProcess(id) => TerminateCur(s, id);
    case SemOp(a, w) =>
      if w > 0 {
        ReleaseEffect(s, a, w);
      }
    case WaitForClock =>
    case IoDevOp(a) =>
    case Passive =>
  }

  lemma WorkedMode(s: Sys, e: Event)
    requires Inv(s) && Enabled(s, e)
    ensures Live(Worked(s, e)) ==> Worked(s, e).mode == s.mode
    ensures Worked(s, e).cur == s.cur || Worked(s, e).cur == NIL
  {
    hide Inv, Work, Clean, OutOf;
    BeginSame(s, e.at.enter) by { Sizes(s); }
    WorkMode(Begin(s, e), e);
    WorkCur(Begin(s, e), e);
    OutOfMode(Begin(s, e), Worked(s, e));
  }

  lemma OutOfMode(s: Sys, r: Sys)
    ensures OutOf(s, r) ==> r.mode == NoSemaphore
  {
  }

  lemma StepBusy(s: Sys, e: Event)
    requires Inv(s) && Busy(s)
    ensures Busy(Step(s, e))
  {
    hide Inv, Step, Worked;
    if Enabled(s, e) {
      StepLeaves(s, e);
      WorkedMode(s, e);
    } else {
      StepNot(s, e);
    }
  }

  lemma StepNot(s: Sys, e: Event)
    requires Inv(s) && !Enabled(s, e)
    ensures Step(s, e) == s
  {
    hide Inv;
  }

  /** In every live state of a run somebody is running, or nobody is ready and the machine waits for
      an interrupt. */
  lemma {:induction false} ExecBusy(s: Sys, es: seq<Event>)
    requires Inv(s) && Busy(s)
    ensures Busy(Exec(s, es))
    decreases |es|
  {
    hide Inv, Step, Busy;
    if es != [] {
      ExecBusy(s, es[..|es| - 1]);
      StepBusy(Exec(s, es[..|es| - 1]), es[|es| - 1]);
    }
  }
}
