/** Runs of the shipped code, from power on, in which its defects show. */
module Scenarios {
  import opened Lists
  import opened Forest
  import opened Nucleus
  import opened Shelves
  import opened Invariant
  import opened Machine
  import opened Runs
  import C = Clock
  import Casualties
  import Init
  import Pids
  import Reach
  import Verdicts

  /** The state without clocks and history. */
  datatype View = View(
    loc: seq<Loc>, free: seq<int>, ready: seq<int>, wait: map<int, seq<int>>, cursem: seq<int>,
    shelf: Shelf, fam: Family, req: seq<int>, pid: seq<int>, cur: int, count: int, soft: int, sem: map<int, int>)

  /** The shipped build, with the clock's semaphore at 100 and one device's at 200. */
  const SHIPPED := Config(Shipped, 100, {200})

  /** All clocks stand still. */
  const NOON := Times(0, 0, 0, 0, 0)

  ghost predicate Shows(s: Sys, v: View) {
    && Inv(s) && s.cfg == SHIPPED && s.mode == Running && s.clk.led.now == 0
    && s.loc == v.loc && s.free == v.free && s.ready == v.ready && s.wait == v.wait && s.cursem == v.cursem
    && s.shelf == v.shelf && s.fam == v.fam && s.req == v.req && s.pid == v.pid
    && s.cur == v.cur && s.count == v.count && s.soft == v.soft && s.sem == v.sem
  }

  // ----- one system call -----

  lemma EnterShows(s: Sys, v: View)
    requires Shows(s, v)
    ensures Shows(Enter(s, 0), v)
  {
    hide C.Conserved, Parted, Housed, Linked, Seated, Softened, C.Enter;
    EnterInv(s, 0);
  }

  lemma ExitShows(s: Sys, v: View, flag: bool)
    requires Shows(s, v)
    ensures Shows(Exit(s, 0, flag), v)
  {
    hide C.Conserved, Parted, Housed, Linked, Seated, Softened, C.Exit;
    ExitInv(s, 0, flag);
  }

  function Next(v: View): View
    requires v.cur == NIL ==> v.ready != [] && 0 <= v.ready[0] < |v.loc|
  {
    if v.cur != NIL then v
    else v.(cur := v.ready[0], ready := v.ready[1..], loc := v.loc[v.ready[0] := Off])
  }

  lemma ElectShows(s: Sys, u: View)
    requires Shows(s, u) && (u.cur == NIL ==> u.ready != [] && 0 <= u.ready[0] < |u.loc|)
    ensures s.ready != [] ==> Proc(s, s.ready[0])
    ensures Shows(if s.cur == NIL then Scheduler(s, 0) else s, Next(u))
  {
    hide C.Conserved, Parted, Housed, Linked, Seated, Softened;
    PartitionLines(s);
    if s.cur == NIL {
      SchedulerInv(s, 0);
    }
  }

  /** A step is the body of the call, then a dispatch if the caller has blocked. */
  lemma StepShows(s: Sys, v: View, call: Call, u: View)
    requires Shows(s, v) && v.cur != NIL && (call.IoDevOp? ==> call.dev in SHIPPED.devices)
    requires Shows(Enter(s, 0), v) && Shows(Body(Enter(s, 0), call, 0), u)
    requires u.cur == NIL ==> u.ready != [] && 0 <= u.ready[0] < |u.loc|
    ensures Enabled(s, Syscall(call, NOON)) && Shows(Step(s, Syscall(call, NOON)), Next(u))
  {
    hide C.Conserved, Parted, Housed, Linked, Seated, Softened, Enter, Exit, Body, Scheduler;
    BeginSame(s, 0);
    var b := Body(Enter(s, 0), call, 0);
    ExitShows(b, u, true);
    ElectShows(Exit(b, 0, true), u);
  }

  // ----- the bodies -----

  predicate Whole(v: View) {
    && |v.fam.kids| == |v.fam.parent| == |v.fam.birth| == |v.loc| == |v.cursem| == |v.req| == |v.pid|
    && 0 <= v.cur < |v.loc| && 0 <= v.count
  }

  /** P by the running process, which blocks. */
  function Blocks(v: View, a: int): View
    requires Whole(v)
  {
    v.(wait := v.wait[a := [v.cur]], loc := v.loc[v.cur := Waiting(a)],
       shelf := Engage(v.shelf, a), cursem := v.cursem[v.cur := DescOf(Engage(v.shelf, a), a)],
       req := v.req[v.cur := 1], cur := NIL, soft := if IsDev(SHIPPED, a) then v.soft + 1 else v.soft)
  }

  /** The same, with the dispatch of the next process. */
  function Yields(v: View, a: int): View
    requires Whole(v) && v.ready != [] && 0 <= v.ready[0] < |v.loc|
  {
    Next(Blocks(v, a))
  }

  /** V that wakes q, the only waiter. */
  function Wakes(v: View, a: int, q: int): View
    requires Whole(v) && 0 <= q < |v.loc|
  {
    v.(wait := v.wait - {a}, ready := v.ready + [q], loc := v.loc[q := Ready], req := v.req[q := 0],
       shelf := Retire(v.shelf, a), sem := v.sem[a := 0])
  }

  function Creates(v: View): View
    requires Whole(v) && v.free != [] && 0 <= v.free[0] < |v.loc|
  {
    var p := v.free[0];
    v.(loc := v.loc[p := Ready], free := v.free[1..], ready := v.ready + [p], cursem := v.cursem[p := NIL],
       fam := Born(v.fam, v.cur, p), req := v.req[p := 0], count := v.count + 1,
       pid := v.pid[p := Pid(v.fam.born + 1, v.count + 1)])
  }

  /** The childless process c dies. */
  function Kills(v: View, c: int): View {
    v.(wait := Drained(v.wait, [c]), loc := SetAll(v.loc, [c], Free), free := v.free + [c],
       shelf := Vacated(v.shelf, v.wait, v.loc, v.cursem, [c]), ready := Minus(v.ready, [c]),
       fam := Orphaned(v.fam, [c]), count := v.count - 1)
  }

  /** The running process, without children, dies. */
  function Dies(v: View): (r: View)
    requires Whole(v)
    ensures |r.loc| == |v.loc| && r.cur == NIL
  {
    Kills(v, v.cur).(cur := NIL)
  }

  lemma BlockShows(x: Sys, v: View, a: int)
    requires Shows(x, v) && Whole(v) && Lines(x)
    requires Value(v.sem, a) == 0 && Line(v.wait, a) == [] && v.shelf.idle != []
    ensures Shows(Semop(x, a, -1, 0), Blocks(v, a))
  {
    hide C.Conserved, Parted, Housed, Linked, Seated, Softened, Lines;
    AcquireInv(x, a, 1, 0);
    assert [] + [v.cur] == [v.cur];
  }

  lemma WakeShows(x: Sys, v: View, a: int, q: int)
    requires Shows(x, v) && Whole(v) && Lines(x) && 0 <= q < |v.loc|
    requires Value(v.sem, a) == 0 && a in v.wait && v.wait[a] == [q] && v.req[q] == 1 && !IsDev(SHIPPED, a)
    ensures Shows(Semop(x, a, 1, 0), Wakes(v, a, q))
  {
    hide C.Conserved, Parted, Housed, Linked, Seated, Softened, Lines;
    ReleaseInv(x, a, 1);
    OneFits(q, v.req);
    SetAllOne(v.loc, q, Ready);
    SetAllOne(v.req, q, 0);
    assert [q][..1] == [q];
  }

  lemma OneFits(q: int, req: seq<int>)
    requires 0 <= q < |req| && req[q] == 1
    ensures Fits([q], req, 1) == 1 && Total([q], req) == 1
  {
    assert Fits([q][1..], req, 0) == 0;
    assert Total([q][1..], req) == 0;
  }

  lemma CreateShows(x: Sys, v: View)
    requires Shows(x, v) && Whole(v) && v.free != [] && v.count < |v.loc| && 0 <= v.free[0] < |v.loc|
    ensures Shows(Create(x), Creates(v))
  {
    hide C.Conserved, Parted, Housed, Linked, Seated, Softened, Create, Born, Pid;
    CreateInv(x);
    CreateFields(x);
    Pids.CreateNumber(x);
  }

  /** terminateProcess of a blocked childless process c, the only child of the caller. */
  lemma KillShows(x: Sys, v: View, c: int, id: int)
    requires Shows(x, v) && Whole(v) && 0 <= c < |v.loc| && id != 0
    requires v.fam.kids[v.cur] == [c] && v.fam.kids[c] == [] && v.pid[c] == id && v.loc[c].Waiting?
    ensures Shows(Terminate(x, id), Kills(v, c))
  {
    hide C.Conserved, Parted, Softened, Linked, Seated, Drained, Vacated, Orphaned, Minus, SetAll, Reaped;
    TerminateInv(x, id);
    assert Person(x.fam, x.cur) && Person(x.fam, c);
    assert ChildByPid(x.fam, x.pid, x.cur, id) == c;
    assert Post(x.fam, c) == [c];
    ReapedView(x, v, c);
  }

  /** A caller without children terminates itself. */
  lemma SuicideShows(x: Sys, v: View)
    requires Shows(x, v) && Whole(v) && v.fam.kids[v.cur] == [] && v.loc[v.cur] == Off
    ensures Shows(Terminate(x, 0), Dies(v))
  {
    hide C.Conserved, Parted, Softened, Linked, Seated, Drained, Vacated, Orphaned, Minus, SetAll, Reaped;
    TerminateInv(x, 0);
    assert Person(x.fam, x.cur);
    assert Post(x.fam, x.cur) == [x.cur];
    ReapedView(x, v, v.cur);
  }

  lemma ReapedView(x: Sys, v: View, c: int)
    requires Shows(x, v) && 0 <= c < |v.loc|
    ensures var r := Reaped(x, [c]);
      r.cfg == x.cfg && r.mode == x.mode && r.clk == x.clk && r.cursem == v.cursem && r.shelf == Kills(v, c).shelf
      && r.loc == Kills(v, c).loc && r.free == Kills(v, c).free && r.ready == Kills(v, c).ready
      && r.wait == Kills(v, c).wait && r.fam == Kills(v, c).fam && r.req == v.req
      && r.pid == v.pid && r.cur == v.cur && r.count == v.count - 1 && r.soft == v.soft && r.sem == v.sem
  {
    hide C.Conserved, Parted, Housed, Softened, Linked, Seated, Drained, Vacated, Orphaned, Minus, SetAll, DevSet,
      Deaths;
  }

  // ----- runs -----

  lemma ExecNext(s: Sys, es: seq<Event>, e: Event)
    requires Inv(s)
    ensures Exec(s, es + [e]) == Step(Exec(s, es), e)
  {
    hide Inv, Step;
    assert (es + [e])[..|es|] == es;
  }

  /** Power on, with two process descriptors, all semaphores zero, and the scheduler's first
      reading at 0. */
  ghost predicate Begins(s: Sys) { s == Reach.Started(SHIPPED, 2, map[], 0) }

  /** A run from s0, and what it has led to. */
  ghost predicate Leads(s0: Sys, es: seq<Event>, v: View) {
    && Inv(s0) && Init.Possible(s0, es)
    && Shows(Exec(s0, es), v)
  }

  lemma LeadsNext(s0: Sys, es: seq<Event>, v: View, call: Call, u: View)
    requires Leads(s0, es, v) && v.cur != NIL && (call.IoDevOp? ==> call.dev in SHIPPED.devices)
    requires u.cur == NIL ==> u.ready != [] && 0 <= u.ready[0] < |u.loc|
    requires Shows(Enter(Exec(s0, es), 0), v) && Shows(Body(Enter(Exec(s0, es), 0), call, 0), u)
    ensures Leads(s0, es + [Syscall(call, NOON)], Next(u))
  {
    hide Inv, Step, Body, Enter, Next;
    var s, e := Exec(s0, es), Syscall(call, NOON);
    StepShows(s, v, call, u);
    OneMore(s0, es, e);
  }

  /** A run goes on as long as events can happen. */
  lemma OneMore(s0: Sys, es: seq<Event>, e: Event)
    requires Inv(s0) && Init.Possible(s0, es) && Enabled(Exec(s0, es), e)
    ensures Init.Possible(s0, es + [e]) && Exec(s0, es + [e]) == Step(Exec(s0, es), e)
  {
    hide Inv, Step, Enabled;
    ExecNext(s0, es, e);
    forall i | 0 <= i < |es| + 1
      ensures Init.Happens(s0, es + [e], i)
    {
      if i < |es| {
        assert Init.Happens(s0, es, i);
        assert (es + [e])[..i] == es[..i];
      } else {
        assert (es + [e])[..i] == es;
      }
    }
  }

  /** The state in which the next handler begins its work. */
  ghost function Begun(s0: Sys, es: seq<Event>): Sys
    requires Inv(s0)
  {
    Enter(Exec(s0, es), 0)
  }

  lemma Here(s0: Sys, es: seq<Event>, v: View)
    requires Leads(s0, es, v)
    ensures Shows(Begun(s0, es), v) && Lines(Begun(s0, es))
  {
    hide Init.Possible;
    EnterShows(Exec(s0, es), v);
    PartitionLines(Begun(s0, es));
  }

  lemma LeadsCreate(s0: Sys, es: seq<Event>, v: View)
    requires Leads(s0, es, v) && Whole(v) && v.free != [] && v.count < |v.loc| && 0 <= v.free[0] < |v.loc|
    ensures Leads(s0, es + [Syscall(CreateProcess, NOON)], Creates(v))
  {
    hide C.Conserved, Partition, Housed, Linked, Seated, Softened, Init.Possible, Enter, Exec, Creates, Create;
    Here(s0, es, v);
    CreateShows(Begun(s0, es), v);
    CreatesCur(v);
    LeadsNext(s0, es, v, CreateProcess, Creates(v));
  }

  lemma CreatesCur(v: View)
    requires Whole(v) && v.free != [] && 0 <= v.free[0] < |v.loc|
    ensures Creates(v).cur == v.cur != NIL
  {
  }

  /** A P that blocks, by a user call or a device call, and the dispatch of the next process. */
  lemma LeadsBlock(s0: Sys, es: seq<Event>, v: View, a: int, call: Call)
    requires Leads(s0, es, v) && Whole(v) && (call == SemOp(a, -1) || (call == IoDevOp(a) && a == 200))
    requires Value(v.sem, a) == 0 && Line(v.wait, a) == [] && v.shelf.idle != []
    requires v.ready != [] && 0 <= v.ready[0] < |v.loc|
    ensures Leads(s0, es + [Syscall(call, NOON)], Yields(v, a))
  {
    hide C.Conserved, Partition, Housed, Linked, Seated, Softened, Init.Possible, Enter, Exec, Semop;
    Here(s0, es, v);
    BlockShows(Begun(s0, es), v, a);
    LeadsNext(s0, es, v, call, Blocks(v, a));
  }

  lemma LeadsWake(s0: Sys, es: seq<Event>, v: View, a: int, q: int)
    requires Leads(s0, es, v) && Whole(v) && 0 <= q < |v.loc|
    requires Value(v.sem, a) == 0 && a in v.wait && v.wait[a] == [q] && v.req[q] == 1 && !IsDev(SHIPPED, a)
    ensures Leads(s0, es + [Syscall(SemOp(a, 1), NOON)], Wakes(v, a, q))
  {
    hide C.Conserved, Partition, Housed, Linked, Seated, Softened, Init.Possible, Enter, Exec, Semop;
    Here(s0, es, v);
    WakeShows(Begun(s0, es), v, a, q);
    LeadsNext(s0, es, v, SemOp(a, 1), Wakes(v, a, q));
  }

  lemma LeadsKill(s0: Sys, es: seq<Event>, v: View, c: int, id: nat)
    requires Leads(s0, es, v) && Whole(v) && 0 <= c < |v.loc| && id != 0
    requires v.fam.kids[v.cur] == [c] && v.fam.kids[c] == [] && v.pid[c] == id && v.loc[c].Waiting?
    ensures Leads(s0, es + [Syscall(TerminateProcess(id), NOON)], Kills(v, c))
  {
    hide C.Conserved, Partition, Housed, Linked, Seated, Softened, Init.Possible, Enter, Exec, Terminate, Drained,
      Orphaned;
    Here(s0, es, v);
    KillShows(Begun(s0, es), v, c, id);
    LeadsNext(s0, es, v, TerminateProcess(id), Kills(v, c));
  }

  lemma LeadsSuicide(s0: Sys, es: seq<Event>, v: View, u: View)
    requires Leads(s0, es, v) && Whole(v) && v.fam.kids[v.cur] == [] && v.loc[v.cur] == Off
    requires u == Dies(v) && u.ready != [] && 0 <= u.ready[0] < |u.loc|
    ensures Leads(s0, es + [Syscall(TerminateProcess(0), NOON)], Next(u))
  {
    hide C.Conserved, Partition, Housed, Linked, Seated, Softened, Init.Possible, Enter, Exec, Terminate, Dies;
    Here(s0, es, v);
    SuicideShows(Begun(s0, es), v);
    LeadsNext(s0, es, v, TerminateProcess(0), u);
  }

  // ----- the states on the way: process 0 creates 1, whose identifier is 66 -----

  function Pair(loc0: Loc, loc1: Loc, ready: seq<int>, wait: map<int, seq<int>>, cursem: seq<int>, shelf: Shelf,
                req: seq<int>, cur: int, soft: int, sem: map<int, int>): View {
    View([loc0, loc1], [], ready, wait, cursem, shelf, Family([NIL, 0], [[1], []], [1, 2], 2), req, [1, 66],
         cur, 2, soft, sem)
  }

  function Alone(): View {
    View([Off, Free], [1], [], map[], [NIL, NIL], Shelf(map[], [0, 1]), Family([NIL, NIL], [[], []], [1, 0], 1),
         [0, 0], [1, 0], 0, 1, 0, map[])
  }

  lemma StartShows(s: Sys)
    requires Begins(s) && Inv(s)
    ensures Shows(s, Alone())
  {
    hide Inv, Reach.Started;
    Reach.StartedFields(SHIPPED, 2, map[], 0);
    BootFields(Reach.Boot(SHIPPED, 2, map[]));
  }

  lemma BootFields(b: Sys)
    requires b == Reach.Boot(SHIPPED, 2, map[])
    ensures b.loc[0 := Off] == [Off, Free] && b.free == [1]
    ensures b.cursem == [NIL, NIL] && b.shelf.idle == [0, 1] && b.req == [0, 0] && b.pid == [1, 0]
    ensures b.fam == Family([NIL, NIL], [[], []], [1, 0], 1)
  {
  }

  lemma Opening(s: Sys)
    requires Begins(s)
    ensures Leads(s, [], Alone())
  {
    hide Inv, Shows, Begins, Alone;
    StartInv(s);
    StartShows(s);
    NothingYet(s);
  }

  lemma StartInv(s: Sys)
    requires Begins(s)
    ensures Inv(s)
  {
    hide Inv, Reach.Started;
    Reach.StartedGood(SHIPPED, 2, map[], 0, false);
  }

  lemma NothingYet(s: Sys)
    requires Inv(s)
    ensures Exec(s, []) == s && Init.Possible(s, [])
  {
    hide Inv;
  }

  function Two(): View { Pair(Off, Ready, [1], map[], [NIL, NIL], Shelf(map[], [0, 1]), [0, 0], 0, 0, map[]) }

  lemma ToTwo()
    ensures Whole(Alone()) && Creates(Alone()) == Two()
  {
    hide BitOr;
    Pids.PidFields(2, 2);
    var u, v := Creates(Alone()), Two();
    assert u.loc == v.loc && u.free == v.free && u.ready == v.ready && u.cursem == v.cursem;
    assert u.fam.parent == v.fam.parent && u.fam.birth == v.fam.birth;
    assert u.fam.kids[0] == [1] && u.fam.kids == v.fam.kids;
    assert u.req == v.req && u.pid == v.pid;
  }

  /** 0 waits for semaphore a on the first free descriptor d, and 1 runs. */
  function Asleep0(a: int, d: int, rest: seq<int>, c1: int, sem: map<int, int>): View {
    Pair(Waiting(a), Off, [], map[a := [0]], [d, c1], Shelf(map[a := d], rest), [1, 0], 1, 0, sem)
  }

  /** P of 0 on a, while 1 is ready. */
  lemma Falls0(a: int, d: int, rest: seq<int>, c0: int, c1: int, sem: map<int, int>)
    requires !IsDev(SHIPPED, a)
    ensures var v := Pair(Off, Ready, [1], map[], [c0, c1], Shelf(map[], [d] + rest), [0, 0], 0, 0, sem);
      Whole(v) && Yields(v, a) == Asleep0(a, d, rest, c1, sem)
  {
    var v := Pair(Off, Ready, [1], map[], [c0, c1], Shelf(map[], [d] + rest), [0, 0], 0, 0, sem);
    var u := Yields(v, a);
    assert u.loc == [Waiting(a), Off] && u.ready == [] && u.cursem == [d, c1] && u.req == [1, 0];
    assert u.shelf.idle == rest;
  }

  /** V of 1 on a wakes 0. */
  function Awake0(d: int, rest: seq<int>, c1: int, sem: map<int, int>): View {
    Pair(Ready, Off, [0], map[], [d, c1], Shelf(map[], rest + [d]), [0, 0], 1, 0, sem)
  }

  lemma Wakes0(a: int, d: int, rest: seq<int>, c1: int, sem: map<int, int>)
    ensures var v := Asleep0(a, d, rest, c1, sem);
      Whole(v) && Wakes(v, a, 0) == Awake0(d, rest, c1, sem[a := 0])
  {
    var w := Wakes(Asleep0(a, d, rest, c1, sem), a, 0);
    assert w.loc == [Ready, Off] && w.ready == [0] && w.req == [0, 0] && w.wait == map[] && w.shelf.desc == map[];
  }

  /** After P of 0 and V of 1 on a, which nobody else uses. */
  lemma LeadsTurn(s0: Sys, es: seq<Event>, a: int, d: int, rest: seq<int>, c0: int, c1: int, sem: map<int, int>)
    requires !IsDev(SHIPPED, a) && Value(sem, a) == 0
    requires Leads(s0, es, Pair(Off, Ready, [1], map[], [c0, c1], Shelf(map[], [d] + rest), [0, 0], 0, 0, sem))
    ensures Leads(s0, es + [Syscall(SemOp(a, -1), NOON)] + [Syscall(SemOp(a, 1), NOON)],
                  Awake0(d, rest, c1, sem[a := 0]))
  {
    hide Leads;
    var v := Pair(Off, Ready, [1], map[], [c0, c1], Shelf(map[], [d] + rest), [0, 0], 0, 0, sem);
    Falls0(a, d, rest, c0, c1, sem);
    Wakes0(a, d, rest, c1, sem);
    LeadsBlock(s0, es, v, a, SemOp(a, -1));
    LeadsWake(s0, es + [Syscall(SemOp(a, -1), NOON)], Asleep0(a, d, rest, c1, sem), a, 0);
  }

  function Third(): View { Awake0(0, [1], NIL, map[7 := 0]) }

  /** What the scenarios share: 0 creates 1, is blocked, and is woken by it. */
  function Prelude(): seq<Event> {
    [] + [Syscall(CreateProcess, NOON)] + [Syscall(SemOp(7, -1), NOON)] + [Syscall(SemOp(7, 1), NOON)]
  }

  lemma AfterPrelude(s0: Sys)
    requires Leads(s0, [], Alone())
    ensures Leads(s0, Prelude(), Third()) && Whole(Third())
  {
    hide Leads;
    ToTwo();
    LeadsCreate(s0, [], Alone());
    assert [0] + [1] == [0, 1] && map[][7 := 0] == map[7 := 0];
    LeadsTurn(s0, [] + [Syscall(CreateProcess, NOON)], 7, 0, [1], NIL, NIL, map[]);
  }

  // ----- a broken memory -----

  /** 1 is blocked on semaphore 7 in turn and woken by 0, which is running. */
  function Fifth(): View {
    Pair(Off, Ready, [1], map[], [0, 1], Shelf(map[], [0, 1]), [0, 0], 0, 0, map[7 := 0])
  }

  function Fourth(): View {
    Pair(Off, Waiting(7), [], map[7 := [1]], [0, 1], Shelf(map[7 := 1], [0]), [0, 1], 0, 0, map[7 := 0])
  }

  lemma ToFourth()
    ensures Whole(Third()) && Yields(Third(), 7) == Fourth()
  {
    var u := Yields(Third(), 7);
    assert u.loc == [Off, Waiting(7)] && u.ready == [] && u.cursem == [0, 1] && u.req == [0, 1];
    assert [1] + [0] == [1, 0] && u.shelf.idle == [0];
  }

  lemma ToFifth()
    ensures Whole(Fourth()) && Wakes(Fourth(), 7, 1) == Fifth()
  {
    var w := Wakes(Fourth(), 7, 1);
    assert w.loc == [Off, Ready] && w.ready == [1] && w.req == [0, 0] && w.wait == map[] && w.sem == map[7 := 0];
    assert w.shelf.desc == map[] && w.shelf.idle == [0, 1];
  }

  function FiveCalls(): seq<Event> {
    Prelude() + [Syscall(SemOp(7, -1), NOON)] + [Syscall(SemOp(7, 1), NOON)]
  }

  lemma AfterFive(s0: Sys)
    requires Leads(s0, [], Alone())
    ensures Leads(s0, FiveCalls(), Fifth()) && Whole(Fifth())
  {
    hide Leads, Prelude;
    AfterPrelude(s0);
    ToFourth();
    ToFifth();
    LeadsBlock(s0, Prelude(), Third(), 7, SemOp(7, -1));
    LeadsWake(s0, Prelude() + [Syscall(SemOp(7, -1), NOON)], Fourth(), 7, 1);
  }

  /** Terminating the ready child then breaks the lists. */
  lemma KillBreaks(x: Sys)
    requires Shows(x, Fifth())
    ensures Kin(x.fam) && Terminate(x, 66).mode == Broken
  {
    hide C.Conserved, Parted, Softened, Linked, Seated, Reaped;
    var f := x.fam;
    assert f.kids[0] == [1] && f.kids[0][0] == 1 && Person(f, 0) && Person(f, 1);
    assert ChildByPid(f, x.pid, 0, 66) == 1;
    assert 1 in Post(f, 1);
  }

  function BreakingCalls(): seq<Event> { FiveCalls() + [Syscall(TerminateProcess(66), NOON)] }

  lemma AfterBreaking(s0: Sys)
    requires Leads(s0, [], Alone())
    ensures Inv(s0) && Init.Possible(s0, BreakingCalls()) && Exec(s0, BreakingCalls()).mode == Broken
  {
    hide C.Conserved, Partition, Housed, Linked, Seated, Softened, Init.Possible, Exec, Enter, FiveCalls,
      Terminate, Clean;
    AfterFive(s0);
    Here(s0, FiveCalls(), Fifth());
    var s, e := Exec(s0, FiveCalls()), Syscall(TerminateProcess(66), NOON);
    OneMore(s0, FiveCalls(), e);
    KillBreaks(Begun(s0, FiveCalls()));
    BeginSame(s, 0);
    Verdicts.BodyTerminate(Begin(s, e), 66, 0);
    Verdicts.LeaveMode(Work(Begin(s, e), e), e);
  }

  /** From power on: 0 and 1 have each been woken once, and 0 terminates its ready child. The code,
      run on the memory of the machine, leaves one that represents no state. */
  method BrokenMemory(ghost s0: Sys) returns (k: Kernel)
    requires Begins(s0)
    ensures Inv(s0) && Init.Possible(s0, BreakingCalls()) && |BreakingCalls()| == 6
    ensures !Meaningful(k.Img())
  {
    hide Rep, Inv, Exec, Init.Possible, Reach.Started, Reach.Sane, Reach.Good, Meaningful;
    Opening(s0);
    AfterBreaking(s0);
    var ok;
    k, ok := Init.Run(SHIPPED, 2, map[], 0, BreakingCalls(), false);
  }

  // ----- a lost descriptor -----

  /** 0 is blocked and woken once more, so that the old descriptor of 1, which is running, is
      free and not the last free one. */
  function Seventh(): View { Awake0(0, [1], 1, map[7 := 0, 8 := 0]) }

  function SevenCalls(): seq<Event> {
    FiveCalls() + [Syscall(SemOp(8, -1), NOON)] + [Syscall(SemOp(8, 1), NOON)]
  }

  lemma AfterSeven(s0: Sys)
    requires Leads(s0, [], Alone())
    ensures Leads(s0, SevenCalls(), Seventh()) && Whole(Seventh())
  {
    hide Leads, FiveCalls;
    AfterFive(s0);
    assert [0] + [1] == [0, 1] && map[7 := 0][8 := 0] == map[7 := 0, 8 := 0];
    LeadsTurn(s0, FiveCalls(), 8, 0, [1], 0, 1, map[7 := 0]);
  }

  /** 1 terminates itself: of the free descriptors 1 and 0 only 1 is left. */
  function Eighth(): View {
    View([Off, Free], [1], [], map[], [0, 1], Shelf(map[], [1]), Family([NIL, NIL], [[], []], [1, 2], 2),
         [0, 0], [1, 66], 0, 1, 0, map[7 := 0, 8 := 0])
  }

  lemma ToEighth()
    ensures Dies(Seventh()).ready == [0] && Next(Dies(Seventh())) == Eighth()
  {
    hide Vacated;
    assert Minus([0], [1]) == [0] by { assert [0][1..] == []; }
    assert Minus([1], [1]) == [] by { assert [1][1..] == []; }
    LostOne(Seventh());
    var w, v := Next(Dies(Seventh())), Eighth();
    assert w.loc == v.loc && w.free == v.free && w.ready == v.ready && w.wait == v.wait;
    assert w.fam.parent == v.fam.parent && w.fam.kids[0] == [] && w.fam.kids == v.fam.kids;
  }

  lemma LostOne(v: View)
    requires v == Seventh()
    ensures Vacated(v.shelf, v.wait, v.loc, v.cursem, [1]) == Shelf(map[], [1])
  {
    assert [1] + [0] == [1, 0] && [1][..0] == [];
    assert Enqueued([1, 0], 1) == [1];
  }

  /** 0 creates a child again. */
  function Ninth(): View {
    View([Off, Ready], [], [1], map[], [0, NIL], Shelf(map[], [1]), Family([NIL, 0], [[1], []], [1, 3], 3),
         [0, 0], [1, 98], 0, 2, 0, map[7 := 0, 8 := 0])
  }

  lemma ToNinth()
    ensures Whole(Eighth()) && Creates(Eighth()) == Ninth()
  {
    hide BitOr;
    Pids.PidFields(3, 2);
    var u, v := Creates(Eighth()), Ninth();
    assert u.loc == v.loc && u.free == v.free && u.ready == v.ready && u.cursem == v.cursem;
    assert u.fam.parent == v.fam.parent && u.fam.birth == v.fam.birth;
    assert u.fam.kids[0] == [1] && u.fam.kids == v.fam.kids;
    assert u.req == v.req && u.pid == v.pid;
  }

  /** 0 waits for semaphore 9 on the last descriptor, and its child runs. */
  function Tenth(): View {
    View([Waiting(9), Off], [], [], map[9 := [0]], [1, NIL], Shelf(map[9 := 1], []),
         Family([NIL, 0], [[1], []], [1, 3], 3), [1, 0], [1, 98], 1, 2, 0, map[7 := 0, 8 := 0])
  }

  lemma ToTenth()
    ensures Whole(Ninth()) && Yields(Ninth(), 9) == Tenth()
  {
    var u := Yields(Ninth(), 9);
    assert u.loc == [Waiting(9), Off] && u.ready == [] && u.cursem == [1, NIL] && u.req == [1, 0];
    assert u.shelf.idle == [];
  }

  function TenCalls(): seq<Event> {
    SevenCalls() + [Syscall(TerminateProcess(0), NOON)] + [Syscall(CreateProcess, NOON)]
      + [Syscall(SemOp(9, -1), NOON)]
  }

  lemma AfterTen(s0: Sys)
    requires Leads(s0, [], Alone())
    ensures Leads(s0, TenCalls(), Tenth())
  {
    hide Leads, SevenCalls, Dies;
    AfterSeven(s0);
    ToEighth();
    ToNinth();
    ToTenth();
    LeadsSuicide(s0, SevenCalls(), Seventh(), Dies(Seventh()));
    LeadsCreate(s0, SevenCalls() + [Syscall(TerminateProcess(0), NOON)], Eighth());
    LeadsBlock(s0, SevenCalls() + [Syscall(TerminateProcess(0), NOON)] + [Syscall(CreateProcess, NOON)], Ninth(), 9,
               SemOp(9, -1));
  }

  function ElevenCalls(): seq<Event> { TenCalls() + [Syscall(IoDevOp(200), NOON)] }

  lemma NoneLeft(x: Sys)
    requires Shows(x, Tenth()) && Lines(x)
    ensures Semop(x, 200, -1, 0) == x.(mode := NoSemaphore)
  {
    hide Inv;
  }

  lemma AfterEleven(s0: Sys)
    requires Leads(s0, [], Alone())
    ensures Inv(s0) && Init.Possible(s0, ElevenCalls())
    ensures var r := Exec(s0, ElevenCalls());
      r.mode == NoSemaphore && r.wait == map[9 := [0]] && r.count == 2 == |r.loc|
  {
    hide C.Conserved, Partition, Housed, Linked, Seated, Softened, Init.Possible, Exec, Enter, TenCalls, Semop;
    AfterTen(s0);
    Here(s0, TenCalls(), Tenth());
    var s, e := Exec(s0, TenCalls()), Syscall(IoDevOp(200), NOON);
    OneMore(s0, TenCalls(), e);
    NoneLeft(Begun(s0, TenCalls()));
    BeginSame(s, 0);
  }

  /** From power on, with two processes and two descriptors: the first time that a process would
      wait while another one does, the nucleus stops for want of a descriptor. */
  method DescriptorMissing(ghost s0: Sys) returns (k: Kernel)
    requires Begins(s0)
    ensures Inv(s0) && Init.Possible(s0, ElevenCalls()) && |ElevenCalls()| == 11
    ensures k.Valid() && k.mode == NoSemaphore && k.wait == map[9 := [0]] && k.count == 2 == |k.loc|
  {
    hide Rep, Inv, Exec, Init.Possible, Reach.Started, Reach.Sane, Reach.Good, Meaningful;
    Opening(s0);
    AfterEleven(s0);
    var ok;
    k, ok := Init.Run(SHIPPED, 2, map[], 0, ElevenCalls(), false);
  }

  // ----- a deadlock taken for a wait -----

  /** After the prelude 1 waits for the device, and 0 terminates it. */
  function OnDevice(): View {
    Pair(Off, Waiting(200), [], map[200 := [1]], [0, 1], Shelf(map[200 := 1], [0]), [0, 1], 0, 1, map[7 := 0])
  }

  function Bereft(): View {
    View([Off, Free], [1], [], map[], [0, 1], Shelf(map[], [0, 1]), Family([NIL, NIL], [[], []], [1, 2], 2),
         [0, 1], [1, 66], 0, 1, 1, map[7 := 0])
  }

  lemma ToOnDevice()
    ensures Whole(Third()) && Yields(Third(), 200) == OnDevice()
  {
    var u := Yields(Third(), 200);
    assert u.loc == [Off, Waiting(200)] && u.ready == [] && u.cursem == [0, 1] && u.req == [0, 1];
    assert [1] + [0] == [1, 0] && u.shelf.idle == [0];
  }

  lemma ToBereft()
    ensures Whole(OnDevice()) && Kills(OnDevice(), 1) == Bereft()
  {
    hide Vacated;
    var w, v := Kills(OnDevice(), 1), Bereft();
    assert Minus([1], [1]) == [] by { assert [1][1..] == []; }
    assert w.shelf == v.shelf by { ShelfOfKilled(OnDevice()); }
    assert w.loc == v.loc && w.free == v.free && w.ready == v.ready && w.wait == v.wait;
    assert w.fam.parent == v.fam.parent && w.fam.kids[0] == [] && w.fam.kids == v.fam.kids;
  }

  lemma ShelfOfKilled(v: View)
    requires v == OnDevice()
    ensures Vacated(v.shelf, v.wait, v.loc, v.cursem, [1]) == Shelf(map[], [0, 1])
  {
    assert [1][..0] == [];
    assert Minus([1], []) == [1] by { MinusNothing([1], []); }
    assert Minus([1], [1]) == [] by { assert [1][1..] == []; }
    assert Drained(v.wait, []) == v.wait;
    assert map[200 := 1] - {200} == map[];
  }

  function BereftCalls(): seq<Event> {
    Prelude() + [Syscall(IoDevOp(200), NOON)] + [Syscall(TerminateProcess(66), NOON)]
  }

  lemma AfterBereft(s0: Sys)
    requires Leads(s0, [], Alone())
    ensures Leads(s0, BereftCalls(), Bereft()) && Whole(Bereft())
  {
    hide Leads, Prelude, Kills;
    AfterPrelude(s0);
    ToOnDevice();
    ToBereft();
    LeadsBlock(s0, Prelude(), Third(), 200, IoDevOp(200));
    LeadsKill(s0, Prelude() + [Syscall(IoDevOp(200), NOON)], OnDevice(), 1, 66);
  }

  lemma StuckView(s: Sys, v: View)
    requires Shows(s, v) && v == Blocks(Bereft(), 9)
    ensures s.ready == [] && s.cur == NIL
    ensures var r := Scheduler(s, 0); r.mode == Idling && Verdicts.Stuck(r) && Casualties.Excess(r) == 1
  {
    hide C.Conserved, Parted, Housed, Linked, Seated, Softened, C.Exit;
    assert v.loc == [Waiting(9), Free];
    var r := Scheduler(s, 0);
    assert Verdicts.Alive(r, 0);
    assert DevSet(r.cfg, r.loc) == {};
  }

  /** From power on: process 0 terminates its child, which waits for a device, and then waits for
      a token that nobody will ever put. Every live process is blocked for good, but the scheduler
      waits for an interrupt, because g_soft_block_count is still 1. */
  lemma DeadlockMissed(s0: Sys)
    requires Begins(s0)
    ensures Inv(s0) && Init.Possible(s0, BereftCalls())
    ensures Enabled(Exec(s0, BereftCalls()), Syscall(SemOp(9, -1), NOON))
    ensures var r := Step(Exec(s0, BereftCalls()), Syscall(SemOp(9, -1), NOON));
      r.mode == Idling && Verdicts.Stuck(r) && Casualties.Excess(r) == 1
  {
    hide C.Conserved, Partition, Housed, Linked, Seated, Softened, Init.Possible, Enter, Exit, Exec, Semop, BereftCalls,
      Bereft, Blocks, Scheduler, Verdicts.Stuck, Casualties.Excess;
    Opening(s0);
    AfterBereft(s0);
    BereftIs();
    Here(s0, BereftCalls(), Bereft());
    var s := Exec(s0, BereftCalls());
    BlockShows(Begun(s0, BereftCalls()), Bereft(), 9);
    BeginSame(s, 0);
    var b := Body(Enter(s, 0), SemOp(9, -1), 0);
    ExitShows(b, Blocks(Bereft(), 9), true);
    StuckView(Exit(b, 0, true), Blocks(Bereft(), 9));
  }

  lemma BereftIs()
    ensures Bereft().cur == 0 && Value(Bereft().sem, 9) == 0 && Line(Bereft().wait, 9) == []
    ensures Bereft().shelf.idle != []
  {
  }
}
