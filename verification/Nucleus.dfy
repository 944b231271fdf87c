/** The nucleus as a transition system on values: the state of src/exceptions.c,
    src/interrupt.c and src/scheduler.c over queues, a map of waiting lines and a process
    forest. The imperative modules are proved to compute these functions. */
module Nucleus {
  import opened Lists
  import opened Forest
  import opened Shelves
  import C = Clock

  /** Shipped is the code as written. Repaired clears p_cursem at wake-up, passes the
      semaphore address to isDev at termination and tests g_current_process for null
      in handleTimer. */
  datatype Build = Shipped | Repaired

  /** clock is the address of g_pc_timer_s, devices those of g_dev_s. */
  datatype Config = Config(build: Build, clock: int, devices: set<int>)

  /** Where the p_list link of a process is threaded. */
  datatype Loc = Free | Ready | Waiting(sem: int) | Off

  /** Running and Idling are live; Astray means that the code followed a null pointer, Broken that
      it has enqueued a process that was on another queue, after which the lists mean nothing. */
  datatype Mode = Running | Idling | Halted | Deadlock | NoSemaphore | BadWeight | Astray | Broken

  /** History of the semaphores: tokens put, requests made, requests met, waiters killed. */
  datatype SemEvent =
    | Put(sem: int, weight: int)
    | Asked(sem: int, proc: int, request: int)
    | Met(sem: int, proc: int, request: int)
    | Died(sem: int, proc: int)

  /** ticks is g_pseudoClockBlk, ret the a1 register of the system call's old area;
      cursem is p_cursem, an index into the table of semaphore descriptors; log and issued are
      history. */
  datatype Sys = Sys(
    cfg: Config, mode: Mode,
    loc: seq<Loc>, free: seq<int>, ready: seq<int>, wait: map<int, seq<int>>, cursem: seq<int>, shelf: Shelf,
    fam: Family, req: seq<int>, pid: seq<int>, a1: seq<int>,
    cur: int, count: int, soft: int, ticks: int, sem: map<int, int>, ret: int,
    clk: C.Time, log: seq<SemEvent>, issued: seq<int>)

  predicate IsDev(cfg: Config, a: int) { a == cfg.clock || a in cfg.devices }

  predicate Live(s: Sys) { s.mode == Running || s.mode == Idling }

  function Line(wait: map<int, seq<int>>, a: int): seq<int> { if a in wait then wait[a] else [] }

  function Queue(s: Sys, a: int): seq<int> { Line(s.wait, a) }

  /** headBlocked */
  function Head(s: Sys, a: int): int { if a in s.wait && s.wait[a] != [] then s.wait[a][0] else NIL }

  function Value(sem: map<int, int>, a: int): int { if a in sem then sem[a] else 0 }

  function Val(s: Sys, a: int): int { Value(s.sem, a) }

  /** All columns of the process table have one entry per descriptor. */
  predicate Sized(s: Sys) {
    && |s.cursem| == |s.req| == |s.pid| == |s.a1| == |s.loc|
    && |s.fam.parent| == |s.fam.kids| == |s.fam.birth| == |s.loc|
    && |s.clk.slice| == |s.clk.glob| == |s.clk.user| == |s.loc|
    && |s.clk.led.total| == |s.clk.led.own| == |s.clk.led.due| == |s.loc|
    && NIL <= s.cur < |s.loc|
  }

  predicate Proc(s: Sys, p: int) { 0 <= p < |s.loc| }

  // ----- time -----

  function Enter(s: Sys, t: nat): (r: Sys)
    requires Sized(s)
    ensures Sized(r)
  {
    s.(clk := C.Enter(s.clk, t, s.cur))
  }

  function Exit(s: Sys, t: nat, flag: bool): (r: Sys)
    requires Sized(s)
    ensures Sized(r)
  {
    s.(clk := C.Exit(s.clk, t, flag, s.cur))
  }

  // ----- semop -----

  /** The comparison freeResources >= res_requested: the right side is unsigned, so a
      negative left side counts as a large number. */
  function Unsigned(x: int): int { if x < 0 then x + C.WORD else x }

  /** How many processes at the head of q a stock of avail tokens is made to serve. */
  function Fits(q: seq<int>, req: seq<int>, avail: int): (k: nat)
    requires forall i :: 0 <= i < |q| ==> 0 <= q[i] < |req|
    ensures k <= |q|
  {
    if q == [] || Unsigned(avail) < req[q[0]] then 0 else 1 + Fits(q[1..], req, avail - req[q[0]])
  }

  function Total(q: seq<int>, req: seq<int>): int
    requires forall i :: 0 <= i < |q| ==> 0 <= q[i] < |req|
  {
    if q == [] then 0 else req[q[0]] + Total(q[1..], req)
  }

  function Meets(a: int, q: seq<int>, req: seq<int>): (r: seq<SemEvent>)
    requires forall i :: 0 <= i < |q| ==> 0 <= q[i] < |req|
    ensures |r| == |q| && forall i :: 0 <= i < |q| ==> r[i] == Met(a, q[i], req[q[i]])
  {
    seq(|q|, i requires 0 <= i < |q| => Met(a, q[i], req[q[i]]))
  }

  predicate Lines(s: Sys) {
    forall a :: a in s.wait ==> forall i :: 0 <= i < |s.wait[a]| ==> Proc(s, s.wait[a][i])
  }

  /** The first k waiters of a move to the ready queue. */
  function Wake(s: Sys, a: int, k: nat): (r: Sys)
    requires Sized(s) && Lines(s) && k <= |Queue(s, a)|
    ensures Sized(r)
  {
    var q := Queue(s, a);
    s.(wait := if k < |q| then s.wait[a := q[k..]] else s.wait - {a},
       ready := s.ready + q[..k],
       loc := SetAll(s.loc, q[..k], Ready),
       req := SetAll(s.req, q[..k], 0),
       cursem := if s.cfg.build.Repaired? then SetAll(s.cursem, q[..k], NIL) else s.cursem,
       shelf := if 0 < k == |q| then Retire(s.shelf, a) else s.shelf,
       soft := if IsDev(s.cfg, a) then s.soft - k else s.soft,
       log := s.log + Meets(a, q[..k], s.req))
  }

  /** semop with a positive weight */
  function Release(s: Sys, a: int, w: int): (r: Sys)
    requires Sized(s) && Lines(s)
    ensures Sized(r)
  {
    var q := Queue(s, a);
    var k := Fits(q, s.req, w + Val(s, a));
    Wake(s.(log := s.log + [Put(a, w)]), a, k).(sem := s.sem[a := w + Val(s, a) - Total(q[..k], s.req)])
  }

  /** Who is woken, what is left, and what a V does not touch. */
  lemma ReleaseEffect(s: Sys, a: int, w: int)
    requires Sized(s) && Lines(s)
    ensures var q := Queue(s, a);
      var k, r := Fits(q, s.req, w + Val(s, a)), Release(s, a, w);
      && (forall b :: Queue(r, b) == if b == a then q[k..] else Queue(s, b))
      && (forall b :: Val(r, b) == if b == a then w + Val(s, a) - Total(q[..k], s.req) else Val(s, b))
      && r.ready == s.ready + q[..k]
      && r.req == SetAll(s.req, q[..k], 0)
      && r.loc == SetAll(s.loc, q[..k], Ready)
      && r.log == s.log + [Put(a, w)] + Meets(a, q[..k], s.req)
      && r == s.(wait := r.wait, ready := r.ready, loc := r.loc, req := r.req, cursem := r.cursem,
                 shelf := r.shelf, soft := r.soft, log := r.log, sem := r.sem)
  {
  }

  /** semop with the negative weight -r, by the current process */
  function Acquire(s: Sys, a: int, r: int, t: nat): (r': Sys)
    requires Sized(s) && s.cur != NIL
    ensures Sized(r')
  {
    var p := s.cur;
    if Queue(s, a) != [] || Val(s, a) - r < 0 then
      var h := Engage(s.shelf, a);
      if Queue(s, a) == [] && s.shelf.idle == [] then s.(mode := NoSemaphore)
      else s.(wait := s.wait[a := Queue(s, a) + [p]],
              loc := s.loc[p := Waiting(a)],
              cursem := s.cursem[p := DescOf(h, a)],
              shelf := h,
              req := s.req[p := r],
              clk := C.Exit(s.clk, t, true, p),
              cur := NIL,
              soft := if IsDev(s.cfg, a) then s.soft + 1 else s.soft,
              log := s.log + [Asked(a, p, r)])
    else s.(sem := s.sem[a := Val(s, a) - r], log := s.log + [Asked(a, p, r), Met(a, p, r)])
  }

  function Semop(s: Sys, a: int, w: int, t: nat): (r: Sys)
    requires Sized(s) && Lines(s) && (w < 0 ==> s.cur != NIL)
    ensures Sized(r)
  {
    if w > 0 then Release(s, a, w)
    else if w < 0 then Acquire(s, a, -w, t)
    else s.(mode := BadWeight)
  }

  /** waitClock */
  function WaitClock(s: Sys, t: nat): (r: Sys)
    requires Sized(s) && Lines(s) && s.cur != NIL
    ensures Sized(r)
  {
    var s1 := Semop(s, s.cfg.clock, -1, t);
    if Live(s1) then s1.(ticks := s1.ticks + 1) else s1
  }

  // ----- process creation -----

  /** Bitwise or. */
  function BitOr(x: nat, y: nat): nat
    decreases x
  {
    if x == 0 then y
    else if y == 0 then x
    else 2 * BitOr(x / 2, y / 2) + (if x % 2 == 1 || y % 2 == 1 then 1 else 0)
  }

  /** pid_selector: the creation number shifted left by five in 32 bits, or-ed with the
      process count. */
  function Pid(born: nat, count: nat): nat { BitOr(born * 32 % C.WORD, count) }

  /** allocPcb: the first free descriptor with all its fields zeroed. */
  function Alloc(s: Sys): (r: Sys)
    requires Sized(s) && s.free != [] && Proc(s, s.free[0])
    ensures Sized(r)
  {
    var p := s.free[0];
    s.(free := s.free[1..], loc := s.loc[p := Off], cursem := s.cursem[p := NIL],
       fam := s.fam.(parent := s.fam.parent[p := NIL], kids := s.fam.kids[p := []]),
       req := s.req[p := 0], pid := s.pid[p := 0], a1 := s.a1[p := 0], clk := C.Rebirth(s.clk, p))
  }

  /** insertChild */
  function Adopt(s: Sys, parent: int, p: int): (r: Sys)
    requires Sized(s) && Proc(s, parent) && Proc(s, p)
    ensures Sized(r)
  {
    s.(fam := s.fam.(parent := s.fam.parent[p := parent],
                     kids := s.fam.kids[parent := s.fam.kids[parent] + [p]]))
  }

  /** createProcess; an empty free list is not tested for. */
  function Create(s: Sys): (r: Sys)
    requires Sized(s) && s.cur != NIL && (s.free != [] ==> Proc(s, s.free[0]))
    ensures Sized(r)
  {
    if s.count < |s.loc| then
      if s.free == [] then s.(mode := Astray)
      else
        var p := s.free[0];
        var s1 := Alloc(s);
        var born := s.fam.born + 1;
        var id := if s.count + 1 < 0 then 0 else Pid(born, s.count + 1);
        var s2 := s1.(count := s.count + 1, pid := s1.pid[p := id], issued := s.issued + [id],
                      fam := s1.fam.(born := born, birth := s1.fam.birth[p := born]));
        var s3 := Adopt(s2, s.cur, p);
        s3.(ready := s3.ready + [p], loc := s3.loc[p := Ready], ret := id)
    else s.(ret := -1)
  }

  // ----- process termination -----

  /** The waiting lines without vs; a line that becomes empty is closed. */
  function Drained(w: map<int, seq<int>>, vs: seq<int>): map<int, seq<int>> {
    map a | a in w && Minus(w[a], vs) != [] :: Minus(w[a], vs)
  }

  function Orphaned(f: Family, vs: seq<int>): Family {
    f.(parent := SetAll(f.parent, vs, NIL),
       kids := seq(|f.kids|, p requires 0 <= p < |f.kids| => if p in vs then [] else Minus(f.kids[p], vs)))
  }

  /** The processes blocked on a device or on the pseudo-clock. */
  function DevSet(cfg: Config, loc: seq<Loc>): set<int> {
    set p | 0 <= p < |loc| && loc[p].Waiting? && IsDev(cfg, loc[p].sem)
  }

  function Elems(vs: seq<int>): set<int> { set v | v in vs }

  function Deaths(loc: seq<Loc>, vs: seq<int>): seq<SemEvent> {
    if vs == [] then []
    else (if 0 <= vs[0] < |loc| && loc[vs[0]].Waiting? then [Died(loc[vs[0]].sem, vs[0])] else [])
         + Deaths(loc, vs[1..])
  }

  /** The descriptors after v has left its line; if v is not blocked, its p_cursem may still point
      to one. */
  function VacatedBy(h: Shelf, w: map<int, seq<int>>, loc: seq<Loc>, cursem: seq<int>, v: int): Shelf {
    if !(0 <= v < |loc| && v < |cursem|) then h
    else if loc[v].Waiting? then (if Minus(Line(w, loc[v].sem), [v]) == [] then Retire(h, loc[v].sem) else h)
    else if cursem[v] != NIL then Refile(h, cursem[v])
    else h
  }

  /** The same after each of vs, in the order given. */
  function Vacated(h: Shelf, w: map<int, seq<int>>, loc: seq<Loc>, cursem: seq<int>, vs: seq<int>): Shelf
    decreases |vs|
  {
    if vs == [] then h
    else
      var us := vs[..|vs| - 1];
      VacatedBy(Vacated(h, w, loc, cursem, us), Drained(w, us), loc, cursem, vs[|vs| - 1])
  }

  /** The processes vs, each in the order given, leave whatever queue they are on, their
      parents and children, and join the free list. */
  function Reaped(s: Sys, vs: seq<int>): (r: Sys)
    requires Sized(s)
    ensures Sized(r)
  {
    s.(free := s.free + vs,
       loc := SetAll(s.loc, vs, Free),
       ready := Minus(s.ready, vs),
       wait := Drained(s.wait, vs),
       shelf := Vacated(s.shelf, s.wait, s.loc, s.cursem, vs),
       fam := Orphaned(s.fam, vs),
       count := s.count - |vs|,
       soft := if s.cfg.build.Repaired? then s.soft - |DevSet(s.cfg, s.loc) * Elems(vs)| else s.soft,
       log := s.log + Deaths(s.loc, vs))
  }

  /** Nobody in vs is on the ready queue with a p_cursem left over from an earlier wait. */
  predicate Clean(s: Sys, vs: seq<int>)
    requires Sized(s)
  {
    forall v :: v in vs && Proc(s, v) && s.loc[v] == Ready ==> s.cursem[v] == NIL
  }

  /** terminateProgeny: one that is not clean would be freed without leaving the ready queue. */
  ghost function TerminateProgeny(s: Sys, p: int): (r: Sys)
    requires Sized(s) && Kin(s.fam) && Proc(s, p)
    ensures Sized(r)
  {
    var vs := Post(s.fam, p);
    if Clean(s, vs) then Reaped(s, vs) else s.(mode := Broken)
  }

  /** childByPid: a child that is a leaf is skipped, the first one that is not is entered
      and its verdict is final. */
  ghost function ChildByPid(f: Family, pid: seq<int>, p: int, id: int): (r: int)
    requires Kin(f) && |pid| == |f.kids| && Person(f, p)
    decreases f.born - f.birth[p], |f.kids[p]| + 1
  {
    SearchChildren(f, pid, p, f.kids[p], id)
  }

  ghost function SearchChildren(f: Family, pid: seq<int>, p: int, cs: seq<int>, id: int): (r: int)
    requires Kin(f) && |pid| == |f.kids| && Person(f, p) && forall c :: c in cs ==> c in f.kids[p]
    decreases f.born - f.birth[p], |cs|
  {
    if cs == [] then NIL
    else
      var c := cs[0];
      assert c in cs && Person(f, c);
      if pid[c] == id then c
      else if f.kids[c] != [] then ChildByPid(f, pid, c, id)
      else SearchChildren(f, pid, p, cs[1..], id)
  }

  /** terminateProcess */
  ghost function Terminate(s: Sys, id: int): (r: Sys)
    requires Sized(s) && Kin(s.fam) && s.cur != NIL
    ensures Sized(r)
  {
    if id != 0 then
      var c := ChildByPid(s.fam, s.pid, s.cur, id);
      if Proc(s, c) then TerminateProgeny(s, c) else s
    else
      var s1 := TerminateProgeny(s, s.cur);
      if Live(s1) then s1.(cur := NIL) else s1
  }

  // ----- interrupts -----

  /** The loop of a pseudo-clock tick: V with weights n, n - 1, ..., 1. */
  function Tick(s: Sys): (r: Sys)
    requires Sized(s) && Lines(s)
    ensures Sized(r)
    decreases s.ticks
  {
    if s.ticks <= 0 then s
    else
      var s1 := Release(s, s.cfg.clock, s.ticks);
      LinesAfterRelease(s, s.cfg.clock, s.ticks);
      Tick(s1.(ticks := s1.ticks - 1))
  }

  lemma LinesAfterRelease(s: Sys, a: int, w: int)
    requires Sized(s) && Lines(s)
    ensures Lines(Release(s, a, w))
  {
  }

  /** The running process goes to the end of the ready queue. */
  function Preempt(s: Sys, t: nat): (r: Sys)
    requires Sized(s) && s.cur != NIL
    ensures Sized(r)
  {
    s.(clk := C.Exit(s.clk, t, true, s.cur), ready := s.ready + [s.cur], loc := s.loc[s.cur := Ready], cur := NIL)
  }

  /** handleTimer, reading the clock at t and, when the slice is used up, at t2. */
  function HandleTimer(s: Sys, t: nat, t2: nat): (r: Sys)
    requires Sized(s) && Lines(s)
    ensures Sized(r)
  {
    var s1 := if C.TickDue(s.clk, t) then Tick(s.(clk := C.Restart(s.clk))) else s;
    if s1.cur == NIL then (if s.cfg.build.Shipped? then s1.(mode := Astray) else s1)
    else if s1.clk.slice[s1.cur] > C.SLICE then Preempt(s1, t2)
    else s1
  }

  /** The semaphore tail of handleDevices. */
  function HandleDevice(s: Sys, a: int, status: int): (r: Sys)
    requires Sized(s) && Lines(s)
    ensures Sized(r)
  {
    var head := Head(s, a);
    var s1 := if Val(s, a) < 1 then Release(s, a, 1) else s;
    if head != Head(s1, a) && Proc(s, head) then s1.(a1 := s1.a1[head := status]) else s1
  }

  // ----- scheduler -----

  function Dispatch(s: Sys, t: nat): (r: Sys)
    requires Sized(s) && s.ready != [] && Proc(s, s.ready[0])
    ensures Sized(r)
  {
    var p := s.ready[0];
    s.(mode := Running, cur := p, ready := s.ready[1..], loc := s.loc[p := Off],
       clk := C.Exit(C.Grant(s.clk, p), t, false, p))
  }

  function Scheduler(s: Sys, t: nat): (r: Sys)
    requires Sized(s) && (s.ready != [] ==> Proc(s, s.ready[0]))
    ensures Sized(r)
  {
    if s.ready != [] then Dispatch(s, t)
    else if s.count <= 0 || s.count > |s.loc| then s.(mode := Halted)
    else if s.soft > 0 then Exit(s, t, false).(mode := Idling)
    else s.(mode := Deadlock)
  }
}
