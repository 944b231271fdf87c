/** What a timer interrupt does: src/interrupt.c 32-57. */
module Ticks {
  import opened Lists
  import opened Nucleus
  import opened Invariant
  import opened Runs
  import opened Semaphores
  import opened Slices
  import C = Clock
  import Deadline
  import Effects

  // ----- the tick on any state -----

  /** The weights of the V's on semaphore a, in order. */
  function Weights(log: seq<SemEvent>, a: int): seq<int> {
    if log == [] then []
    else
      var e := log[|log| - 1];
      Weights(log[..|log| - 1], a) + (if e.Put? && e.sem == a then [e.weight] else [])
  }

  /** n, n - 1, ..., 1 */
  function Down(n: int): seq<int> { if n <= 0 then [] else [n] + Down(n - 1) }

  lemma {:induction false} WeightsNone(log: seq<SemEvent>, more: seq<SemEvent>, a: int)
    requires forall i :: 0 <= i < |more| ==> !more[i].Put?
    ensures Weights(log + more, a) == Weights(log, a)
    decreases |more|
  {
    if more == [] {
      assert log + more == log;
    } else {
      var l := log + more;
      assert l[..|l| - 1] == log + more[..|more| - 1];
      WeightsNone(log, more[..|more| - 1], a);
    }
  }

  lemma WeightsPut(log: seq<SemEvent>, a: int, w: int)
    ensures Weights(log + [Put(a, w)], a) == Weights(log, a) + [w]
  {
    assert (log + [Put(a, w)])[..|log|] == log;
  }

  lemma ReleaseWeight(s: Sys, a: int, w: int)
    requires Sized(s) && Lines(s)
    ensures Weights(Release(s, a, w).log, a) == Weights(s.log, a) + [w]
  {
    hide Release, Fits, Lines, Weights;
    ReleaseEffect(s, a, w);
    LineInRange(s, a);
    WeightsPut(s.log, a, w);
    WeightsNone(s.log + [Put(a, w)], Meets(a, Queue(s, a)[..Fits(Queue(s, a), s.req, w + Val(s, a))], s.req), a);
  }

  lemma LineInRange(s: Sys, a: int)
    requires Sized(s) && Lines(s)
    ensures forall i :: 0 <= i < |Queue(s, a)| ==> 0 <= Queue(s, a)[i] < |s.req|
  {
  }

  /** A tick performs the V's n, n - 1, ..., 1 on the clock's semaphore, ends with n = 0, and touches
      no other semaphore. */
  ghost predicate Ticked(s: Sys, r: Sys) {
    var a := s.cfg.clock;
    && r.ticks == 0 && Weights(r.log, a) == Weights(s.log, a) + Down(s.ticks)
    && (forall b :: b != a ==> Line(r.wait, b) == Line(s.wait, b) && Value(r.sem, b) == Value(s.sem, b))
    && r == s.(wait := r.wait, ready := r.ready, loc := r.loc, req := r.req, cursem := r.cursem, shelf := r.shelf,
               soft := r.soft, log := r.log, sem := r.sem, ticks := 0)
  }

  lemma ReleaseOthers(s: Sys, a: int, w: int)
    requires Sized(s) && Lines(s)
    ensures var r := Release(s, a, w);
      forall b :: b != a ==> Line(r.wait, b) == Line(s.wait, b) && Value(r.sem, b) == Value(s.sem, b)
  {
    hide Release, Lines;
    ReleaseEffect(s, a, w);
    var r := Release(s, a, w);
    forall b | b != a
      ensures Line(r.wait, b) == Line(s.wait, b) && Value(r.sem, b) == Value(s.sem, b)
    {
      assert Queue(r, b) == Queue(s, b) && Val(r, b) == Val(s, b);
    }
  }

  lemma {:induction false} TickTicks(s: Sys)
    requires Inv(s) && Lines(s)
    ensures Ticked(s, Tick(s))
    decreases s.ticks
  {
    hide C.Conserved, Parted, Housed, Linked, Seated, Softened, Release, Lines, Weights;
    if s.ticks > 0 {
      var a, n := s.cfg.clock, s.ticks;
      ReleaseInv(s, a, n);
      ReleaseEffect(s, a, n);
      ReleaseOthers(s, a, n);
      ReleaseWeight(s, a, n);
      LinesAfterRelease(s, a, n);
      LinesSame(Release(s, a, n), n - 1);
      TickTicks(Release(s, a, n).(ticks := n - 1));
      Assoc(Weights(s.log, a), [n], Down(n - 1));
    }
  }

  // ----- the handler on any state -----

  /** The running process has used up its slice and gives way. */
  ghost predicate Yields(s: Sys)
    requires Sized(s)
  {
    s.cur != NIL && s.clk.slice[s.cur] > C.SLICE
  }

  /** r is w, or w after the running process has gone to the end of the ready queue. */
  ghost predicate Passed(w: Sys, r: Sys, gives: bool)
    requires Sized(w) && (gives ==> w.cur != NIL)
  {
    && r.ready == w.ready + (if gives then [w.cur] else [])
    && r.loc == (if gives then w.loc[w.cur := Ready] else w.loc)
    && r.cur == (if gives then NIL else w.cur)
    && (!gives ==> r.clk == w.clk)
    && r.clk.led.base == w.clk.led.base
    && r == w.(ready := r.ready, loc := r.loc, cur := r.cur, clk := r.clk, mode := r.mode)
  }

  lemma HandleTimerParts(s: Sys, t: nat, t2: nat)
    requires Inv(s) && Lines(s)
    ensures var w := if C.TickDue(s.clk, t) then Tick(s.(clk := C.Restart(s.clk))) else s;
      Sized(w) && w.cur == s.cur && w.clk.slice == s.clk.slice && Passed(w, HandleTimer(s, t, t2), Yields(s))
  {
    hide C.Conserved, Parted, Housed, Linked, Seated, Softened, Tick, Lines;
    RestartInv(s);
    TickInv(s.(clk := C.Restart(s.clk)));
  }

  /** A tick does not look at the clocks. */
  lemma TickedClock(s: Sys, c: C.Time, r: Sys)
    requires Ticked(s.(clk := c), r)
    ensures Ticked(s, r.(clk := s.clk))
  {
    hide Weights;
  }

  /** If the clock's test fires, the countdown is 100000 again, counted from the entry of the handler,
      and the tick takes place; otherwise neither happens. Then the running process gives way if
      its slice is used up. Nothing else changes. */
  lemma TimerActs(s: Sys, t: nat, t2: nat) returns (w: Sys)
    requires Inv(s) && Lines(s)
    ensures Sized(w) && w.cur == s.cur && Passed(w, HandleTimer(s, t, t2), Yields(s))
    ensures w == if C.TickDue(s.clk, t) then Tick(s.(clk := C.Restart(s.clk))) else s
    ensures C.TickDue(s.clk, t) ==>
      Ticked(s, w.(clk := s.clk)) && w.clk.left == 100000 && w.clk.led.base == s.clk.led.now
      && w.clk == s.clk.(left := w.clk.left, led := s.clk.led.(base := w.clk.led.base))
  {
    hide C.Conserved, Parted, Housed, Linked, Seated, Softened, Tick, Lines, HandleTimer, Passed, Weights;
    HandleTimerParts(s, t, t2);
    var s0 := s.(clk := C.Restart(s.clk));
    RestartInv(s);
    TickTicks(s0);
    TickInv(s0);
    w := if C.TickDue(s.clk, t) then Tick(s0) else s;
    TickedClock(s, s0.clk, Tick(s0));
  }

  // ----- the interrupt in a run whose readings come close enough -----

  /** The clock's waiters, all of them, have been woken in order, and the surplus is left. */
  ghost predicate ClockServed(s: Sys, r: Sys, more: seq<int>) {
    var a, n := s.cfg.clock, s.ticks;
    && n >= 0 && Queue(r, a) == [] && r.ready == s.ready + Queue(s, a) + more
    && Val(r, a) == Val(s, a) + Tri(n) - |Queue(s, a)|
  }

  /** A timer interrupt, in a state whose countdown is its deadline, restarts the countdown and
      performs the tick if and only if 100000 microseconds have passed since the last tick's
      handler was entered; if user processes leave the clock's semaphore alone, all who wait for
      the clock are woken. The running process gives way if its slice is overdrawn. */
  lemma TimerInterrupt(s: Sys, e: Event)
    requires Inv(s) && Enabled(s, e) && e.Timer? && C.OnDeadline(s.clk) && Deadline.Brisk(s, e)
    ensures var w := Worked(s, e);
      var gives := s.cur != NIL && LeftOver(s, e) % C.WORD > C.SLICE;
      var more := if gives then [s.cur] else [];
      && C.OnDeadline(w.clk)
      && (if e.at.mid - s.clk.led.base >= 100000 then
            && w.ticks == 0 && w.clk.led.base == e.at.enter && (!gives ==> w.clk.left == 100000)
            && Weights(w.log, s.cfg.clock) == Weights(s.log, s.cfg.clock) + Down(s.ticks)
            && (forall b :: b != s.cfg.clock ==>
                  Line(w.wait, b) == Line(s.wait, b) && Value(w.sem, b) == Value(s.sem, b))
            && (Units(s) && Apart(s.cfg) ==> ClockServed(s, w, more))
          else
            && w.ticks == s.ticks && w.clk.led.base == s.clk.led.base && w.wait == s.wait && w.sem == s.sem
            && w.log == s.log && w.ready == s.ready + more)
      && w.cur == (if gives then NIL else s.cur)
      && w.a1 == s.a1 && w.pid == s.pid && w.fam == s.fam && w.free == s.free && w.count == s.count && w.ret == s.ret
  {
    hide Inv, Enabled, HandleTimer, Begin, Tick, Weights, C.OnDeadline, C.TickDue, ClockServed, Units;
    Effects.Sizes(s);
    BeginSame(s, e.at.enter);
    TimerEnters(s, e);
    var s1 := Begin(s, e);
    Effects.Sizes(s1);
    TimerGives(s, e);
    Deadline.TimerTicksOnTime(s, e);
    var w := TimerActs(s1, e.at.mid, e.at.mid2);
    Deadline.WorkDeadline(s1, e);
    if C.TickDue(s1.clk, e.at.mid) && Units(s) && Apart(s.cfg) {
      TimerServes(s, s1, w, e);
    }
  }

  lemma TimerEnters(s: Sys, e: Event)
    requires Inv(s) && Enabled(s, e) && e.Timer? && C.OnDeadline(s.clk) && Deadline.Brisk(s, e)
    ensures var s1 := Begin(s, e);
      && s1 == s.(clk := s1.clk) && s1.clk.led.now == e.at.enter && s1.clk.led.base == s.clk.led.base
      && Enabled(s1, e) && C.OnDeadline(s1.clk) && Deadline.Brisk(s1, e)
  {
    hide Parted, Housed, Linked, Seated, Softened, C.OnDeadline;
    BeginSame(s, e.at.enter);
    C.EnterOnDeadline(s.clk, e.at.enter, s.cur);
    Deadline.EnterBase(s.clk, e.at.enter, s.cur);
  }

  lemma TimerGives(s: Sys, e: Event)
    requires Inv(s) && Enabled(s, e) && e.Timer? && Sized(s) && Sized(Begin(s, e))
    ensures Yields(Begin(s, e)) <==> s.cur != NIL && LeftOver(s, e) % C.WORD > C.SLICE
  {
    hide Inv;
    BeginSame(s, e.at.enter);
    if s.cur != NIL {
      EnterLeaves(s, e);
      OverdrawnNow(Begin(s, e));
    }
  }

  lemma TimerServes(s: Sys, s1: Sys, w: Sys, e: Event)
    requires Inv(s1) && Lines(s1) && Sized(s1) && Sized(w) && s1 == s.(clk := s1.clk) && Units(s) && Apart(s.cfg)
    requires w == Tick(s1.(clk := C.Restart(s1.clk))) && w.cur == s1.cur
    requires Passed(w, HandleTimer(s1, e.at.mid, e.at.mid2), Yields(s1))
    ensures ClockServed(s, HandleTimer(s1, e.at.mid, e.at.mid2), if Yields(s1) then [s1.cur] else [])
  {
    hide C.Conserved, Parted, Housed, Linked, Seated, Softened, Tick, Lines, HandleTimer, UnitRequests, AllStocks, Tri;
    var s0 := s1.(clk := C.Restart(s1.clk));
    RestartInv(s1);
    TickWakesAll(s0);
  }
}
