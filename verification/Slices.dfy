/** Time slices: src/scheduler.c 14 and src/interrupt.c 48-56. */
module Slices {
  import opened Lists
  import opened Nucleus
  import opened Invariant
  import opened Runs
  import C = Clock

  /** What the slice of the running process has left when the handler of e begins. */
  function LeftOver(s: Sys, e: Event): int
    requires Sized(s) && s.cur != NIL
  {
    s.clk.led.due[s.cur] - (e.at.enter - s.clk.led.now)
  }

  lemma EnterLeaves(s: Sys, e: Event)
    requires Inv(s) && Enabled(s, e) && s.cur != NIL
    ensures Begin(s, e).cur == s.cur && Begin(s, e).clk.led.due[s.cur] == LeftOver(s, e)
  {
    hide C.Conserved, Parted, Housed, Linked, Seated, Softened;
  }

  /** p is last in the ready queue. */
  predicate Requeued(s: Sys, p: int) {
    s.ready != [] && s.ready[|s.ready| - 1] == p && Proc(s, p) && s.loc[p] == Ready
  }

  /** The state when the handler of e has done its work. */
  ghost function Worked(s: Sys, e: Event): Sys
    requires Inv(s) && Enabled(s, e)
  {
    BeginSame(s, e.at.enter);
    Work(Begin(s, e), e)
  }

  /** A timer interrupt takes the processor from the running process, which goes to the end of the
      ready queue, if and only if what is left of its slice, modulo 2^32, exceeds a full one. */
  lemma PreemptedIffOverdrawn(s: Sys, e: Event)
    requires Inv(s) && Enabled(s, e) && e.Timer? && s.cur != NIL
    ensures if LeftOver(s, e) % C.WORD > C.SLICE then Worked(s, e).cur == NIL && Requeued(Worked(s, e), s.cur)
      else Worked(s, e).cur == s.cur
    ensures LeftOver(s, e) > C.SLICE - C.WORD ==> (Worked(s, e).cur == NIL <==> LeftOver(s, e) < 0)
  {
    hide Inv, HandleTimer, Begin;
    EnterLeaves(s, e);
    var s1 := Begin(s, e);
    PartitionLines(s1) by { assert Inv(s1); InvPartition(s1); }
    OverdrawnNow(s1);
    TimerPreempts(s1, e.at.mid, e.at.mid2);
  }

  lemma InvPartition(s: Sys)
    requires Inv(s)
    ensures Partition(s)
  {
  }

  lemma TimerPreempts(s: Sys, t: nat, t2: nat)
    requires Inv(s) && Lines(s) && s.cur != NIL
    ensures var r := HandleTimer(s, t, t2);
      if s.clk.slice[s.cur] > C.SLICE then
        r.cur == NIL && Requeued(r, s.cur)
      else r.cur == s.cur
  {
    hide C.Conserved, Parted, Housed, Linked, Seated, Softened, Tick, Lines, C.Restart, C.Exit;
    RestartInv(s);
    TickInv(s.(clk := C.Restart(s.clk)));
    RestartSlices(s);
  }

  lemma OverdrawnNow(s: Sys)
    requires Inv(s) && s.cur != NIL
    ensures s.clk.slice[s.cur] > C.SLICE <==> s.clk.led.due[s.cur] % C.WORD > C.SLICE
    ensures s.clk.led.due[s.cur] > C.SLICE - C.WORD ==> (s.clk.slice[s.cur] > C.SLICE <==> s.clk.led.due[s.cur] < 0)
  {
    hide C.Conserved, Parted, Housed, Linked, Seated, Softened;
    C.OverdrawnIff(s.clk, s.cur);
  }

  lemma RestartSlices(s: Sys)
    ensures C.Restart(s.clk).slice == s.clk.slice
  {
  }
}
