/** The soft-block count against the history: src/exceptions.c 38-39, 133-134 and 152-153. */
module Casualties {
  import opened Lists
  import opened Nucleus
  import opened Invariant
  import C = Clock
  import Verdicts

  /** By how much g_soft_block_count overstates the processes blocked on devices and the clock. */
  function Excess(s: Sys): int { s.soft - |DevSet(s.cfg, s.loc)| }

  predicate IsCasualty(cfg: Config, e: SemEvent) { e.Died? && IsDev(cfg, e.sem) }

  /** How many processes were terminated while blocked on a device or the clock. */
  function Fallen(cfg: Config, log: seq<SemEvent>): nat {
    if log == [] then 0
    else Fallen(cfg, log[..|log| - 1]) + (if IsCasualty(cfg, log[|log| - 1]) then 1 else 0)
  }

  /** The shipped code never takes them off the count again, the repaired code does. */
  ghost predicate Accounted(s: Sys) {
    Excess(s) == if s.cfg.build.Shipped? then Fallen(s.cfg, s.log) else 0
  }

  lemma FallenOne(cfg: Config, log: seq<SemEvent>, e: SemEvent)
    ensures Fallen(cfg, log + [e]) == Fallen(cfg, log) + if IsCasualty(cfg, e) then 1 else 0
  {
    assert (log + [e])[..|log|] == log;
  }

  lemma {:induction false} FallenConcat(cfg: Config, log: seq<SemEvent>, more: seq<SemEvent>)
    ensures Fallen(cfg, log + more) == Fallen(cfg, log) + Fallen(cfg, more)
    decreases |more|
  {
    if more == [] {
      assert log + more == log;
    } else {
      var before, e := more[..|more| - 1], more[|more| - 1];
      FallenConcat(cfg, log, before);
      assert (log + before) + [e] == log + more;
      FallenOne(cfg, log + before, e);
    }
  }

  lemma {:induction false} NoneFallen(cfg: Config, log: seq<SemEvent>)
    requires forall i :: 0 <= i < |log| ==> !IsCasualty(cfg, log[i])
    ensures Fallen(cfg, log) == 0
    decreases |log|
  {
    if log != [] {
      NoneFallen(cfg, log[..|log| - 1]);
    }
  }

  // ----- V and P -----

  lemma WakeExcess(s: Sys, a: int, k: nat)
    requires Sized(s) && Partition(s) && Lines(s) && k <= |Queue(s, a)|
    ensures Excess(Wake(s, a, k)) == Excess(s)
  {
    var r, q := Wake(s, a, k), Queue(s, a);
    var vs := q[..k];
    assert forall v :: v in vs ==> v in q;
    if IsDev(s.cfg, a) && a in s.wait {
      PrefixNoDup(q, k);
      ElemsSize(vs);
      assert DevSet(r.cfg, r.loc) == DevSet(s.cfg, s.loc) - Elems(vs);
      assert Elems(vs) <= DevSet(s.cfg, s.loc);
    } else {
      assert DevSet(r.cfg, r.loc) == DevSet(s.cfg, s.loc);
    }
  }

  lemma ReleaseExcess(s: Sys, a: int, w: int)
    requires Sized(s) && Partition(s) && Lines(s)
    ensures Excess(Release(s, a, w)) == Excess(s)
  {
    hide Fits, Total, SetAll, Parted, Lines, DevSet;
    WakeExcess(s, a, Fits(Queue(s, a), s.req, w + Val(s, a))) by { LineSizes(s, a); }
  }

  lemma LineSizes(s: Sys, a: int)
    requires Lines(s) && Sized(s)
    ensures forall i :: 0 <= i < |Queue(s, a)| ==> 0 <= Queue(s, a)[i] < |s.req|
  {
  }

  /** The events that more adds to the history are none of deaths. */
  lemma Lossless(s: Sys, r: Sys, more: seq<SemEvent>)
    requires Accounted(s) && r.cfg == s.cfg && r.log == s.log + more && Excess(r) == Excess(s)
    requires forall i :: 0 <= i < |more| ==> !more[i].Died?
    ensures Accounted(r)
  {
    hide Excess;
    NoneFallen(s.cfg, more);
    FallenConcat(s.cfg, s.log, more);
  }

  lemma ReleaseAccounted(s: Sys, a: int, w: int)
    requires Inv(s) && Lines(s) && Accounted(s)
    ensures Accounted(Release(s, a, w))
  {
    hide C.Conserved, Housed, Linked, Seated, Softened, Parted, Release, Lines, Accounted, Excess, Fits;
    ReleaseExcess(s, a, w);
    ReleaseEffect(s, a, w);
    LineSizes(s, a);
    var met := Meets(a, Queue(s, a)[..Fits(Queue(s, a), s.req, w + Val(s, a))], s.req);
    Assoc(s.log, [Put(a, w)], met);
    Lossless(s, Release(s, a, w), [Put(a, w)] + met);
  }

  lemma AcquireAccounted(s: Sys, a: int, r: int, t: nat)
    requires Inv(s) && s.cur != NIL && Accounted(s)
    ensures Accounted(Acquire(s, a, r, t))
  {
    hide C.Conserved, Housed, Linked, Seated, Softened, Parted, Accounted, Acquire;
    CurOff(s);
    AcquireExcess(s, a, r, t);
    Lossless(s, Acquire(s, a, r, t), Acquire(s, a, r, t).log[|s.log|..]);
  }

  lemma AcquireExcess(s: Sys, a: int, r: int, t: nat)
    requires Sized(s) && s.cur != NIL && s.loc[s.cur] == Off
    ensures var x := Acquire(s, a, r, t);
      Excess(x) == Excess(s) && x.cfg == s.cfg && |x.log| >= |s.log| && x.log == s.log + x.log[|s.log|..]
      && forall i :: 0 <= i < |x.log[|s.log|..]| ==> !x.log[|s.log|..][i].Died?
  {
    hide C.Exit, DevSet;
    DevSetUpdate(s.cfg, s.loc, s.cur, Waiting(a));
  }

  // ----- terminations -----

  /** The first of vs adds itself, if it is blocked on a device. */
  lemma OneMoreDevice(d: set<int>, vs: seq<int>)
    requires NoDup(vs) && vs != []
    ensures |d * Elems(vs)| == |d * Elems(vs[1..])| + if vs[0] in d then 1 else 0
  {
    var v, rest := vs[0], vs[1..];
    assert v !in rest;
    assert Elems(vs) == {v} + Elems(rest);
    if v in d {
      assert d * Elems(vs) == {v} + d * Elems(rest);
    } else {
      assert d * Elems(vs) == d * Elems(rest);
    }
  }

  lemma FirstDeath(cfg: Config, loc: seq<Loc>, vs: seq<int>)
    requires vs != []
    ensures Fallen(cfg, Deaths(loc, vs)) ==
      Fallen(cfg, Deaths(loc, vs[1..])) + if vs[0] in DevSet(cfg, loc) then 1 else 0
  {
    var v, rest := vs[0], Deaths(loc, vs[1..]);
    if 0 <= v < |loc| && loc[v].Waiting? {
      var h := Died(loc[v].sem, v);
      FallenConcat(cfg, [h], rest);
      FallenOne(cfg, [], h);
      assert [] + [h] == [h];
    } else {
      assert [] + rest == rest;
    }
  }

  lemma {:induction false} DeathsFallen(cfg: Config, loc: seq<Loc>, vs: seq<int>)
    requires NoDup(vs)
    ensures Fallen(cfg, Deaths(loc, vs)) == |DevSet(cfg, loc) * Elems(vs)|
  {
    if vs == [] {
      assert DevSet(cfg, loc) * Elems(vs) == {};
    } else {
      hide DevSet, Elems, Fallen, Deaths;
      DeathsFallen(cfg, loc, vs[1..]);
      FirstDeath(cfg, loc, vs);
      OneMoreDevice(DevSet(cfg, loc), vs);
    }
  }

  /** Because isDev is asked about the wrong address, each blocked process that the shipped code
      terminates adds its share to the excess; the repaired code adds nothing. */
  lemma ExcessGrows(s: Sys, vs: seq<int>)
    requires Sized(s)
    ensures Excess(Reaped(s, vs)) ==
      Excess(s) + if s.cfg.build.Shipped? then |DevSet(s.cfg, s.loc) * Elems(vs)| else 0
  {
    var d := DevSet(s.cfg, s.loc);
    assert DevSet(s.cfg, SetAll(s.loc, vs, Free)) == d - Elems(vs);
    assert d == d - Elems(vs) + d * Elems(vs);
    assert |d| == |d - Elems(vs)| + |d * Elems(vs)|;
  }

  lemma ReapedAccounted(s: Sys, vs: seq<int>)
    requires Sized(s) && Accounted(s) && NoDup(vs)
    ensures Accounted(Reaped(s, vs))
  {
    hide DevSet, Deaths, SetAll, Minus, Drained, Orphaned;
    ExcessGrows(s, vs);
    DeathsFallen(s.cfg, s.loc, vs);
    FallenConcat(s.cfg, s.log, Deaths(s.loc, vs));
  }

  // ----- the rest -----

  /** A process that is not blocked moves among the unblocked. */
  lemma MovedAccounted(s: Sys, r: Sys, p: int, x: Loc)
    requires Accounted(s) && 0 <= p < |s.loc| && !s.loc[p].Waiting? && !x.Waiting?
    requires r.loc == s.loc[p := x] && r.soft == s.soft && r.cfg == s.cfg && r.log == s.log
    ensures Accounted(r)
  {
    DevSetUpdate(s.cfg, s.loc, p, x);
  }

  /** A deadlock is then taken for a wait: the scheduler stops with PANIC exactly when the
      system is stuck and nothing has been left in the count. */
  lemma DeadlockMissedIff(s: Sys, t: nat)
    requires Inv(s) && s.cur == NIL && s.ready == [] && Verdicts.Stuck(s)
    ensures Scheduler(s, t).mode == Deadlock <==> Excess(s) == 0
  {
    hide C.Conserved, Parted, Housed, Linked, Seated;
    Verdicts.SchedulerVerdict(s, t);
    Verdicts.DevSetEmpty(s.cfg, s.loc);
    forall p | 0 <= p < |s.loc| && s.loc[p].Waiting?
      ensures !IsDev(s.cfg, s.loc[p].sem)
    {
      assert Verdicts.Alive(s, p);
    }
  }
}
