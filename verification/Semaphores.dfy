/** What one semop achieves, and what the nucleus's own semaphores keep: src/exceptions.c
    119-161 and 217-252, and their callers in src/interrupt.c. */
module Semaphores {
  import opened Lists
  import opened Forest
  import opened Nucleus
  import opened Shelves
  import opened Invariant
  import opened Runs
  import C = Clock

  predicate Asks(q: seq<int>, req: seq<int>) {
    forall i :: 0 <= i < |q| ==> 0 <= q[i] < |req| && 1 <= req[q[i]]
  }

  /** k is the length of the longest prefix of q whose requests avail tokens cover. */
  ghost predicate Longest(q: seq<int>, req: seq<int>, avail: int, k: nat)
    requires Asks(q, req)
  {
    k <= |q| && forall j :: 0 < j <= |q| ==> (Total(q[..j], req) <= avail <==> j <= k)
  }

  lemma TotalFirst(q: seq<int>, req: seq<int>, j: nat)
    requires Asks(q, req) && 0 < j <= |q|
    ensures Total(q[..j], req) == req[q[0]] + Total(q[1..][..j - 1], req)
    ensures Total(q[..j], req) >= req[q[0]]
  {
    assert q[..j][1..] == q[1..][..j - 1];
    TotalPositive(q[1..][..j - 1], req);
  }

  lemma {:induction false} TotalPositive(q: seq<int>, req: seq<int>)
    requires Asks(q, req)
    ensures Total(q, req) >= |q|
  {
    if q != [] {
      TotalPositive(q[1..], req);
    }
  }

  /** The loop of semop serves exactly the longest prefix that the stock covers. */
  lemma {:induction false} FitsLongest(q: seq<int>, req: seq<int>, avail: int)
    requires Asks(q, req) && 0 <= avail
    ensures Longest(q, req, avail, Fits(q, req, avail))
    ensures Total(q[..Fits(q, req, avail)], req) <= avail
  {
    if q != [] {
      var k := Fits(q, req, avail);
      if k > 0 {
        FitsLongest(q[1..], req, avail - req[q[0]]);
        TotalFirst(q, req, k);
      }
      forall j | 0 < j <= |q|
        ensures Total(q[..j], req) <= avail <==> j <= k
      {
        TotalFirst(q, req, j);
        if k > 0 && j == 1 {
          assert q[1..][..0] == [];
        }
      }
    }
  }

  /** With a negative stock the unsigned comparison serves a waiter whom nothing covers: the
      code serves the longest covered prefix exactly when the stock is not negative or
      nobody waits. */
  lemma FitsLongestIff(q: seq<int>, req: seq<int>, avail: int)
    requires Asks(q, req) && -0x8000_0000 <= avail
    requires forall i :: 0 <= i < |q| ==> req[q[i]] < 0x8000_0000
    ensures Longest(q, req, avail, Fits(q, req, avail)) <==> avail >= 0 || q == []
  {
    if avail >= 0 {
      FitsLongest(q, req, avail);
    } else if q != [] {
      TotalFirst(q, req, 1);
      assert Fits(q, req, avail) >= 1;
    }
  }

  // ----- V -----

  lemma QueueAsks(s: Sys, a: int)
    requires Inv(s)
    ensures Asks(Queue(s, a), s.req)
  {
    assert Lines(s) by { PartitionLines(s); }
    var q := Queue(s, a);
    forall i | 0 <= i < |q|
      ensures 0 <= q[i] < |s.req| && 1 <= s.req[q[i]]
    {
      var p := q[i];
      assert p in q;
    }
  }

  /** What a C int can hold. */
  predicate InInts(q: seq<int>, req: seq<int>, avail: int)
    requires Asks(q, req)
  {
    -0x8000_0000 <= avail && forall i :: 0 <= i < |q| ==> req[q[i]] < 0x8000_0000
  }

  /** V with weight w on a semaphore of value v wakes a prefix of its line, appends it to the
      ready queue in order, leaves what is over, and touches no other semaphore. It is exactly the
      longest prefix that v + w covers if v + w is not negative; and, within the range of int,
      only then or when nobody waits. */
  lemma ReleaseWakesLongestPrefix(s: Sys, a: int, w: int) returns (k: nat)
    requires Inv(s) && Lines(s) && w > 0
    ensures var q, r := Queue(s, a), Release(s, a, w);
      && k <= |q| && Asks(q, s.req)
      && r.ready == s.ready + q[..k]
      && Queue(r, a) == q[k..]
      && Val(r, a) == Val(s, a) + w - Total(q[..k], s.req)
      && (forall b :: b != a ==> Queue(r, b) == Queue(s, b) && Val(r, b) == Val(s, b))
      && r.free == s.free && r.cur == s.cur && r.fam == s.fam
    ensures 0 <= Val(s, a) + w ==> Longest(Queue(s, a), s.req, Val(s, a) + w, k) && Val(Release(s, a, w), a) >= 0
    ensures InInts(Queue(s, a), s.req, Val(s, a) + w) ==>
      (Longest(Queue(s, a), s.req, Val(s, a) + w, k) <==> Val(s, a) + w >= 0 || Queue(s, a) == [])
  {
    hide C.Conserved, Parted, Housed, Linked, Seated, Softened, Longest, Asks, Release, Lines;
    ReleaseEffect(s, a, w);
    var q, avail := Queue(s, a), w + Val(s, a);
    QueueAsks(s, a);
    assert forall i :: 0 <= i < |q| ==> 0 <= q[i] < |s.req| by { AsksInRange(q, s.req); }
    k := Fits(q, s.req, avail);
    if 0 <= avail {
      FitsLongest(q, s.req, avail);
    }
    if InInts(q, s.req, avail) {
      FitsLongestIff(q, s.req, avail);
    }
  }

  lemma AsksInRange(q: seq<int>, req: seq<int>)
    requires Asks(q, req)
    ensures forall i :: 0 <= i < |q| ==> 0 <= q[i] < |req| && 1 <= req[q[i]]
  {
  }

  /** Nobody is waiting whom the stock would serve. */
  ghost predicate Settled(s: Sys, a: int)
    requires Sized(s)
  {
    var h := Head(s, a);
    Proc(s, h) ==> s.req[h] > Val(s, a)
  }

  lemma {:induction false} FitsStops(q: seq<int>, req: seq<int>, avail: int)
    requires Asks(q, req)
    ensures var k := Fits(q, req, avail); k < |q| ==> avail - Total(q[..k], req) < req[q[k]]
  {
    if q != [] && req[q[0]] <= Unsigned(avail) {
      FitsStops(q[1..], req, avail - req[q[0]]);
      TotalFirst(q, req, Fits(q, req, avail));
    }
  }

  /** After every V, on whatever value, the line is empty or its head asks for more than there
      is. */
  lemma ReleaseSettles(s: Sys, a: int, w: int)
    requires Inv(s) && Lines(s) && w > 0
    ensures Settled(Release(s, a, w), a)
  {
    hide C.Conserved, Parted, Housed, Linked, Seated, Softened, Release, Lines;
    var q := Queue(s, a);
    QueueAsks(s, a);
    QueueNoDup(s, a);
    ReleaseEffect(s, a, w);
    FitsStops(q, s.req, w + Val(s, a));
    var k := Fits(q, s.req, w + Val(s, a));
    if k < |q| {
      assert q[k] !in q[..k];
      assert Head(Release(s, a, w), a) == q[k] by { HeadOfQueue(Release(s, a, w), a); }
    }
  }

  lemma HeadOfQueue(s: Sys, a: int)
    ensures Head(s, a) == if Queue(s, a) == [] then NIL else Queue(s, a)[0]
  {
  }

  lemma QueueNoDup(s: Sys, a: int)
    requires Inv(s)
    ensures NoDup(Queue(s, a))
  {
  }

  lemma QueueProcs(s: Sys, a: int)
    requires Inv(s)
    ensures forall x :: x in Queue(s, a) ==> Proc(s, x) && s.loc[x] == Waiting(a)
  {
  }

  /** A P keeps the semaphore settled, whether it blocks or not. */
  lemma AcquireSettles(s: Sys, a: int, r: int, t: nat)
    requires Inv(s) && s.cur != NIL && r >= 1 && Settled(s, a)
    ensures Settled(Acquire(s, a, r, t), a)
  {
    CurOff(s);
    if Queue(s, a) != [] {
      TaggedHead(Queue(s, a), s.loc, Waiting(a));
    }
  }

  /** Process 0 runs; of its children, 1 waits on semaphore 7 for three tokens and, behind it, 2
      for one, and two tokens are there. */
  function Crowded(build: Build): Sys {
    Sys(Config(build, 100, {}), Running, [Off, Waiting(7), Waiting(7)], [], [], map[7 := [1, 2]], [NIL, 0, 0],
        Shelf(map[7 := 0], [1, 2]),
        Family([NIL, 0, 0], [[1, 2], [], []], [1, 2, 3], 3), [0, 3, 1], [1, 66, 99], [0, 0, 0],
        0, 3, 0, 0, map[7 := 2], 0,
        C.Time(0, C.TICK, 0, [0, 0, 0], [0, 0, 0], [0, 0, 0], C.Ledger(0, 0, 0, [0, 0, 0], [0, 0, 0], [0, 0, 0], 0, 0)),
        [], [1, 66, 99])
  }

  lemma CrowdedInv(s: Sys)
    requires s == Crowded(s.cfg.build)
    ensures Inv(s)
  {
    hide C.Conserved, Parted, Seated, Kin;
    CrowdedClock(s.clk);
    CrowdedParted(s.loc);
    CrowdedSeated(s.cfg.build, s.loc, s.wait, s.cursem, s.shelf);
    CrowdedKin(s.fam);
    assert DevSet(s.cfg, s.loc) == {};
  }

  lemma CrowdedClock(c: C.Time)
    requires c == C.Time(0, C.TICK, 0, [0, 0, 0], [0, 0, 0], [0, 0, 0],
                         C.Ledger(0, 0, 0, [0, 0, 0], [0, 0, 0], [0, 0, 0], 0, 0))
    ensures C.Conserved(c)
  {
    assert C.Sum([0, 0, 0]) == 0 by {
      assert [0, 0, 0][1..] == [0, 0] && [0, 0][1..] == [0] && [0][1..] == [];
    }
  }

  lemma CrowdedParted(loc: seq<Loc>)
    requires loc == [Off, Waiting(7), Waiting(7)]
    ensures Parted(loc, [], [], map[7 := [1, 2]], 0, 3)
  {
    assert Tagged([1, 2], loc, Waiting(7)) by { assert [1, 2][0] == 1 && [1, 2][1] == 2; }
  }

  lemma CrowdedSeated(build: Build, loc: seq<Loc>, wait: map<int, seq<int>>, cursem: seq<int>, shelf: Shelf)
    requires loc == [Off, Waiting(7), Waiting(7)] && wait == map[7 := [1, 2]] && cursem == [NIL, 0, 0]
    requires shelf == Shelf(map[7 := 0], [1, 2])
    ensures Seated(build, loc, wait, cursem, shelf)
  {
  }

  lemma CrowdedKin(f: Family)
    requires f == Family([NIL, 0, 0], [[1, 2], [], []], [1, 2, 3], 3)
    ensures Kin(f)
  {
    assert f.kids[0] == [1, 2] && f.kids[0][0] == 1 && f.kids[0][1] == 2;
  }

  /** Terminating the head waiter does not re-examine the line behind it: process 2 goes on
      waiting for one token while two are there. */
  lemma DeathUnsettles(s: Sys)
    requires s == Crowded(s.cfg.build)
    ensures Inv(s) && Settled(s, 7) && !Settled(Terminate(s, 66), 7)
  {
    hide Inv, Reaped, Post, ChildByPid, Kin;
    CrowdedInv(s);
    CrowdedKin(s.fam);
    CrowdedVictim(s.fam);
    CrowdedLine(s);
  }

  lemma CrowdedVictim(f: Family)
    requires f == Family([NIL, 0, 0], [[1, 2], [], []], [1, 2, 3], 3) && Kin(f)
    ensures Person(f, 0) && Person(f, 1) && ChildByPid(f, [1, 66, 99], 0, 66) == 1 && Post(f, 1) == [1]
  {
    assert f.kids[0] == [1, 2] && f.kids[1] == [];
  }

  lemma CrowdedLine(s: Sys)
    requires Sized(s) && s.wait == map[7 := [1, 2]]
    ensures var r := Reaped(s, [1]); Queue(r, 7) == [2] && r.req == s.req && r.sem == s.sem && |r.loc| == |s.loc|
  {
    assert Minus([1, 2], [1]) == [2] by {
      assert [1, 2][1..] == [2] && Minus([2], [1]) == [2] + Minus([2][1..], [1]) && [2][1..] == [];
    }
  }

  /** On a negative semaphore the unsigned comparison serves waiters whom nothing covers: with the
      value -5, a V of one token wakes both of them. */
  lemma NegativeStockWakes(s: Sys)
    requires s == Crowded(s.cfg.build).(sem := map[7 := -5])
    ensures Inv(s) && Lines(s) && Asks(Queue(s, 7), s.req) && Longest(Queue(s, 7), s.req, Val(s, 7) + 1, 0)
    ensures var r := Release(s, 7, 1); r.ready == [1, 2] && Queue(r, 7) == [] && Val(r, 7) == -8
  {
    hide Inv, Release, Total, Fits, Lines, Wake;
    CrowdedInv(s.(sem := map[7 := 2]));
    assert Inv(s) && Lines(s) by { SemFree(s, map[7 := 2]); }
    ReleaseEffect(s, 7, 1);
    CrowdedFits(s.req);
    assert [1, 2][..2] == [1, 2] && s.ready + [1, 2] == [1, 2];
  }

  lemma SemFree(s: Sys, sem: map<int, int>)
    requires Inv(s.(sem := sem))
    ensures Inv(s) && Lines(s)
  {
    hide C.Conserved, Housed, Linked, Seated, Softened;
    PartitionLines(s);
  }

  lemma CrowdedFits(req: seq<int>)
    requires req == [0, 3, 1]
    ensures Fits([1, 2], req, -4) == 2 && Total([1, 2], req) == 4
    ensures Longest([1, 2], req, -4, 0)
  {
    assert [1, 2][1..] == [2] && [2][1..] == [];
    assert Fits([2], req, -7) == 1 && Total([2], req) == 1;
    assert [1, 2][..1] == [1] && [1][1..] == [] && [1, 2][..2] == [1, 2];
    assert Total([1], req) == 3;
  }

  /** Position of the first element of q that survives the removal of vs. */
  lemma {:induction false} FirstSurvivor(q: seq<int>, vs: seq<int>) returns (j: nat)
    ensures j <= |q| && (forall i :: 0 <= i < j ==> q[i] in vs) && (j < |q| ==> q[j] !in vs)
    ensures if j == |q| then Minus(q, vs) == [] else Minus(q, vs) != [] && Minus(q, vs)[0] == q[j]
  {
    if q == [] || q[0] !in vs {
      j := 0;
    } else {
      var k := FirstSurvivor(q[1..], vs);
      j := k + 1;
    }
  }

  /** The element at position j is the first of q not in vs. */
  predicate SurvivesFirst(q: seq<int>, vs: seq<int>, j: int) {
    0 <= j < |q| && q[j] !in vs && forall i :: 0 <= i < j ==> q[i] in vs
  }

  lemma OneFirst(q: seq<int>, vs: seq<int>, j: int, l: int)
    requires SurvivesFirst(q, vs, j) && SurvivesFirst(q, vs, l)
    ensures l == j
  {
  }

  /** A semaphore stays settled exactly when the first waiter who is not about to die, if there
      is one, asks for more than the value; in particular when the head survives. */
  lemma DeathSettledIff(s: Sys, vs: seq<int>, a: int)
    requires Inv(s) && Settled(s, a)
    ensures Asks(Queue(s, a), s.req)
    ensures Settled(Reaped(s, vs), a) <==>
      forall j :: SurvivesFirst(Queue(s, a), vs, j) ==> s.req[Queue(s, a)[j]] > Val(s, a)
    ensures Head(s, a) !in vs ==> Settled(Reaped(s, vs), a)
  {
    hide C.Conserved, Parted, Housed, Linked, Seated, Softened;
    var q := Queue(s, a);
    assert Queue(Reaped(s, vs), a) == Minus(q, vs);
    QueueAsks(s, a);
    QueueProcs(s, a);
    var j := FirstSurvivor(q, vs);
    if j < |q| {
      var h := q[j];
      assert h in q && Proc(s, h);
      assert SurvivesFirst(q, vs, j);
      forall l | SurvivesFirst(q, vs, l)
        ensures l == j
      {
        OneFirst(q, vs, j, l);
      }
    }
  }

  /** No semaphore is below zero. */
  ghost predicate Solvent(sem: map<int, int>) {
    forall a :: Value(sem, a) >= 0
  }

  lemma ReleaseSolvent(s: Sys, a: int, w: int)
    requires Inv(s) && Lines(s) && w > 0 && Solvent(s.sem)
    ensures Solvent(Release(s, a, w).sem)
  {
    hide C.Conserved, Parted, Housed, Linked, Seated, Softened, Longest, Asks, Release, Lines;
    var r := Release(s, a, w);
    assert Val(s, a) >= 0;
    var k := ReleaseWakesLongestPrefix(s, a, w);
    forall b
      ensures Value(r.sem, b) >= 0
    {
      assert b != a ==> Val(r, b) == Val(s, b);
    }
  }

  lemma AcquireSolvent(s: Sys, a: int, r: int, t: nat)
    requires Sized(s) && s.cur != NIL && Solvent(s.sem)
    ensures Solvent(Acquire(s, a, r, t).sem)
  {
    hide C.Exit;
    var sem := Acquire(s, a, r, t).sem;
    forall b
      ensures Value(sem, b) >= 0
    {
      assert Value(s.sem, b) >= 0;
      assert b != a ==> Value(sem, b) == Value(s.sem, b);
    }
  }

  // ----- the nucleus's own semaphores -----

  /** The addresses of g_pc_timer_s and g_dev_s differ. */
  predicate Apart(cfg: Config) { cfg.clock !in cfg.devices }

  /** Requests on nucleus semaphores are for one token. */
  ghost predicate UnitRequests(cfg: Config, loc: seq<Loc>, req: seq<int>) {
    |req| == |loc| && forall p :: 0 <= p < |loc| && loc[p].Waiting? && IsDev(cfg, loc[p].sem) ==> req[p] == 1
  }

  /** No semaphore is negative; a nucleus semaphore on which somebody waits is 0, that of a
      device is 0 or 1. */
  ghost predicate Stock(cfg: Config, a: int, q: seq<int>, v: int) {
    && v >= 0
    && (IsDev(cfg, a) && q != [] ==> v == 0)
    && (a in cfg.devices ==> v <= 1)
  }

  ghost predicate AllStocks(cfg: Config, wait: map<int, seq<int>>, sem: map<int, int>) {
    forall a :: Stock(cfg, a, Line(wait, a), Value(sem, a))
  }

  /** Besides, no more processes wait for the clock than g_pseudoClockBlk says. */
  ghost predicate Stocks(s: Sys) {
    AllStocks(s.cfg, s.wait, s.sem) && |Queue(s, s.cfg.clock)| <= s.ticks
  }

  ghost predicate Units(s: Sys) {
    UnitRequests(s.cfg, s.loc, s.req) && Stocks(s)
  }

  predicate Ones(q: seq<int>, req: seq<int>) {
    forall i :: 0 <= i < |q| ==> 0 <= q[i] < |req| && req[q[i]] == 1
  }

  lemma {:induction false} TotalOnes(q: seq<int>, req: seq<int>)
    requires Ones(q, req)
    ensures Total(q, req) == |q|
  {
    if q != [] {
      TotalOnes(q[1..], req);
    }
  }

  lemma {:induction false} FitsOnes(q: seq<int>, req: seq<int>, avail: int)
    requires Ones(q, req) && 0 <= avail
    ensures Fits(q, req, avail) == if avail < |q| then avail else |q|
    ensures Total(q[..Fits(q, req, avail)], req) == Fits(q, req, avail)
  {
    TotalOnes(q[..Fits(q, req, avail)], req) by { FitsOnesCount(q, req, avail); }
    FitsOnesCount(q, req, avail);
  }

  lemma {:induction false} FitsOnesCount(q: seq<int>, req: seq<int>, avail: int)
    requires Ones(q, req) && 0 <= avail
    ensures Fits(q, req, avail) == if avail < |q| then avail else |q|
  {
    if q != [] && avail > 0 {
      FitsOnesCount(q[1..], req, avail - 1);
    }
  }

  lemma DevQueueOnes(s: Sys, a: int)
    requires Inv(s) && Units(s) && IsDev(s.cfg, a)
    ensures Ones(Queue(s, a), s.req)
  {
    QueueProcs(s, a);
    var q := Queue(s, a);
    forall i | 0 <= i < |q|
      ensures 0 <= q[i] < |s.req| && s.req[q[i]] == 1
    {
      var p := q[i];
      assert p in q;
    }
  }

  lemma UnitRequestsWake(s: Sys, q: seq<int>)
    requires UnitRequests(s.cfg, s.loc, s.req)
    ensures UnitRequests(s.cfg, SetAll(s.loc, q, Ready), SetAll(s.req, q, 0))
  {
  }

  /** A V by a process on a semaphore of its own. */
  lemma UserReleaseUnits(s: Sys, a: int, w: int)
    requires Inv(s) && Lines(s) && Units(s) && w > 0 && !IsDev(s.cfg, a)
    ensures Units(Release(s, a, w))
  {
    hide C.Conserved, Parted, Housed, Linked, Seated, Softened, Release, Lines, UnitRequests;
    ReleaseEffect(s, a, w);
    QueueAsks(s, a);
    var q := Queue(s, a);
    StockPositive(s, a);
    FitsLongest(q, s.req, w + Val(s, a));
    UnitRequestsWake(s, q[..Fits(q, s.req, w + Val(s, a))]);
    StocksChange(s, Release(s, a, w), a);
  }

  /** A V of weight w on a nucleus semaphore: it serves min(w + v, waiters) of them. */
  lemma DevRelease(s: Sys, a: int, w: int)
    requires Inv(s) && Lines(s) && Units(s) && w > 0 && IsDev(s.cfg, a)
    ensures var q, r := Queue(s, a), Release(s, a, w);
      var k := if w + Val(s, a) < |q| then w + Val(s, a) else |q|;
      && Queue(r, a) == q[k..] && Val(r, a) == w + Val(s, a) - k
      && r.ready == s.ready + q[..k]
      && UnitRequests(r.cfg, r.loc, r.req)
      && (forall b :: b != a ==> Queue(r, b) == Queue(s, b) && Val(r, b) == Val(s, b))
      && r.ticks == s.ticks && r.cfg == s.cfg && r.mode == s.mode && r.cur == s.cur && r.clk == s.clk
  {
    hide C.Conserved, Parted, Housed, Linked, Seated, Softened, Release, Lines, UnitRequests, Stocks;
    ReleaseEffect(s, a, w);
    DevQueueOnes(s, a);
    var q := Queue(s, a);
    assert 0 <= w + Val(s, a) by { StockPositive(s, a); }
    FitsOnes(q, s.req, w + Val(s, a));
    UnitRequestsWake(s, q[..Fits(q, s.req, w + Val(s, a))]);
  }

  lemma StockPositive(s: Sys, a: int)
    requires Stocks(s)
    ensures Val(s, a) >= 0 && Stock(s.cfg, a, Queue(s, a), Val(s, a))
  {
  }

  /** A change at a alone. */
  lemma StocksChange(s: Sys, r: Sys, a: int)
    requires AllStocks(s.cfg, s.wait, s.sem) && r.cfg == s.cfg
    requires Stock(r.cfg, a, Queue(r, a), Val(r, a))
    requires forall b :: b != a ==> Queue(r, b) == Queue(s, b) && Val(r, b) == Val(s, b)
    ensures AllStocks(r.cfg, r.wait, r.sem)
  {
    forall b
      ensures Stock(r.cfg, b, Line(r.wait, b), Value(r.sem, b))
    {
      if b != a {
        assert Queue(r, b) == Queue(s, b) && Val(r, b) == Val(s, b);
        assert Stock(s.cfg, b, Line(s.wait, b), Value(s.sem, b));
      }
    }
  }

  /** The interrupt of a device. */
  lemma DeviceReleaseUnits(s: Sys, a: int)
    requires Inv(s) && Lines(s) && Units(s) && a in s.cfg.devices && Apart(s.cfg) && Val(s, a) < 1
    ensures Units(Release(s, a, 1))
  {
    hide C.Conserved, Parted, Housed, Linked, Seated, Softened, Release, Lines, UnitRequests;
    DevRelease(s, a, 1);
    StockPositive(s, a);
    StocksChange(s, Release(s, a, 1), a);
  }

  /** One turn of the loop of a tick, when the clock's line fits into the weight. */
  lemma TickReleaseUnits(s: Sys)
    requires Inv(s) && Lines(s) && Units(s) && s.ticks > 0 && Apart(s.cfg)
    ensures var r := Release(s, s.cfg.clock, s.ticks).(ticks := s.ticks - 1); Units(r) && Queue(r, r.cfg.clock) == []
  {
    hide C.Conserved, Parted, Housed, Linked, Seated, Softened, Release, Lines, UnitRequests;
    var a := s.cfg.clock;
    DevRelease(s, a, s.ticks);
    StockPositive(s, a);
    assert Queue(s, a)[|Queue(s, a)|..] == [];
    StocksChange(s, Release(s, a, s.ticks), a);
  }

  /** A P: by a process on a semaphore of its own with any weight, or for one token. */
  lemma AcquireUnits(s: Sys, a: int, r: int, t: nat)
    requires Inv(s) && Units(s) && s.cur != NIL && r >= 1 && (IsDev(s.cfg, a) ==> r == 1)
    ensures var s' := Acquire(s, a, r, t);
      UnitRequests(s'.cfg, s'.loc, s'.req) && Stocks(s'.(ticks := if a == s.cfg.clock then s.ticks + 1 else s.ticks))
  {
    hide C.Conserved, Parted, Housed, Linked, Seated, Softened, AllStocks;
    var s' := Acquire(s, a, r, t);
    StockPositive(s, a) by { assert Stocks(s); }
    StocksChange(s, s', a);
    assert |Queue(s', a)| <= |Queue(s, a)| + 1;
  }

  lemma ReapedUnits(s: Sys, vs: seq<int>)
    requires Inv(s) && Units(s)
    ensures Units(Reaped(s, vs))
  {
    hide C.Conserved, Parted, Housed, Linked, Seated, Softened, Vacated, Orphaned, Deaths, DevSet, Minus;
    var r := Reaped(s, vs);
    MinusNothing([], vs);
    MinusShorter(Queue(s, s.cfg.clock), vs);
    forall a
      ensures Stock(r.cfg, a, Line(r.wait, a), Value(r.sem, a))
    {
      StockPositive(s, a);
      assert Queue(r, a) == Minus(Queue(s, a), vs);
      MinusShorter(Queue(s, a), vs);
    }
  }

  lemma {:induction false} MinusShorter(q: seq<int>, vs: seq<int>)
    ensures |Minus(q, vs)| <= |q|
  {
    if q != [] {
      MinusShorter(q[1..], vs);
    }
  }

  lemma CreateUnits(s: Sys)
    requires Inv(s) && Units(s) && s.cur != NIL && (s.free != [] ==> Proc(s, s.free[0]))
    ensures Units(Create(s))
  {
    hide C.Conserved, Parted, Housed, Linked, Seated, Softened;
    if s.count < |s.loc| && s.free != [] {
      CreateFields(s);
    }
  }

  // ----- the pseudo-clock tick -----

  function Tri(n: nat): nat { n * (n + 1) / 2 }

  lemma Triangle(n: int)
    requires n > 0
    ensures Tri(n) == n + Tri(n - 1)
  {
    assert n * (n + 1) == 2 * n + (n - 1) * n;
  }

  /** The first V of a tick empties the clock's line. */
  lemma FirstDeposit(s: Sys)
    requires Inv(s) && Lines(s) && Units(s) && Apart(s.cfg) && s.ticks > 0
    ensures var a, n := s.cfg.clock, s.ticks;
      var r := Release(s, a, n).(ticks := n - 1);
      && Inv(r) && Lines(r) && Units(r) && r.cfg == s.cfg
      && Queue(r, a) == [] && r.ready == s.ready + Queue(s, a)
      && Val(r, a) == Val(s, a) + n - |Queue(s, a)|
      && Tick(s) == Tick(r)
  {
    hide C.Conserved, Parted, Housed, Linked, Seated, Softened, Release, Lines, UnitRequests, AllStocks;
    var a, n := s.cfg.clock, s.ticks;
    TickReleaseUnits(s);
    DevRelease(s, a, n);
    ReleaseInv(s, a, n);
    LinesAfterRelease(s, a, n);
    LinesSame(Release(s, a, n), n - 1);
    StockPositive(s, a);
    assert Queue(s, a)[..|Queue(s, a)|] == Queue(s, a);
  }

  lemma {:induction false} TickNoWaiters(s: Sys)
    requires Inv(s) && Lines(s) && Units(s) && Apart(s.cfg) && Queue(s, s.cfg.clock) == []
    ensures var r, a := Tick(s), s.cfg.clock;
      r.ticks == 0 && Queue(r, a) == [] && r.ready == s.ready && Units(r)
      && Val(r, a) == Val(s, a) + Tri(s.ticks)
    decreases s.ticks
  {
    hide Release, Lines, Units, Tri, Tick, Partition, Housed, Linked, Seated, Softened, C.Conserved;
    if s.ticks == 0 {
      TickNone(s);
    } else {
      FirstDeposit(s);
      TickNoWaiters(Release(s, s.cfg.clock, s.ticks).(ticks := s.ticks - 1));
      Triangle(s.ticks);
    }
  }

  lemma TickNone(s: Sys)
    requires Inv(s) && Lines(s) && Units(s) && s.ticks <= 0
    ensures s.ticks == 0 && Tick(s) == s && Tri(0) == 0 && Queue(s, s.cfg.clock) == []
  {
    hide C.Conserved, Parted, Housed, Linked, Seated, Softened;
  }

  /** A tick wakes everybody who waits for the clock, first come first, and leaves the
      surplus n (n + 1) / 2 - k of its n deposits n, n - 1, ..., 1 over k waiters. */
  lemma TickWakesAll(s: Sys)
    requires Inv(s) && Lines(s) && Units(s) && Apart(s.cfg)
    ensures var r, a := Tick(s), s.cfg.clock;
      var k, n := |Queue(s, a)|, s.ticks;
      && r.ticks == 0 && Queue(r, a) == []
      && r.ready == s.ready + Queue(s, a)
      && Val(r, a) == Val(s, a) + Tri(n) - k
      && Units(r)
  {
    hide Release, Lines, Units, Tri, Tick, Partition, Housed, Linked, Seated, Softened, C.Conserved;
    if s.ticks == 0 {
      TickNone(s);
      assert s.ready + [] == s.ready;
    } else {
      FirstDeposit(s);
      TickNoWaiters(Release(s, s.cfg.clock, s.ticks).(ticks := s.ticks - 1));
      Triangle(s.ticks);
    }
  }

  // ----- device interrupts -----

  /** A device interrupt with the given status has been served: if somebody waited, the first one
      has been woken, has the status, and the value is 0; if nobody did, the value is 1. Nobody else
      has a new status and no other semaphore has changed; one token has been put, unless one was
      there already. */
  ghost predicate Serviced(s: Sys, r: Sys, a: int, status: int)
    requires Sized(s) && Sized(r)
  {
    var q := Queue(s, a);
    && (q != [] ==>
          Proc(s, q[0]) && r.a1 == s.a1[q[0] := status] && r.ready == s.ready + [q[0]] && Queue(r, a) == q[1..]
          && r.loc == s.loc[q[0] := Ready] && Val(r, a) == 0)
    && (q == [] ==> r.a1 == s.a1 && r.ready == s.ready && r.loc == s.loc && Queue(r, a) == [] && Val(r, a) == 1)
    && (forall b :: b != a ==> Queue(r, b) == Queue(s, b) && Val(r, b) == Val(s, b))
    && (Val(s, a) >= 1 ==> r == s)
    && (Val(s, a) < 1 ==> r.log == s.log + [Put(a, 1)] + if q == [] then [] else [Met(a, q[0], 1)])
    && r == s.(wait := r.wait, ready := r.ready, loc := r.loc, req := r.req, cursem := r.cursem, shelf := r.shelf,
               soft := r.soft, log := r.log, sem := r.sem, a1 := r.a1)
  }

  /** The comparison of heads before and after the V tells exactly whether somebody was
      woken; that process, the former head, receives the status and nobody else does. */
  lemma DeviceStatusToWoken(s: Sys, a: int, status: int)
    requires Inv(s) && Lines(s) && Units(s) && a in s.cfg.devices
    ensures Serviced(s, HandleDevice(s, a, status), a, status)
  {
    hide C.Conserved, Parted, Housed, Linked, Seated, Softened, Release, Lines, UnitRequests, AllStocks, Fits, Total,
      SetAll, Meets;
    var q := Queue(s, a);
    StockPositive(s, a);
    HeadOfQueue(s, a);
    if Val(s, a) < 1 {
      DeviceWakes(s, a);
      var s1 := Release(s, a, 1);
      HeadOfQueue(s1, a);
      if q != [] {
        assert |q| > 1 ==> q[0] != q[1] && Head(s1, a) == q[1];
        assert |q| == 1 ==> Head(s1, a) == NIL;
      }
    }
  }

  /** The V of a device interrupt. */
  lemma DeviceWakes(s: Sys, a: int)
    requires Inv(s) && Lines(s) && Units(s) && a in s.cfg.devices && Val(s, a) == 0
    ensures NoDup(Queue(s, a)) && (Queue(s, a) != [] ==> Proc(s, Queue(s, a)[0]))
    ensures var q, r := Queue(s, a), Release(s, a, 1);
      && (q != [] ==>
            r.ready == s.ready + [q[0]] && Queue(r, a) == q[1..] && r.loc == s.loc[q[0] := Ready] && Val(r, a) == 0)
      && (q == [] ==> r.ready == s.ready && r.loc == s.loc && Queue(r, a) == [] && Val(r, a) == 1)
      && (forall b :: b != a ==> Queue(r, b) == Queue(s, b) && Val(r, b) == Val(s, b))
      && r.log == s.log + [Put(a, 1)] + (if q == [] then [] else [Met(a, q[0], 1)])
      && r == s.(wait := r.wait, ready := r.ready, loc := r.loc, req := r.req, cursem := r.cursem, shelf := r.shelf,
                 soft := r.soft, log := r.log, sem := r.sem)
  {
    hide C.Conserved, Parted, Housed, Linked, Seated, Softened, Release, Lines, UnitRequests, AllStocks, Fits, Total;
    var q := Queue(s, a);
    ReleaseEffect(s, a, 1);
    QueueNoDup(s, a);
    DevQueueOnes(s, a);
    DevRelease(s, a, 1);
    DevFits(s, a);
    if q != [] {
      assert Proc(s, q[0]) && q[..1] == [q[0]];
      SetAllOne(s.loc, q[0], Ready);
    } else {
      assert s.ready + q[..0] == s.ready && SetAll(s.loc, q[..0], Ready) == s.loc;
    }
  }

  /** One token serves one waiter, if there is one. */
  lemma DevFits(s: Sys, a: int)
    requires Inv(s) && Lines(s) && Units(s) && IsDev(s.cfg, a) && Val(s, a) == 0
    ensures forall i :: 0 <= i < |Queue(s, a)| ==> 0 <= Queue(s, a)[i] < |s.req|
    ensures var q, met := Queue(s, a), Meets(a, Queue(s, a)[..Fits(Queue(s, a), s.req, 1)], s.req);
      Fits(q, s.req, 1) == (if q == [] then 0 else 1) && met == if q == [] then [] else [Met(a, q[0], 1)]
  {
    hide C.Conserved, Parted, Housed, Linked, Seated, Softened, Lines, UnitRequests, Stocks;
    var q := Queue(s, a);
    DevQueueOnes(s, a);
    FitsOnes(q, s.req, 1);
    if q != [] {
      assert q[..1] == [q[0]];
    }
  }
}
