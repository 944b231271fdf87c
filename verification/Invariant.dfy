/** What every step of the nucleus keeps. */
module Invariant {
  import opened Lists
  import opened Forest
  import opened Nucleus
  import opened Shelves
  import C = Clock

  /** q holds, once each, exactly the processes at location tag. */
  ghost predicate Tagged(q: seq<int>, loc: seq<Loc>, tag: Loc) {
    && NoDup(q)
    && (forall p :: p in q ==> 0 <= p < |loc| && loc[p] == tag)
    && (forall p :: 0 <= p < |loc| && loc[p] == tag ==> p in q)
  }

  /** Every process is on exactly one of the free list, the ready queue, the line of one
      semaphore, or the processor; no line is empty; g_process_count counts the rest. */
  ghost predicate Parted(loc: seq<Loc>, free: seq<int>, ready: seq<int>, wait: map<int, seq<int>>, cur: int,
      count: int) {
    && Tagged(free, loc, Free)
    && Tagged(ready, loc, Ready)
    && (forall a :: a in wait ==> wait[a] != [] && Tagged(wait[a], loc, Waiting(a)))
    && (forall p :: 0 <= p < |loc| && loc[p].Waiting? ==> loc[p].sem in wait)
    && (forall p :: 0 <= p < |loc| ==> (loc[p] == Off <==> p == cur))
    && count == |loc| - |free|
  }

  ghost predicate Partition(s: Sys) { Parted(s.loc, s.free, s.ready, s.wait, s.cur, s.count) }

  /** The forest is well formed and free descriptors are outside it. */
  ghost predicate Housed(loc: seq<Loc>, f: Family) {
    && Kin(f)
    && (forall p :: Person(f, p) && p < |loc| && loc[p] == Free ==> f.parent[p] == NIL && f.kids[p] == [])
  }

  /** Blocked processes have p_cursem set and ask for something; in the repaired build
      nobody else alive has it set. */
  ghost predicate Linked(build: Build, loc: seq<Loc>, cursem: seq<int>, req: seq<int>) {
    && |cursem| == |req| == |loc|
    && (forall p :: 0 <= p < |loc| && loc[p].Waiting? ==> cursem[p] != NIL && req[p] >= 1)
    && (build.Repaired? ==> forall p :: 0 <= p < |loc| && cursem[p] != NIL ==> loc[p].Waiting? || loc[p].Free?)
  }

  /** Each semaphore with waiters has a descriptor of its own, to which their p_cursem points; in
      the repaired build no descriptor is lost. */
  ghost predicate Seated(build: Build, loc: seq<Loc>, wait: map<int, seq<int>>, cursem: seq<int>, shelf: Shelf) {
    && Orderly(shelf, |loc|)
    && shelf.desc.Keys == wait.Keys
    && |cursem| == |loc|
    && (forall p :: 0 <= p < |loc| ==> NIL <= cursem[p] < |loc|)
    && (forall p :: 0 <= p < |loc| && loc[p].Waiting? ==>
          loc[p].sem in shelf.desc && cursem[p] == shelf.desc[loc[p].sem])
    && (build.Repaired? ==> Slots(shelf) == |loc|)
  }

  /** g_soft_block_count never understates the processes blocked on devices or the clock. */
  ghost predicate Softened(cfg: Config, loc: seq<Loc>, soft: int) {
    && soft >= |DevSet(cfg, loc)|
    && (cfg.build.Repaired? ==> soft == |DevSet(cfg, loc)|)
  }

  ghost predicate Inv(s: Sys) {
    && Sized(s)
    && Partition(s)
    && Housed(s.loc, s.fam)
    && Linked(s.cfg.build, s.loc, s.cursem, s.req)
    && Seated(s.cfg.build, s.loc, s.wait, s.cursem, s.shelf)
    && Softened(s.cfg, s.loc, s.soft)
    && C.Conserved(s.clk)
    && s.ticks >= 0
  }

  // ----- descriptors -----

  /** Somebody who was not blocked has moved among the unblocked. */
  lemma SeatedMoved(build: Build, loc: seq<Loc>, wait: map<int, seq<int>>, cursem: seq<int>, shelf: Shelf, p: int,
      x: Loc)
    requires Seated(build, loc, wait, cursem, shelf) && 0 <= p < |loc| && !x.Waiting?
    ensures Seated(build, loc[p := x], wait, cursem, shelf)
    ensures Seated(build, loc[p := x], wait, cursem[p := NIL], shelf)
  {
  }

  /** The process p joins the line of a. */
  lemma SeatedBlock(build: Build, loc: seq<Loc>, wait: map<int, seq<int>>, cursem: seq<int>, shelf: Shelf, p: int,
      a: int, q: seq<int>)
    requires Seated(build, loc, wait, cursem, shelf) && 0 <= p < |loc| && (a in wait || shelf.idle != [])
    ensures var h := Engage(shelf, a); Seated(build, loc[p := Waiting(a)], wait[a := q], cursem[p := DescOf(h, a)], h)
    ensures DescOf(Engage(shelf, a), a) != NIL
  {
    hide Engage, Orderly, Slots, DescOf;
    var h := Engage(shelf, a);
    EngageOrderly(shelf, a, |loc|);
    EngageKeeps(shelf, a, |loc|);
    assert h.desc.Keys == wait[a := q].Keys;
  }

  lemma SeatedKeys(s: Sys, a: int, k: nat)
    requires Sized(s) && Lines(s) && k <= |Queue(s, a)| && s.shelf.desc.Keys == s.wait.Keys
    requires a in s.wait ==> s.wait[a] != []
    ensures var r := Wake(s, a, k); r.shelf.desc.Keys == r.wait.Keys
  {
    hide SetAll, Meets;
  }

  lemma SeatedWake(s: Sys, a: int, k: nat)
    requires Sized(s) && Partition(s) && Lines(s) && k <= |Queue(s, a)|
    requires Seated(s.cfg.build, s.loc, s.wait, s.cursem, s.shelf)
    ensures var r := Wake(s, a, k); Seated(r.cfg.build, r.loc, r.wait, r.cursem, r.shelf)
  {
    hide Retire, Orderly, Slots;
    var r, q := Wake(s, a, k), Queue(s, a);
    RetireOrderly(s.shelf, a, |s.loc|);
    RetireKeeps(s.shelf, a);
    assert q[..|q|] == q;
    SeatedKeys(s, a, k);
    forall p | 0 <= p < |r.loc| && r.loc[p].Waiting?
      ensures r.loc[p].sem in r.shelf.desc && r.cursem[p] == r.shelf.desc[r.loc[p].sem]
    {
      assert p !in q[..k] && r.loc[p] == s.loc[p];
      assert r.loc[p].sem == a ==> p in q;
    }
  }

  // ----- moving a batch of processes -----

  lemma TagStay(q: seq<int>, loc: seq<Loc>, tag: Loc, vs: seq<int>, x: Loc)
    requires Tagged(q, loc, tag) && x != tag
    requires forall v :: v in vs ==> 0 <= v < |loc| && loc[v] != tag
    ensures Tagged(q, SetAll(loc, vs, x), tag)
  {
  }

  lemma TagOut(q: seq<int>, loc: seq<Loc>, tag: Loc, vs: seq<int>, x: Loc)
    requires Tagged(q, loc, tag) && x != tag
    ensures Tagged(Minus(q, vs), SetAll(loc, vs, x), tag)
  {
    MinusNoDup(q, vs);
  }

  lemma TagIn(q: seq<int>, loc: seq<Loc>, tag: Loc, vs: seq<int>)
    requires Tagged(q, loc, tag) && NoDup(vs)
    requires forall v :: v in vs ==> 0 <= v < |loc| && loc[v] != tag
    ensures Tagged(q + vs, SetAll(loc, vs, tag), tag)
  {
    Concat(q, vs);
  }

  lemma PartitionLines(s: Sys)
    requires Partition(s)
    ensures Lines(s)
    ensures s.free != [] ==> Proc(s, s.free[0])
    ensures s.ready != [] ==> Proc(s, s.ready[0])
  {
    forall a, i | a in s.wait && 0 <= i < |s.wait[a]|
      ensures Proc(s, s.wait[a][i])
    {
      var p := s.wait[a][i];
      assert p in s.wait[a];
    }
    if s.free != [] {
      var p := s.free[0];
      assert p in s.free;
    }
    if s.ready != [] {
      var p := s.ready[0];
      assert p in s.ready;
    }
  }

  lemma PrefixNoDup(q: seq<int>, k: nat)
    requires NoDup(q) && k <= |q|
    ensures NoDup(q[..k]) && NoDup(q[k..])
    ensures forall x :: x in q[..k] ==> x in q && x !in q[k..]
  {
  }

  // ----- semop -----

  lemma WakeLines(s: Sys, a: int, k: nat)
    requires Sized(s) && Partition(s) && Lines(s) && k <= |Queue(s, a)|
    requires a in s.wait && Tagged(Minus(s.wait[a], s.wait[a][..k]), Wake(s, a, k).loc, Waiting(a))
    ensures var r := Wake(s, a, k);
      forall b :: b in r.wait ==> r.wait[b] != [] && Tagged(r.wait[b], r.loc, Waiting(b))
  {
    var r, vs := Wake(s, a, k), s.wait[a][..k];
    MinusPrefix(s.wait[a], k);
    forall b | b in r.wait && b != a
      ensures r.wait[b] != [] && Tagged(r.wait[b], r.loc, Waiting(b))
    {
      TagStay(s.wait[b], s.loc, Waiting(b), vs, Ready);
    }
  }

  lemma WakePartition(s: Sys, a: int, k: nat)
    requires Sized(s) && Partition(s) && Lines(s) && k <= |Queue(s, a)|
    ensures Partition(Wake(s, a, k))
  {
    hide Minus;
    var r, q := Wake(s, a, k), Queue(s, a);
    var vs := q[..k];
    if a in s.wait {
      PrefixNoDup(q, k);
      assert forall v :: v in vs ==> v in q;
      TagStay(s.free, s.loc, Free, vs, Ready);
      TagIn(s.ready, s.loc, Ready, vs);
      MinusPrefix(q, k);
      TagOut(q, s.loc, Waiting(a), vs, Ready);
      WakeLines(s, a, k);
      forall p | Proc(r, p) && r.loc[p].Waiting?
        ensures r.loc[p].sem in r.wait
      {
        if s.loc[p] == Waiting(a) {
          assert p in q && p !in vs;
        }
      }
    } else {
      assert vs == [] && r.loc == s.loc && r.ready == s.ready && r.wait == s.wait;
    }
  }

  lemma ElemsSize(q: seq<int>)
    requires NoDup(q)
    ensures |Elems(q)| == |q|
  {
    if q != [] {
      var r := q[..|q| - 1];
      ElemsSize(r);
      assert q[|q| - 1] !in r;
      assert q == r + [q[|q| - 1]];
      assert Elems(q) == Elems(r) + {q[|q| - 1]};
    }
  }

  lemma WakeSofts(s: Sys, a: int, k: nat)
    requires Sized(s) && Partition(s) && Softened(s.cfg, s.loc, s.soft) && Lines(s) && k <= |Queue(s, a)|
    ensures var r := Wake(s, a, k); Softened(r.cfg, r.loc, r.soft)
  {
    var r, q := Wake(s, a, k), Queue(s, a);
    var vs := q[..k];
    assert forall v :: v in vs ==> v in q;
    if IsDev(s.cfg, a) && a in s.wait {
      PrefixNoDup(q, k);
      ElemsSize(vs);
      assert DevSet(r.cfg, r.loc) == DevSet(s.cfg, s.loc) - Elems(vs);
      assert Elems(vs) <= DevSet(s.cfg, s.loc);
    } else {
      assert DevSet(r.cfg, r.loc) == DevSet(s.cfg, s.loc);
    }
  }

  lemma WakeOther(s: Sys, a: int, k: nat)
    requires Sized(s) && Lines(s) && k <= |Queue(s, a)|
    requires Housed(s.loc, s.fam) && Linked(s.cfg.build, s.loc, s.cursem, s.req)
    ensures var r := Wake(s, a, k); Housed(r.loc, r.fam) && Linked(r.cfg.build, r.loc, r.cursem, r.req)
  {
  }

  lemma ReleaseInv(s: Sys, a: int, w: int)
    requires Inv(s) && Lines(s)
    ensures Inv(Release(s, a, w))
  {
    hide C.Conserved, Tagged, Linked, Seated, Housed, Softened, SetAll, Meets;
    var k := Fits(Queue(s, a), s.req, w + Val(s, a));
    var s1 := s.(log := s.log + [Put(a, w)]);
    WakePartition(s1, a, k);
    WakeSofts(s1, a, k);
    WakeOther(s1, a, k);
    SeatedWake(s1, a, k);
  }

  // ----- one process at a time -----

  lemma DevSetUpdate(cfg: Config, loc: seq<Loc>, p: int, x: Loc)
    requires 0 <= p < |loc| && !(loc[p].Waiting? && IsDev(cfg, loc[p].sem))
    ensures DevSet(cfg, loc[p := x]) == DevSet(cfg, loc) + (if x.Waiting? && IsDev(cfg, x.sem) then {p} else {})
    ensures p !in DevSet(cfg, loc)
  {
  }

  /** The process p leaves the processor for the end of the queue of location tag. */
  lemma PartOff(loc: seq<Loc>, free: seq<int>, ready: seq<int>, wait: map<int, seq<int>>, p: int, count: int, a: int)
    requires Parted(loc, free, ready, wait, p, count) && 0 <= p < |loc|
    ensures var q := if a in wait then wait[a] else [];
      Parted(loc[p := Waiting(a)], free, ready, wait[a := q + [p]], NIL, count)
  {
    var q := if a in wait then wait[a] else [];
    var w, loc' := wait[a := q + [p]], loc[p := Waiting(a)];
    SetAllOne(loc, p, Waiting(a));
    TagStay(free, loc, Free, [p], Waiting(a));
    TagStay(ready, loc, Ready, [p], Waiting(a));
    if a !in wait {
      assert Tagged([], loc, Waiting(a));
    }
    TagIn(q, loc, Waiting(a), [p]);
    forall b | b in w
      ensures w[b] != [] && Tagged(w[b], loc', Waiting(b))
    {
      if b != a {
        TagStay(wait[b], loc, Waiting(b), [p], Waiting(a));
      }
    }
  }

  lemma AcquireInv(s: Sys, a: int, r: int, t: nat)
    requires Inv(s) && s.cur != NIL && r >= 1 && C.Later(s.clk, t)
    ensures Inv(Acquire(s, a, r, t))
  {
    hide C.Conserved, Parted, Housed, C.Exit, Linked, Seated, DevSet;
    var p := s.cur;
    C.ExitConserves(s.clk, t, true, p);
    CurOff(s);
    if a in s.wait || s.shelf.idle != [] {
      SeatedBlock(s.cfg.build, s.loc, s.wait, s.cursem, s.shelf, p, a, Queue(s, a) + [p]);
      LinkedBlock(s.cfg.build, s.loc, s.cursem, s.req, p, a, DescOf(Engage(s.shelf, a), a), r);
    }
    assert Queue(s, a) != [] ==> a in s.wait;
    PartOff(s.loc, s.free, s.ready, s.wait, p, s.count, a);
    DevSetUpdate(s.cfg, s.loc, p, Waiting(a));
    HousedOff(s.loc, s.fam, p, Waiting(a));
  }

  lemma CurOff(s: Sys)
    requires Sized(s) && Partition(s) && s.cur != NIL
    ensures s.loc[s.cur] == Off
  {
  }

  lemma LinkedBlock(build: Build, loc: seq<Loc>, cursem: seq<int>, req: seq<int>, p: int, a: int, d: int, r: int)
    requires Linked(build, loc, cursem, req) && 0 <= p < |loc| && r >= 1 && d != NIL
    ensures Linked(build, loc[p := Waiting(a)], cursem[p := d], req[p := r])
  {
  }

  lemma HousedOff(loc: seq<Loc>, f: Family, p: int, x: Loc)
    requires Housed(loc, f) && 0 <= p < |loc| && x != Free
    ensures Housed(loc[p := x], f)
  {
  }

  lemma PreemptInv(s: Sys, t: nat)
    requires Inv(s) && s.cur != NIL && C.Later(s.clk, t)
    ensures Inv(Preempt(s, t))
  {
    hide C.Conserved, Tagged, Housed, Seated, C.Exit;
    var p := s.cur;
    C.ExitConserves(s.clk, t, true, p);
    assert s.loc[p] == Off;
    DevSetUpdate(s.cfg, s.loc, p, Ready);
    HousedOff(s.loc, s.fam, p, Ready);
    SeatedMoved(s.cfg.build, s.loc, s.wait, s.cursem, s.shelf, p, Ready);
    PartReady(s.loc, s.free, s.ready, s.wait, p, s.count);
  }

  lemma PartReady(loc: seq<Loc>, free: seq<int>, ready: seq<int>, wait: map<int, seq<int>>, p: int, count: int)
    requires Parted(loc, free, ready, wait, p, count) && 0 <= p < |loc|
    ensures Parted(loc[p := Ready], free, ready + [p], wait, NIL, count)
  {
    SetAllOne(loc, p, Ready);
    TagStay(free, loc, Free, [p], Ready);
    TagIn(ready, loc, Ready, [p]);
    forall b | b in wait
      ensures Tagged(wait[b], loc[p := Ready], Waiting(b))
    {
      TagStay(wait[b], loc, Waiting(b), [p], Ready);
    }
  }

  lemma TagHead(q: seq<int>, loc: seq<Loc>, tag: Loc, x: Loc)
    requires Tagged(q, loc, tag) && x != tag && q != [] && 0 <= q[0] < |loc|
    ensures Tagged(q[1..], loc[q[0] := x], tag)
  {
    var p := q[0];
    SetAllOne(loc, p, x);
    MinusFirst(q);
    TagOut(q, loc, tag, [p], x);
  }

  lemma TaggedHead(q: seq<int>, loc: seq<Loc>, tag: Loc)
    requires Tagged(q, loc, tag) && q != []
    ensures 0 <= q[0] < |loc| && loc[q[0]] == tag
  {
    var p := q[0];
    assert p in q;
  }

  lemma PartDispatch(loc: seq<Loc>, free: seq<int>, ready: seq<int>, wait: map<int, seq<int>>, count: int)
    requires Parted(loc, free, ready, wait, NIL, count) && ready != [] && 0 <= ready[0] < |loc|
    ensures Parted(loc[ready[0] := Off], free, ready[1..], wait, ready[0], count)
  {
    var p := ready[0];
    TaggedHead(ready, loc, Ready);
    SetAllOne(loc, p, Off);
    TagStay(free, loc, Free, [p], Off);
    TagHead(ready, loc, Ready, Off);
    forall b | b in wait
      ensures Tagged(wait[b], loc[p := Off], Waiting(b))
    {
      TagStay(wait[b], loc, Waiting(b), [p], Off);
    }
  }

  lemma DispatchInv(s: Sys, t: nat)
    requires Inv(s) && s.cur == NIL && C.Later(s.clk, t) && s.ready != [] && Proc(s, s.ready[0])
    ensures Inv(Dispatch(s, t))
  {
    hide C.Conserved, Tagged, Housed, Seated, C.Exit, C.Grant;
    var p := s.ready[0];
    assert p in s.ready && s.loc[p] == Ready by {
      TaggedHead(s.ready, s.loc, Ready);
    }
    C.GrantConserves(s.clk, p);
    C.ExitConserves(C.Grant(s.clk, p), t, false, p);
    DevSetUpdate(s.cfg, s.loc, p, Off);
    HousedOff(s.loc, s.fam, p, Off);
    SeatedMoved(s.cfg.build, s.loc, s.wait, s.cursem, s.shelf, p, Off);
    PartDispatch(s.loc, s.free, s.ready, s.wait, s.count);
  }

  lemma SchedulerInv(s: Sys, t: nat)
    requires Inv(s) && s.cur == NIL && C.Later(s.clk, t) && (s.ready != [] ==> Proc(s, s.ready[0]))
    ensures Inv(Scheduler(s, t))
  {
    hide C.Conserved, Tagged, Housed, Seated, C.Exit, Dispatch;
    if s.ready != [] {
      DispatchInv(s, t);
    } else {
      C.ExitConserves(s.clk, t, false, s.cur);
    }
  }

  // ----- process termination -----

  /** Whoever has its parent in vs is in vs. */
  ghost predicate Closed(f: Family, vs: seq<int>)
    requires |f.parent| == |f.kids|
  {
    forall x :: Person(f, x) && f.parent[x] in vs ==> x in vs
  }

  lemma {:induction false} SubtreeClosed(f: Family, p: int)
    requires Kin(f) && Person(f, p)
    ensures Closed(f, Post(f, p)) && NoDup(Post(f, p))
    ensures forall x :: x in Post(f, p) ==> Person(f, x) && (x == p || f.parent[x] != NIL)
  {
    PostIsSubtree(f, p);
    PostNoDup(f, p);
  }

  lemma DrainedTagged(loc: seq<Loc>, wait: map<int, seq<int>>, vs: seq<int>)
    requires forall a :: a in wait ==> Tagged(wait[a], loc, Waiting(a))
    ensures forall a :: a in Drained(wait, vs) ==>
      Drained(wait, vs)[a] != [] && Tagged(Drained(wait, vs)[a], SetAll(loc, vs, Free), Waiting(a))
  {
    forall a | a in wait
      ensures Tagged(Minus(wait[a], vs), SetAll(loc, vs, Free), Waiting(a))
    {
      TagOut(wait[a], loc, Waiting(a), vs, Free);
    }
  }

  lemma DrainedCovers(loc: seq<Loc>, wait: map<int, seq<int>>, vs: seq<int>, p: int)
    requires 0 <= p < |loc| && loc[p].Waiting? && p !in vs
    requires loc[p].sem in wait && Tagged(wait[loc[p].sem], loc, loc[p])
    ensures loc[p].sem in Drained(wait, vs)
  {
    assert p in Minus(wait[loc[p].sem], vs);
  }

  lemma PartReaped(loc: seq<Loc>, free: seq<int>, ready: seq<int>, wait: map<int, seq<int>>, cur: int, count: int,
      vs: seq<int>)
    requires Parted(loc, free, ready, wait, cur, count) && NoDup(vs)
    requires forall v :: v in vs ==> 0 <= v < |loc| && loc[v] != Free
    ensures Parted(SetAll(loc, vs, Free), free + vs, Minus(ready, vs), Drained(wait, vs),
                   if cur in vs then NIL else cur, count - |vs|)
  {
    TagIn(free, loc, Free, vs);
    TagOut(ready, loc, Ready, vs, Free);
    DrainedTagged(loc, wait, vs);
    forall p | 0 <= p < |loc| && SetAll(loc, vs, Free)[p].Waiting?
      ensures SetAll(loc, vs, Free)[p].sem in Drained(wait, vs)
    {
      DrainedCovers(loc, wait, vs, p);
    }
  }

  lemma OrphanedLists(f: Family, vs: seq<int>, p: int, c: int)
    requires Kin(f) && Closed(f, vs) && Person(f, p)
    ensures var g := Orphaned(f, vs); c in g.kids[p] <==> Person(g, c) && g.parent[c] == p
  {
    assert c in f.kids[p] <==> Person(f, c) && f.parent[c] == p;
  }

  lemma OrphanedParents(f: Family, vs: seq<int>, c: int)
    requires Kin(f) && Person(f, c)
    ensures var g := Orphaned(f, vs);
      g.birth[c] <= g.born && (g.parent[c] == NIL || (Person(g, g.parent[c]) && g.birth[g.parent[c]] < g.birth[c]))
  {
  }

  lemma OrphanedNoDup(f: Family, vs: seq<int>, p: int)
    requires Kin(f) && Person(f, p)
    ensures NoDup(Orphaned(f, vs).kids[p])
  {
    MinusNoDup(f.kids[p], vs);
  }

  lemma OrphanedShape(f: Family, vs: seq<int>)
    requires |f.parent| == |f.kids| == |f.birth|
    ensures var g := Orphaned(f, vs); |g.parent| == |g.kids| == |g.birth| == |f.kids|
  {
  }

  lemma KinOrphaned(f: Family, vs: seq<int>)
    requires Kin(f) && Closed(f, vs)
    ensures Kin(Orphaned(f, vs))
  {
    hide Orphaned, Closed, NoDup;
    var g := Orphaned(f, vs);
    OrphanedShape(f, vs);
    forall p | Person(g, p)
      ensures NoDup(g.kids[p])
      ensures g.birth[p] <= g.born
      ensures g.parent[p] == NIL || (Person(g, g.parent[p]) && g.birth[g.parent[p]] < g.birth[p])
    {
      assert Person(f, p);
      OrphanedNoDup(f, vs, p);
      OrphanedParents(f, vs, p);
    }
    forall p, c | Person(g, p)
      ensures c in g.kids[p] <==> Person(g, c) && g.parent[c] == p
    {
      assert Person(f, p);
      OrphanedLists(f, vs, p, c);
    }
  }

  lemma HousedReaped(loc: seq<Loc>, f: Family, vs: seq<int>)
    requires Housed(loc, f) && Closed(f, vs)
    ensures Housed(SetAll(loc, vs, Free), Orphaned(f, vs))
  {
    KinOrphaned(f, vs);
    var g := Orphaned(f, vs);
    forall p | Person(g, p) && p < |loc| && SetAll(loc, vs, Free)[p] == Free
      ensures g.parent[p] == NIL && g.kids[p] == []
    {
      assert Person(f, p);
    }
  }

  lemma SoftReaped(cfg: Config, loc: seq<Loc>, soft: int, vs: seq<int>)
    requires Softened(cfg, loc, soft)
    ensures Softened(cfg, SetAll(loc, vs, Free),
      if cfg.build.Repaired? then soft - |DevSet(cfg, loc) * Elems(vs)| else soft)
  {
    assert DevSet(cfg, SetAll(loc, vs, Free)) == DevSet(cfg, loc) - Elems(vs);
  }

  lemma LinkedReaped(build: Build, loc: seq<Loc>, cursem: seq<int>, req: seq<int>, vs: seq<int>)
    requires Linked(build, loc, cursem, req)
    ensures Linked(build, SetAll(loc, vs, Free), cursem, req)
  {
  }

  /** The lines hold waiters only, and each has its descriptor. */
  ghost predicate Manned(h: Shelf, w: map<int, seq<int>>, loc: seq<Loc>, cursem: seq<int>) {
    && Orderly(h, |loc|) && h.desc.Keys == w.Keys && |cursem| == |loc|
    && (forall p :: 0 <= p < |loc| ==> NIL <= cursem[p] < |loc|)
    && (forall a :: a in w ==> w[a] != [] && forall p :: p in w[a] ==> 0 <= p < |loc| && loc[p] == Waiting(a))
  }

  lemma DrainedNext(w: map<int, seq<int>>, us: seq<int>, v: int, a: int)
    ensures a in Drained(w, us + [v]) <==> a in Drained(w, us) && Minus(Line(Drained(w, us), a), [v]) != []
  {
    if a in w {
      MinusMinus(w[a], us, [v]);
    }
  }

  lemma VacatedByKeys(h: Shelf, w: map<int, seq<int>>, loc: seq<Loc>, cursem: seq<int>, us: seq<int>, v: int)
    requires Orderly(h, |loc|) && h.desc.Keys == Drained(w, us).Keys && 0 <= v < |loc| == |cursem|
    requires NIL <= cursem[v] < |loc|
    requires forall a :: a in w && v in w[a] ==> loc[v] == Waiting(a)
    ensures var r := VacatedBy(h, Drained(w, us), loc, cursem, v);
      Orderly(r, |loc|) && r.desc.Keys == Drained(w, us + [v]).Keys
      && (forall a :: a in r.desc ==> a in h.desc && r.desc[a] == h.desc[a])
      && (loc[v].Waiting? || cursem[v] == NIL ==> Slots(r) == Slots(h))
  {
    hide Orderly, Minus, Drained;
    var u, r := Drained(w, us), VacatedBy(h, Drained(w, us), loc, cursem, v);
    if loc[v].Waiting? {
      RetireOrderly(h, loc[v].sem, |loc|);
    } else if cursem[v] != NIL {
      RefileOrderly(h, cursem[v], |loc|);
    }
    forall a
      ensures a in r.desc <==> a in Drained(w, us + [v])
    {
      DrainedNext(w, us, v, a);
      if a in u && loc[v] != Waiting(a) {
        DrainedLine(w, us, a);
        assert v !in u[a];
        MinusNothing(u[a], [v]);
      }
    }
  }

  lemma DrainedLine(w: map<int, seq<int>>, us: seq<int>, a: int)
    requires a in Drained(w, us)
    ensures a in w && Drained(w, us)[a] == Minus(w[a], us) != []
    ensures forall x :: x in Drained(w, us)[a] ==> x in w[a]
  {
  }

  lemma {:induction false} VacatedKeys(h: Shelf, w: map<int, seq<int>>, loc: seq<Loc>, cursem: seq<int>, vs: seq<int>)
    requires Manned(h, w, loc, cursem) && forall v :: v in vs ==> 0 <= v < |loc|
    ensures var r := Vacated(h, w, loc, cursem, vs);
      Orderly(r, |loc|) && r.desc.Keys == Drained(w, vs).Keys
      && (forall a :: a in r.desc ==> a in h.desc && r.desc[a] == h.desc[a])
      && ((forall v :: v in vs ==> loc[v].Waiting? || cursem[v] == NIL) ==> Slots(r) == Slots(h))
    decreases |vs|
  {
    hide Orderly, VacatedBy, Drained;
    if vs == [] {
      DrainedKeys(w);
    } else {
      var us, v := vs[..|vs| - 1], vs[|vs| - 1];
      assert v in vs && vs == us + [v] && forall x :: x in us ==> x in vs;
      VacatedKeys(h, w, loc, cursem, us);
      VacatedByKeys(Vacated(h, w, loc, cursem, us), w, loc, cursem, us, v);
    }
  }

  lemma DrainedKeys(w: map<int, seq<int>>)
    requires forall a :: a in w ==> w[a] != []
    ensures Drained(w, []).Keys == w.Keys
  {
    forall a
      ensures a in Drained(w, []) <==> a in w
    {
      if a in w {
        MinusNothing(w[a], []);
      }
    }
  }

  lemma MannedServed(s: Sys)
    requires Inv(s)
    ensures Manned(s.shelf, s.wait, s.loc, s.cursem)
  {
    hide C.Conserved, Housed, Linked, Softened, Orderly;
  }

  lemma SeatedReaped(s: Sys, vs: seq<int>)
    requires Inv(s) && forall v :: v in vs ==> Proc(s, v) && s.loc[v] != Free
    ensures var r := Reaped(s, vs); Seated(r.cfg.build, r.loc, r.wait, r.cursem, r.shelf)
  {
    hide C.Conserved, Housed, Parted, Softened, Orderly, Drained, Vacated, DevSet;
    MannedServed(s);
    VacatedKeys(s.shelf, s.wait, s.loc, s.cursem, vs);
    var r := Reaped(s, vs);
    forall p | 0 <= p < |r.loc| && r.loc[p].Waiting?
      ensures r.loc[p].sem in r.shelf.desc && r.cursem[p] == r.shelf.desc[r.loc[p].sem]
    {
      assert p !in vs && r.loc[p] == s.loc[p];
      DrainedCovers(s.loc, s.wait, vs, p) by { LineAtHand(s, p); }
    }
  }

  lemma LineAtHand(s: Sys, p: int)
    requires Inv(s) && Proc(s, p) && s.loc[p].Waiting?
    ensures s.loc[p].sem in s.wait && Tagged(s.wait[s.loc[p].sem], s.loc, s.loc[p])
  {
    hide C.Conserved, Housed, Linked, Seated, Softened;
  }

  lemma ReapedInv(s: Sys, vs: seq<int>)
    requires Inv(s) && Closed(s.fam, vs) && NoDup(vs)
    requires forall v :: v in vs ==> Proc(s, v) && s.loc[v] != Free
    ensures var r := Reaped(s, vs); Inv(r.(cur := if r.cur in vs then NIL else r.cur))
  {
    hide C.Conserved, Parted, Housed, Linked, Seated, Softened, Closed, DevSet, Drained, Vacated, Orphaned;
    PartReaped(s.loc, s.free, s.ready, s.wait, s.cur, s.count, vs);
    HousedReaped(s.loc, s.fam, vs);
    SoftReaped(s.cfg, s.loc, s.soft, vs);
    LinkedReaped(s.cfg.build, s.loc, s.cursem, s.req, vs);
    SeatedReaped(s, vs);
  }

  lemma {:induction false} SearchFinds(f: Family, pid: seq<int>, p: int, cs: seq<int>, id: int)
    requires Kin(f) && |pid| == |f.kids| && Person(f, p) && forall c :: c in cs ==> c in f.kids[p]
    ensures var c := SearchChildren(f, pid, p, cs, id);
      c != NIL ==> Person(f, c) && pid[c] == id && c != p && Descends(f, c, p) && f.parent[c] != NIL
    decreases f.born - f.birth[p], |cs|
  {
    if cs != [] {
      var c := cs[0];
      assert c in cs && Person(f, c) && f.parent[c] == p;
      if pid[c] != id {
        if f.kids[c] != [] {
          SearchFinds(f, pid, c, f.kids[c], id);
          var d := SearchChildren(f, pid, c, f.kids[c], id);
          if d != NIL {
            DescendsUp(f, d, c);
            DescendantsAreYounger(f, d, c);
          }
        } else {
          SearchFinds(f, pid, p, cs[1..], id);
        }
      }
    }
  }

  lemma LiveSubtree(s: Sys, p: int)
    requires Inv(s) && Proc(s, p) && s.loc[p] != Free
    ensures var vs := Post(s.fam, p);
      Closed(s.fam, vs) && NoDup(vs) && forall v :: v in vs ==> Proc(s, v) && s.loc[v] != Free
  {
    SubtreeClosed(s.fam, p);
    assert forall v :: v in Post(s.fam, p) ==> Person(s.fam, v);
  }

  /** The death of a proper descendant leaves the running process alone. */
  lemma DescendantSparesCurrent(f: Family, c: int, p: int)
    requires Kin(f) && Person(f, c) && Person(f, p) && c != p && Descends(f, c, p)
    ensures p !in Post(f, c)
  {
    PostIsSubtree(f, c);
    if Descends(f, p, c) {
      DescendantsAreYounger(f, p, c);
      DescendantsAreYounger(f, c, p);
      NotTwins(f, p, c);
    }
  }

  lemma {:induction false} NotTwins(f: Family, x: int, p: int)
    requires Kin(f) && Person(f, x) && Person(f, p) && Descends(f, x, p) && x != p
    ensures f.birth[p] < f.birth[x]
    decreases f.birth[x]
  {
    DescendantsAreYounger(f, f.parent[x], p);
  }

  lemma TerminateInv(s: Sys, id: int)
    requires Inv(s) && s.cur != NIL && Live(s)
    ensures Inv(Terminate(s, id))
  {
    hide C.Conserved, Parted, Linked, Seated, Softened, Reaped;
    CurOff(s) by { assert Partition(s); }
    if id != 0 {
      SearchFinds(s.fam, s.pid, s.cur, s.fam.kids[s.cur], id);
      var c := ChildByPid(s.fam, s.pid, s.cur, id);
      if Proc(s, c) {
        assert Person(s.fam, c);
        LiveSubtree(s, c);
        DescendantSparesCurrent(s.fam, c, s.cur);
        ReapedInv(s, Post(s.fam, c));
        ReapedSame(s, Post(s.fam, c));
      }
    } else {
      LiveSubtree(s, s.cur);
      ReapedInv(s, Post(s.fam, s.cur));
      ReapedSame(s, Post(s.fam, s.cur));
    }
  }

  lemma ReapedSame(s: Sys, vs: seq<int>)
    requires Sized(s)
    ensures var r := Reaped(s, vs); r.cur == s.cur && r.mode == s.mode && r == r.(cur := s.cur)
  {
  }

  // ----- process creation -----

  lemma PartCreate(loc: seq<Loc>, free: seq<int>, ready: seq<int>, wait: map<int, seq<int>>, cur: int, count: int)
    requires Parted(loc, free, ready, wait, cur, count) && free != [] && 0 <= free[0] < |loc|
    ensures loc[free[0]] == Free
    ensures Parted(loc[free[0] := Ready], free[1..], ready + [free[0]], wait, cur, count + 1)
  {
    var p := free[0];
    TaggedHead(free, loc, Free);
    SetAllOne(loc, p, Ready);
    TagHead(free, loc, Free, Ready);
    TagIn(ready, loc, Ready, [p]);
    forall b | b in wait
      ensures Tagged(wait[b], loc[p := Ready], Waiting(b))
    {
      TagStay(wait[b], loc, Waiting(b), [p], Ready);
    }
  }

  /** A new child p of parent, created last. */
  function Born(f: Family, parent: int, p: int): Family
    requires |f.parent| == |f.kids| == |f.birth| && 0 <= p < |f.kids| && 0 <= parent < |f.kids|
  {
    Family(f.parent[p := parent], f.kids[p := []][parent := f.kids[p := []][parent] + [p]], f.birth[p := f.born + 1],
        f.born + 1)
  }

  lemma BornLists(f: Family, parent: int, p: int, q: int, c: int)
    requires Kin(f) && Person(f, p) && Person(f, parent) && p != parent
    requires f.parent[p] == NIL && f.kids[p] == []
    ensures Person(f, q) ==> var g := Born(f, parent, p); c in g.kids[q] <==> Person(g, c) && g.parent[c] == q
  {
    if Person(f, q) {
      assert c in f.kids[q] <==> Person(f, c) && f.parent[c] == q;
      assert c == p ==> f.parent[c] != q;
    }
  }

  lemma BornParents(f: Family, parent: int, p: int, c: int)
    requires Kin(f) && Person(f, p) && Person(f, parent) && p != parent
    requires f.parent[p] == NIL && f.kids[p] == []
    ensures Person(f, c) ==> var g := Born(f, parent, p);
      g.birth[c] <= g.born && NoDup(g.kids[c])
      && (g.parent[c] == NIL || (Person(g, g.parent[c]) && g.birth[g.parent[c]] < g.birth[c]))
  {
    if Person(f, c) {
      assert p !in f.kids[c] && Person(f, parent);
      assert c !in f.kids[p];
      Concat(f.kids[c], [p]);
    }
  }

  lemma KinBorn(f: Family, parent: int, p: int)
    requires Kin(f) && Person(f, p) && Person(f, parent) && p != parent
    requires f.parent[p] == NIL && f.kids[p] == []
    ensures Kin(Born(f, parent, p))
  {
    hide NoDup, Born;
    var g := Born(f, parent, p);
    BornShape(f, parent, p);
    forall q | Person(g, q)
      ensures g.birth[q] <= g.born && NoDup(g.kids[q])
      ensures g.parent[q] == NIL || (Person(g, g.parent[q]) && g.birth[g.parent[q]] < g.birth[q])
    {
      assert Person(f, q);
      BornParents(f, parent, p, q);
    }
    forall q, c | Person(g, q)
      ensures c in g.kids[q] <==> Person(g, c) && g.parent[c] == q
    {
      assert Person(f, q);
      BornLists(f, parent, p, q, c);
    }
  }

  lemma BornShape(f: Family, parent: int, p: int)
    requires |f.parent| == |f.kids| == |f.birth| && 0 <= p < |f.kids| && 0 <= parent < |f.kids|
    ensures var g := Born(f, parent, p); |g.parent| == |g.kids| == |g.birth| == |f.kids|
  {
  }

  lemma HousedCreate(loc: seq<Loc>, f: Family, parent: int, p: int)
    requires Housed(loc, f) && Person(f, p) && Person(f, parent) && p < |loc| && parent < |loc|
    requires loc[p] == Free && loc[parent] != Free
    ensures Housed(loc[p := Ready], Born(f, parent, p))
  {
    KinBorn(f, parent, p);
    var g := Born(f, parent, p);
    forall q | Person(g, q) && q < |loc| && loc[p := Ready][q] == Free
      ensures g.parent[q] == NIL && g.kids[q] == []
    {
      assert Person(f, q);
    }
  }

  lemma LinkedCreate(build: Build, loc: seq<Loc>, cursem: seq<int>, req: seq<int>, p: int)
    requires Linked(build, loc, cursem, req) && 0 <= p < |loc|
    ensures Linked(build, loc[p := Ready], cursem[p := NIL], req[p := 0])
  {
  }

  /** The whole effect of createProcess when a descriptor is free. */
  lemma CreateFields(s: Sys)
    requires Sized(s) && s.cur != NIL && s.free != [] && Proc(s, s.free[0]) && s.count < |s.loc|
    ensures var p, r := s.free[0], Create(s);
      r == s.(loc := s.loc[p := Ready], free := s.free[1..], ready := s.ready + [p], cursem := s.cursem[p := NIL],
              fam := Born(s.fam, s.cur, p), req := s.req[p := 0], pid := r.pid, a1 := s.a1[p := 0],
              count := s.count + 1, ret := r.ret, clk := C.Rebirth(s.clk, p), issued := r.issued)
  {
    var p := s.free[0];
    assert s.loc[p := Off][p := Ready] == s.loc[p := Ready];
  }

  /** The unchecked allocPcb of createProcess finds a descriptor. */
  lemma CreateInv(s: Sys)
    requires Inv(s) && s.cur != NIL && (s.free != [] ==> Proc(s, s.free[0]))
    ensures Inv(Create(s))
    ensures Create(s).mode == s.mode && Create(s).cur == s.cur && Create(s).clk.led.now == s.clk.led.now
  {
    hide C.Conserved, Parted, Housed, Linked, Seated, Softened, Create, DevSet, C.Rebirth, Born;
    CountFree(s);
    CurOff(s);
    if s.count < |s.loc| {
      var p := s.free[0];
      CreateFields(s);
      PartCreate(s.loc, s.free, s.ready, s.wait, s.cur, s.count);
      assert Person(s.fam, p) && Person(s.fam, s.cur);
      HousedCreate(s.loc, s.fam, s.cur, p);
      LinkedCreate(s.cfg.build, s.loc, s.cursem, s.req, p);
      SeatedMoved(s.cfg.build, s.loc, s.wait, s.cursem, s.shelf, p, Ready);
      DevSetUpdate(s.cfg, s.loc, p, Ready);
      SoftSame(s.cfg, s.loc, s.loc[p := Ready], s.soft);
      C.RebirthConserves(s.clk, p);
      C.RebirthNow(s.clk, p);
    } else {
      CreateFails(s);
    }
  }

  lemma CountFree(s: Sys)
    requires Partition(s)
    ensures s.count == |s.loc| - |s.free|
  {
  }

  // ----- counting processes -----

  function Upto(n: nat): (r: set<int>)
    ensures |r| == n
    ensures forall x :: x in r <==> 0 <= x < n
  {
    if n == 0 then {} else Upto(n - 1) + {n - 1}
  }

  lemma SubsetSize(x: set<int>, y: set<int>)
    requires x <= y
    ensures |x| <= |y|
    ensures |x| == |y| ==> x == y
  {
    assert y == x + (y - x);
    assert |y| == |x| + |y - x|;
  }

  lemma FreeFits(q: seq<int>, n: nat)
    requires NoDup(q) && forall p :: p in q ==> 0 <= p < n
    ensures |q| <= n
    ensures |q| == n <==> forall p :: 0 <= p < n ==> p in q
  {
    ElemsSize(q);
    SubsetSize(Elems(q), Upto(n));
    if forall p :: 0 <= p < n ==> p in q {
      assert Elems(q) == Upto(n);
    }
    if |q| == n {
      forall p | 0 <= p < n
        ensures p in q
      {
        assert p in Upto(n);
      }
    }
  }

  lemma SoftSame(cfg: Config, loc: seq<Loc>, loc': seq<Loc>, soft: int)
    requires Softened(cfg, loc, soft) && DevSet(cfg, loc') == DevSet(cfg, loc)
    ensures Softened(cfg, loc', soft)
  {
  }

  lemma CreateFails(s: Sys)
    requires Sized(s) && s.cur != NIL && s.count >= |s.loc| && (s.free != [] ==> Proc(s, s.free[0]))
    ensures Create(s) == s.(ret := -1)
  {
  }
}
