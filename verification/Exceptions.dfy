/** src/exceptions.c: the system calls on the machine's memory. */
module Exceptions {
  import opened Lists
  import opened Forest
  import opened Nucleus
  import opened Shelves
  import opened Invariant
  import opened Threads
  import opened Machine
  import Asl
  import C = Clock
  import Clist
  import Clockwork
  import opened Defects
  import opened Fields
  import Pcb
  import opened Reaping

  // ----- semop -----

  lemma RepLines(i: Image)
    requires Rep(i)
    ensures Sized(i.s) && Lines(i.s)
    ensures forall a :: NoDup(Queue(i.s, a))
  {
    hide Table, Kids, Housed, Pointed, Clist.IsList;
    forall a | a in i.s.wait
      ensures forall j :: 0 <= j < |i.s.wait[a]| ==> Proc(i.s, i.s.wait[a][j])
    {
      LineTagged(i, a);
      forall j | 0 <= j < |i.s.wait[a]|
        ensures Proc(i.s, i.s.wait[a][j])
      {
        var p := i.s.wait[a][j];
        assert p in i.s.wait[a];
      }
    }
    forall a
      ensures NoDup(Queue(i.s, a))
    {
      LineTagged(i, a);
    }
  }

  lemma LineTagged(i: Image, a: int)
    requires Rep(i)
    ensures Tagged(Queue(i.s, a), i.s.loc, Waiting(a))
  {
    Pcb.QueueList(i, Waiting(a));
  }

  /** What waking the first waiter p of a comes to. */
  lemma WakeOne(s: Sys, a: int, p: int)
    requires Sized(s) && Lines(s) && Queue(s, a) != [] && Queue(s, a)[0] == p && NoDup(Queue(s, a))
    requires Proc(s, p) && s.loc[p] == Waiting(a)
    ensures var r := Moved(s, p);
      r.loc[p] == Ready && r.cfg == s.cfg && r.soft == s.soft && r.cursem == s.cursem && r.log == s.log
      && Wake(s, a, 1) == r.(cursem := if s.cfg.build.Repaired? then s.cursem[p := NIL] else s.cursem,
                             soft := if IsDev(s.cfg, a) then s.soft - 1 else s.soft,
                             log := s.log + [Met(a, p, s.req[p])])
  {
    var q := Queue(s, a);
    MinusFirst(q);
    assert q[..1] == [p];
    SetAllOne(s.loc, p, Ready);
    SetAllOne(s.req, p, 0);
    SetAllOne(s.cursem, p, NIL);
    assert Meets(a, [p], s.req) == [Met(a, p, s.req[p])];
    assert s.loc[p := Off][p := Ready] == s.loc[p := Ready];
  }

  /** Waking j waiters and then one more is waking j + 1. */
  lemma WakeNext(s: Sys, a: int, j: nat)
    requires Sized(s) && Lines(s) && j < |Queue(s, a)| && NoDup(Queue(s, a))
    ensures Lines(Wake(s, a, j)) && Queue(Wake(s, a, j), a) == Queue(s, a)[j..]
    ensures Wake(Wake(s, a, j), a, 1) == Wake(s, a, j + 1)
  {
    hide NoDup;
    var q, r := Queue(s, a), Wake(s, a, j);
    var q' := q[j..];
    assert q'[..1] == [q[j]] && q'[1..] == q[j + 1..] && q[..j] + [q[j]] == q[..j + 1];
    SetAllTwice(s.loc, q[..j], [q[j]], Ready);
    SetAllTwice(s.req, q[..j], [q[j]], 0);
    SetAllTwice(s.cursem, q[..j], [q[j]], NIL);
    assert q[j] !in q[..j] by { Fresh(q, j); }
    assert Meets(a, q[..j], s.req) + Meets(a, [q[j]], r.req) == Meets(a, q[..j + 1], s.req);
    assert r.log + Meets(a, [q[j]], r.req) == s.log + Meets(a, q[..j + 1], s.req);
    assert r.ready + [q[j]] == s.ready + q[..j + 1];
  }

  lemma Fresh(q: seq<int>, j: nat)
    requires NoDup(q) && j < |q|
    ensures q[j] !in q[..j]
  {
  }

  /** The repair: p_cursem of a process that is not blocked any more is cleared. */
  method ClearCursem(k: Kernel, p: int)
    requires k.Valid() && Sized(k.Abs()) && Proc(k.Abs(), p) && !k.loc[p].Waiting?
    modifies k
    ensures k.Valid() && k.Abs() == old(k.Abs()).(cursem := old(k.cursem)[p := NIL])
  {
    hide Rep;
    ghost var i := k.Img();
    ClearRep(i, p);
    k.cursem := k.cursem[p := NIL];
    assert k.Img() == i.(s := i.s.(cursem := i.s.cursem[p := NIL]));
  }

  lemma ClearRep(i: Image, p: int)
    requires Rep(i) && Proc(i.s, p) && !i.s.loc[p].Waiting?
    ensures p < |i.s.cursem| && Rep(i.(s := i.s.(cursem := i.s.cursem[p := NIL])))
  {
    hide Threaded, Table, Kids, Kin;
  }

  /** p_cursem->s_semAdd of a process blocked on a is a. */
  lemma SemOf(i: Image, p: int)
    requires Rep(i) && Proc(i.s, p) && i.s.loc[p].Waiting?
    ensures p < |i.s.cursem| && 0 <= i.s.cursem[p] < |i.semAdd| && i.semAdd[i.s.cursem[p]] == i.s.loc[p].sem
  {
    hide Threaded, Kids, Housed, Sorted, Shelved;
  }

  /** The first waiter p of a line has gone from there to the ready queue, its request met. */
  function Moved(s: Sys, p: int): (r: Sys)
    requires Sized(s) && Proc(s, p) && s.loc[p].Waiting?
    ensures Sized(r) && |r.loc| == |s.loc|
  {
    Pcb.Pushed(Asl.Unblocked(s.(req := s.req[p := 0]), p), p)
  }

  method MoveHead(k: Kernel, a: int, p: int)
    requires k.Valid() && Sized(k.Abs()) && p == Head(k.Abs(), a) && p != NIL
    requires Proc(k.Abs(), p) && k.loc[p] == Waiting(a)
    modifies k, k.pNext, k.sNext
    ensures k.Valid() && k.Abs() == Moved(old(k.Abs()), p)
    ensures k.semAdd == old(k.semAdd)
  {
    hide Rep;
    SetRequest(k, p, 0);
    var removed := Asl.RemoveBlocked(k, a);
    Pcb.InsertReady(k, p);
  }

  /** One round of the loop in semop: the request of the first waiter is met. */
  method WakeHead(k: Kernel, a: int, p: int)
    requires k.Valid() && Sized(k.Abs()) && Lines(k.Abs()) && p == Head(k.Abs(), a) && p != NIL
    modifies k, k.pNext, k.sNext
    ensures k.Valid() && k.Abs() == Wake(old(k.Abs()), a, 1)
  {
    hide Rep, Wake, Lines, Moved, Asl.Open;
    ghost var i := k.Img();
    FirstWaiter(i, a);
    WakeOne(i.s, a, p);
    SemOf(i, p);
    MoveHead(k, a, p);
    if IsDev(k.cfg, k.semAdd[k.cursem[p]]) {
      SetSoft(k, k.soft - 1);
    }
    if k.cfg.build.Repaired? {
      ClearCursem(k, p);
    }
    Record(k, [Met(a, p, i.s.req[p])]);
  }

  lemma FirstWaiter(i: Image, a: int)
    requires Rep(i) && Head(i.s, a) != NIL
    ensures var p := Head(i.s, a);
      Proc(i.s, p) && i.s.loc[p] == Waiting(a) && Queue(i.s, a) != [] && Queue(i.s, a)[0] == p && NoDup(Queue(i.s, a))
  {
    hide Rep;
    RepLines(i);
    LineTagged(i, a);
    TaggedHead(Queue(i.s, a), i.s.loc, Waiting(a));
  }

  /** The loop makes the decision of Fits at each head. */
  lemma FitsAt(q: seq<int>, req: seq<int>, req': seq<int>, j: nat, avail: int)
    requires forall l :: 0 <= l < |q| ==> 0 <= q[l] < |req|
    requires j < |q| && NoDup(q) && req' == SetAll(req, q[..j], 0)
    ensures req'[q[j]] == req[q[j]]
    ensures Fits(q[j..], req, avail) ==
      if Unsigned(avail) < req[q[j]] then 0 else 1 + Fits(q[j + 1..], req, avail - req[q[j]])
  {
    Fresh(q, j);
    assert q[j..][1..] == q[j + 1..];
  }

  lemma {:induction false} TotalPrefix(q: seq<int>, req: seq<int>, j: nat)
    requires forall l :: 0 <= l < |q| ==> 0 <= q[l] < |req|
    requires j < |q|
    ensures Total(q[..j + 1], req) == Total(q[..j], req) + req[q[j]]
  {
    if j > 0 {
      TotalPrefix(q[1..], req, j - 1);
      assert q[..j + 1][1..] == q[1..][..j] && q[..j][1..] == q[1..][..j - 1];
    } else {
      assert q[..1] == [q[0]] && q[..1][1..] == [];
    }
  }

  lemma WakeNone(s: Sys, a: int)
    requires Sized(s) && Lines(s) && (a in s.wait ==> s.wait[a] != [])
    ensures Wake(s, a, 0) == s
  {
    var q := Queue(s, a);
    assert s.ready + q[..0] == s.ready;
    assert SetAll(s.loc, [], Ready) == s.loc && SetAll(s.req, [], 0) == s.req
        && SetAll(s.cursem, [], NIL) == s.cursem;
    assert s.log + [] == s.log;
    if a in s.wait {
      assert s.wait[a := q] == s.wait;
    } else {
      assert s.wait - {a} == s.wait;
    }
  }

  /** How many waiters remain, and which is first, after j have been woken. */
  lemma Round(s: Sys, a: int, j: nat)
    requires Sized(s) && Lines(s) && j <= |Queue(s, a)| && NoDup(Queue(s, a))
    ensures Head(Wake(s, a, j), a) == if j < |Queue(s, a)| then Queue(s, a)[j] else NIL
    ensures j < |Queue(s, a)| ==> Queue(s, a)[j] != NIL
    ensures Wake(s, a, j).req == SetAll(s.req, Queue(s, a)[..j], 0)
    ensures Lines(Wake(s, a, j))
    ensures j < |Queue(s, a)| ==> Wake(Wake(s, a, j), a, 1) == Wake(s, a, j + 1)
  {
    if j < |Queue(s, a)| {
      WakeNext(s, a, j);
    }
  }

  lemma Waiters(s: Sys, a: int)
    requires Lines(s) && |s.req| == |s.loc|
    ensures forall l :: 0 <= l < |Queue(s, a)| ==> 0 <= Queue(s, a)[l] < |s.req|
  {
  }

  /** After j rounds fr of the avail tokens are left, and the decision of Fits is open for the
      rest of the line, or closed. */
  ghost predicate Progress(s: Sys, a: int, avail: int, j: nat, fr: int, open: bool)
    requires Lines(s) && |s.req| == |s.loc|
  {
    Waiters(s, a);
    var q := Queue(s, a);
    && j <= |q| && fr == avail - Total(q[..j], s.req)
    && Fits(q, s.req, avail) == j + (if open then Fits(q[j..], s.req, fr) else 0)
  }

  lemma ProgressStart(s: Sys, a: int, avail: int)
    requires Lines(s) && |s.req| == |s.loc|
    ensures Progress(s, a, avail, 0, avail, true)
  {
    Waiters(s, a);
    assert Queue(s, a)[0..] == Queue(s, a);
  }

  /** One round: the request of waiter j is as it was, and is met if the stock covers it. */
  lemma ProgressNext(s: Sys, a: int, avail: int, j: nat, fr: int)
    requires Sized(s) && Lines(s) && NoDup(Queue(s, a)) && Progress(s, a, avail, j, fr, true) && j < |Queue(s, a)|
    ensures 0 <= Queue(s, a)[j] < |s.req|
    ensures SetAll(s.req, Queue(s, a)[..j], 0)[Queue(s, a)[j]] == s.req[Queue(s, a)[j]]
    ensures var r := s.req[Queue(s, a)[j]];
      if Unsigned(fr) >= r then Progress(s, a, avail, j + 1, fr - r, true) else Progress(s, a, avail, j, fr, false)
  {
    hide Fits, Total;
    Waiters(s, a);
    var q := Queue(s, a);
    FitsAt(q, s.req, SetAll(s.req, q[..j], 0), j, fr);
    TotalPrefix(q, s.req, j);
  }

  lemma ProgressEnd(s: Sys, a: int, avail: int, j: nat, fr: int, open: bool)
    requires Sized(s) && Lines(s) && Progress(s, a, avail, j, fr, open) && (open ==> j == |Queue(s, a)|)
    ensures forall l :: 0 <= l < |Queue(s, a)| ==> 0 <= Queue(s, a)[l] < |s.req|
    ensures j == Fits(Queue(s, a), s.req, avail) && j <= |Queue(s, a)| && fr == avail - Total(Queue(s, a)[..j], s.req)
  {
    Waiters(s, a);
  }

  /** The loop of semop: wake waiters from the head while the tokens last. */
  method Serve(k: Kernel, a: int, avail: int) returns (freeResources: int)
    requires k.Valid() && Sized(k.Abs()) && Lines(k.Abs())
    modifies k, k.pNext, k.sNext
    ensures k.Valid()
    ensures var s := old(k.Abs());
      var q := Queue(s, a);
      (forall l :: 0 <= l < |q| ==> 0 <= q[l] < |s.req|)
      && var n := Fits(q, s.req, avail);
         k.Abs() == Wake(s, a, n) && freeResources == avail - Total(q[..n], s.req)
  {
    hide Rep, Wake, Lines, Fits, Total, SetAll, NoDup, Progress;
    ghost var s := k.Abs();
    ghost var q := Queue(s, a);
    RepLines(k.Img());
    NonEmpty(k.Img(), a);
    WakeNone(s, a);
    ProgressStart(s, a, avail);
    freeResources := avail;
    ghost var j := 0;
    var head := Asl.HeadBlocked(k, a);
    var flag := true;
    while head != NIL && flag
      invariant k.Valid() && 0 <= j <= |q| && k.Abs() == Wake(s, a, j)
      invariant head == Head(k.Abs(), a)
      invariant Progress(s, a, avail, j, freeResources, flag)
      decreases |q| - j, flag
    {
      Round(s, a, j);
      ProgressNext(s, a, avail, j, freeResources);
      if Unsigned(freeResources) >= k.req[head] {
        freeResources := freeResources - k.req[head];
        WakeHead(k, a, head);
        j := j + 1;
        head := Asl.HeadBlocked(k, a);
      } else {
        flag := false;
      }
    }
    Round(s, a, j);
    ProgressEnd(s, a, avail, j, freeResources, flag);
  }

  lemma ReleaseParts(s: Sys, a: int, w: int)
    requires Sized(s) && Lines(s)
    ensures var q, s1 := Queue(s, a), s.(log := s.log + [Put(a, w)]);
      Lines(s1) && (forall l :: 0 <= l < |q| ==> 0 <= q[l] < |s.req|)
      && var n, v := Fits(q, s.req, w + Val(s, a)), w + Val(s, a) - Total(q[..Fits(q, s.req, w + Val(s, a))], s.req);
         Release(s, a, w) == Wake(s1, a, n).(sem := Wake(s1, a, n).sem[a := v])
  {
    hide Fits, Total;
  }

  /** semop with a positive weight */
  method Verhogen(k: Kernel, a: int, w: int)
    requires k.Valid() && Sized(k.Abs()) && Lines(k.Abs()) && w > 0
    modifies k, k.pNext, k.sNext
    ensures k.Valid() && k.Abs() == Release(old(k.Abs()), a, w)
  {
    hide Rep, Wake, Fits, Total, Lines, Release;
    ReleaseParts(k.Abs(), a, w);
    Record(k, [Put(a, w)]);
    var freeResources := w + Value(k.sem, a);
    freeResources := Serve(k, a, freeResources);
    SetValue(k, a, freeResources);
  }

  lemma NonEmpty(i: Image, a: int)
    requires Rep(i)
    ensures a in i.s.wait ==> i.s.wait[a] != []
  {
    hide Threaded, Table, Kids, Housed, Pointed;
  }

  lemma HeadIs(i: Image, a: int)
    requires Rep(i)
    ensures Head(i.s, a) == NIL <==> Queue(i.s, a) == []
  {
    LineTagged(i, a);
    if Queue(i.s, a) != [] {
      TaggedHead(Queue(i.s, a), i.s.loc, Waiting(a));
    }
  }

  function Asleep(s: Sys, a: int, r: int, t: nat): Sys
    requires Sized(s) && s.cur != NIL
  {
    Exit(s.(req := s.req[s.cur := r]), t, true).(cur := NIL, log := s.log + [Asked(a, s.cur, r)],
      soft := if IsDev(s.cfg, a) then s.soft + 1 else s.soft)
  }

  lemma AcquireParts(s: Sys, a: int, r: int, t: nat)
    requires Sized(s) && s.cur != NIL
    ensures Acquire(s, a, r, t) ==
      if Queue(s, a) != [] || Val(s, a) - r < 0 then
        if Queue(s, a) == [] && s.shelf.idle == [] then s.(mode := NoSemaphore)
        else Asleep(Asl.Blocked(s, a, s.cur), a, r, t)
      else s.(sem := s.sem[a := Val(s, a) - r], log := s.log + [Asked(a, s.cur, r), Met(a, s.cur, r)])
  {
    hide C.Exit;
  }

  /** semop with the negative weight -r, by the running process */
  method Passeren(k: Kernel, a: int, r: int, t: nat)
    requires k.Valid() && Sized(k.Abs()) && k.cur != NIL && k.loc[k.cur] == Off
    modifies k, k.pNext, k.sNext
    ensures k.Valid() && k.Abs() == Acquire(old(k.Abs()), a, r, t)
  {
    hide Rep, C.Exit, Acquire;
    AcquireParts(k.Abs(), a, r, t);
    HeadIs(k.Img(), a);
    var head := Asl.HeadBlocked(k, a);
    if head != NIL || Value(k.sem, a) - r < 0 {
      var full := Asl.InsertBlocked(k, a, k.cur);
      if !full {
        FallAsleep(k, a, r, t);
      } else {
        SetMode(k, NoSemaphore);
      }
    } else {
      SetValue(k, a, Value(k.sem, a) - r);
      Record(k, [Asked(a, k.cur, r), Met(a, k.cur, r)]);
    }
  }

  /** What is left to do once the running process stands in the line of a. */
  method FallAsleep(k: Kernel, a: int, r: int, t: nat)
    requires k.Valid() && Sized(k.Abs()) && k.cur != NIL && k.loc[k.cur] == Waiting(a)
    modifies k
    ensures k.Valid() && k.Abs() == Asleep(old(k.Abs()), a, r, t)
  {
    hide Rep, C.Exit;
    Record(k, [Asked(a, k.cur, r)]);
    SetRequest(k, k.cur, r);
    Clockwork.OnHandlerExit(k, t, true);
    SetCurrent(k, NIL);
    if IsDev(k.cfg, a) {
      SetSoft(k, k.soft + 1);
    }
  }

  /** SYS3 */
  method Semop(k: Kernel, a: int, w: int, t: nat)
    requires k.Valid() && Sized(k.Abs()) && Lines(k.Abs())
    requires w < 0 ==> k.cur != NIL && k.loc[k.cur] == Off
    modifies k, k.pNext, k.sNext
    ensures k.Valid() && k.Abs() == Nucleus.Semop(old(k.Abs()), a, w, t)
  {
    hide Rep, Acquire, Release, Lines;
    if w > 0 {
      Verhogen(k, a, w);
    } else if w < 0 {
      Passeren(k, a, -w, t);
    } else {
      SetMode(k, BadWeight);
    }
  }

  /** SYS9 */
  method WaitClock(k: Kernel, t: nat)
    requires k.Valid() && Sized(k.Abs()) && Lines(k.Abs()) && k.cur != NIL && k.loc[k.cur] == Off
    modifies k, k.pNext, k.sNext
    ensures k.Valid() && k.Abs() == Nucleus.WaitClock(old(k.Abs()), t)
  {
    hide Rep, Nucleus.Semop, Lines;
    Semop(k, k.cfg.clock, -1, t);
    if k.mode == Running || k.mode == Idling {
      SetTicks(k, k.ticks + 1);
    }
  }

  // ----- createProcess -----

  /** p, which has no relatives, becomes the youngest process. */
  function Numbered(f: Family, p: int): Family
    requires 0 <= p < |f.birth|
  {
    f.(birth := f.birth[p := f.born + 1], born := f.born + 1)
  }

  lemma KinNumbered(f: Family, p: int)
    requires Kin(f) && Person(f, p) && f.parent[p] == NIL && f.kids[p] == []
    ensures Kin(Numbered(f, p))
  {
    hide NoDup;
    var g := Numbered(f, p);
    forall q | Person(g, q)
      ensures g.birth[q] <= g.born && NoDup(g.kids[q])
      ensures g.parent[q] == NIL || (Person(g, g.parent[q]) && g.birth[g.parent[q]] < g.birth[q])
    {
      assert Person(f, q);
      assert q !in f.kids[p];
    }
    forall q, c | Person(g, q)
      ensures c in g.kids[q] <==> Person(g, c) && g.parent[c] == q
    {
      assert Person(f, q);
      assert c in f.kids[q] <==> Person(f, c) && f.parent[c] == q;
    }
  }

  lemma NumberRep(i: Image, p: int)
    requires Rep(i) && Proc(i.s, p) && Sized(i.s) && i.s.fam.parent[p] == NIL && i.s.fam.kids[p] == []
    ensures Rep(i.(s := i.s.(fam := Numbered(i.s.fam, p)), abs := (i.abs + 1) % C.WORD))
  {
    hide Threaded, Table, Pointed, Clist.IsList, Kin;
    var f, g := i.s.fam, Numbered(i.s.fam, p);
    assert Person(f, p);
    KinNumbered(f, p);
    forall q | Person(g, q)
      ensures Clist.IsList(i.ps, i.children[q], g.kids[q])
      ensures q < |i.s.loc| && i.s.loc[q] == Free ==> g.parent[q] == NIL && g.kids[q] == []
    {
      assert Person(f, q);
    }
    NextNumber(f.born);
  }

  lemma NextNumber(n: nat)
    ensures (n % C.WORD + 1) % C.WORD == (n + 1) % C.WORD
  {
    C.ModSum(n, 1);
  }

  lemma ShiftWrapped(n: nat)
    ensures n % C.WORD * 32 % C.WORD == n * 32 % C.WORD
  {
    var a := n / C.WORD;
    assert n * 32 == n % C.WORD * 32 + C.WORD * (a * 32);
  }

  /** pid_selector, for the new process p */
  method PidSelector(k: Kernel, ghost p: int) returns (id: int)
    requires k.Valid() && Sized(k.Abs()) && Proc(k.Abs(), p) && k.parent[p] == NIL && k.kids[p] == []
    requires k.count >= 0
    modifies k
    ensures k.Valid() && k.Abs() == old(k.Abs()).(fam := Numbered(old(k.Fam()), p))
    ensures id == Pid(k.born, k.count)
  {
    hide Rep, BitOr;
    ghost var i := k.Img();
    NumberRep(i, p);
    AbsIs(i);
    NextNumber(k.born);
    k.abs := (k.abs + 1) % C.WORD;
    k.birth, k.born := k.birth[p := k.born + 1], k.born + 1;
    assert k.Img() == i.(s := i.s.(fam := Numbered(i.s.fam, p)), abs := (i.abs + 1) % C.WORD);
    ShiftWrapped(k.born);
    id := k.abs * 32 % C.WORD;
    id := BitOr(id, k.count);
  }

  lemma AbsIs(i: Image)
    requires Rep(i)
    ensures i.abs == i.s.fam.born % C.WORD
  {
    hide Threaded, Table, Kids, Housed, Pointed;
  }

  /** The new process p is counted, numbered and given its pid. */
  function Registered(s: Sys, p: int): Sys
    requires Sized(s) && Proc(s, p) && s.count >= 0
  {
    var f := Numbered(s.fam, p);
    var id := Pid(f.born, s.count + 1);
    s.(count := s.count + 1, fam := f, pid := s.pid[p := id], issued := s.issued + [id])
  }

  lemma CreateParts(s: Sys)
    requires Sized(s) && s.cur != NIL && s.free != [] && Proc(s, s.free[0]) && 0 <= s.count < |s.loc|
    ensures var p := s.free[0];
      var s1 := Registered(Alloc(s), p);
      Create(s) == Pcb.Pushed(Adopt(s1, s.cur, p), p).(ret := s1.pid[p])
  {
    hide Pid, C.Rebirth;
  }

  /** What allocPcb leaves alone. */
  lemma AllocKeeps(s: Sys)
    requires Sized(s) && s.free != [] && Proc(s, s.free[0])
    ensures var p, r := s.free[0], Alloc(s);
      r.fam.parent[p] == NIL && r.fam.kids[p] == [] && r.loc == s.loc[p := Off] && r.cur == s.cur
      && r.fam.birth == s.fam.birth && r.fam.born == s.fam.born && r.count == s.count && r.cfg == s.cfg
  {
  }

  lemma BirthBound(i: Image, p: int)
    requires Rep(i) && Proc(i.s, p) && Sized(i.s)
    ensures i.s.fam.birth[p] <= i.s.fam.born
  {
    hide Threaded, Table, Kids, Pointed;
    assert Person(i.s.fam, p);
  }

  method Register(k: Kernel, p: int) returns (id: int)
    requires k.Valid() && Sized(k.Abs()) && Proc(k.Abs(), p) && k.parent[p] == NIL && k.kids[p] == []
    requires k.count >= 0
    modifies k
    ensures k.Valid() && k.Abs() == Registered(old(k.Abs()), p) && id == k.pid[p]
  {
    hide Rep, Pid;
    SetCount(k, k.count + 1);
    id := PidSelector(k, p);
    SetPid(k, p, id);
  }

  /** The new process p joins its parent and the ready queue. */
  method Admit(k: Kernel, parent: int, p: int)
    requires k.Valid() && Sized(k.Abs()) && Proc(k.Abs(), p) && Proc(k.Abs(), parent)
    requires k.parent[p] == NIL && k.birth[parent] < k.birth[p]
    requires k.loc[p] == Off && k.loc[parent] != Free
    modifies k, k.pNext, k.pSib
    ensures k.Valid() && k.Abs() == Pcb.Pushed(Adopt(old(k.Abs()), parent, p), p)
  {
    hide Rep;
    Pcb.InsertChild(k, parent, p);
    Pcb.InsertReady(k, p);
  }

  /** SYS1 */
  method CreateProcess(k: Kernel)
    requires k.Valid() && Sized(k.Abs()) && k.cur != NIL && k.loc[k.cur] == Off && k.count >= 0
    modifies k, k.pNext, k.pSib
    ensures k.Valid()
    ensures old(k.free != [] ==> Proc(k.Abs(), k.free[0])) && k.Abs() == Create(old(k.Abs()))
  {
    hide Rep, Alloc, Adopt, Registered, Create;
    ghost var s := k.Abs();
    Facts(k.Img());
    if k.count < k.pNext.Length {
      var p := Pcb.AllocPcb(k);
      if p == NIL {
        SetMode(k, Astray);
        CreateFull(s);
      } else {
        CreateParts(s);
        AllocKeeps(s);
        RegisterKeeps(k.Abs(), p);
        var id := Register(k, p);
        Admit(k, k.cur, p);
        SetReturn(k, id);
      }
    } else {
      CreateFull(s);
      SetReturn(k, -1);
    }
  }

  lemma Facts(i: Image)
    requires Rep(i)
    ensures |i.pn| == |i.s.loc|
    ensures i.s.free != [] ==> Proc(i.s, i.s.free[0]) && i.s.loc[i.s.free[0]] == Free
    ensures i.s.cur != NIL ==> Proc(i.s, i.s.cur) && i.s.fam.birth[i.s.cur] <= i.s.fam.born
  {
    hide Rep;
    Pcb.RepLengths(i);
    if i.s.free != [] {
      Pcb.FirstFree(i);
    }
    if i.s.cur != NIL {
      BirthBound(i, i.s.cur);
    }
  }

  lemma CreateFull(s: Sys)
    requires Sized(s) && s.cur != NIL && (s.free != [] ==> Proc(s, s.free[0]))
    ensures s.count >= |s.loc| ==> Create(s) == s.(ret := -1)
    ensures s.count < |s.loc| && s.free == [] ==> Create(s) == s.(mode := Astray)
  {
  }

  lemma RegisterKeeps(s: Sys, p: int)
    requires Sized(s) && Proc(s, p) && s.count >= 0
    ensures var r := Registered(s, p);
      Sized(r) && r.loc == s.loc && r.cur == s.cur && r.fam.parent == s.fam.parent
          && r.fam.birth == s.fam.birth[p := s.fam.born + 1]
  {
  }

  // ----- terminateProgeny -----

  lemma Tidy(i: Image, p: int)
    requires Rep(i) && Proc(i.s, p)
    ensures Sized(i.s) && Kin(i.s.fam) && Person(i.s.fam, p)
    ensures Tagged(i.s.ready, i.s.loc, Ready)
    ensures forall a :: a in i.s.wait ==> i.s.wait[a] != [] && Tagged(i.s.wait[a], i.s.loc, Waiting(a))
    ensures i.s.loc[p].Waiting? ==> i.s.loc[p].sem in i.s.wait && i.s.cursem[p] != NIL
  {
    hide Tagged, Threaded, Table, Kids, Kin, Clist.IsList;
    Pcb.QueueList(i, Ready);
    forall a | a in i.s.wait
      ensures Tagged(i.s.wait[a], i.s.loc, Waiting(a))
    {
      LineTagged(i, a);
    }
    if i.s.loc[p].Waiting? {
      WaitingServed(i, p);
    }
  }

  lemma WaitingServed(i: Image, p: int)
    requires Rep(i) && Proc(i.s, p) && i.s.loc[p].Waiting?
    ensures i.s.loc[p].sem in i.s.wait && |i.s.cursem| == |i.s.loc| && i.s.cursem[p] != NIL
  {
    hide Threaded, Kids, Housed, Sorted, Shelved;
  }

  lemma RepPerson(i: Image, p: int)
    requires Rep(i) && Proc(i.s, p)
    ensures Person(i.s.fam, p) && Sized(i.s) && |i.pn| == |i.s.loc| && Kin(i.s.fam)
  {
    hide Threaded, Table, Kids, Kin, Pointed;
  }

  /** What src/exceptions.c 37-42 comes to; missed says that outBlocked returned null. */
  method Leave(k: Kernel, p: int) returns (missed: bool)
    requires k.Valid() && Sized(k.Abs()) && Proc(k.Abs(), p)
    requires k.cursem[p] != NIL ==> k.loc[p].Waiting? || k.cfg.build.Shipped?
    modifies k, k.pNext, k.sNext
    ensures k.Valid() && k.Abs() == Departed(old(k.Abs()), p)
    ensures missed <==> old(k.cursem[p]) != NIL && !old(k.loc[p]).Waiting?
  {
    hide Rep, Kin, Tagged, Refile, Retire;
    ghost var i := k.Img();
    Tidy(i, p);
    if k.cursem[p] != NIL {
      Asl.PointsAt(i, p);
      // The code as shipped asks isDev about the address of the descriptor, never a device's.
      if k.cfg.build.Repaired? && IsDev(k.cfg, k.semAdd[k.cursem[p]]) {
        SetSoft(k, k.soft - 1);
      }
      var r := Asl.OutBlocked(k, p);
      missed := r == NIL;
    } else {
      Pcb.OutReady(k, p);
      missed := false;
    }
  }

  lemma DepartedKeeps(s: Sys, p: int)
    requires Sized(s) && Proc(s, p) && s.loc[p] != Free
    ensures var r := Departed(s, p);
      r.fam == s.fam && r.count == s.count && r.log == s.log && r.cur == s.cur
      && r.loc[p] == if s.loc[p] == Ready && s.cursem[p] != NIL then Ready else Off
  {
  }

  /** src/exceptions.c 43-44 */
  method PutAway(k: Kernel, p: int)
    requires k.Apart() && Sized(k.Abs()) && Proc(k.Abs(), p)
    requires k.pNext.Length == |k.loc| && NIL <= k.pcbFree < k.pNext.Length
    modifies k, k.pNext
    ensures k.Img() == Buried(old(k.Img()), p)
  {
    hide Rep;
    Pcb.FreePcb(k, p);
    SetCount(k, k.count - 1);
  }

  /** The lines of terminateProgeny after its loop. The process is removed, unless it is ready and
      its p_cursem is left over from an earlier wait: then ok is false, and the memory does not
      represent any state. The code does not look at what outBlocked returns. */
  method Bury(k: Kernel, p: int) returns (ok: bool)
    requires k.Valid() && Sized(k.Abs()) && Proc(k.Abs(), p)
    requires k.parent[p] == NIL && k.kids[p] == [] && Mortal(k.Abs(), [p])
    modifies k, k.pNext, k.sNext
    ensures ok <==> Clean(old(k.Abs()), [p])
    ensures ok ==> k.Valid() && k.Abs() == Reaped(old(k.Abs()), [p])
    ensures !ok ==> !Meaningful(k.Img())
  {
    hide Rep, Reaped, Deaths, Kin, Tagged, Departed, Buried, Refile, Retire, Meaningful, Drained;
    ghost var i := k.Img();
    Tidy(i, p);
    OneMortal(i.s, p);
    DepartedKeeps(i.s, p);
    var missed := Leave(k, p);
    ghost var j := k.Img();
    BuriedIff(j, p);
    BuriedState(j, p);
    PutAway(k, p);
    ok := !missed || p == k.cur;
    if ok {
      ReapedOne(i.s, p);
      Record(k, Deaths(i.s.loc, [p]));
    }
  }

  lemma OneMortal(s: Sys, p: int)
    requires Sized(s) && Proc(s, p) && Mortal(s, [p])
    ensures s.loc[p] != Free && (s.loc[p] == Off <==> p == s.cur)
    ensures s.cursem[p] != NIL ==> s.loc[p].Waiting? || s.cfg.build.Shipped?
    ensures Clean(s, [p]) <==> (s.loc[p] == Ready ==> s.cursem[p] == NIL)
  {
    assert p in [p];
  }

  /** terminateProgeny: p is cut off its parent, its children are taken off one at a time and
      terminated, then p is buried. The result is the removal of the whole subtree, or, exactly
      if somebody in it is ready with a p_cursem left over from an earlier wait, a memory that
      represents no state; the model stops there. */
  method TerminateProgeny(k: Kernel, p: int) returns (ok: bool)
    requires k.Valid() && Sized(k.Abs()) && Kin(k.Fam()) && Proc(k.Abs(), p) && Person(k.Fam(), p)
    requires Mortal(k.Abs(), Post(k.Fam(), p))
    modifies k, k.pNext, k.pSib, k.sNext
    ensures ok <==> Clean(old(k.Abs()), Post(old(k.Fam()), p))
    ensures ok ==> k.Valid() && k.Abs() == Reaped(old(k.Abs()), Post(old(k.Fam()), p))
    ensures !ok ==> !Meaningful(k.Img())
    decreases k.born - k.birth[p]
  {
    hide Rep, Reaped, Deaths, Kin, Post, Stage, Gone, Pcb.Detached, Mortal, Clean, Meaningful;
    ghost var s := k.Abs();
    ghost var cs := s.fam.kids[p];
    NoEmptyLine(k.Img());
    StageStart(s, p);
    RoundStart(s, p, 0);
    NoneGone(s, p);
    var found := Pcb.OutChild(k, p);
    ghost var j := 0;
    var empty := Pcb.EmptyChild(k, p);
    while !empty
      invariant k.Valid() && 0 <= j <= |cs| && k.Abs() == Stage(s, p, j) && Clean(s, Gone(s.fam, p, j))
      invariant empty <==> j == |cs|
      decreases |cs| - j
    {
      RoundStart(s, p, j);
      var c := Pcb.RemoveChild(k, p);
      RepPerson(k.Img(), c);
      RoundReady(s, p, j, k.Abs());
      ok := TerminateProgeny(k, c);
      if !ok {
        return;
      }
      j := j + 1;
      RoundStart(s, p, j);
      empty := Pcb.EmptyChild(k, p);
    }
    ok := BuryLast(k, p, s);
  }

  /** The children of p are gone. */
  method BuryLast(k: Kernel, p: int, ghost s: Sys) returns (ok: bool)
    requires Sized(s) && Kin(s.fam) && Proc(s, p) && Person(s.fam, p) && Mortal(s, Post(s.fam, p))
    requires k.Valid() && k.Abs() == Stage(s, p, |s.fam.kids[p]|) && Clean(s, Gone(s.fam, p, |s.fam.kids[p]|))
    modifies k, k.pNext, k.sNext
    ensures ok <==> Clean(s, Post(s.fam, p))
    ensures ok ==> k.Valid() && k.Abs() == Reaped(s, Post(s.fam, p))
    ensures !ok ==> !Meaningful(k.Img())
  {
    hide Rep, Reaped, Kin, Post, Stage, Gone, Mortal, Clean, Meaningful;
    RootReady(s, p);
    ok := Bury(k, p);
    StageEnd(s, p);
  }

  lemma NoneGone(s: Sys, p: int)
    requires Sized(s) && Kin(s.fam) && Proc(s, p) && Person(s.fam, p)
    ensures Clean(s, Gone(s.fam, p, 0))
  {
  }

  /** After the last round p itself can be buried. */
  lemma RootReady(s: Sys, p: int)
    requires Sized(s) && Kin(s.fam) && Proc(s, p) && Person(s.fam, p) && Mortal(s, Post(s.fam, p))
    ensures var n := |s.fam.kids[p]|; var r := Stage(s, p, n);
      |r.loc| == |s.loc| && r.fam.parent[p] == NIL && r.fam.kids[p] == [] && Mortal(r, [p])
      && (Clean(s, Post(s.fam, p)) <==> Clean(s, Gone(s.fam, p, n)) && Clean(r, [p]))
  {
    hide Kin, Post, Gone, Stage, Reaped;
    var n := |s.fam.kids[p]|;
    StageKids(s, p, n);
    GoneAll(s, p);
    CleanConcat(s, Gone(s.fam, p, n), [p]);
    assert p in Post(s.fam, p);
  }

  lemma NoEmptyLine(i: Image)
    requires Rep(i)
    ensures forall a :: a in i.s.wait ==> i.s.wait[a] != []
  {
    hide Threaded, Table, Kids, Housed, Pointed, Vacant;
  }

  // ----- terminateProcess -----

  /** The progeny of a living process can be terminated. */
  lemma CanReap(s: Sys, p: int)
    requires Inv(s) && Proc(s, p) && s.loc[p] != Free && s.mode != Broken
    ensures Person(s.fam, p) && Mortal(s, Post(s.fam, p))
    ensures Nucleus.TerminateProgeny(s, p).mode == Broken <==> !Clean(s, Post(s.fam, p))
    ensures Clean(s, Post(s.fam, p)) ==> Nucleus.TerminateProgeny(s, p) == Reaped(s, Post(s.fam, p))
  {
    hide Kin, Post, Seated, Softened, C.Conserved, Tagged, Clean;
    LiveSubtree(s, p);
  }

  lemma FoundLive(s: Sys, id: int)
    requires Inv(s) && s.cur != NIL
    ensures Person(s.fam, s.cur) && |s.pid| == |s.fam.kids|
    ensures var c := Nucleus.ChildByPid(s.fam, s.pid, s.cur, id); c != NIL ==> Proc(s, c) && s.loc[c] != Free
  {
    hide Parted, Linked, Seated, Softened, C.Conserved;
    assert Person(s.fam, s.cur);
    SearchFinds(s.fam, s.pid, s.cur, s.fam.kids[s.cur], id);
  }

  lemma NoChildren(f: Family, pid: seq<int>, p: int, id: int)
    requires Kin(f) && |pid| == |f.kids| && Person(f, p) && f.kids[p] == []
    ensures Nucleus.ChildByPid(f, pid, p, id) == NIL
  {
  }

  lemma CurrentOff(s: Sys)
    requires Inv(s) && s.cur != NIL
    ensures Proc(s, s.cur) && s.loc[s.cur] == Off && Kin(s.fam) && Sized(s) && s.count >= 0
  {
    hide Kin, Linked, Seated, Softened, C.Conserved;
    CurOff(s);
    CountLive(s);
  }

  lemma CountLive(s: Sys)
    requires Partition(s) && Sized(s)
    ensures s.count >= 0
  {
    FreeFits(s.free, |s.loc|);
  }

  /** SYS2 */
  method TerminateProcess(k: Kernel, id: int) returns (ok: bool)
    requires k.Valid() && Inv(k.Abs()) && k.cur != NIL && Live(k.Abs())
    modifies k, k.pNext, k.pSib, k.sNext
    ensures ok <==> Terminate(old(k.Abs()), id).mode != Broken
    ensures ok ==> k.Valid() && k.Abs() == Terminate(old(k.Abs()), id)
    ensures !ok ==> !Meaningful(k.Img())
  {
    hide Rep, Inv, Kin, Post, Reaped, Mortal, Clean, Nucleus.TerminateProgeny, Nucleus.ChildByPid, Meaningful;
    ghost var s := k.Abs();
    CurrentOff(s);
    FoundLive(s, id);
    ok := true;
    if id != 0 {
      var empty := Pcb.EmptyChild(k, k.cur);
      if !empty {
        var child := Pcb.ChildByPid(k, k.cur, id);
        if child != NIL {
          CanReap(s, child);
          ok := TerminateProgeny(k, child);
        }
      } else {
        NoChildren(s.fam, s.pid, s.cur, id);
      }
    } else {
      CanReap(s, k.cur);
      ok := TerminateProgeny(k, k.cur);
      if ok {
        ReapedKeeps(s, Post(s.fam, s.cur));
        SetCurrent(k, NIL);
      }
    }
  }

  lemma ReapedKeeps(s: Sys, vs: seq<int>)
    requires Sized(s)
    ensures Sized(Reaped(s, vs)) && Reaped(s, vs).mode == s.mode
  {
  }
}
