/** The ideal semaphore behind semop: a stock of tokens and a strict first-come-first-served
    line. It is defined on the history alone; every run of the nucleus is shown to be one of
    its histories. A request is named by the position of its Asked event in the history. */
module Fifo {
  import opened Lists
  import opened Nucleus
  import opened Invariant

  /** ts are positions of requests on a in the history. */
  ghost predicate Tickets(log: seq<SemEvent>, a: int, ts: seq<nat>) {
    forall i :: 0 <= i < |ts| ==> ts[i] < |log| && log[ts[i]].Asked? && log[ts[i]].sem == a
  }

  /** The tickets ts without those of process x. */
  function Without(log: seq<SemEvent>, ts: seq<nat>, x: int): seq<nat> {
    if ts == [] then []
    else if ts[0] < |log| && log[ts[0]].Asked? && log[ts[0]].proc == x then Without(log, ts[1..], x)
    else [ts[0]] + Without(log, ts[1..], x)
  }

  /** The requests on a that are neither met nor abandoned, oldest first. */
  function Pending(log: seq<SemEvent>, a: int): seq<nat>
    decreases |log|
  {
    if log == [] then []
    else
      var n := |log| - 1;
      var before, e := Pending(log[..n], a), log[n];
      if e.sem != a then before
      else
        match e
        case Put(_, _) => before
        case Asked(_, _, _) => before + [n]
        case Met(_, _, _) => if before == [] then [] else before[1..]
        case Died(_, x) => Without(log[..n], before, x)
  }

  /** The requests on a that were met, in the order in which they were. */
  function Served(log: seq<SemEvent>, a: int): seq<nat>
    decreases |log|
  {
    if log == [] then []
    else
      var n := |log| - 1;
      var before, e := Pending(log[..n], a), log[n];
      Served(log[..n], a) + (if e.sem == a && e.Met? && before != [] then [before[0]] else [])
  }

  /** Only the oldest pending request is ever met. */
  predicate Fair(log: seq<SemEvent>, a: int)
    decreases |log|
  {
    log == [] ||
    var n := |log| - 1;
    var before, e := Pending(log[..n], a), log[n];
    && Fair(log[..n], a)
    && (e.sem == a && e.Met? ==> before != [] && before[0] < n && log[before[0]] == Asked(a, e.proc, e.request))
  }

  /** Tokens put minus tokens taken by requests that were met. */
  function Balance(log: seq<SemEvent>, a: int): int
    decreases |log|
  {
    if log == [] then 0
    else
      var n := |log| - 1;
      var e := log[n];
      Balance(log[..n], a)
      + (if e.sem != a then 0 else if e.Put? then e.weight else if e.Met? then -e.request else 0)
  }

  /** The requests on a that were abandoned because their process was terminated. */
  function Lost(log: seq<SemEvent>, a: int): set<nat>
    decreases |log|
  {
    if log == [] then {}
    else
      var n := |log| - 1;
      var before, after := Pending(log[..n], a), Pending(log, a);
      Lost(log[..n], a) + (if log[n].sem == a && log[n].Died? then set t | t in before && t !in after else {})
  }

  // ----- no overtaking, on histories -----

  ghost predicate Ascending(ts: seq<nat>) {
    forall i, j :: 0 <= i < j < |ts| ==> ts[i] < ts[j]
  }

  lemma {:induction false} WithoutIsPart(log: seq<SemEvent>, ts: seq<nat>, x: int)
    ensures forall i :: 0 <= i < |Without(log, ts, x)| ==> Without(log, ts, x)[i] in ts
  {
    if ts != [] {
      WithoutIsPart(log, ts[1..], x);
    }
  }

  lemma {:induction false} WithoutAscends(log: seq<SemEvent>, ts: seq<nat>, us: seq<nat>, x: int)
    requires Ascending(us + ts)
    ensures Ascending(us + Without(log, ts, x))
    decreases |ts|
  {
    if ts != [] {
      var t := ts[0];
      assert us + ts == (us + [t]) + ts[1..];
      if t < |log| && log[t].Asked? && log[t].proc == x {
        Skip(us, t, ts[1..]);
        WithoutAscends(log, ts[1..], us, x);
      } else {
        WithoutAscends(log, ts[1..], us + [t], x);
        assert (us + [t]) + Without(log, ts[1..], x) == us + ([t] + Without(log, ts[1..], x));
      }
    }
  }

  lemma Skip(us: seq<nat>, t: nat, ts: seq<nat>)
    requires Ascending(us + [t] + ts)
    ensures Ascending(us + ts)
  {
    var l := us + [t] + ts;
    forall i, j | 0 <= i < j < |us + ts|
      ensures (us + ts)[i] < (us + ts)[j]
    {
      assert (us + ts)[i] == l[if i < |us| then i else i + 1];
      assert (us + ts)[j] == l[if j < |us| then j else j + 1];
    }
  }

  lemma {:induction false} AllTickets(log: seq<SemEvent>, a: int)
    ensures Tickets(log, a, Served(log, a)) && Tickets(log, a, Pending(log, a))
    decreases |log|
  {
    if log != [] {
      var n := |log| - 1;
      var e, before := log[n], Pending(log[..n], a);
      AllTickets(log[..n], a);
      TicketsGrow(log, a, before);
      TicketsGrow(log, a, Served(log[..n], a));
      if e.sem == a && e.Died? {
        WithoutIsPart(log[..n], before, e.proc);
      }
    }
  }

  lemma Handover<T>(x: seq<T>, y: seq<T>)
    requires y != []
    ensures (x + [y[0]]) + y[1..] == x + y
  {
  }

  /** What one event does to the met and pending requests taken together. */
  lemma OneEvent(log: seq<SemEvent>, a: int)
    requires log != []
    ensures var n := |log| - 1;
      var e, done, before := log[n], Served(log[..n], a), Pending(log[..n], a);
      Served(log, a) + Pending(log, a) ==
        if e.sem == a && e.Asked? then (done + before) + [n]
        else if e.sem == a && e.Died? then done + Without(log[..n], before, e.proc)
        else done + before
  {
    hide Without;
    var n := |log| - 1;
    var e, done, before := log[n], Served(log[..n], a), Pending(log[..n], a);
    if e.sem == a && e.Met? && before != [] {
      Handover(done, before);
    } else {
      assert Served(log, a) == done;
      Assoc(done, before, [n]);
    }
  }

  /** Requests are met in the order in which they were made, and the pending ones are all
      younger than every one that was met. */
  lemma {:induction false} ServedInOrder(log: seq<SemEvent>, a: int)
    ensures Ascending(Served(log, a) + Pending(log, a))
    decreases |log|
  {
    if log != [] {
      hide Ascending;
      var n := |log| - 1;
      var e, before, done := log[n], Pending(log[..n], a), Served(log[..n], a);
      ServedInOrder(log[..n], a);
      OneEvent(log, a);
      if e.sem == a && e.Asked? {
        AllTickets(log[..n], a);
        Append(done + before, n);
      } else if e.sem == a && e.Died? {
        WithoutAscends(log[..n], before, done, e.proc);
      }
    }
  }

  lemma Append(ts: seq<nat>, n: nat)
    requires Ascending(ts) && forall i :: 0 <= i < |ts| ==> ts[i] < n
    ensures Ascending(ts + [n])
  {
  }

  lemma TicketsGrow(log: seq<SemEvent>, a: int, ts: seq<nat>)
    requires log != [] && Tickets(log[..|log| - 1], a, ts)
    ensures Tickets(log, a, ts) && forall i :: 0 <= i < |ts| ==> ts[i] < |log| - 1
  {
  }

  /** Met requests followed by the pending line are the requests made, in order, less those
      whose process was terminated while waiting. */
  lemma {:induction false} NothingForgotten(log: seq<SemEvent>, a: int, t: nat)
    ensures t in Served(log, a) + Pending(log, a)
      <==> t < |log| && log[t].Asked? && log[t].sem == a && t !in Lost(log, a)
    ensures t in Lost(log, a) ==> t < |log| && t !in Served(log, a) + Pending(log, a)
    decreases |log|
  {
    if log != [] {
      var n := |log| - 1;
      var e, before, done := log[n], Pending(log[..n], a), Served(log[..n], a);
      NothingForgotten(log[..n], a, t);
      OneEvent(log, a);
      if e.sem == a && e.Died? {
        WithoutIsPart(log[..n], before, e.proc);
        ServedApart(log[..n], a, t);
      }
    }
  }

  lemma ServedApart(log: seq<SemEvent>, a: int, t: nat)
    ensures !(t in Served(log, a) && t in Pending(log, a))
  {
    ServedInOrder(log, a);
    var done, p := Served(log, a), Pending(log, a);
    forall i, j | 0 <= i < |done| && 0 <= j < |p|
      ensures done[i] != p[j]
    {
      assert (done + p)[i] < (done + p)[|done| + j];
    }
  }

  // ----- the nucleus keeps such a history -----

  /** The tickets ts are the requests of the waiting line q, in the same order. */
  ghost predicate Matches(log: seq<SemEvent>, ts: seq<nat>, a: int, q: seq<int>, req: seq<int>) {
    && |ts| == |q|
    && (forall i :: 0 <= i < |q| ==> 0 <= q[i] < |req| && ts[i] < |log| && log[ts[i]] == Asked(a, q[i], req[q[i]]))
  }

  /** The line and the value of semaphore a are what the ideal semaphore has at the end of
      the history, from the initial value v0. */
  ghost predicate Booked(log: seq<SemEvent>, a: int, q: seq<int>, req: seq<int>, val: int, v0: int) {
    && Fair(log, a)
    && Matches(log, Pending(log, a), a, q, req)
    && val == v0 + Balance(log, a)
  }

  function Base(v0: map<int, int>, a: int): int { if a in v0 then v0[a] else 0 }

  ghost predicate Books(s: Sys, v0: map<int, int>) {
    forall a :: Booked(s.log, a, Queue(s, a), s.req, Val(s, a), Base(v0, a))
  }

  lemma MatchesGrow(log: seq<SemEvent>, e: SemEvent, ts: seq<nat>, a: int, q: seq<int>, req: seq<int>)
    requires Matches(log, ts, a, q, req)
    ensures Matches(log + [e], ts, a, q, req)
  {
  }

  lemma OneMore(log: seq<SemEvent>, e: SemEvent)
    ensures |log + [e]| - 1 == |log| && (log + [e])[..|log|] == log && (log + [e])[|log|] == e
  {
  }

  /** An event on another semaphore, or a deposit. */
  lemma BookOther(log: seq<SemEvent>, e: SemEvent, a: int, q: seq<int>, req: seq<int>, val: int, v0: int)
    requires Booked(log, a, q, req, val, v0) && (e.sem != a || e.Put?)
    ensures Booked(log + [e], a, q, req, if e.sem == a then val + e.weight else val, v0)
  {
    OneMore(log, e);
    MatchesGrow(log, e, Pending(log, a), a, q, req);
  }

  lemma BookAsked(log: seq<SemEvent>, a: int, q: seq<int>, req: seq<int>, val: int, v0: int, p: int, r: int)
    requires Booked(log, a, q, req, val, v0) && 0 <= p < |req| && p !in q
    ensures Booked(log + [Asked(a, p, r)], a, q + [p], req[p := r], val, v0)
  {
    var e := Asked(a, p, r);
    OneMore(log, e);
    var ts := Pending(log, a);
    assert Pending(log + [e], a) == ts + [|log|];
    forall i | 0 <= i < |q + [p]|
      ensures 0 <= (q + [p])[i] < |req| && (ts + [|log|])[i] <= |log|
        && (log + [e])[(ts + [|log|])[i]] == Asked(a, (q + [p])[i], req[p := r][(q + [p])[i]])
    {
      if i < |q| {
        assert q[i] in q;
      }
    }
  }

  /** Meeting the request at the head of the line. */
  lemma BookMet(log: seq<SemEvent>, a: int, q: seq<int>, req: seq<int>, val: int, v0: int)
    requires Booked(log, a, q, req, val, v0) && q != [] && 0 <= q[0] < |req|
    ensures Booked(log + [Met(a, q[0], req[q[0]])], a, q[1..], req, val - req[q[0]], v0)
  {
    var e := Met(a, q[0], req[q[0]]);
    OneMore(log, e);
    var ts := Pending(log, a);
    assert Pending(log + [e], a) == ts[1..];
  }

  lemma DropOne<T>(q: seq<T>, k: nat)
    requires 0 < k <= |q|
    ensures q[k - 1..][1..] == q[k..] && q[k - 1..][0] == q[k - 1]
  {
  }

  lemma MeetsLast(a: int, l: seq<int>, req: seq<int>)
    requires l != [] && forall i :: 0 <= i < |l| ==> 0 <= l[i] < |req|
    ensures var n := |l| - 1; Meets(a, l, req) == Meets(a, l[..n], req) + [Met(a, l[n], req[l[n]])]
  {
  }

  lemma {:induction false} BookMeets(log: seq<SemEvent>, a: int, q: seq<int>, k: nat, req: seq<int>, val: int, v0: int)
    requires Booked(log, a, q, req, val, v0) && k <= |q|
    requires forall i :: 0 <= i < |q| ==> 0 <= q[i] < |req|
    ensures Booked(log + Meets(a, q[..k], req), a, q[k..], req, val - Total(q[..k], req), v0)
    decreases k
  {
    hide Booked, Total;
    if k == 0 {
      assert log + Meets(a, q[..0], req) == log && q[0..] == q;
      TotalNone(q[..0], req);
    } else {
      hide Meets;
      BookMeets(log, a, q, k - 1, req, val, v0);
      var l := q[..k];
      MeetsLast(a, l, req);
      TotalLast(l, req);
      assert l[..k - 1] == q[..k - 1];
      DropOne(q, k);
      var log1 := log + Meets(a, q[..k - 1], req);
      assert log1 + [Met(a, q[k - 1], req[q[k - 1]])] == log + Meets(a, l, req);
      BookMet(log1, a, q[k - 1..], req, val - Total(q[..k - 1], req), v0);
    }
  }

  lemma TotalNone(q: seq<int>, req: seq<int>)
    requires q == []
    ensures Total(q, req) == 0
  {
  }

  lemma {:induction false} TotalLast(q: seq<int>, req: seq<int>)
    requires q != [] && forall i :: 0 <= i < |q| ==> 0 <= q[i] < |req|
    ensures Total(q, req) == Total(q[..|q| - 1], req) + req[q[|q| - 1]]
  {
    if |q| > 1 {
      TotalLast(q[1..], req);
      assert q[1..][..|q| - 2] == q[..|q| - 1][1..];
    }
  }

  lemma {:induction false} BookForeign(log: seq<SemEvent>, es: seq<SemEvent>, a: int, q: seq<int>, req: seq<int>,
      val: int, v0: int)
    requires Booked(log, a, q, req, val, v0)
    requires forall i :: 0 <= i < |es| ==> es[i].sem != a
    ensures Booked(log + es, a, q, req, val, v0)
    decreases |es|
  {
    if es == [] {
      assert log + es == log;
    } else {
      var n := |es| - 1;
      BookForeign(log, es[..n], a, q, req, val, v0);
      BookOther(log + es[..n], es[n], a, q, req, val, v0);
      assert (log + es[..n]) + [es[n]] == log + es;
    }
  }

  /** Only the requests of those in line matter. */
  lemma BookFrame(log: seq<SemEvent>, a: int, q: seq<int>, req: seq<int>, req': seq<int>, val: int, v0: int)
    requires Booked(log, a, q, req, val, v0) && |req'| == |req|
    requires forall i :: 0 <= i < |q| && 0 <= q[i] < |req| ==> req'[q[i]] == req[q[i]]
    ensures Booked(log, a, q, req', val, v0)
  {
  }

  lemma {:induction false} WithoutMatches(log: seq<SemEvent>, ts: seq<nat>, a: int, q: seq<int>, req: seq<int>, x: int)
    requires Matches(log, ts, a, q, req)
    ensures Matches(log, Without(log, ts, x), a, Minus(q, [x]), req)
    decreases |q|
  {
    if q != [] {
      assert log[ts[0]] == Asked(a, q[0], req[q[0]]);
      WithoutMatches(log, ts[1..], a, q[1..], req, x);
      if q[0] != x {
        MatchesCons(log, ts[0], Without(log, ts[1..], x), a, q[0], Minus(q[1..], [x]), req);
      }
    }
  }

  lemma MatchesCons(log: seq<SemEvent>, t: nat, ts: seq<nat>, a: int, x: int, q: seq<int>, req: seq<int>)
    requires t < |log| && 0 <= x < |req| && log[t] == Asked(a, x, req[x]) && Matches(log, ts, a, q, req)
    ensures Matches(log, [t] + ts, a, [x] + q, req)
  {
  }

  lemma BookDied(log: seq<SemEvent>, a: int, q: seq<int>, req: seq<int>, val: int, v0: int, x: int)
    requires Booked(log, a, q, req, val, v0)
    ensures Booked(log + [Died(a, x)], a, Minus(q, [x]), req, val, v0)
  {
    var e := Died(a, x);
    OneMore(log, e);
    WithoutMatches(log, Pending(log, a), a, q, req, x);
    MatchesGrow(log, e, Without(log, Pending(log, a), x), a, Minus(q, [x]), req);
  }

  lemma {:induction false} BookDeaths(log: seq<SemEvent>, loc: seq<Loc>, vs: seq<int>, a: int, q: seq<int>,
      req: seq<int>, val: int, v0: int)
    requires Booked(log, a, q, req, val, v0)
    requires forall p :: p in q ==> 0 <= p < |loc| && loc[p] == Waiting(a)
    ensures Booked(log + Deaths(loc, vs), a, Minus(q, vs), req, val, v0)
    decreases |vs|
  {
    hide Booked;
    if vs == [] {
      MinusNothing(q, vs);
      assert log + Deaths(loc, vs) == log;
    } else {
      var v, rest := vs[0], vs[1..];
      MinusMinus(q, [v], rest);
      assert [v] + rest == vs;
      if 0 <= v < |loc| && loc[v].Waiting? {
        var e := Died(loc[v].sem, v);
        if loc[v].sem == a {
          BookDied(log, a, q, req, val, v0, v);
        } else {
          MinusNothing(q, [v]);
          BookOther(log, e, a, q, req, val, v0);
        }
        BookDeaths(log + [e], loc, rest, a, Minus(q, [v]), req, val, v0);
        assert (log + [e]) + Deaths(loc, rest) == log + Deaths(loc, vs);
      } else {
        MinusNothing(q, [v]);
        BookDeaths(log, loc, rest, a, Minus(q, [v]), req, val, v0);
        assert Deaths(loc, vs) == Deaths(loc, rest);
      }
    }
  }

  // ----- the books of every semaphore, step by step -----

  lemma ReleaseBooks(s: Sys, a: int, w: int, v0: map<int, int>)
    requires Sized(s) && Partition(s) && Lines(s) && Books(s, v0)
    ensures Books(Release(s, a, w), v0)
  {
    var r := Release(s, a, w);
    forall b
      ensures Booked(r.log, b, Queue(r, b), r.req, Val(r, b), Base(v0, b))
    {
      if b == a {
        ReleaseBookSame(s, a, w, v0);
      } else {
        ReleaseBookOther(s, a, w, b, v0);
      }
    }
  }

  lemma QueueTagged(s: Sys, a: int)
    requires Partition(s)
    ensures NoDup(Queue(s, a)) && forall p :: p in Queue(s, a) ==> Proc(s, p) && s.loc[p] == Waiting(a)
    ensures forall p :: Proc(s, p) && s.loc[p] == Waiting(a) ==> p in Queue(s, a)
  {
  }

  lemma ReleaseBookSame(s: Sys, a: int, w: int, v0: map<int, int>)
    requires Sized(s) && Partition(s) && Lines(s) && Books(s, v0)
    ensures var r := Release(s, a, w); Booked(r.log, a, Queue(r, a), r.req, Val(r, a), Base(v0, a))
  {
    hide Booked, Books, Release, Parted, Fits, Total, NoDup;
    var q := Queue(s, a);
    var k := Fits(q, s.req, w + Val(s, a));
    ReleaseEffect(s, a, w);
    QueueTagged(s, a);
    PrefixNoDup(q, k);
    BooksAt(s, a, v0);
    BookOther(s.log, Put(a, w), a, q, s.req, Val(s, a), Base(v0, a));
    BookMeets(s.log + [Put(a, w)], a, q, k, s.req, Val(s, a) + w, Base(v0, a));
    var log' := s.log + [Put(a, w)] + Meets(a, q[..k], s.req);
    BookZeroed(log', a, q[k..], s.req, q[..k], Val(s, a) + w - Total(q[..k], s.req), Base(v0, a));
  }

  lemma BookZeroed(log: seq<SemEvent>, a: int, q: seq<int>, req: seq<int>, vs: seq<int>, val: int, v0: int)
    requires Booked(log, a, q, req, val, v0) && forall x :: x in q ==> x !in vs
    ensures Booked(log, a, q, SetAll(req, vs, 0), val, v0)
  {
    forall i | 0 <= i < |q| && 0 <= q[i] < |req|
      ensures SetAll(req, vs, 0)[q[i]] == req[q[i]]
    {
      var x := q[i];
      assert x in q;
    }
    BookFrame(log, a, q, req, SetAll(req, vs, 0), val, v0);
  }

  lemma BooksAt(s: Sys, a: int, v0: map<int, int>)
    requires Books(s, v0)
    ensures Booked(s.log, a, Queue(s, a), s.req, Val(s, a), Base(v0, a))
  {
  }

  lemma ReleaseBookOther(s: Sys, a: int, w: int, b: int, v0: map<int, int>)
    requires Sized(s) && Partition(s) && Lines(s) && Books(s, v0) && b != a
    ensures var r := Release(s, a, w); Booked(r.log, b, Queue(r, b), r.req, Val(r, b), Base(v0, b))
  {
    hide Booked, Books, Release, Parted;
    var q, z := Queue(s, a), Queue(s, b);
    var k := Fits(q, s.req, w + Val(s, a));
    ReleaseEffect(s, a, w);
    QueueTagged(s, a);
    QueueTagged(s, b);
    BooksAt(s, b, v0);
    BookForeign(s.log, [Put(a, w)], b, z, s.req, Val(s, b), Base(v0, b));
    BookForeign(s.log + [Put(a, w)], Meets(a, q[..k], s.req), b, z, s.req, Val(s, b), Base(v0, b));
    assert forall x :: x in q[..k] ==> x in q;
    BookZeroed(s.log + [Put(a, w)] + Meets(a, q[..k], s.req), b, z, s.req, q[..k], Val(s, b), Base(v0, b));
  }

  lemma AcquireBooks(s: Sys, a: int, r: int, t: nat, v0: map<int, int>)
    requires Sized(s) && Partition(s) && Books(s, v0) && s.cur != NIL
    ensures Books(Acquire(s, a, r, t), v0)
  {
    var s', p := Acquire(s, a, r, t), s.cur;
    CurOff(s);
    forall b
      ensures Booked(s'.log, b, Queue(s', b), s'.req, Val(s', b), Base(v0, b))
    {
      BooksAt(s, b, v0);
      QueueTagged(s, b);
      AcquireBook(s, a, r, t, b, v0);
    }
  }

  lemma AcquireBook(s: Sys, a: int, r: int, t: nat, b: int, v0: map<int, int>)
    requires Sized(s) && Booked(s.log, b, Queue(s, b), s.req, Val(s, b), Base(v0, b)) && s.cur != NIL
        && s.cur !in Queue(s, b)
    ensures var s' := Acquire(s, a, r, t); Booked(s'.log, b, Queue(s', b), s'.req, Val(s', b), Base(v0, b))
  {
    hide Booked;
    var p, q := s.cur, Queue(s, b);
    var log1 := s.log + [Asked(a, p, r)];
    if Queue(s, a) != [] || Val(s, a) - r < 0 {
      if !(Queue(s, a) == [] && s.shelf.idle == []) {
        if b == a {
          BookAsked(s.log, b, q, s.req, Val(s, b), Base(v0, b), p, r);
        } else {
          BookOther(s.log, Asked(a, p, r), b, q, s.req, Val(s, b), Base(v0, b));
          BookCur(log1, b, q, s.req, p, r, Val(s, b), Base(v0, b));
        }
      }
    } else {
      assert log1 + [Met(a, p, r)] == s.log + [Asked(a, p, r), Met(a, p, r)];
      if b == a {
        BookAsked(s.log, b, q, s.req, Val(s, b), Base(v0, b), p, r);
        assert q + [p] == [p] && [p][1..] == q;
        BookMet(log1, b, [p], s.req[p := r], Val(s, b), Base(v0, b));
        BookEmpty(log1 + [Met(a, p, r)], b, s.req[p := r], s.req, Val(s, b) - r, Base(v0, b));
      } else {
        BookOther(s.log, Asked(a, p, r), b, q, s.req, Val(s, b), Base(v0, b));
        BookOther(log1, Met(a, p, r), b, q, s.req, Val(s, b), Base(v0, b));
      }
    }
  }

  lemma BookCur(log: seq<SemEvent>, a: int, q: seq<int>, req: seq<int>, p: int, r: int, val: int, v0: int)
    requires Booked(log, a, q, req, val, v0) && p !in q && 0 <= p < |req|
    ensures Booked(log, a, q, req[p := r], val, v0)
  {
    forall i | 0 <= i < |q| && 0 <= q[i] < |req|
      ensures req[p := r][q[i]] == req[q[i]]
    {
      var x := q[i];
      assert x in q;
    }
    BookFrame(log, a, q, req, req[p := r], val, v0);
  }

  lemma BookEmpty(log: seq<SemEvent>, a: int, req: seq<int>, req': seq<int>, val: int, v0: int)
    requires Booked(log, a, [], req, val, v0)
    ensures Booked(log, a, [], req', val, v0)
  {
  }

  lemma ReapedBooks(s: Sys, vs: seq<int>, v0: map<int, int>)
    requires Sized(s) && Partition(s) && Books(s, v0)
    ensures Books(Reaped(s, vs), v0)
  {
    var r := Reaped(s, vs);
    forall b
      ensures Booked(r.log, b, Queue(r, b), r.req, Val(r, b), Base(v0, b))
    {
      QueueTagged(s, b);
      BookDeaths(s.log, s.loc, vs, b, Queue(s, b), s.req, Val(s, b), Base(v0, b));
      assert Queue(r, b) == Minus(Queue(s, b), vs);
    }
  }

  lemma CreateBooks(s: Sys, v0: map<int, int>)
    requires Inv(s) && Books(s, v0) && s.cur != NIL && (s.free != [] ==> Proc(s, s.free[0]))
    ensures Books(Create(s), v0)
  {
    var r := Create(s);
    if s.count < |s.loc| && s.free != [] {
      CreateFields(s);
      TaggedHead(s.free, s.loc, Free);
      forall b
        ensures Booked(r.log, b, Queue(r, b), r.req, Val(r, b), Base(v0, b))
      {
        QueueTagged(s, b);
        BookCur(s.log, b, Queue(s, b), s.req, s.free[0], 0, Val(s, b), Base(v0, b));
      }
    }
  }
}
