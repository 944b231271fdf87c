/** How the abstract queues, the list of active semaphores and the child lists are threaded
    through the link cells of the process and descriptor tables. */
module Threads {
  import opened Lists
  import opened Clist
  import opened Forest
  import opened Nucleus
  import opened Invariant

  // ----- p_list -----

  datatype Queues = Queues(free: seq<int>, ready: seq<int>, wait: map<int, seq<int>>)

  /** Tail pointers: pcbFree, g_ready_queue, s_procq of each descriptor, and which
      descriptor serves which semaphore. */
  datatype Tails = Tails(free: int, ready: int, procq: seq<int>, desc: map<int, int>)

  function QueueAt(q: Queues, tag: Loc): seq<int> {
    match tag
    case Free => q.free
    case Ready => q.ready
    case Waiting(a) => Line(q.wait, a)
    case Off => []
  }

  function TailAt(t: Tails, tag: Loc): int {
    match tag
    case Free => t.free
    case Ready => t.ready
    case Waiting(a) => if a in t.desc && 0 <= t.desc[a] < |t.procq| then t.procq[t.desc[a]] else NIL
    case Off => NIL
  }

  /** Each queue is a circular list of exactly the processes located there. */
  ghost predicate Threaded(pn: seq<int>, loc: seq<Loc>, q: Queues, t: Tails) {
    forall tag: Loc :: tag != Off ==> IsList(pn, TailAt(t, tag), QueueAt(q, tag)) && Tagged(QueueAt(q, tag), loc, tag)
  }

  lemma ThreadAt(pn: seq<int>, loc: seq<Loc>, q: Queues, t: Tails, tag: Loc)
    requires Threaded(pn, loc, q, t) && tag != Off
    ensures IsList(pn, TailAt(t, tag), QueueAt(q, tag)) && Tagged(QueueAt(q, tag), loc, tag)
  {
  }

  /** Only links of processes at tag, and of p, have changed; p came to tag or left it. */
  lemma ThreadMoved(pn: seq<int>, loc: seq<Loc>, q: Queues, t: Tails,
                    pn': seq<int>, q': Queues, t': Tails, tag: Loc, p: int, x: Loc, es: seq<int>)
    requires Threaded(pn, loc, q, t) && SameBut(pn, pn', es) && 0 <= p < |loc|
    requires (loc[p] == tag && x == Off) || (loc[p] == Off && x == tag)
    requires forall e :: e in es ==> 0 <= e < |loc| && (loc[e] == tag || e == p)
    requires forall u: Loc :: u != tag ==> QueueAt(q', u) == QueueAt(q, u) && TailAt(t', u) == TailAt(t, u)
    requires IsList(pn', TailAt(t', tag), QueueAt(q', tag)) && Tagged(QueueAt(q', tag), loc[p := x], tag)
    ensures Threaded(pn', loc[p := x], q', t')
  {
    forall u: Loc | u != Off
      ensures IsList(pn', TailAt(t', u), QueueAt(q', u)) && Tagged(QueueAt(q', u), loc[p := x], u)
    {
      if u != tag {
        ThreadAt(pn, loc, q, t, u);
        var l := QueueAt(q, u);
        Frame(pn, pn', es, TailAt(t, u), l);
        SetAllOne(loc, p, x);
        TagStay(l, loc, u, [p], x);
      }
    }
  }

  /** p joins the end of the queue at tag. */
  lemma TagJoin(q: seq<int>, loc: seq<Loc>, tag: Loc, p: int)
    requires Tagged(q, loc, tag) && 0 <= p < |loc| && loc[p] != tag
    ensures Tagged(q + [p], loc[p := tag], tag)
  {
    SetAllOne(loc, p, tag);
    TagIn(q, loc, tag, [p]);
  }

  /** p leaves the queue at tag. */
  lemma TagLeave(q: seq<int>, loc: seq<Loc>, tag: Loc, p: int)
    requires Tagged(q, loc, tag) && 0 <= p < |loc| && tag != Off
    ensures Tagged(Minus(q, [p]), loc[p := Off], tag)
  {
    SetAllOne(loc, p, Off);
    TagOut(q, loc, tag, [p], Off);
  }

  /** Nothing changed at the other locations. */
  ghost predicate Elsewhere(q: Queues, t: Tails, q': Queues, t': Tails, tag: Loc) {
    forall u: Loc :: u != tag ==> QueueAt(q', u) == QueueAt(q, u) && TailAt(t', u) == TailAt(t, u)
  }

  lemma ThreadJoin(pn: seq<int>, loc: seq<Loc>, q: Queues, t: Tails, pn': seq<int>, q': Queues, t': Tails, tag: Loc,
      p: int)
    requires Threaded(pn, loc, q, t) && Elsewhere(q, t, q', t', tag) && tag != Off
    requires 0 <= p < |loc| && loc[p] == Off
    requires SameBut(pn, pn', QueueAt(q, tag) + [p]) && QueueAt(q', tag) == QueueAt(q, tag) + [p]
    requires IsList(pn', TailAt(t', tag), QueueAt(q', tag))
    ensures Threaded(pn', loc[p := tag], q', t')
  {
    ThreadAt(pn, loc, q, t, tag);
    TagJoin(QueueAt(q, tag), loc, tag, p);
    ThreadMoved(pn, loc, q, t, pn', q', t', tag, p, tag, QueueAt(q, tag) + [p]);
  }

  lemma ThreadLeave(pn: seq<int>, loc: seq<Loc>, q: Queues, t: Tails, pn': seq<int>, q': Queues, t': Tails, tag: Loc,
      p: int)
    requires Threaded(pn, loc, q, t) && Elsewhere(q, t, q', t', tag) && tag != Off
    requires 0 <= p < |loc| && loc[p] == tag
    requires SameBut(pn, pn', QueueAt(q, tag)) && QueueAt(q', tag) == Minus(QueueAt(q, tag), [p])
    requires IsList(pn', TailAt(t', tag), QueueAt(q', tag))
    ensures Threaded(pn', loc[p := Off], q', t')
  {
    ThreadAt(pn, loc, q, t, tag);
    TagLeave(QueueAt(q, tag), loc, tag, p);
    ThreadMoved(pn, loc, q, t, pn', q', t', tag, p, Off, QueueAt(q, tag));
  }

  /** The link of a process on no queue is free to change. */
  lemma ThreadIdle(pn: seq<int>, loc: seq<Loc>, q: Queues, t: Tails, pn': seq<int>, p: int)
    requires Threaded(pn, loc, q, t) && SameBut(pn, pn', [p]) && 0 <= p < |loc| && loc[p] == Off
    ensures Threaded(pn', loc, q, t)
  {
    forall u: Loc | u != Off
      ensures IsList(pn', TailAt(t, u), QueueAt(q, u)) && Tagged(QueueAt(q, u), loc, u)
    {
      ThreadAt(pn, loc, q, t, u);
      Frame(pn, pn', [p], TailAt(t, u), QueueAt(q, u));
    }
  }

  // ----- s_link -----

  /** The list of active descriptors and the list of free ones, which have none in common. */
  ghost predicate Shelved(sn: seq<int>, aslh: int, semdFree: int, act: seq<int>, idle: seq<int>) {
    && IsList(sn, aslh, act) && IsList(sn, semdFree, idle)
    && (forall d :: d in act ==> d !in idle)
  }

  /** The active descriptors stand in ascending order of the addresses they serve. */
  ghost predicate Sorted(act: seq<int>, add: seq<int>) {
    forall i, j :: 0 <= i < j < |act| && 0 <= act[i] < |add| && 0 <= act[j] < |add| ==> add[act[i]] < add[act[j]]
  }

  /** desc leads from each address served to its descriptor. */
  ghost predicate Index(act: seq<int>, add: seq<int>, desc: map<int, int>) {
    && (forall d :: d in act ==> 0 <= d < |add| && add[d] in desc && desc[add[d]] == d)
    && (forall a :: a in desc ==> 0 <= desc[a] < |add| && desc[a] in act && add[desc[a]] == a)
  }

  ghost predicate Table(sn: seq<int>, aslh: int, semdFree: int, act: seq<int>, idle: seq<int>, add: seq<int>,
      desc: map<int, int>) {
    |add| == |sn| && Shelved(sn, aslh, semdFree, act, idle) && Sorted(act, add) && Index(act, add, desc)
  }

  lemma Ascends(act: seq<int>, add: seq<int>, i: nat, k: nat)
    requires Sorted(act, add) && i <= k < |act| && 0 <= act[i] < |add| && 0 <= act[k] < |add|
    ensures add[act[i]] <= add[act[k]]
  {
  }

  /** The early exit of the scans decides membership: scanning in ascending order up to the
      first address that is not smaller finds the key or shows that it is absent. */
  lemma ScanDecides(act: seq<int>, add: seq<int>, desc: map<int, int>, key: int, i: nat)
    requires Sorted(act, add) && Index(act, add, desc) && i <= |act|
    requires forall j :: 0 <= j < i ==> 0 <= act[j] < |add| ==> add[act[j]] < key
    requires i < |act| ==> 0 <= act[i] < |add| && add[act[i]] >= key
    ensures key in desc <==> i < |act| && add[act[i]] == key
    ensures key in desc ==> desc[key] == act[i]
  {
    if i < |act| {
      var d := act[i];
      assert d in act;
    }
    if key in desc {
      var d := desc[key];
      var k :| 0 <= k < |act| && act[k] == d;
      assert add[act[k]] == key;
      if i < |act| {
        Ascends(act, add, i, k);
      }
    }
  }

  /** Descriptor d is put into service for key before position i. */
  lemma SortedInsert(act: seq<int>, add: seq<int>, i: nat, d: int, key: int)
    requires Sorted(act, add) && i <= |act| && 0 <= d < |add| && d !in act
    requires forall j :: 0 <= j < |act| ==> 0 <= act[j] < |add|
    requires forall j :: 0 <= j < i ==> add[act[j]] < key
    requires forall j :: i <= j < |act| ==> key < add[act[j]]
    ensures Sorted(act[..i] + [d] + act[i..], add[d := key])
  {
    var t, add' := act[..i] + [d] + act[i..], add[d := key];
    forall j, k | 0 <= j < k < |t| && 0 <= t[j] < |add| && 0 <= t[k] < |add|
      ensures add'[t[j]] < add'[t[k]]
    {
      assert j < i ==> t[j] == act[j] && act[j] in act;
      assert j > i ==> t[j] == act[j - 1] && act[j - 1] in act;
      assert k < i ==> t[k] == act[k] && act[k] in act;
      assert k > i ==> t[k] == act[k - 1] && act[k - 1] in act;
    }
  }

  lemma IndexInsert(act: seq<int>, add: seq<int>, desc: map<int, int>, i: nat, d: int, key: int)
    requires Index(act, add, desc) && i <= |act| && 0 <= d < |add| && d !in act && key !in desc
    ensures Index(act[..i] + [d] + act[i..], add[d := key], desc[key := d])
  {
    var t := act[..i] + [d] + act[i..];
    assert act == act[..i] + act[i..];
    assert forall e :: e in t <==> e == d || e in act;
  }

  lemma {:induction false} SortedRemove(act: seq<int>, add: seq<int>, d: int)
    requires Sorted(act, add)
    ensures Sorted(Minus(act, [d]), add)
  {
    if act != [] {
      SortedRemove(act[1..], add, d);
      var r := Minus(act[1..], [d]);
      forall k | 0 <= k < |r|
        ensures r[k] in act[1..]
      {
        var x := r[k];
        assert x in r;
      }
    }
  }

  lemma IndexRemove(act: seq<int>, add: seq<int>, desc: map<int, int>, a: int)
    requires Index(act, add, desc) && a in desc
    ensures Index(Minus(act, [desc[a]]), add, desc - {a})
  {
  }

  /** Descriptor d, the first free one, has been linked into the active list. */
  lemma ShelvedTake(sn: seq<int>, aslh: int, semdFree: int, act: seq<int>, idle: seq<int>,
                    sn1: seq<int>, semdFree1: int, sn2: seq<int>, aslh2: int, act2: seq<int>)
    requires Shelved(sn, aslh, semdFree, act, idle) && idle != []
    requires SameBut(sn, sn1, idle) && IsList(sn1, semdFree1, idle[1..])
    requires SameBut(sn1, sn2, act + [idle[0]]) && IsList(sn2, aslh2, act2)
    requires forall x :: x in act2 <==> x == idle[0] || x in act
    ensures Shelved(sn2, aslh2, semdFree1, act2, idle[1..])
  {
    var d, rest := idle[0], idle[1..];
    assert d in idle && d !in rest;
    forall x | x in rest
      ensures x !in act + [d]
    {
      assert x in idle;
    }
    Frame(sn1, sn2, act + [d], semdFree1, rest);
  }

  /** Descriptor d has been unlinked from the active list and appended to the free one. */
  lemma ShelvedReturn(sn: seq<int>, aslh: int, semdFree: int, act: seq<int>, idle: seq<int>, d: int,
                      sn1: seq<int>, aslh1: int, sn2: seq<int>, semdFree2: int)
    requires Shelved(sn, aslh, semdFree, act, idle) && d in act
    requires SameBut(sn, sn1, act) && IsList(sn1, aslh1, Minus(act, [d]))
    requires SameBut(sn1, sn2, idle + [d]) && IsList(sn2, semdFree2, idle + [d])
    ensures Shelved(sn2, aslh1, semdFree2, Minus(act, [d]), idle + [d])
  {
    InRange(sn, aslh, act);
    Frame(sn1, sn2, idle + [d], aslh1, Minus(act, [d]));
  }

  lemma InRange(m: seq<int>, tail: int, s: seq<int>)
    requires IsList(m, tail, s)
    ensures forall x :: x in s ==> 0 <= x < |m|
  {
  }

  /** The free list is intact after links of active descriptors changed. */
  lemma IdleIntact(sn: seq<int>, aslh: int, semdFree: int, act: seq<int>, idle: seq<int>, sn1: seq<int>)
    requires Shelved(sn, aslh, semdFree, act, idle) && SameBut(sn, sn1, act)
    ensures IsList(sn1, semdFree, idle)
  {
    InRange(sn, semdFree, idle);
    Frame(sn, sn1, act, semdFree, idle);
  }

  lemma ActIntact(sn: seq<int>, aslh: int, semdFree: int, act: seq<int>, idle: seq<int>, sn1: seq<int>)
    requires Shelved(sn, aslh, semdFree, act, idle) && SameBut(sn, sn1, idle)
    ensures IsList(sn1, aslh, act)
  {
    InRange(sn, semdFree, idle);
    Frame(sn, sn1, idle, aslh, act);
  }

  // ----- p_siblings -----

  ghost predicate Kids(ps: seq<int>, tails: seq<int>, f: Family) {
    && |ps| == |tails| == |f.kids|
    && (forall p :: Person(f, p) ==> IsList(ps, tails[p], f.kids[p]))
  }

  lemma KidsAt(ps: seq<int>, tails: seq<int>, f: Family, p: int)
    requires Kids(ps, tails, f) && Person(f, p)
    ensures IsList(ps, tails[p], f.kids[p])
  {
  }

  /** Only the child list of p has changed, and only links of es, which are children of p or
      orphans, differ. */
  lemma KidsMoved(ps: seq<int>, tails: seq<int>, f: Family, ps': seq<int>, t': int, f': Family, p: int, es: seq<int>)
    requires Kin(f) && Kids(ps, tails, f) && SameBut(ps, ps', es) && Person(f, p) && |f'.kids| == |f.kids|
    requires forall e :: e in es ==> Person(f, e) && (f.parent[e] == p || f.parent[e] == NIL)
    requires forall q :: Person(f, q) && q != p ==> f'.kids[q] == f.kids[q]
    requires IsList(ps', t', f'.kids[p])
    ensures Kids(ps', tails[p := t'], f')
  {
    forall q | Person(f', q)
      ensures IsList(ps', tails[p := t'][q], f'.kids[q])
    {
      assert Person(f, q);
      if q != p {
        KidsAt(ps, tails, f, q);
        forall x | x in f.kids[q]
          ensures x !in es
        {
          assert Person(f, x) && f.parent[x] == q;
        }
        Frame(ps, ps', es, tails[q], f.kids[q]);
      }
    }
  }
}
