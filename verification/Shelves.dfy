/** The semaphore descriptors of src/asl.c as values: which one serves which semaphore, and the
    list of free ones. */
module Shelves {
  import opened Lists

  /** desc leads from the address of each semaphore in use to its descriptor; idle is semdFree. */
  datatype Shelf = Shelf(desc: map<int, int>, idle: seq<int>)

  /** The descriptor of a, NIL if it has none. */
  function DescOf(h: Shelf, a: int): int { if a in h.desc then h.desc[a] else NIL }

  /** insertBlocked: a semaphore without a descriptor gets the first free one. */
  function Engage(h: Shelf, a: int): Shelf {
    if a in h.desc || h.idle == [] then h else Shelf(h.desc[a := h.idle[0]], h.idle[1..])
  }

  /** removeBlocked and outBlocked: nobody waits on a any more. */
  function Retire(h: Shelf, a: int): Shelf {
    if a in h.desc then Shelf(h.desc - {a}, h.idle + [h.desc[a]]) else h
  }

  /** q up to its element d; if there is none, q and then d. */
  function UpTo(q: seq<int>, d: int): seq<int> {
    if q == [] || q[0] == d then [d] else [q[0]] + UpTo(q[1..], d)
  }

  /** What clist_enqueue of d makes of a list q that may hold d already. */
  function Enqueued(q: seq<int>, d: int): seq<int> {
    if q != [] && q[|q| - 1] == d then [d] else UpTo(q, d)
  }

  /** outBlocked of a process that is not blocked, and whose p_cursem still points to d. */
  function Refile(h: Shelf, d: int): Shelf {
    if d in h.desc.Values then h else h.(idle := Enqueued(h.idle, d))
  }

  /** How many descriptors are on one of the two lists. */
  function Slots(h: Shelf): nat { |h.desc| + |h.idle| }

  /** Descriptors in use are not free, and different semaphores have different ones. */
  ghost predicate Orderly(h: Shelf, n: nat) {
    && (forall a :: a in h.desc ==> 0 <= h.desc[a] < n && h.desc[a] !in h.idle)
    && (forall a, b :: a in h.desc && b in h.desc && h.desc[a] == h.desc[b] ==> a == b)
    && NoDup(h.idle)
    && (forall d :: d in h.idle ==> 0 <= d < n)
  }

  lemma EngageOrderly(h: Shelf, a: int, n: nat)
    requires Orderly(h, n)
    ensures Orderly(Engage(h, a), n) && Slots(Engage(h, a)) == Slots(h)
  {
    if a !in h.desc && h.idle != [] {
      var d := h.idle[0];
      assert d in h.idle && d !in h.idle[1..];
      assert forall x :: x in h.idle[1..] ==> x in h.idle;
    }
  }

  /** a has a descriptor then, and everybody else has the same as before. */
  lemma EngageKeeps(h: Shelf, a: int, n: nat)
    requires Orderly(h, n) && (a in h.desc || h.idle != [])
    ensures var r := Engage(h, a);
      r.desc.Keys == h.desc.Keys + {a} && 0 <= DescOf(r, a) < n && DescOf(r, a) == r.desc[a]
      && forall b :: b in h.desc ==> b in r.desc && r.desc[b] == h.desc[b]
  {
    if a !in h.desc {
      assert h.idle[0] in h.idle;
    }
  }

  lemma RetireKeeps(h: Shelf, a: int)
    ensures Retire(h, a).desc == h.desc - {a}
  {
  }

  lemma RetireOrderly(h: Shelf, a: int, n: nat)
    requires Orderly(h, n)
    ensures Orderly(Retire(h, a), n) && Slots(Retire(h, a)) == Slots(h)
  {
    if a in h.desc {
      MinusOne(h.desc, a);
    }
  }

  lemma MinusOne(m: map<int, int>, a: int)
    requires a in m
    ensures |m - {a}| == |m| - 1
  {
    assert (m - {a}).Keys == m.Keys - {a};
  }

  // ----- what a second clist_enqueue makes of the free list -----

  lemma {:induction false} UpToNew(q: seq<int>, d: int)
    requires d !in q
    ensures UpTo(q, d) == q + [d]
  {
    if q != [] {
      UpToNew(q[1..], d);
    }
  }

  lemma {:induction false} UpToAt(q: seq<int>, i: nat)
    requires NoDup(q) && i < |q|
    ensures UpTo(q, q[i]) == q[..i + 1]
  {
    if i > 0 {
      UpToAt(q[1..], i - 1);
      assert q[1..][..i] == q[1..i + 1];
    }
  }

  /** A listed element cuts off everything behind it; if it is the last, everything before it. */
  lemma EnqueuedAt(q: seq<int>, i: nat)
    requires NoDup(q) && i < |q|
    ensures Enqueued(q, q[i]) == if i < |q| - 1 then q[..i + 1] else [q[i]]
  {
    UpToAt(q, i);
  }

  lemma EnqueuedNew(q: seq<int>, d: int)
    requires d !in q
    ensures Enqueued(q, d) == q + [d]
  {
    UpToNew(q, d);
  }

  lemma EnqueuedSome(q: seq<int>, d: int)
    requires NoDup(q)
    ensures NoDup(Enqueued(q, d)) && forall x :: x in Enqueued(q, d) ==> x in q || x == d
  {
    if d in q {
      var i :| 0 <= i < |q| && q[i] == d;
      EnqueuedAt(q, i);
    } else {
      EnqueuedNew(q, d);
    }
  }

  lemma RefileOrderly(h: Shelf, d: int, n: nat)
    requires Orderly(h, n) && 0 <= d < n
    ensures Orderly(Refile(h, d), n) && Refile(h, d).desc == h.desc
  {
    if d !in h.desc.Values {
      EnqueuedSome(h.idle, d);
      var q := Enqueued(h.idle, d);
      forall a | a in h.desc
        ensures h.desc[a] !in q
      {
        assert h.desc[a] in h.desc.Values;
      }
    }
  }

  /** A descriptor is lost by a second enqueueing exactly if it stood behind the one enqueued, or
      anywhere before it if that was the last one; and one that was lost is found again. */
  lemma RefileSlots(h: Shelf, d: int)
    requires NoDup(h.idle)
    ensures d in h.desc.Values ==> Refile(h, d) == h
    ensures d !in h.desc.Values && d !in h.idle ==> Slots(Refile(h, d)) == Slots(h) + 1
    ensures forall i :: 0 <= i < |h.idle| && h.idle[i] == d && d !in h.desc.Values ==>
      Slots(Refile(h, d)) == Slots(h) - (if i < |h.idle| - 1 then |h.idle| - 1 - i else i)
  {
    if d !in h.desc.Values {
      if d in h.idle {
        forall i | 0 <= i < |h.idle| && h.idle[i] == d
          ensures Slots(Refile(h, d)) == Slots(h) - (if i < |h.idle| - 1 then |h.idle| - 1 - i else i)
        {
          EnqueuedAt(h.idle, i);
        }
      } else {
        EnqueuedNew(h.idle, d);
      }
    }
  }
}
