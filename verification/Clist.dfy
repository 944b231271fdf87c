/** incl/clist.h: circular singly linked lists held by their tail pointer.
    The link cells of all elements of one kind are an array `next`; a list is its
    tail, and the sequence s it stands for is a ghost argument. */
module Clist {
  import opened Lists

  /** tail is the last element of s, each link leads to the following element and
      the last link closes the circle. */
  ghost predicate IsList(next: seq<int>, tail: int, s: seq<int>) {
    && NoDup(s)
    && (forall i :: 0 <= i < |s| ==> 0 <= s[i] < |next|)
    && (if s == [] then tail == NIL else tail == s[|s| - 1] && next[tail] == s[0])
    && (forall i :: 0 <= i < |s| - 1 ==> next[s[i]] == s[i + 1])
  }

  /** The only links in which two memories differ belong to es. */
  ghost predicate SameBut(m: seq<int>, m': seq<int>, es: seq<int>) {
    |m| == |m'| && forall x :: 0 <= x < |m| && x !in es ==> m[x] == m'[x]
  }

  /** The pointer graph determines the sequence. */
  lemma {:induction false} OneReading(next: seq<int>, tail: int, s: seq<int>, t: seq<int>)
    requires IsList(next, tail, s) && IsList(next, tail, t)
    ensures s == t
  {
    if s != [] && t != [] {
      var k := 0;
      while k < |s| && k < |t|
        invariant 0 <= k <= |s| && k <= |t|
        invariant s[..k] == t[..k]
        invariant k > 0 && k < |s| && k < |t| ==> s[k] == t[k]
        invariant k == 0 ==> s[0] == t[0]
      {
        if k + 1 < |s| && k + 1 < |t| {
          assert next[s[k]] == s[k + 1] && next[t[k]] == t[k + 1];
        }
        k := k + 1;
      }
      assert s[k - 1] == t[k - 1];
    }
  }

  /** A list is undisturbed by changes to other links. */
  lemma Frame(m: seq<int>, m': seq<int>, es: seq<int>, tail: int, s: seq<int>)
    requires IsList(m, tail, s) && SameBut(m, m', es)
    requires forall x :: x in s ==> x !in es
    ensures IsList(m', tail, s)
  {
    forall i | 0 <= i < |s|
      ensures m'[s[i]] == m[s[i]]
    {
      assert s[i] in s;
    }
  }

  lemma ListNoDup(m: seq<int>, tail: int, s: seq<int>)
    requires IsList(m, tail, s)
    ensures NoDup(s)
  {
  }

  lemma SameWider(m: seq<int>, m': seq<int>, es: seq<int>, fs: seq<int>)
    requires SameBut(m, m', es) && forall x :: x in es ==> x in fs
    ensures SameBut(m, m', fs)
  {
  }

  /** The links after clist_enqueue of e on the list whose tail is given, whatever e is. */
  function Appended(m: seq<int>, tail: int, e: int): seq<int>
    requires 0 <= e < |m| && NIL <= tail < |m|
  {
    if tail == NIL then m[e := e] else m[e := m[tail]][tail := e]
  }

  lemma TailIn(m: seq<int>, tail: int, s: seq<int>)
    requires IsList(m, tail, s)
    ensures NIL <= tail < |m| && (tail == NIL <==> s == []) && (tail != NIL ==> tail in s)
  {
  }

  lemma AppendedList(m: seq<int>, tail: int, e: int, s: seq<int>)
    requires IsList(m, tail, s) && 0 <= e < |m| && e !in s && NIL <= tail < |m|
    ensures IsList(Appended(m, tail, e), e, s + [e]) && SameBut(m, Appended(m, tail, e), s + [e])
  {
  }

  /** Enqueueing an element that is already listed cuts off everything behind it; if it is
      the last element, everything before it. */
  lemma EnqueuedTwice(m: seq<int>, tail: int, s: seq<int>, i: nat)
    requires IsList(m, tail, s) && i < |s|
    ensures 0 <= s[i] < |m| && 0 <= tail < |m|
    ensures IsList(Appended(m, tail, s[i]), s[i], if i < |s| - 1 then s[..i + 1] else [s[i]])
    ensures SameBut(m, Appended(m, tail, s[i]), s)
  {
    var m', t := Appended(m, tail, s[i]), s[..i + 1];
    if i < |s| - 1 {
      forall j | 0 <= j < i
        ensures m'[t[j]] == t[j + 1]
      {
        assert m[s[j]] == s[j + 1];
      }
    }
  }

  /** No other reading of the memory is possible: exactly the elements behind the one enqueued
      again, or all others if it was last, are lost. */
  lemma RestIsLost(m: seq<int>, tail: int, s: seq<int>, i: nat, t: seq<int>)
    requires IsList(m, tail, s) && i < |s| && 0 <= s[i] < |m| && 0 <= tail < |m|
    requires IsList(Appended(m, tail, s[i]), s[i], t)
    ensures forall j :: 0 <= j < |s| ==> (s[j] in t <==> j == i || j < i < |s| - 1)
  {
    EnqueuedTwice(m, tail, s, i);
    OneReading(Appended(m, tail, s[i]), s[i], t, if i < |s| - 1 then s[..i + 1] else [s[i]]);
    forall j | 0 <= j < |s|
      ensures s[j] in t <==> j == i || j < i < |s| - 1
    {
      if j < i < |s| - 1 {
        assert s[..i + 1][j] == s[j];
      }
    }
  }

  /** clist_enqueue appends e, provided that the tail is that of a list and e is not on it; the
      macro asks for neither. */
  method Enqueue(next: array<int>, tail: int, e: int, ghost s: seq<int>) returns (tail': int)
    requires NIL <= tail < next.Length || IsList(next[..], tail, s)
    requires 0 <= e < next.Length
    modifies next
    ensures NIL <= tail < next.Length && next[..] == Appended(old(next[..]), tail, e) && tail' == e
    ensures IsList(old(next[..]), tail, s) && e !in s ==>
      IsList(next[..], tail', s + [e]) && SameBut(old(next[..]), next[..], s + [e])
  {
    if tail == NIL {
      next[e] := e;
    } else {
      next[e] := next[tail];
      next[tail] := e;
    }
    tail' := e;
  }

  /** clist_push: the last assignment of the macro stands outside its else branch. */
  method Push(next: array<int>, tail: int, e: int, ghost s: seq<int>) returns (tail': int)
    requires IsList(next[..], tail, s)
    requires 0 <= e < next.Length && e !in s
    modifies next
    ensures IsList(next[..], tail', [e] + s)
    ensures SameBut(old(next[..]), next[..], [e] + s)
  {
    tail' := tail;
    if tail' == NIL {
      next[e] := e;
      tail' := e;
    } else {
      next[e] := next[tail'];
    }
    next[tail'] := e;
  }

  /** clist_dequeue, also named clist_pop */
  method Dequeue(next: array<int>, tail: int, ghost s: seq<int>) returns (tail': int)
    requires IsList(next[..], tail, s)
    modifies next
    ensures IsList(next[..], tail', if s == [] then [] else s[1..])
    ensures SameBut(old(next[..]), next[..], s)
  {
    tail' := tail;
    if tail != NIL {
      if tail == next[tail] {
        tail' := NIL;
      } else {
        next[tail] := next[next[tail]];
      }
    }
  }

  /** clist_head */
  method Head(next: array<int>, tail: int, ghost s: seq<int>) returns (h: int)
    requires IsList(next[..], tail, s)
    ensures h == if s == [] then NIL else s[0]
  {
    h := if tail == NIL then NIL else next[tail];
  }

  /** clist_tail */
  method Tail(next: array<int>, tail: int, ghost s: seq<int>) returns (h: int)
    requires IsList(next[..], tail, s)
    ensures h == if s == [] then NIL else s[|s| - 1]
  {
    h := tail;
  }

  /** Taking the element at i > 0 out of the circle: its predecessor inherits its link. */
  lemma Unlink(m: seq<int>, tail: int, s: seq<int>, i: nat)
    requires IsList(m, tail, s) && 0 < i < |s|
    ensures IsList(m[s[i - 1] := m[s[i]]], if s[i] == tail then s[i - 1] else tail, Minus(s, [s[i]]))
  {
    hide Minus;
    var t := s[..i] + s[i + 1..];
    MinusSplit(s, i, [s[i]]);
    MinusNoDup(s, [s[i]]);
    assert i < |s| - 1 ==> s[i] != s[|s| - 1];
    var m' := m[s[i - 1] := m[s[i]]];
    forall j | 0 <= j < |t| - 1
      ensures 0 <= t[j] < |m| && m'[t[j]] == t[j + 1]
    {
      UnlinkAt(m, tail, s, i, j);
    }
  }

  lemma UnlinkAt(m: seq<int>, tail: int, s: seq<int>, i: nat, j: nat)
    requires IsList(m, tail, s) && 0 < i < |s| && j < |s| - 2
    ensures var t := s[..i] + s[i + 1..]; 0 <= t[j] < |m| && m[s[i - 1] := m[s[i]]][t[j]] == t[j + 1]
  {
    var k := if j < i then j else j + 1;
    assert m[s[k]] == s[k + 1];
    assert k != i - 1 ==> s[k] != s[i - 1];
  }

  /** Taking the first of several elements out of the circle. */
  lemma UnlinkFirst(m: seq<int>, tail: int, s: seq<int>)
    requires IsList(m, tail, s) && |s| > 1
    ensures IsList(m[tail := m[s[0]]], tail, s[1..])
  {
    MinusFirst(s);
    assert m[s[0]] == s[1];
    var m', t := m[tail := m[s[0]]], s[1..];
    forall j | 0 < j < |s| - 1
      ensures m'[s[j]] == s[j + 1]
    {
      UnlinkFirstAt(m, tail, s, j);
    }
  }

  lemma UnlinkFirstAt(m: seq<int>, tail: int, s: seq<int>, j: nat)
    requires IsList(m, tail, s) && 0 < j < |s| - 1
    ensures m[tail := m[s[0]]][s[j]] == s[j + 1]
  {
    assert m[s[j]] == s[j + 1];
  }

  /** clist_delete: absent is the value of the macro, false when the element was found. */
  method Delete(next: array<int>, tail: int, e: int, ghost s: seq<int>)
    returns (tail': int, absent: bool)
    requires IsList(next[..], tail, s)
    modifies next
    ensures absent <==> e !in s
    ensures IsList(next[..], tail', Minus(s, [e]))
    ensures SameBut(old(next[..]), next[..], s)
    ensures absent ==> tail' == tail && next[..] == old(next[..])
  {
    hide Minus;
    tail', absent := tail, true;
    ghost var m := next[..];
    if tail == NIL {
      MinusNothing(s, [e]);
    } else if tail == next[tail] && tail == e {
      assert s == [e];
      MinusFirst(s);
      tail', absent := NIL, false;
    } else {
      var scan := next[tail];
      if e == scan {
        UnlinkFirst(m, tail, s);
        MinusFirst(s);
        next[tail], absent := next[scan], false;
        assert next[..] == m[tail := m[s[0]]];
      } else {
        tail', absent := DeleteLater(next, tail, e, s);
      }
    }
  }

  /** The loop of clist_delete, for an element that is not the first. */
  method DeleteLater(next: array<int>, tail: int, e: int, ghost s: seq<int>)
    returns (tail': int, absent: bool)
    requires IsList(next[..], tail, s) && s != [] && e != s[0]
    modifies next
    ensures absent <==> e !in s
    ensures IsList(next[..], tail', Minus(s, [e]))
    ensures SameBut(old(next[..]), next[..], s)
    ensures absent ==> tail' == tail && next[..] == old(next[..])
  {
    hide Minus;
    tail', absent := tail, true;
    ghost var m := next[..];
    var scan, tmp := next[tail], NIL;
    ghost var i := 0;
    while tmp != tail' && absent
      invariant 0 <= i <= |s|
      invariant absent ==> next[..] == m && tail' == tail
      invariant absent ==> tmp == (if i == 0 then NIL else s[i - 1])
      invariant absent ==> scan == (if i < |s| then s[i] else s[0])
      invariant absent ==> forall j :: 0 <= j < |s| && j <= i ==> s[j] != e
      invariant !absent ==> e in s && IsList(next[..], tail', Minus(s, [e])) && SameBut(m, next[..], s)
      decreases |s| - i
    {
      assert i == |s| ==> tmp == tail;
      tmp, scan, i := scan, next[scan], i + 1;
      if scan == e {
        Unlink(m, tail, s, i);
        if scan == tail {
          tail' := tmp;
        }
        next[tmp], absent := next[scan], false;
        assert next[..] == m[s[i - 1] := m[s[i]]];
      }
    }
    if absent {
      assert e !in s;
      MinusNothing(s, [e]);
    }
  }

  /** How many elements a loop passes before the first one at which it breaks. */
  function FirstStop(s: seq<int>, stop: int -> bool): (k: nat)
    ensures k <= |s| && (forall j :: 0 <= j < k ==> !stop(s[j])) && (k < |s| ==> stop(s[k]))
  {
    if s == [] || stop(s[0]) then 0 else 1 + FirstStop(s[1..], stop)
  }

  /** clist_foreach with a body that breaks exactly at the elements satisfying stop:
      elements are met once each, in order, up to the first such element. Position i
      is where the scan rests; tmp is the predecessor the macros below work with. */
  method Foreach(next: array<int>, tail: int, stop: int -> bool, ghost s: seq<int>)
    returns (scan: int, tmp: int, ghost i: nat)
    requires IsList(next[..], tail, s)
    ensures i <= |s|
    ensures forall j :: 0 <= j < i ==> !stop(s[j])
    ensures i < |s| ==> scan == s[i] && stop(scan)
    ensures tmp == if i == 0 then NIL else s[i - 1]
    ensures var k := FirstStop(s, stop); i == k && (k < |s| ==> scan == s[k]) && tmp == if k == 0 then NIL else s[k - 1]
  {
    tmp, scan, i := NIL, NIL, 0;
    if tail != NIL {
      scan := next[tail];
      while tmp != tail && !stop(scan)
        invariant i <= |s|
        invariant tmp == (if i == 0 then NIL else s[i - 1])
        invariant scan == (if i < |s| then s[i] else s[0])
        invariant forall j :: 0 <= j < i ==> !stop(s[j])
        decreases |s| - i
      {
        assert i == |s| ==> tmp == tail;
        tmp, scan, i := scan, next[scan], i + 1;
      }
    }
  }

  /** clist_foreach_all, after Foreach: true exactly when no break occurred. */
  method ForeachAll(next: array<int>, tail: int, tmp: int, ghost s: seq<int>, ghost i: nat)
    returns (all: bool)
    requires IsList(next[..], tail, s) && i <= |s| && tmp == if i == 0 then NIL else s[i - 1]
    ensures all <==> i == |s|
  {
    all := tmp == tail;
  }

  /** clist_foreach_delete: removes the element on which the scan rests. */
  method ForeachDelete(next: array<int>, tail: int, scan: int, tmp: int, ghost s: seq<int>, ghost i: nat)
    returns (tail': int)
    requires IsList(next[..], tail, s)
    requires i < |s| && scan == s[i] && tmp == if i == 0 then NIL else s[i - 1]
    modifies next
    ensures IsList(next[..], tail', Minus(s, [scan]))
    ensures SameBut(old(next[..]), next[..], s)
  {
    tail' := tail;
    ghost var m := next[..];
    if tmp == NIL {
      if tail == scan {
        assert s == [scan];
        tail' := NIL;
      } else {
        UnlinkFirst(m, tail, s);
        MinusFirst(s);
        next[tail] := next[scan];
        assert next[..] == m[tail := m[s[0]]];
      }
    } else {
      Unlink(m, tail, s, i);
      if tail == scan {
        tail' := tmp;
      }
      next[tmp] := next[scan];
      assert next[..] == m[s[i - 1] := m[s[i]]];
    }
  }

  /** clist_foreach_add: inserts e before the element on which the scan rests. */
  method ForeachAdd(next: array<int>, tail: int, e: int, scan: int, tmp: int, ghost s: seq<int>, ghost i: nat)
    requires IsList(next[..], tail, s) && 0 <= e < next.Length && e !in s
    requires i < |s| && scan == s[i] && tmp == if i == 0 then NIL else s[i - 1]
    modifies next
    ensures IsList(next[..], tail, s[..i] + [e] + s[i..])
    ensures SameBut(old(next[..]), next[..], s + [e])
  {
    ghost var m := next[..];
    next[e] := scan;
    if tmp == NIL {
      next[tail] := e;
    } else {
      next[tmp] := e;
    }
    LinkedIn(m, tail, s, i, e);
    assert next[..] == m[e := s[i]][(if i == 0 then tail else s[i - 1]) := e];
  }

  /** Linking e in before position i. */
  lemma LinkedIn(m: seq<int>, tail: int, s: seq<int>, i: nat, e: int)
    requires IsList(m, tail, s) && i < |s| && 0 <= e < |m| && e !in s
    ensures IsList(m[e := s[i]][(if i == 0 then tail else s[i - 1]) := e], tail, s[..i] + [e] + s[i..])
  {
    var m' := m[e := s[i]][(if i == 0 then tail else s[i - 1]) := e];
    var t := s[..i] + [e] + s[i..];
    forall j | 0 <= j < |t| - 1
      ensures m'[t[j]] == t[j + 1]
    {
      if j < i {
        assert t[j] == s[j] && (j + 1 < i ==> m[s[j]] == s[j + 1]);
      } else if j > i {
        assert t[j] == s[j - 1] && m[s[j - 1]] == s[j];
      }
    }
    assert t[|t| - 1] == tail && t[0] == if i == 0 then e else s[0];
  }
}
