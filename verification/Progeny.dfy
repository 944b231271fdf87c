/** Termination of a subtree and the search for its root: src/exceptions.c 34-45 and
    102-115, src/pcb.c 63-98. */
module Progeny {
  import opened Lists
  import opened Forest
  import opened Nucleus
  import opened Invariant
  import opened Verdicts
  import C = Clock

  /** Exactly p and its descendants have been freed, each once. Everyone else has stayed where it
      was and has kept its parent, every other child list has only lost p, the queues have only
      lost the dead, in order, no semaphore has changed its value, and nothing else has changed but
      the descriptors of semaphores and the count of those blocked on devices. */
  ghost predicate Killed(s: Sys, r: Sys, p: int) {
    Sized(s) && Sized(r) && |r.loc| == |s.loc| && Kin(s.fam) && Person(s.fam, p) &&
    var vs := Post(s.fam, p);
    && (forall x :: Proc(s, x) ==> (x in vs <==> Person(s.fam, x) && Descends(s.fam, x, p)))
    && NoDup(vs) && r.free == s.free + vs && r.count == s.count - |vs|
    && (forall x :: Proc(s, x) ==> r.loc[x] == if x in vs then Free else s.loc[x])
    && (forall x :: Proc(s, x) ==> r.fam.parent[x] == if x in vs then NIL else s.fam.parent[x])
    && (forall x :: Proc(s, x) ==> r.fam.kids[x] == if x in vs then [] else Minus(s.fam.kids[x], [p]))
    && r.ready == Minus(s.ready, vs)
    && (forall a :: Queue(r, a) == Minus(Queue(s, a), vs))
    && r == s.(loc := r.loc, free := r.free, ready := r.ready, wait := r.wait, shelf := r.shelf,
               fam := s.fam.(parent := r.fam.parent, kids := r.fam.kids), cur := r.cur, count := r.count,
               soft := r.soft, log := r.log)
  }

  /** What terminateProgeny of p does. */
  lemma KillsExactlySubtree(s: Sys, p: int)
    requires Inv(s) && Alive(s, p) && Clean(s, Post(s.fam, p))
    ensures Killed(s, TerminateProgeny(s, p), p) && TerminateProgeny(s, p).cur == s.cur
  {
    hide C.Conserved, Parted, Linked, Seated, Softened, Reaped, Clean;
    var vs := Post(s.fam, p);
    LiveSubtree(s, p);
    PostIsSubtree(s.fam, p);
    assert forall x :: Proc(s, x) ==> Person(s.fam, x);
    ReapedFrame(s, vs);
    forall x | Proc(s, x) && x !in vs
      ensures Minus(s.fam.kids[x], vs) == Minus(s.fam.kids[x], [p])
    {
      OnlyRootLeaves(s.fam, p, x, s.fam.kids[x]);
    }
  }

  lemma ReapedFrame(s: Sys, vs: seq<int>)
    requires Sized(s)
    ensures var r := Reaped(s, vs);
      && r.free == s.free + vs && r.count == s.count - |vs| && r.cur == s.cur && |r.loc| == |s.loc|
      && (forall x :: Proc(s, x) ==> r.loc[x] == if x in vs then Free else s.loc[x])
      && (forall x :: Proc(s, x) ==> r.fam.parent[x] == if x in vs then NIL else s.fam.parent[x])
      && (forall x :: Proc(s, x) ==> r.fam.kids[x] == if x in vs then [] else Minus(s.fam.kids[x], vs))
      && r.ready == Minus(s.ready, vs)
      && (forall a :: Queue(r, a) == Minus(Queue(s, a), vs))
      && r == s.(loc := r.loc, free := r.free, ready := r.ready, wait := r.wait, shelf := r.shelf,
                 fam := s.fam.(parent := r.fam.parent, kids := r.fam.kids), cur := r.cur, count := r.count,
                 soft := r.soft, log := r.log)
  {
    hide Vacated, Deaths, DevSet, Minus;
    forall a
      ensures Queue(Reaped(s, vs), a) == Minus(Queue(s, a), vs)
    {
      MinusNothing([], vs);
    }
  }

  /** A child list outside the subtree meets the subtree in its root at most. */
  lemma {:induction false} OnlyRootLeaves(f: Family, p: int, x: int, cs: seq<int>)
    requires Kin(f) && Person(f, p) && Person(f, x) && x !in Post(f, p)
    requires forall c :: c in cs ==> c in f.kids[x]
    ensures Minus(cs, Post(f, p)) == Minus(cs, [p])
  {
    if cs != [] {
      var c := cs[0];
      assert c in cs && c in f.kids[x] && Person(f, c) && f.parent[c] == x;
      PostIsSubtree(f, p);
      assert c in Post(f, p) <==> Descends(f, c, p);
      assert !Descends(f, x, p);
      OnlyRootLeaves(f, p, x, cs[1..]);
    }
  }

  /** createProcess with room left: the first free descriptor, zeroed, becomes the last child of
      the caller and the last ready process, and its identifier is returned. Nobody else's
      relatives change. */
  lemma NewChild(s: Sys)
    requires Inv(s) && s.cur != NIL && s.count < |s.loc|
    ensures s.free != [] && Proc(s, s.free[0]) && s.loc[s.free[0]] == Free
    ensures var p, r := s.free[0], Create(s);
      && p != s.cur && r.fam.parent[p] == s.cur && r.fam.kids[p] == []
      && r.fam.kids[s.cur] == s.fam.kids[s.cur] + [p]
      && (forall x :: Proc(s, x) && x != p ==> r.fam.parent[x] == s.fam.parent[x])
      && (forall x :: Proc(s, x) && x != p && x != s.cur ==> r.fam.kids[x] == s.fam.kids[x])
      && r.free == s.free[1..] && r.ready == s.ready + [p] && r.ret == r.pid[p] && r.count == s.count + 1
      && r.cursem[p] == NIL && r.req[p] == 0 && r.clk.glob[p] == 0 && r.clk.user[p] == 0
      && r.wait == s.wait && r.sem == s.sem && r.cur == s.cur
  {
    hide C.Conserved, Linked, Seated, Softened, Create, Kin;
    CountFree(s);
    TaggedHead(s.free, s.loc, Free);
    CurOff(s);
    CreateFields(s);
    CreateReturns(s);
  }

  lemma CreateReturns(s: Sys)
    requires Sized(s) && s.cur != NIL && s.free != [] && Proc(s, s.free[0]) && s.count < |s.loc|
    ensures Create(s).ret == Create(s).pid[s.free[0]]
  {
  }

  // ----- childByPid -----

  /** The processes whose pid childByPid compares, in order: the children up to the first
      that has children itself, then those examined below it. */
  ghost function Examined(f: Family, p: int, cs: seq<int>): seq<int>
    requires Kin(f) && Person(f, p) && forall c :: c in cs ==> c in f.kids[p]
    decreases f.born - f.birth[p], |cs|
  {
    if cs == [] then []
    else
      var c := cs[0];
      assert c in cs && Person(f, c) && f.parent[c] == p;
      [c] + if f.kids[c] != [] then Examined(f, c, f.kids[c]) else Examined(f, p, cs[1..])
  }

  /** id is carried by none of ps. */
  predicate Nobody(pid: seq<int>, ps: seq<int>, id: int) {
    forall i :: 0 <= i < |ps| ==> 0 <= ps[i] < |pid| ==> pid[ps[i]] != id
  }

  /** childByPid finds a process exactly when one of those it examines has the pid. */
  lemma {:induction false} FindsIffExamined(f: Family, pid: seq<int>, p: int, cs: seq<int>, id: int)
    requires Kin(f) && |pid| == |f.kids| && Person(f, p) && forall c :: c in cs ==> c in f.kids[p]
    ensures SearchChildren(f, pid, p, cs, id) == NIL <==> Nobody(pid, Examined(f, p, cs), id)
    decreases f.born - f.birth[p], |cs|
  {
    if cs != [] {
      var c := cs[0];
      assert c in cs && Person(f, c) && f.parent[c] == p;
      var rest := if f.kids[c] != [] then Examined(f, c, f.kids[c]) else Examined(f, p, cs[1..]);
      assert Examined(f, p, cs) == [c] + rest;
      NobodyFirst(pid, c, rest, id);
      if f.kids[c] != [] {
        FindsIffExamined(f, pid, c, f.kids[c], id);
      } else {
        FindsIffExamined(f, pid, p, cs[1..], id);
      }
    }
  }

  /** v is the first of ps that carries id. */
  ghost predicate FirstWith(pid: seq<int>, ps: seq<int>, id: int, v: int) {
    exists i :: 0 <= i < |ps| && ps[i] == v && 0 <= v < |pid| && pid[v] == id && Nobody(pid, ps[..i], id)
  }

  /** childByPid returns the first of those it examines that has the pid. */
  lemma {:induction false} FindsFirst(f: Family, pid: seq<int>, p: int, cs: seq<int>, id: int)
    requires Kin(f) && |pid| == |f.kids| && Person(f, p) && forall c :: c in cs ==> c in f.kids[p]
    ensures var v := SearchChildren(f, pid, p, cs, id); v != NIL ==> FirstWith(pid, Examined(f, p, cs), id, v)
    decreases f.born - f.birth[p], |cs|
  {
    if cs != [] {
      var c := cs[0];
      assert c in cs && Person(f, c) && f.parent[c] == p;
      var rest := if f.kids[c] != [] then Examined(f, c, f.kids[c]) else Examined(f, p, cs[1..]);
      var v := SearchChildren(f, pid, p, cs, id);
      if pid[c] == id {
        assert ([c] + rest)[0] == c && Nobody(pid, ([c] + rest)[..0], id);
      } else if v != NIL {
        if f.kids[c] != [] {
          FindsFirst(f, pid, c, f.kids[c], id);
        } else {
          FindsFirst(f, pid, p, cs[1..], id);
        }
        LaterFirst(pid, c, rest, id, v);
      }
    }
  }

  lemma LaterFirst(pid: seq<int>, c: int, rest: seq<int>, id: int, v: int)
    requires 0 <= c < |pid| && pid[c] != id && FirstWith(pid, rest, id, v)
    ensures FirstWith(pid, [c] + rest, id, v)
  {
    var i :| 0 <= i < |rest| && rest[i] == v && pid[v] == id && Nobody(pid, rest[..i], id);
    assert ([c] + rest)[i + 1] == v && ([c] + rest)[..i + 1] == [c] + rest[..i];
    NobodyFirst(pid, c, rest[..i], id);
  }

  lemma NotBefore(pid: seq<int>, ps: seq<int>, id: int, j: nat, i: nat)
    requires j <= |ps| && Nobody(pid, ps[..j], id) && i < |ps| && 0 <= ps[i] < |pid| && pid[ps[i]] == id
    ensures j <= i && !Nobody(pid, ps, id)
  {
    assert forall k :: 0 <= k < j ==> ps[..j][k] == ps[k];
  }

  lemma OneFirstWith(pid: seq<int>, ps: seq<int>, id: int, v: int, w: int)
    requires FirstWith(pid, ps, id, v) && FirstWith(pid, ps, id, w)
    ensures v == w && !Nobody(pid, ps, id)
  {
    var i :| 0 <= i < |ps| && ps[i] == v && 0 <= v < |pid| && pid[v] == id && Nobody(pid, ps[..i], id);
    var j :| 0 <= j < |ps| && ps[j] == w && 0 <= w < |pid| && pid[w] == id && Nobody(pid, ps[..j], id);
    NotBefore(pid, ps, id, j, i);
    NotBefore(pid, ps, id, i, j);
  }

  lemma NobodyFirst(pid: seq<int>, c: int, rest: seq<int>, id: int)
    requires 0 <= c < |pid|
    ensures Nobody(pid, [c] + rest, id) <==> pid[c] != id && Nobody(pid, rest, id)
  {
    var ps := [c] + rest;
    assert ps[0] == c;
    if Nobody(pid, ps, id) {
      forall i | 0 <= i < |rest| && 0 <= rest[i] < |pid|
        ensures pid[rest[i]] != id
      {
        assert ps[i + 1] == rest[i];
      }
    }
  }

  /** x is one of cs or below one of them. */
  ghost predicate Under(f: Family, cs: seq<int>, x: int)
    requires Kin(f)
  {
    Person(f, x) && exists c :: c in cs && Descends(f, x, c)
  }

  lemma {:induction false} ExaminedUnder(f: Family, p: int, cs: seq<int>, x: int)
    requires Kin(f) && Person(f, p) && (forall c :: c in cs ==> c in f.kids[p]) && x in Examined(f, p, cs)
    ensures Under(f, cs, x)
    decreases f.born - f.birth[p], |cs|
  {
    var c := cs[0];
    assert c in cs && Person(f, c) && f.parent[c] == p && Descends(f, c, c);
    if x != c {
      if f.kids[c] != [] {
        ExaminedUnder(f, c, f.kids[c], x);
        var d :| d in f.kids[c] && Descends(f, x, d);
        DescendsUp(f, x, d);
      } else {
        ExaminedUnder(f, p, cs[1..], x);
        var d :| d in cs[1..] && Descends(f, x, d);
      }
    }
  }

  /** From cs on, and at every level entered after it, only the last child has children. */
  ghost predicate Combed(f: Family, p: int, cs: seq<int>)
    requires Kin(f) && Person(f, p) && forall c :: c in cs ==> c in f.kids[p]
    decreases f.born - f.birth[p], |cs|
  {
    cs == [] ||
    var c := cs[0];
    assert c in cs && Person(f, c) && f.parent[c] == p;
    if f.kids[c] != [] then |cs| == 1 && Combed(f, c, f.kids[c]) else Combed(f, p, cs[1..])
  }

  ghost predicate Complete(f: Family, p: int, cs: seq<int>)
    requires Kin(f) && Person(f, p) && forall c :: c in cs ==> c in f.kids[p]
  {
    forall x :: Under(f, cs, x) ==> x in Examined(f, p, cs)
  }

  lemma Childless(f: Family, c: int, x: int)
    requires Kin(f) && Person(f, c) && Person(f, x) && f.kids[c] == [] && Descends(f, x, c)
    ensures x == c
  {
    if x != c {
      var d := DescendsVia(f, x, c);
    }
  }

  /** A child without children of its own is compared and passed over. */
  lemma PastLeaf(f: Family, p: int, cs: seq<int>)
    requires Kin(f) && Person(f, p) && NoDup(cs) && (forall c :: c in cs ==> c in f.kids[p])
    requires cs != [] && Person(f, cs[0]) && f.kids[cs[0]] == []
    ensures forall c :: c in cs[1..] ==> c in f.kids[p]
    ensures Complete(f, p, cs) <==> Complete(f, p, cs[1..])
  {
    var c, rest := cs[0], cs[1..];
    assert c in cs && f.parent[c] == p && Descends(f, c, c);
    assert Examined(f, p, cs) == [c] + Examined(f, p, rest);
    forall x
      ensures Under(f, cs, x) <==> Person(f, x) && (x == c || Under(f, rest, x))
      ensures Under(f, rest, x) ==> x != c
    {
      if Under(f, cs, x) {
        var d :| d in cs && Descends(f, x, d);
        if d == c {
          Childless(f, c, x);
        } else {
          assert d in rest;
        }
      }
      if Under(f, rest, x) {
        var d :| d in rest && Descends(f, x, d);
        assert d in cs;
        if x == c {
          SiblingsApart(f, p, c, c, d);
        }
      }
    }
  }

  /** A child with children of its own ends the scan. */
  lemma AtParent(f: Family, p: int, cs: seq<int>)
    requires Kin(f) && Person(f, p) && NoDup(cs) && (forall c :: c in cs ==> c in f.kids[p])
    requires cs != [] && Person(f, cs[0]) && f.kids[cs[0]] != []
    ensures Complete(f, p, cs) <==> |cs| == 1 && Complete(f, cs[0], f.kids[cs[0]])
  {
    var c := cs[0];
    var ks := f.kids[c];
    assert c in cs && f.parent[c] == p && Descends(f, c, c);
    assert Examined(f, p, cs) == [c] + Examined(f, c, ks);
    if |cs| > 1 {
      var d := cs[1];
      assert d in cs && Person(f, d) && Descends(f, d, d);
      assert Under(f, cs, d);
      if d in Examined(f, c, ks) {
        ExaminedUnder(f, c, ks, d);
        var e :| e in ks && Descends(f, d, e);
        DescendsUp(f, d, e);
        SiblingsApart(f, p, d, c, d);
      }
    } else {
      assert cs == [c];
      forall x
        ensures Under(f, cs, x) <==> Person(f, x) && (x == c || Under(f, ks, x))
        ensures Under(f, ks, x) ==> x != c
      {
        UnderParent(f, c, x);
      }
    }
  }

  lemma UnderParent(f: Family, c: int, x: int)
    requires Kin(f) && Person(f, c)
    ensures Under(f, [c], x) <==> Person(f, x) && (x == c || Under(f, f.kids[c], x))
    ensures Under(f, f.kids[c], x) ==> x != c
  {
    if Person(f, x) {
      assert Descends(f, c, c);
      if Descends(f, x, c) && x != c {
        var d := DescendsVia(f, x, c);
      }
      if Under(f, f.kids[c], x) {
        var d :| d in f.kids[c] && Descends(f, x, d);
        assert Person(f, d);
        DescendsUp(f, x, d);
        DescendantsAreYounger(f, x, d);
        assert c in [c];
      }
    }
  }

  /** childByPid examines the whole progeny exactly when, from the caller down, only the last
      child of each process has children. */
  lemma {:induction false} CompleteIff(f: Family, p: int, cs: seq<int>)
    requires Kin(f) && Person(f, p) && NoDup(cs) && forall c :: c in cs ==> c in f.kids[p]
    ensures Complete(f, p, cs) <==> Combed(f, p, cs)
    decreases f.born - f.birth[p], |cs|
  {
    if cs != [] {
      var c := cs[0];
      assert c in cs && Person(f, c) && f.parent[c] == p;
      if f.kids[c] != [] {
        AtParent(f, p, cs);
        CompleteIff(f, c, f.kids[c]);
      } else {
        PastLeaf(f, p, cs);
        CompleteIff(f, p, cs[1..]);
      }
    }
  }

  /** The search is not complete: 0 has the children 1 and 2, 1 has the child 3, and looking
      for the pid of 2, a child of the caller, finds nothing. */
  lemma ChildMissed()
    ensures var f := Family([NIL, 0, 0, 1], [[1, 2], [3], [], []], [1, 2, 3, 4], 4);
      Kin(f) && Person(f, 0) && ChildByPid(f, [1, 66, 99, 132], 0, 99) == NIL
  {
    var f := Family([NIL, 0, 0, 1], [[1, 2], [3], [], []], [1, 2, 3, 4], 4);
    assert Kin(f);
    var pid := [1, 66, 99, 132];
    assert SearchChildren(f, pid, 1, [], 99) == NIL;
    assert f.kids[1] == [3] && [3][1..] == [];
    assert Person(f, 1) && Person(f, 3);
    assert SearchChildren(f, pid, 1, [3], 99) == NIL;
    assert ChildByPid(f, pid, 1, 99) == NIL;
    assert f.kids[0] == [1, 2];
  }
}
