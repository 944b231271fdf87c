/** The process forest of src/pcb.c as columns: parent links, child lists in order, and
    the creation number of each process. */
module Forest {
  import opened Lists

  /** birth[p] is the value of abs_process_count when p was created, born its present value. */
  datatype Family = Family(parent: seq<int>, kids: seq<seq<int>>, birth: seq<nat>, born: nat)

  ghost predicate Person(f: Family, p: int) { 0 <= p < |f.kids| }

  /** Child lists and parent links agree, and children are younger than their parents. */
  ghost predicate Kin(f: Family) {
    && |f.parent| == |f.kids| == |f.birth|
    && (forall p :: Person(f, p) ==> f.birth[p] <= f.born)
    && (forall c :: Person(f, c) ==>
          f.parent[c] == NIL || (Person(f, f.parent[c]) && f.birth[f.parent[c]] < f.birth[c]))
    && (forall p :: Person(f, p) ==> NoDup(f.kids[p]))
    && (forall p, c :: Person(f, p) ==> (c in f.kids[p] <==> Person(f, c) && f.parent[c] == p))
  }

  /** x is p or below p, along parent links. */
  ghost predicate Descends(f: Family, x: int, p: int)
    requires Kin(f) && Person(f, x)
    decreases f.birth[x]
  {
    x == p || (f.parent[x] != NIL && Descends(f, f.parent[x], p))
  }

  /** The order in which terminateProgeny frees p and everything below it. */
  ghost function Post(f: Family, p: int): seq<int>
    requires Kin(f) && Person(f, p)
    decreases f.born - f.birth[p], |f.kids[p]| + 1
  {
    PostAll(f, p, f.kids[p]) + [p]
  }

  ghost function PostAll(f: Family, p: int, cs: seq<int>): seq<int>
    requires Kin(f) && Person(f, p) && forall c :: c in cs ==> c in f.kids[p]
    decreases f.born - f.birth[p], |cs|
  {
    if cs == [] then [] else Post(f, cs[0]) + PostAll(f, p, cs[1..])
  }

  lemma {:induction false} DescendsUp(f: Family, x: int, c: int)
    requires Kin(f) && Person(f, x) && Person(f, c) && Descends(f, x, c) && f.parent[c] != NIL
    ensures Descends(f, x, f.parent[c])
    decreases f.birth[x]
  {
    if x != c {
      DescendsUp(f, f.parent[x], c);
    } else {
      assert Descends(f, f.parent[c], f.parent[c]);
    }
  }

  lemma {:induction false} DescendsVia(f: Family, x: int, p: int) returns (c: int)
    requires Kin(f) && Person(f, x) && Person(f, p) && Descends(f, x, p) && x != p
    ensures c in f.kids[p] && Descends(f, x, c)
    decreases f.birth[x]
  {
    if f.parent[x] == p {
      c := x;
    } else {
      c := DescendsVia(f, f.parent[x], p);
    }
  }

  lemma {:induction false} DescendantsAreYounger(f: Family, x: int, p: int)
    requires Kin(f) && Person(f, x) && Person(f, p) && Descends(f, x, p)
    ensures f.birth[p] <= f.birth[x]
    decreases f.birth[x]
  {
    if x != p {
      DescendantsAreYounger(f, f.parent[x], p);
    }
  }

  /** Siblings have no descendant in common. */
  lemma {:induction false} SiblingsApart(f: Family, p: int, x: int, c: int, d: int)
    requires Kin(f) && Person(f, p) && Person(f, x) && c != d && c in f.kids[p] && d in f.kids[p]
    ensures !(Descends(f, x, c) && Descends(f, x, d))
    decreases f.birth[x]
  {
    assert Person(f, c) && Person(f, d) && f.parent[c] == p && f.parent[d] == p;
    if Descends(f, x, c) && Descends(f, x, d) {
      if x == c {
        DescendantsAreYounger(f, p, d);
      } else if x == d {
        DescendantsAreYounger(f, p, c);
      } else {
        SiblingsApart(f, p, f.parent[x], c, d);
      }
    }
  }

  /** terminateProgeny's order lists exactly the subtree. */
  lemma {:induction false} PostIsSubtree(f: Family, p: int)
    requires Kin(f) && Person(f, p)
    ensures forall x :: x in Post(f, p) <==> Person(f, x) && Descends(f, x, p)
    decreases f.born - f.birth[p], |f.kids[p]| + 1
  {
    PostAllIsSubtrees(f, p, f.kids[p]);
    forall x | Person(f, x) && Descends(f, x, p) && x != p
      ensures x in PostAll(f, p, f.kids[p])
    {
      var c := DescendsVia(f, x, p);
    }
    forall x | x in PostAll(f, p, f.kids[p])
      ensures Person(f, x) && Descends(f, x, p)
    {
      var c :| c in f.kids[p] && Descends(f, x, c);
      DescendsUp(f, x, c);
    }
  }

  lemma {:induction false} PostAllIsSubtrees(f: Family, p: int, cs: seq<int>)
    requires Kin(f) && Person(f, p) && forall c :: c in cs ==> c in f.kids[p]
    ensures forall x :: x in PostAll(f, p, cs) <==> Person(f, x) && exists c :: c in cs && Descends(f, x, c)
    decreases f.born - f.birth[p], |cs|
  {
    if cs != [] {
      var c0 := cs[0];
      assert c0 in cs && c0 in f.kids[p] && Person(f, c0) && f.parent[c0] == p;
      PostIsSubtree(f, cs[0]);
      PostAllIsSubtrees(f, p, cs[1..]);
      forall x
        ensures x in PostAll(f, p, cs) <==> Person(f, x) && exists c :: c in cs && Descends(f, x, c)
      {
        if Person(f, x) && exists c :: c in cs && Descends(f, x, c) {
          var c :| c in cs && Descends(f, x, c);
          assert c == cs[0] || c in cs[1..];
        }
      }
    }
  }

  lemma {:induction false} PostNoDup(f: Family, p: int)
    requires Kin(f) && Person(f, p)
    ensures NoDup(Post(f, p))
    decreases f.born - f.birth[p], |f.kids[p]| + 1
  {
    PostAllNoDup(f, p, f.kids[p]);
    PostAllIsSubtrees(f, p, f.kids[p]);
    if p in PostAll(f, p, f.kids[p]) {
      var c :| c in f.kids[p] && Descends(f, p, c);
      DescendantsAreYounger(f, p, c);
    }
  }

  lemma PostApart(f: Family, p: int, c: int, ds: seq<int>)
    requires Kin(f) && Person(f, p) && c in f.kids[p] && c !in ds
    requires forall d :: d in ds ==> d in f.kids[p]
    ensures forall x :: x in Post(f, c) ==> x !in PostAll(f, p, ds)
  {
    PostIsSubtree(f, c);
    PostAllIsSubtrees(f, p, ds);
    forall x | x in Post(f, c)
      ensures x !in PostAll(f, p, ds)
    {
      if x in PostAll(f, p, ds) {
        var d :| d in ds && Descends(f, x, d);
        assert d in f.kids[p];
        SiblingsApart(f, p, x, c, d);
      }
    }
  }

  lemma {:induction false} PostAllNoDup(f: Family, p: int, cs: seq<int>)
    requires Kin(f) && Person(f, p) && NoDup(cs) && forall c :: c in cs ==> c in f.kids[p]
    ensures NoDup(PostAll(f, p, cs))
    decreases f.born - f.birth[p], |cs|
  {
    if cs != [] {
      var c0 := cs[0];
      assert c0 in cs && c0 in f.kids[p] && Person(f, c0) && f.parent[c0] == p;
      PostNoDup(f, cs[0]);
      PostAllNoDup(f, p, cs[1..]);
      PostApart(f, p, c0, cs[1..]);
      Concat(Post(f, cs[0]), PostAll(f, p, cs[1..]));
    }
  }

  lemma Concat(s: seq<int>, t: seq<int>)
    requires NoDup(s) && NoDup(t) && forall x :: x in s ==> x !in t
    ensures NoDup(s + t)
  {
    forall i, j | 0 <= i < j < |s + t|
      ensures (s + t)[i] != (s + t)[j]
    {
      if i < |s| <= j {
        assert s[i] in s && t[j - |s|] in t;
      }
    }
  }
}
