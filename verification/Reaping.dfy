/** Why the recursion of terminateProgeny, which takes the tree apart while it walks over it,
    comes to removing the whole subtree at once. */
module Reaping {
  import opened Lists
  import opened Forest
  import opened Nucleus
  import opened Shelves
  import opened Invariant
  import Asl
  import Pcb

  // ----- the walk -----

  lemma {:induction false} PostFrame(f: Family, g: Family, c: int)
    requires Kin(f) && Kin(g) && Person(f, c) && Person(g, c)
    requires g.born == f.born && g.birth == f.birth && |g.kids| == |f.kids|
    requires forall x :: x in Post(f, c) && Person(f, x) && Person(g, x) ==> g.kids[x] == f.kids[x]
    ensures Post(g, c) == Post(f, c)
    decreases f.born - f.birth[c], |f.kids[c]| + 1
  {
    assert c in Post(f, c);
    PostAllFrame(f, g, c, f.kids[c]);
  }

  lemma {:induction false} PostAllFrame(f: Family, g: Family, p: int, cs: seq<int>)
    requires Kin(f) && Kin(g) && Person(f, p) && Person(g, p)
    requires g.born == f.born && g.birth == f.birth && |g.kids| == |f.kids|
    requires forall c :: c in cs ==> c in f.kids[p] && c in g.kids[p]
    requires forall x :: x in PostAll(f, p, cs) && Person(f, x) && Person(g, x) ==> g.kids[x] == f.kids[x]
    ensures PostAll(g, p, cs) == PostAll(f, p, cs)
    decreases f.born - f.birth[p], |cs|
  {
    if cs != [] {
      var c := cs[0];
      assert c in cs && Person(f, c) && Person(g, c);
      PostFrame(f, g, c);
      PostAllFrame(f, g, p, cs[1..]);
    }
  }

  lemma {:induction false} PostAllSnoc(f: Family, p: int, cs: seq<int>, c: int)
    requires Kin(f) && Person(f, p) && c in f.kids[p] && forall d :: d in cs ==> d in f.kids[p]
    ensures forall d :: d in cs + [c] ==> d in f.kids[p]
    ensures Person(f, c) && PostAll(f, p, cs + [c]) == PostAll(f, p, cs) + Post(f, c)
    decreases |cs|
  {
    assert Person(f, c);
    if cs == [] {
      assert [c][1..] == [];
      assert PostAll(f, p, [c]) == Post(f, c) + PostAll(f, p, []);
      assert [] + [c] == [c];
    } else {
      assert cs[0] in cs;
      PostAllSnoc(f, p, cs[1..], c);
      assert (cs + [c])[1..] == cs[1..] + [c];
      assert Post(f, cs[0]) + (PostAll(f, p, cs[1..]) + Post(f, c)) ==
          (Post(f, cs[0]) + PostAll(f, p, cs[1..])) + Post(f, c);
    }
  }

  // ----- removing a batch in two parts -----

  lemma {:induction false} MinusSub(q: seq<int>, c: int, vs: seq<int>)
    requires c in vs
    ensures Minus(Minus(q, [c]), vs) == Minus(q, vs)
  {
    if q != [] {
      MinusSub(q[1..], c, vs);
      var r := Minus(q[1..], [c]);
      if q[0] != c {
        assert ([q[0]] + r)[1..] == r;
      }
    }
  }

  lemma {:induction false} DeathsConcat(loc: seq<Loc>, us: seq<int>, vs: seq<int>)
    ensures Deaths(loc, us + vs) == Deaths(loc, us) + Deaths(loc, vs)
  {
    hide Deaths;
    if us == [] {
      DeathsNone(loc);
      assert us + vs == vs;
    } else {
      DeathsConcat(loc, us[1..], vs);
      DeathsFirst(loc, us);
      DeathsFirst(loc, us + vs);
      assert (us + vs)[1..] == us[1..] + vs;
    }
  }

  lemma DeathsNone(loc: seq<Loc>)
    ensures Deaths(loc, []) == []
  {
  }

  lemma DeathsFirst(loc: seq<Loc>, us: seq<int>)
    requires us != []
    ensures Deaths(loc, us) ==
      if 0 <= us[0] < |loc| && loc[us[0]].Waiting? then [Died(loc[us[0]].sem, us[0])] + Deaths(loc, us[1..])
      else Deaths(loc, us[1..])
  {
  }

  lemma {:induction false} DeathsApart(loc: seq<Loc>, us: seq<int>, vs: seq<int>)
    requires forall v :: v in vs ==> v !in us
    ensures Deaths(SetAll(loc, us, Free), vs) == Deaths(loc, vs)
  {
    if vs != [] {
      var v := vs[0];
      assert v in vs;
      DeathsApart(loc, us, vs[1..]);
    }
  }

  lemma DrainedTwice(w: map<int, seq<int>>, us: seq<int>, vs: seq<int>)
    ensures Drained(Drained(w, us), vs) == Drained(w, us + vs)
  {
    hide Minus;
    var l, r := Drained(Drained(w, us), vs), Drained(w, us + vs);
    forall a
      ensures a in l <==> a in r
      ensures a in l ==> l[a] == r[a]
    {
      if a in w {
        MinusMinus(w[a], us, vs);
        if Minus(w[a], us) == [] {
          MinusEmpty(vs);
        }
      }
    }
  }

  lemma MinusEmpty(vs: seq<int>)
    ensures Minus([], vs) == []
  {
  }

  lemma {:induction false} VacatedTwice(h: Shelf, w: map<int, seq<int>>, loc: seq<Loc>, cursem: seq<int>, us: seq<int>,
      vs: seq<int>)
    ensures Vacated(Vacated(h, w, loc, cursem, us), Drained(w, us), loc, cursem, vs) ==
      Vacated(h, w, loc, cursem, us + vs)
    decreases |vs|
  {
    hide VacatedBy, Drained;
    if vs == [] {
      assert us + vs == us;
    } else {
      var before, v := vs[..|vs| - 1], vs[|vs| - 1];
      VacatedTwice(h, w, loc, cursem, us, before);
      DrainedTwice(w, us, before);
      assert (us + vs)[..|us + vs| - 1] == us + before;
    }
  }

  lemma {:induction false} VacatedApart(h: Shelf, w: map<int, seq<int>>, loc: seq<Loc>, cursem: seq<int>, us: seq<int>,
      vs: seq<int>)
    requires forall v :: v in vs ==> v !in us
    ensures Vacated(h, w, SetAll(loc, us, Free), cursem, vs) == Vacated(h, w, loc, cursem, vs)
    decreases |vs|
  {
    hide Drained, Retire, Refile;
    if vs != [] {
      var before, v := vs[..|vs| - 1], vs[|vs| - 1];
      assert v in vs && forall x :: x in before ==> x in vs;
      VacatedApart(h, w, loc, cursem, us, before);
    }
  }

  lemma OrphanedTwice(f: Family, us: seq<int>, vs: seq<int>)
    ensures Orphaned(Orphaned(f, us), vs) == Orphaned(f, us + vs)
  {
    SetAllTwice(f.parent, us, vs, NIL);
    var l, r := Orphaned(Orphaned(f, us), vs), Orphaned(f, us + vs);
    forall p | 0 <= p < |f.kids|
      ensures l.kids[p] == r.kids[p]
    {
      MinusMinus(f.kids[p], us, vs);
    }
    assert l.kids == r.kids;
  }

  lemma DevTwice(cfg: Config, loc: seq<Loc>, us: seq<int>, vs: seq<int>)
    requires forall v :: v in vs ==> v !in us
    ensures |DevSet(cfg, loc) * Elems(us)| + |DevSet(cfg, SetAll(loc, us, Free)) * Elems(vs)| ==
        |DevSet(cfg, loc) * Elems(us + vs)|
  {
    var d := DevSet(cfg, loc);
    assert DevSet(cfg, SetAll(loc, us, Free)) * Elems(vs) == d * Elems(vs);
    assert d * Elems(us + vs) == d * Elems(us) + d * Elems(vs);
    assert (d * Elems(us)) * (d * Elems(vs)) == {};
  }

  /** Reaping us and then vs is reaping them together. */
  lemma ReapedTwice(s: Sys, us: seq<int>, vs: seq<int>)
    requires Sized(s) && forall v :: v in vs ==> v !in us
    ensures Reaped(Reaped(s, us), vs) == Reaped(s, us + vs)
  {
    hide SetAll, Drained, Vacated, Orphaned, DevSet, Deaths, Minus, Elems;
    SetAllTwice(s.loc, us, vs, Free);
    MinusMinus(s.ready, us, vs);
    VacatedTwice(s.shelf, s.wait, s.loc, s.cursem, us, vs);
    VacatedApart(Vacated(s.shelf, s.wait, s.loc, s.cursem, us), Drained(s.wait, us), s.loc, s.cursem, us, vs);
    DrainedTwice(s.wait, us, vs);
    OrphanedTwice(s.fam, us, vs);
    DevTwice(s.cfg, s.loc, us, vs);
    DeathsApart(s.loc, us, vs);
    DeathsConcat(s.loc, us, vs);
    assert s.free + us + vs == s.free + (us + vs);
    assert s.log + Deaths(s.loc, us) + Deaths(s.loc, vs) == s.log + Deaths(s.loc, us + vs);
  }

  /** Whoever is about to be reaped may be detached first. */
  lemma ReapedDetached(s: Sys, c: int, vs: seq<int>)
    requires Sized(s) && Proc(s, c) && c in vs
    ensures Reaped(Pcb.Detached(s, c), vs) == Reaped(s, vs)
  {
    var f, g := s.fam, Pcb.Detach(s.fam, c);
    var l, r := Orphaned(g, vs), Orphaned(f, vs);
    assert l.parent == r.parent;
    forall p | 0 <= p < |f.kids|
      ensures l.kids[p] == r.kids[p]
    {
      MinusSub(f.kids[p], c, vs);
    }
    assert l.kids == r.kids;
  }

  // ----- the loop -----

  lemma PrefixKids(f: Family, p: int, j: nat)
    requires Kin(f) && Person(f, p) && j <= |f.kids[p]|
    ensures forall c :: c in f.kids[p][..j] ==> c in f.kids[p]
  {
  }

  /** Whom the first j rounds of the loop free. */
  ghost function Gone(f: Family, p: int, j: nat): seq<int>
    requires Kin(f) && Person(f, p) && j <= |f.kids[p]|
  {
    PrefixKids(f, p, j);
    PostAll(f, p, f.kids[p][..j])
  }

  /** The state after j rounds of the loop in terminateProgeny. */
  ghost function Stage(s: Sys, p: int, j: nat): (r: Sys)
    requires Sized(s) && Kin(s.fam) && Proc(s, p) && j <= |s.fam.kids[p]|
    ensures Sized(r)
  {
    Reaped(Pcb.Detached(s, p), Gone(s.fam, p, j))
  }

  /** The subtree of the next child is untouched by the rounds before. */
  lemma Untouched(f: Family, p: int, j: nat, y: int)
    requires Kin(f) && Person(f, p) && j < |f.kids[p]| && Person(f, f.kids[p][j]) && y in Post(f, f.kids[p][j])
    ensures y !in Gone(f, p, j)
  {
    hide NoDup;
    var c := f.kids[p][j];
    PrefixKids(f, p, j);
    assert c in f.kids[p] && NoDup(f.kids[p]);
    Earlier(f.kids[p], j);
    PostApart(f, p, c, f.kids[p][..j]);
  }

  lemma Earlier(q: seq<int>, j: nat)
    requires NoDup(q) && j < |q|
    ensures q[j] !in q[..j]
  {
  }

  /** Everybody in the subtree of c is younger than the parent of c. */
  lemma Younger(f: Family, p: int, c: int, y: int)
    requires Kin(f) && Person(f, p) && Person(f, c) && c in f.kids[p] && y in Post(f, c)
    ensures y != p && Person(f, y) && f.birth[p] < f.birth[y]
  {
    hide Post, NoDup;
    PostIsSubtree(f, c);
    DescendantsAreYounger(f, y, c);
    assert f.parent[c] == p;
  }

  lemma KidsBelow(f: Family, c: int, y: int, z: int)
    requires Kin(f) && Person(f, c) && Person(f, y) && y in Post(f, c) && z in f.kids[y]
    ensures z in Post(f, c)
  {
    hide Post;
    PostIsSubtree(f, c);
    assert Person(f, z) && f.parent[z] == y;
  }

  lemma RootRemains(f: Family, p: int, j: nat)
    requires Kin(f) && Person(f, p) && j <= |f.kids[p]|
    ensures p !in Gone(f, p, j)
  {
    PrefixKids(f, p, j);
    PostAllIsSubtrees(f, p, f.kids[p][..j]);
    if p in Gone(f, p, j) {
      var c :| c in f.kids[p][..j] && Descends(f, p, c);
      assert c in f.kids[p] && Person(f, c);
      DescendantsAreYounger(f, p, c);
    }
  }

  lemma GoneKid(f: Family, p: int, j: nat, m: nat)
    requires Kin(f) && Person(f, p) && j <= |f.kids[p]| && m < |f.kids[p]|
    ensures f.kids[p][m] in Gone(f, p, j) <==> m < j
  {
    var cs, us, c := f.kids[p], Gone(f, p, j), f.kids[p][m];
    PrefixKids(f, p, j);
    PostAllIsSubtrees(f, p, cs[..j]);
    assert c in cs && Person(f, c) && Descends(f, c, c);
    if m < j {
      assert c in cs[..j];
    } else if c in us {
      var d :| d in cs[..j] && Descends(f, c, d);
      assert d in cs && d != c;
      SiblingsApart(f, p, c, c, d);
    }
  }

  /** Of the children, exactly those of the rounds before are gone. */
  lemma GoneKids(f: Family, p: int, j: nat)
    requires Kin(f) && Person(f, p) && j <= |f.kids[p]|
    ensures Minus(f.kids[p], Gone(f, p, j)) == f.kids[p][j..]
  {
    hide Kin, Gone, Minus;
    var cs, us := f.kids[p], Gone(f, p, j);
    forall m | 0 <= m < |cs|
      ensures cs[m] in us <==> m < j
    {
      GoneKid(f, p, j, m);
    }
    assert cs == cs[..j] + cs[j..];
    MinusConcat(cs[..j], cs[j..], us);
    MinusAll(cs[..j], us);
    MinusNothing(cs[j..], us);
  }

  lemma {:induction false} MinusAll(q: seq<int>, vs: seq<int>)
    requires forall x :: x in q ==> x in vs
    ensures Minus(q, vs) == []
  {
    if q != [] {
      var x := q[0];
      assert x in q;
      MinusAll(q[1..], vs);
    }
  }

  lemma StageKids(s: Sys, p: int, j: nat)
    requires Sized(s) && Kin(s.fam) && Proc(s, p) && Person(s.fam, p) && j <= |s.fam.kids[p]|
    ensures var g := Stage(s, p, j).fam; g.kids[p] == s.fam.kids[p][j..] && g.parent[p] == NIL
    ensures Stage(s, p, j).cursem == s.cursem && Stage(s, p, j).loc == SetAll(s.loc, Gone(s.fam, p, j), Free)
    ensures Stage(s, p, j).loc[p] == s.loc[p] && Stage(s, p, j).cfg == s.cfg && Stage(s, p, j).cur == s.cur
  {
    hide Minus, Drained;
    RootRemains(s.fam, p, j);
    GoneKids(s.fam, p, j);
    assert s.fam.parent[p] != p;
  }

  /** The subtree of child j, once the child is detached, is what it was. */
  lemma StagePost(s: Sys, p: int, j: nat)
    requires Sized(s) && Kin(s.fam) && Proc(s, p) && Person(s.fam, p) && j < |s.fam.kids[p]|
    requires Proc(s, s.fam.kids[p][j])
    requires Kin(Pcb.Detached(Stage(s, p, j), s.fam.kids[p][j]).fam)
    ensures var c, r := s.fam.kids[p][j], Pcb.Detached(Stage(s, p, j), s.fam.kids[p][j]);
      Person(s.fam, c) && Person(r.fam, c) && Post(r.fam, c) == Post(s.fam, c)
  {
    var f, c := s.fam, s.fam.kids[p][j];
    var g := Pcb.Detached(Stage(s, p, j), c).fam;
    assert c in f.kids[p] && Person(f, c) && Person(g, c);
    forall y | y in Post(f, c)
      ensures Person(f, y) && g.kids[y] == f.kids[y]
    {
      StageLists(s, p, j, y);
    }
    PostFrame(f, g, c);
  }

  lemma StageLists(s: Sys, p: int, j: nat, y: int)
    requires Sized(s) && Kin(s.fam) && Proc(s, p) && Person(s.fam, p) && j < |s.fam.kids[p]|
    requires Proc(s, s.fam.kids[p][j]) && Person(s.fam, s.fam.kids[p][j]) && y in Post(s.fam, s.fam.kids[p][j])
    ensures Person(s.fam, y)
    ensures Pcb.Detached(Stage(s, p, j), s.fam.kids[p][j]).fam.kids[y] == s.fam.kids[y]
  {
    hide Minus;
    var f, c, us := s.fam, s.fam.kids[p][j], Gone(s.fam, p, j);
    assert c in f.kids[p] && f.parent[c] == p && c in Post(f, c);
    Younger(f, p, c, y);
    Younger(f, p, c, c);
    Untouched(f, p, j, y);
    Untouched(f, p, j, c);
    var f1 := Pcb.Detach(f, p);
    assert f.parent[p] != y;
    assert f1.kids[y] == f.kids[y] && f1.parent[c] == p;
    forall z | z in f.kids[y]
      ensures z !in us
    {
      KidsBelow(f, c, y, z);
      Untouched(f, p, j, z);
    }
    MinusNothing(f.kids[y], us);
    var f2 := Orphaned(f1, us);
    assert f2.kids[y] == f.kids[y] && f2.parent[c] == p;
  }

  /** Reaping the subtree of child j, detached, completes round j. */
  lemma StageNext(s: Sys, p: int, j: nat)
    requires Sized(s) && Kin(s.fam) && Proc(s, p) && Person(s.fam, p) && j < |s.fam.kids[p]|
    requires Proc(s, s.fam.kids[p][j]) && Person(s.fam, s.fam.kids[p][j])
    ensures var c := s.fam.kids[p][j];
      Reaped(Pcb.Detached(Stage(s, p, j), c), Post(s.fam, c)) == Stage(s, p, j + 1)
  {
    hide Reaped, Pcb.Detached, Kin;
    var f, c := s.fam, s.fam.kids[p][j];
    var us, vs := Gone(f, p, j), Post(f, c);
    StageKids(s, p, j);
    assert c in vs;
    forall v | v in vs
      ensures v !in us
    {
      Untouched(f, p, j, v);
    }
    ReapedDetached(Stage(s, p, j), c, vs);
    ReapedTwice(Pcb.Detached(s, p), us, vs);
    PrefixKids(f, p, j);
    PostAllSnoc(f, p, f.kids[p][..j], c);
    assert f.kids[p][..j + 1] == f.kids[p][..j] + [c];
  }

  /** Reaping p itself completes the work. */
  lemma StageEnd(s: Sys, p: int)
    requires Sized(s) && Kin(s.fam) && Proc(s, p) && Person(s.fam, p)
    ensures Reaped(Stage(s, p, |s.fam.kids[p]|), [p]) == Reaped(s, Post(s.fam, p))
  {
    hide Reaped, Pcb.Detached, Kin;
    var n := |s.fam.kids[p]|;
    RootRemains(s.fam, p, n);
    ReapedTwice(Pcb.Detached(s, p), Gone(s.fam, p, n), [p]);
    assert s.fam.kids[p][..n] == s.fam.kids[p];
    ReapedDetached(s, p, Post(s.fam, p));
  }

  lemma StageStart(s: Sys, p: int)
    requires Sized(s) && Kin(s.fam) && Proc(s, p) && Person(s.fam, p)
    requires forall a :: a in s.wait ==> s.wait[a] != []
    ensures Stage(s, p, 0) == Pcb.Detached(s, p)
  {
    ReapedNone(Pcb.Detached(s, p));
  }

  lemma ReapedNone(s: Sys)
    requires Sized(s) && forall a :: a in s.wait ==> s.wait[a] != []
    ensures Reaped(s, []) == s
  {
    hide Minus, Drained, DevSet, Orphaned;
    MinusNothing(s.ready, []);
    DrainedNone(s.wait);
    OrphanedNone(s.fam);
    assert DevSet(s.cfg, s.loc) * Elems([]) == {};
    assert SetAll(s.loc, [], Free) == s.loc;
    assert s.free + [] == s.free && s.log + [] == s.log;
  }

  lemma OrphanedNone(f: Family)
    ensures Orphaned(f, []) == f
  {
    hide Minus;
    forall p | 0 <= p < |f.kids|
      ensures Minus(f.kids[p], []) == f.kids[p]
    {
      MinusNothing(f.kids[p], []);
    }
    assert Orphaned(f, []).kids == f.kids;
    assert SetAll(f.parent, [], NIL) == f.parent;
  }

  lemma DrainedNone(w: map<int, seq<int>>)
    requires forall a :: a in w ==> w[a] != []
    ensures Drained(w, []) == w
  {
    hide Minus;
    var r := Drained(w, []);
    forall a
      ensures a in r <==> a in w
      ensures a in r ==> r[a] == w[a]
    {
      if a in w {
        MinusNothing(w[a], []);
      }
    }
  }

  // ----- one process -----

  /** Nobody but the owner of its location holds p. */
  lemma MinusElsewhere(q: seq<int>, loc: seq<Loc>, tag: Loc, p: int)
    requires Tagged(q, loc, tag) && 0 <= p < |loc| && loc[p] != tag
    ensures Minus(q, [p]) == q
  {
    MinusNothing(q, [p]);
  }

  lemma DrainedOne(w: map<int, seq<int>>, loc: seq<Loc>, p: int)
    requires 0 <= p < |loc| && forall a :: a in w ==> w[a] != [] && Tagged(w[a], loc, Waiting(a))
    ensures loc[p].Waiting? ==> var a := loc[p].sem; var q := Minus(Line(w, a), [p]);
      a in w ==> Drained(w, [p]) == if q == [] then w - {a} else w[a := q]
    ensures !loc[p].Waiting? ==> Drained(w, [p]) == w
  {
    hide Minus, Tagged;
    var r, here := Drained(w, [p]), if loc[p].Waiting? then loc[p].sem else 0;
    forall a | a in w && loc[p] != Waiting(a)
      ensures a in r && r[a] == w[a]
    {
      MinusElsewhere(w[a], loc, Waiting(a), p);
    }
    if loc[p].Waiting? && here in w {
      var q := Minus(w[here], [p]);
      var e := if q == [] then w - {here} else w[here := q];
      forall a
        ensures a in r <==> a in e
        ensures a in r ==> r[a] == e[a]
      {
        assert a in w && a != here ==> loc[p] != Waiting(a);
      }
      assert r == e;
    } else if !loc[p].Waiting? {
      forall a
        ensures a in r <==> a in w
        ensures a in r ==> r[a] == w[a]
      {
        assert loc[p] != Waiting(a);
      }
      assert r == w;
    }
  }

  lemma OrphanedOne(f: Family, p: int)
    requires Kin(f) && Person(f, p) && f.parent[p] == NIL && f.kids[p] == []
    ensures Orphaned(f, [p]) == f
  {
    hide Minus;
    forall q | 0 <= q < |f.kids|
      ensures Minus(f.kids[q], [p]) == f.kids[q]
    {
      assert Person(f, q) && p !in f.kids[q];
      MinusNothing(f.kids[q], [p]);
    }
    assert Orphaned(f, [p]).kids == f.kids;
    SetAllOne(f.parent, p, NIL);
  }

  lemma DevOne(cfg: Config, loc: seq<Loc>, p: int)
    requires 0 <= p < |loc|
    ensures |DevSet(cfg, loc) * Elems([p])| == if loc[p].Waiting? && IsDev(cfg, loc[p].sem) then 1 else 0
  {
    assert DevSet(cfg, loc) * Elems([p]) == if loc[p].Waiting? && IsDev(cfg, loc[p].sem) then {p} else {};
  }

  lemma VacatedOne(h: Shelf, w: map<int, seq<int>>, loc: seq<Loc>, cursem: seq<int>, p: int)
    requires 0 <= p < |loc| == |cursem| && forall a :: a in w ==> w[a] != []
    ensures Vacated(h, w, loc, cursem, [p]) ==
      if loc[p].Waiting? then (if Minus(Line(w, loc[p].sem), [p]) == [] then Retire(h, loc[p].sem) else h)
      else if cursem[p] != NIL then Refile(h, cursem[p])
      else h
  {
    hide Drained, Retire, Refile, Minus;
    DrainedNone(w);
    assert [p][..0] == [];
  }

  /** p has left whatever queue it is on, and is counted off if that is a device's. A p_cursem left
      over from an earlier wait makes the code look elsewhere than on the ready queue. */
  function Departed(s: Sys, p: int): (r: Sys)
    requires Sized(s) && Proc(s, p)
    ensures Sized(r) && |r.loc| == |s.loc|
  {
    if s.loc[p].Waiting? then
      var dev := s.cfg.build.Repaired? && IsDev(s.cfg, s.loc[p].sem);
      Asl.Unblocked(s.(soft := if dev then s.soft - 1 else s.soft), p)
    else if s.cursem[p] != NIL then s.(shelf := Refile(s.shelf, s.cursem[p]))
    else Pcb.Pulled(s, p)
  }

  /** The end of terminateProgeny, for a process without relatives. */
  lemma ReapedOne(s: Sys, p: int)
    requires Sized(s) && Kin(s.fam) && Proc(s, p) && s.fam.parent[p] == NIL && s.fam.kids[p] == []
    requires Tagged(s.ready, s.loc, Ready) && s.loc[p] != Free
    requires forall a :: a in s.wait ==> s.wait[a] != [] && Tagged(s.wait[a], s.loc, Waiting(a))
    requires s.loc[p].Waiting? ==> s.loc[p].sem in s.wait
    requires s.loc[p] == Ready ==> s.cursem[p] == NIL
    ensures Reaped(s, [p]) == Pcb.Freed(Departed(s, p), p).(count := s.count - 1, log := s.log + Deaths(s.loc, [p]))
  {
    hide Minus, Tagged, Drained, Orphaned, DevSet, Deaths, Kin, Vacated, Retire, Refile, SetAll;
    VacatedOne(s.shelf, s.wait, s.loc, s.cursem, p);
    if s.loc[p] != Ready {
      MinusElsewhere(s.ready, s.loc, Ready, p);
    }
    DrainedOne(s.wait, s.loc, p);
    assert Person(s.fam, p);
    OrphanedOne(s.fam, p);
    DevOne(s.cfg, s.loc, p);
    SetAllOne(s.loc, p, Free);
    assert s.loc[p := Off][p := Free] == s.loc[p := Free];
    assert Departed(s, p).fam == s.fam && Departed(s, p).free == s.free;
  }

  // ----- the preconditions of the recursive call -----

  /** Who is to be freed is alive, is on no queue only if running, and carries a stale p_cursem in
      the shipped build only. */
  ghost predicate Mortal(s: Sys, vs: seq<int>)
    requires Sized(s)
  {
    forall v :: v in vs ==>
      Proc(s, v) && s.loc[v] != Free && (s.loc[v] == Off <==> v == s.cur)
      && (s.cursem[v] != NIL ==> s.loc[v].Waiting? || s.cfg.build.Shipped?)
  }

  lemma Below(f: Family, p: int, c: int)
    requires Kin(f) && Person(f, p) && Person(f, c) && c in f.kids[p]
    ensures forall v :: v in Post(f, c) ==> v in Post(f, p)
  {
    PostIsSubtree(f, c);
    PostIsSubtree(f, p);
    forall v | v in Post(f, c)
      ensures v in Post(f, p)
    {
      DescendsUp(f, v, c);
    }
  }

  lemma StageMortal(s: Sys, p: int, j: nat)
    requires Sized(s) && Kin(s.fam) && Proc(s, p) && Person(s.fam, p) && j < |s.fam.kids[p]|
    requires Proc(s, s.fam.kids[p][j]) && Person(s.fam, s.fam.kids[p][j])
    requires Mortal(s, Post(s.fam, p))
    ensures var x, vs := Pcb.Detached(Stage(s, p, j), s.fam.kids[p][j]), Post(s.fam, s.fam.kids[p][j]);
      Mortal(x, vs) && (Clean(x, vs) <==> Clean(s, vs)) && (Clean(s, Post(s.fam, p)) ==> Clean(s, vs))
  {
    hide Reaped, Kin, Post;
    var c := s.fam.kids[p][j];
    assert c in s.fam.kids[p];
    StageKids(s, p, j);
    Below(s.fam, p, c);
    forall v | v in Post(s.fam, c)
      ensures v !in Gone(s.fam, p, j)
    {
      Untouched(s.fam, p, j, v);
    }
  }

  /** Whoever goes with round j is in the subtree of its child. */
  lemma GoneNext(s: Sys, p: int, j: nat)
    requires Sized(s) && Kin(s.fam) && Proc(s, p) && Person(s.fam, p) && j < |s.fam.kids[p]|
    requires Person(s.fam, s.fam.kids[p][j])
    ensures Gone(s.fam, p, j + 1) == Gone(s.fam, p, j) + Post(s.fam, s.fam.kids[p][j])
  {
    var f, c := s.fam, s.fam.kids[p][j];
    assert c in f.kids[p];
    PrefixKids(f, p, j);
    PostAllSnoc(f, p, f.kids[p][..j], c);
    assert f.kids[p][..j + 1] == f.kids[p][..j] + [c];
  }

  lemma GoneAll(s: Sys, p: int)
    requires Sized(s) && Kin(s.fam) && Proc(s, p) && Person(s.fam, p)
    ensures Post(s.fam, p) == Gone(s.fam, p, |s.fam.kids[p]|) + [p]
  {
    assert s.fam.kids[p][..|s.fam.kids[p]|] == s.fam.kids[p];
  }

  lemma StageBirths(s: Sys, p: int, j: nat)
    requires Sized(s) && Kin(s.fam) && Proc(s, p) && Person(s.fam, p) && j <= |s.fam.kids[p]|
    ensures Stage(s, p, j).fam.birth == s.fam.birth && Stage(s, p, j).fam.born == s.fam.born
    ensures |Stage(s, p, j).loc| == |s.loc|
  {
  }

  lemma CleanConcat(s: Sys, us: seq<int>, vs: seq<int>)
    requires Sized(s)
    ensures Clean(s, us + vs) <==> Clean(s, us) && Clean(s, vs)
  {
    forall v | v in us || v in vs
      ensures v in us + vs
    {
    }
  }

  /** Round j can begin: x is the state after its child c has been taken off. */
  lemma RoundReady(s: Sys, p: int, j: nat, x: Sys)
    requires Sized(s) && Kin(s.fam) && Proc(s, p) && Person(s.fam, p) && j < |s.fam.kids[p]|
    requires Mortal(s, Post(s.fam, p)) && Proc(s, s.fam.kids[p][j]) && Sized(x) && Kin(x.fam)
    requires x == Pcb.Detached(Stage(s, p, j), s.fam.kids[p][j])
    ensures var c := s.fam.kids[p][j];
      Person(s.fam, c) && Person(x.fam, c) && Post(x.fam, c) == Post(s.fam, c) && Mortal(x, Post(x.fam, c))
      && (Clean(s, Gone(s.fam, p, j + 1)) <==> Clean(s, Gone(s.fam, p, j)) && Clean(x, Post(x.fam, c)))
      && (Clean(s, Post(s.fam, p)) ==> Clean(x, Post(x.fam, c)))
      && Reaped(x, Post(x.fam, c)) == Stage(s, p, j + 1)
      && x.fam.born == s.fam.born && x.fam.birth == s.fam.birth && s.fam.birth[p] < s.fam.birth[c] <= s.fam.born
  {
    hide Reaped, Stage, Pcb.Detached, Post, Mortal, Gone;
    assert s.fam.kids[p][j] in s.fam.kids[p];
    StageBirths(s, p, j);
    StagePost(s, p, j);
    StageMortal(s, p, j);
    StageNext(s, p, j);
    GoneNext(s, p, j);
    CleanConcat(s, Gone(s.fam, p, j), Post(s.fam, s.fam.kids[p][j]));
  }

  /** What the code sees at the head of the loop. */
  lemma RoundStart(s: Sys, p: int, j: nat)
    requires Sized(s) && Kin(s.fam) && Proc(s, p) && Person(s.fam, p) && j <= |s.fam.kids[p]|
    ensures var r := Stage(s, p, j); |r.loc| == |s.loc| && r.fam.kids[p] == s.fam.kids[p][j..]
  {
    StageKids(s, p, j);
  }
}
