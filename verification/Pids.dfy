/** Process identifiers over a whole run: src/exceptions.c 26-32 and 86-99, src/init.c 54. */
module Pids {
  import opened Lists
  import opened Forest
  import opened Nucleus
  import opened Invariant
  import C = Clock

  const BIRTHS := 0x800_0000   // 2^27: the shift by five loses nothing below

  function Pow2(k: nat): nat { if k == 0 then 1 else 2 * Pow2(k - 1) }

  /** The two bit fields of a pid do not overlap. */
  lemma {:induction false} OrIsSum(b: nat, k: nat, c: nat)
    requires c < Pow2(k)
    ensures BitOr(b * Pow2(k), c) == b * Pow2(k) + c
    decreases k
  {
    if k > 0 && b > 0 {
      var x := b * Pow2(k);
      assert x == 2 * (b * Pow2(k - 1));
      assert x / 2 == b * Pow2(k - 1) && x % 2 == 0;
      if c > 0 {
        OrIsSum(b, k - 1, c / 2);
      }
    }
  }

  lemma PidFields(b: nat, c: nat)
    requires b < BIRTHS && c < 32
    ensures Pid(b, c) == 32 * b + c
  {
    hide BitOr;
    assert Pow2(5) == 32;
    OrIsSum(b, 5, c);
    assert b * 32 % C.WORD == b * 32;
  }

  /** Entry b - 1 of issued is the identifier of creation number b, handed out when c <= n
      processes existed. */
  ghost predicate IdOf(issued: seq<int>, b: nat, n: nat, c: nat) {
    1 <= b <= |issued| && c <= n && issued[b - 1] == Pid(b, c)
  }

  ghost predicate HasId(issued: seq<int>, b: nat, n: nat) { exists c: nat :: IdOf(issued, b, n, c) }

  /** The i-th identifier handed out belongs to creation number i + 1. */
  ghost predicate Issued(n: nat, issued: seq<int>, born: nat) {
    && |issued| == born >= 1 && issued[0] == 1
    && (forall b :: 2 <= b <= |issued| ==> HasId(issued, b, n))
  }

  /** Every live process holds the identifier of its own creation. */
  ghost predicate Holders(loc: seq<Loc>, f: Family, pid: seq<int>, issued: seq<int>) {
    && |pid| == |f.birth| == |loc|
    && (forall p :: 0 <= p < |loc| && loc[p] != Free ==>
          1 <= f.birth[p] <= |issued| && pid[p] == issued[f.birth[p] - 1])
    && (forall p, q :: 0 <= p < q < |loc| && loc[p] != Free && loc[q] != Free ==> f.birth[p] != f.birth[q])
  }

  ghost predicate PidBook(s: Sys) {
    && Issued(|s.loc|, s.issued, s.fam.born)
    && Holders(s.loc, s.fam, s.pid, s.issued)
  }

  lemma IssuedNext(n: nat, issued: seq<int>, born: nat, c: nat)
    requires Issued(n, issued, born) && c <= n
    ensures Issued(n, issued + [Pid(born + 1, c)], born + 1)
  {
    var more := issued + [Pid(born + 1, c)];
    forall b | 2 <= b <= |more|
      ensures HasId(more, b, n)
    {
      if b <= born {
        assert HasId(issued, b, n);
        var d: nat :| IdOf(issued, b, n, d);
        assert IdOf(more, b, n, d);
      } else {
        assert IdOf(more, b, n, c);
      }
    }
  }

  lemma CreatePids(s: Sys)
    requires Inv(s) && PidBook(s) && s.cur != NIL && (s.free != [] ==> Proc(s, s.free[0]))
    ensures PidBook(Create(s))
  {
    hide C.Conserved, Parted, Housed, Linked, Seated, Softened, Pid;
    CountFree(s);
    if s.count < |s.loc| {
      var p := s.free[0];
      CreateFields(s);
      CreateNumber(s);
      var id := Pid(s.fam.born + 1, s.count + 1);
      IssuedNext(|s.loc|, s.issued, s.fam.born, s.count + 1);
      assert forall q :: Proc(s, q) ==> s.fam.birth[q] <= s.fam.born by { BirthsBelow(s); }
    }
  }

  /** Nothing changes for the living when nobody comes to life. */
  lemma HoldersKept(loc: seq<Loc>, loc': seq<Loc>, f: Family, g: Family, pid: seq<int>, issued: seq<int>)
    requires Holders(loc, f, pid, issued) && |loc'| == |loc| && g.birth == f.birth
    requires forall p :: 0 <= p < |loc| && loc'[p] != Free ==> loc[p] != Free
    ensures Holders(loc', g, pid, issued)
  {
  }

  lemma BirthsBelow(s: Sys)
    requires Inv(s)
    ensures forall q :: Proc(s, q) ==> s.fam.birth[q] <= s.fam.born
  {
    forall q | Proc(s, q)
      ensures s.fam.birth[q] <= s.fam.born
    {
      assert Person(s.fam, q);
    }
  }

  lemma CreateNumber(s: Sys)
    requires Inv(s) && s.cur != NIL && s.free != [] && Proc(s, s.free[0]) && s.count < |s.loc|
    ensures 0 <= s.count
    ensures var r := Create(s);
      r.pid == s.pid[s.free[0] := Pid(s.fam.born + 1, s.count + 1)]
      && r.issued == s.issued + [Pid(s.fam.born + 1, s.count + 1)]
  {
    hide C.Conserved, Housed, Linked, Seated, Softened, Pid, C.Rebirth;
    assert s.count >= 0 by { FreeFits(s.free, |s.loc|) by { assert Partition(s); } }
    assert s.pid[s.free[0] := 0][s.free[0] := Pid(s.fam.born + 1, s.count + 1)] ==
        s.pid[s.free[0] := Pid(s.fam.born + 1, s.count + 1)];
  }

  /** Below 2^27 creations the identifiers of a run are pairwise distinct, none is 0, and
      only the initial process has 1. */
  lemma PidsDistinct(s: Sys, i: nat, j: nat)
    requires PidBook(s) && |s.loc| < 32 && s.fam.born < BIRTHS && i < j < |s.issued|
    ensures s.issued[i] != s.issued[j] && s.issued[j] > 1 && s.issued[i] != 0
  {
    assert HasId(s.issued, j + 1, |s.loc|);
    var d: nat :| IdOf(s.issued, j + 1, |s.loc|, d);
    PidFields(j + 1, d);
    if i > 0 {
      assert HasId(s.issued, i + 1, |s.loc|);
      var c: nat :| IdOf(s.issued, i + 1, |s.loc|, c);
      PidFields(i + 1, c);
    }
  }

  /** Two live processes never share an identifier. */
  lemma LivePidsDiffer(s: Sys, p: int, q: int)
    requires Sized(s) && PidBook(s) && |s.loc| < 32 && s.fam.born < BIRTHS
    requires Proc(s, p) && Proc(s, q) && p != q && s.loc[p] != Free && s.loc[q] != Free
    ensures s.pid[p] != s.pid[q]
  {
    var i, j := s.fam.birth[p] - 1, s.fam.birth[q] - 1;
    if i < j {
      PidsDistinct(s, i, j);
    } else {
      PidsDistinct(s, j, i);
    }
  }

  /** The error value -1 of createProcess, read as unsigned, is the identifier of creation
      2^27 - 1 with 31 processes and of no other below 2^27. */
  lemma PidIsErrorIff(b: nat, c: nat)
    requires b < BIRTHS && c < 32
    ensures Pid(b, c) == C.WORD - 1 <==> b == BIRTHS - 1 && c == 31
  {
    PidFields(b, c);
  }

  /** With at most 30 process descriptors no identifier collides with the error value. */
  lemma NoPidIsError(s: Sys, i: nat)
    requires PidBook(s) && |s.loc| < 31 && s.fam.born < BIRTHS && i < |s.issued|
    ensures s.issued[i] != C.WORD - 1
  {
    if i > 0 {
      assert HasId(s.issued, i + 1, |s.loc|);
      var c: nat :| IdOf(s.issued, i + 1, |s.loc|, c);
      PidIsErrorIff(i + 1, c);
    }
  }
}
