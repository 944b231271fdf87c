/** Sequence vocabulary shared by every module: absent pointers, duplicate-free
    queues, removal of a batch of elements, bulk column updates. */
module Lists {

  /** The null pointer of the index arena. */
  const NIL := -1

  ghost predicate NoDup<T>(s: seq<T>) {
    forall i, j :: 0 <= i < j < |s| ==> s[i] != s[j]
  }

  /** q without the elements of vs, order kept. */
  function Minus(q: seq<int>, vs: seq<int>): (r: seq<int>)
    ensures forall x :: x in r <==> x in q && x !in vs
  {
    if q == [] then []
    else if q[0] in vs then Minus(q[1..], vs)
    else [q[0]] + Minus(q[1..], vs)
  }

  /** The column col with every entry of vs overwritten by x. */
  function SetAll<T>(col: seq<T>, vs: seq<int>, x: T): (r: seq<T>)
    ensures |r| == |col|
    ensures forall i :: 0 <= i < |col| ==> r[i] == if i in vs then x else col[i]
  {
    seq(|col|, i requires 0 <= i < |col| => if i in vs then x else col[i])
  }

  lemma {:induction false} MinusNoDup(q: seq<int>, vs: seq<int>)
    requires NoDup(q)
    ensures NoDup(Minus(q, vs))
  {
    if q != [] {
      MinusNoDup(q[1..], vs);
      assert q[0] !in q[1..];
    }
  }

  lemma {:induction false} MinusNothing(q: seq<int>, vs: seq<int>)
    requires forall x :: x in q ==> x !in vs
    ensures Minus(q, vs) == q
  {
    if q == [] {
    } else {
      var x := q[0];
      assert x in q;
      MinusNothing(q[1..], vs);
    }
  }

  lemma {:induction false} MinusMinus(q: seq<int>, us: seq<int>, vs: seq<int>)
    ensures Minus(Minus(q, us), vs) == Minus(q, us + vs)
  {
    if q != [] {
      MinusMinus(q[1..], us, vs);
      if q[0] !in us {
        var r := Minus(q[1..], us);
        assert ([q[0]] + r)[1..] == r;
      }
    }
  }

  lemma MinusCons(q: seq<int>, vs: seq<int>)
    ensures Minus(q, vs) == if q == [] then [] else (if q[0] in vs then [] else [q[0]]) + Minus(q[1..], vs)
  {
  }

  lemma {:induction false} MinusConcat(p: seq<int>, q: seq<int>, vs: seq<int>)
    ensures Minus(p + q, vs) == Minus(p, vs) + Minus(q, vs)
  {
    hide Minus;
    MinusCons(p, vs);
    if p == [] {
      assert p + q == q;
    } else {
      MinusConcat(p[1..], q, vs);
      assert (p + q)[1..] == p[1..] + q;
      MinusCons(p + q, vs);
    }
  }

  lemma MinusSplit(q: seq<int>, i: nat, vs: seq<int>)
    requires i < |q| && q[i] in vs
    requires forall j :: 0 <= j < |q| && j != i ==> q[j] !in vs
    ensures Minus(q, vs) == q[..i] + q[i + 1..]
  {
    var l, r := q[..i], q[i + 1..];
    assert q == l + ([q[i]] + r);
    MinusConcat(l, [q[i]] + r, vs);
    MinusConcat([q[i]], r, vs);
    MinusNothing(l, vs);
    MinusNothing(r, vs);
    assert Minus([q[i]], vs) == [];
  }

  lemma MinusFirst(q: seq<int>)
    requires NoDup(q) && q != []
    ensures Minus(q, [q[0]]) == q[1..] && NoDup(q[1..])
  {
    MinusSplit(q, 0, [q[0]]);
    assert q[..0] + q[1..] == q[1..];
  }

  /** Dropping a prefix is removing its elements. */
  lemma {:induction false} MinusPrefix(q: seq<int>, k: nat)
    requires k <= |q| && NoDup(q)
    ensures Minus(q, q[..k]) == q[k..]
    decreases |q|, k
  {
    hide Minus;
    if k == 0 {
      MinusNothing(q, q[..0]);
    } else {
      assert q == q[..k - 1] + q[k - 1..];
      MinusPrefix(q, k - 1);
      MinusMinus(q, q[..k - 1], [q[k - 1]]);
      assert q[..k - 1] + [q[k - 1]] == q[..k];
      var r := q[k - 1..];
      MinusSplit(r, 0, [q[k - 1]]);
      assert r[..0] + r[1..] == q[k..];
    }
  }

  /** Two bulk updates with the same value are one. */
  lemma SetAllTwice<T>(col: seq<T>, us: seq<int>, vs: seq<int>, x: T)
    ensures SetAll(SetAll(col, us, x), vs, x) == SetAll(col, us + vs, x)
  {
  }

  lemma SetAllOne<T>(col: seq<T>, p: int, x: T)
    requires 0 <= p < |col|
    ensures SetAll(col, [p], x) == col[p := x]
  {
  }

  lemma Assoc<T>(x: seq<T>, y: seq<T>, z: seq<T>)
    ensures x + (y + z) == (x + y) + z
  {
  }
}
