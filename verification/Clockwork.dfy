/** lib/aux.c: time keeping on entry to and exit from the nucleus. */
module Clockwork {
  import opened Lists
  import opened Nucleus
  import opened Invariant
  import opened Threads
  import opened Machine
  import C = Clock

  /** elapsed = currentTime - g_lastUpdate; g_leftTo100 -= elapsed, zero when that wraps around */
  method CountDown(left: int, last: int, now: int) returns (left': int, elapsed: int)
    ensures elapsed == C.Sub(now, last)
    ensures left' == C.Elapse(left, elapsed)
  {
    elapsed := (now - last) % C.WORD;
    left' := (left - elapsed) % C.WORD;
    if left' > C.TICK {
      left' := 0;
    }
  }

  method SetClock(k: Kernel, left: int, last: int)
    modifies k
    ensures k.Img() == old(k.Img()).(s := old(k.Abs()).(clk := old(k.Clk()).(left := left, last := last)))
  {
    k.left, k.last := left, last;
  }

  /** setTIMER with the smaller of what is left to the tick and of the running slice */
  method SetTimer(k: Kernel)
    requires k.cur == NIL || 0 <= k.cur < |k.slice|
    modifies k
    ensures k.Img() == old(k.Img()).(s := old(k.Abs()).(clk := old(k.Clk()).(
      timer := if old(k.cur) != NIL && old(k.slice[k.cur] <= k.left) then old(k.slice[k.cur]) else old(k.left))))
  {
    if k.cur != NIL {
      k.timer := if k.left < k.slice[k.cur] then k.left else k.slice[k.cur];
    } else {
      k.timer := k.left;
    }
  }

  /** p_global_time, p_user_time and p_time_slice of the running process */
  method Charge(k: Kernel, elapsed: int)
    requires C.Slot(k.Clk(), k.cur)
    modifies k
    ensures k.Img() == old(k.Img()).(s := old(k.Abs()).(clk := old(k.Clk()).(
      glob := old(k.glob[k.cur := C.Add(k.glob[k.cur], elapsed)]),
      user := old(k.user[k.cur := C.Add(k.user[k.cur], elapsed)]),
      slice := old(k.slice[k.cur := C.Sub(k.slice[k.cur], elapsed)]))))
  {
    k.glob := k.glob[k.cur := (k.glob[k.cur] + elapsed) % C.WORD];
    k.user := k.user[k.cur := (k.user[k.cur] + elapsed) % C.WORD];
    k.slice := k.slice[k.cur := (k.slice[k.cur] - elapsed) % C.WORD];
  }

  method ChargeGlobal(k: Kernel, elapsed: int)
    requires C.Slot(k.Clk(), k.cur)
    modifies k
    ensures k.Img() == old(k.Img()).(s := old(k.Abs()).(clk := old(k.Clk()).(
      glob := old(k.glob[k.cur := C.Add(k.glob[k.cur], elapsed)]))))
  {
    k.glob := k.glob[k.cur := (k.glob[k.cur] + elapsed) % C.WORD];
  }

  ghost method Book(k: Kernel, led: C.Ledger)
    modifies k
    ensures k.Img() == old(k.Img()).(s := old(k.Abs()).(clk := old(k.Clk()).(led := led)))
  {
    k.led := led;
  }

  lemma Slots(i: Image)
    requires Rep(i)
    ensures Sized(i.s) && (i.s.cur != NIL ==> C.Slot(i.s.clk, i.s.cur))
  {
    hide Threaded, Table, Kids, Housed, Pointed, Occupied;
  }

  /** onHandlerEnter */
  method OnHandlerEnter(k: Kernel, t: nat)
    requires k.Valid() && Sized(k.Abs())
    modifies k
    ensures k.Valid() && k.Abs() == Enter(old(k.Abs()), t)
  {
    hide Rep, C.Add, C.Sub, C.Elapse;
    ghost var i := k.Img();
    Slots(i);
    var left, elapsed := CountDown(k.left, k.last, t % C.WORD);
    SetClock(k, left, t % C.WORD);
    if k.cur != NIL {
      Charge(k, elapsed);
    }
    Book(k, Enter(i.s, t).clk.led);
    SetTimer(k);
    assert k.Img() == i.(s := Enter(i.s, t));
    RepSame(i, Enter(i.s, t));
  }

  /** onHandlerExit */
  method OnHandlerExit(k: Kernel, t: nat, flag: bool)
    requires k.Valid() && Sized(k.Abs())
    modifies k
    ensures k.Valid() && k.Abs() == Exit(old(k.Abs()), t, flag)
  {
    hide Rep, C.Add, C.Sub, C.Elapse;
    ghost var i := k.Img();
    Slots(i);
    var left, elapsed := CountDown(k.left, k.last, t % C.WORD);
    SetClock(k, left, t % C.WORD);
    if flag && k.cur != NIL {
      ChargeGlobal(k, elapsed);
    }
    Book(k, Exit(i.s, t, flag).clk.led);
    SetTimer(k);
    assert k.Img() == i.(s := Exit(i.s, t, flag));
    RepSame(i, Exit(i.s, t, flag));
  }
}
