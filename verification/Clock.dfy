/** lib/aux.c and the time fields of incl/init.h: 32-bit modular time keeping.
    Every reading of the time-of-day register is a true time t of which the nucleus
    sees t % WORD. The ledger is bookkeeping in true time: it is read by no kernel
    decision, and the theorems below tie the modular fields to it. */
module Clock {
  import opened Lists

  const WORD := 0x1_0000_0000
  const TICK := 100000   // SCHED_PSEUDO_CLOCK
  const SLICE := 5000    // SCHED_TIME_SLICE

  /** now: last reading; start: first one; base: reading at the last tick;
      total, own: time charged to the live incarnation of each process;
      due: what its slice has left, negative when it is overdrawn;
      dead: time charged to earlier incarnations; lost: time charged to nobody. */
  datatype Ledger = Ledger(
    now: nat, start: nat, base: nat, total: seq<nat>, own: seq<nat>, due: seq<int>, dead: nat, lost: nat)

  /** g_lastUpdate, g_leftTo100, the loaded interval timer, and the three time fields
      of each process. */
  datatype Time = Time(last: int, left: int, timer: int, slice: seq<int>, glob: seq<int>, user: seq<int>, led: Ledger)

  /** Unsigned 32-bit subtraction and addition. */
  function Sub(x: int, y: int): int { (x - y) % WORD }

  function Add(x: int, y: int): int { (x + y) % WORD }

  function Elapse(left: int, elapsed: int): int {
    var l := Sub(left, elapsed);
    if l > TICK then 0 else l
  }

  function Min(x: int, y: int): int { if x < y then x else y }

  ghost predicate Shaped(c: Time) {
    |c.slice| == |c.glob| == |c.user| == |c.led.total| == |c.led.own| == |c.led.due|
  }

  predicate Slot(c: Time, p: int) {
    && 0 <= p < |c.slice| && p < |c.glob| && p < |c.user|
    && p < |c.led.total| && p < |c.led.own| && p < |c.led.due|
  }

  /** The reading t is not earlier than the last one. */
  predicate Later(c: Time, t: nat) { c.led.now <= t }

  function Gap(c: Time, t: nat): nat { if t < c.led.now then 0 else t - c.led.now }

  function LoadTimer(c: Time, cur: int): Time
    requires cur != NIL ==> Slot(c, cur)
  {
    c.(timer := if cur != NIL then Min(c.left, c.slice[cur]) else c.left)
  }

  /** onHandlerEnter: the interval since the last update was spent in cur's own code. */
  function Enter(c: Time, t: nat, cur: int): Time
    requires cur != NIL ==> Slot(c, cur)
  {
    var e := Sub(t % WORD, c.last);
    var gap := Gap(c, t);
    var c1 := c.(left := Elapse(c.left, e), last := t % WORD);
    var c2 := if cur == NIL then c1.(led := c.led.(now := t, lost := c.led.lost + gap))
              else c1.(glob := c.glob[cur := Add(c.glob[cur], e)],
                       user := c.user[cur := Add(c.user[cur], e)],
                       slice := c.slice[cur := Sub(c.slice[cur], e)],
                       led := c.led.(now := t, total := c.led.total[cur := c.led.total[cur] + gap],
                                     own := c.led.own[cur := c.led.own[cur] + gap],
                                     due := c.led.due[cur := c.led.due[cur] - gap]));
    LoadTimer(c2, cur)
  }

  /** onHandlerExit: the interval was spent in the nucleus, for cur when flag is set. */
  function Exit(c: Time, t: nat, flag: bool, cur: int): Time
    requires cur != NIL ==> Slot(c, cur)
  {
    var e := Sub(t % WORD, c.last);
    var gap := Gap(c, t);
    var c1 := c.(left := Elapse(c.left, e), last := t % WORD);
    var c2 := if !flag || cur == NIL then c1.(led := c.led.(now := t, lost := c.led.lost + gap))
              else c1.(glob := c.glob[cur := Add(c.glob[cur], e)],
                       led := c.led.(now := t, total := c.led.total[cur := c.led.total[cur] + gap]));
    LoadTimer(c2, cur)
  }

  /** allocPcb zeroes the time fields; the true time of the former incarnation is kept. */
  function Rebirth(c: Time, p: int): Time
    requires Slot(c, p)
  {
    c.(slice := c.slice[p := 0], glob := c.glob[p := 0], user := c.user[p := 0],
       led := c.led.(total := c.led.total[p := 0], own := c.led.own[p := 0], due := c.led.due[p := 0],
                     dead := c.led.dead + c.led.total[p]))
  }

  /** The scheduler hands out a full slice. */
  function Grant(c: Time, p: int): Time
    requires Slot(c, p)
  {
    c.(slice := c.slice[p := SLICE], led := c.led.(due := c.led.due[p := SLICE]))
  }

  /** handleTimer's test for the pseudo-clock, at reading t. */
  predicate TickDue(c: Time, t: nat) {
    var e := Sub(t % WORD, c.last);
    c.left == e || Sub(c.left, e) > TICK
  }

  /** The tick restarts the countdown from the last update. */
  function Restart(c: Time): Time {
    c.(left := TICK, led := c.led.(base := c.led.now))
  }

  // ----- conservation of time -----

  function Sum(s: seq<nat>): nat {
    if s == [] then 0 else s[0] + Sum(s[1..])
  }

  lemma {:induction false} SumUpdate(s: seq<nat>, p: nat, x: nat)
    requires p < |s|
    ensures Sum(s[p := x]) == Sum(s) - s[p] + x
  {
    if p == 0 {
      assert s[0 := x][1..] == s[1..];
    } else {
      SumUpdate(s[1..], p - 1, x);
      assert s[p := x][1..] == s[1..][p - 1 := x];
    }
  }

  /** All true time since the start is accounted for once, own time is part of the
      total, and the modular fields are the true ones modulo 2^32. */
  ghost predicate Conserved(c: Time) {
    && Shaped(c)
    && 0 <= c.left <= TICK
    && c.last == c.led.now % WORD
    && c.led.start <= c.led.base <= c.led.now
    && Sum(c.led.total) + c.led.dead + c.led.lost == c.led.now - c.led.start
    && (forall p :: 0 <= p < |c.glob| ==> c.glob[p] == c.led.total[p] % WORD)
    && (forall p :: 0 <= p < |c.user| ==> c.user[p] == c.led.own[p] % WORD)
    && (forall p :: 0 <= p < |c.user| ==> c.led.own[p] <= c.led.total[p])
    && (forall p :: 0 <= p < |c.slice| ==> c.led.due[p] <= SLICE && c.slice[p] == c.led.due[p] % WORD)
  }

  lemma ElapsedIsGap(now: nat, t: nat, x: nat)
    requires now <= t
    ensures Sub(t % WORD, now % WORD) == (t - now) % WORD
    ensures Add(x % WORD, (t - now) % WORD) == (x + (t - now)) % WORD
  {
    ModDiff(t, now);
    ModSum(x, t - now);
  }

  lemma ModDiff(x: nat, y: nat)
    ensures (x % WORD - y % WORD) % WORD == (x - y) % WORD
  {
    var a, b := x / WORD, y / WORD;
    assert x - y == x % WORD - y % WORD + WORD * (a - b);
  }

  lemma ModSum(x: nat, y: nat)
    ensures (x % WORD + y % WORD) % WORD == (x + y) % WORD
  {
    var a, b := x / WORD, y / WORD;
    assert x + y == x % WORD + y % WORD + WORD * (a + b);
  }

  lemma DueIsSlice(due: int, gap: nat)
    ensures Sub(due % WORD, gap % WORD) == (due - gap) % WORD
  {
    var a, b := due / WORD, gap / WORD;
    assert due - gap == due % WORD - gap % WORD + WORD * (a - b);
  }

  lemma EnterConserves(c: Time, t: nat, cur: int)
    requires Conserved(c) && Later(c, t) && (cur == NIL || Slot(c, cur))
    ensures Conserved(Enter(c, t, cur))
  {
    hide Sum;
    if cur != NIL {
      SumUpdate(c.led.total, cur, c.led.total[cur] + (t - c.led.now));
      ElapsedIsGap(c.led.now, t, c.led.total[cur]);
      ElapsedIsGap(c.led.now, t, c.led.own[cur]);
      DueIsSlice(c.led.due[cur], t - c.led.now);
    }
  }

  lemma ExitConserves(c: Time, t: nat, flag: bool, cur: int)
    requires Conserved(c) && Later(c, t) && (cur == NIL || Slot(c, cur))
    ensures Conserved(Exit(c, t, flag, cur))
  {
    if cur != NIL {
      SumUpdate(c.led.total, cur, c.led.total[cur] + (t - c.led.now));
      ElapsedIsGap(c.led.now, t, c.led.total[cur]);
    }
  }

  lemma RebirthConserves(c: Time, p: int)
    requires Conserved(c) && Slot(c, p)
    ensures Conserved(Rebirth(c, p))
  {
    hide Sum;
    SumUpdate(c.led.total, p, 0);
  }

  lemma RebirthNow(c: Time, p: int)
    requires Slot(c, p)
    ensures Rebirth(c, p).led.now == c.led.now
    ensures var d := Rebirth(c, p);
      |d.slice| == |c.slice| && |d.glob| == |c.glob| && |d.user| == |c.user|
      && |d.led.total| == |c.led.total| && |d.led.own| == |c.led.own| && |d.led.due| == |c.led.due|
  {
  }

  lemma GrantConserves(c: Time, p: int)
    requires Conserved(c) && Slot(c, p)
    ensures Conserved(Grant(c, p)) && Slot(Grant(c, p), p)
    ensures Grant(c, p).led == c.led.(due := c.led.due[p := SLICE])
  {
  }

  // ----- who pays for an interval -----

  /** On entry the interval has been spent in the own code of the running process: it is added to
      its total and its own time and taken from its slice, in true time and in the 32-bit columns.
      Without a running process it is lost. Nobody else is charged. */
  lemma EnterCharges(c: Time, t: nat, cur: int)
    requires Conserved(c) && Later(c, t) && (cur == NIL || Slot(c, cur))
    ensures var d, gap := Enter(c, t, cur), t - c.led.now;
      && d.led.now == t && d.led.dead == c.led.dead
      && (cur == NIL ==>
            d == c.(left := d.left, last := d.last, timer := d.timer,
                    led := c.led.(now := t, lost := c.led.lost + gap)))
      && (cur != NIL ==>
            d.led.lost == c.led.lost
            && d.led.total == c.led.total[cur := c.led.total[cur] + gap]
            && d.led.own == c.led.own[cur := c.led.own[cur] + gap]
            && d.led.due == c.led.due[cur := c.led.due[cur] - gap]
            && d.glob == c.glob[cur := (c.glob[cur] + gap) % WORD]
            && d.user == c.user[cur := (c.user[cur] + gap) % WORD]
            && d.slice == c.slice[cur := (c.slice[cur] - gap) % WORD])
  {
    hide Sum;
    var gap := t - c.led.now;
    if cur != NIL {
      ElapsedIsGap(c.led.now, t, c.led.total[cur]);
      SumMod(c.glob[cur], gap);
      SumMod(c.user[cur], gap);
      DiffMod(c.slice[cur], gap);
    }
  }

  lemma SumMod(x: int, y: int)
    ensures (x + y % WORD) % WORD == (x + y) % WORD
  {
    var b := y / WORD;
    assert x + y == x + y % WORD + WORD * b;
    ModShift(x + y % WORD, b);
  }

  lemma DiffMod(x: int, y: int)
    ensures (x - y % WORD) % WORD == (x - y) % WORD
  {
    var b := y / WORD;
    assert x - y == x - y % WORD + WORD * (-b);
    ModShift(x - y % WORD, -b);
  }

  lemma ModShift(x: int, b: int)
    ensures (x + WORD * b) % WORD == x % WORD
  {
    var q := x / WORD;
    assert x + WORD * b == x % WORD + WORD * (q + b);
  }

  /** On exit the interval has been spent in the nucleus: it is added to the total time of the
      running process if the flag is set, and lost otherwise. Own time and slices never pay. */
  lemma ExitCharges(c: Time, t: nat, flag: bool, cur: int)
    requires Conserved(c) && Later(c, t) && (cur == NIL || Slot(c, cur))
    ensures var d, gap, pays := Exit(c, t, flag, cur), t - c.led.now, flag && cur != NIL;
      && d.led.now == t && d.led.dead == c.led.dead
      && d.led.own == c.led.own && d.led.due == c.led.due && d.user == c.user && d.slice == c.slice
      && (!pays ==> d.led.lost == c.led.lost + gap && d.led.total == c.led.total && d.glob == c.glob)
      && (pays ==>
            d.led.lost == c.led.lost
            && d.led.total == c.led.total[cur := c.led.total[cur] + gap]
            && d.glob == c.glob[cur := (c.glob[cur] + gap) % WORD])
  {
    hide Sum;
    var gap := t - c.led.now;
    if flag && cur != NIL {
      ElapsedIsGap(c.led.now, t, c.led.total[cur]);
      SumMod(c.glob[cur], gap);
    }
  }

  // ----- the countdown is an absolute deadline -----

  /** What remains until base + TICK, 0 when that moment has passed. */
  function Remaining(c: Time): int {
    if c.led.now - c.led.base < TICK then TICK - (c.led.now - c.led.base) else 0
  }

  ghost predicate OnDeadline(c: Time) {
    c.left == Remaining(c)
  }

  /** The reading t follows the last one closely enough for 32-bit time. */
  predicate Soon(c: Time, t: nat) {
    t - c.led.now < WORD - TICK
  }

  lemma ElapseIsRemaining(c: Time, t: nat)
    requires Conserved(c) && OnDeadline(c) && Later(c, t) && Soon(c, t)
    ensures Elapse(c.left, Sub(t % WORD, c.last)) == Remaining(c.(led := c.led.(now := t)))
  {
    var gap := t - c.led.now;
    ElapsedIsGap(c.led.now, t, 0);
    assert gap % WORD == gap;
    if gap <= c.left {
      assert Sub(c.left, gap) == c.left - gap;
    } else {
      assert Sub(c.left, gap) == c.left - gap + WORD;
    }
  }

  lemma EnterOnDeadline(c: Time, t: nat, cur: int)
    requires Conserved(c) && OnDeadline(c) && Later(c, t) && Soon(c, t) && (cur == NIL || Slot(c, cur))
    ensures OnDeadline(Enter(c, t, cur))
  {
    ElapseIsRemaining(c, t);
  }

  lemma ExitOnDeadline(c: Time, t: nat, flag: bool, cur: int)
    requires Conserved(c) && OnDeadline(c) && Later(c, t) && Soon(c, t) && (cur == NIL || Slot(c, cur))
    ensures OnDeadline(Exit(c, t, flag, cur))
  {
    ElapseIsRemaining(c, t);
  }

  /** A timer interrupt ticks if and only if 100000 microseconds have passed since the
      entry of the last handler that ticked. */
  lemma TicksAtDeadline(c: Time, t: nat)
    requires Conserved(c) && OnDeadline(c) && Later(c, t) && Soon(c, t)
    ensures TickDue(c, t) <==> t - c.led.base >= TICK
  {
    var gap := t - c.led.now;
    ElapsedIsGap(c.led.now, t, 0);
    assert gap % WORD == gap;
    if gap <= c.left {
      assert Sub(c.left, gap) == c.left - gap;
    } else {
      assert Sub(c.left, gap) == c.left - gap + WORD;
    }
  }

  /** For gaps of any length: the exact window in which the modular test fires. */
  lemma TicksExactly(c: Time, t: nat)
    requires Conserved(c) && Later(c, t)
    ensures TickDue(c, t) <==> 0 <= (t - c.led.now) % WORD - c.left < WORD - TICK
  {
    var e := (t - c.led.now) % WORD;
    ElapsedIsGap(c.led.now, t, 0);
    if e <= c.left {
      assert Sub(c.left, e) == c.left - e;
    } else {
      assert Sub(c.left, e) == c.left - e + WORD;
    }
  }

  /** Whatever interval the handlers load, it ends no later than the deadline, or at once. */
  lemma TimerMeetsDeadline(c: Time, t: nat, flag: bool, cur: int)
    requires Conserved(c) && OnDeadline(c) && Later(c, t) && Soon(c, t) && (cur == NIL || Slot(c, cur))
    ensures var d := Enter(c, t, cur); d.led.now + d.timer <= c.led.base + TICK || d.timer <= 0
    ensures var d := Exit(c, t, flag, cur); d.led.now + d.timer <= c.led.base + TICK || d.timer <= 0
  {
    ElapseIsRemaining(c, t);
  }

  // ----- time slices -----

  /** The 32-bit slice exceeds a full one exactly when what is left of it does so modulo 2^32:
      unless it is overdrawn by 2^32 - 5000 or more, that is when it is overdrawn. */
  lemma OverdrawnIff(c: Time, p: int)
    requires Conserved(c) && Slot(c, p)
    ensures c.slice[p] > SLICE <==> c.led.due[p] % WORD > SLICE
    ensures c.led.due[p] > SLICE - WORD ==> (c.slice[p] > SLICE <==> c.led.due[p] < 0)
  {
    var due := c.led.due[p];
    if due < 0 {
      assert due > SLICE - WORD ==> due % WORD == due + WORD;
    } else {
      assert due % WORD == due;
    }
  }

  /** The interval loaded for a running process ends no later than its slice. */
  lemma TimerMeetsSlice(c: Time, t: nat, flag: bool, cur: int)
    requires Conserved(c) && Later(c, t) && Slot(c, cur)
    ensures var d := Enter(c, t, cur); d.led.due[cur] >= 0 ==> d.timer <= d.led.due[cur]
    ensures var d := Exit(c, t, flag, cur); d.led.due[cur] >= 0 ==> d.timer <= d.led.due[cur]
  {
    hide Conserved;
    EnterConserves(c, t, cur);
    ExitConserves(c, t, flag, cur);
    if Enter(c, t, cur).led.due[cur] >= 0 {
      SliceIsDue(Enter(c, t, cur), cur);
    }
    if Exit(c, t, flag, cur).led.due[cur] >= 0 {
      SliceIsDue(Exit(c, t, flag, cur), cur);
    }
  }

  lemma SliceIsDue(c: Time, p: int)
    requires Conserved(c) && Slot(c, p) && c.led.due[p] >= 0
    ensures c.slice[p] == c.led.due[p]
  {
  }
}
