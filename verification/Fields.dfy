/** Assignments to single fields and variables on which no list depends. */
module Fields {
  import opened Lists
  import opened Nucleus
  import opened Machine
  import C = Clock

  ghost method Record(k: Kernel, es: seq<SemEvent>)
    requires Sized(k.Abs())
    modifies k
    ensures k.Img() == old(k.Img()).(s := old(k.Abs()).(log := old(k.log) + es))
    ensures old(k.Valid()) ==> k.Valid()
  {
    hide Rep;
    ghost var i := k.Img();
    k.log := k.log + es;
    if Rep(i) {
      RepSame(i, i.s.(log := i.s.log + es));
    }
  }

  /** The field res_requested */
  method SetRequest(k: Kernel, p: int, r: int)
    requires k.Valid() && Sized(k.Abs()) && Proc(k.Abs(), p)
    modifies k
    ensures k.Valid() && k.Abs() == old(k.Abs()).(req := old(k.req)[p := r])
    ensures k.semAdd == old(k.semAdd)
  {
    hide Rep;
    ghost var i := k.Img();
    k.req := k.req[p := r];
    assert k.Img() == i.(s := i.s.(req := i.s.req[p := r]));
    RepSame(i, i.s.(req := i.s.req[p := r]));
  }

  method SetSoft(k: Kernel, n: int)
    requires Sized(k.Abs())
    modifies k
    ensures k.Img() == old(k.Img()).(s := old(k.Abs()).(soft := n))
    ensures old(k.Valid()) ==> k.Valid()
  {
    hide Rep;
    ghost var i := k.Img();
    k.soft := n;
    if Rep(i) {
      RepSame(i, i.s.(soft := n));
    }
  }

  method SetValue(k: Kernel, a: int, v: int)
    requires k.Valid() && Sized(k.Abs())
    modifies k
    ensures k.Valid() && k.Abs() == old(k.Abs()).(sem := old(k.sem)[a := v])
  {
    hide Rep;
    ghost var i := k.Img();
    k.sem := k.sem[a := v];
    assert k.Img() == i.(s := i.s.(sem := i.s.sem[a := v]));
    RepSame(i, i.s.(sem := i.s.sem[a := v]));
  }

  /** What the machine does next: LDST, WAIT, HALT or PANIC. */
  method SetMode(k: Kernel, m: Mode)
    requires k.Valid() && Sized(k.Abs())
    modifies k
    ensures k.Valid() && k.Abs() == old(k.Abs()).(mode := m)
  {
    hide Rep;
    ghost var i := k.Img();
    k.mode := m;
    assert k.Img() == i.(s := i.s.(mode := m));
    RepSame(i, i.s.(mode := m));
  }

  method SetCurrent(k: Kernel, p: int)
    requires k.Valid() && Sized(k.Abs()) && NIL <= p < |k.loc|
    modifies k
    ensures k.Valid() && k.Abs() == old(k.Abs()).(cur := p)
  {
    hide Rep;
    ghost var i := k.Img();
    k.cur := p;
    assert k.Img() == i.(s := i.s.(cur := p));
    RepSame(i, i.s.(cur := p));
  }

  method SetTicks(k: Kernel, n: int)
    requires k.Valid() && Sized(k.Abs())
    modifies k
    ensures k.Valid() && k.Abs() == old(k.Abs()).(ticks := n)
  {
    hide Rep;
    ghost var i := k.Img();
    k.ticks := n;
    assert k.Img() == i.(s := i.s.(ticks := n));
    RepSame(i, i.s.(ticks := n));
  }

  method SetCount(k: Kernel, n: int)
    requires Sized(k.Abs())
    modifies k
    ensures k.Img() == old(k.Img()).(s := old(k.Abs()).(count := n))
    ensures old(k.Valid()) ==> k.Valid()
  {
    hide Rep;
    ghost var i := k.Img();
    k.count := n;
    if Rep(i) {
      RepSame(i, i.s.(count := n));
    }
  }

  method SetReturn(k: Kernel, r: int)
    requires k.Valid() && Sized(k.Abs())
    modifies k
    ensures k.Valid() && k.Abs() == old(k.Abs()).(ret := r)
  {
    hide Rep;
    ghost var i := k.Img();
    k.ret := r;
    assert k.Img() == i.(s := i.s.(ret := r));
    RepSame(i, i.s.(ret := r));
  }

  method SetPid(k: Kernel, p: int, id: int)
    requires k.Valid() && Sized(k.Abs()) && Proc(k.Abs(), p)
    modifies k
    ensures k.Valid() && k.Abs() == old(k.Abs()).(pid := old(k.pid)[p := id], issued := old(k.issued) + [id])
  {
    hide Rep;
    ghost var i := k.Img();
    k.pid := k.pid[p := id];
    k.issued := k.issued + [id];
    ghost var s' := i.s.(pid := i.s.pid[p := id], issued := i.s.issued + [id]);
    assert k.Img() == i.(s := s');
    RepSame(i, s');
  }

  method SetA1(k: Kernel, p: int, status: int)
    requires k.Valid() && Sized(k.Abs()) && Proc(k.Abs(), p)
    modifies k
    ensures k.Valid() && k.Abs() == old(k.Abs()).(a1 := old(k.a1)[p := status])
  {
    hide Rep;
    ghost var i := k.Img();
    k.a1 := k.a1[p := status];
    ghost var s' := i.s.(a1 := i.s.a1[p := status]);
    assert k.Img() == i.(s := s');
    RepSame(i, s');
  }

  method RestartCountdown(k: Kernel)
    requires k.Valid() && Sized(k.Abs())
    modifies k
    ensures k.Valid() && k.Abs() == old(k.Abs()).(clk := C.Restart(old(k.Clk())))
  {
    hide Rep;
    ghost var i := k.Img();
    k.left := C.TICK;
    k.led := k.led.(base := k.led.now);
    ghost var s' := i.s.(clk := C.Restart(i.s.clk));
    assert k.Img() == i.(s := s');
    RepSame(i, s');
  }

  method SetSlice(k: Kernel, p: int)
    requires k.Valid() && Sized(k.Abs()) && Proc(k.Abs(), p)
    modifies k
    ensures C.Slot(old(k.Clk()), p)
    ensures k.Valid() && k.Abs() == old(k.Abs()).(clk := C.Grant(old(k.Clk()), p))
  {
    hide Rep;
    ghost var i := k.Img();
    k.slice := k.slice[p := C.SLICE];
    k.led := k.led.(due := k.led.due[p := C.SLICE]);
    ghost var s' := i.s.(clk := C.Grant(i.s.clk, p));
    assert k.Img() == i.(s := s');
    RepSame(i, s');
  }
}
