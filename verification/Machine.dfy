/** The memory of the nucleus: the static tables proc_blk and semdTable, the list heads and
    the global variables of src/pcb.c, src/asl.c and incl/init.h. */
module Machine {
  import opened Lists
  import opened Forest
  import opened Nucleus
  import opened Shelves
  import opened Invariant
  import opened Clist
  import opened Threads
  import C = Clock

  /** Everything the memory holds, as a value: the link cells, the columns and heads that are
      not part of the abstract state s, and the ghost list of active descriptors. */
  datatype Image = Image(
    s: Sys, pn: seq<int>, ps: seq<int>, sn: seq<int>,
    children: seq<int>, semAdd: seq<int>, procq: seq<int>,
    pcbFree: int, readyQ: int, aslh: int, semdFree: int, abs: int, act: seq<int>)

  ghost function Qs(s: Sys): Queues { Queues(s.free, s.ready, s.wait) }

  ghost function Ts(i: Image): Tails { Tails(i.pcbFree, i.readyQ, i.procq, i.s.shelf.desc) }

  /** p_cursem points to the descriptor of the semaphore on which a process is blocked, and to
      some descriptor if it is not null. */
  ghost predicate Pointed(loc: seq<Loc>, cursem: seq<int>, desc: map<int, int>) {
    && |cursem| == |loc|
    && (forall p :: 0 <= p < |loc| ==> NIL <= cursem[p] < |loc|)
    && (forall p :: 0 <= p < |loc| && loc[p].Waiting? ==> loc[p].sem in desc && cursem[p] == desc[loc[p].sem])
  }

  ghost predicate Lengths(i: Image) {
    && |i.pn| == |i.ps| == |i.sn| == |i.s.loc|
    && |i.children| == |i.procq| == |i.semAdd| == |i.s.loc|
    && Sized(i.s)
  }

  ghost predicate Occupied(desc: map<int, int>, wait: map<int, seq<int>>) {
    desc.Keys == wait.Keys && forall a :: a in wait ==> wait[a] != []
  }

  /** The queue of a descriptor that serves no semaphore is empty. */
  ghost predicate Vacant(act: seq<int>, procq: seq<int>) {
    forall d :: 0 <= d < |procq| && d !in act ==> procq[d] == NIL
  }

  /** The memory represents the abstract state. */
  ghost predicate Rep(i: Image) {
    && Lengths(i)
    && Threaded(i.pn, i.s.loc, Qs(i.s), Ts(i))
    && Table(i.sn, i.aslh, i.semdFree, i.act, i.s.shelf.idle, i.semAdd, i.s.shelf.desc)
    && Occupied(i.s.shelf.desc, i.s.wait)
    && Vacant(i.act, i.procq)
    && Kids(i.ps, i.children, i.s.fam)
    && Housed(i.s.loc, i.s.fam)
    && Pointed(i.s.loc, i.s.cursem, i.s.shelf.desc)
    && i.abs == i.s.fam.born % C.WORD
  }

  /** Fields that the tables do not reflect may change freely. */
  lemma RepSame(i: Image, s: Sys)
    requires Rep(i) && Sized(s) && |s.loc| == |i.s.loc|
    requires s.loc == i.s.loc && s.free == i.s.free && s.ready == i.s.ready && s.wait == i.s.wait
    requires s.cursem == i.s.cursem && s.shelf == i.s.shelf && s.fam == i.s.fam
    ensures Rep(i.(s := s))
  {
    hide Threaded, Table, Kids, Housed, Pointed, Occupied;
    assert Qs(s) == Qs(i.s) && Ts(i.(s := s)) == Ts(i);
  }

  /** Static storage at power on with the globals as main sets them: nothing is on any list.
      By convention descriptor 0, which the first process will get, has creation number 1. */
  ghost function Blank(cfg: Config, n: nat, sem: map<int, int>): Image {
    var nils, zeros := seq(n, i => NIL), seq(n, i => 0);
    Image(
      Sys(cfg, Running, seq(n, i => Off), [], [], map[], nils, Shelf(map[], []),
          Family(nils, seq(n, i => []), seq(n, i => if i == 0 then 1 else 0), 1),
          zeros, zeros, zeros, NIL, 1, 0, 0, sem, 0,
          C.Time(0, C.TICK, 0, zeros, zeros, zeros,
                 C.Ledger(0, 0, 0, seq(n, i => 0), seq(n, i => 0), zeros, 0, 0)),
          [], []),
      nils, nils, nils, nils, zeros, nils, NIL, NIL, NIL, NIL, 1, [])
  }

  /** A process or semaphore descriptor is an index into its table. The link cells p_list,
      p_siblings and s_link are arrays that the list operations rewrite in place; the other
      fields of the structures are columns. Ghost fields hold the abstract state. */
  class Kernel {
    const cfg: Config
    const pNext: array<int>
    const pSib: array<int>
    const sNext: array<int>

    // struct pcb_t: p_parent, p_cursem, res_requested, p_pid, p_s.a1, p_children and times
    var parent: seq<int>
    var cursem: seq<int>
    var req: seq<int>
    var pid: seq<int>
    var a1: seq<int>
    var children: seq<int>
    var slice: seq<int>
    var glob: seq<int>
    var user: seq<int>

    // struct semd_t: s_semAdd, s_procq
    var semAdd: seq<int>
    var procq: seq<int>

    // pcbFree, g_ready_queue, aslh, semdFree
    var pcbFree: int
    var readyQ: int
    var aslh: int
    var semdFree: int

    // g_current_process, g_process_count, g_soft_block_count, g_pseudoClockBlk,
    // abs_process_count, m_sysbold->a1, the semaphores in memory
    var cur: int
    var count: int
    var soft: int
    var ticks: int
    var abs: int
    var ret: int
    var sem: map<int, int>
    var mode: Mode

    // g_lastUpdate, g_leftTo100, the interval timer
    var last: int
    var left: int
    var timer: int

    ghost var loc: seq<Loc>
    ghost var free: seq<int>
    ghost var ready: seq<int>
    ghost var wait: map<int, seq<int>>
    ghost var kids: seq<seq<int>>
    ghost var birth: seq<nat>
    ghost var born: nat
    ghost var led: C.Ledger
    ghost var log: seq<SemEvent>
    ghost var issued: seq<int>
    ghost var act: seq<int>
    ghost var idle: seq<int>
    ghost var desc: map<int, int>

    constructor (cfg: Config, n: nat, sem: map<int, int>)
      ensures Apart() && fresh(pNext) && fresh(pSib) && fresh(sNext)
      ensures Img() == Blank(cfg, n, sem)
    {
      this.cfg := cfg;
      pNext, pSib, sNext := new int[n](i => NIL), new int[n](i => NIL), new int[n](i => NIL);
      parent, cursem, children := seq(n, i => NIL), seq(n, i => NIL), seq(n, i => NIL);
      req, pid, a1 := seq(n, i => 0), seq(n, i => 0), seq(n, i => 0);
      slice, glob, user := seq(n, i => 0), seq(n, i => 0), seq(n, i => 0);
      semAdd, procq := seq(n, i => 0), seq(n, i => NIL);
      pcbFree, readyQ, aslh, semdFree := NIL, NIL, NIL, NIL;
      cur, count, soft, ticks, abs, ret := NIL, 1, 0, 0, 1, 0;
      this.sem, mode := sem, Running;
      last, left, timer := 0, C.TICK, 0;
      loc, free, ready, wait := seq(n, i => Off), [], [], map[];
      kids := seq(n, i => []);
      birth, born := seq(n, i => if i == 0 then 1 else 0), 1;
      led := C.Ledger(0, 0, 0, seq(n, i => 0), seq(n, i => 0), seq(n, i => 0), 0, 0);
      log, issued := [], [];
      act, idle, desc := [], [], map[];
    }

    ghost function Fam(): Family
      reads this
    {
      Family(parent, kids, birth, born)
    }

    ghost function Clk(): C.Time
      reads this
    {
      C.Time(last, left, timer, slice, glob, user, led)
    }

    /** The abstract state. */
    ghost function Abs(): Sys
      reads this
    {
      Sys(cfg, mode, loc, free, ready, wait, cursem, Shelf(desc, idle), Fam(), req, pid, a1,
          cur, count, soft, ticks, sem, ret, Clk(), log, issued)
    }

    ghost function Img(): Image
      reads this, pNext, pSib, sNext
    {
      Image(Abs(), pNext[..], pSib[..], sNext[..], children, semAdd, procq,
            pcbFree, readyQ, aslh, semdFree, abs, act)
    }

    /** The three arrays of links are distinct. */
    ghost predicate Apart()
      reads this
    {
      pNext != pSib && pNext != sNext && pSib != sNext
    }

    ghost predicate Valid()
      reads this, pNext, pSib, sNext
    {
      Apart() && Rep(Img())
    }
  }

  // ----- memory without the ghost state -----

  /** The two images agree on all that the machine holds; they may differ in ghost state. */
  ghost predicate SameMemory(i: Image, j: Image) {
    && i.pn == j.pn && i.ps == j.ps && i.sn == j.sn
    && i.children == j.children && i.semAdd == j.semAdd && i.procq == j.procq
    && i.pcbFree == j.pcbFree && i.readyQ == j.readyQ && i.aslh == j.aslh && i.semdFree == j.semdFree && i.abs == j.abs
    && i.s.cfg == j.s.cfg && i.s.mode == j.s.mode && i.s.cursem == j.s.cursem && i.s.fam.parent == j.s.fam.parent
    && i.s.req == j.s.req && i.s.pid == j.s.pid && i.s.a1 == j.s.a1
    && i.s.cur == j.s.cur && i.s.count == j.s.count && i.s.soft == j.s.soft && i.s.ticks == j.s.ticks
    && i.s.sem == j.s.sem && i.s.ret == j.s.ret
    && i.s.clk.(led := j.s.clk.led) == j.s.clk
  }

  /** The memory represents some state. */
  ghost predicate Meaningful(i: Image) {
    exists j: Image :: SameMemory(i, j) && Rep(j)
  }
}
