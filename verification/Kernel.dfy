/** The kernel's entry points as transitions of its state. */
module Kernel {
  import opened Words
  import opened Pages
  import opened Paging
  import opened MapRanges
  import opened AddressSpaces
  import opened Forking
  import opened KernelState

  const INT_PAGEFAULT := 14
  const INT_TIMER := 32
  const INT_SYS_PANIC := 48
  const INT_SYS_GETPID := 49
  const INT_SYS_YIELD := 50
  const INT_SYS_PAGE_ALLOC := 51
  const INT_SYS_FORK := 52

  /** -1 as it is stored in a 64-bit register. */
  const FAILED: Word64 := 0xFFFF_FFFF_FFFF_FFFF

  /** PFERR_USER: the fault happened in user code. */
  predicate UserFault(err: nat) {
    err / 4 % 2 == 1
  }

  function Panicking(s: State): State {
    s.(status := Panicked)
  }

  function SetRax(s: State, pid: nat, rax: Word64): State
    requires pid < NPROC
  {
    s.(procs := s.procs[pid := s.procs[pid].(regs := s.procs[pid].regs.(rax := rax))])
  }

  // ---- run and schedule ----

  /** run: make a process current under its own table, or fail an assertion. */
  function Run(s: State, pid: nat): State
    requires pid < NPROC
  {
    var s1 := s.(current := pid);
    if s.procs[pid].state == P_RUNNABLE && SetPagetableOk(s.store.mem, s.layout, s.procs[pid].table)
    then s1.(status := Running) else Panicking(s1)
  }

  /** The first runnable process among the n slots after `pid`, in cyclic order. */
  function NextRunnable(procs: Procs, pid: nat, n: nat): (r: Option<nat>)
    ensures r.Some? ==> r.value < NPROC
    decreases n
  {
    if n == 0 then None
    else if procs[(pid + 1) % NPROC].state == P_RUNNABLE then Some((pid + 1) % NPROC)
    else NextRunnable(procs, (pid + 1) % NPROC, n - 1)
  }

  /** schedule: one full turn of its loop decides; with nothing runnable it turns forever. */
  function Schedule(s: State): State
    requires s.current < NPROC
  {
    match NextRunnable(s.procs, s.procs[s.current].pid, NPROC)
    case None => s.(status := Spinning)
    case Some(pid) => Run(s, pid)
  }

  // ---- System calls ----

  /** INT_SYS_PAGE_ALLOC for the current process, at the address in rdi. */
  function PageAlloc(s: State): (s': State)
    requires s.current < NPROC
    ensures s'.current == s.current
  {
    var p := s.procs[s.current];
    var g := GetFree(s.store.info, p.pid);
    var st := Store(s.store.mem, g.info);
    if g.pn == 0 then SetRax(s.(store := st), s.current, FAILED)
    else if p.regs.rdi % PAGE_SIZE != 0 then Panicking(s.(store := st))
    else
      var r := Map(st, p.table, p.regs.rdi / PAGE_SIZE, g.pn, 1, PWU, Some(p.pid));
      match r.outcome
      case Panic => Panicking(s.(store := r.st))
      case Failed => SetRax(s.(store := r.st), s.current, FAILED)
      case Done => SetRax(s.(store := r.st), s.current, 0)
  }

  /** The lowest free process slot from pid on, or NPROC. */
  function FreeSlot(procs: Procs, pid: nat): (r: nat)
    requires pid <= NPROC
    ensures pid <= r <= NPROC
    ensures r < NPROC ==> procs[r].state == P_FREE
    ensures forall i | pid <= i < r :: procs[i].state != P_FREE
    decreases NPROC - pid
  {
    if pid == NPROC || procs[pid].state == P_FREE then pid else FreeSlot(procs, pid + 1)
  }

  /** fork for the current process. */
  function Fork(s: State): (s': State)
    requires s.current < NPROC
    ensures s'.current == s.current
  {
    var parent := s.procs[s.current];
    var i := FreeSlot(s.procs, 1);
    if i == NPROC then SetRax(s, s.current, FAILED) else
    var c := CopyTable(s.store, parent.table, i);
    var s1 := s.(store := c.st, procs := s.procs[i := Proc(i, parent.regs, P_RUNNABLE, c.root)]);
    if c.panicked then Panicking(s1)
    else if c.root == 0 then SetRax(s1, s.current, FAILED)
    else
      var r := ForkLoop(c.st, parent.table, c.root, PROC_START, i);
      var s2 := s1.(store := r.st);
      match r.outcome
      case Panic => Panicking(s2)
      case Failed => SetRax(s2, s.current, FAILED)
      case Done => SetRax(SetRax(s2, s.current, i), i, 0)
  }

  // ---- exception ----

  /** Return to the current process if it can still run, else pick another. */
  function Resume(s: State): State
    requires s.current < NPROC
  {
    if s.status.Panicked? then s
    else if s.procs[s.current].state == P_RUNNABLE then Run(s, s.current)
    else Schedule(s)
  }

  /** The switch of exception. */
  function Dispatch(s: State, regs: Registers): State
    requires s.current < NPROC
  {
    if regs.intno == INT_SYS_GETPID then Resume(SetRax(s, s.current, s.procs[s.current].pid % 0x1_0000_0000_0000_0000))
    else if regs.intno == INT_SYS_YIELD then Schedule(s)
    else if regs.intno == INT_SYS_PAGE_ALLOC then Resume(PageAlloc(s))
    else if regs.intno == INT_SYS_FORK then Resume(Fork(s))
    else if regs.intno == INT_TIMER then Schedule(s.(ticks := (s.ticks + 1) % 0x1_0000_0000))
    else if regs.intno == INT_PAGEFAULT && UserFault(regs.err)
    then Resume(s.(procs := s.procs[s.current := s.procs[s.current].(state := P_BROKEN)]))
    else Panicking(s)
  }

  /** exception: save the registers, switch to the kernel's table, check, dispatch. */
  function Exception(s: State, regs: Registers): State
    requires s.current < NPROC
  {
    var s1 := s.(procs := s.procs[s.current := s.procs[s.current].(regs := regs)]);
    if !SetPagetableOk(s.store.mem, s.layout, s.layout.kpt) then Panicking(s1)
    else if (regs.intno != INT_PAGEFAULT || UserFault(regs.err)) && !CheckVirtualMemory(s1) then Panicking(s1)
    else Dispatch(s1, regs)
  }

  // ---- User code ----

  /** May user code store to page v of its address space? Present, writable and user at every level. */
  predicate UserWritable(m: Mapping) {
    m.Mapped? && m.perm.p && m.perm.w && m.perm.u
  }

  /** The current process stores a word at an address; where it may not, nothing is stored (the
      fault arrives as a trap). */
  function UserStore(s: State, va: nat, w: Word): State
    requires s.current < NPROC
  {
    var m := Lookup(s.store.mem, s.procs[s.current].table, Canon(va / PAGE_SIZE));
    if UserWritable(m) && m.pn < NPAGES
    then s.(store := Store(SetEntry(s.store.mem, m.pn, va % PAGE_SIZE / 8, w), s.store.info))
    else s
  }

  /** What can happen to a running machine: the current process stores a word, or traps. */
  datatype Event = Write(va: nat, w: Word) | Trap(regs: Registers)

  /** A trap with a given interrupt number. */
  predicate IsTrap(ev: Event, intno: nat) {
    ev.Trap? && ev.regs.intno == intno
  }

  function Step(s: State, ev: Event): State {
    if !s.status.Running? || s.current >= NPROC then s else
    match ev
    case Write(va, w) => UserStore(s, va, w)
    case Trap(regs) => Exception(s, regs)
  }

  /** A run: the state after a sequence of events. */
  function After(s: State, evs: seq<Event>): State
    decreases |evs|
  {
    if evs == [] then s else Step(After(s, evs[..|evs| - 1]), evs[|evs| - 1])
  }
}
