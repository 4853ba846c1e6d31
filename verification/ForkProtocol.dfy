/** The double fork of p-fork.c: return values in all processes it creates, in every interleaving. */
module ForkProtocol {
  import opened Words
  import opened Pages
  import opened Paging
  import opened MapRanges
  import opened Forking
  import opened KernelState
  import opened Kernel
  import opened Invariant
  import opened Steps
  import opened Runs
  import opened ForkTheorem
  import opened Progress
  import opened Views
  import opened Loader
  import opened Boot

  /** How far a process has come, with the results it has stored. Back from a call its answer is in
      rax until the program looks at it: Forked1, Forked2 and GotPid become Have1, Have2 and HavePid. */
  datatype Local =
    | Begin
    | Forked1
    | Have1(p1: int)
    | Forked2(p1: int)
    | Have2(p1: int, p2: int)
    | GotPid(p1: int, p2: int)
    | HavePid(p1: int, p2: int, pid: int)
    | Checked

  /** How the compiled program keeps its variables: they can be read off the view a process has. */
  type Reader = View -> Local

  type Locals = l: seq<Local> | |l| == NPROC witness seq(NPROC, _ => Begin)

  /** pid_t is a 32-bit int. */
  function Result(rax: Word64): int {
    ToInt32(rax)
  }

  /** The assertions of process_main on its own number and the two results. */
  predicate Check(pid: int, p1: int, p2: int) {
    if pid == 1 then p1 != 0 && p2 != 0 && p1 != p2 else p1 == 0 || p2 == 0
  }

  /** Looking at the answer of a call. */
  function Seen(at: Local, rax: Word64): Local {
    match at
    case Forked1 => Have1(Result(rax))
    case Forked2(p1) => Have2(p1, Result(rax))
    case GotPid(p1, p2) => HavePid(p1, p2, Result(rax))
    case _ => at
  }

  /** What a process does once it has looked at its last answer: its program's next call, a store, or
      an interrupt. A failed assertion arrives as INT_SYS_PANIC. Past its check a process may do
      anything but fork or panic, asking for pages of its heap. */
  predicate Acts(s: State, h: HeapRange, at: Local, ev: Event, at': Local) {
    || ((ev.Write? || IsTrap(ev, INT_TIMER)) && at' == at)
    || match at
       case Begin => IsTrap(ev, INT_SYS_FORK) && at' == Forked1
       case Have1(p1) =>
         if p1 < 0 then IsTrap(ev, INT_SYS_PANIC) && at' == at else IsTrap(ev, INT_SYS_FORK) && at' == Forked2(p1)
       case Have2(p1, p2) =>
         if p2 < 0 then IsTrap(ev, INT_SYS_PANIC) && at' == at else IsTrap(ev, INT_SYS_GETPID) && at' == GotPid(p1, p2)
       case HavePid(p1, p2, pid) =>
         if !Check(pid, p1, p2) then IsTrap(ev, INT_SYS_PANIC) && at' == at
         else IsTrap(ev, INT_SYS_GETPID) && at' == Checked
       case Checked =>
         && ev.Trap? && ev.regs.intno !in {INT_SYS_FORK, INT_SYS_PANIC} && at' == at && EventOk(s, ev)
         && (ev.regs.intno == INT_SYS_PAGE_ALLOC ==> InHeap(h, ev.regs.rdi))
       case _ => false
  }

  predicate InHeap(h: HeapRange, addr: nat) {
    addr % PAGE_SIZE == 0 && h.lo <= addr / PAGE_SIZE < h.hi
  }

  /** One event of the running process. Before it looks at an answer, interrupts find it still in rax. */
  predicate Own(s: State, h: HeapRange, at: Local, ev: Event, at': Local)
    requires s.current < NPROC
  {
    var rax := s.procs[s.current].regs.rax;
    || ((ev.Write? || (IsTrap(ev, INT_TIMER) && ev.regs.rax == rax)) && at' == at)
    || Acts(s, h, Seen(at, rax), ev, at')
  }

  /** One event of the machine when every process runs p-fork, with the variables of the process that
      runs before and after it. When a process traps they are in its registers and memory, and those
      of the process that runs next are read from its registers and memory. */
  predicate Moves(s: State, read: Reader, h: HeapRange, at: Local, ev: Event, at': Local)
    requires s.current < NPROC && ValidRange(h)
  {
    match ev
    case Write(_, _) => Own(s, h, at, ev, at')
    case Trap(regs) =>
      var s' := Step(s, ev);
      && Own(s, h, at, ev, read(ViewOf(Saved(s, regs), s.current, h)))
      && s'.current < NPROC && at' == read(ViewOf(s', s'.current, h))
  }

  /** Every fork of the event succeeds. */
  predicate ForkGranted(s: State, ev: Event)
    requires s.current < NPROC
  {
    IsTrap(ev, INT_SYS_FORK) ==> ForkSucceeded(Saved(s, ev.regs))
  }

  /** The variables of all processes: of the one that runs, and of the others as their registers and
      memory have them. */
  function LocalsOf(s: State, read: Reader, h: HeapRange, at: Local): Locals
    requires ValidRange(h)
  {
    seq(NPROC, q requires 0 <= q < NPROC => LocalOf(s, read, h, at, q))
  }

  function LocalOf(s: State, read: Reader, h: HeapRange, at: Local, q: nat): Local
    requires ValidRange(h) && q < NPROC
  {
    if s.procs[q].state == P_FREE then Begin else if q == s.current then at else read(ViewOf(s, q, h))
  }

  /** The number a successful fork returned to process 1: a slot that is in use. */
  predicate ChildOf(s: State, p: int) {
    2 <= p < NPROC && s.procs[p].state != P_FREE
  }

  /** What a process may find in rax and in what it has stored. */
  predicate LocalOk(s: State, q: nat, at: Local)
    requires q < NPROC
  {
    var rax := s.procs[q].regs.rax;
    match at
    case Begin => q == 1
    case Forked1 => if q == 1 then ChildOf(s, rax) else rax == 0
    case Have1(p1) => if q == 1 then ChildOf(s, p1) else p1 == 0
    case Forked2(p1) => TwoOk(s, q, p1, rax)
    case Have2(p1, p2) => TwoOk(s, q, p1, p2)
    case GotPid(p1, p2) => rax == q && Check(q, p1, p2)
    case HavePid(p1, p2, pid) => pid == q && Check(q, p1, p2)
    case Checked => true
  }

  /** Process 1 has two different children; in the others one of the results is 0. */
  predicate TwoOk(s: State, q: nat, p1: int, p2: int) {
    if q == 1 then ChildOf(s, p1) && ChildOf(s, p2) && p1 != p2 else 0 <= p2 < NPROC && (p1 == 0 || p2 == 0)
  }

  /** Forks a process and its descendants have yet to do, plus one: four over all, at all times. */
  function Share(at: Local): nat {
    match at
    case Begin => 4
    case Forked1 => 2
    case Have1(_) => 2
    case _ => 1
  }

  /** Shares of the processes in slots from q on. */
  function Shares(procs: Procs, l: Locals, q: nat): nat
    requires q <= NPROC
    decreases NPROC - q
  {
    if q == NPROC then 0
    else (if procs[q].state == P_FREE then 0 else Share(l[q])) + Shares(procs, l, q + 1)
  }

  /** Number of processes in slots from q on. */
  function Processes(procs: Procs, q: nat): nat
    requires q <= NPROC
    decreases NPROC - q
  {
    if q == NPROC then 0 else (if procs[q].state == P_FREE then 0 else 1) + Processes(procs, q + 1)
  }

  ghost predicate ProtocolOk(s: State, tag: Tags, l: Locals) {
    && Inv(s, tag) && !s.status.Panicked? && s.procs[1].state != P_FREE && AllHaveTables(s.procs)
    && (forall q | 0 <= q < NPROC && s.procs[q].state != P_FREE :: LocalOk(s, q, l[q]))
    && Shares(s.procs, l, 0) == 4
  }

  // ---- Traps ----

  lemma TrapProcs(s: State, regs: Registers)
    requires s.current < NPROC && !Exception(s, regs).status.Panicked? && s.procs[s.current].state == P_RUNNABLE
    ensures var s1, s' := Saved(s, regs), Exception(s, regs);
      && (regs.intno == INT_SYS_FORK ==> s'.procs == Fork(s1).procs)
      && (regs.intno == INT_SYS_GETPID ==>
        s'.procs == SetRax(s1, s.current, s.procs[s.current].pid % 0x1_0000_0000_0000_0000).procs)
      && (regs.intno == INT_TIMER ==> s'.procs == s1.procs)
  {
    hide PageAlloc, Fork, CheckVirtualMemory, SetPagetableOk, Resume, Schedule;
    var s1 := Saved(s, regs);
    ResumeView(Fork(s1));
    ResumeView(SetRax(s1, s.current, s.procs[s.current].pid % 0x1_0000_0000_0000_0000));
    ResumeView(s1.(ticks := (s1.ticks + 1) % 0x1_0000_0000));
  }

  /** No trap but fork touches another process's descriptor, or frees one. */
  lemma TrapOthers(s: State, regs: Registers)
    requires s.current < NPROC && s.procs[s.current].state == P_RUNNABLE && regs.intno != INT_SYS_FORK
    ensures var s' := Exception(s, regs);
      && (forall q | 0 <= q < NPROC && q != s.current :: s'.procs[q] == s.procs[q])
      && s'.procs[s.current].state != P_FREE && s'.procs[s.current].table == s.procs[s.current].table
  {
    hide PageAlloc, Fork, CheckVirtualMemory, SetPagetableOk, Resume, Schedule;
    var s1 := Saved(s, regs);
    ResumeView(s1);
    ResumeView(SetRax(s1, s.current, s.procs[s.current].pid % 0x1_0000_0000_0000_0000));
    ResumeView(s1.(ticks := (s1.ticks + 1) % 0x1_0000_0000));
    ResumeView(s1.(procs := s1.procs[s1.current := s1.procs[s1.current].(state := P_BROKEN)]));
    ResumeView(PageAlloc(s1));
    AllocOthers(s1);
  }

  lemma AllocOthers(s: State)
    requires s.current < NPROC
    ensures forall q | 0 <= q < NPROC && q != s.current :: PageAlloc(s).procs[q] == s.procs[q]
    ensures PageAlloc(s).procs[s.current].state == s.procs[s.current].state
    ensures PageAlloc(s).procs[s.current].table == s.procs[s.current].table
  {
    hide Map, GetFree;
  }

  // ---- Shares ----

  lemma {:induction false} SharesSame(procs: Procs, procs': Procs, l: Locals, l': Locals, q: nat)
    requires q <= NPROC
    requires forall j | q <= j < NPROC :: procs'[j].state == P_FREE <==> procs[j].state == P_FREE
    requires forall j | q <= j < NPROC && procs[j].state != P_FREE :: Share(l'[j]) == Share(l[j])
    ensures Shares(procs', l', q) == Shares(procs, l, q)
    decreases NPROC - q
  {
    if q < NPROC {
      SharesSame(procs, procs', l, l', q + 1);
    }
  }

  /** One slot's share changes by d, whether or not it was in use before. */
  lemma {:induction false} SharesChange(procs: Procs, procs': Procs, l: Locals, l': Locals, i: nat, q: nat)
    requires q <= i < NPROC && procs'[i].state != P_FREE
    requires forall j | 0 <= j < NPROC && j != i ::
      (procs'[j].state == P_FREE <==> procs[j].state == P_FREE) && l'[j] == l[j]
    ensures Shares(procs', l', q) + (if procs[i].state == P_FREE then 0 else Share(l[i])) ==
        Shares(procs, l, q) + Share(l'[i])
    decreases NPROC - q
  {
    hide Share;
    if q < i {
      assert l'[q] == l[q];
      SharesChange(procs, procs', l, l', i, q + 1);
    } else {
      SharesSame(procs, procs', l, l', q + 1);
    }
  }

  /** When every process is past its second fork there are as many processes as shares. */
  lemma {:induction false} SharesCount(procs: Procs, l: Locals, q: nat)
    requires q <= NPROC
    requires forall j | q <= j < NPROC && procs[j].state != P_FREE :: Share(l[j]) == 1
    ensures Processes(procs, q) == Shares(procs, l, q)
    decreases NPROC - q
  {
    if q < NPROC {
      SharesCount(procs, l, q + 1);
    }
  }

  // ---- One event ----

  lemma ProtocolParts(s: State, tag: Tags, l: Locals)
    requires ProtocolOk(s, tag, l) && s.status.Running?
    ensures Inv(s, tag) && 1 <= s.current < NPROC && s.procs[s.current].state == P_RUNNABLE
    ensures s.procs[s.current].pid == s.current && LocalOk(s, s.current, l[s.current])
  {
    hide LocalOk, Shares;
    CurrentIsProcess(s, tag);
  }

  lemma SmallResult(rax: Word64)
    requires rax < NPROC
    ensures Result(rax) == rax
  {
  }

  /** Looking at an answer leaves what the process may know as it was. */
  lemma SeenOk(s: State, q: nat, at: Local)
    requires q < NPROC && LocalOk(s, q, at)
    ensures LocalOk(s, q, Seen(at, s.procs[q].regs.rax)) && Share(Seen(at, s.procs[q].regs.rax)) == Share(at)
  {
    var rax := s.procs[q].regs.rax;
    if rax < NPROC {
      SmallResult(rax);
    }
    hide Result;
  }

  /** The running process's own assertions hold. */
  lemma NoPanic(s: State, h: HeapRange, at: Local, ev: Event, at1: Local)
    requires ValidRange(h) && s.current < NPROC && LocalOk(s, s.current, at) && Own(s, h, at, ev, at1)
    ensures !IsTrap(ev, INT_SYS_PANIC) && EventOk(s, ev)
  {
    SeenOk(s, s.current, at);
    hide Seen, RequestOk;
  }

  /** The variables after an event that leaves the running process with at1: its child, if it has
      forked, has the same. */
  function Spread(s: State, l: Locals, ev: Event, at1: Local): Locals
    requires s.current < NPROC
  {
    if ev.Trap? && ev.regs.intno == INT_SYS_FORK && ForkSucceeded(Saved(s, ev.regs))
    then l[s.current := at1][FreeSlot(Saved(s, ev.regs).procs, 1) := at1]
    else l[s.current := at1]
  }

  /** Where the program forks, and where that leaves it. */
  predicate ForkFrom(at: Local, next: Local) {
    (at.Begin? && next == Forked1) || (at.Have1? && next == Forked2(at.p1))
  }

  /** So from where the running process is, once it has looked at its answer; its share is halved. */
  predicate ForksOn(s: State, at: Local, next: Local)
    requires s.current < NPROC
  {
    var d := Seen(at, s.procs[s.current].regs.rax);
    ForkFrom(d, next) && 2 * Share(next) == Share(d)
  }

  lemma ForkMoves(s: State, tag: Tags, h: HeapRange, l: Locals, ev: Event, at1: Local, tag': Tags)
    requires ProtocolOk(s, tag, l) && s.status.Running? && s.current < NPROC && ValidRange(h)
    requires Own(s, h, l[s.current], ev, at1) && IsTrap(ev, INT_SYS_FORK) && ForkGranted(s, ev)
    requires Inv(Step(s, ev), tag') && !Step(s, ev).status.Panicked?
    ensures ProtocolOk(Step(s, ev), tag', Spread(s, l, ev, at1))
  {
    hide Inv, Exception, Fork, FreeSlot, Own, AllHaveTables, ProtocolOk, ForksOn;
    ProtocolParts(s, tag, l);
    ForkStarts(s, h, l[s.current], ev, at1);
    var i := ForkTrap(s, tag, ev.regs);
    ForkedOk(s, tag, Step(s, ev), tag', l, Spread(s, l, ev, at1), i, at1);
  }

  /** The descriptors after a successful fork into slot i. */
  ghost predicate ForkedInto(s: State, s': State, i: nat)
    requires s.current < NPROC
  {
    && 1 <= i < NPROC && i != s.current && s.procs[i].state == P_FREE
    && s'.procs[i].state != P_FREE && s'.procs[s.current].state != P_FREE
    && s'.procs[s.current].regs.rax == i && s'.procs[i].regs.rax == 0
    && s'.procs[i].table != 0 && s'.procs[s.current].table == s.procs[s.current].table
    && (forall j | 0 <= j < NPROC && j != i && j != s.current :: s'.procs[j] == s.procs[j])
  }

  lemma ForkedOk(s: State, tag: Tags, s': State, tag': Tags, l: Locals, l': Locals, i: nat, at1: Local)
    requires 1 <= s.current < NPROC && s.procs[s.current].state != P_FREE && ForksOn(s, l[s.current], at1)
    requires i < NPROC && l' == l[s.current := at1][i := at1]
    requires ProtocolOk(s, tag, l) && ForkedInto(s, s', i) && Inv(s', tag') && !s'.status.Panicked?
    ensures ProtocolOk(s', tag', l')
  {
    hide Inv, Shares, LocalOk, Seen, AllHaveTables, ForkFrom, Share;
    var d := Seen(l[s.current], s.procs[s.current].regs.rax);
    SeenOk(s, s.current, l[s.current]);
    ForkLocals(s, s', l, l', i, d, at1);
    ForkShares(s, s', l, l', i, at1);
    ForkTables(s, s', i);
  }

  lemma ForkStarts(s: State, h: HeapRange, at: Local, ev: Event, at1: Local)
    requires s.current < NPROC && Own(s, h, at, ev, at1) && IsTrap(ev, INT_SYS_FORK)
    ensures ForksOn(s, at, at1)
  {
    hide Seen;
  }

  lemma ForkTables(s: State, s': State, i: nat)
    requires i < NPROC && s.current < NPROC && AllHaveTables(s.procs) && s'.procs[i].table != 0
    requires s'.procs[s.current].table == s.procs[s.current].table && s.procs[s.current].state != P_FREE
    requires forall j | 0 <= j < NPROC && j != i && j != s.current :: s'.procs[j] == s.procs[j]
    ensures AllHaveTables(s'.procs)
  {
  }

  /** What the fork trap does to the descriptors. */
  lemma ForkTrap(s: State, tag: Tags, regs: Registers)
    returns (i: nat)
    requires Inv(s, tag) && s.status.Running? && s.current < NPROC && s.procs[s.current].state == P_RUNNABLE
    requires regs.intno == INT_SYS_FORK && !Exception(s, regs).status.Panicked? && ForkSucceeded(Saved(s, regs))
    ensures ForkedInto(s, Exception(s, regs), i) && i == FreeSlot(Saved(s, regs).procs, 1)
  {
    hide Inv, Fork, Exception, CheckVirtualMemory, SetPagetableOk, DispatchPanics, AllHaveTables, OthersUndisturbed;
    TrapProcs(s, regs);
    SavedKeeps(s, tag, regs);
    ForkChild(Saved(s, regs), tag);
    i := FreeSlot(Saved(s, regs).procs, 1);
  }

  lemma ForkChild(s: State, tag: Tags)
    requires Inv(s, tag) && s.status.Running? && ForkSucceeded(s)
    ensures var i := FreeSlot(s.procs, 1);
      && 1 <= i < NPROC && i != s.current && SlotFilled(s, Fork(s), i)
      && Fork(s).procs[s.current].regs.rax == i && Fork(s).procs[i].regs.rax == 0
      && Fork(s).procs[s.current].state == s.procs[s.current].state
      && Fork(s).procs[i].table != 0 && Fork(s).procs[s.current].table == s.procs[s.current].table
  {
    CurrentIsProcess(s, tag);
    ForkShape(s);
    hide Inv, Fork;
    ForkCopiesProcess(s, tag);
  }

  lemma ForkLocals(s: State, s': State, l: Locals, l': Locals, i: nat, at: Local, next: Local)
    requires 1 <= s.current < NPROC && 1 <= i < NPROC && i != s.current && s.procs[i].state == P_FREE
    requires s.procs[1].state != P_FREE && s.procs[s.current].state != P_FREE
    requires s'.procs[i].state != P_FREE && s'.procs[s.current].state != P_FREE
    requires forall j | 0 <= j < NPROC && j != i && j != s.current :: s'.procs[j] == s.procs[j]
    requires s'.procs[s.current].regs.rax == i && s'.procs[i].regs.rax == 0
    requires l' == l[s.current := next][i := next] && ForkFrom(at, next) && LocalOk(s, s.current, at)
    requires forall q | 0 <= q < NPROC && s.procs[q].state != P_FREE :: LocalOk(s, q, l[q])
    ensures forall q | 0 <= q < NPROC && s'.procs[q].state != P_FREE :: LocalOk(s', q, l'[q])
    ensures s'.procs[1].state != P_FREE
  {
    forall q | 0 <= q < NPROC && s'.procs[q].state != P_FREE
      ensures LocalOk(s', q, l'[q])
    {
      if q != i && q != s.current {
        OtherLocal(s, s', q, l[q]);
      }
    }
  }

  lemma {:induction false} ForkShares(s: State, s': State, l: Locals, l': Locals, i: nat, next: Local)
    requires s.current < NPROC && i < NPROC && i != s.current && s.procs[i].state == P_FREE
        && s.procs[s.current].state != P_FREE
    requires s'.procs[i].state != P_FREE && s'.procs[s.current].state != P_FREE
    requires forall j | 0 <= j < NPROC && j != i && j != s.current :: s'.procs[j] == s.procs[j]
    requires l' == l[s.current := next][i := next] && 2 * Share(next) == Share(l[s.current])
    ensures Shares(s'.procs, l', 0) == Shares(s.procs, l, 0)
  {
    hide Shares, Share;
    var procs1, l1 := s.procs[i := s'.procs[i]], l[i := next];
    SharesChange(s.procs, procs1, l, l1, i, 0);
    SharesChange(procs1, s'.procs, l1, l', s.current, 0);
  }

  /** Other calls of the program, stores, interrupts, and what processes do after their check. */
  lemma QuietMoves(s: State, tag: Tags, h: HeapRange, l: Locals, ev: Event, at1: Local, tag': Tags)
    requires ProtocolOk(s, tag, l) && s.status.Running? && s.current < NPROC && ValidRange(h)
    requires Own(s, h, l[s.current], ev, at1) && !IsTrap(ev, INT_SYS_FORK)
    requires Inv(Step(s, ev), tag') && !Step(s, ev).status.Panicked?
    ensures ProtocolOk(Step(s, ev), tag', Spread(s, l, ev, at1))
  {
    hide Inv, Exception, Shares, Own, LocalOk, UserStore;
    ProtocolParts(s, tag, l);
    NoPanic(s, h, l[s.current], ev, at1);
    var s' := Step(s, ev);
    if ev.Trap? {
      TrapOthers(s, ev.regs);
      TrapProcs(s, ev.regs);
    } else {
      StoreProcs(s, ev);
    }
    QuietLocals(s, s', h, l, ev, at1);
    SharesSame(s.procs, s'.procs, l, l[s.current := at1], 0);
  }

  lemma StoreProcs(s: State, ev: Event)
    requires ev.Write? && s.current < NPROC
    ensures Step(s, ev).procs == s.procs && Step(s, ev).current == s.current && Step(s, ev).status == s.status
  {
  }

  lemma QuietLocals(s: State, s': State, h: HeapRange, l: Locals, ev: Event, at1: Local)
    requires 1 <= s.current < NPROC && s.procs[s.current].state != P_FREE && ValidRange(h)
    requires forall q | 0 <= q < NPROC && s.procs[q].state != P_FREE :: LocalOk(s, q, l[q])
    requires Own(s, h, l[s.current], ev, at1) && !IsTrap(ev, INT_SYS_FORK) && !IsTrap(ev, INT_SYS_PANIC)
    requires forall q | 0 <= q < NPROC && q != s.current :: s'.procs[q] == s.procs[q]
    requires s'.procs[s.current].state != P_FREE
    requires ev.Write? ==> s'.procs == s.procs
    requires IsTrap(ev, INT_TIMER) ==> s'.procs[s.current].regs.rax == ev.regs.rax
    requires IsTrap(ev, INT_SYS_GETPID) ==> s'.procs[s.current].regs.rax == s.current
    ensures forall q | 0 <= q < NPROC && s'.procs[q].state != P_FREE :: LocalOk(s', q, l[s.current := at1][q])
    ensures forall q | 0 <= q < NPROC && s.procs[q].state != P_FREE :: Share(l[s.current := at1][q]) == Share(l[q])
  {
    hide LocalOk, Share, Seen, Own;
    var at := l[s.current];
    SeenOk(s, s.current, at);
    OwnLocal(s, s', h, at, ev, at1);
    forall q | 0 <= q < NPROC && s'.procs[q].state != P_FREE
      ensures LocalOk(s', q, l[s.current := at1][q])
    {
      if q != s.current {
        OtherLocal(s, s', q, l[q]);
      }
    }
  }

  /** What a process may know stays so while it does not run and no process is freed. */
  lemma OtherLocal(s: State, s': State, q: nat, at: Local)
    requires q < NPROC && LocalOk(s, q, at) && s'.procs[q].regs == s.procs[q].regs
    requires forall j | 0 <= j < NPROC && s.procs[j].state != P_FREE :: s'.procs[j].state != P_FREE
    ensures LocalOk(s', q, at)
  {
  }

  lemma OwnLocal(s: State, s': State, h: HeapRange, at: Local, ev: Event, at1: Local)
    requires 1 <= s.current < NPROC && s.procs[s.current].state != P_FREE && s'.procs[s.current].state != P_FREE
    requires ValidRange(h) && Own(s, h, at, ev, at1) && !IsTrap(ev, INT_SYS_FORK) && !IsTrap(ev, INT_SYS_PANIC)
    requires LocalOk(s, s.current, at) && LocalOk(s, s.current, Seen(at, s.procs[s.current].regs.rax))
    requires Share(Seen(at, s.procs[s.current].regs.rax)) == Share(at)
    requires forall q | 0 <= q < NPROC && q != s.current :: s'.procs[q] == s.procs[q]
    requires ev.Write? ==> s'.procs == s.procs
    requires IsTrap(ev, INT_TIMER) ==> s'.procs[s.current].regs.rax == ev.regs.rax
    requires IsTrap(ev, INT_SYS_GETPID) ==> s'.procs[s.current].regs.rax == s.current
    ensures LocalOk(s', s.current, at1) && Share(at1) == Share(at)
  {
    hide Result, EventOk;
  }

  // ---- The variables are where each process left them ----

  /** What becomes of the running process and of the slot a fork fills. */
  ghost predicate SlotsAfter(s: State, s': State, ev: Event, h: HeapRange)
    requires s.current < NPROC && ValidRange(h)
  {
    && s'.procs[s.current].state != P_FREE
    && (ev.Write? ==> s'.current == s.current && s'.procs == s.procs)
    && (ev.Trap? ==> ViewOf(s', s.current, h) == ViewOf(Saved(s, ev.regs), s.current, h))
    && (!IsTrap(ev, INT_SYS_FORK) ==> forall q | 0 <= q < NPROC && q != s.current :: s'.procs[q] == s.procs[q])
    && (IsTrap(ev, INT_SYS_FORK) ==>
      var i := FreeSlot(Saved(s, ev.regs).procs, 1);
      && ForkSucceeded(Saved(s, ev.regs)) && i < NPROC && i != s.current && s'.procs[i].state != P_FREE
      && ViewOf(s', i, h) == ViewOf(Saved(s, ev.regs), s.current, h)
      && (forall q | 0 <= q < NPROC && q != s.current && q != i :: s'.procs[q] == s.procs[q]))
  }

  /** The variables the running process has after an event: at', or what it had in its registers and
      memory when it trapped. */
  function Left(s: State, read: Reader, h: HeapRange, ev: Event, at': Local): Local
    requires s.current < NPROC && ValidRange(h)
  {
    match ev
    case Write(_, _) => at'
    case Trap(regs) => read(ViewOf(Saved(s, regs), s.current, h))
  }

  lemma LocalAfter(s: State, s': State, read: Reader, h: HeapRange, at: Local, ev: Event, at': Local, q: nat)
    requires s.current < NPROC && ValidRange(h) && q < NPROC && s.procs[s.current].state != P_FREE
    requires SlotsAfter(s, s', ev, h)
    requires ev.Trap? ==> s'.current < NPROC && at' == read(ViewOf(s', s'.current, h))
    requires q != s.current && s.procs[q].state != P_FREE ==>
      ViewOf(s', q, h) == ViewOf(s, q, h) && s'.procs[q] == s.procs[q]
    ensures LocalOf(s', read, h, at', q) == Spread(s, LocalsOf(s, read, h, at), ev, Left(s, read, h, ev, at'))[q]
  {
    assert LocalsOf(s, read, h, at)[q] == LocalOf(s, read, h, at, q);
    SpreadAt(s, LocalsOf(s, read, h, at), ev, Left(s, read, h, ev, at'), q);
    hide ViewOf, ForkSucceeded, FreeSlot, Spread, LocalsOf, Saved;
  }

  lemma SpreadAt(s: State, l: Locals, ev: Event, at1: Local, q: nat)
    requires s.current < NPROC && q < NPROC
    ensures Spread(s, l, ev, at1)[q] ==
      if q == s.current then at1
      else if IsTrap(ev, INT_SYS_FORK) && ForkSucceeded(Saved(s, ev.regs)) && q == FreeSlot(Saved(s, ev.regs).procs, 1)
      then at1
      else l[q]
  {
    hide ForkSucceeded, FreeSlot;
  }

  /** Whatever the running process does, it finds its own state again after a trap, its child finds
      the same, and every other process finds what it left. */
  lemma LocalsSpread(s: State, tag: Tags, tag': Tags, read: Reader, h: HeapRange, at: Local, ev: Event, at': Local)
    requires Inv(s, tag) && s.status.Running? && s.current < NPROC && AllHaveTables(s.procs) && ValidRange(h)
    requires Moves(s, read, h, at, ev, at') && ForkGranted(s, ev) && !Step(s, ev).status.Panicked?
    requires OthersUndisturbed(s, tag, Step(s, ev), tag')
    ensures LocalsOf(Step(s, ev), read, h, at') ==
      Spread(s, LocalsOf(s, read, h, at), ev, Left(s, read, h, ev, at'))
  {
    var s' := Step(s, ev);
    RunsOn(s, tag);
    CoreParts(s, tag);
    TrapSlots(s, tag, h, at, ev, Left(s, read, h, ev, at'));
    hide Inv, Core, Step, Own, OthersUndisturbed, ViewOf, AllHaveTables, SlotsAfter, Spread, Left, ForkGranted,
        LocalOf;
    forall q | 0 <= q < NPROC
      ensures LocalsOf(s', read, h, at')[q] == Spread(s, LocalsOf(s, read, h, at), ev, Left(s, read, h, ev, at'))[q]
    {
      if q != s.current && s.procs[q].state != P_FREE {
        KeptView(s, tag, s', tag', q, h);
      }
      LocalAfter(s, s', read, h, at, ev, at', q);
    }
  }

  lemma KeptView(s: State, tag: Tags, s': State, tag': Tags, q: nat, h: HeapRange)
    requires Core(s, tag) && AllHaveTables(s.procs) && OthersUndisturbed(s, tag, s', tag') && ValidRange(h)
    requires q < NPROC && q != s.current && s.procs[q].state != P_FREE
    ensures ViewOf(s', q, h) == ViewOf(s, q, h) && s'.procs[q] == s.procs[q]
  {
    assert Undisturbed(s, tag, s', tag', q);
    ViewUndisturbed(s, tag, s', tag', q, h);
  }

  lemma TrapSlots(s: State, tag: Tags, h: HeapRange, at: Local, ev: Event, at1: Local)
    requires Inv(s, tag) && s.status.Running? && s.current < NPROC && ValidRange(h)
    requires Own(s, h, at, ev, at1) && ForkGranted(s, ev) && !Step(s, ev).status.Panicked?
    ensures SlotsAfter(s, Step(s, ev), ev, h)
  {
    if ev.Trap? {
      OwnTraps(s, h, at, ev, at1);
      hide Inv, Exception, Own, ViewOf, Fork, FreeSlot, PageAlloc, OthersUndisturbed, CheckVirtualMemory,
          SetPagetableOk, DispatchPanics, AllHaveTables;
      CurrentIsProcess(s, tag);
      RunsOn(s, tag);
      if ev.regs.intno == INT_SYS_FORK {
        var _ := ForkTrap(s, tag, ev.regs);
        ForkTrapView(s, tag, ev.regs, h);
      } else {
        TrapOthers(s, ev.regs);
        OwnTrapView(s, tag, ev.regs, h);
      }
    }
  }

  /** The traps the program can take that do not stop the machine. */
  lemma OwnTraps(s: State, h: HeapRange, at: Local, ev: Event, at1: Local)
    requires s.current < NPROC && ev.Trap? && Own(s, h, at, ev, at1)
    ensures ev.regs.intno == INT_SYS_PAGE_ALLOC ==> InHeap(h, ev.regs.rdi)
  {
    hide Seen, EventOk;
  }

  lemma ForkTrapView(s: State, tag: Tags, regs: Registers, h: HeapRange)
    requires Inv(s, tag) && s.status.Running? && s.current < NPROC && s.procs[s.current].state == P_RUNNABLE
    requires regs.intno == INT_SYS_FORK && !Exception(s, regs).status.Panicked? && ValidRange(h)
    requires ForkSucceeded(Saved(s, regs))
    ensures ViewOf(Exception(s, regs), s.current, h) == ViewOf(Saved(s, regs), s.current, h)
    ensures var i := FreeSlot(Saved(s, regs).procs, 1);
      i < NPROC && ViewOf(Exception(s, regs), i, h) == ViewOf(Saved(s, regs), s.current, h)
  {
    var s1 := Saved(s, regs);
    SavedKeeps(s, tag, regs);
    ViewForked(s1, tag, h);
    ForkTrapShape(s, regs);
    hide Exception, Fork, Inv, UserPages;
  }

  lemma ForkTrapShape(s: State, regs: Registers)
    requires s.current < NPROC && regs.intno == INT_SYS_FORK && !Exception(s, regs).status.Panicked?
    ensures Exception(s, regs).store == Fork(Saved(s, regs)).store
        && Exception(s, regs).procs == Fork(Saved(s, regs)).procs
  {
    hide Fork, CheckVirtualMemory, SetPagetableOk, Resume;
    ResumeView(Fork(Saved(s, regs)));
  }

  lemma OwnTrapView(s: State, tag: Tags, regs: Registers, h: HeapRange)
    requires Inv(s, tag) && s.status.Running? && s.current < NPROC && s.procs[s.current].state == P_RUNNABLE
    requires regs.intno != INT_SYS_FORK && !Exception(s, regs).status.Panicked? && ValidRange(h)
    requires regs.intno == INT_SYS_PAGE_ALLOC ==> InHeap(h, regs.rdi)
    ensures ViewOf(Exception(s, regs), s.current, h) == ViewOf(Saved(s, regs), s.current, h)
  {
    hide Inv, Core, Exception, ViewOf, PageAlloc, OthersUndisturbed, CheckVirtualMemory, SetPagetableOk,
        DispatchPanics, AllHaveTables, Allocated;
    if regs.intno == INT_SYS_PAGE_ALLOC {
      var s1 := Saved(s, regs);
      SavedKeeps(s, tag, regs);
      CoreParts(s1, tag);
      RunsOn(s, tag);
      AllocShape(s, regs);
      var v := regs.rdi / PAGE_SIZE;
      assert v * PAGE_SIZE == regs.rdi;
      var tag1 := PageAllocGives(s1, tag, v);
      ViewAllocated(s1, tag, PageAlloc(s1), tag1, v, h);
    } else if regs.intno in {INT_SYS_GETPID, INT_SYS_YIELD, INT_TIMER} {
      QuietTrapView(s, regs, h);
    } else {
      FaultShape(s, regs);
      ViewOfSameStore(Saved(s, regs), Exception(s, regs), s.current, h);
    }
  }

  /** A user page fault marks the process and changes nothing else of it. */
  lemma FaultShape(s: State, regs: Registers)
    requires s.current < NPROC && !Exception(s, regs).status.Panicked?
    requires regs.intno !in {INT_SYS_FORK, INT_SYS_PAGE_ALLOC, INT_SYS_GETPID, INT_SYS_YIELD, INT_TIMER}
    ensures Exception(s, regs).store == s.store
    ensures Exception(s, regs).procs[s.current] == Saved(s, regs).procs[s.current].(state := P_BROKEN)
  {
    hide CheckVirtualMemory, SetPagetableOk, Resume;
    var s1 := Saved(s, regs);
    ResumeView(s1.(procs := s1.procs[s1.current := s1.procs[s1.current].(state := P_BROKEN)]));
  }

  lemma MoveKeeps(s: State, tag: Tags, read: Reader, h: HeapRange, at: Local, ev: Event, at': Local)
    returns (tag': Tags)
    requires ValidRange(h) && ProtocolOk(s, tag, LocalsOf(s, read, h, at)) && s.status.Running? && s.current < NPROC
    requires Moves(s, read, h, at, ev, at') && ForkGranted(s, ev) && !Step(s, ev).status.Panicked?
    ensures ProtocolOk(Step(s, ev), tag', LocalsOf(Step(s, ev), read, h, at'))
  {
    var l, at1 := LocalsOf(s, read, h, at), Left(s, read, h, ev, at');
    MoveIsOwn(s, read, h, at, ev, at');
    hide Moves, Own, ProtocolOk, Step, ForkGranted, EventOk, LocalsOf, Left, Spread, OthersUndisturbed, LocalOk,
        Inv, AllHaveTables, ViewOf;
    ProtocolParts(s, tag, l);
    NoPanic(s, h, at, ev, at1);
    ProtocolTables(s, tag, l);
    tag' := StepKeeps(s, tag, ev);
    LocalsSpread(s, tag, tag', read, h, at, ev, at');
    if IsTrap(ev, INT_SYS_FORK) {
      ForkMoves(s, tag, h, l, ev, at1, tag');
    } else {
      QuietMoves(s, tag, h, l, ev, at1, tag');
    }
  }

  lemma MoveIsOwn(s: State, read: Reader, h: HeapRange, at: Local, ev: Event, at': Local)
    requires ValidRange(h) && s.current < NPROC && Moves(s, read, h, at, ev, at')
    ensures Own(s, h, at, ev, Left(s, read, h, ev, at'))
    ensures s.procs[s.current].state != P_FREE ==> LocalsOf(s, read, h, at)[s.current] == at
  {
    hide Own, Step, ViewOf;
  }

  lemma ProtocolTables(s: State, tag: Tags, l: Locals)
    requires ProtocolOk(s, tag, l)
    ensures AllHaveTables(s.procs) && !s.status.Panicked?
  {
    hide LocalOk, Shares;
  }

  // ---- Runs ----

  /** A running process makes a move of its program; a fork in it succeeds. */
  predicate MoveAt(t: State, read: Reader, h: HeapRange, at: Local, ev: Event, at': Local)
    requires ValidRange(h)
  {
    t.status.Running? && t.current < NPROC && Moves(t, read, h, at, ev, at') && ForkGranted(t, ev)
  }

  /** A run of the machine in which every process runs p-fork and every fork succeeds, with the
      variables of the running process in each state. */
  ghost predicate Follows(s: State, read: Reader, h: HeapRange, evs: seq<Event>, ats: seq<Local>)
    requires ValidRange(h)
  {
    && |ats| == |evs| + 1
    && forall k | 0 <= k < |evs| :: MoveAt(After(s, evs[..k]), read, h, ats[k], evs[k], ats[k + 1])
  }

  lemma {:induction false} FollowsPrefix(s: State, read: Reader, h: HeapRange, evs: seq<Event>, ats: seq<Local>)
    requires ValidRange(h) && evs != [] && Follows(s, read, h, evs, ats)
    ensures var n := |evs| - 1;
      && Follows(s, read, h, evs[..n], ats[..n + 1])
      && MoveAt(After(s, evs[..n]), read, h, ats[n], evs[n], ats[n + 1])
  {
    hide MoveAt, After;
    var n := |evs| - 1;
    var init, start := evs[..n], ats[..n + 1];
    forall k | 0 <= k < |init|
      ensures MoveAt(After(s, init[..k]), read, h, start[k], init[k], start[k + 1])
    {
      assert init[..k] == evs[..k];
    }
  }

  lemma {:induction false} ProtocolRuns(s: State, tag: Tags, read: Reader, h: HeapRange, evs: seq<Event>,
      ats: seq<Local>)
    returns (tag': Tags)
    requires ValidRange(h) && Follows(s, read, h, evs, ats) && ProtocolOk(s, tag, LocalsOf(s, read, h, ats[0]))
    requires !After(s, evs).status.Panicked?
    ensures ProtocolOk(After(s, evs), tag', LocalsOf(After(s, evs), read, h, ats[|evs|]))
    decreases |evs|
  {
    tag' := tag;
    if evs != [] {
      hide ProtocolOk, Moves, Step, ForkGranted, LocalsOf;
      var n := |evs| - 1;
      FollowsPrefix(s, read, h, evs, ats);
      hide Follows;
      var tag1 := ProtocolRuns(s, tag, read, h, evs[..n], ats[..n + 1]);
      tag' := MoveKeeps(After(s, evs[..n]), tag1, read, h, ats[n], evs[n], ats[n + 1]);
    }
  }

  /** The start: process 1 alone. */
  predicate Alone(s: State) {
    s.procs[1].state != P_FREE && s.procs[1].table != 0 && s.current == 1
    && forall q | 0 <= q < NPROC && q != 1 :: s.procs[q].state == P_FREE
  }

  lemma AloneOk(s: State, tag: Tags, read: Reader, h: HeapRange)
    requires Inv(s, tag) && !s.status.Panicked? && Alone(s) && ValidRange(h)
    ensures ProtocolOk(s, tag, LocalsOf(s, read, h, Begin))
  {
    hide Inv;
    var l := LocalsOf(s, read, h, Begin);
    AloneShares(s.procs, l, 2);
    assert Shares(s.procs, l, 1) == 4;
  }

  lemma {:induction false} AloneShares(procs: Procs, l: Locals, q: nat)
    requires 2 <= q <= NPROC && forall j | q <= j < NPROC :: procs[j].state == P_FREE
    ensures Shares(procs, l, q) == 0
    decreases NPROC - q
  {
    if q < NPROC {
      AloneShares(procs, l, q + 1);
    }
  }

  /** Every process is past its second fork. */
  predicate AllForked(s: State, read: Reader, h: HeapRange, at: Local)
    requires ValidRange(h)
  {
    forall q | 0 <= q < NPROC && s.procs[q].state != P_FREE :: Share(LocalOf(s, read, h, at, q)) == 1
  }

  /** What process q has in its variables once it has looked at the last answer: no fork has failed,
      getpid gives q, and both results are children of process 1's, or one of them is 0. */
  predicate ResultsOk(q: nat, at: Local) {
    match at
    case Have1(p1) => if q == 1 then 2 <= p1 < 16 else p1 == 0
    case Have2(p1, p2) =>
      if q == 1 then 2 <= p1 < 16 && 2 <= p2 < 16 && p1 != p2 else 0 <= p2 < 16 && (p1 == 0 || p2 == 0)
    case HavePid(p1, p2, pid) => pid == q && if q == 1 then p1 != 0 && p2 != 0 && p1 != p2 else p1 == 0 || p2 == 0
    case _ => true
  }

  /** In every interleaving in which all forks succeed, however the program keeps its variables: no
      process that p-fork creates fails an assertion; and when all have passed their second fork,
      there are exactly four. */
  lemma {:induction false} ForkProtocolHolds(s: State, tag: Tags, read: Reader, h: HeapRange, evs: seq<Event>,
      ats: seq<Local>, ev: Event, at': Local)
    requires Inv(s, tag) && !s.status.Panicked? && ValidRange(h) && Follows(s, read, h, evs, ats)
    requires Alone(s) && ats[0] == Begin && !After(s, evs).status.Panicked?
    ensures var t := After(s, evs);
      && t.current < NPROC
      && (t.status.Running? && Moves(t, read, h, ats[|evs|], ev, at') ==> !IsTrap(ev, INT_SYS_PANIC))
      && (t.status.Running? ==> ResultsOk(t.current, Seen(ats[|evs|], t.procs[t.current].regs.rax)))
      && (AllForked(t, read, h, ats[|evs|]) ==> Processes(t.procs, 0) == 4)
  {
    assert |ats| == |evs| + 1;
    hide Moves, Follows, After, ProtocolOk, Alone, Inv, Processes, AllForked;
    AloneOk(s, tag, read, h);
    var tag' := ProtocolRuns(s, tag, read, h, evs, ats);
    EndOk(After(s, evs), tag', read, h, ats[|evs|], ev, at');
  }

  lemma EndOk(t: State, tag: Tags, read: Reader, h: HeapRange, at: Local, ev: Event, at': Local)
    requires ValidRange(h) && ProtocolOk(t, tag, LocalsOf(t, read, h, at))
    ensures t.current < NPROC
    ensures t.status.Running? && Moves(t, read, h, at, ev, at') ==> !IsTrap(ev, INT_SYS_PANIC)
    ensures t.status.Running? ==> ResultsOk(t.current, Seen(at, t.procs[t.current].regs.rax))
    ensures AllForked(t, read, h, at) ==> Processes(t.procs, 0) == 4
  {
    var l := LocalsOf(t, read, h, at);
    if t.status.Running? {
      EndResults(t, tag, read, h, at);
    }
    hide LocalOk, Own, ResultsOk;
    if t.status.Running? && Moves(t, read, h, at, ev, at') {
      ProtocolParts(t, tag, l);
      MoveIsOwn(t, read, h, at, ev, at');
      NoPanic(t, h, at, ev, Left(t, read, h, ev, at'));
    }
    if AllForked(t, read, h, at) {
      SharesCount(t.procs, l, 0);
    }
  }

  lemma EndResults(t: State, tag: Tags, read: Reader, h: HeapRange, at: Local)
    requires ValidRange(h) && t.status.Running? && ProtocolOk(t, tag, LocalsOf(t, read, h, at))
    ensures t.current < NPROC && ResultsOk(t.current, Seen(at, t.procs[t.current].regs.rax))
  {
    hide Shares;
    ProtocolParts(t, tag, LocalsOf(t, read, h, at));
    SeenOk(t, t.current, at);
    hide Inv, AllHaveTables, Seen;
    assert LocalsOf(t, read, h, at)[t.current] == at;
  }

  // ---- The program can always go on ----

  const TWO_32 := 0x1_0000_0000

  predicate Int32(n: int) {
    -0x8000_0000 <= n < 0x8000_0000
  }

  /** The results stored are ints. */
  predicate AllInt32(at: Local) {
    match at
    case Have1(p1) => Int32(p1)
    case Forked2(p1) => Int32(p1)
    case Have2(p1, p2) => Int32(p1) && Int32(p2)
    case GotPid(p1, p2) => Int32(p1) && Int32(p2)
    case HavePid(p1, p2, pid) => Int32(p1) && Int32(p2) && Int32(pid)
    case _ => true
  }

  /** One way to keep the variables: all in a register, place lowest, then three ints. */
  function Packed(place: nat, p1: int, p2: int, pid: int): nat
    requires place < 8 && Int32(p1) && Int32(p2) && Int32(pid)
  {
    place + 8 * (p1 + 0x8000_0000 + TWO_32 * (p2 + 0x8000_0000 + TWO_32 * (pid + 0x8000_0000)))
  }

  function Encode(at: Local): nat
    requires AllInt32(at)
  {
    match at
    case Begin => Packed(0, 0, 0, 0)
    case Forked1 => Packed(1, 0, 0, 0)
    case Have1(p1) => Packed(2, p1, 0, 0)
    case Forked2(p1) => Packed(3, p1, 0, 0)
    case Have2(p1, p2) => Packed(4, p1, p2, 0)
    case GotPid(p1, p2) => Packed(5, p1, p2, 0)
    case HavePid(p1, p2, pid) => Packed(6, p1, p2, pid)
    case Checked => Packed(7, 0, 0, 0)
  }

  function Unpacked(n: nat): Local {
    var r := n / 8;
    var p1, p2, pid := r % TWO_32 - 0x8000_0000, r / TWO_32 % TWO_32 - 0x8000_0000, r / TWO_32 / TWO_32 - 0x8000_0000;
    match n % 8
    case 0 => Begin
    case 1 => Forked1
    case 2 => Have1(p1)
    case 3 => Forked2(p1)
    case 4 => Have2(p1, p2)
    case 5 => GotPid(p1, p2)
    case 6 => HavePid(p1, p2, pid)
    case _ => Checked
  }

  function InRegister(v: View): Local {
    Unpacked(v.regs.others)
  }

  lemma UnpacksParts(place: nat, p1: int, p2: int, pid: int)
    requires place < 8 && Int32(p1) && Int32(p2) && Int32(pid)
    ensures var n := Packed(place, p1, p2, pid);
      && n % 8 == place && n / 8 % TWO_32 - 0x8000_0000 == p1
      && n / 8 / TWO_32 % TWO_32 - 0x8000_0000 == p2 && n / 8 / TWO_32 / TWO_32 - 0x8000_0000 == pid
  {
    var c := pid + 0x8000_0000;
    var b := p2 + 0x8000_0000 + TWO_32 * c;
    var a := p1 + 0x8000_0000 + TWO_32 * b;
    assert Packed(place, p1, p2, pid) == place + 8 * a;
    assert a / TWO_32 == b && b / TWO_32 == c;
  }

  lemma InRegisterReads(at: Local, v: View)
    requires AllInt32(at) && v.regs.others == Encode(at)
    ensures InRegister(v) == at
  {
    hide Packed;
    match at
    case Have1(p1) => UnpacksParts(2, p1, 0, 0);
    case Forked2(p1) => UnpacksParts(3, p1, 0, 0);
    case Have2(p1, p2) => UnpacksParts(4, p1, p2, 0);
    case GotPid(p1, p2) => UnpacksParts(5, p1, p2, 0);
    case HavePid(p1, p2, pid) => UnpacksParts(6, p1, p2, pid);
    case Begin => UnpacksParts(0, 0, 0, 0);
    case Forked1 => UnpacksParts(1, 0, 0, 0);
    case Checked => UnpacksParts(7, 0, 0, 0);
  }

  /** The interrupt of the program's next call, and where it then waits. */
  function NextCall(d: Local): (nat, Local) {
    match d
    case Begin => (INT_SYS_FORK, Forked1)
    case Have1(p1) => (INT_SYS_FORK, Forked2(p1))
    case Have2(p1, p2) => (INT_SYS_GETPID, GotPid(p1, p2))
    case HavePid(_, _, _) => (INT_SYS_GETPID, Checked)
    case _ => (INT_SYS_YIELD, d)
  }

  /** There are pages and a slot for a fork of the running process. */
  predicate CanFork(s: State)
    requires s.current < NPROC
  {
    && FreeSlot(s.procs, 1) < NPROC
    && FreeCount(s.store.info) >= ForkCost(s.store.mem, s.procs[s.current].table)
  }

  /** In every state of such a run the running process's next call is a move of its program, and a fork
      in it succeeds exactly when there are a slot and pages for it. */
  lemma GoesOn(s: State, tag: Tags, h: HeapRange, at: Local)
    returns (ev: Event, at': Local)
    requires ValidRange(h) && s.current < NPROC && s.status.Running? && AllInt32(at)
    requires ProtocolOk(s, tag, LocalsOf(s, InRegister, h, at))
    ensures Moves(s, InRegister, h, at, ev, at')
    ensures IsTrap(ev, NextCall(Seen(at, s.procs[s.current].regs.rax)).0)
    ensures ForkGranted(s, ev) <==> (IsTrap(ev, INT_SYS_FORK) ==> CanFork(s))
  {
    var d := Seen(at, s.procs[s.current].regs.rax);
    NextCallActs(s, tag, h, at);
    hide ProtocolOk, Inv, Step, ViewOf, Encode, InRegister, Seen, Own, ForkSucceeded, CanFork, LocalsOf, NextCall,
        Moves;
    var regs := s.procs[s.current].regs.(intno := NextCall(d).0, others := Encode(NextCall(d).1));
    ev := Trap(regs);
    at' := CallMoves(s, h, at, regs, NextCall(d).1);
    ForkIsGranted(s, tag, LocalsOf(s, InRegister, h, at), regs);
  }

  lemma CallMoves(s: State, h: HeapRange, at: Local, regs: Registers, next: Local)
    returns (at': Local)
    requires ValidRange(h) && s.current < NPROC && AllInt32(next) && regs.others == Encode(next)
    requires Own(s, h, at, Trap(regs), next)
    ensures Moves(s, InRegister, h, at, Trap(regs), at')
  {
    hide Step, ViewOf, Encode, InRegister, Own;
    var s' := Step(s, Trap(regs));
    StepCurrent(s, Trap(regs));
    at' := InRegister(ViewOf(s', s'.current, h));
    SavedOthers(s, regs, h);
    InRegisterReads(next, ViewOf(Saved(s, regs), s.current, h));
  }

  lemma NextCallActs(s: State, tag: Tags, h: HeapRange, at: Local)
    requires ValidRange(h) && s.current < NPROC && s.status.Running? && AllInt32(at)
    requires ProtocolOk(s, tag, LocalsOf(s, InRegister, h, at))
    ensures var n := NextCall(Seen(at, s.procs[s.current].regs.rax));
      && AllInt32(n.1)
      && forall regs: Registers | regs.intno == n.0 :: Own(s, h, at, Trap(regs), n.1)
  {
    ProtocolParts(s, tag, LocalsOf(s, InRegister, h, at));
    assert LocalsOf(s, InRegister, h, at)[s.current] == at;
    hide ProtocolOk, LocalsOf;
    SeenOk(s, s.current, at);
    SeenInt32(at, s.procs[s.current].regs.rax);
    hide Seen, RequestOk;
  }

  lemma SeenInt32(at: Local, rax: Word64)
    requires AllInt32(at)
    ensures AllInt32(Seen(at, rax))
    ensures !Seen(at, rax).Forked1? && !Seen(at, rax).Forked2? && !Seen(at, rax).GotPid?
  {
  }

  lemma SavedOthers(s: State, regs: Registers, h: HeapRange)
    requires s.current < NPROC && ValidRange(h)
    ensures ViewOf(Saved(s, regs), s.current, h).regs.others == regs.others
  {
    hide UserPages;
  }

  lemma StepCurrent(s: State, ev: Event)
    requires s.current < NPROC
    ensures Step(s, ev).current < NPROC
  {
    hide CheckVirtualMemory, SetPagetableOk, NextRunnable, PageAlloc, Fork, UserPages;
  }

  lemma ForkIsGranted(s: State, tag: Tags, l: Locals, regs: Registers)
    requires ProtocolOk(s, tag, l) && s.status.Running? && s.current < NPROC
    ensures ForkSucceeded(Saved(s, regs)) <==> CanFork(s)
  {
    hide Inv, ForkSucceeded, LocalOk, Shares, FreeSlot, FreeCount, ForkCost, OthersUndisturbed, CheckVirtualMemory,
        SetPagetableOk, DispatchPanics, AllHaveTables;
    SavedKeeps(s, tag, regs);
    SameFreeSlot(s.procs, Saved(s, regs).procs, 1);
    ForkBudget(Saved(s, regs), tag);
  }

  /** From power-on with p-fork alone, as kernel("fork") sets it up. */
  lemma {:induction false} BootedForkProtocolHolds(mem: Memory, layout: Layout, programs: seq<Program>,
      read: Reader, h: HeapRange, evs: seq<Event>, ats: seq<Local>, ev: Event, at': Local)
    requires ValidLayout(layout) && |programs| == 1 && ValidPrograms(programs) && ValidRange(h)
    requires ImagesFit(AllSegments(programs)) && |ats| == |evs| + 1
    requires var s := Start(mem, layout, programs);
      Follows(s, read, h, evs, ats) && ats[0] == Begin && !After(s, evs).status.Panicked?
    ensures var t := After(Start(mem, layout, programs), evs);
      && t.current < NPROC
      && (t.status.Running? && Moves(t, read, h, ats[|evs|], ev, at') ==> !IsTrap(ev, INT_SYS_PANIC))
      && (t.status.Running? ==> ResultsOk(t.current, Seen(ats[|evs|], t.procs[t.current].regs.rax)))
      && (AllForked(t, read, h, ats[|evs|]) ==> Processes(t.procs, 0) == 4)
  {
    hide Follows, Moves, After, Inv, Start, FreeCount, InitialInfo, ValidProgram, AllPlaced, NothingElse, Processes,
        ImagesFit, AllForked;
    var s := Start(mem, layout, programs);
    var tag := KernelStarts(mem, layout, programs);
    assert Prepared(s, tag, 1 + 0, programs[0]);
    SlotZeroFree(s, tag);
    ForkProtocolHolds(s, tag, read, h, evs, ats, ev, at');
  }

  lemma SlotZeroFree(s: State, tag: Tags)
    requires Inv(s, tag)
    ensures s.procs[0].state == P_FREE
  {
  }
}
