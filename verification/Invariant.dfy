/** The invariant of every run, and what it implies for the kernel's own checks. */
module Invariant {
  import opened Words
  import opened Pages
  import opened Paging
  import opened MapRanges
  import opened AddressSpaces
  import opened KernelState

  /** physical_memory_isreserved of page p. */
  predicate ReservedPage(p: nat) {
    p == 0 || 0xA0 <= p < 0x100
  }

  /** The owner pageinfo_init gives page p. */
  function InitialOwner(l: Layout, p: nat): int {
    if ReservedPage(p) then RESERVED
    else if (KERNEL_START <= p && p * PAGE_SIZE < l.end) || p == KERNEL_STACK then KERNEL
    else FREE
  }

  /** Allocation state: referenced exactly when owned, never by more than one; the boot-time owners
      stand; every other owner is a process that exists. */
  ghost predicate InfoOk(l: Layout, info: Info, procs: Procs) {
    forall p | 0 <= p < NPAGES ::
      && (info[p].refcount == 0 || info[p].refcount == 1)
      && (info[p].refcount == 0 <==> info[p].owner == FREE)
      && (InitialOwner(l, p) != FREE ==> info[p].owner == InitialOwner(l, p))
      && (|| info[p].owner in {FREE, RESERVED, KERNEL}
          || (1 <= info[p].owner < NPROC && procs[info[p].owner].state != P_FREE))
  }

  /** The kernel's table maps physical memory to itself. */
  ghost predicate KernelSpace(mem: Memory, tag: Tags, l: Layout) {
    && IsRoot(tag, l.kpt, KERNEL)
    && forall v | 0 <= v < NPAGES ::
      Lookup(mem, l.kpt, v) == Mapped(v, if v < PROC_START then KernelFlags(v) else PWU)
  }

  /** A process has its own number and, if it has a table, one of its own with the kernel range. */
  ghost predicate ProcOk(mem: Memory, tag: Tags, p: Proc, i: nat) {
    && p.pid == i
    && (p.state == P_FREE || p.table == 0 || (IsRoot(tag, p.table, i) && KernelMapped(mem, p.table)))
  }

  ghost predicate ProcsOk(mem: Memory, tag: Tags, procs: Procs) {
    && procs[0].state == P_FREE
    && forall i | 0 <= i < NPROC :: ProcOk(mem, tag, procs[i], i)
  }

  /** Address spaces are the kernel's and the processes'. */
  ghost predicate SpacesOk(tag: Tags) {
    forall p | p in tag :: tag[p].space == KERNEL || 1 <= tag[p].space < NPROC
  }

  /** The invariant at every point of the kernel's own code. */
  ghost predicate Core(s: State, tag: Tags) {
    && ValidLayout(s.layout)
    && WellFormed(s.store, tag) && SpacesOk(tag)
    && InfoOk(s.layout, s.store.info, s.procs)
    && KernelSpace(s.store.mem, tag, s.layout)
    && ProcsOk(s.store.mem, tag, s.procs)
    && s.current < NPROC
  }

  /** The invariant between events: the process that runs can run. */
  ghost predicate Inv(s: State, tag: Tags) {
    && Core(s, tag)
    && (s.status.Running? ==> s.procs[s.current].state == P_RUNNABLE && s.procs[s.current].table != 0)
  }

  /** No process was left without a table by a failed fork. */
  predicate AllHaveTables(procs: Procs) {
    forall i | 0 <= i < NPROC :: procs[i].state != P_FREE ==> procs[i].table != 0
  }

  // ---- The kernel's checks ----

  lemma {:induction false} KernelRangeChecks(mem: Memory, l: Layout, root: nat, v: nat)
    requires ValidLayout(l) && KernelMapped(mem, root) && KERNEL_START <= v
    ensures CheckKernelRange(mem, l, root, v)
    decreases l.end - v * PAGE_SIZE
  {
    if v * PAGE_SIZE < l.end {
      assert v < PROC_START && Canon(v) == v;
      KernelRangeChecks(mem, l, root, v + 1);
    }
  }

  lemma MappingsCheck(mem: Memory, l: Layout, root: nat)
    requires ValidLayout(l) && KernelMapped(mem, root)
    ensures CheckMappings(mem, l, root)
  {
    KernelRangeChecks(mem, l, root, KERNEL_START);
  }

  lemma {:induction false} TreeChecks(st: Store, tag: Tags, pt: nat, level: nat)
    requires Typed(st.mem, tag) && Owned(st.info, tag) && level <= 3 && IsNode(tag, pt, level)
    ensures CheckLevel(st, pt, level, tag[pt].space, 1)
    decreases 3 - level, NENTRIES + 1
  {
    if level < 3 {
      TreeEntriesCheck(st, tag, pt, level, 0);
    }
  }

  lemma {:induction false} TreeEntriesCheck(st: Store, tag: Tags, pt: nat, level: nat, i: nat)
    requires Typed(st.mem, tag) && Owned(st.info, tag) && level < 3 && IsNode(tag, pt, level)
    requires pt < NPAGES && i <= NENTRIES
    ensures CheckEntries(st, pt, level, tag[pt].space, i)
    decreases 3 - level, NENTRIES - i
  {
    if i < NENTRIES {
      assert NodeOk(st.mem, tag, pt);
      assert LinkOk(st.mem[pt][i], tag, tag[pt].space, level + 1, tag[pt].prefix * NENTRIES + i);
      if st.mem[pt][i] != ZERO {
        TreeChecks(st, tag, st.mem[pt][i].frame, level + 1);
      }
      TreeEntriesCheck(st, tag, pt, level, i + 1);
    }
  }

  lemma {:induction false} NoKernelTableUsers(s: State, tag: Tags, pid: nat)
    requires ValidLayout(s.layout) && KernelSpace(s.store.mem, tag, s.layout) && ProcsOk(s.store.mem, tag, s.procs)
    requires pid <= NPROC
    ensures KernelTableUsers(s, pid) == 0
    decreases NPROC - pid
  {
    if pid < NPROC {
      assert ProcOk(s.store.mem, tag, s.procs[pid], pid);
      NoKernelTableUsers(s, tag, pid + 1);
    }
  }

  lemma KernelSpaceMapped(mem: Memory, tag: Tags, l: Layout)
    requires KernelSpace(mem, tag, l)
    ensures KernelMapped(mem, l.kpt)
  {
  }

  /** On every state that satisfies the invariant, check_virtual_memory passes exactly when no
      process was left with a NULL table. */
  lemma CheckPassesExactly(s: State, tag: Tags)
    requires Core(s, tag)
    ensures CheckVirtualMemory(s) <==> AllHaveTables(s.procs)
  {
    if AllHaveTables(s.procs) {
      CheckPasses(s, tag);
    } else {
      var i :| 0 <= i < NPROC && s.procs[i].state != P_FREE && s.procs[i].table == 0;
      assert InitialOwner(s.layout, 0) == RESERVED;
      assert !CheckProc(s, i);
    }
  }

  lemma OwnersPass(s: State, tag: Tags)
    requires Core(s, tag)
    ensures forall pn | 0 <= pn < NPAGES :: CheckOwner(s, pn)
    ensures s.store.info[s.layout.kpt] == PageInfo(KERNEL, 1)
  {
  }

  lemma CheckPasses(s: State, tag: Tags)
    requires Core(s, tag) && AllHaveTables(s.procs)
    ensures CheckVirtualMemory(s)
  {
    hide CheckMappings, CheckLevel, Typed, Owned, Leaves, KernelMapped, InfoOk;
    OwnersPass(s, tag);
    KernelSpaceMapped(s.store.mem, tag, s.layout);
    MappingsCheck(s.store.mem, s.layout, s.layout.kpt);
    NoKernelTableUsers(s, tag, 0);
    TreeChecks(s.store, tag, s.layout.kpt, 0);
    forall pid | 0 <= pid < NPROC
      ensures CheckProc(s, pid)
    {
      assert ProcOk(s.store.mem, tag, s.procs[pid], pid);
      if s.procs[pid].state != P_FREE {
        MappingsCheck(s.store.mem, s.layout, s.procs[pid].table);
        TreeChecks(s.store, tag, s.procs[pid].table, 0);
      }
    }
  }

  lemma IdentityAddress(mem: Memory, root: nat, a: nat)
    requires a / PAGE_SIZE < NPAGES
    requires var m := Lookup(mem, root, a / PAGE_SIZE); m.Mapped? && m.pn == a / PAGE_SIZE
    ensures LookupAddress(mem, root, a) == Some(a)
  {
    assert Canon(a / PAGE_SIZE) == a / PAGE_SIZE;
  }

  /** set_pagetable's assertions hold for the kernel's table and for every table with the kernel range. */
  lemma SetPagetablePasses(mem: Memory, tag: Tags, l: Layout, table: PageNumber)
    requires ValidLayout(l) && KernelSpace(mem, tag, l) && KernelMapped(mem, table)
    ensures SetPagetableOk(mem, l, table)
  {
    assert l.handler / PAGE_SIZE < PROC_START && l.mapCode / PAGE_SIZE < PROC_START;
    IdentityAddress(mem, table, l.handler);
    assert table * PAGE_SIZE / PAGE_SIZE == table;
    IdentityAddress(mem, l.kpt, table * PAGE_SIZE);
    assert l.kpt * PAGE_SIZE / PAGE_SIZE == l.kpt;
    IdentityAddress(mem, table, l.kpt * PAGE_SIZE);
    IdentityAddress(mem, table, l.mapCode);
  }

  /** Whatever table the kernel is about to run on, it passes. */
  lemma RunnablePasses(s: State, tag: Tags, pid: nat)
    requires Core(s, tag) && pid < NPROC && s.procs[pid].state != P_FREE && s.procs[pid].table != 0
    ensures SetPagetableOk(s.store.mem, s.layout, s.procs[pid].table)
    ensures SetPagetableOk(s.store.mem, s.layout, s.layout.kpt)
  {
    assert ProcOk(s.store.mem, tag, s.procs[pid], pid);
    KernelSpaceMapped(s.store.mem, tag, s.layout);
    SetPagetablePasses(s.store.mem, tag, s.layout, s.procs[pid].table);
    SetPagetablePasses(s.store.mem, tag, s.layout, s.layout.kpt);
  }

  // ---- Changing the store on behalf of one space ----

  /** What every process but `space`, the kernel and the allocator keep when a space grows. */
  lemma GrowthKeepsRest(s: State, tag: Tags, st': Store, tag': Tags, space: nat, lo: nat, hi: nat, procs': Procs)
    requires Core(s, tag) && 1 <= space < NPROC && WellFormed(st', tag')
    requires Grows(s.store, tag, st', tag', space) && SameOutside(s.store.mem, st'.mem, tag, space, lo, hi)
    requires procs'[space].state != P_FREE
    requires forall i | 0 <= i < NPROC && i != space :: procs'[i] == s.procs[i].(regs := procs'[i].regs)
    ensures KernelSpace(st'.mem, tag', s.layout) && SpacesOk(tag')
    ensures InfoOk(s.layout, st'.info, procs')
    ensures procs'[0].state == P_FREE
    ensures forall i | 0 <= i < NPROC && i != space :: ProcOk(st'.mem, tag', procs'[i], i)
  {
    GrowthKeepsInfo(s, tag, st', tag', space, procs');
    forall v | 0 <= v < NPAGES
      ensures Lookup(st'.mem, s.layout.kpt, v) == Lookup(s.store.mem, s.layout.kpt, v)
    {
      assert IsRoot(tag, s.layout.kpt, KERNEL);
    }
    forall i | 0 <= i < NPROC && i != space
      ensures ProcOk(st'.mem, tag', procs'[i], i)
    {
      GrowthKeepsProc(s, tag, st', tag', space, lo, hi, i);
    }
  }

  lemma GrowthKeepsInfo(s: State, tag: Tags, st': Store, tag': Tags, space: nat, procs': Procs)
    requires Core(s, tag) && 1 <= space < NPROC && Grows(s.store, tag, st', tag', space)
    requires procs'[space].state != P_FREE
    requires forall i | 0 <= i < NPROC && i != space :: procs'[i].state == s.procs[i].state
    ensures InfoOk(s.layout, st'.info, procs')
  {
  }

  lemma GrowthKeepsProc(s: State, tag: Tags, st': Store, tag': Tags, space: nat, lo: nat, hi: nat, i: nat)
    requires Core(s, tag) && 0 <= i < NPROC && (i != space || PROC_START <= lo)
    requires Grows(s.store, tag, st', tag', space) && SameOutside(s.store.mem, st'.mem, tag, space, lo, hi)
    ensures ProcOk(st'.mem, tag', s.procs[i], i)
  {
    var p := s.procs[i];
    assert ProcOk(s.store.mem, tag, p, i);
    if p.state != P_FREE && p.table != 0 {
      forall v | 0 <= v < PROC_START
        ensures Lookup(st'.mem, p.table, v) == Mapped(v, KernelFlags(v))
      {
        assert IsRoot(tag, p.table, i);
        assert Lookup(st'.mem, p.table, v) == Lookup(s.store.mem, p.table, v);
      }
    }
  }
}
