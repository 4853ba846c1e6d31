/** Every transition keeps the invariant and disturbs no process but the one that runs. */
module Steps {
  import opened Words
  import opened Pages
  import opened Paging
  import opened MapRanges
  import opened AddressSpaces
  import opened Forking
  import opened KernelState
  import opened Kernel
  import opened Invariant

  /** A process's descriptor, address space and pages are exactly as they were. */
  ghost predicate Undisturbed(s: State, tag: Tags, s': State, tag': Tags, q: nat)
    requires q < NPROC
  {
    && s'.procs[q] == s.procs[q]
    && (forall v | 0 <= v < VPAGES ::
      Lookup(s'.store.mem, s.procs[q].table, v) == Lookup(s.store.mem, s.procs[q].table, v))
    && (forall p, v | p in tag && tag[p] == Frame(q, v) ::
      p in tag' && tag'[p] == tag[p] && p < NPAGES && s'.store.mem[p] == s.store.mem[p])
  }

  predicate HasOwnTable(s: State, q: nat) {
    q < NPROC && s.procs[q].state != P_FREE && s.procs[q].table != 0
  }

  ghost predicate OthersUndisturbed(s: State, tag: Tags, s': State, tag': Tags) {
    forall q | 0 <= q < NPROC && q != s.current && HasOwnTable(s, q) :: Undisturbed(s, tag, s', tag', q)
  }

  lemma GrowthUndisturbs(s: State, tag: Tags, s': State, tag': Tags, space: int, lo: nat, hi: nat, q: nat)
    requires Core(s, tag) && HasOwnTable(s, q) && q != space && s'.procs[q] == s.procs[q]
    requires Grows(s.store, tag, s'.store, tag', space) && SameOutside(s.store.mem, s'.store.mem, tag, space, lo, hi)
    ensures Undisturbed(s, tag, s', tag', q)
  {
    assert ProcOk(s.store.mem, tag, s.procs[q], q);
    assert IsRoot(tag, s.procs[q].table, q);
  }

  // ---- run, schedule, resume ----

  lemma {:induction false} NextRunnableFinds(procs: Procs, pid: nat, n: nat)
    ensures NextRunnable(procs, pid, n).Some? ==> procs[NextRunnable(procs, pid, n).value].state == P_RUNNABLE
    decreases n
  {
    if n > 0 {
      NextRunnableFinds(procs, (pid + 1) % NPROC, n - 1);
    }
  }

  lemma RunKeeps(s: State, tag: Tags, pid: nat)
    requires Core(s, tag) && pid < NPROC && s.procs[pid].state == P_RUNNABLE && s.procs[pid].table != 0
    ensures Run(s, pid) == s.(current := pid, status := Running)
    ensures Inv(Run(s, pid), tag)
  {
    RunnablePasses(s, tag, pid);
  }

  lemma ScheduleKeeps(s: State, tag: Tags)
    requires Core(s, tag) && AllHaveTables(s.procs)
    ensures var s' := Schedule(s);
      && s' == s.(current := s'.current, status := s'.status)
      && !s'.status.Panicked? && Inv(s', tag)
  {
    NextRunnableFinds(s.procs, s.procs[s.current].pid, NPROC);
    var r := NextRunnable(s.procs, s.procs[s.current].pid, NPROC);
    if r.Some? {
      RunKeeps(s, tag, r.value);
    }
  }

  // ---- User stores ----

  lemma UserStoreTarget(s: State, tag: Tags, va: nat)
    requires Inv(s, tag) && s.status.Running?
    ensures var m := Lookup(s.store.mem, s.procs[s.current].table, Canon(va / PAGE_SIZE));
      UserWritable(m) ==>
        || m.pn == CONSOLE
        || (m.pn < NPAGES && m.pn in tag && tag[m.pn] == Frame(s.current, Canon(va / PAGE_SIZE)))
  {
    var v, table := Canon(va / PAGE_SIZE), s.procs[s.current].table;
    assert ProcOk(s.store.mem, tag, s.procs[s.current], s.current);
    if v < PROC_START {
      assert Lookup(s.store.mem, table, v) == Mapped(v, KernelFlags(v));
    } else {
      UserLookup(s.store, tag, table, s.current, v);
    }
  }

  /** Storing into a page that is no table leaves all trees and translations alone. */
  lemma DataWriteKeeps(st: Store, tag: Tags, p: nat, i: nat, w: Word)
    requires WellFormed(st, tag) && p < NPAGES && i < NENTRIES && (p in tag ==> tag[p].Frame?)
    ensures var mem' := SetEntry(st.mem, p, i, w);
      && WellFormed(Store(mem', st.info), tag) && SameTranslations(st.mem, mem', tag)
  {
    var mem' := SetEntry(st.mem, p, i, w);
    forall n | n in tag && tag[n].Table?
      ensures NodeOk(mem', tag, n)
    {
      assert NodeOk(st.mem, tag, n);
    }
    forall q: nat, j | q < NPAGES && IsNode(tag, q, 3) && 0 <= j < NENTRIES
      ensures LeafOk(mem'[q][j], tag, tag[q].space, tag[q].prefix * NENTRIES + j)
    {
      assert LeafOk(st.mem[q][j], tag, tag[q].space, tag[q].prefix * NENTRIES + j);
    }
    forall n, level, v, perms | 0 <= level <= 3 && 0 <= v && IsNode(tag, n, level)
      ensures LookupFrom(mem', n, level, v, perms) == LookupFrom(st.mem, n, level, v, perms)
    {
      LookupFrame(st.mem, mem', tag, n, level, v, perms);
    }
  }

  lemma ConsoleUntagged(s: State, tag: Tags)
    requires Core(s, tag)
    ensures CONSOLE !in tag
  {
    assert InitialOwner(s.layout, CONSOLE) == RESERVED;
  }

  lemma StoreKeeps(s: State, tag: Tags, va: nat, w: Word)
    requires Inv(s, tag) && s.status.Running?
    ensures Inv(UserStore(s, va, w), tag)
    ensures OthersUndisturbed(s, tag, UserStore(s, va, w), tag)
  {
    var s' := UserStore(s, va, w);
    if s' != s {
      var v := Canon(va / PAGE_SIZE);
      var pn := Lookup(s.store.mem, s.procs[s.current].table, v).pn;
      UserStoreTarget(s, tag, va);
      ConsoleUntagged(s, tag);
      DataWriteKeeps(s.store, tag, pn, va % PAGE_SIZE / 8, w);
      SameTranslationsOutside(s.store.mem, s'.store.mem, tag, s.current, 0, 0);
      SameStoreCore(s, tag, s');
      StoreUndisturbs(s, tag, s', pn, v);
    }
  }

  lemma StoreUndisturbs(s: State, tag: Tags, s': State, pn: nat, v: nat)
    requires Core(s, tag) && s' == s.(store := s'.store) && SameOutside(s.store.mem, s'.store.mem, tag, s.current, 0, 0)
    requires pn in tag ==> tag[pn] == Frame(s.current, v)
    requires forall p | 0 <= p < NPAGES && p != pn :: s'.store.mem[p] == s.store.mem[p]
    ensures OthersUndisturbed(s, tag, s', tag)
  {
    forall q | 0 <= q < NPROC && q != s.current && HasOwnTable(s, q)
      ensures Undisturbed(s, tag, s', tag, q)
    {
      assert ProcOk(s.store.mem, tag, s.procs[q], q);
      assert IsRoot(tag, s.procs[q].table, q);
    }
  }

  /** A new memory that translates every root as before keeps the invariant. */
  lemma SameStoreCore(s: State, tag: Tags, s': State)
    requires Core(s, tag) && s' == s.(store := s'.store) && s'.store.info == s.store.info
    requires WellFormed(s'.store, tag) && SameOutside(s.store.mem, s'.store.mem, tag, s.current, 0, 0)
    ensures Core(s', tag)
  {
    forall v | 0 <= v < NPAGES
      ensures Lookup(s'.store.mem, s.layout.kpt, v) == Lookup(s.store.mem, s.layout.kpt, v)
    {
      assert IsRoot(tag, s.layout.kpt, KERNEL);
    }
    forall i | 0 <= i < NPROC
      ensures ProcOk(s'.store.mem, tag, s.procs[i], i)
    {
      SameLookupsProc(s, tag, s'.store.mem, i);
    }
  }

  lemma SameLookupsProc(s: State, tag: Tags, mem': Memory, i: nat)
    requires Core(s, tag) && i < NPROC && SameOutside(s.store.mem, mem', tag, s.current, 0, 0)
    ensures ProcOk(mem', tag, s.procs[i], i)
  {
    var p := s.procs[i];
    assert ProcOk(s.store.mem, tag, p, i);
    if p.state != P_FREE && p.table != 0 {
      forall v | 0 <= v < PROC_START
        ensures Lookup(mem', p.table, v) == Mapped(v, KernelFlags(v))
      {
        assert IsRoot(tag, p.table, i);
        assert Lookup(mem', p.table, v) == Lookup(s.store.mem, p.table, v);
      }
    }
  }

  // ---- Page allocation ----

  /** The kernel's guard is missing for addresses that decode below PROC_START_ADDR: while a page is
      free, a page-aligned request must not do so. */
  predicate RequestOk(s: State, addr: nat) {
    FreeCount(s.store.info) == 0 || addr % PAGE_SIZE != 0 || Canon(addr / PAGE_SIZE) >= PROC_START
  }

  lemma MapAnywhere(st: Store, root: nat, v: nat, pn: nat, perm: Flags, alloc: Option<int>)
    requires root < NPAGES && pn < NPAGES && perm.p
    ensures Map(st, root, v, pn, 1, perm, alloc) ==
      if Group(v) == -1 then MapResult(st, Failed) else MapOne(st, root, Canon(v), pn, perm, alloc)
  {
    CanonIndex(v);
  }

  /** Mapping one page of a space at any 64-bit page number, the sentinel included. */
  lemma MapAnywhereEffects(st: Store, tag: Tags, root: nat, space: int, v: nat, pn: nat)
    returns (tag': Tags)
    requires WellFormed(st, tag) && IsRoot(tag, root, space) && pn < NPAGES && root < NPAGES
    requires LeafOk(Entry(pn, PWU), tag, space, Canon(v))
    ensures MapEffect(st, tag, root, space, Canon(v), pn, PWU, Map(st, root, v, pn, 1, PWU, Some(space)), tag')
  {
    MapAnywhere(st, root, v, pn, PWU, Some(space));
    if Group(v) == -1 {
      tag' := tag;
    } else {
      MapSingle(st, root, Canon(v), pn, PWU, Some(space));
      tag' := MapEffects(st, tag, root, space, Canon(v), pn, PWU, Some(space));
    }
  }

  /** The store after the page of a request has been taken, and mapped if it can be. */
  lemma RequestMaps(s: State, tag: Tags)
    returns (tag': Tags)
    requires Inv(s, tag) && s.status.Running? && GetFree(s.store.info, s.current).pn != 0
    requires Canon(s.procs[s.current].regs.rdi / PAGE_SIZE) >= PROC_START
    ensures var p := s.procs[s.current];
      var g := GetFree(s.store.info, s.current);
      var v := Canon(p.regs.rdi / PAGE_SIZE);
      var r := Map(Store(s.store.mem, g.info), p.table, p.regs.rdi / PAGE_SIZE, g.pn, 1, PWU, Some(s.current));
      && !r.outcome.Panic?
      && WellFormed(r.st, tag') && Grows(s.store, tag, r.st, tag', s.current)
      && SameOutside(s.store.mem, r.st.mem, tag, s.current, v, v + 1)
      && (r.outcome.Done? ==> Lookup(r.st.mem, p.table, v) == Mapped(g.pn, PWU))
      && (r.outcome.Failed? ==> SameOutside(s.store.mem, r.st.mem, tag, s.current, v, v))
  {
    var p := s.procs[s.current];
    var v := Canon(p.regs.rdi / PAGE_SIZE);
    assert ProcOk(s.store.mem, tag, p, s.current);
    GetFreeTakesLowest(s.store.info, s.current);
    var g := GetFree(s.store.info, s.current);
    var st1 := GivePage(s.store, g.pn, s.store.mem[g.pn], s.current);
    assert st1 == Store(s.store.mem, g.info);
    var tag1 := tag[g.pn := Frame(s.current, v)];
    NewFrame(s.store, tag, g.pn, s.store.mem[g.pn], s.current, v);
    hide WellFormed, Grows, SameOutside, Map, Core;
    assert LeafOk(Entry(g.pn, PWU), tag1, s.current, v);
    tag' := MapAnywhereEffects(st1, tag1, p.table, s.current, p.regs.rdi / PAGE_SIZE, g.pn);
    var r := Map(st1, p.table, p.regs.rdi / PAGE_SIZE, g.pn, 1, PWU, Some(s.current));
    GrowsTransitive(s.store, tag, st1, tag1, r.st, tag', s.current);
    GrowsKeepsTags(s.store, tag, st1, tag1, s.current);
    SameOutsideTransitive(s.store.mem, st1.mem, r.st.mem, tag, tag1, s.current, v, v, v + 1);
    if r.outcome.Failed? {
      SameOutsideTransitive(s.store.mem, st1.mem, r.st.mem, tag, tag1, s.current, v, v, v);
    }
  }

  /** Everything a change made on behalf of one space leaves in place. */
  lemma GrowthCore(s: State, tag: Tags, s': State, tag': Tags, space: nat, lo: nat, hi: nat)
    requires Core(s, tag) && 1 <= space < NPROC && PROC_START <= lo
    requires s'.layout == s.layout && s'.current == s.current
    requires WellFormed(s'.store, tag') && Grows(s.store, tag, s'.store, tag', space)
    requires SameOutside(s.store.mem, s'.store.mem, tag, space, lo, hi)
    requires s.procs[space].state != P_FREE
    requires forall i | 0 <= i < NPROC :: s'.procs[i] == s.procs[i].(regs := s'.procs[i].regs)
    ensures Core(s', tag')
  {
    GrowthKeepsRest(s, tag, s'.store, tag', space, lo, hi, s'.procs);
    GrowthKeepsProc(s, tag, s'.store, tag', space, lo, hi, space);
  }

  lemma GrowthUndisturbsOthers(s: State, tag: Tags, s': State, tag': Tags, space: int, lo: nat, hi: nat)
    requires Core(s, tag) && (space == s.current || (0 <= space < NPROC && s.procs[space].state == P_FREE))
    requires Grows(s.store, tag, s'.store, tag', space) && SameOutside(s.store.mem, s'.store.mem, tag, space, lo, hi)
    requires forall q | 0 <= q < NPROC && q != s.current && q != space :: s'.procs[q] == s.procs[q]
    ensures OthersUndisturbed(s, tag, s', tag')
  {
    forall q | 0 <= q < NPROC && q != s.current && HasOwnTable(s, q)
      ensures Undisturbed(s, tag, s', tag', q)
    {
      GrowthUndisturbs(s, tag, s', tag', space, lo, hi, q);
    }
  }

  lemma SameStoreUndisturbed(s: State, tag: Tags, s': State)
    requires Core(s, tag) && s'.store == s.store
    requires forall q | 0 <= q < NPROC && q != s.current && HasOwnTable(s, q) :: s'.procs[q] == s.procs[q]
    ensures OthersUndisturbed(s, tag, s', tag)
  {
    forall q | 0 <= q < NPROC && q != s.current && HasOwnTable(s, q)
      ensures Undisturbed(s, tag, s', tag, q)
    {
    }
  }

  lemma CurrentIsProcess(s: State, tag: Tags)
    requires Inv(s, tag) && s.status.Running?
    ensures 1 <= s.current < NPROC && s.procs[s.current].pid == s.current
    ensures IsRoot(tag, s.procs[s.current].table, s.current) && KernelMapped(s.store.mem, s.procs[s.current].table)
  {
    assert ProcOk(s.store.mem, tag, s.procs[s.current], s.current);
  }

  /** A page request above the kernel range panics only when it is unaligned and there was a page
      to map; otherwise it keeps the invariant and disturbs nobody. */
  lemma PageAllocKeeps(s: State, tag: Tags)
    returns (tag': Tags)
    requires Inv(s, tag) && s.status.Running? && RequestOk(s, s.procs[s.current].regs.rdi)
    ensures var s' := PageAlloc(s);
      && (s'.status.Panicked? <==> FreeCount(s.store.info) > 0 && s.procs[s.current].regs.rdi % PAGE_SIZE != 0)
      && (!s'.status.Panicked? ==>
        && Inv(s', tag') && s'.current == s.current && s'.status.Running?
        && s'.procs[s.current].state == P_RUNNABLE
        && OthersUndisturbed(s, tag, s', tag'))
  {
    hide WellFormed, Grows, SameOutside, Map, Core, OthersUndisturbed, GetFree, FreeCount, PageAlloc, KernelMapped;
    CurrentIsProcess(s, tag);
    var p := s.procs[s.current];
    CoreParts(s, tag);
    PageZeroInUse(s, tag);
    GetFreeTakesLowest(s.store.info, s.current);
    tag' := tag;
    if GetFree(s.store.info, s.current).pn == 0 {
      NoPageShape(s);
      SameProcsCore(s, tag, PageAlloc(s));
      SameStoreUndisturbed(s, tag, PageAlloc(s));
    } else if p.regs.rdi % PAGE_SIZE == 0 {
      var v := Canon(p.regs.rdi / PAGE_SIZE);
      tag' := RequestMaps(s, tag);
      PageAllocShape(s);
      GrowthCore(s, tag, PageAlloc(s), tag', s.current, v, v + 1);
      GrowthUndisturbsOthers(s, tag, PageAlloc(s), tag', s.current, v, v + 1);
    } else {
      UnalignedPanics(s);
    }
  }

  lemma PageZeroInUse(s: State, tag: Tags)
    requires Core(s, tag)
    ensures !IsFree(s.store.info[0])
  {
  }

  /** With no page free a request only answers -1. */
  lemma NoPageShape(s: State)
    requires s.current < NPROC && GetFree(s.store.info, s.procs[s.current].pid).pn == 0
    requires GetFree(s.store.info, s.procs[s.current].pid).info == s.store.info
    ensures PageAlloc(s) == SetRax(s, s.current, FAILED)
  {
    hide GetFree;
  }

  lemma UnalignedPanics(s: State)
    requires s.current < NPROC && GetFree(s.store.info, s.procs[s.current].pid).pn != 0
    requires s.procs[s.current].regs.rdi % PAGE_SIZE != 0
    ensures PageAlloc(s).status.Panicked?
  {
    hide GetFree;
  }

  lemma PageAllocShape(s: State)
    requires s.current < NPROC && s.procs[s.current].regs.rdi % PAGE_SIZE == 0
    requires GetFree(s.store.info, s.procs[s.current].pid).pn != 0
    ensures var p := s.procs[s.current];
      var g := GetFree(s.store.info, p.pid);
      var r := Map(Store(s.store.mem, g.info), p.table, p.regs.rdi / PAGE_SIZE, g.pn, 1, PWU, Some(p.pid));
      && PageAlloc(s).store == r.st && PageAlloc(s).layout == s.layout && PageAlloc(s).current == s.current
      && PageAlloc(s).status == (if r.outcome.Panic? then Panicked else s.status)
      && (forall i | 0 <= i < NPROC :: PageAlloc(s).procs[i] == s.procs[i].(regs := PageAlloc(s).procs[i].regs))
      && (forall i | 0 <= i < NPROC && i != s.current :: PageAlloc(s).procs[i] == s.procs[i])
  {
    hide Map, GetFree;
  }

  /** Saving registers, and marking a process broken, keep the invariant. */
  lemma SameProcsCore(s: State, tag: Tags, s': State)
    requires Core(s, tag) && s'.layout == s.layout && s'.store == s.store && s'.current == s.current
    requires forall i | 0 <= i < NPROC ::
      s'.procs[i] == s.procs[i].(regs := s'.procs[i].regs, state := s'.procs[i].state)
      && (s'.procs[i].state == P_FREE <==> s.procs[i].state == P_FREE)
    ensures Core(s', tag)
  {
    forall i | 0 <= i < NPROC
      ensures ProcOk(s'.store.mem, tag, s'.procs[i], i)
    {
      assert ProcOk(s.store.mem, tag, s.procs[i], i);
    }
  }

  // ---- fork ----

  /** The descriptors after fork has filled slot i: a copy of the parent's but for its number, its
      table and rax; of the parent's own only rax may differ. */
  ghost predicate SlotFilled(s: State, s': State, i: nat)
    requires s.current < NPROC && i < NPROC
  {
    && s'.layout == s.layout && s'.current == s.current && s'.ticks == s.ticks
    && s'.procs[i].pid == i && s'.procs[i].state == P_RUNNABLE
    && s'.procs[i].regs == s.procs[s.current].regs.(rax := s'.procs[i].regs.rax)
    && s'.procs[s.current] == s.procs[s.current].(regs := s.procs[s.current].regs.(rax := s'.procs[s.current].regs.rax))
    && (forall j | 0 <= j < NPROC && j != i && j != s.current :: s'.procs[j] == s.procs[j])
  }

  lemma ForkedCore(s: State, tag: Tags, s': State, tag': Tags, i: nat)
    requires Inv(s, tag) && s.status.Running? && 1 <= i < NPROC && s.procs[i].state == P_FREE
    requires i != s.current && SlotFilled(s, s', i)
    requires WellFormed(s'.store, tag') && Grows(s.store, tag, s'.store, tag', i)
    requires SameOutside(s.store.mem, s'.store.mem, tag, i, 0, VM_END)
    requires ProcOk(s'.store.mem, tag', s'.procs[i], i)
    ensures Inv(s', tag') && OthersUndisturbed(s, tag, s', tag')
  {
    GrowthKeepsRest(s, tag, s'.store, tag', i, 0, VM_END, s'.procs);
    GrowthUndisturbsOthers(s, tag, s', tag', i, 0, VM_END);
  }

  /** What fork does once it has found a slot: the table of the child, the store it leaves, the
      return values, and whether it panics. */
  lemma ForkShape(s: State)
    requires s.current < NPROC && FreeSlot(s.procs, 1) < NPROC && FreeSlot(s.procs, 1) != s.current
    ensures SlotFilled(s, Fork(s), FreeSlot(s.procs, 1))
    ensures var i := FreeSlot(s.procs, 1);
      var c := CopyTable(s.store, s.procs[s.current].table, i);
      var s' := Fork(s);
      && s'.procs[i].table == c.root
      && (c.panicked ==> s'.status == Panicked)
      && (!c.panicked && c.root == 0 ==>
        s'.status == s.status && s'.store == c.st && s'.procs[s.current].regs.rax == FAILED)
      && (!c.panicked && c.root != 0 ==>
        var r := ForkLoop(c.st, s.procs[s.current].table, c.root, PROC_START, i);
        && s'.store == r.st && s'.status == (if r.outcome.Panic? then Panicked else s.status)
        && (r.outcome.Failed? ==> s'.procs[s.current].regs.rax == FAILED)
        && (r.outcome.Done? ==> s'.procs[s.current].regs.rax == i && s'.procs[i].regs.rax == 0))
  {
    hide CopyTable, ForkLoop;
  }

  /** fork panics exactly when it has a slot and one to three free pages; otherwise it keeps the
      invariant and disturbs nobody. */
  lemma ForkKeeps(s: State, tag: Tags)
    returns (tag': Tags)
    requires Inv(s, tag) && s.status.Running?
    ensures var s' := Fork(s);
      && (s'.status.Panicked? <==> FreeSlot(s.procs, 1) < NPROC && 1 <= FreeCount(s.store.info) <= 3)
      && (!s'.status.Panicked? ==>
        && Inv(s', tag') && s'.current == s.current && s'.status.Running?
        && OthersUndisturbed(s, tag, s', tag'))
  {
    hide CopyTable, ForkLoop, WellFormed, Core, OthersUndisturbed, FreeCount;
    CurrentIsProcess(s, tag);
    tag' := tag;
    if FreeSlot(s.procs, 1) == NPROC {
      NoSlotKeeps(s, tag);
    } else {
      hide Fork;
      tag' := ForkSlotKeeps(s, tag);
    }
  }

  lemma NoSlotKeeps(s: State, tag: Tags)
    requires Inv(s, tag) && s.status.Running? && FreeSlot(s.procs, 1) == NPROC
    ensures Inv(Fork(s), tag) && OthersUndisturbed(s, tag, Fork(s), tag)
  {
    SameProcsCore(s, tag, Fork(s));
    SameStoreUndisturbed(s, tag, Fork(s));
  }

  lemma ForkSlotKeeps(s: State, tag: Tags)
    returns (tag': Tags)
    requires Inv(s, tag) && s.status.Running? && FreeSlot(s.procs, 1) < NPROC
    ensures var s' := Fork(s);
      && (s'.status.Panicked? <==> 1 <= FreeCount(s.store.info) <= 3)
      && (!s'.status.Panicked? ==>
        && Inv(s', tag') && s'.current == s.current && s'.status.Running?
        && OthersUndisturbed(s, tag, s', tag'))
  {
    var i := FreeSlot(s.procs, 1);
    CurrentIsProcess(s, tag);
    ForkShape(s);
    hide Fork, Core, OthersUndisturbed, CopyTable, ForkLoop;
    var _ := CopyTableCopies(s.store, tag, s.procs[s.current].table, s.current, i);
    tag' := tag;
    if FreeCount(s.store.info) == 0 {
      ForkWithoutTable(s, tag);
    } else if FreeCount(s.store.info) >= 4 {
      tag' := ForkWithTable(s, tag);
    }
  }

  lemma ForkWithoutTable(s: State, tag: Tags)
    requires Inv(s, tag) && s.status.Running? && FreeSlot(s.procs, 1) < NPROC && FreeCount(s.store.info) == 0
    ensures Inv(Fork(s), tag) && OthersUndisturbed(s, tag, Fork(s), tag)
  {
    var i := FreeSlot(s.procs, 1);
    CurrentIsProcess(s, tag);
    CoreParts(s, tag);
    ForkShape(s);
    hide Grows, SameOutside, FreeCount, CopyTable, ForkLoop, WellFormed, Fork, Inv, OthersUndisturbed;
    var _ := CopyTableCopies(s.store, tag, s.procs[s.current].table, s.current, i);
    NothingGrew(s.store, tag, i);
    ForkedCore(s, tag, Fork(s), tag, i);
  }

  lemma ForkWithTable(s: State, tag: Tags)
    returns (tag': Tags)
    requires Inv(s, tag) && s.status.Running? && FreeSlot(s.procs, 1) < NPROC && FreeCount(s.store.info) >= 4
    ensures Inv(Fork(s), tag') && OthersUndisturbed(s, tag, Fork(s), tag') && Fork(s).status.Running?
  {
    var i := FreeSlot(s.procs, 1);
    CurrentIsProcess(s, tag);
    CoreParts(s, tag);
    ForkShape(s);
    hide Grows, SameOutside, KernelMapped, RangeForked, FreeCount, CopyTable, ForkLoop, ForkCost, WellFormed, Fork,
        Inv, OthersUndisturbed, SlotFilled;
    SlotProc(s, Fork(s), i);
    tag' := ForkCopies(s.store, tag, s.procs[s.current].table, s.current, i);
    ForkedCore(s, tag, Fork(s), tag', i);
  }

  lemma SlotProc(s: State, s': State, i: nat)
    requires s.current < NPROC && i < NPROC && SlotFilled(s, s', i)
    ensures s'.procs[i].pid == i && s'.procs[i].state == P_RUNNABLE && s'.current == s.current
  {
  }

  lemma CoreParts(s: State, tag: Tags)
    requires Inv(s, tag)
    ensures Core(s, tag) && WellFormed(s.store, tag)
  {
  }

  lemma NothingGrew(st: Store, tag: Tags, space: int)
    requires WellFormed(st, tag)
    ensures Grows(st, tag, st, tag, space) && SameOutside(st.mem, st.mem, tag, space, 0, VM_END)
  {
  }

  // ---- exception ----

  /** exception stops the machine exactly for these reasons. */
  predicate PanicCause(s: State, regs: Registers)
    requires s.current < NPROC
  {
    var kernelFault := regs.intno == INT_PAGEFAULT && !UserFault(regs.err);
    || kernelFault
    || !AllHaveTables(s.procs)
    || DispatchPanics(s, regs)
  }

  /** The switch stops the machine: an interrupt it does not know (INT_SYS_PANIC and INT_SYS_EXIT among
      them), an unaligned page request with a page to map, a fork that gets its root but not the
      three tables below. */
  predicate DispatchPanics(s: State, regs: Registers) {
    || regs.intno !in {INT_PAGEFAULT, INT_TIMER, INT_SYS_GETPID, INT_SYS_YIELD, INT_SYS_PAGE_ALLOC, INT_SYS_FORK}
    || (regs.intno == INT_SYS_PAGE_ALLOC && FreeCount(s.store.info) > 0 && regs.rdi % PAGE_SIZE != 0)
    || (regs.intno == INT_SYS_FORK && FreeSlot(s.procs, 1) < NPROC && 1 <= FreeCount(s.store.info) <= 3)
  }

  /** The registers of the trap saved in the current descriptor. */
  function Saved(s: State, regs: Registers): State
    requires s.current < NPROC
  {
    s.(procs := s.procs[s.current := s.procs[s.current].(regs := regs)])
  }

  lemma SavedKeeps(s: State, tag: Tags, regs: Registers)
    requires Inv(s, tag) && s.status.Running?
    ensures Inv(Saved(s, regs), tag) && OthersUndisturbed(s, tag, Saved(s, regs), tag)
    ensures AllHaveTables(Saved(s, regs).procs) == AllHaveTables(s.procs)
    ensures SetPagetableOk(s.store.mem, s.layout, s.layout.kpt)
    ensures CheckVirtualMemory(Saved(s, regs)) <==> AllHaveTables(s.procs)
    ensures DispatchPanics(Saved(s, regs), regs) == DispatchPanics(s, regs)
  {
    hide Core, OthersUndisturbed, AllHaveTables, SetPagetableOk, CheckVirtualMemory, DispatchPanics;
    CoreParts(s, tag);
    SavedCore(s, tag, regs);
    RunnablePasses(s, tag, s.current);
    CheckPassesExactly(Saved(s, regs), tag);
    SavedDispatch(s, regs);
  }

  lemma SavedCore(s: State, tag: Tags, regs: Registers)
    requires Core(s, tag)
    ensures Core(Saved(s, regs), tag) && OthersUndisturbed(s, tag, Saved(s, regs), tag)
    ensures AllHaveTables(Saved(s, regs).procs) == AllHaveTables(s.procs)
  {
    SavedShape(s, regs);
    CurrentInRange(s, tag);
    SavedTables(s, regs);
    hide Saved, Core, OthersUndisturbed, AllHaveTables;
    SameProcsCore(s, tag, Saved(s, regs));
    SameStoreUndisturbed(s, tag, Saved(s, regs));
  }

  lemma CurrentInRange(s: State, tag: Tags)
    requires Core(s, tag)
    ensures s.current < NPROC
  {
  }

  lemma SavedTables(s: State, regs: Registers)
    requires s.current < NPROC
    ensures AllHaveTables(Saved(s, regs).procs) == AllHaveTables(s.procs)
  {
    SavedShape(s, regs);
    hide Saved;
    if AllHaveTables(s.procs) {
      assert forall i | 0 <= i < NPROC :: Saved(s, regs).procs[i].state != P_FREE ==> s.procs[i].table != 0;
    }
    if AllHaveTables(Saved(s, regs).procs) {
      assert forall i | 0 <= i < NPROC :: s.procs[i].state != P_FREE ==> Saved(s, regs).procs[i].table != 0;
    }
  }

  lemma SavedShape(s: State, regs: Registers)
    requires s.current < NPROC
    ensures var s' := Saved(s, regs);
      && s' == s.(procs := s'.procs)
      && (forall i | 0 <= i < NPROC :: s'.procs[i] == s.procs[i].(regs := s'.procs[i].regs))
      && (forall i | 0 <= i < NPROC && i != s.current :: s'.procs[i] == s.procs[i])
  {
  }

  lemma SavedDispatch(s: State, regs: Registers)
    requires s.current < NPROC
    ensures DispatchPanics(Saved(s, regs), regs) == DispatchPanics(s, regs)
  {
    hide FreeSlot, FreeCount;
    SavedShape(s, regs);
    SameFreeSlot(s.procs, Saved(s, regs).procs, 1);
  }

  lemma {:induction false} SameFreeSlot(procs: Procs, procs': Procs, pid: nat)
    requires pid <= NPROC && forall i | 0 <= i < NPROC :: procs'[i].state == procs[i].state
    ensures FreeSlot(procs', pid) == FreeSlot(procs, pid)
    decreases NPROC - pid
  {
    if pid < NPROC {
      SameFreeSlot(procs, procs', pid + 1);
    }
  }

  /** Undisturbed by two steps in a row, the second not run by this process either. */
  lemma UndisturbedTransitive(s: State, tag: Tags, s1: State, tag1: Tags, s2: State, tag2: Tags)
    requires OthersUndisturbed(s, tag, s1, tag1) && OthersUndisturbed(s1, tag1, s2, tag2) && s1.current == s.current
    ensures OthersUndisturbed(s, tag, s2, tag2)
  {
    forall q | 0 <= q < NPROC && q != s.current && HasOwnTable(s, q)
      ensures Undisturbed(s, tag, s2, tag2, q)
    {
      assert Undisturbed(s, tag, s1, tag1, q);
      assert Undisturbed(s1, tag1, s2, tag2, q);
    }
  }

  /** Going back to user code changes only who runs. */
  lemma ResumeKeeps(s0: State, tag0: Tags, s: State, tag: Tags)
    requires Core(s, tag) && !s.status.Panicked? && OthersUndisturbed(s0, tag0, s, tag)
    requires (s.procs[s.current].state == P_RUNNABLE && s.procs[s.current].table != 0) || AllHaveTables(s.procs)
    ensures !Resume(s).status.Panicked? && Inv(Resume(s), tag) && OthersUndisturbed(s0, tag0, Resume(s), tag)
  {
    if s.procs[s.current].state == P_RUNNABLE {
      RunKeeps(s, tag, s.current);
    } else {
      ScheduleKeeps(s, tag);
    }
    SameViewUndisturbed(s0, tag0, s, tag, Resume(s));
  }

  lemma SameViewUndisturbed(s0: State, tag0: Tags, s: State, tag: Tags, s': State)
    requires OthersUndisturbed(s0, tag0, s, tag) && s'.store == s.store && s'.procs == s.procs
    ensures OthersUndisturbed(s0, tag0, s', tag)
  {
    forall q | 0 <= q < NPROC && q != s0.current && HasOwnTable(s0, q)
      ensures Undisturbed(s0, tag0, s', tag, q)
    {
      assert Undisturbed(s0, tag0, s, tag, q);
    }
  }

  /** Every trap but an ill-placed page request: the machine panics exactly for the listed reasons;
      otherwise the invariant holds again and no other process is disturbed. */
  lemma ExceptionKeeps(s: State, tag: Tags, regs: Registers)
    returns (tag': Tags)
    requires Inv(s, tag) && s.status.Running?
    requires regs.intno == INT_SYS_PAGE_ALLOC ==> RequestOk(s, regs.rdi)
    ensures var s' := Exception(s, regs);
      && (s'.status.Panicked? <==> PanicCause(s, regs))
      && (!s'.status.Panicked? ==> Inv(s', tag') && OthersUndisturbed(s, tag, s', tag'))
  {
    tag' := tag;
    SavedKeeps(s, tag, regs);
    ExceptionShape(s, regs);
    hide Inv, OthersUndisturbed, CheckVirtualMemory, SetPagetableOk, Exception, Dispatch, DispatchPanics,
        AllHaveTables;
    if regs.intno == INT_PAGEFAULT && !UserFault(regs.err) {
      KernelFaultPanics(Saved(s, regs), regs);
    } else if AllHaveTables(s.procs) {
      tag' := DispatchKeeps(s, tag, Saved(s, regs), regs);
    }
  }

  lemma ExceptionShape(s: State, regs: Registers)
    requires s.current < NPROC && SetPagetableOk(s.store.mem, s.layout, s.layout.kpt)
    ensures Exception(s, regs) ==
      if (regs.intno == INT_PAGEFAULT && !UserFault(regs.err)) || CheckVirtualMemory(Saved(s, regs))
      then Dispatch(Saved(s, regs), regs) else Panicking(Saved(s, regs))
  {
    hide CheckVirtualMemory, SetPagetableOk, Dispatch;
  }

  lemma KernelFaultPanics(s: State, regs: Registers)
    requires s.current < NPROC && regs.intno == INT_PAGEFAULT && !UserFault(regs.err)
    ensures Dispatch(s, regs).status.Panicked?
  {
  }

  /** The switch of exception, after the checks have passed; s0 is the state before the trap. */
  lemma DispatchKeeps(s0: State, tag0: Tags, s: State, regs: Registers)
    returns (tag': Tags)
    requires Inv(s, tag0) && s.status.Running? && OthersUndisturbed(s0, tag0, s, tag0) && s0.current == s.current
    requires AllHaveTables(s.procs) && s.procs[s.current].regs == regs
    requires regs.intno == INT_SYS_PAGE_ALLOC ==> RequestOk(s, regs.rdi)
    requires regs.intno == INT_PAGEFAULT ==> UserFault(regs.err)
    ensures var s' := Dispatch(s, regs);
      && (s'.status.Panicked? <==> DispatchPanics(s, regs))
      && (!s'.status.Panicked? ==> Inv(s', tag') && OthersUndisturbed(s0, tag0, s', tag'))
  {
    hide Inv, Core, OthersUndisturbed, FreeCount, PageAlloc, Fork, Resume, Schedule, AllHaveTables, FreeSlot,
        WellFormed, RequestOk;
    tag' := tag0;
    CoreParts(s, tag0);
    RunsOn(s, tag0);
    if regs.intno == INT_SYS_PAGE_ALLOC {
      tag' := PageAllocKeeps(s, tag0);
      ResumeAfter(s0, s, tag0, PageAlloc(s), tag');
    } else if regs.intno == INT_SYS_FORK {
      tag' := ForkKeeps(s, tag0);
      ResumeAfter(s0, s, tag0, Fork(s), tag');
    } else if regs.intno == INT_SYS_GETPID {
      var s1 := SetRax(s, s.current, s.procs[s.current].pid % 0x1_0000_0000_0000_0000);
      ProcChangeKeeps(s, tag0, s1);
      UndisturbedTransitive(s0, tag0, s, tag0, s1, tag0);
      ResumeKeeps(s0, tag0, s1, tag0);
    } else if regs.intno == INT_PAGEFAULT {
      var s1 := s.(procs := s.procs[s.current := s.procs[s.current].(state := P_BROKEN)]);
      ProcChangeKeeps(s, tag0, s1);
      UndisturbedTransitive(s0, tag0, s, tag0, s1, tag0);
      ResumeKeeps(s0, tag0, s1, tag0);
    } else if regs.intno == INT_SYS_YIELD {
      ScheduleKeeps(s, tag0);
      SameViewUndisturbed(s0, tag0, s, tag0, Schedule(s));
    } else if regs.intno == INT_TIMER {
      var s1 := s.(ticks := (s.ticks + 1) % 0x1_0000_0000);
      ProcChangeKeeps(s, tag0, s1);
      ScheduleKeeps(s1, tag0);
      SameViewUndisturbed(s0, tag0, s, tag0, Schedule(s1));
    }
  }

  lemma RunsOn(s: State, tag: Tags)
    requires Inv(s, tag)
    ensures s.current < NPROC
    ensures s.status.Running? ==> s.procs[s.current].state == P_RUNNABLE && s.procs[s.current].table != 0
  {
  }

  lemma ProcChangeKeeps(s: State, tag: Tags, s': State)
    requires Inv(s, tag) && s.status.Running? && s'.layout == s.layout && s'.store == s.store
    requires s'.current == s.current && s'.status == s.status && AllHaveTables(s.procs)
    requires forall i | 0 <= i < NPROC && i != s.current :: s'.procs[i] == s.procs[i]
    requires s'.procs[s.current] == s.procs[s.current].(regs := s'.procs[s.current].regs,
        state := s'.procs[s.current].state)
    requires s'.procs[s.current].state != P_FREE
    ensures Core(s', tag) && AllHaveTables(s'.procs) && OthersUndisturbed(s, tag, s', tag)
  {
    SameProcsCore(s, tag, s');
    SameStoreUndisturbed(s, tag, s');
  }

  /** A system call's own work, then back to user code. */
  lemma ResumeAfter(s0: State, s: State, tag: Tags, s1: State, tag1: Tags)
    requires OthersUndisturbed(s0, tag, s, tag) && s0.current == s.current < NPROC
    requires !s1.status.Panicked? ==> Inv(s1, tag1) && s1.status.Running? && OthersUndisturbed(s, tag, s1, tag1)
    requires s1.current < NPROC
    ensures Resume(s1).status.Panicked? <==> s1.status.Panicked?
    ensures !s1.status.Panicked? ==> Inv(Resume(s1), tag1) && OthersUndisturbed(s0, tag, Resume(s1), tag1)
  {
    if !s1.status.Panicked? {
      UndisturbedTransitive(s0, tag, s, tag, s1, tag1);
      ResumeKeeps(s0, tag, s1, tag1);
    }
  }
}
