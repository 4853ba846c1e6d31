/** Whole runs: the invariant, the kernel's checks, isolation and progress. */
module Runs {
  import opened Words
  import opened Pages
  import opened Paging
  import opened MapRanges
  import opened Budget
  import opened AddressSpaces
  import opened Forking
  import opened KernelState
  import opened Kernel
  import opened Invariant
  import opened Steps

  /** The only events a run must avoid: while a page is free, page-aligned page requests that decode
      below PROC_START_ADDR. */
  predicate EventOk(s: State, ev: Event) {
    s.status.Running? && IsTrap(ev, INT_SYS_PAGE_ALLOC) ==> RequestOk(s, ev.regs.rdi)
  }

  /** A run in which every event is such where it happens. */
  predicate RunOk(s: State, evs: seq<Event>)
    decreases |evs|
  {
    evs != [] ==> RunOk(s, evs[..|evs| - 1]) && EventOk(After(s, evs[..|evs| - 1]), evs[|evs| - 1])
  }

  lemma StepKeeps(s: State, tag: Tags, ev: Event)
    returns (tag': Tags)
    requires Inv(s, tag) && EventOk(s, ev)
    ensures var s' := Step(s, ev);
      !s'.status.Panicked? || s.status.Panicked? ==> Inv(s', tag')
    ensures var s' := Step(s, ev);
      !s'.status.Panicked? ==> OthersUndisturbed(s, tag, s', tag')
  {
    tag' := tag;
    if s.status.Running? {
      match ev
      case Write(va, w) => StoreKeeps(s, tag, va, w);
      case Trap(regs) => tag' := ExceptionKeeps(s, tag, regs);
    } else {
      SameStoreUndisturbed(s, tag, s);
    }
  }

  /** In every state a run reaches without panicking, the invariant holds. */
  lemma {:induction false} RunKeepsInv(s: State, tag: Tags, evs: seq<Event>)
    returns (tag': Tags)
    requires Inv(s, tag) && !s.status.Panicked? && RunOk(s, evs)
    ensures !After(s, evs).status.Panicked? ==> Inv(After(s, evs), tag')
    decreases |evs|
  {
    tag' := tag;
    if evs != [] {
      var init := evs[..|evs| - 1];
      tag' := RunKeepsInv(s, tag, init);
      if !After(s, init).status.Panicked? {
        tag' := StepKeeps(After(s, init), tag', evs[|evs| - 1]);
      }
    }
  }

  // ---- The kernel's assertions over runs ----

  /** In every state a run reaches, check_virtual_memory and every set_pagetable pass, unless a
      failed fork has left a process without a table: that and nothing else makes the check fail. */
  lemma {:induction false} RunPassesChecks(s: State, tag: Tags, evs: seq<Event>)
    requires Inv(s, tag) && !s.status.Panicked? && RunOk(s, evs)
    requires !After(s, evs).status.Panicked?
    ensures var s' := After(s, evs);
      && (CheckVirtualMemory(s') <==> AllHaveTables(s'.procs))
      && (forall pid | 0 <= pid < NPROC && s'.procs[pid].state != P_FREE && s'.procs[pid].table != 0 ::
        SetPagetableOk(s'.store.mem, s'.layout, s'.procs[pid].table))
  {
    var tag' := RunKeepsInv(s, tag, evs);
    var s' := After(s, evs);
    CheckPassesExactly(s', tag');
    forall pid | 0 <= pid < NPROC && s'.procs[pid].state != P_FREE && s'.procs[pid].table != 0
      ensures SetPagetableOk(s'.store.mem, s'.layout, s'.procs[pid].table)
    {
      RunnablePasses(s', tag', pid);
    }
  }

  /** A running machine panics at its next event exactly for the reasons PanicCause lists. */
  lemma {:induction false} RunPanicsExactly(s: State, tag: Tags, evs: seq<Event>, ev: Event)
    requires Inv(s, tag) && RunOk(s, evs) && EventOk(After(s, evs), ev) && After(s, evs).status.Running?
    requires !s.status.Panicked?
    ensures After(s, evs).current < NPROC
    ensures Step(After(s, evs), ev).status.Panicked? <==> ev.Trap? && PanicCause(After(s, evs), ev.regs)
  {
    var tag' := RunKeepsInv(s, tag, evs);
    match ev
    case Write(va, w) => StoreKeeps(After(s, evs), tag', va, w);
    case Trap(regs) => var _ := ExceptionKeeps(After(s, evs), tag', regs);
  }

  // ---- Isolation ----

  /** Can user code of process q see physical page pn, through virtual page v? */
  predicate UserSees(s: State, q: nat, v: nat, pn: nat) {
    HasOwnTable(s, q) && var m := Lookup(s.store.mem, s.procs[q].table, v); m.Mapped? && m.perm.u && m.pn == pn
  }

  lemma UserSeesOwn(s: State, tag: Tags, q: nat, v: nat, pn: nat)
    requires Core(s, tag) && UserSees(s, q, v, pn) && v < VPAGES
    ensures pn == CONSOLE || (pn < NPAGES && pn in tag && tag[pn] == Frame(q, v))
  {
    assert ProcOk(s.store.mem, tag, s.procs[q], q);
    if v < PROC_START {
      assert Lookup(s.store.mem, s.procs[q].table, v) == Mapped(v, KernelFlags(v));
    } else {
      UserLookup(s.store, tag, s.procs[q].table, q, v);
    }
  }

  lemma {:induction false} ReachedIsTable(mem: Memory, tag: Tags, pt: nat, level: nat, q: nat)
    requires Typed(mem, tag) && level <= 3 && IsNode(tag, pt, level) && Reached(mem, pt, level, q)
    ensures q in tag && tag[q].Table? && tag[q].space == tag[pt].space
    decreases 3 - level
  {
    if q != pt {
      var i :| 0 <= i < NENTRIES && Read(mem, pt, i) != ZERO && Reached(mem, Read(mem, pt, i).frame, level + 1, q);
      assert NodeOk(mem, tag, pt);
      assert LinkOk(mem[pt][i], tag, tag[pt].space, level + 1, tag[pt].prefix * NENTRIES + i);
      ReachedIsTable(mem, tag, mem[pt][i].frame, level + 1, q);
    }
  }

  /** Isolation in every reachable state: a physical page seen by user code of two processes, or
      seen twice by one, is the console; what user code sees is neither kernel nor reserved memory
      nor a page-table page of anybody; and every page it sees it owns. */
  lemma {:induction false} RunIsolates(s: State, tag: Tags, evs: seq<Event>, p: nat, v: nat, q: nat, w: nat, pn: nat)
    requires Inv(s, tag) && !s.status.Panicked? && RunOk(s, evs)
    requires !After(s, evs).status.Panicked? && v < VPAGES && w < VPAGES
    requires UserSees(After(s, evs), p, v, pn) && pn != CONSOLE
    ensures var s' := After(s, evs);
      && pn < NPAGES && s'.store.info[pn] == PageInfo(p, 1)
      && pn != 0 && !(0xA0 <= pn < 0x100)
      && pn != 0x7F && !(0x40 <= pn && pn * 4096 < s'.layout.end)
      && (UserSees(s', q, w, pn) ==> q == p && w == v)
      && !Reached(s'.store.mem, s'.layout.kpt, 0, pn)
      && (HasOwnTable(s', q) ==> !Reached(s'.store.mem, s'.procs[q].table, 0, pn))
  {
    var tag' := RunKeepsInv(s, tag, evs);
    var s' := After(s, evs);
    UserSeesOwn(s', tag', p, v, pn);
    if UserSees(s', q, w, pn) {
      UserSeesOwn(s', tag', q, w, pn);
    }
    if Reached(s'.store.mem, s'.layout.kpt, 0, pn) {
      ReachedIsTable(s'.store.mem, tag', s'.layout.kpt, 0, pn);
    }
    if HasOwnTable(s', q) && Reached(s'.store.mem, s'.procs[q].table, 0, pn) {
      assert ProcOk(s'.store.mem, tag', s'.procs[q], q);
      ReachedIsTable(s'.store.mem, tag', s'.procs[q].table, 0, pn);
    }
  }

  // ---- The missing guard of page requests ----

  /** A page-aligned request below PROC_START_ADDR breaks the kernel range of the process whenever a
      page is free: the machine panics or no longer satisfies the invariant. */
  lemma LowRequestBreaks(s: State, tag: Tags, tag': Tags)
    requires Inv(s, tag) && s.status.Running? && !RequestOk(s, s.procs[s.current].regs.rdi)
    ensures PageAlloc(s).status.Panicked? || !Inv(PageAlloc(s), tag')
  {
    CurrentIsProcess(s, tag);
    hide Typed, Owned, Leaves, Map, WellFormed, Core;
    var s' := PageAlloc(s);
    var p := s.procs[s.current];
    var v := Canon(p.regs.rdi / PAGE_SIZE);
    LowRequestMaps(s, tag);
    if !s'.status.Panicked? && Inv(s', tag') {
      ConsoleInUse(s, tag);
      CurrentIsProcess(s', tag');
      KernelMappedAt(s'.store.mem, p.table, v);
      assert false;
    }
  }

  lemma ConsoleInUse(s: State, tag: Tags)
    requires Core(s, tag)
    ensures !IsFree(s.store.info[CONSOLE]) && !IsFree(s.store.info[0])
  {
    assert InitialOwner(s.layout, CONSOLE) == RESERVED;
  }

  lemma LowCanonGroup(v: nat)
    requires Canon(v) < NENTRIES
    ensures Group(v) != -1
  {
    var d, c := v / VPAGES, Canon(v);
    assert v == VPAGES * d + c && VPAGES == 0x800_0000 * NENTRIES;
    Div512(v, 0x800_0000 * d, c);
    assert v / NENTRIES == 0x800_0000 * d;
  }

  /** A page-aligned request for a page that is mapped already: with a page free it takes exactly
      that page and maps it in place of the old one. */
  lemma MappedRequestMaps(s: State, tag: Tags)
    requires Inv(s, tag) && s.status.Running? && FreeCount(s.store.info) > 0
    requires var p := s.procs[s.current];
      && p.regs.rdi % PAGE_SIZE == 0 && Group(p.regs.rdi / PAGE_SIZE) != -1
      && Lookup(s.store.mem, p.table, Canon(p.regs.rdi / PAGE_SIZE)).Mapped?
    ensures var p := s.procs[s.current];
      var v := Canon(p.regs.rdi / PAGE_SIZE);
      var pn := GetFree(s.store.info, s.current).pn;
      var s' := PageAlloc(s);
      && pn != 0 && IsFree(s.store.info[pn]) && FreeCount(s'.store.info) == FreeCount(s.store.info) - 1
      && s'.procs[s.current] == p.(regs := p.regs.(rax := 0)) && s'.status == s.status
      && (forall i | 0 <= i < NPROC && i != s.current :: s'.procs[i] == s.procs[i])
      && Lookup(s'.store.mem, p.table, v) == Mapped(pn, PWU)
  {
    hide Core, Map, GetFree, FreeCount, KernelMapped, Lookup;
    CurrentIsProcess(s, tag);
    CoreParts(s, tag);
    PageZeroInUse(s, tag);
    GetFreeTakesLowest(s.store.info, s.current);
    PresentMaps(s, tag);
  }

  /** The map of such a request. */
  lemma PresentMaps(s: State, tag: Tags)
    requires Inv(s, tag) && s.status.Running? && GetFree(s.store.info, s.current).pn != 0
    requires var p := s.procs[s.current];
      Group(p.regs.rdi / PAGE_SIZE) != -1 && Lookup(s.store.mem, p.table, Canon(p.regs.rdi / PAGE_SIZE)).Mapped?
    ensures var p, g := s.procs[s.current], GetFree(s.store.info, s.current);
      var r := Map(Store(s.store.mem, g.info), p.table, p.regs.rdi / PAGE_SIZE, g.pn, 1, PWU, Some(s.current));
      && r.outcome.Done? && r.st.info == g.info
      && Lookup(r.st.mem, p.table, Canon(p.regs.rdi / PAGE_SIZE)) == Mapped(g.pn, PWU)
  {
    var p := s.procs[s.current];
    var v := Canon(p.regs.rdi / PAGE_SIZE);
    CurrentIsProcess(s, tag);
    GetFreeTakesLowest(s.store.info, s.current);
    var g := GetFree(s.store.info, s.current);
    var st1 := Store(s.store.mem, g.info);
    MapAnywhere(st1, p.table, p.regs.rdi / PAGE_SIZE, g.pn, PWU, Some(s.current));
    CoreParts(s, tag);
    WellFormedParts(s.store, tag);
    assert Owned(st1.info, tag);
    hide Typed, Owned, Leaves, Map, MapOne, WellFormed, Core, Grows, SameOutside, LeafDelta, FreeCount;
    LookupIsLeaf(s.store.mem, tag, p.table, 0, v);
    MissingNone(s.store.mem, p.table, 0, v);
    MapOnePresent(st1, tag, p.table, s.current, v, g.pn, PWU, Some(s.current));
    var _ := MapOneAgrees(st1, tag, p.table, s.current, v, g.pn, PWU, Some(s.current));
  }

  /** The leaf table of the kernel range exists, so a low request is always mapped. */
  lemma LowRequestMaps(s: State, tag: Tags)
    requires Inv(s, tag) && s.status.Running? && !RequestOk(s, s.procs[s.current].regs.rdi)
    ensures var p := s.procs[s.current];
      var v := Canon(p.regs.rdi / PAGE_SIZE);
      var pn := GetFree(s.store.info, s.current).pn;
      && pn != 0 && IsFree(s.store.info[pn]) && PageAlloc(s).procs[s.current].table == p.table
      && Lookup(PageAlloc(s).store.mem, p.table, v) == Mapped(pn, PWU)
  {
    hide Inv, FreeCount, PageAlloc;
    CurrentIsProcess(s, tag);
    LowCanonGroup(s.procs[s.current].regs.rdi / PAGE_SIZE);
    KernelMappedAt(s.store.mem, s.procs[s.current].table, Canon(s.procs[s.current].regs.rdi / PAGE_SIZE));
    MappedRequestMaps(s, tag);
  }

  /** Exactly which page requests the running process may make: with a page free, those that are
      page-aligned and decode at or above PROC_START_ADDR; with none free, any. */
  lemma RequestKeepsExactly(s: State, tag: Tags)
    requires Inv(s, tag) && s.status.Running?
    ensures var addr := s.procs[s.current].regs.rdi;
      !PageAlloc(s).status.Panicked? && (exists tag' :: Inv(PageAlloc(s), tag')) <==>
        FreeCount(s.store.info) == 0 || (addr % PAGE_SIZE == 0 && Canon(addr / PAGE_SIZE) >= PROC_START)
  {
    var addr := s.procs[s.current].regs.rdi;
    CurrentIsProcess(s, tag);
    if FreeCount(s.store.info) == 0 {
      GetFreeTakesLowest(s.store.info, s.current);
      SameProcsCore(s, tag, PageAlloc(s));
      assert Inv(PageAlloc(s), tag);
    } else {
      hide Inv, PageAlloc, FreeCount;
      if RequestOk(s, addr) {
        var tag' := PageAllocKeeps(s, tag);
      } else {
        forall tag' | true
          ensures PageAlloc(s).status.Panicked? || !Inv(PageAlloc(s), tag')
        {
          LowRequestBreaks(s, tag, tag');
        }
      }
    }
  }

  /** A page request that does not panic returns to the process that made it. */
  lemma AllocShape(s: State, regs: Registers)
    requires s.current < NPROC && regs.intno == INT_SYS_PAGE_ALLOC && !Exception(s, regs).status.Panicked?
    requires s.procs[s.current].state == P_RUNNABLE && s.status.Running?
    ensures Exception(s, regs) == PageAlloc(Saved(s, regs))
  {
    hide CheckVirtualMemory, SetPagetableOk, PageAlloc, NextRunnable;
    PageAllocRuns(Saved(s, regs));
  }

  lemma PageAllocRuns(s: State)
    requires s.current < NPROC
    ensures PageAlloc(s).procs[s.current].state == s.procs[s.current].state
    ensures PageAlloc(s).status == s.status || PageAlloc(s).status.Panicked?
  {
    hide Map, GetFree;
  }

  /** An event that is not such loses the invariant in the very next state, or panics. */
  lemma UnguardedLeaves(s: State, tag: Tags, ev: Event, tag': Tags)
    requires Inv(s, tag) && !EventOk(s, ev) && !Step(s, ev).status.Panicked?
    ensures !Inv(Step(s, ev), tag')
  {
    hide Inv, PageAlloc, Exception, CheckVirtualMemory, SetPagetableOk, DispatchPanics, AllHaveTables,
        OthersUndisturbed;
    RunsOn(s, tag);
    SavedKeeps(s, tag, ev.regs);
    AllocShape(s, ev.regs);
    LowRequestBreaks(Saved(s, ev.regs), tag, tag');
  }

  lemma {:induction false} RunningBefore(s: State, evs: seq<Event>)
    requires evs != [] && !After(s, evs).status.Panicked?
    ensures !After(s, evs[..|evs| - 1]).status.Panicked?
  {
    hide UserStore, Exception;
  }

  /** The invariant holds under some tags. */
  ghost predicate Sound(s: State) {
    exists tag :: Inv(s, tag)
  }

  /** In every state a run passes through the invariant holds exactly when every page request it
      makes while a page is free is unaligned or decodes at or above PROC_START_ADDR. */
  lemma {:induction false} RunKeepsExactly(s: State, tag: Tags, evs: seq<Event>)
    requires Inv(s, tag) && !s.status.Panicked? && !After(s, evs).status.Panicked?
    ensures RunOk(s, evs) <==> forall k | 0 <= k <= |evs| :: Sound(After(s, evs[..k]))
    decreases |evs|
  {
    hide Inv, Step, EventOk;
    assert evs[..|evs|] == evs;
    if evs == [] {
      assert Sound(s);
    } else {
      var init, ev := evs[..|evs| - 1], evs[|evs| - 1];
      RunningBefore(s, evs);
      RunKeepsExactly(s, tag, init);
      assert forall k | 0 <= k <= |init| :: init[..k] == evs[..k];
      if RunOk(s, init) {
        var tag1 := RunKeepsInv(s, tag, init);
        if EventOk(After(s, init), ev) {
          var tag2 := RunKeepsInv(s, tag, evs);
          assert Sound(After(s, evs));
        } else {
          forall tag' | true
            ensures !Inv(After(s, evs), tag')
          {
            UnguardedLeaves(After(s, init), tag1, ev, tag');
          }
          assert !Sound(After(s, evs[..|evs|]));
        }
      } else {
        var k :| 0 <= k <= |init| && !Sound(After(s, init[..k]));
        assert !Sound(After(s, evs[..k]));
      }
    }
  }

  // ---- Noninterference over runs ----

  /** The machine runs all of evs without process q ever being the one that runs. */
  ghost predicate Without(s: State, evs: seq<Event>, q: nat) {
    forall k | 0 <= k < |evs| :: After(s, evs[..k]).status.Running? && After(s, evs[..k]).current != q
  }

  lemma {:induction false} WithoutPrefix(s: State, evs: seq<Event>, q: nat)
    requires evs != [] && Without(s, evs, q)
    ensures Without(s, evs[..|evs| - 1], q)
    ensures After(s, evs[..|evs| - 1]).status.Running? && After(s, evs[..|evs| - 1]).current != q
  {
    var init := evs[..|evs| - 1];
    forall k | 0 <= k < |init|
      ensures After(s, init[..k]).status.Running? && After(s, init[..k]).current != q
    {
      assert init[..k] == evs[..k];
    }
  }

  /** However long the other processes run, and whatever they do, a process finds its registers,
      its address space and the contents of its pages as it left them. */
  lemma {:induction false} RunUndisturbed(s: State, tag: Tags, evs: seq<Event>, q: nat)
    returns (tag': Tags)
    requires Inv(s, tag) && HasOwnTable(s, q) && Without(s, evs, q) && RunOk(s, evs)
    requires !s.status.Panicked? && !After(s, evs).status.Panicked?
    ensures Inv(After(s, evs), tag') && Undisturbed(s, tag, After(s, evs), tag', q)
    decreases |evs|
  {
    tag' := tag;
    if evs != [] {
      var init, ev := evs[..|evs| - 1], evs[|evs| - 1];
      WithoutPrefix(s, evs, q);
      hide Inv, Step, Without;
      var tag1 := RunUndisturbed(s, tag, init, q);
      var s1, s' := After(s, init), After(s, evs);
      tag' := StepKeeps(s1, tag1, ev);
      UndisturbedAlso(s, tag, s1, tag1, s', tag', q);
    }
  }

  lemma UndisturbedAlso(s: State, tag: Tags, s1: State, tag1: Tags, s': State, tag': Tags, q: nat)
    requires HasOwnTable(s, q) && q != s1.current
    requires Undisturbed(s, tag, s1, tag1, q) && OthersUndisturbed(s1, tag1, s', tag')
    ensures Undisturbed(s, tag, s', tag', q)
  {
    assert Undisturbed(s1, tag1, s', tag', q);
  }
}
