/** Running out of memory: reachable states in which fork panics, or leaves a process without a table. */
module Exhaustion {
  import opened Words
  import opened Pages
  import opened Paging
  import opened AddressSpaces
  import opened KernelState
  import opened Kernel
  import opened Invariant
  import opened Steps
  import opened Runs
  import opened Loader
  import opened Boot

  /** The running process asks for page v. */
  function AskFor(s: State, v: nat): Event
    requires s.current < NPROC && v < VPAGES
  {
    Trap(s.procs[s.current].regs.(intno := INT_SYS_PAGE_ALLOC, rdi := v * PAGE_SIZE))
  }

  function CallFork(s: State): Event
    requires s.current < NPROC
  {
    Trap(s.procs[s.current].regs.(intno := INT_SYS_FORK))
  }

  /** The running process has page v mapped, a slot is free, and every process has a table. */
  ghost predicate CanDrain(s: State, tag: Tags, v: nat) {
    && Inv(s, tag) && s.status.Running? && AllHaveTables(s.procs) && FreeSlot(s.procs, 1) < NPROC
    && PROC_START <= v < VM_END && Lookup(s.store.mem, s.procs[s.current].table, v).Mapped?
  }

  lemma UserPageNumber(v: nat)
    requires PROC_START <= v < VM_END
    ensures v * PAGE_SIZE / PAGE_SIZE == v && v * PAGE_SIZE % PAGE_SIZE == 0 && Canon(v) == v && Group(v) != -1
  {
  }

  /** Asking again for a page it has costs a process one page of memory and changes nothing else. */
  lemma AskDrains(s: State, tag: Tags, v: nat)
    returns (tag': Tags)
    requires CanDrain(s, tag, v) && FreeCount(s.store.info) > 0
    ensures s.current < NPROC && EventOk(s, AskFor(s, v))
    ensures var s' := Step(s, AskFor(s, v));
      CanDrain(s', tag', v) && FreeCount(s'.store.info) == FreeCount(s.store.info) - 1
  {
    hide Core, Exception, PageAlloc, FreeSlot, FreeCount, Lookup, OthersUndisturbed, CheckVirtualMemory, SetPagetableOk,
        Inv, GetFree;
    UserPageNumber(v);
    RunsOn(s, tag);
    var regs := AskFor(s, v).regs;
    var s1 := Saved(s, regs);
    tag' := ExceptionKeeps(s, tag, regs);
    SavedKeeps(s, tag, regs);
    AllocShape(s, regs);
    MappedRequestMaps(s1, tag);
    var s' := PageAlloc(s1);
    AllocCurrent(s1);
    SameFreeSlot(s.procs, s'.procs, 1);
  }

  lemma AllocCurrent(s: State)
    requires s.current < NPROC
    ensures PageAlloc(s).current == s.current
  {
  }

  /** Whatever number of pages is free, a process can leave any smaller number. */
  lemma {:induction false} Drains(s: State, tag: Tags, v: nat, n: nat)
    returns (evs: seq<Event>, tag': Tags)
    requires CanDrain(s, tag, v) && n <= FreeCount(s.store.info)
    ensures RunOk(s, evs) && CanDrain(After(s, evs), tag', v)
    ensures FreeCount(After(s, evs).store.info) == FreeCount(s.store.info) - n
    decreases n
  {
    evs, tag' := [], tag;
    if n > 0 {
      hide CanDrain, FreeCount, EventOk, Step;
      var init;
      init, tag' := Drains(s, tag, v, n - 1);
      var t := After(s, init);
      tag' := AskDrains(t, tag', v);
      evs := init + [AskFor(t, v)];
      assert evs[..|evs| - 1] == init;
    }
  }

  // ---- fork with one to three pages free ----

  lemma ForkEvent(s: State, tag: Tags, v: nat)
    requires CanDrain(s, tag, v)
    ensures s.current < NPROC && EventOk(s, CallFork(s))
    ensures 1 <= FreeCount(s.store.info) <= 3 ==> Step(s, CallFork(s)).status.Panicked?
    ensures FreeCount(s.store.info) == 0 ==> !Step(s, CallFork(s)).status.Panicked?
  {
    hide Core, Exception, FreeSlot, FreeCount, Lookup, OthersUndisturbed, Inv;
    RunsOn(s, tag);
    var _ := ExceptionKeeps(s, tag, CallFork(s).regs);
  }

  /** From every state in which a process can drain memory, and some is left, there is a run that
      keeps the invariant and then panics in a fork with one page free. */
  lemma ForkPanicReached(s: State, tag: Tags, v: nat)
    returns (evs: seq<Event>, ev: Event)
    requires CanDrain(s, tag, v) && FreeCount(s.store.info) > 0
    ensures RunOk(s, evs) && After(s, evs).status.Running? && FreeCount(After(s, evs).store.info) == 1
    ensures EventOk(After(s, evs), ev) && IsTrap(ev, INT_SYS_FORK) && Step(After(s, evs), ev).status.Panicked?
  {
    hide FreeCount, Step, EventOk, Inv, FreeSlot;
    var tag';
    evs, tag' := Drains(s, tag, v, FreeCount(s.store.info) - 1);
    RunsOn(After(s, evs), tag');
    ev := CallFork(After(s, evs));
    ForkEvent(After(s, evs), tag', v);
  }

  // ---- fork with none ----

  /** A fork with no page free answers -1 and leaves the slot it chose runnable with a NULL table. */
  lemma ForkLeavesNull(s: State, tag: Tags, v: nat)
    requires CanDrain(s, tag, v) && FreeCount(s.store.info) == 0
    ensures var s' := Step(s, CallFork(s));
      var i := FreeSlot(s.procs, 1);
      && s'.status.Running? && s'.current == s.current && s'.procs[s.current].regs.rax == FAILED
      && i < NPROC && s'.procs[i].state == P_RUNNABLE && s'.procs[i].table == 0
  {
    hide Core, FreeSlot, FreeCount, Lookup, OthersUndisturbed, CheckVirtualMemory, SetPagetableOk, Inv, CopyTable,
        Fork, Exception, AllHaveTables;
    RunsOn(s, tag);
    ForkEvent(s, tag, v);
    var regs := CallFork(s).regs;
    var s1 := Saved(s, regs);
    SavedKeeps(s, tag, regs);
    SameFreeSlot(s.procs, s1.procs, 1);
    CurrentIsProcess(s1, tag);
    CoreParts(s1, tag);
    ForkShape(s1);
    var _ := CopyTableCopies(s1.store, tag, s1.procs[s1.current].table, s1.current, FreeSlot(s1.procs, 1));
    ForkReturns(s, regs);
  }

  lemma ForkReturns(s: State, regs: Registers)
    requires s.current < NPROC && regs.intno == INT_SYS_FORK && !Exception(s, regs).status.Panicked?
    requires var s' := Fork(Saved(s, regs)); s'.status.Running? && s'.procs[s.current].state == P_RUNNABLE
    ensures Exception(s, regs) == Fork(Saved(s, regs))
  {
    hide CheckVirtualMemory, SetPagetableOk, Fork;
  }

  /** A run that keeps the invariant up to a fork that answers -1 and leaves a process without a
      table: check_virtual_memory then fails, and whatever trap comes next panics. */
  lemma NullTableReached(s: State, tag: Tags, v: nat)
    returns (evs: seq<Event>)
    requires CanDrain(s, tag, v)
    ensures RunOk(s, evs) && After(s, evs).status.Running? && Sound(After(s, evs))
    ensures !AllHaveTables(After(s, evs).procs) && !CheckVirtualMemory(After(s, evs))
    ensures forall regs :: Step(After(s, evs), Trap(regs)).status.Panicked?
  {
    hide FreeCount, Step, EventOk, Inv, FreeSlot, CheckVirtualMemory;
    var init, tag1 := Drains(s, tag, v, FreeCount(s.store.info));
    var t := After(s, init);
    ForkEvent(t, tag1, v);
    ForkLeavesNull(t, tag1, v);
    evs := init + [CallFork(t)];
    assert evs[..|evs| - 1] == init;
    var tag2 := StepKeeps(t, tag1, CallFork(t));
    assert !AllHaveTables(After(s, evs).procs);
    NullTableStops(After(s, evs), tag2);
  }

  lemma NullTableStops(s: State, tag: Tags)
    requires Inv(s, tag) && s.status.Running? && !AllHaveTables(s.procs)
    ensures Sound(s) && !CheckVirtualMemory(s)
    ensures forall regs :: Step(s, Trap(regs)).status.Panicked?
  {
    CoreParts(s, tag);
    CheckPassesExactly(s, tag);
    forall regs | true
      ensures Step(s, Trap(regs)).status.Panicked?
    {
      NullTablePanics(s, tag, regs);
    }
  }

  /** Whatever the interrupt, a low page request included: the check before the switch fails. */
  lemma NullTablePanics(s: State, tag: Tags, regs: Registers)
    requires Inv(s, tag) && s.status.Running? && !AllHaveTables(s.procs)
    ensures Step(s, Trap(regs)).status.Panicked?
  {
    RunsOn(s, tag);
    SavedKeeps(s, tag, regs);
    ExceptionShape(s, regs);
    hide Inv, CheckVirtualMemory, SetPagetableOk, AllHaveTables, Saved, OthersUndisturbed, DispatchPanics, Exception,
        Dispatch;
    if regs.intno == INT_PAGEFAULT && !UserFault(regs.err) {
      KernelFaultPanics(Saved(s, regs), regs);
    }
  }

  // ---- From power-on ----

  lemma BootedCanDrain(mem: Memory, l: Layout, programs: seq<Program>)
    returns (tag: Tags)
    requires ValidLayout(l) && 1 <= |programs| < NPROC - 1 && ValidPrograms(programs)
    requires ImagesFit(AllSegments(programs))
    ensures var s := Start(mem, l, programs);
      CanDrain(s, tag, VM_END - 1) && FreeCount(s.store.info) > 0
  {
    hide Core, FreeCount, Start, InitialInfo, ImagesFit, ValidProgram, AllPlaced, NothingElse, Lookup;
    tag := KernelStarts(mem, l, programs);
    var s := Start(mem, l, programs);
    assert Prepared(s, tag, 1 + 0, programs[0]);
    forall i | 0 <= i < NPROC && s.procs[i].state != P_FREE
      ensures s.procs[i].table != 0
    {
      if 1 <= i <= |programs| {
        assert Prepared(s, tag, 1 + (i - 1), programs[i - 1]);
      } else {
        SlotZero(s, tag);
      }
    }
    assert s.procs[|programs| + 1].state == P_FREE;
  }

  lemma SlotZero(s: State, tag: Tags)
    requires Inv(s, tag)
    ensures s.procs[0].state == P_FREE
  {
  }

  /** Both states are reachable from power-on, whatever the programs, as long as they leave a slot. */
  lemma BootedExhaustion(mem: Memory, l: Layout, programs: seq<Program>)
    returns (evs: seq<Event>, ev: Event, evs0: seq<Event>)
    requires ValidLayout(l) && 1 <= |programs| < NPROC - 1 && ValidPrograms(programs)
    requires ImagesFit(AllSegments(programs))
    ensures var s := Start(mem, l, programs);
      && RunOk(s, evs) && After(s, evs).status.Running? && IsTrap(ev, INT_SYS_FORK)
      && EventOk(After(s, evs), ev) && Step(After(s, evs), ev).status.Panicked?
    ensures var t := After(Start(mem, l, programs), evs0);
      && RunOk(Start(mem, l, programs), evs0) && t.status.Running?
      && !AllHaveTables(t.procs) && !CheckVirtualMemory(t) && forall regs :: Step(t, Trap(regs)).status.Panicked?
  {
    hide Start, CanDrain, FreeCount, Step, EventOk, CheckVirtualMemory, ImagesFit, ValidProgram;
    var tag := BootedCanDrain(mem, l, programs);
    evs, ev := ForkPanicReached(Start(mem, l, programs), tag, VM_END - 1);
    evs0 := NullTableReached(Start(mem, l, programs), tag, VM_END - 1);
  }
}
