/** Things that only move one way: page owners, process states, and the turn to run. */
module Progress {
  import opened Words
  import opened Pages
  import opened Paging
  import opened MapRanges
  import opened AddressSpaces
  import opened Forking
  import opened KernelState
  import opened Kernel
  import opened Invariant
  import opened Steps
  import opened Runs

  // ---- Owners ----

  /** A page once assigned keeps its owner and its count, and pages are taken lowest first: below a
      page that has been taken none is free. */
  ghost predicate LowestTaken(info: Info, info': Info) {
    && (forall p | 0 <= p < NPAGES :: !IsFree(info[p]) ==> info'[p] == info[p])
    && (forall p, q | 0 <= q < p < NPAGES && info'[p] != info[p] :: !IsFree(info'[q]))
  }

  lemma NothingTaken(info: Info)
    ensures LowestTaken(info, info)
  {
  }

  lemma GetFreeOwners(info: Info, owner: int)
    ensures LowestTaken(info, GetFree(info, owner).info)
  {
  }

  lemma TakenInTurn(info: Info, info1: Info, info2: Info)
    requires LowestTaken(info, info1) && LowestTaken(info1, info2)
    ensures LowestTaken(info, info2)
  {
    forall p, q | 0 <= q < p < NPAGES && info2[p] != info[p]
      ensures !IsFree(info2[q])
    {
      if info1[p] != info[p] {
        assert !IsFree(info1[q]);
      }
    }
  }

  lemma {:induction false} WalkOwners(st: Store, pt: nat, level: nat, v: nat, perm: Flags, alloc: Option<int>)
    requires pt < NPAGES && level <= 3
    ensures LowestTaken(st.info, WalkFrom(st, pt, level, v, perm, alloc).st.info)
    decreases 3 - level
  {
    hide GetFree, Link, Index, LowestTaken;
    NothingTaken(st.info);
    if level < 3 {
      var e := st.mem[pt][Index(v, level)];
      if e.flags.p {
        if e.frame < NPAGES {
          WalkOwners(st, e.frame, level + 1, v, perm, alloc);
        }
      } else if perm.p && alloc.Some? {
        var a := AllocTable(st, alloc.value);
        GetFreeOwners(st.info, alloc.value);
        if a.pn != 0 {
          var st1 := Store(Link(a.st.mem, pt, Index(v, level), a.pn), a.st.info);
          WalkOwners(st1, a.pn, level + 1, v, perm, alloc);
          TakenInTurn(st.info, st1.info, WalkFrom(st1, a.pn, level + 1, v, perm, alloc).st.info);
        }
      }
    }
  }

  lemma MapOwners(st: Store, root: nat, v: nat, pn: nat, perm: Flags, alloc: Option<int>)
    requires root < NPAGES
    ensures LowestTaken(st.info, Map(st, root, v, pn, 1, perm, alloc).st.info)
  {
    hide WalkFrom, LowestTaken;
    NothingTaken(st.info);
    WalkOwners(st, root, 0, Canon(v), perm, alloc);
  }

  lemma {:induction false} CopyOwners(st: Store, src: nat, dst: nat, v: nat, owner: int)
    requires dst < NPAGES && v <= PROC_START
    ensures LowestTaken(st.info, CopyLoop(st, src, dst, v, owner).st.info)
    decreases PROC_START - v
  {
    hide Map, Lookup, LowestTaken;
    NothingTaken(st.info);
    if v < PROC_START {
      match Lookup(st.mem, src, v)
      case Unmapped => CopyOwners(st, src, dst, v + 1, owner);
      case Mapped(pn, perm) =>
        var r := Map(st, dst, v, pn, 1, perm, Some(owner));
        MapOwners(st, dst, v, pn, perm, Some(owner));
        CopyOwners(r.st, src, dst, v + 1, owner);
        TakenInTurn(st.info, r.st.info, CopyLoop(r.st, src, dst, v + 1, owner).st.info);
    }
  }

  lemma ForkPageOwners(st: Store, src: nat, dst: nat, v: nat, owner: int)
    requires dst < NPAGES
    ensures LowestTaken(st.info, ForkPage(st, src, dst, v, owner).st.info)
  {
    hide Map, Lookup, LowestTaken, GetFree;
    NothingTaken(st.info);
    var m := Lookup(st.mem, src, v);
    if m.Mapped? && m.perm.w {
      var g := GetFree(st.info, owner);
      GetFreeOwners(st.info, owner);
      if g.pn != 0 {
        var st1 := Store(st.mem[g.pn := PageAt(st.mem, m.pn)], g.info);
        MapOwners(st1, dst, v, g.pn, m.perm, Some(owner));
        TakenInTurn(st.info, g.info, Map(st1, dst, v, g.pn, 1, m.perm, Some(owner)).st.info);
      }
    }
  }

  lemma {:induction false} ForkLoopOwners(st: Store, src: nat, dst: nat, v: nat, owner: int)
    requires dst < NPAGES && v <= VM_END
    ensures LowestTaken(st.info, ForkLoop(st, src, dst, v, owner).st.info)
    decreases VM_END - v
  {
    hide ForkPage, LowestTaken;
    NothingTaken(st.info);
    if v < VM_END {
      var st1 := ForkPage(st, src, dst, v, owner).st;
      ForkPageOwners(st, src, dst, v, owner);
      ForkLoopOwners(st1, src, dst, v + 1, owner);
      TakenInTurn(st.info, st1.info, ForkLoop(st1, src, dst, v + 1, owner).st.info);
    }
  }

  lemma PageAllocOwners(s: State)
    requires s.current < NPROC
    ensures LowestTaken(s.store.info, PageAlloc(s).store.info)
  {
    hide Map, GetFree, LowestTaken;
    var p := s.procs[s.current];
    var g := GetFree(s.store.info, p.pid);
    var st1 := Store(s.store.mem, g.info);
    GetFreeOwners(s.store.info, p.pid);
    MapOwners(st1, p.table, p.regs.rdi / PAGE_SIZE, g.pn, PWU, Some(p.pid));
    TakenInTurn(s.store.info, g.info, Map(st1, p.table, p.regs.rdi / PAGE_SIZE, g.pn, 1, PWU, Some(p.pid)).st.info);
  }

  lemma CopyTableOwners(st: Store, src: nat, owner: int)
    ensures LowestTaken(st.info, CopyTable(st, src, owner).st.info)
  {
    hide CopyLoop, GetFree, LowestTaken;
    var a := AllocTable(st, owner);
    GetFreeOwners(st.info, owner);
    CopyOwners(a.st, src, a.pn, 0, owner);
    TakenInTurn(st.info, a.st.info, CopyLoop(a.st, src, a.pn, 0, owner).st.info);
  }

  lemma ForkOwners(s: State)
    requires s.current < NPROC
    ensures LowestTaken(s.store.info, Fork(s).store.info)
  {
    hide CopyTable, ForkLoop, LowestTaken, FreeSlot;
    NothingTaken(s.store.info);
    var i := FreeSlot(s.procs, 1);
    if i < NPROC {
      var table := s.procs[s.current].table;
      var c := CopyTable(s.store, table, i);
      CopyTableOwners(s.store, table, i);
      ForkLoopOwners(c.st, table, c.root, PROC_START, i);
      TakenInTurn(s.store.info, c.st.info, ForkLoop(c.st, table, c.root, PROC_START, i).st.info);
      assert Fork(s).store.info in {c.st.info, ForkLoop(c.st, table, c.root, PROC_START, i).st.info};
    }
  }

  lemma ResumeView(s: State)
    requires s.current < NPROC
    ensures Resume(s).store == s.store && Resume(s).procs == s.procs
    ensures Schedule(s).store == s.store && Schedule(s).procs == s.procs
  {
    hide SetPagetableOk, NextRunnable;
  }

  /** Nothing but the current descriptor changed, and it kept its state or broke. */
  ghost predicate OnlyCurrent(s: State, s': State)
    requires s.current < NPROC
  {
    && s'.store == s.store
    && (forall i | 0 <= i < NPROC && i != s.current :: s'.procs[i] == s.procs[i])
    && (s'.procs[s.current].state == s.procs[s.current].state || s'.procs[s.current].state == P_BROKEN)
  }

  /** What a trap does to owners and descriptors is what one of its system calls does, or nothing
      but a change to the current descriptor. */
  lemma TrapView(s: State, regs: Registers)
    requires s.current < NPROC
    ensures var s1, s' := Saved(s, regs), Exception(s, regs);
      || (s'.store == PageAlloc(s1).store && s'.procs == PageAlloc(s1).procs)
      || (s'.store == Fork(s1).store && s'.procs == Fork(s1).procs)
      || OnlyCurrent(s, s')
  {
    hide PageAlloc, Fork, CheckVirtualMemory, SetPagetableOk, Dispatch;
    DispatchView(s, Saved(s, regs), regs);
  }

  lemma DispatchView(s0: State, s: State, regs: Registers)
    requires s.current == s0.current < NPROC && OnlyCurrent(s0, s)
    ensures var s' := Dispatch(s, regs);
      || (s'.store == PageAlloc(s).store && s'.procs == PageAlloc(s).procs)
      || (s'.store == Fork(s).store && s'.procs == Fork(s).procs)
      || OnlyCurrent(s0, s')
  {
    hide PageAlloc, Fork, Resume, Schedule;
    if regs.intno == INT_SYS_PAGE_ALLOC {
      ResumeView(PageAlloc(s));
    } else if regs.intno == INT_SYS_FORK {
      ResumeView(Fork(s));
    } else if regs.intno == INT_SYS_GETPID {
      ResumeView(SetRax(s, s.current, s.procs[s.current].pid % 0x1_0000_0000_0000_0000));
    } else if regs.intno == INT_PAGEFAULT {
      ResumeView(s.(procs := s.procs[s.current := s.procs[s.current].(state := P_BROKEN)]));
    } else if regs.intno == INT_TIMER {
      ResumeView(s.(ticks := (s.ticks + 1) % 0x1_0000_0000));
    } else {
      ResumeView(s);
    }
  }

  /** No event, on any state, takes a page from its owner, or a page while a lower one is free. */
  lemma StepOwners(s: State, ev: Event)
    ensures LowestTaken(s.store.info, Step(s, ev).store.info)
  {
    NothingTaken(s.store.info);
    hide LowestTaken;
    if s.status.Running? && s.current < NPROC && ev.Trap? {
      hide PageAlloc, Fork, Exception;
      TrapView(s, ev.regs);
      PageAllocOwners(Saved(s, ev.regs));
      ForkOwners(Saved(s, ev.regs));
    }
  }

  /** Conservation over every run, guarded or not: an assigned page keeps its owner for good, and
      while a page is free no page above it is ever taken. */
  lemma {:induction false} RunOwners(s: State, evs: seq<Event>)
    ensures LowestTaken(s.store.info, After(s, evs).store.info)
    decreases |evs|
  {
    hide LowestTaken, Step;
    if evs == [] {
      NothingTaken(s.store.info);
    } else {
      var s1 := After(s, evs[..|evs| - 1]);
      RunOwners(s, evs[..|evs| - 1]);
      StepOwners(s1, evs[|evs| - 1]);
      TakenInTurn(s.store.info, s1.store.info, After(s, evs).store.info);
    }
  }

  // ---- Process states ----

  /** A slot stays as it is, is filled, or its process breaks; slot 0 is never filled. */
  ghost predicate StatesAdvance(procs: Procs, procs': Procs) {
    forall i | 0 <= i < NPROC ::
      || procs'[i].state == procs[i].state
      || (procs[i].state == P_FREE && procs'[i].state == P_RUNNABLE && i != 0)
      || (procs[i].state != P_FREE && procs'[i].state == P_BROKEN)
  }

  lemma PageAllocStates(s: State)
    requires s.current < NPROC
    ensures StatesAdvance(s.procs, PageAlloc(s).procs)
  {
    hide Map, GetFree;
  }

  lemma ForkStates(s: State)
    requires s.current < NPROC && s.procs[s.current].state != P_FREE
    ensures StatesAdvance(s.procs, Fork(s).procs)
  {
    if FreeSlot(s.procs, 1) < NPROC {
      ForkShape(s);
      hide Fork;
    }
  }

  lemma StepStates(s: State, ev: Event)
    requires s.status.Running? && s.current < NPROC ==> s.procs[s.current].state != P_FREE
    ensures StatesAdvance(s.procs, Step(s, ev).procs)
  {
    hide Exception;
    if s.status.Running? && s.current < NPROC && ev.Trap? {
      TrapStates(s, ev.regs);
    }
  }

  lemma TrapStates(s: State, regs: Registers)
    requires s.current < NPROC && s.procs[s.current].state != P_FREE
    ensures StatesAdvance(s.procs, Exception(s, regs).procs)
  {
    hide PageAlloc, Fork, Exception;
    TrapView(s, regs);
    PageAllocStates(Saved(s, regs));
    ForkStates(Saved(s, regs));
  }

  // ---- Round robin ----

  /** Slots strictly between c and q in the order schedule tries them. */
  function Distance(c: nat, q: nat): (d: nat)
    requires c < NPROC && q < NPROC
    ensures d < NPROC
  {
    (q + NPROC - c - 1) % NPROC
  }

  /** schedule picks q, or somebody nearer to q. */
  lemma {:induction false} NextIsNearer(procs: Procs, c: nat, q: nat, n: nat)
    requires c < NPROC && q < NPROC && procs[q].state == P_RUNNABLE && Distance(c, q) < n
    ensures var r := NextRunnable(procs, c, n);
      r.Some? && (r.value == q || Distance(r.value, q) < Distance(c, q))
    decreases n
  {
    var next := (c + 1) % NPROC;
    if next != q {
      assert Distance(next, q) == Distance(c, q) - 1;
      if procs[next].state != P_RUNNABLE {
        NextIsNearer(procs, next, q, n - 1);
      }
    }
  }

  /** The traps that end the running process's turn: timer, yield, and its own page fault. */
  predicate EndsTurn(ev: Event) {
    && ev.Trap?
    && (|| ev.regs.intno in {INT_TIMER, INT_SYS_YIELD}
        || (ev.regs.intno == INT_PAGEFAULT && UserFault(ev.regs.err)))
  }

  lemma TurnPasses(s: State, tag: Tags, q: nat)
    requires Core(s, tag) && AllHaveTables(s.procs) && q < NPROC && s.procs[q].state == P_RUNNABLE
    ensures Schedule(s).status.Running? && Schedule(s).current < NPROC
    ensures Schedule(s).current == q || Distance(Schedule(s).current, q) < Distance(s.current, q)
  {
    assert ProcOk(s.store.mem, tag, s.procs[s.current], s.current);
    NextIsNearer(s.procs, s.current, q, NPROC);
    ScheduleKeeps(s, tag);
    NextRunnableFinds(s.procs, s.current, NPROC);
    RunKeeps(s, tag, NextRunnable(s.procs, s.current, NPROC).value);
  }

  /** An event that ends the turn brings a waiting process nearer; any other leaves the same process
      running. */
  lemma StepTurns(s: State, tag: Tags, ev: Event, q: nat)
    requires Inv(s, tag) && s.status.Running? && EventOk(s, ev) && !Step(s, ev).status.Panicked?
    requires HasOwnTable(s, q) && s.procs[q].state == P_RUNNABLE && q != s.current
    ensures var s' := Step(s, ev);
      && s'.status.Running? && s'.current < NPROC
      && (if EndsTurn(ev) then s'.current == q || Distance(s'.current, q) < Distance(s.current, q)
          else s'.current == s.current)
  {
    if ev.Trap? {
      SavedKeeps(s, tag, ev.regs);
      var _ := ExceptionKeeps(s, tag, ev.regs);
      TrapTurns(s, tag, Saved(s, ev.regs), ev.regs, q);
    }
  }

  lemma SavedRegs(s: State, regs: Registers)
    requires s.current < NPROC
    ensures Saved(s, regs).procs[s.current] == s.procs[s.current].(regs := regs)
    ensures Saved(s, regs).status == s.status && Saved(s, regs).current == s.current
  {
  }

  lemma TrapTurns(s0: State, tag: Tags, s: State, regs: Registers, q: nat)
    requires Inv(s0, tag) && s0.status.Running? && s == Saved(s0, regs) && Inv(s, tag) && AllHaveTables(s.procs)
    requires regs.intno == INT_SYS_PAGE_ALLOC ==> RequestOk(s, regs.rdi)
    requires !Dispatch(s, regs).status.Panicked?
    requires q < NPROC && q != s.current && s.procs[q].state == P_RUNNABLE
    ensures var s' := Dispatch(s, regs);
      && s'.status.Running? && s'.current < NPROC
      && (if EndsTurn(Trap(regs)) then s'.current == q || Distance(s'.current, q) < Distance(s.current, q)
          else s'.current == s.current)
  {
    hide PageAlloc, Fork, Core, Inv, Schedule, Resume, Distance, AllHaveTables, CheckVirtualMemory, FreeCount,
        OthersUndisturbed, Saved, SetPagetableOk, FreeSlot;
    RunsOn(s0, tag);
    SavedRegs(s0, regs);
    CoreParts(s, tag);
    if regs.intno == INT_TIMER {
      var s1 := s.(ticks := (s.ticks + 1) % 0x1_0000_0000);
      ProcChangeKeeps(s, tag, s1);
      TurnPasses(s1, tag, q);
    } else if regs.intno == INT_SYS_YIELD {
      TurnPasses(s, tag, q);
    } else if regs.intno == INT_PAGEFAULT {
      var s1 := s.(procs := s.procs[s.current := s.procs[s.current].(state := P_BROKEN)]);
      ProcChangeKeeps(s, tag, s1);
      BrokenSchedules(s1);
      TurnPasses(s1, tag, q);
    } else if regs.intno == INT_SYS_PAGE_ALLOC {
      var tag' := PageAllocKeeps(s, tag);
      ResumeStays(PageAlloc(s), tag');
    } else if regs.intno == INT_SYS_FORK {
      var tag' := ForkKeeps(s, tag);
      ResumeStays(Fork(s), tag');
    } else if regs.intno == INT_SYS_GETPID {
      GetpidStays(s, tag);
    }
  }

  lemma BrokenSchedules(s: State)
    requires s.current < NPROC && s.status.Running? && s.procs[s.current].state == P_BROKEN
    ensures Resume(s) == Schedule(s)
  {
  }

  lemma ResumeStays(s: State, tag: Tags)
    requires s.current < NPROC && (!s.status.Panicked? ==> Inv(s, tag) && s.status.Running?)
    ensures s.status.Panicked? ==> Resume(s).status.Panicked?
    ensures !s.status.Panicked? ==> Resume(s).status.Running? && Resume(s).current == s.current
  {
    if !s.status.Panicked? {
      RunKeeps(s, tag, s.current);
    }
  }

  lemma GetpidStays(s: State, tag: Tags)
    requires Inv(s, tag) && s.status.Running? && AllHaveTables(s.procs)
    ensures var s1 := SetRax(s, s.current, s.procs[s.current].pid % 0x1_0000_0000_0000_0000);
      Resume(s1).status.Running? && Resume(s1).current == s.current
  {
    var s1 := SetRax(s, s.current, s.procs[s.current].pid % 0x1_0000_0000_0000_0000);
    ProcChangeKeeps(s, tag, s1);
    ResumeStays(s1, tag);
  }

  function Turns(evs: seq<Event>): nat {
    if evs == [] then 0 else Turns(evs[..|evs| - 1]) + if EndsTurn(evs[|evs| - 1]) then 1 else 0
  }

  /** A runnable process waits for no more than the slots between: while it has not run, the turns
      that have ended and the distance left add up to no more than the distance at the start, which
      is below NPROC - 1, whatever is forked meanwhile. */
  lemma {:induction false} WaitIsBounded(s: State, tag: Tags, evs: seq<Event>, q: nat)
    returns (tag': Tags)
    requires Inv(s, tag) && s.status.Running? && HasOwnTable(s, q) && s.procs[q].state == P_RUNNABLE
    requires Without(s, evs, q) && RunOk(s, evs) && q != s.current
    requires !After(s, evs).status.Panicked? && After(s, evs).current != q
    ensures Inv(After(s, evs), tag') && Undisturbed(s, tag, After(s, evs), tag', q)
    ensures After(s, evs).status.Running? && After(s, evs).current < NPROC
    ensures Turns(evs) + Distance(After(s, evs).current, q) <= Distance(s.current, q) < NPROC - 1
    decreases |evs|
  {
    hide Inv, Without, Step;
    tag' := RunUndisturbed(s, tag, evs, q);
    WaitStarts(s, tag, q);
    if evs != [] {
      var init, ev := evs[..|evs| - 1], evs[|evs| - 1];
      WithoutPrefix(s, evs, q);
      var tag1 := WaitIsBounded(s, tag, init, q);
      StepTurns(After(s, init), tag1, ev, q);
    }
  }

  lemma WaitStarts(s: State, tag: Tags, q: nat)
    requires Inv(s, tag) && q < NPROC && q != s.current
    ensures s.current < NPROC && Distance(s.current, q) < NPROC - 1
  {
  }
}
