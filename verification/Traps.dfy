/** What each interrupt does to a machine whose processes all have tables, number by number. */
module Traps {
  import opened Words
  import opened Pages
  import opened Paging
  import opened MapRanges
  import opened Budget
  import opened AddressSpaces
  import opened Forking
  import opened KernelState
  import opened Kernel
  import opened Invariant
  import opened Steps
  import opened Progress

  /** Once the checks have passed a trap is its switch. */
  lemma TrapIsDispatch(s: State, tag: Tags, regs: Registers)
    requires Inv(s, tag) && s.status.Running? && AllHaveTables(s.procs)
    requires regs.intno == 14 ==> UserFault(regs.err)
    ensures s.current < NPROC && Step(s, Trap(regs)) == Dispatch(Saved(s, regs), regs)
    ensures Inv(Saved(s, regs), tag) && AllHaveTables(Saved(s, regs).procs)
  {
    hide Inv, Exception, Dispatch, CheckVirtualMemory, SetPagetableOk, OthersUndisturbed, AllHaveTables, DispatchPanics,
        UserFault;
    RunsOn(s, tag);
    SavedKeeps(s, tag, regs);
    ExceptionShape(s, regs);
  }

  // ---- Whose turn it is ----

  function SlotAfter(c: nat, d: nat): nat {
    (c + d) % 16
  }

  predicate RunnableAfter(procs: Procs, c: nat, d: nat) {
    procs[SlotAfter(c, d)].state == P_RUNNABLE
  }

  /** Process q is d slots after c in cyclic order and the first runnable one there. */
  predicate FirstAfter(procs: Procs, c: nat, q: nat, d: nat) {
    q == SlotAfter(c, d) && RunnableAfter(procs, c, d) && forall e | 1 <= e < d :: !RunnableAfter(procs, c, e)
  }

  /** Process q is the first runnable one after c, in cyclic order, c itself coming last. */
  ghost predicate NextInTurn(procs: Procs, c: nat, q: nat) {
    exists d: nat :: 1 <= d <= 16 && FirstAfter(procs, c, q, d)
  }

  lemma SlotShifts(procs: Procs, c: nat, e: nat)
    ensures SlotAfter((c + 1) % 16, e) == SlotAfter(c, e + 1)
    ensures RunnableAfter(procs, (c + 1) % 16, e) == RunnableAfter(procs, c, e + 1)
  {
    var r := (c + 1) % 16;
    Remainder16(c + e + 1, (c + 1) / 16 + (r + e) / 16, (r + e) % 16);
  }

  lemma Remainder16(n: nat, q: nat, r: nat)
    requires n == 16 * q + r && r < 16
    ensures n % 16 == r
  {
  }

  lemma {:induction false} NextFound(procs: Procs, c: nat, n: nat)
    returns (d: nat)
    ensures match NextRunnable(procs, c, n)
      case None => forall e | 1 <= e <= n :: !RunnableAfter(procs, c, e)
      case Some(q) => 1 <= d <= n && FirstAfter(procs, c, q, d)
    decreases n
  {
    d := 1;
    if n > 0 && !RunnableAfter(procs, c, 1) {
      var c1 := (c + 1) % 16;
      var d1 := NextFound(procs, c1, n - 1);
      d := d1 + 1;
      forall e: nat | true
        ensures RunnableAfter(procs, c1, e) == RunnableAfter(procs, c, e + 1)
      {
        SlotShifts(procs, c, e);
      }
      SlotShifts(procs, c, d1);
      hide RunnableAfter;
      forall e | 1 <= e <= n && (e < d || NextRunnable(procs, c, n).None?)
        ensures !RunnableAfter(procs, c, e)
      {
        if e > 1 {
          assert !RunnableAfter(procs, c1, e - 1);
        }
      }
    }
  }

  lemma NobodyAfter(procs: Procs, c: nat)
    requires c < 16 && forall e | 1 <= e <= 16 :: !RunnableAfter(procs, c, e)
    ensures forall q | 0 <= q < 16 :: procs[q].state != P_RUNNABLE
  {
    forall q | 0 <= q < 16
      ensures procs[q].state != P_RUNNABLE
    {
      var e := if q > c then q - c else q + 16 - c;
      assert SlotAfter(c, e) == q && !RunnableAfter(procs, c, e);
    }
  }

  /** schedule gives the turn to the first runnable process after the current one, which it keeps only
      if it is the only one; with none runnable it turns for ever. */
  lemma SchedulePicks(s: State, tag: Tags)
    requires Core(s, tag) && AllHaveTables(s.procs)
    ensures s.current < NPROC
    ensures var s' := Schedule(s);
      if s'.status.Running? then NextInTurn(s.procs, s.current, s'.current) && s.procs[s'.current].state == P_RUNNABLE
      else s'.status.Spinning? && forall q | 0 <= q < 16 :: s.procs[q].state != P_RUNNABLE
  {
    CurrentPid(s, tag);
    var d := NextFound(s.procs, s.current, NPROC);
    NextRunnableFinds(s.procs, s.current, NPROC);
    hide NextRunnable, Core, RunnableAfter, SetPagetableOk, AllHaveTables;
    if NextRunnable(s.procs, s.current, NPROC).None? {
      NobodyAfter(s.procs, s.current);
    } else {
      RunKeepsCurrent(s, tag, NextRunnable(s.procs, s.current, NPROC).value);
    }
  }

  lemma CurrentPid(s: State, tag: Tags)
    requires Core(s, tag)
    ensures s.current < NPROC && s.procs[s.current].pid == s.current
  {
    assert ProcOk(s.store.mem, tag, s.procs[s.current], s.current);
  }

  lemma RunKeepsCurrent(s: State, tag: Tags, pid: nat)
    requires Core(s, tag) && AllHaveTables(s.procs) && pid < NPROC && s.procs[pid].state == P_RUNNABLE
    ensures Run(s, pid) == s.(current := pid, status := Running)
  {
    RunKeeps(s, tag, pid);
  }

  lemma SameTurn(procs: Procs, procs': Procs, c: nat, q: nat)
    requires forall i | 0 <= i < NPROC :: procs'[i].state == procs[i].state
    ensures NextInTurn(procs', c, q) <==> NextInTurn(procs, c, q)
  {
    assert forall e: nat :: RunnableAfter(procs', c, e) == RunnableAfter(procs, c, e);
    hide RunnableAfter;
    assert forall d: nat :: FirstAfter(procs', c, q, d) == FirstAfter(procs, c, q, d);
  }

  // ---- Page faults ----

  /** A page fault's error code: bit 0 for a protection problem, bit 1 for a write, bit 2 for user code,
      and any other bits. */
  predicate ErrorCode(err: nat, p: nat, w: nat, u: nat, r: nat) {
    p <= 1 && w <= 1 && u <= 1 && err == 8 * r + 4 * u + 2 * w + p
  }

  /** The fault is user code's exactly when bit 2 is set. */
  lemma FaultBits(err: nat, p: nat, w: nat, u: nat, r: nat)
    requires ErrorCode(err, p, w, u, r)
    ensures UserFault(err) <==> u == 1
  {
  }

  /** A page fault of user code, read or write, breaks the process that made it, touches no page and no
      other process, and never stops the machine; one of the kernel's own stops it. */
  lemma PageFaultBreaks(s: State, tag: Tags, regs: Registers, p: nat, w: nat, u: nat, r: nat)
    requires Inv(s, tag) && s.status.Running? && AllHaveTables(s.procs)
    requires regs.intno == 14 && ErrorCode(regs.err, p, w, u, r)
    ensures s.current < NPROC
    ensures var s' := Step(s, Trap(regs));
      if u == 1 then
        && !s'.status.Panicked? && s'.store == s.store && s'.ticks == s.ticks
        && s'.procs[s.current] == s.procs[s.current].(regs := regs, state := P_BROKEN)
        && (forall q | 0 <= q < NPROC && q != s.current :: s'.procs[q] == s.procs[q])
        && (s'.status.Running? ==> s'.current != s.current)
      else s'.status.Panicked?
  {
    FaultBits(regs.err, p, w, u, r);
    hide ErrorCode, UserFault, Inv, Step, AllHaveTables;
    FaultOutcome(s, tag, regs);
  }

  lemma FaultOutcome(s: State, tag: Tags, regs: Registers)
    requires Inv(s, tag) && s.status.Running? && AllHaveTables(s.procs) && regs.intno == 14
    ensures s.current < NPROC
    ensures var s' := Step(s, Trap(regs));
      if UserFault(regs.err) then
        && !s'.status.Panicked? && s'.store == s.store && s'.ticks == s.ticks
        && s'.procs[s.current] == s.procs[s.current].(regs := regs, state := P_BROKEN)
        && (forall q | 0 <= q < NPROC && q != s.current :: s'.procs[q] == s.procs[q])
        && (s'.status.Running? ==> s'.current != s.current)
      else s'.status.Panicked?
  {
    hide UserFault, Inv, Step, AllHaveTables;
    RunsOn(s, tag);
    if UserFault(regs.err) {
      UserFaultBreaks(s, tag, regs);
    } else {
      KernelFaultStops(s, tag, regs);
    }
  }

  lemma UserFaultBreaks(s: State, tag: Tags, regs: Registers)
    requires Inv(s, tag) && s.status.Running? && AllHaveTables(s.procs) && regs.intno == 14 && UserFault(regs.err)
    ensures s.current < NPROC
    ensures var s' := Step(s, Trap(regs));
      && !s'.status.Panicked? && s'.store == s.store && s'.ticks == s.ticks
      && s'.procs == s.procs[s.current := s.procs[s.current].(regs := regs, state := P_BROKEN)]
      && (s'.status.Running? ==> s'.current != s.current)
  {
    hide UserFault, Inv, Core, Step, Schedule, AllHaveTables, NextInTurn;
    TrapIsDispatch(s, tag, regs);
    RunsOn(s, tag);
    var s1 := Saved(s, regs);
    var s2 := s1.(procs := s1.procs[s1.current := s1.procs[s1.current].(state := P_BROKEN)]);
    ProcChangeKeeps(s1, tag, s2);
    ScheduleKeeps(s2, tag);
    SchedulePicks(s2, tag);
    BrokenSwitches(s1, regs);
  }

  lemma BrokenSwitches(s: State, regs: Registers)
    requires s.current < NPROC && s.status.Running? && regs.intno == 14 && UserFault(regs.err)
    ensures Dispatch(s, regs) == Schedule(s.(procs := s.procs[s.current := s.procs[s.current].(state := P_BROKEN)]))
  {
    hide Schedule, Run;
  }

  lemma KernelFaultStops(s: State, tag: Tags, regs: Registers)
    requires Inv(s, tag) && s.status.Running? && s.current < NPROC && regs.intno == 14 && !UserFault(regs.err)
    ensures Step(s, Trap(regs)).status.Panicked?
  {
    hide Inv, CheckVirtualMemory, SetPagetableOk;
  }

  // ---- The calls that only answer or switch ----

  /** sys_getpid answers the process's own number and changes nothing else. */
  lemma GetpidAnswers(s: State, tag: Tags, regs: Registers)
    requires Inv(s, tag) && s.status.Running? && AllHaveTables(s.procs) && regs.intno == 49
    ensures s.current < NPROC
    ensures Step(s, Trap(regs)) ==
      s.(procs := s.procs[s.current := s.procs[s.current].(regs := regs.(rax := s.current))])
  {
    hide Inv, Step, Resume, AllHaveTables;
    TrapIsDispatch(s, tag, regs);
    CurrentIsProcess(s, tag);
    RunsOn(s, tag);
    GetpidStays(Saved(s, regs), tag);
    ResumeIsRun(SetRax(Saved(s, regs), s.current, s.current));
  }

  lemma ResumeIsRun(s: State)
    requires s.current < NPROC && s.procs[s.current].state == P_RUNNABLE && s.status.Running?
    ensures Resume(s).status.Running? ==> Resume(s) == s
  {
    hide SetPagetableOk;
  }

  /** A yield or a timer interrupt saves the registers and gives the turn to the next runnable process;
      the timer also counts a tick. Nothing else changes. */
  lemma TurnEnds(s: State, tag: Tags, regs: Registers)
    requires Inv(s, tag) && s.status.Running? && AllHaveTables(s.procs) && regs.intno in {32, 50}
    ensures s.current < NPROC
    ensures var s' := Step(s, Trap(regs));
      && s'.status.Running? && NextInTurn(s.procs, s.current, s'.current)
      && s' == s.(procs := s.procs[s.current := s.procs[s.current].(regs := regs)], current := s'.current,
        ticks := if regs.intno == 32 then (s.ticks + 1) % 0x1_0000_0000 else s.ticks)
  {
    hide Inv, Step, Schedule, AllHaveTables, NextInTurn;
    TrapIsDispatch(s, tag, regs);
    RunsOn(s, tag);
    var s1 := Saved(s, regs);
    var s2 := if regs.intno == 32 then s1.(ticks := (s1.ticks + 1) % 0x1_0000_0000) else s1;
    ProcChangeKeeps(s1, tag, s2);
    ScheduleKeeps(s2, tag);
    SchedulePicks(s2, tag);
    SameTurn(s.procs, s2.procs, s.current, Schedule(s2).current);
  }

  // ---- Page requests and forks ----

  /** A page request or a fork that does not stop the machine is sys_page_alloc's or fork's own work on
      the saved registers; the caller goes on. */
  lemma CallReturns(s: State, tag: Tags, regs: Registers)
    requires Inv(s, tag) && s.status.Running? && AllHaveTables(s.procs) && regs.intno in {51, 52}
    requires regs.intno == 51 ==> RequestOk(s, regs.rdi)
    requires !Step(s, Trap(regs)).status.Panicked?
    ensures s.current < NPROC
    ensures Step(s, Trap(regs)) == if regs.intno == 51 then PageAlloc(Saved(s, regs)) else Fork(Saved(s, regs))
  {
    hide Inv, Step, PageAlloc, Fork, Resume, AllHaveTables, RequestOk;
    TrapIsDispatch(s, tag, regs);
    var s1 := Saved(s, regs);
    if regs.intno == 51 {
      RequestOkSaved(s, regs);
      var tag1 := PageAllocKeeps(s1, tag);
      CallResumes(PageAlloc(s1), tag1);
    } else {
      var tag1 := ForkKeeps(s1, tag);
      CallResumes(Fork(s1), tag1);
    }
  }

  lemma RequestOkSaved(s: State, regs: Registers)
    requires s.current < NPROC && RequestOk(s, regs.rdi)
    ensures RequestOk(Saved(s, regs), Saved(s, regs).procs[s.current].regs.rdi)
  {
    hide FreeCount;
  }

  lemma CallResumes(s: State, tag: Tags)
    requires s.current < NPROC && (!s.status.Panicked? ==> Inv(s, tag) && s.status.Running?)
    ensures Resume(s).status.Panicked? || Resume(s) == s
  {
    hide SetPagetableOk, CheckVirtualMemory;
    if !s.status.Panicked? {
      RunsOn(s, tag);
    }
  }

  /** sys_page_alloc's budget: an aligned request that RunOk allows answers 0 exactly when the page's
      index does not truncate to -1 and, besides a page, the tables missing on the way are free; it
      then takes exactly those. Otherwise it answers -1: with no page free nothing has changed, with
      the sentinel the page is gone, with too few tables all pages are. */
  lemma RequestBudget(s: State, tag: Tags)
    requires Inv(s, tag) && s.status.Running? && RequestOk(s, s.procs[s.current].regs.rdi)
    requires s.procs[s.current].regs.rdi % 4096 == 0
    ensures var p, s' := s.procs[s.current], PageAlloc(s);
      var v := p.regs.rdi / 4096;
      var free, tables := FreeCount(s.store.info), Missing(s.store.mem, p.table, 0, Canon(v));
      && (s'.procs[s.current].regs.rax == 0 <==> Group(v) != -1 && free >= 1 + tables)
      && (s'.procs[s.current].regs.rax != 0 ==> s'.procs[s.current].regs.rax == 0xFFFF_FFFF_FFFF_FFFF)
      && (free == 0 ==> s' == s.(procs := s'.procs))
      && FreeCount(s'.store.info) == (if free == 0 then 0 else if Group(v) == -1 then free - 1
        else if free >= 1 + tables then free - 1 - tables else 0)
      && (forall q | 0 <= q < NPROC && q != s.current :: s'.procs[q] == s.procs[q])
      && s'.procs[s.current] == p.(regs := p.regs.(rax := s'.procs[s.current].regs.rax))
  {
    hide Inv, Map, GetFree, FreeCount, Group, Missing, Canon;
    CurrentIsProcess(s, tag);
    NotFreeZero(s, tag);
    GetFreeTakesLowest(s.store.info, s.current);
    if FreeCount(s.store.info) > 0 {
      RequestMapBudget(s, tag);
    }
  }

  lemma NotFreeZero(s: State, tag: Tags)
    requires Inv(s, tag)
    ensures !IsFree(s.store.info[0])
  {
  }

  lemma RequestMapBudget(s: State, tag: Tags)
    requires Inv(s, tag) && s.status.Running? && GetFree(s.store.info, s.current).pn != 0
    ensures var p, g := s.procs[s.current], GetFree(s.store.info, s.current);
      var v := p.regs.rdi / 4096;
      var r := Map(Store(s.store.mem, g.info), p.table, v, g.pn, 1, PWU, Some(s.current));
      && !r.outcome.Panic?
      && (r.outcome.Done? <==>
        Group(v) != -1 && FreeCount(g.info) >= Missing(s.store.mem, p.table, 0, Canon(v)))
      && FreeCount(r.st.info) == (if Group(v) == -1 then FreeCount(g.info)
        else if r.outcome.Done? then FreeCount(g.info) - Missing(s.store.mem, p.table, 0, Canon(v)) else 0)
  {
    var p, g := s.procs[s.current], GetFree(s.store.info, s.current);
    var v := p.regs.rdi / 4096;
    CurrentIsProcess(s, tag);
    CoreParts(s, tag);
    WellFormedParts(s.store, tag);
    GetFreeTakesLowest(s.store.info, s.current);
    var st1 := Store(s.store.mem, g.info);
    assert Owned(st1.info, tag) && !IsFree(st1.info[0]);
    hide Inv, Core, WellFormed, Typed, Owned, Leaves, Map, MapOne, GetFree, FreeCount, Group, Missing;
    MapAnywhere(st1, p.table, v, g.pn, PWU, Some(s.current));
    MapOneBudget(st1, tag, p.table, s.current, Canon(v), g.pn, PWU);
    if Group(v) != -1 {
      var _ := MapOneAgrees(st1, tag, p.table, s.current, Canon(v), g.pn, PWU, Some(s.current));
    }
  }

  /** Every other interrupt number stops the machine. */
  lemma OtherInterruptsPanic(s: State, tag: Tags, regs: Registers)
    requires Inv(s, tag) && s.status.Running? && regs.intno !in {14, 32, 49, 50, 51, 52}
    ensures Step(s, Trap(regs)).status.Panicked?
  {
    RunsOn(s, tag);
    hide Inv, CheckVirtualMemory, SetPagetableOk;
  }
}
