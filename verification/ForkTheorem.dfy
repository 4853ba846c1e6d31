/** What fork promises its caller: exactly when it succeeds, and what parent and child then have. */
module ForkTheorem {
  import opened Words
  import opened Pages
  import opened Paging
  import opened MapRanges
  import opened AddressSpaces
  import opened Forking
  import opened KernelState
  import opened Kernel
  import opened Invariant
  import opened Steps

  /** fork succeeded for the current process. */
  predicate ForkSucceeded(s: State)
    requires s.current < NPROC
  {
    FreeSlot(s.procs, 1) < NPROC && !Fork(s).status.Panicked?
        && Fork(s).procs[s.current].regs.rax == FreeSlot(s.procs, 1)
  }

  /** Page v as the child sees it after the call, against the parent before it. */
  ghost predicate SamePage(s: State, s': State, child: nat, v: nat)
    requires s.current < NPROC && child < NPROC
  {
    var from := Lookup(s.store.mem, s.procs[s.current].table, v);
    var to := Lookup(s'.store.mem, s'.procs[child].table, v);
    && (from.Mapped? <==> to.Mapped?)
    && (from.Mapped? ==>
      && to.perm == from.perm
      && from.pn < NPAGES && to.pn < NPAGES
      && IsFree(s.store.info[to.pn]) && s'.store.info[to.pn] == PageInfo(child, 1)
      && s'.store.mem[to.pn] == s.store.mem[from.pn])
  }

  lemma ForkOutcome(s: State, tag: Tags)
    returns (tag': Tags)
    requires Inv(s, tag) && s.status.Running? && FreeSlot(s.procs, 1) < NPROC && FreeCount(s.store.info) >= 4
    ensures var i := FreeSlot(s.procs, 1);
      var s' := Fork(s);
      && SlotFilled(s, s', i) && s'.procs[i].table != 0 && !s'.status.Panicked? && i != s.current
      && (ForkSucceeded(s) <==> FreeCount(s.store.info) >= ForkCost(s.store.mem, s.procs[s.current].table))
      && (!ForkSucceeded(s) ==> s'.procs[s.current].regs.rax == FAILED)
      && (ForkSucceeded(s) ==>
        && s'.procs[i].regs.rax == 0
        && FreeCount(s'.store.info) == FreeCount(s.store.info) - ForkCost(s.store.mem, s.procs[s.current].table)
        && RangeForked(s.store, s.procs[s.current].table, s'.store.mem, tag', s'.procs[i].table, i, PROC_START))
      && WellFormed(s'.store, tag') && Grows(s.store, tag, s'.store, tag', i)
      && SameOutside(s.store.mem, s'.store.mem, tag, i, 0, VM_END)
      && KernelMapped(s'.store.mem, s'.procs[i].table)
      && (forall v | VM_END <= v < VPAGES :: Lookup(s'.store.mem, s'.procs[i].table, v) == Unmapped)
  {
    var i := FreeSlot(s.procs, 1);
    CurrentIsProcess(s, tag);
    CoreParts(s, tag);
    ForkShape(s);
    hide Grows, SameOutside, KernelMapped, RangeForked, FreeCount, CopyTable, ForkLoop, ForkCost, WellFormed, Fork,
        Inv, SlotFilled;
    tag' := ForkCopies(s.store, tag, s.procs[s.current].table, s.current, i);
  }

  lemma CostsFour(mem: Memory, src: nat)
    ensures ForkCost(mem, src) >= 4
  {
  }

  /** fork succeeds exactly when a slot from 1 up is free and so are 4 + w + e pages: four tables,
      one for each of the parent's w writable user pages, and one more if any of them is at or above
      0x200000. It fills the lowest free slot, takes exactly those pages, and otherwise answers -1. */
  lemma ForkBudget(s: State, tag: Tags)
    requires Inv(s, tag) && s.status.Running?
    ensures ForkSucceeded(s) <==>
      FreeSlot(s.procs, 1) < NPROC && FreeCount(s.store.info) >= ForkCost(s.store.mem, s.procs[s.current].table)
    ensures ForkSucceeded(s) ==>
      FreeCount(Fork(s).store.info) == FreeCount(s.store.info) - ForkCost(s.store.mem, s.procs[s.current].table)
    ensures !ForkSucceeded(s) && !Fork(s).status.Panicked? ==> Fork(s).procs[s.current].regs.rax == FAILED
  {
    hide ForkCost, FreeCount, Core, WellFormed;
    CurrentIsProcess(s, tag);
    var i := FreeSlot(s.procs, 1);
    if i < NPROC {
      CostsFour(s.store.mem, s.procs[s.current].table);
      if FreeCount(s.store.info) >= 4 {
        var _ := ForkOutcome(s, tag);
      } else {
        ForkShape(s);
        CoreParts(s, tag);
        hide Fork, CopyTable, ForkLoop;
        var _ := CopyTableCopies(s.store, tag, s.procs[s.current].table, s.current, i);
      }
    }
  }

  /** A successful fork: the child's user range maps the same pages with the same rights to fresh
      pages of its own with the parent's contents, its kernel range is the parent's, nothing else is
      mapped, its registers are the parent's but for rax; the parent keeps its registers but for rax,
      its translation and all its pages. */
  lemma ForkCopiesProcess(s: State, tag: Tags)
    requires Inv(s, tag) && s.status.Running? && ForkSucceeded(s)
    ensures var i := FreeSlot(s.procs, 1);
      var s' := Fork(s);
      var parent := s.procs[s.current].table;
      && s'.procs[i].state == P_RUNNABLE && s'.procs[i].pid == i
      && s'.procs[i].regs == s.procs[s.current].regs.(rax := 0)
      && s'.procs[s.current] == s.procs[s.current].(regs := s.procs[s.current].regs.(rax := i))
      && (forall v | PROC_START <= v < VM_END :: SamePage(s, s', i, v))
      && (forall v | 0 <= v < PROC_START ::
        Lookup(s'.store.mem, s'.procs[i].table, v) == Lookup(s.store.mem, parent, v))
      && (forall v | VM_END <= v < VPAGES :: Lookup(s'.store.mem, s'.procs[i].table, v) == Unmapped)
      && (forall v | 0 <= v < VPAGES :: Lookup(s'.store.mem, parent, v) == Lookup(s.store.mem, parent, v))
      && (forall p | 0 <= p < NPAGES && !IsFree(s.store.info[p]) ::
        s'.store.mem[p] == s.store.mem[p] && s'.store.info[p] == s.store.info[p])
  {
    ForkBudget(s, tag);
    var i := FreeSlot(s.procs, 1);
    var s' := Fork(s);
    var parent := s.procs[s.current].table;
    CurrentIsProcess(s, tag);
    CoreParts(s, tag);
    var tag' := ForkOutcome(s, tag);
    NoPagesYet(s, tag, i);
    hide Fork, CopyTable, ForkLoop, Inv;
    forall v | 0 <= v < VPAGES
      ensures Lookup(s'.store.mem, parent, v) == Lookup(s.store.mem, parent, v)
    {
      assert IsRoot(tag, parent, s.current);
    }
    forall v | PROC_START <= v < VM_END
      ensures SamePage(s, s', i, v)
    {
      UserLookup(s.store, tag, parent, s.current, v);
      assert PageForked(s.store, parent, s'.store.mem, tag', s'.procs[i].table, i, v);
    }
    forall p | 0 <= p < NPAGES && !IsFree(s.store.info[p])
      ensures s'.store.mem[p] == s.store.mem[p] && s'.store.info[p] == s.store.info[p]
    {
      assert p in tag ==> tag[p].space != i;
    }
  }

  /** A fork that has found a slot but not enough pages answers -1 and leaves the slot in use: a
      runnable process with the parent's registers as they were saved, rax included. */
  lemma FailedFork(s: State, tag: Tags)
    requires Inv(s, tag) && s.status.Running? && FreeSlot(s.procs, 1) < NPROC
    requires !ForkSucceeded(s) && !Fork(s).status.Panicked?
    ensures var i, s' := FreeSlot(s.procs, 1), Fork(s);
      && s'.procs[i].state == P_RUNNABLE && s'.procs[i].pid == i && s'.procs[i].regs == s.procs[s.current].regs
      && s'.procs[s.current] == s.procs[s.current].(regs := s.procs[s.current].regs.(rax := 0xFFFF_FFFF_FFFF_FFFF))
      && (forall j | 0 <= j < NPROC && j != i && j != s.current :: s'.procs[j] == s.procs[j])
  {
    CurrentIsProcess(s, tag);
    RunsOn(s, tag);
    ForkShape(s);
    FailedChild(s);
    hide Inv, Fork, CopyTable, ForkLoop;
  }

  lemma FailedChild(s: State)
    requires s.current < NPROC && FreeSlot(s.procs, 1) < NPROC && FreeSlot(s.procs, 1) != s.current
    requires !ForkSucceeded(s) && !Fork(s).status.Panicked?
    ensures Fork(s).procs[s.current].regs.rax == 0xFFFF_FFFF_FFFF_FFFF
    ensures Fork(s).procs[FreeSlot(s.procs, 1)].regs == s.procs[s.current].regs
  {
    hide CopyTable, ForkLoop;
  }

  /** A free slot owns no page. */
  lemma NoPagesYet(s: State, tag: Tags, i: nat)
    requires Core(s, tag) && 1 <= i < NPROC && s.procs[i].state == P_FREE
    ensures forall p | p in tag :: tag[p].space != i
  {
  }
}
