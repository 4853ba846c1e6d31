/** What a process finds of itself when it runs again: its registers and the pages it can reach. */
module Views {
  import opened Words
  import opened Pages
  import opened Paging
  import opened MapRanges
  import opened AddressSpaces
  import opened Forking
  import opened KernelState
  import opened Kernel
  import opened Invariant
  import opened Steps
  import opened ForkTheorem

  /** The content of page v of an address space. */
  function UserPage(mem: Memory, root: nat, v: nat): Option<Page> {
    match Lookup(mem, root, v)
    case Unmapped => None
    case Mapped(pn, _) => if pn < NPAGES then Some(mem[pn]) else None
  }

  function UserPages(mem: Memory, root: nat, lo: nat, hi: nat): (r: seq<Option<Page>>)
    requires lo <= hi
    ensures |r| == hi - lo && forall i | 0 <= i < hi - lo :: r[i] == UserPage(mem, root, lo + i)
  {
    seq(hi - lo, i requires 0 <= i < hi - lo => UserPage(mem, root, lo + i))
  }

  /** All a program can keep its state in: the registers other than rax, where calls put their answers,
      and the pages of the user range outside its heap. */
  datatype View = View(regs: Registers, below: seq<Option<Page>>, above: seq<Option<Page>>)

  /** The pages a program asks for with sys_page_alloc: from lo up to hi. */
  datatype HeapRange = HeapRange(lo: nat, hi: nat)

  predicate ValidRange(h: HeapRange) {
    PROC_START <= h.lo <= h.hi <= VM_END
  }

  function ViewOf(s: State, q: nat, h: HeapRange): View
    requires q < NPROC && ValidRange(h)
  {
    var p, mem := s.procs[q], s.store.mem;
    View(p.regs.(rax := 0), UserPages(mem, p.table, PROC_START, h.lo), UserPages(mem, p.table, h.hi, VM_END))
  }

  /** Equal registers but for rax, and equal pages outside the heap. */
  lemma ViewSame(s: State, q: nat, s': State, q': nat, h: HeapRange)
    requires q < NPROC && q' < NPROC && ValidRange(h)
    requires s'.procs[q'].regs.(rax := 0) == s.procs[q].regs.(rax := 0)
    requires forall v | PROC_START <= v < VM_END && (v < h.lo || h.hi <= v) ::
      UserPage(s'.store.mem, s'.procs[q'].table, v) == UserPage(s.store.mem, s.procs[q].table, v)
    ensures ViewOf(s', q', h) == ViewOf(s, q, h)
  {
    hide UserPage;
  }

  lemma ViewOfSameStore(s: State, s': State, q: nat, h: HeapRange)
    requires q < NPROC && ValidRange(h) && s'.store == s.store && s'.procs[q].table == s.procs[q].table
    requires s'.procs[q].regs.(rax := 0) == s.procs[q].regs.(rax := 0)
    ensures ViewOf(s', q, h) == ViewOf(s, q, h)
  {
    hide UserPage;
  }

  /** Noninterference: a process that has not run finds everything as it left it. */
  lemma ViewUndisturbed(s: State, tag: Tags, s': State, tag': Tags, q: nat, h: HeapRange)
    requires Core(s, tag) && HasOwnTable(s, q) && Undisturbed(s, tag, s', tag', q) && ValidRange(h)
    ensures ViewOf(s', q, h) == ViewOf(s, q, h)
  {
    var root := s.procs[q].table;
    assert ProcOk(s.store.mem, tag, s.procs[q], q);
    forall v | PROC_START <= v < VM_END
      ensures UserPage(s'.store.mem, root, v) == UserPage(s.store.mem, root, v)
    {
      UserLookup(s.store, tag, root, q, v);
    }
    hide Core, Undisturbed;
    ViewSame(s, q, s', q, h);
  }

  /** A successful fork: parent and child both find what the parent had, but for rax. */
  lemma ViewForked(s: State, tag: Tags, h: HeapRange)
    requires Inv(s, tag) && s.status.Running? && ForkSucceeded(s) && ValidRange(h)
    ensures ViewOf(Fork(s), s.current, h) == ViewOf(s, s.current, h)
    ensures ViewOf(Fork(s), FreeSlot(s.procs, 1), h) == ViewOf(s, s.current, h)
  {
    var i, s' := FreeSlot(s.procs, 1), Fork(s);
    var root := s.procs[s.current].table;
    CurrentIsProcess(s, tag);
    CoreParts(s, tag);
    ForkCopiesProcess(s, tag);
    hide Fork, Inv, Core;
    forall v | PROC_START <= v < VM_END
      ensures UserPage(s'.store.mem, root, v) == UserPage(s.store.mem, root, v)
      ensures UserPage(s'.store.mem, s'.procs[i].table, v) == UserPage(s.store.mem, root, v)
    {
      UserLookup(s.store, tag, root, s.current, v);
      OwnedInUse(s.store, tag);
      assert SamePage(s, s', i, v);
    }
    hide SamePage, UserPage;
    ViewSame(s, s.current, s', s.current, h);
    ViewSame(s, s.current, s', i, h);
  }

  lemma OwnedInUse(st: Store, tag: Tags)
    requires WellFormed(st, tag)
    ensures forall p | p in tag :: p < NPAGES && !IsFree(st.info[p])
  {
  }

  // ---- Page requests ----

  /** What a page request at user page v means for the process that makes it. */
  ghost predicate Allocated(s: State, tag: Tags, s': State, tag': Tags, v: nat)
    requires s.current < NPROC && s'.current < NPROC
  {
    var table, rax := s.procs[s.current].table, s'.procs[s.current].regs.rax;
    && s'.procs[s.current] == s.procs[s.current].(regs := s.procs[s.current].regs.(rax := rax))
    && Grows(s.store, tag, s'.store, tag', s.current)
    && rax in {0, FAILED}
    && (rax == 0 ==> UserWritable(Lookup(s'.store.mem, table, v)))
    && SameOutside(s.store.mem, s'.store.mem, tag, s.current, v, if rax == 0 then v + 1 else v)
  }

  lemma PageAllocGives(s: State, tag: Tags, v: nat)
    returns (tag': Tags)
    requires Inv(s, tag) && s.status.Running? && !PageAlloc(s).status.Panicked?
    requires PROC_START <= v < VM_END && s.procs[s.current].regs.rdi == v * PAGE_SIZE
    ensures Allocated(s, tag, PageAlloc(s), tag', v)
  {
    hide Map, GetFree, Inv, Core, WellFormed, Grows, SameOutside, Lookup, KernelMapped;
    CurrentIsProcess(s, tag);
    CoreParts(s, tag);
    assert v * PAGE_SIZE / PAGE_SIZE == v && v * PAGE_SIZE % PAGE_SIZE == 0 && Canon(v) == v;
    tag' := tag;
    if GetFree(s.store.info, s.current).pn == 0 {
      NoPageGrows(s, tag, v);
    } else {
      tag' := RequestMaps(s, tag);
    }
  }

  lemma NoPageGrows(s: State, tag: Tags, v: nat)
    requires Core(s, tag) && 1 <= s.current < NPROC && GetFree(s.store.info, s.current).pn == 0
    ensures var st' := Store(s.store.mem, GetFree(s.store.info, s.current).info);
      Grows(s.store, tag, st', tag, s.current) && SameOutside(s.store.mem, st'.mem, tag, s.current, v, v)
  {
    GetFreeTakesLowest(s.store.info, s.current);
  }

  /** Asking for a page of its heap leaves a process's view as it was. */
  lemma ViewAllocated(s: State, tag: Tags, s': State, tag': Tags, v: nat, h: HeapRange)
    requires Core(s, tag) && s.current < NPROC && HasOwnTable(s, s.current) && s'.current == s.current
    requires Allocated(s, tag, s', tag', v) && ValidRange(h) && h.lo <= v < h.hi
    ensures ViewOf(s', s.current, h) == ViewOf(s, s.current, h)
  {
    var root := s.procs[s.current].table;
    assert ProcOk(s.store.mem, tag, s.procs[s.current], s.current);
    OwnedInUse(s.store, tag);
    forall x | PROC_START <= x < VM_END && (x < h.lo || h.hi <= x)
      ensures UserPage(s'.store.mem, root, x) == UserPage(s.store.mem, root, x)
    {
      UserLookup(s.store, tag, root, s.current, x);
    }
    hide Core, Grows, SameOutside, Lookup;
    ViewSame(s, s.current, s', s.current, h);
  }

  // ---- Traps ----

  /** The traps that only answer or switch leave the view the trap was taken with. */
  lemma QuietTrapView(s: State, regs: Registers, h: HeapRange)
    requires s.current < NPROC && !Exception(s, regs).status.Panicked? && ValidRange(h)
    requires regs.intno in {INT_SYS_GETPID, INT_SYS_YIELD, INT_TIMER}
    ensures var s1, s' := Saved(s, regs), Exception(s, regs);
      && s'.store == s.store
      && (forall q | 0 <= q < NPROC && q != s.current :: s'.procs[q] == s.procs[q])
      && s'.procs[s.current] == s1.procs[s.current].(regs := s'.procs[s.current].regs)
      && s'.procs[s.current].regs.rax ==
        (if regs.intno == INT_SYS_GETPID then s.procs[s.current].pid % 0x1_0000_0000_0000_0000 else regs.rax)
      && ViewOf(s', s.current, h) == ViewOf(s1, s.current, h)
  {
    hide CheckVirtualMemory, SetPagetableOk, NextRunnable, UserPage, UserPages;
  }
}
