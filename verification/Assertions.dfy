/** What it takes to pass the kernel's own assertions, on any memory and in any state whatever. */
module Assertions {
  import opened Words
  import opened Pages
  import opened Paging
  import opened KernelState
  import opened Kernel
  import opened Loader

  // ---- Page-table entries ----

  /** The bits of an entry: bit 0 present, bit 1 writable, bit 2 user, bits 12 and up the frame. */
  lemma EntryBits(w: Word)
    ensures Value(w) < 0x1_0000_0000_0000_0000 && Value(w) / 4096 == w.frame
    ensures Value(w) % 2 == 1 <==> w.flags.p
    ensures Value(w) / 2 % 2 == 1 <==> w.flags.w
    ensures Value(w) / 4 % 2 == 1 <==> w.flags.u
  {
    WordRoundTrip(w, 0);
    FlagsRoundTrip(w.flags);
    FlagBits(w.flags);
    var f := FlagsValue(w.flags);
    hide FlagsValue;
    LowBits(w.frame, f);
  }

  lemma FlagBits(f: Flags)
    ensures FlagsValue(f) % 2 == 1 <==> f.p
    ensures FlagsValue(f) / 2 % 2 == 1 <==> f.w
    ensures FlagsValue(f) / 4 % 2 == 1 <==> f.u
  {
    var n := FlagsValue(f);
    assert n / 4 == 2 * f.rest + Bit(f.u);
    assert n / 2 == 2 * (2 * f.rest + Bit(f.u)) + Bit(f.w);
    assert n == 2 * (4 * f.rest + 2 * Bit(f.u) + Bit(f.w)) + Bit(f.p);
  }

  lemma LowBits(frame: nat, f: nat)
    requires f < 4096
    ensures var n := frame * 4096 + f;
      n / 4096 == frame && n % 2 == f % 2 && n / 2 % 2 == f / 2 % 2 && n / 4 % 2 == f / 4 % 2
  {
    var n := frame * 4096 + f;
    Halves(f, f / 2, f % 2);
    Halves(f / 2, f / 4, f / 2 % 2);
    Halves(f / 4, f / 8, f / 4 % 2);
    Halves(n, 2048 * frame + f / 2, f % 2);
    Halves(2048 * frame + f / 2, 1024 * frame + f / 4, f / 2 % 2);
    Halves(1024 * frame + f / 4, 512 * frame + f / 8, f / 4 % 2);
    Quarter(n);
  }

  lemma Halves(n: nat, q: nat, r: nat)
    requires n == 2 * q + r && r < 2
    ensures n / 2 == q && n % 2 == r
  {
  }

  lemma Quarter(n: nat)
    ensures n / 4 == n / 2 / 2
  {
  }

  // ---- The walk ----

  /** Mapping a page stores `pa | perm` in its entry of the leaf table, and without PTE_P the rights
      alone. */
  lemma {:induction false} EntryStored(st: Store, root: nat, v: nat, pn: nat, perm: Flags, alloc: Option<int>)
    requires root < NPAGES && (perm.p ==> pn < NPAGES) && WalkFrom(st, root, 0, v, perm, alloc).walk.Leaf?
    ensures var q, r := WalkFrom(st, root, 0, v, perm, alloc).walk.pt, MapOne(st, root, v, pn, perm, alloc);
      r.outcome.Done? && q < 512
      && Value(r.st.mem[q][v % 512]) == (if perm.p then pn * 4096 else 0) + FlagsValue(perm)
  {
    hide WalkFrom, FlagsValue;
  }

  /** The entry of page v's path at a level is present but no link that the request may go through:
      it points outside memory, or lacks a right that is asked for. */
  predicate BadLink(mem: Memory, pt: nat, level: nat, v: nat, perm: Flags)
    requires level < 3
  {
    var e := Read(mem, pt, Index(v, level));
    e.flags.p && (e.frame >= 512 || (perm.w && !e.flags.w) || (perm.u && !e.flags.u))
  }

  /** The table that follows on page v's path, if there is one. */
  function Below(mem: Memory, pt: nat, level: nat, v: nat): Option<nat>
    requires level < 3
  {
    var e := Read(mem, pt, Index(v, level));
    if e.flags.p then Some(e.frame) else None
  }

  /** Some link on page v's path is bad. */
  predicate BadPath(mem: Memory, pt: nat, level: nat, v: nat, perm: Flags)
    requires level <= 3
    decreases 3 - level
  {
    level < 3 &&
      (|| BadLink(mem, pt, level, v, perm)
       || (Below(mem, pt, level, v).Some? && BadPath(mem, Below(mem, pt, level, v).value, level + 1, v, perm)))
  }

  /** On any memory, with or without an allocator, lookup_l4pagetable fails an assertion exactly when it
      meets a bad link among those that were there. */
  lemma {:induction false} WalkFailsExactly(st: Store, pt: nat, level: nat, v: nat, perm: Flags, alloc: Option<int>)
    requires pt < NPAGES && level <= 3
    ensures WalkFrom(st, pt, level, v, perm, alloc).walk.BadEntry? <==> BadPath(st.mem, pt, level, v, perm)
    decreases 3 - level
  {
    hide AllocTable, Link;
    if level < 3 {
      var e := st.mem[pt][Index(v, level)];
      if e.flags.p {
        if e.frame < NPAGES {
          WalkFailsExactly(st, e.frame, level + 1, v, perm, alloc);
        }
      } else if perm.p && alloc.Some? {
        var a := AllocTable(st, alloc.value);
        if a.pn != 0 {
          EmptyWalk(Store(Link(a.st.mem, pt, Index(v, level), a.pn), a.st.info), pt, a.st.mem, Index(v, level), a.pn,
            level + 1, v, perm, alloc);
        }
      }
    }
  }

  /** From a table just linked, which is empty, no link is bad. */
  lemma {:induction false} EmptyWalk(st: Store, from: nat, mem: Memory, i: nat, pt: nat, level: nat, v: nat,
      perm: Flags, alloc: Option<int>)
    requires from < NPAGES && i < NENTRIES && pt < NPAGES && level <= 3 && st.mem == Link(mem, from, i, pt)
    ensures !WalkFrom(st, pt, level, v, perm, alloc).walk.BadEntry?
    decreases 3 - level
  {
    assert st.mem[pt] == ZeroPage();
    hide AllocTable;
    if level < 3 && perm.p && alloc.Some? {
      var a := AllocTable(st, alloc.value);
      if a.pn != 0 {
        EmptyWalk(Store(Link(a.st.mem, pt, Index(v, level), a.pn), a.st.info), pt, a.st.mem, Index(v, level), a.pn,
          level + 1, v, perm, alloc);
      }
    }
  }

  // ---- set_pagetable ----

  /** An address lies in a page that a table maps to itself. */
  predicate MapsToItself(mem: Memory, root: nat, a: nat) {
    var m := Lookup(mem, root, Canon(a / 4096));
    m.Mapped? && m.pn == a / 4096
  }

  /** set_pagetable passes exactly when the new table maps the interrupt handler, the kernel's table and
      virtual_memory_map to themselves, and the kernel's table maps the new one so. */
  lemma SetPagetableExactly(mem: Memory, l: Layout, table: nat)
    ensures SetPagetableOk(mem, l, table) <==>
      && MapsToItself(mem, table, l.handler) && MapsToItself(mem, l.kpt, table * 4096)
      && MapsToItself(mem, table, l.kpt * 4096) && MapsToItself(mem, table, l.mapCode)
  {
    AddressExactly(mem, table, l.handler);
    AddressExactly(mem, l.kpt, table * 4096);
    AddressExactly(mem, table, l.kpt * 4096);
    AddressExactly(mem, table, l.mapCode);
    hide LookupAddress, MapsToItself;
  }

  lemma AddressExactly(mem: Memory, root: nat, a: nat)
    ensures LookupAddress(mem, root, a) == Some(a) <==> MapsToItself(mem, root, a)
  {
    hide LookupFrom;
  }

  // ---- check_page_table_ownership ----

  /** A table's page, by its converted number, has this owner and this count. */
  predicate Accounted(st: Store, q: nat, owner: int, refcount: int) {
    0 <= ToInt32(q) < 512 && st.info[ToInt32(q)].owner == owner && st.info[ToInt32(q)].refcount == refcount
  }

  /** Table q is reached from below a table: through one of its nonzero entries. */
  ghost predicate ReachedBelow(mem: Memory, pt: nat, level: nat, q: nat)
    requires level <= 3
  {
    && level < 3
    && exists i :: 0 <= i < NENTRIES && Read(mem, pt, i) != ZERO && Reached(mem, Read(mem, pt, i).frame, level + 1, q)
  }

  /** The ownership check passes exactly when the table's own page has the owner and the count expected,
      and every table reached below it, down to the leaf tables, has the owner and count 1. */
  lemma {:induction false} OwnershipLevelExactly(st: Store, pt: nat, level: nat, owner: int, refcount: int)
    requires level <= 3
    ensures CheckLevel(st, pt, level, owner, refcount) <==>
      Accounted(st, pt, owner, refcount) && forall q | ReachedBelow(st.mem, pt, level, q) :: Accounted(st, q, owner, 1)
    decreases 3 - level
  {
    if level < 3 {
      EntriesExactly(st, pt, level, owner, 0);
      forall i | 0 <= i < NENTRIES && Read(st.mem, pt, i) != ZERO
        ensures CheckLevel(st, Read(st.mem, pt, i).frame, level + 1, owner, 1) <==>
          forall q | Reached(st.mem, Read(st.mem, pt, i).frame, level + 1, q) :: Accounted(st, q, owner, 1)
      {
        OwnershipLevelExactly(st, Read(st.mem, pt, i).frame, level + 1, owner, 1);
      }
    }
  }

  lemma {:induction false} EntriesExactly(st: Store, pt: nat, level: nat, owner: int, from: nat)
    requires level < 3 && from <= NENTRIES
    ensures CheckEntries(st, pt, level, owner, from) <==>
      forall i | from <= i < NENTRIES && Read(st.mem, pt, i) != ZERO ::
        CheckLevel(st, Read(st.mem, pt, i).frame, level + 1, owner, 1)
    decreases NENTRIES - from
  {
    hide CheckLevel;
    if from < NENTRIES {
      EntriesExactly(st, pt, level, owner, from + 1);
    }
  }

  /** How many existing processes from pid on run on the kernel's own table. */
  lemma {:induction false} UsersCounted(s: State, pid: nat)
    requires pid <= 16
    ensures KernelTableUsers(s, pid) == |set q | pid <= q < 16 && s.procs[q].state != P_FREE
        && s.procs[q].table == s.layout.kpt|
    decreases 16 - pid
  {
    var users := set q | pid <= q < 16 && s.procs[q].state != P_FREE && s.procs[q].table == s.layout.kpt;
    if pid < 16 {
      UsersCounted(s, pid + 1);
      var rest := set q | pid + 1 <= q < 16 && s.procs[q].state != P_FREE && s.procs[q].table == s.layout.kpt;
      if pid in users {
        assert users == rest + {pid};
      } else {
        assert users == rest;
      }
    }
  }

  /** The whole check: slot 0 free; the kernel's table with its mappings, owner and count; every process
      on a table of its own with the mappings, its number as owner and count 1; and every page in use
      that a process owns owned by one that exists. */
  lemma {:induction false} CheckExactly(s: State)
    ensures CheckVirtualMemory(s) <==>
      && s.procs[0].state == P_FREE
      && CheckMappings(s.store.mem, s.layout, s.layout.kpt)
      && CheckLevel(s.store, s.layout.kpt, 0, -2, 1 + KernelTableUsers(s, 0))
      && (forall pid | 0 <= pid < 16 && s.procs[pid].state != P_FREE && s.procs[pid].table != s.layout.kpt ::
        CheckMappings(s.store.mem, s.layout, s.procs[pid].table) && CheckLevel(s.store, s.procs[pid].table, 0, pid, 1))
      && (forall pn | 0 <= pn < 512 && s.store.info[pn].refcount > 0 && s.store.info[pn].owner >= 0 ::
        s.store.info[pn].owner < 16 && s.procs[s.store.info[pn].owner].state != P_FREE)
  {
    hide CheckMappings, CheckLevel, KernelTableUsers;
    assert forall pid | 0 <= pid < 16 :: CheckProc(s, pid) <==>
      (s.procs[pid].state != P_FREE && s.procs[pid].table != s.layout.kpt ==>
        CheckMappings(s.store.mem, s.layout, s.procs[pid].table) && CheckLevel(s.store, s.procs[pid].table, 0, pid, 1));
    assert forall pn | 0 <= pn < 512 :: CheckOwner(s, pn) <==>
      (s.store.info[pn].refcount > 0 && s.store.info[pn].owner >= 0 ==>
        s.store.info[pn].owner < 16 && s.procs[s.store.info[pn].owner].state != P_FREE);
  }

  // ---- run and exception ----

  /** run returns to user code exactly when the process is runnable and its table passes set_pagetable. */
  lemma RunExactly(s: State, pid: nat)
    requires pid < NPROC
    ensures s.procs[pid].state == P_RUNNABLE && SetPagetableOk(s.store.mem, s.layout, s.procs[pid].table) ==>
      Run(s, pid) == s.(current := pid, status := Running)
    ensures s.procs[pid].state != P_RUNNABLE || !SetPagetableOk(s.store.mem, s.layout, s.procs[pid].table) ==>
      Run(s, pid).status.Panicked?
  {
    hide SetPagetableOk;
  }

  /** A trap that does not stop the machine has found the kernel's table to pass set_pagetable and the
      state, with the registers saved, to pass check_virtual_memory. */
  lemma TrapHasChecked(s: State, regs: Registers)
    requires s.status.Running? && s.current < NPROC && !Step(s, Trap(regs)).status.Panicked?
    ensures SetPagetableOk(s.store.mem, s.layout, s.layout.kpt)
    ensures CheckVirtualMemory(s.(procs := s.procs[s.current := s.procs[s.current].(regs := regs)]))
  {
    hide SetPagetableOk, CheckVirtualMemory, Resume, Schedule, PageAlloc, Fork;
  }

  /** A user store changes memory only through an entry that is present, writable and for users at every
      level. */
  lemma StoreNeedsRights(s: State, va: nat, w: Word)
    requires s.current < NPROC && UserStore(s, va, w) != s
    ensures var m := Lookup(s.store.mem, s.procs[s.current].table, Canon(va / 4096));
      m.Mapped? && m.perm.p && m.perm.w && m.perm.u
  {
    hide LookupFrom;
  }

  // ---- The loader ----

  /** program_load_segment returns 0 only when set_pagetable has passed for the process's table, before
      the data is copied, and for the kernel's, after it. */
  lemma {:induction false} LoadHasChecked(st: Store, l: Layout, root: nat, owner: int, s: Segment)
    requires root < NPAGES && ValidSegment(s) && LoadSegment(st, l, root, owner, s).outcome.Done?
    ensures SetPagetableOk(AssignLoop(st, root, First(s), s.va + s.memsz, owner).st.mem, l, root)
    ensures SetPagetableOk(LoadSegment(st, l, root, owner, s).st.mem, l, l.kpt)
  {
    hide SetPagetableOk, AssignLoop, Contents, First;
  }
}
