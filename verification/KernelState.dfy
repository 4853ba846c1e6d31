/** Processes, the kernel's state, and its executable checks. */
module KernelState {
  import opened Words
  import opened Pages
  import opened Paging
  import opened MapRanges

  const NPROC := 16
  const KERNEL_START := 0x40
  const KERNEL_STACK := 0x7F

  type PageNumber = n: nat | n < NPAGES

  /** Addresses the linker chooses: the end of the kernel image, the start of its data, the page of
      kernel_pagetables[0], and two functions that set_pagetable asks about. */
  datatype Layout = Layout(end: nat, startData: nat, kpt: PageNumber, handler: nat, mapCode: nat)

  predicate ValidLayout(l: Layout) {
    && l.end <= KERNEL_STACK * PAGE_SIZE
    && KERNEL_START <= l.kpt && (l.kpt + 5) * PAGE_SIZE <= l.end
    && KERNEL_START * PAGE_SIZE <= l.handler < l.end
    && KERNEL_START * PAGE_SIZE <= l.mapCode < l.end
  }

  datatype ProcState = P_FREE | P_RUNNABLE | P_BLOCKED | P_BROKEN

  /** Saved registers: those the kernel reads or writes, and all others as one opaque value. */
  datatype Registers = Registers(rax: Word64, rdi: Word64, rsp: Word64, rip: Word64, intno: nat, err: nat, others: nat)

  /** A process descriptor; table 0 is the NULL page table. */
  datatype Proc = Proc(pid: nat, regs: Registers, state: ProcState, table: PageNumber)

  type Procs = s: seq<Proc> | |s| == NPROC
    witness seq(NPROC, i => Proc(0, Registers(0, 0, 0, 0, 0, 0, 0), P_FREE, 0))

  /** Running user code, halted by panic, or looping in schedule with nothing to run. */
  datatype Status = Running | Panicked | Spinning

  datatype State = State(layout: Layout, store: Store, procs: Procs, current: nat, ticks: nat, status: Status)

  // ---- virtual_memory_lookup on addresses ----

  /** The physical address virtual_memory_lookup gives for an address. */
  function LookupAddress(mem: Memory, root: nat, va: nat): Option<nat> {
    match Lookup(mem, root, Canon(va / PAGE_SIZE))
    case Unmapped => None
    case Mapped(pn, _) => Some(pn * PAGE_SIZE + va % PAGE_SIZE)
  }

  /** X bytes into a range virtual_memory_lookup reports the physical address X bytes on, with these rights. */
  predicate TranslatesTo(mem: Memory, root: nat, va: nat, pa: nat, perm: Flags, x: nat) {
    LookupAddress(mem, root, va + x) == Some(pa + x) && Lookup(mem, root, Canon((va + x) / PAGE_SIZE)).perm == perm
  }

  /** Byte for byte: once a range is mapped, the address X bytes into it translates X bytes into the
      physical range, with `perm & 7`. */
  lemma MappedAddress(mem: Memory, root: nat, va: nat, pa: nat, sz: nat, perm: Flags, x: nat)
    requires va % PAGE_SIZE == 0 && pa % PAGE_SIZE == 0 && sz % PAGE_SIZE == 0 && va + sz <= VPAGES * PAGE_SIZE
    requires perm.p && MapsTo(mem, root, va / PAGE_SIZE, sz / PAGE_SIZE, pa / PAGE_SIZE, perm) && x < sz
    ensures TranslatesTo(mem, root, va, pa, And(PWU, perm), x)
  {
    hide LookupFrom;
    var v, k := va / PAGE_SIZE, x / PAGE_SIZE;
    assert (va + x) / PAGE_SIZE == v + k && (va + x) % PAGE_SIZE == x % PAGE_SIZE;
    assert k < sz / PAGE_SIZE && v + k < VPAGES && Canon(v + k) == v + k;
    assert Lookup(mem, root, v + k) == Target(pa / PAGE_SIZE + (v + k - v), perm);
  }

  /** virtual_memory_map and virtual_memory_lookup agree: when a map with PTE_P of page-aligned
      addresses below 2^48 returns 0, every address X bytes into the range translates to pa + X with
      `perm & 7`; every address of the space outside the range, and every other space, translates as
      before; and no page has changed but tables of the space and pages that were free. */
  lemma {:induction false} MapLookupAgrees(st: Store, tag: Tags, root: nat, space: int, va: nat, pa: nat, sz: nat,
      perm: Flags, alloc: Option<int>)
    returns (tag': Tags)
    requires Typed(st.mem, tag) && Owned(st.info, tag) && IsRoot(tag, root, space)
    requires va % PAGE_SIZE == 0 && pa % PAGE_SIZE == 0 && sz % PAGE_SIZE == 0 && va + sz <= VPAGES * PAGE_SIZE
    requires perm.p && pa + sz <= NPAGES * PAGE_SIZE && (alloc.Some? ==> alloc.value == space)
    ensures root < NPAGES
    ensures var r := Map(st, root, va / PAGE_SIZE, pa / PAGE_SIZE, sz / PAGE_SIZE, perm, alloc);
      r.outcome.Done? ==>
        && (forall x | 0 <= x < sz :: TranslatesTo(r.st.mem, root, va, pa, And(PWU, perm), x))
        && SameOutside(st.mem, r.st.mem, tag, space, va / PAGE_SIZE, (va + sz) / PAGE_SIZE)
        && Grows(st, tag, r.st, tag', space)
  {
    hide Typed, Owned, SameOutside, Grows, Map, MapPages, MapsTo, Lookup;
    RootInRange(st.mem, tag, root, space);
    var v, pn, n := va / PAGE_SIZE, pa / PAGE_SIZE, sz / PAGE_SIZE;
    assert v + n == (va + sz) / PAGE_SIZE && pn + n == (pa + sz) / PAGE_SIZE;
    if n > 0 {
      LowGroup(v);
    }
    MapIsMapPages(st, tag, root, space, v, pn, n, perm, alloc);
    var k;
    tag', k := MapPagesAgrees(st, tag, root, space, v, pn, n, perm, alloc);
    var r := Map(st, root, v, pn, n, perm, alloc);
    if r.outcome.Done? {
      forall x | 0 <= x < sz
        ensures TranslatesTo(r.st.mem, root, va, pa, And(PWU, perm), x)
      {
        MappedAddress(r.st.mem, root, va, pa, sz, perm, x);
      }
    }
  }

  /** set_pagetable's assertions. */
  predicate SetPagetableOk(mem: Memory, l: Layout, table: nat) {
    && LookupAddress(mem, table, l.handler) == Some(l.handler)
    && LookupAddress(mem, l.kpt, table * PAGE_SIZE) == Some(table * PAGE_SIZE)
    && LookupAddress(mem, table, l.kpt * PAGE_SIZE) == Some(l.kpt * PAGE_SIZE)
    && LookupAddress(mem, table, l.mapCode) == Some(l.mapCode)
  }

  // ---- check_virtual_memory ----

  /** check_page_table_mappings, the loop over kernel memory from page v on. */
  predicate CheckKernelRange(mem: Memory, l: Layout, root: nat, v: nat)
    decreases l.end - v * PAGE_SIZE
  {
    v * PAGE_SIZE < l.end ==>
      && Lookup(mem, root, Canon(v)).Mapped? && Lookup(mem, root, Canon(v)).pn == v
      && (v * PAGE_SIZE >= l.startData ==> Lookup(mem, root, Canon(v)).perm.w)
      && CheckKernelRange(mem, l, root, v + 1)
  }

  predicate CheckMappings(mem: Memory, l: Layout, root: nat) {
    && CheckKernelRange(mem, l, root, KERNEL_START)
    && var m := Lookup(mem, root, KERNEL_STACK); m.Mapped? && m.pn == KERNEL_STACK && m.perm.w
  }

  /** The page number of a table as PAGENUMBER gives it: converted to int. */
  function TableNumber(pt: nat): int {
    ToInt32(pt)
  }

  /** check_page_table_ownership_level. A page number below 0 passes its first assertion and then reads
      in front of pageinfo, which the model counts as a failed check. */
  predicate CheckLevel(st: Store, pt: nat, level: nat, owner: int, refcount: int)
    requires level <= 3
    decreases 3 - level, NENTRIES + 1
  {
    && 0 <= TableNumber(pt) < NPAGES
    && st.info[TableNumber(pt)] == PageInfo(owner, refcount)
    && (level < 3 ==> CheckEntries(st, pt, level, owner, 0))
  }

  /** Its loop over the entries of a table, from index i on. */
  predicate CheckEntries(st: Store, pt: nat, level: nat, owner: int, i: nat)
    requires level < 3 && i <= NENTRIES
    decreases 3 - level, NENTRIES - i
  {
    i < NENTRIES ==>
      && (Read(st.mem, pt, i) != ZERO ==> CheckLevel(st, Read(st.mem, pt, i).frame, level + 1, owner, 1))
      && CheckEntries(st, pt, level, owner, i + 1)
  }

  /** Number of processes from pid on that run on the kernel's own table. */
  function KernelTableUsers(s: State, pid: nat): nat
    requires pid <= NPROC
    decreases NPROC - pid
  {
    if pid == NPROC then 0
    else
      (if s.procs[pid].state != P_FREE && s.procs[pid].table == s.layout.kpt then 1 else 0)
      + KernelTableUsers(s, pid + 1)
  }

  /** The two checks of one process's table. */
  predicate CheckProc(s: State, pid: nat)
    requires pid < NPROC
  {
    s.procs[pid].state != P_FREE && s.procs[pid].table != s.layout.kpt ==>
      && CheckMappings(s.store.mem, s.layout, s.procs[pid].table)
      && CheckLevel(s.store, s.procs[pid].table, 0, pid, 1)
  }

  /** Every page in use by a process belongs to one that exists; an owner that names no slot reads
      past the process table, which the model counts as a failed check. */
  predicate CheckOwner(s: State, pn: nat)
    requires pn < NPAGES
  {
    s.store.info[pn].refcount > 0 && s.store.info[pn].owner >= 0 ==>
      s.store.info[pn].owner < NPROC && s.procs[s.store.info[pn].owner].state != P_FREE
  }

  /** check_virtual_memory: do all its assertions hold? */
  predicate CheckVirtualMemory(s: State) {
    && s.procs[0].state == P_FREE
    && CheckMappings(s.store.mem, s.layout, s.layout.kpt)
    && CheckLevel(s.store, s.layout.kpt, 0, KERNEL, 1 + KernelTableUsers(s, 0))
    && (forall pid | 0 <= pid < NPROC :: CheckProc(s, pid))
    && (forall pn | 0 <= pn < NPAGES :: CheckOwner(s, pn))
  }

  // ---- What the check guarantees on any memory ----

  /** Kernel page v is mapped to itself, and writably if it lies in the kernel's data. */
  predicate KernelPageOk(mem: Memory, l: Layout, root: nat, v: nat) {
    var m := Lookup(mem, root, Canon(v));
    m.Mapped? && m.pn == v && (v * PAGE_SIZE >= l.startData ==> m.perm.w)
  }

  lemma {:induction false} KernelRangeExactly(mem: Memory, l: Layout, root: nat, v: nat)
    ensures CheckKernelRange(mem, l, root, v) <==>
      forall x | v <= x && x * PAGE_SIZE < l.end :: KernelPageOk(mem, l, root, x)
    decreases l.end - v * PAGE_SIZE
  {
    hide Lookup;
    if v * PAGE_SIZE < l.end {
      KernelRangeExactly(mem, l, root, v + 1);
      assert CheckKernelRange(mem, l, root, v) <==>
        KernelPageOk(mem, l, root, v) && CheckKernelRange(mem, l, root, v + 1);
    }
  }

  /** check_page_table_mappings passes exactly when every page of the kernel, code and data, and its
      stack page are mapped to themselves, data and stack writably. */
  lemma MappingsExactly(mem: Memory, l: Layout, root: nat)
    ensures CheckMappings(mem, l, root) <==>
      && (forall v | KERNEL_START <= v && v * PAGE_SIZE < l.end :: KernelPageOk(mem, l, root, v))
      && (var m := Lookup(mem, root, KERNEL_STACK); m.Mapped? && m.pn == KERNEL_STACK && m.perm.w)
  {
    hide Lookup, KernelPageOk;
    KernelRangeExactly(mem, l, root, KERNEL_START);
  }

  /** What check_virtual_memory says of processes and owners when it passes, on any memory: slot 0 is
      free, and every page in use that a process owns belongs to one that exists. */
  lemma CheckedOwners(s: State)
    requires CheckVirtualMemory(s)
    ensures s.procs[0].state == P_FREE
    ensures forall pn | 0 <= pn < NPAGES && s.store.info[pn].refcount > 0 && s.store.info[pn].owner >= 0 ::
      s.store.info[pn].owner < 16 && s.procs[s.store.info[pn].owner].state != P_FREE
  {
    hide CheckMappings, CheckLevel;
    forall pn | 0 <= pn < NPAGES && s.store.info[pn].refcount > 0 && s.store.info[pn].owner >= 0
      ensures s.store.info[pn].owner < 16 && s.procs[s.store.info[pn].owner].state != P_FREE
    {
      assert CheckOwner(s, pn);
    }
  }

  /** And of memory: the kernel's pages and its stack page are mapped to themselves, data and stack
      writably, in the kernel's table and in every process's own. */
  lemma CheckedMappings(s: State, who: int, v: nat)
    requires CheckVirtualMemory(s) && HasTable(s, who)
    requires v == 0x7F || (0x40 <= v && v * 4096 < s.layout.end)
    ensures var m := Lookup(s.store.mem, TableOf(s, who), Canon(v));
      m.Mapped? && m.pn == v && (v == 0x7F || v * 4096 >= s.layout.startData ==> m.perm.w)
  {
    hide CheckMappings, CheckLevel, Lookup;
    if who != KERNEL {
      assert CheckProc(s, who);
    }
    MappingsExactly(s.store.mem, s.layout, TableOf(s, who));
    if 0x40 <= v && v * 4096 < s.layout.end {
      assert KernelPageOk(s.store.mem, s.layout, TableOf(s, who), v);
    }
    assert Canon(0x7F) == 0x7F;
  }

  /** The pages reached from a table through nonzero entries, down to the leaf tables. */
  ghost predicate Reached(mem: Memory, pt: nat, level: nat, q: nat)
    requires level <= 3
    decreases 3 - level
  {
    || q == pt
    || (level < 3 &&
        exists i :: 0 <= i < NENTRIES && Read(mem, pt, i) != ZERO && Reached(mem, Read(mem, pt, i).frame, level + 1, q))
  }

  lemma {:induction false} CheckEntriesAt(st: Store, pt: nat, level: nat, owner: int, from: nat, i: nat)
    requires level < 3 && from <= i < NENTRIES && CheckEntries(st, pt, level, owner, from)
    ensures Read(st.mem, pt, i) != ZERO ==> CheckLevel(st, Read(st.mem, pt, i).frame, level + 1, owner, 1)
    decreases i - from
  {
    if from < i {
      CheckEntriesAt(st, pt, level, owner, from + 1, i);
    }
  }

  /** A table that passes is made, at every level, of pages whose numbers belong to its owner alone. */
  lemma {:induction false} CheckedPages(st: Store, pt: nat, level: nat, owner: int, refcount: int, q: nat)
    requires level <= 3 && CheckLevel(st, pt, level, owner, refcount) && Reached(st.mem, pt, level, q)
    ensures 0 <= TableNumber(q) < NPAGES && st.info[TableNumber(q)].owner == owner
    decreases 3 - level
  {
    hide TableNumber;
    if q != pt {
      var i :| 0 <= i < NENTRIES && Read(st.mem, pt, i) != ZERO
        && Reached(st.mem, Read(st.mem, pt, i).frame, level + 1, q);
      CheckEntriesAt(st, pt, level, owner, 0, i);
      CheckedPages(st, Read(st.mem, pt, i).frame, level + 1, owner, 1, q);
    }
  }

  /** That it is the numbers alone: a leaf table 2^44 bytes above a page of the owner passes with it. */
  lemma {:induction false} AliasPasses(st: Store, pt: nat, owner: int, refcount: int)
    requires pt < NPAGES
    ensures CheckLevel(st, pt + 0x1_0000_0000, 3, owner, refcount) <==> st.info[pt] == PageInfo(owner, refcount)
  {
    hide CheckEntries;
    assert TableNumber(pt + 0x1_0000_0000) == pt;
    hide TableNumber;
  }

  /** The table a process or the kernel (KERNEL) translates with. */
  function TableOf(s: State, who: int): PageNumber
    requires who == KERNEL || 0 <= who < NPROC
  {
    if who == KERNEL then s.layout.kpt else s.procs[who].table
  }

  predicate HasTable(s: State, who: int) {
    who == KERNEL || (0 <= who < NPROC && s.procs[who].state != P_FREE && s.procs[who].table != s.layout.kpt)
  }

  /** check_virtual_memory is sound on any memory: when it passes, no page-table page of one
      process, at any level, is a page-table page of another process or of the kernel, nor shares the
      page number it is accounted under. */
  lemma {:induction false} CheckSeparatesTables(s: State, a: int, b: int, q: nat, q2: nat)
    requires CheckVirtualMemory(s) && HasTable(s, a) && HasTable(s, b) && a != b
    requires TableNumber(q) == TableNumber(q2)
    ensures !(Reached(s.store.mem, TableOf(s, a), 0, q) && Reached(s.store.mem, TableOf(s, b), 0, q2))
  {
    if Reached(s.store.mem, TableOf(s, a), 0, q) && Reached(s.store.mem, TableOf(s, b), 0, q2) {
      CheckedTable(s, a, q);
      CheckedTable(s, b, q2);
    }
  }

  lemma {:induction false} CheckedTable(s: State, a: int, q: nat)
    requires CheckVirtualMemory(s) && HasTable(s, a) && Reached(s.store.mem, TableOf(s, a), 0, q)
    ensures 0 <= TableNumber(q) < NPAGES && s.store.info[TableNumber(q)].owner == a
  {
    if a == KERNEL {
      CheckedPages(s.store, s.layout.kpt, 0, KERNEL, 1 + KernelTableUsers(s, 0), q);
    } else {
      assert CheckProc(s, a);
      CheckedPages(s.store, s.procs[a].table, 0, a, 1, q);
    }
  }
}
