/** From power-on to the first process: the kernel's tables, the initial owners, and process_setup. */
module Boot {
  import opened Words
  import opened Pages
  import opened Paging
  import opened MapRanges
  import opened Budget
  import opened AddressSpaces
  import opened Forking
  import opened KernelState
  import opened Kernel
  import opened Invariant
  import opened Loader
  import opened Steps
  import opened Runs
  import opened Progress

  /** The segment selectors and flags process_init sets, as one opaque value. */
  const USER_SEGMENTS := 1

  const ProcessInit := Registers(0, 0, 0, 0, 0, 0, USER_SEGMENTS)

  /** pageinfo_init. */
  function InitialInfo(l: Layout): (info: Info)
    ensures forall p | 0 <= p < NPAGES ::
      info[p] == PageInfo(InitialOwner(l, p), if InitialOwner(l, p) == FREE then 0 else 1)
  {
    seq(NPAGES, p requires 0 <= p < NPAGES => PageInfo(InitialOwner(l, p), if InitialOwner(l, p) == FREE then 0 else 1))
  }

  /** The five kernel tables as virtual_memory_init links them: root, two interior tables, and leaf
      tables for the first and the second 2 MB. */
  function LinkedTables(mem: Memory, k: nat): (m: Memory)
    requires k + 5 <= NPAGES
  {
    mem[k := ZeroPage()[0 := Word(k + 1, PWU)]]
       [k + 1 := ZeroPage()[0 := Word(k + 2, PWU)]]
       [k + 2 := ZeroPage()[0 := Word(k + 3, PWU)][1 := Word(k + 4, PWU)]]
       [k + 3 := ZeroPage()][k + 4 := ZeroPage()]
  }

  /** The kernel's memory after virtual_memory_init and the two maps of kernel(): everything, then
      the kernel range closed to users, then the console open to them. */
  function KernelStore(mem: Memory, l: Layout): Store
    requires ValidLayout(l)
  {
    var st0 := Store(LinkedTables(mem, l.kpt), InitialInfo(l));
    var st1 := Map(st0, l.kpt, 0, 0, NPAGES, PWU, None).st;
    var st2 := Map(st1, l.kpt, 0, 0, PROC_START, PW, None).st;
    Map(st2, l.kpt, CONSOLE, CONSOLE, 1, PWU, None).st
  }

  /** process_setup. Failures of the stack's own map are ignored, as the code does. */
  function ProcessSetup(s: State, pid: nat, program: Program): State
    requires pid < NPROC && ValidProgram(program)
  {
    var c := CopyTable(s.store, s.layout.kpt, pid);
    var p := s.procs[pid].(regs := ProcessInit, table := c.root);
    if c.panicked then Panicking(s.(store := c.st, procs := s.procs[pid := p])) else
    var r := LoadSegments(c.st, s.layout, c.root, pid, program.segments);
    if !r.outcome.Done? then Panicking(s.(store := r.st, procs := s.procs[pid := p])) else
    var g := GetFree(r.st.info, pid);
    var m := Map(Store(r.st.mem, g.info), c.root, VM_END - 1, g.pn, 1, PWU, Some(pid));
    var p' := p.(regs := ProcessInit.(rip := program.entry, rsp := VM_END * PAGE_SIZE), state := P_RUNNABLE);
    if m.outcome.Panic? then Panicking(s.(store := m.st, procs := s.procs[pid := p]))
    else s.(store := m.st, procs := s.procs[pid := p'])
  }

  /** Processes 1, 2, ... set up in turn. */
  function SetupAll(s: State, pid: nat, programs: seq<Program>): State
    requires pid + |programs| <= NPROC && forall i | 0 <= i < |programs| :: ValidProgram(programs[i])
    decreases |programs|
  {
    if programs == [] || s.status.Panicked? then s
    else SetupAll(ProcessSetup(s, pid, programs[0]), pid + 1, programs[1..])
  }

  function NoProcs(): (procs: Procs)
    ensures forall i | 0 <= i < NPROC :: procs[i] == Proc(i, Registers(0, 0, 0, 0, 0, 0, 0), P_FREE, 0)
  {
    seq(NPROC, i requires 0 <= i < NPROC => Proc(i, Registers(0, 0, 0, 0, 0, 0, 0), P_FREE, 0))
  }

  /** The state in which kernel() starts setting up processes. */
  function BeforeSetup(mem: Memory, l: Layout): State
    requires ValidLayout(l)
  {
    State(l, KernelStore(mem, l), NoProcs(), 1, 0, Running)
  }

  /** kernel(): the state in which the first process starts. */
  function Start(mem: Memory, l: Layout, programs: seq<Program>): State
    requires ValidLayout(l) && 1 <= |programs| < NPROC && forall i | 0 <= i < |programs| :: ValidProgram(programs[i])
  {
    var s := SetupAll(BeforeSetup(mem, l), 1, programs);
    if s.status.Panicked? then s else Run(s, 1)
  }

  // ---- The kernel's own tables ----

  /** The part of the kernel's tables that the maps of kernel() write: the first leaf table. */
  function KernelTags(l: Layout): Tags
    requires ValidLayout(l)
  {
    map[l.kpt := Table(KERNEL, 0, 0), l.kpt + 1 := Table(KERNEL, 1, 0), l.kpt + 2 := Table(KERNEL, 2, 0),
        l.kpt + 3 := Table(KERNEL, 3, 0), l.kpt + 4 := Table(KERNEL, 3, 1)]
  }

  lemma LinkedTyped(mem: Memory, l: Layout)
    requires ValidLayout(l)
    ensures Typed(LinkedTables(mem, l.kpt), KernelTags(l)) && IsRoot(KernelTags(l), l.kpt, KERNEL)
  {
    var m, tag := LinkedTables(mem, l.kpt), KernelTags(l);
    forall p | p in tag && tag[p].Table?
      ensures NodeOk(m, tag, p)
    {
    }
  }

  lemma KernelOwned(l: Layout)
    requires ValidLayout(l)
    ensures Owned(InitialInfo(l), KernelTags(l)) && !IsFree(InitialInfo(l)[0])
  {
  }

  lemma {:induction false} LinkedLeaf(mem: Memory, l: Layout, v: nat)
    requires ValidLayout(l) && v < NENTRIES
    ensures LeafTable(LinkedTables(mem, l.kpt), l.kpt, 0, v) == Some(l.kpt + 3)
  {
    assert Prefix(v, 4) == v && Prefix(v, 3) == v / NENTRIES == 0;
    assert Prefix(v, 2) == Prefix(v, 3) / NENTRIES == 0 && Prefix(v, 1) == Prefix(v, 2) / NENTRIES == 0;
    var m, k := LinkedTables(mem, l.kpt), l.kpt;
    assert Index(v, 0) == 0 && Index(v, 1) == 0 && Index(v, 2) == 0;
    assert LeafTable(m, k + 2, 2, v) == LeafTable(m, k + 3, 3, v);
    assert LeafTable(m, k + 1, 1, v) == LeafTable(m, k + 2, 2, v);
  }

  /** A leaf page after pages [v, v + n) of its table have been mapped. */
  function FilledLeaf(page: Page, v: nat, pn: nat, n: nat, perm: Flags): (p: Page)
    requires v + n <= NENTRIES && (perm.p ==> pn + n <= NPAGES)
    ensures forall i | 0 <= i < NENTRIES ::
      p[i] == if v <= i < v + n then Entry(pn + (i - v), perm) else page[i]
    decreases n
  {
    if n == 0 then page else FilledLeaf(page[v := Entry(pn, perm)], v + 1, pn + 1, n - 1, perm)
  }

  /** All pages of the first 2 MB are found in leaf table q. */
  ghost predicate OneLeaf(mem: Memory, tag: Tags, root: nat, space: int, q: nat) {
    && Typed(mem, tag) && IsRoot(tag, root, space) && root < NPAGES && q < NPAGES
    && forall x | 0 <= x < NENTRIES :: LeafTable(mem, root, 0, x) == Some(q)
  }

  lemma MapOneInLeaf(st: Store, tag: Tags, root: nat, space: int, q: nat, v: nat, pn: nat, perm: Flags)
    requires OneLeaf(st.mem, tag, root, space, q) && v < NENTRIES && perm.p && pn <= NPAGES
    ensures MapOne(st, root, Canon(v), pn, perm, None) ==
        MapResult(Store(SetEntry(st.mem, q, v, Entry(pn, perm)), st.info), Done)
    ensures OneLeaf(SetEntry(st.mem, q, v, Entry(pn, perm)), tag, root, space, q)
  {
    hide Typed, LeafTable;
    assert Canon(v) == v;
    WalkOnlyLooks(st, tag, root, 0, v, perm, None);
    LeafOf(st.mem, tag, root, space, v);
    var e := Entry(pn, perm);
    LeafWriteTyped(st.mem, tag, q, v, e);
    forall x | 0 <= x < NENTRIES
      ensures LeafTable(SetEntry(st.mem, q, v, e), root, 0, x) == Some(q)
    {
      LeafWriteLookup(st.mem, tag, q, v, e, root, x);
    }
  }

  /** Mapping within one existing leaf table writes that table and nothing else. */
  lemma {:induction false} MapInLeaf(st: Store, tag: Tags, root: nat, space: int, q: nat, v: nat, pn: nat, n: nat,
      perm: Flags)
    requires OneLeaf(st.mem, tag, root, space, q)
    requires v + n <= NENTRIES && perm.p && pn + n <= NPAGES
    ensures var r := MapPages(st, root, v, pn, n, perm, None);
      && r.outcome.Done? && r.st == Store(st.mem[q := FilledLeaf(st.mem[q], v, pn, n, perm)], st.info)
      && OneLeaf(r.st.mem, tag, root, space, q)
    decreases n
  {
    hide OneLeaf, MapOne, Entry, Canon;
    LeafExists(st.mem, tag, root, space, q);
    if n == 0 {
      assert st.mem[q := st.mem[q]] == st.mem;
    } else {
      MapOneInLeaf(st, tag, root, space, q, v, pn, perm);
      var st1 := Store(SetEntry(st.mem, q, v, Entry(pn, perm)), st.info);
      MapInLeaf(st1, tag, root, space, q, v + 1, pn + 1, n - 1, perm);
      assert st1.mem[q] == st.mem[q][v := Entry(pn, perm)];
      assert st.mem[q := FilledLeaf(st.mem[q], v, pn, n, perm)] ==
          st1.mem[q := FilledLeaf(st1.mem[q], v + 1, pn + 1, n - 1, perm)];
    }
  }

  lemma LeafExists(mem: Memory, tag: Tags, root: nat, space: int, q: nat)
    requires OneLeaf(mem, tag, root, space, q)
    ensures root < NPAGES && q < NPAGES
  {
  }

  /** A call of virtual_memory_map inside the first 2 MB of the kernel's table. */
  lemma {:induction false} KernelMaps(st: Store, l: Layout, v: nat, n: nat, perm: Flags)
    requires ValidLayout(l) && OneLeaf(st.mem, KernelTags(l), l.kpt, KERNEL, l.kpt + 3) && st.info == InitialInfo(l)
    requires v + n <= NENTRIES && perm.p
    ensures var r := Map(st, l.kpt, v, v, n, perm, None);
      && r.st == Store(st.mem[l.kpt + 3 := FilledLeaf(st.mem[l.kpt + 3], v, v, n, perm)], st.info)
      && OneLeaf(r.st.mem, KernelTags(l), l.kpt, KERNEL, l.kpt + 3)
  {
    LowGroup(v);
    KernelOwned(l);
    hide Map, MapPages, Group, Typed, Owned, FilledLeaf, InitialInfo;
    MapIsMapPages(st, KernelTags(l), l.kpt, KERNEL, v, v, n, perm, None);
    MapInLeaf(st, KernelTags(l), l.kpt, KERNEL, l.kpt + 3, v, v, n, perm);
  }

  /** The first leaf table when kernel() has finished with it. */
  ghost predicate KernelLeaf(page: Page) {
    forall i | 0 <= i < NENTRIES :: page[i] == Word(i, if i < PROC_START then KernelFlags(i) else PWU)
  }

  lemma KernelStoreBuilt(mem: Memory, l: Layout)
    requires ValidLayout(l)
    ensures var st := KernelStore(mem, l);
      && st.info == InitialInfo(l) && KernelLeaf(st.mem[l.kpt + 3]) && st.mem[l.kpt + 4] == ZeroPage()
      && OneLeaf(st.mem, KernelTags(l), l.kpt, KERNEL, l.kpt + 3)
  {
    var st0 := Store(LinkedTables(mem, l.kpt), InitialInfo(l));
    LinkedTyped(mem, l);
    forall v | 0 <= v < NENTRIES
      ensures LeafTable(st0.mem, l.kpt, 0, v) == Some(l.kpt + 3)
    {
      LinkedLeaf(mem, l, v);
    }
    hide Typed, LeafTable, Map, LinkedTables, InitialInfo, FilledLeaf, KernelTags;
    KernelMaps(st0, l, 0, NPAGES, PWU);
    var st1 := Map(st0, l.kpt, 0, 0, NPAGES, PWU, None).st;
    KernelMaps(st1, l, 0, PROC_START, PW);
    var st2 := Map(st1, l.kpt, 0, 0, PROC_START, PW, None).st;
    KernelMaps(st2, l, CONSOLE, 1, PWU);
    assert st0.mem[l.kpt + 4] == ZeroPage() by {
      SecondLeafEmpty(mem, l.kpt);
    }
  }

  lemma SecondLeafEmpty(mem: Memory, k: nat)
    requires k + 5 <= NPAGES
    ensures LinkedTables(mem, k)[k + 4] == ZeroPage()
  {
  }

  /** Before any process exists the kernel's address space is well formed, identity-maps memory with
      only the console open to users, and the initial owners are in order. */
  lemma KernelStoreWellFormed(mem: Memory, l: Layout)
    requires ValidLayout(l)
    ensures var st := KernelStore(mem, l);
      && st.info == InitialInfo(l) && WellFormed(st, KernelTags(l)) && SpacesOk(KernelTags(l))
      && KernelSpace(st.mem, KernelTags(l), l)
  {
    var st, tag := KernelStore(mem, l), KernelTags(l);
    KernelStoreBuilt(mem, l);
    KernelOwned(l);
    hide KernelStore, InitialInfo, Typed, Owned, Leaves, KernelLeaf, OneLeaf;
    KernelLeaves(st.mem, l);
    KernelLookups(st.mem, l);
  }

  lemma KernelLeaves(mem: Memory, l: Layout)
    requires ValidLayout(l) && KernelLeaf(mem[l.kpt + 3]) && mem[l.kpt + 4] == ZeroPage()
    ensures Leaves(mem, KernelTags(l))
  {
    var tag := KernelTags(l);
    forall q: nat, i | q < NPAGES && IsNode(tag, q, 3) && 0 <= i < NENTRIES
      ensures LeafOk(mem[q][i], tag, tag[q].space, tag[q].prefix * NENTRIES + i)
    {
      if q == l.kpt + 3 {
        assert mem[q][i] == Word(i, if i < PROC_START then KernelFlags(i) else PWU);
      }
    }
  }

  lemma KernelLookups(mem: Memory, l: Layout)
    requires ValidLayout(l) && KernelLeaf(mem[l.kpt + 3]) && OneLeaf(mem, KernelTags(l), l.kpt, KERNEL, l.kpt + 3)
    ensures KernelSpace(mem, KernelTags(l), l)
  {
    hide Typed, LeafTable, KernelTags, LookupFrom, Index;
    forall v | 0 <= v < NPAGES
      ensures Lookup(mem, l.kpt, v) == Mapped(v, if v < PROC_START then KernelFlags(v) else PWU)
    {
      LookupIsLeaf(mem, KernelTags(l), l.kpt, 0, v);
      assert LeafTable(mem, l.kpt, 0, v) == Some(l.kpt + 3);
      assert v % NENTRIES == v;
    }
  }

  // ---- Pages below PROC_START_ADDR ----

  lemma {:induction false} FreeFromFalls(info: Info, a: nat, b: nat)
    requires a <= b <= NPAGES
    ensures FreeFrom(info, b) <= FreeFrom(info, a) <= FreeFrom(info, b) + (b - a)
    ensures (forall p | a <= p < b :: !IsFree(info[p])) ==> FreeFrom(info, a) == FreeFrom(info, b)
    ensures (forall p | a <= p < b :: IsFree(info[p])) ==> FreeFrom(info, a) == FreeFrom(info, b) + (b - a)
    decreases b - a
  {
    if a < b {
      FreeFromFalls(info, a + 1, b);
    }
  }

  /** Free pages below PROC_START_ADDR. */
  function LowFree(info: Info): nat {
    FreeFromFalls(info, 0, PROC_START);
    FreeFrom(info, 0) - FreeFrom(info, PROC_START)
  }

  lemma LowFreeCount(info: Info)
    ensures LowFree(info) <= FreeCount(info)
  {
  }

  lemma {:induction false} SameFree(info: Info, info': Info, a: nat)
    requires a <= NPAGES && forall p | a <= p < NPAGES :: info'[p] == info[p]
    ensures FreeFrom(info', a) == FreeFrom(info, a)
    decreases NPAGES - a
  {
    if a < NPAGES {
      SameFree(info, info', a + 1);
    }
  }

  /** Where pages are only taken, and one from a on has been, fewer from a on are free. */
  lemma {:induction false} FewerFree(info: Info, info': Info, a: nat, p: nat)
    requires a <= p < NPAGES && IsFree(info[p]) && !IsFree(info'[p])
    requires forall q | 0 <= q < NPAGES :: !IsFree(info[q]) ==> info'[q] == info[q]
    ensures FreeFrom(info', a) < FreeFrom(info, a)
    decreases NPAGES - a
  {
    if a < p {
      FewerFree(info, info', a + 1, p);
    } else {
      NoMoreFree(info, info', a + 1);
    }
  }

  lemma {:induction false} NoMoreFree(info: Info, info': Info, a: nat)
    requires a <= NPAGES && forall q | 0 <= q < NPAGES :: !IsFree(info[q]) ==> info'[q] == info[q]
    ensures FreeFrom(info', a) <= FreeFrom(info, a)
    decreases NPAGES - a
  {
    if a < NPAGES {
      NoMoreFree(info, info', a + 1);
    }
  }

  ghost predicate SameHigh(info: Info, info': Info) {
    forall p | PROC_START <= p < NPAGES :: info'[p] == info[p]
  }

  /** As long as low pages last, the allocator leaves the pages from PROC_START_ADDR on alone. */
  lemma TakenLow(info: Info, info': Info, k: nat)
    requires LowestTaken(info, info') && FreeCount(info') + k == FreeCount(info) && k <= LowFree(info)
    ensures SameHigh(info, info') && LowFree(info') == LowFree(info) - k
  {
    forall p | PROC_START <= p < NPAGES
      ensures info'[p] == info[p]
    {
      if info'[p] != info[p] {
        assert forall q | 0 <= q < PROC_START :: !IsFree(info'[q]);
        FreeFromFalls(info', 0, PROC_START);
        FewerFree(info, info', PROC_START, p);
        assert false;
      }
    }
    SameFree(info, info', PROC_START);
  }

  /** Whether a program can be loaded depends on the pages from PROC_START_ADDR on alone. */
  lemma CanLoadHigh(info: Info, info': Info, segs: seq<Segment>)
    requires SameHigh(info, info') && forall i | 0 <= i < |segs| :: ValidSegment(segs[i])
    ensures CanLoad(info', segs) <==> CanLoad(info, segs)
  {
    forall i, v | 0 <= i < |segs| && 0 <= v && OnPage(segs[i], v)
      ensures FreePage(info', v) <==> FreePage(info, v)
    {
      OnPageHigh(segs[i], v);
    }
    hide OnPage, FreePage, ValidSegment, SameHigh;
  }

  lemma OnPageHigh(s: Segment, v: nat)
    requires ValidSegment(s) && OnPage(s, v)
    ensures PROC_START <= v
  {
  }

  /** Who owns which page after process_setup: the segments' pages are the process's, no other page
      from PROC_START_ADDR on has changed hands, and six below it are gone. */
  ghost predicate SetupTook(info: Info, info': Info, pid: nat, segs: seq<Segment>) {
    && (forall p | PROC_START <= p < NPAGES :: info'[p] == if OffImage(segs, p) then info[p] else PageInfo(pid, 1))
    && LowFree(info') + 6 == LowFree(info)
  }

  // ---- process_setup ----

  /** What process_setup leaves of the store: a space of the process's own with its segments placed
      and a stack page, made of exactly the pages it needs; no other space has changed. */
  ghost predicate Built(st: Store, tag: Tags, st': Store, tag': Tags, root: nat, pid: int, segs: seq<Segment>)
    requires forall i | 0 <= i < |segs| :: ValidSegment(segs[i])
  {
    && WellFormed(st', tag') && Grows(st, tag, st', tag', pid) && SameOutside(st.mem, st'.mem, tag, pid, 0, VM_END)
    && IsRoot(tag', root, pid) && KernelMapped(st'.mem, root)
    && AllPlaced(st'.mem, tag', root, pid, segs) && StackMapped(st'.mem, root) && NothingElse(st'.mem, root, segs)
    && FreeCount(st'.info) + 6 + SegmentPages(segs) == FreeCount(st.info)
  }

  predicate StackMapped(mem: Memory, root: nat) {
    var m := Lookup(mem, root, VM_END - 1);
    m.Mapped? && m.perm == PWU
  }

  /** Above the kernel range nothing is mapped but the image and the stack page. */
  ghost predicate NothingElse(mem: Memory, root: nat, segs: seq<Segment>) {
    forall x | PROC_START <= x < VPAGES && x != VM_END - 1 && OffImage(segs, x) :: Lookup(mem, root, x) == Unmapped
  }

  /** A fresh copy of the kernel's table is ready for the loader. */
  lemma CopyLoadable(s: State, tag: Tags, tag1: Tags, pid: nat)
    requires Core(s, tag) && 1 <= pid < NPROC
    requires var c := CopyTable(s.store, s.layout.kpt, pid); CopyDone(s.store, tag, c.st, tag1, c.root, pid)
    ensures var c := CopyTable(s.store, s.layout.kpt, pid);
      && Loadable(c.st, tag1, c.root, pid) && BothPass(c.st.mem, tag1, s.layout, c.root)
  {
    var c := CopyTable(s.store, s.layout.kpt, pid);
    CopyCounts(s, tag, c.st, tag1, pid);
    CopyKernelSpace(s.store.mem, tag, c.st.mem, tag1, s.layout, pid) by {
      GrowsKeepsTags(s.store, tag, c.st, tag1, pid);
    }
    hide CopyTable, WellFormed, Grows, SameOutside, KernelSpace;
  }

  lemma CopyCounts(s: State, tag: Tags, st': Store, tag': Tags, pid: nat)
    requires Core(s, tag) && 1 <= pid < NPROC && Grows(s.store, tag, st', tag', pid)
    ensures CountsOk(st'.info)
  {
  }

  lemma CopyKernelSpace(mem: Memory, tag: Tags, mem': Memory, tag': Tags, l: Layout, space: int)
    requires KernelSpace(mem, tag, l) && space != KERNEL && SameOutside(mem, mem', tag, space, 0, PROC_START)
    requires forall p | p in tag :: p in tag' && tag'[p] == tag[p]
    ensures KernelSpace(mem', tag', l)
  {
    forall v | 0 <= v < NPAGES
      ensures Lookup(mem', l.kpt, v) == Lookup(mem, l.kpt, v)
    {
      assert IsRoot(tag, l.kpt, KERNEL);
    }
  }

  lemma {:induction false} LoadableParts(st: Store, tag: Tags, root: nat, space: int)
    requires Loadable(st, tag, root, space)
    ensures WellFormed(st, tag) && IsRoot(tag, root, space) && root < NPAGES
    ensures !IsFree(st.info[0]) && Missing(st.mem, root, 0, NENTRIES) == 1
  {
  }

  /** The process's stack page, the last below MEMSIZE_VIRTUAL. */
  lemma StackMaps(st: Store, tag: Tags, root: nat, pid: nat)
    returns (tag': Tags)
    requires Loadable(st, tag, root, pid) && 1 <= pid < NPROC && FreeCount(st.info) >= 2
    ensures var g := GetFree(st.info, pid);
      var r := Map(Store(st.mem, g.info), root, VM_END - 1, g.pn, 1, PWU, Some(pid));
      && r.outcome.Done? && WellFormed(r.st, tag') && Grows(st, tag, r.st, tag', pid)
      && SameOutside(st.mem, r.st.mem, tag, pid, VM_END - 1, VM_END)
      && FreeCount(r.st.info) == FreeCount(st.info) - 2 && StackMapped(r.st.mem, root)
  {
    hide Loadable, WellFormed, Grows, SameOutside, Map, FreeCount, Missing, GetFree;
    LoadableParts(st, tag, root, pid);
    GetFreeTakesLowest(st.info, pid);
    var g := GetFree(st.info, pid);
    var st1 := GivePage(st, g.pn, st.mem[g.pn], pid);
    assert st1 == Store(st.mem, g.info);
    NewFrame(st, tag, g.pn, st.mem[g.pn], pid, VM_END - 1);
    var tag1 := tag[g.pn := Frame(pid, VM_END - 1)];
    HighMissing(st.mem, root, VM_END - 1);
    SameOutsideWider(st.mem, st1.mem, tag, pid, VM_END - 1, VM_END - 1, VM_END - 1, VM_END);
    tag' := ForkStepMaps(st, tag, st1, tag1, root, pid, VM_END - 1, g.pn);
  }

  lemma SameOutsideWider(mem: Memory, mem': Memory, tag: Tags, space: int, lo: nat, hi: nat, lo': nat, hi': nat)
    requires SameOutside(mem, mem', tag, space, lo, hi) && lo' <= lo <= hi <= hi'
    ensures SameOutside(mem, mem', tag, space, lo', hi')
  {
    assert forall r, sp, x | IsRoot(tag, r, sp) && 0 <= x < VPAGES && (sp != space || x < lo || hi <= x) ::
      Lookup(mem', r, x) == Lookup(mem, r, x);
  }

  lemma AllPlacedStays(st: Store, tag: Tags, st': Store, tag': Tags, root: nat, space: int, segs: seq<Segment>,
      who: int, lo: nat, hi: nat)
    requires (forall i | 0 <= i < |segs| :: ValidSegment(segs[i])) && AllPlaced(st.mem, tag, root, space, segs)
    requires WellFormed(st, tag) && IsRoot(tag, root, space)
    requires Grows(st, tag, st', tag', who) && SameOutside(st.mem, st'.mem, tag, who, lo, hi)
    requires who == space ==> NPAGES <= lo
    ensures AllPlaced(st'.mem, tag', root, space, segs)
  {
    assert Owned(st.info, tag);
    hide Placed, ValidSegment, Owned, WellFormed, Grows, SameOutside;
    forall i | 0 <= i < |segs| && segs[i].loadable
      ensures Placed(st'.mem, tag', root, space, segs[i])
    {
      PlacedStays(st, tag, st', tag', root, space, segs[i], who, lo, hi);
    }
  }

  lemma SetupBuilds(s: State, tag: Tags, pid: nat, program: Program)
    returns (tag': Tags)
    requires Core(s, tag) && 1 <= pid < NPROC && ValidProgram(program) && LowFree(s.store.info) >= 6
    ensures var c := CopyTable(s.store, s.layout.kpt, pid);
      var r := LoadSegments(c.st, s.layout, c.root, pid, program.segments);
      var g := GetFree(r.st.info, pid);
      var m := Map(Store(r.st.mem, g.info), c.root, VM_END - 1, g.pn, 1, PWU, Some(pid));
      && !c.panicked && c.root != 0
      && (r.outcome.Done? <==> CanLoad(s.store.info, program.segments))
      && (r.outcome.Done? ==>
        && m.outcome.Done? && Built(s.store, tag, m.st, tag', c.root, pid, program.segments)
        && SetupTook(s.store.info, m.st.info, pid, program.segments))
  {
    KernelSpaceMapped(s.store.mem, tag, s.layout);
    CoreStore(s, tag);
    hide WellFormed, Grows, SameOutside, KernelMapped, Loadable, BothPass, LoadSegments, CopyTable, FreeCount,
        AllPlaced, Map, GetFree, CanLoad, Core, CopyDone, LowFree, SetupTook, SameHigh, LowestTaken;
    LowFreeCount(s.store.info);
    var c := CopyTable(s.store, s.layout.kpt, pid);
    var tag1 := CopyTableCopies(s.store, tag, s.layout.kpt, KERNEL, pid);
    CopyLoadable(s, tag, tag1, pid);
    CopyTableOwners(s.store, s.layout.kpt, pid);
    TakenLow(s.store.info, c.st.info, 4);
    CanLoadHigh(s.store.info, c.st.info, program.segments);
    var tag2 := LoadSegmentsPlaces(c.st, tag1, s.layout, c.root, pid, program.segments);
    LoadsExactly(c.st, tag1, s.layout, c.root, pid, program.segments);
    var r := LoadSegments(c.st, s.layout, c.root, pid, program.segments);
    tag' := tag2;
    if r.outcome.Done? {
      LoadKeepsLow(c.st, tag1, s.layout, c.root, pid, program.segments);
      LowFreeCount(r.st.info);
      tag' := StackMaps(r.st, tag2, c.root, pid);
      StackTakesLow(s.store.info, c.st, r.st, s.layout, c.root, pid, program.segments);
      var g := GetFree(r.st.info, pid);
      var m := Map(Store(r.st.mem, g.info), c.root, VM_END - 1, g.pn, 1, PWU, Some(pid));
      LoadsNothingElse(s.store, tag, c.st, tag1, r.st, tag2, m.st, s.layout, c.root, pid, program.segments);
      SetupJoins(s.store, tag, c.st, tag1, r.st, tag2, m.st, tag', s.layout, c.root, pid, program.segments);
    }
  }

  lemma {:induction false} LoadKeepsLow(st: Store, tag: Tags, l: Layout, root: PageNumber, pid: nat,
      segs: seq<Segment>)
    requires Loadable(st, tag, root, pid) && 1 <= pid < NPROC && BothPass(st.mem, tag, l, root)
    requires (forall i | 0 <= i < |segs| :: ValidSegment(segs[i])) && LoadSegments(st, l, root, pid, segs).outcome.Done?
    ensures var info' := LoadSegments(st, l, root, pid, segs).st.info;
      && (forall p | 0 <= p < NPAGES :: info'[p] == if OffImage(segs, p) then st.info[p] else PageInfo(pid, 1))
      && LowFree(info') == LowFree(st.info)
  {
    hide Loadable, BothPass, LoadSegments;
    var info' := LoadSegments(st, l, root, pid, segs).st.info;
    forall p | 0 <= p < NPAGES
      ensures info'[p] == if OffImage(segs, p) then st.info[p] else PageInfo(pid, 1)
      ensures p < PROC_START ==> info'[p] == st.info[p]
    {
      LoadTakesSegments(st, tag, l, root, pid, segs, p);
      if p < PROC_START {
        OffImageLow(segs, p);
      }
    }
    hide OffImage;
    SameLow(st.info, info', 0);
  }

  lemma OffImageLow(segs: seq<Segment>, p: nat)
    requires p < PROC_START && forall i | 0 <= i < |segs| :: ValidSegment(segs[i])
    ensures OffImage(segs, p)
  {
  }

  lemma {:induction false} SameLow(info: Info, info': Info, a: nat)
    requires a <= PROC_START && forall p | 0 <= p < PROC_START :: info'[p] == info[p]
    ensures FreeFrom(info', a) - FreeFrom(info', PROC_START) == FreeFrom(info, a) - FreeFrom(info, PROC_START)
    decreases PROC_START - a
  {
    if a < PROC_START {
      SameLow(info, info', a + 1);
    }
  }

  /** The stack's two pages are low ones, too. */
  lemma StackTakesLow(info: Info, st1: Store, st2: Store, l: Layout, root: PageNumber, pid: nat, segs: seq<Segment>)
    requires SameHigh(info, st1.info) && LowFree(st1.info) + 4 == LowFree(info) && LowFree(info) >= 6
    requires forall p | 0 <= p < NPAGES :: st2.info[p] == if OffImage(segs, p) then st1.info[p] else PageInfo(pid, 1)
    requires LowFree(st2.info) == LowFree(st1.info)
    requires var g := GetFree(st2.info, pid);
      FreeCount(Map(Store(st2.mem, g.info), root, VM_END - 1, g.pn, 1, PWU, Some(pid)).st.info) ==
          FreeCount(st2.info) - 2
    ensures var g := GetFree(st2.info, pid);
      SetupTook(info, Map(Store(st2.mem, g.info), root, VM_END - 1, g.pn, 1, PWU, Some(pid)).st.info, pid, segs)
  {
    hide OffImage, Map, GetFree, FreeCount, LowFree, LowestTaken;
    var g := GetFree(st2.info, pid);
    var info3 := Map(Store(st2.mem, g.info), root, VM_END - 1, g.pn, 1, PWU, Some(pid)).st.info;
    GetFreeOwners(st2.info, pid);
    MapOwners(Store(st2.mem, g.info), root, VM_END - 1, g.pn, PWU, Some(pid));
    TakenInTurn(st2.info, g.info, info3);
    TakenLow(st2.info, info3, 2);
  }

  lemma {:induction false} LoadsNothingElse(st: Store, tag: Tags, st1: Store, tag1: Tags, st2: Store, tag2: Tags,
      st3: Store, l: Layout, root: PageNumber, pid: nat, segs: seq<Segment>)
    requires 1 <= pid < NPROC && forall i | 0 <= i < |segs| :: ValidSegment(segs[i])
    requires CopyDone(st, tag, st1, tag1, root, pid) && Loadable(st1, tag1, root, pid)
        && BothPass(st1.mem, tag1, l, root)
    requires LoadSegments(st1, l, root, pid, segs) == MapResult(st2, Done) && IsRoot(tag2, root, pid)
    requires SameOutside(st2.mem, st3.mem, tag2, pid, VM_END - 1, VM_END)
    ensures NothingElse(st3.mem, root, segs)
  {
    hide Loadable, BothPass, LoadSegments, WellFormed, Grows, FreeCount, Missing, OffImage;
    forall x | PROC_START <= x < VPAGES && x != VM_END - 1 && OffImage(segs, x)
      ensures Lookup(st3.mem, root, x) == Unmapped
    {
      LoadsOnlySegments(st1, tag1, l, root, pid, segs, x);
      assert Lookup(st1.mem, root, x) == Unmapped;
      assert Lookup(st3.mem, root, x) == Lookup(st2.mem, root, x);
    }
  }

  lemma CoreStore(s: State, tag: Tags)
    requires Core(s, tag)
    ensures WellFormed(s.store, tag) && KernelSpace(s.store.mem, tag, s.layout) && IsRoot(tag, s.layout.kpt, KERNEL)
  {
  }

  lemma {:induction false} SetupJoins(st: Store, tag: Tags, st1: Store, tag1: Tags, st2: Store, tag2: Tags,
      st3: Store, tag3: Tags, l: Layout, root: PageNumber, pid: nat, segs: seq<Segment>)
    requires 1 <= pid < NPROC && forall i | 0 <= i < |segs| :: ValidSegment(segs[i])
    requires CopyDone(st, tag, st1, tag1, root, pid) && FreeCount(st1.info) == FreeCount(st.info) - 4
    requires Loading(st1, tag1, st2, tag2, l, root, pid, SegmentPages(segs))
        && AllPlaced(st2.mem, tag2, root, pid, segs)
    requires WellFormed(st3, tag3) && Grows(st2, tag2, st3, tag3, pid)
    requires SameOutside(st2.mem, st3.mem, tag2, pid, VM_END - 1, VM_END)
    requires FreeCount(st3.info) == FreeCount(st2.info) - 2 && StackMapped(st3.mem, root)
        && NothingElse(st3.mem, root, segs)
    ensures Built(st, tag, st3, tag3, root, pid, segs)
  {
    LoadedRoot(st2, tag2, root, pid);
    RootKept(st2, tag2, st3, tag3, root, pid);
    StackKeepsKernel(st2.mem, st3.mem, tag2, l, root, pid);
    hide WellFormed, Grows, SameOutside, Loadable, BothPass, FreeCount, AllPlaced, KernelMapped, StackMapped,
        NothingElse;
    AllPlacedStays(st2, tag2, st3, tag3, root, pid, segs, pid, VM_END - 1, VM_END);
    GrowsTransitive(st, tag, st1, tag1, st2, tag2, pid);
    GrowsTransitive(st, tag, st2, tag2, st3, tag3, pid);
    GrowsKeepsTags(st, tag, st1, tag1, pid);
    GrowsKeepsTags(st, tag, st2, tag2, pid);
    SameOutsideWider(st.mem, st1.mem, tag, pid, 0, PROC_START, 0, VM_END);
    SameOutsideWider(st1.mem, st2.mem, tag1, pid, PROC_START, NPAGES, 0, VM_END);
    SameOutsideWider(st2.mem, st3.mem, tag2, pid, VM_END - 1, VM_END, 0, VM_END);
    SameOutsideChain(st.mem, st1.mem, st2.mem, tag, tag1, pid, 0, VM_END);
    SameOutsideChain(st.mem, st2.mem, st3.mem, tag, tag2, pid, 0, VM_END);
  }

  lemma StackKeepsKernel(mem: Memory, mem': Memory, tag: Tags, l: Layout, root: nat, pid: nat)
    requires BothPass(mem, tag, l, root) && IsRoot(tag, root, pid)
        && SameOutside(mem, mem', tag, pid, VM_END - 1, VM_END)
    ensures KernelMapped(mem', root)
  {
    forall v | 0 <= v < PROC_START
      ensures Lookup(mem', root, v) == Lookup(mem, root, v)
    {
    }
  }

  /** Process pid is ready to run program: its own space, segments in place, a stack, entry point. */
  ghost predicate Prepared(s: State, tag: Tags, pid: nat, program: Program)
    requires pid < NPROC && ValidProgram(program)
  {
    var p := s.procs[pid];
    && p.state == P_RUNNABLE && p.table != 0 && IsRoot(tag, p.table, pid)
    && p.regs == Registers(0, 0, 0x30_0000, program.entry, 0, 0, USER_SEGMENTS)
    && AllPlaced(s.store.mem, tag, p.table, pid, program.segments) && StackMapped(s.store.mem, p.table)
    && NothingElse(s.store.mem, p.table, program.segments)
  }

  /** Process pid is ready, exactly the pages needed are gone, the invariant holds, and every process
      that was ready still is. */
  ghost predicate OneMore(s: State, tag: Tags, s': State, tag': Tags, pid: nat, program: Program)
    requires pid < NPROC && ValidProgram(program)
  {
    && Core(s', tag') && Prepared(s', tag', pid, program)
    && s' == s.(store := s'.store, procs := s.procs[pid := s'.procs[pid]])
    && FreeCount(s'.store.info) + 6 + SegmentPages(program.segments) == FreeCount(s.store.info)
    && SetupTook(s.store.info, s'.store.info, pid, program.segments)
    && (forall q, x | 1 <= q < NPROC && q != pid && ValidProgram(x) && Prepared(s, tag, q, x) ::
       Prepared(s', tag', q, x))
  }

  /** process_setup with six free pages below PROC_START_ADDR: it panics exactly when the segments
      cannot have their pages; otherwise the process is ready, exactly the pages needed are gone, the
      invariant holds, and every process that was ready still is. */
  lemma ProcessSetupPrepares(s: State, tag: Tags, pid: nat, program: Program)
    returns (tag': Tags)
    requires Core(s, tag) && !s.status.Panicked? && 1 <= pid < NPROC && s.procs[pid].state == P_FREE
        && ValidProgram(program)
    requires LowFree(s.store.info) >= 6
    ensures ProcessSetup(s, pid, program).status.Panicked? <==> !CanLoad(s.store.info, program.segments)
    ensures var s' := ProcessSetup(s, pid, program);
      !s'.status.Panicked? ==> OneMore(s, tag, s', tag', pid, program)
  {
    hide Core, CanLoad, CopyTable, LoadSegments, Built, Map, GetFree, Prepared, FreeCount, ValidProgram,
        ProcessSetup, SegmentPages, SetupTook, LowFree;
    tag' := SetupBuilds(s, tag, pid, program);
    var s' := ProcessSetup(s, pid, program);
    ProcessSetupShape(s, pid, program);
    if !s'.status.Panicked? {
      BuiltCore(s, tag, s', tag', pid, program);
      forall q, x | 1 <= q < NPROC && q != pid && ValidProgram(x) && Prepared(s, tag, q, x)
        ensures Prepared(s', tag', q, x)
      {
        PreparedStays(s, tag, s', tag', pid, program, q, x);
      }
    }
  }

  lemma {:induction false} ProcessSetupShape(s: State, pid: nat, program: Program)
    requires pid < NPROC && ValidProgram(program) && !CopyTable(s.store, s.layout.kpt, pid).panicked
        && !s.status.Panicked?
    ensures var c := CopyTable(s.store, s.layout.kpt, pid);
      var r := LoadSegments(c.st, s.layout, c.root, pid, program.segments);
      var g := GetFree(r.st.info, pid);
      var m := Map(Store(r.st.mem, g.info), c.root, VM_END - 1, g.pn, 1, PWU, Some(pid));
      var s' := ProcessSetup(s, pid, program);
      && (!r.outcome.Done? ==> s'.status.Panicked?)
      && (r.outcome.Done? && m.outcome.Done? ==>
        && !s'.status.Panicked? && s'.store == m.st
        && s' == s.(store := s'.store, procs := s.procs[pid := s'.procs[pid]])
        && s'.procs[pid] == s.procs[pid].(regs := ProcessInit.(rip := program.entry, rsp := VM_END * PAGE_SIZE),
           table := c.root, state := P_RUNNABLE))
  {
    hide CopyTable, LoadSegments, Map, GetFree;
  }

  lemma BuiltCore(s: State, tag: Tags, s': State, tag': Tags, pid: nat, program: Program)
    requires Core(s, tag) && 1 <= pid < NPROC && s.procs[pid].state == P_FREE && ValidProgram(program)
    requires s' == s.(store := s'.store, procs := s.procs[pid := s'.procs[pid]])
    requires var p := s'.procs[pid];
      && p.pid == s.procs[pid].pid && p.state == P_RUNNABLE && p.table != 0
      && p.regs == ProcessInit.(rip := program.entry, rsp := VM_END * PAGE_SIZE)
      && Built(s.store, tag, s'.store, tag', p.table, pid, program.segments)
    ensures Core(s', tag') && Prepared(s', tag', pid, program)
    ensures FreeCount(s'.store.info) + 6 + SegmentPages(program.segments) == FreeCount(s.store.info)
  {
    hide AllPlaced, StackMapped, WellFormed, FreeCount, SameOutside, Grows, ProcOk, NothingElse;
    GrowthKeepsRest(s, tag, s'.store, tag', pid, 0, VM_END, s'.procs);
    OwnProcOk(s, tag, s'.store.mem, tag', s'.procs[pid], pid);
  }

  lemma OwnProcOk(s: State, tag: Tags, mem': Memory, tag': Tags, p: Proc, pid: nat)
    requires Core(s, tag) && pid < NPROC && p.pid == s.procs[pid].pid && IsRoot(tag', p.table, pid)
        && KernelMapped(mem', p.table)
    ensures ProcOk(mem', tag', p, pid)
  {
    assert ProcOk(s.store.mem, tag, s.procs[pid], pid);
  }

  lemma PreparedStays(s: State, tag: Tags, s': State, tag': Tags, pid: nat, program: Program, q: nat, x: Program)
    requires Core(s, tag) && 1 <= pid < NPROC && ValidProgram(program) && ValidProgram(x)
    requires s' == s.(store := s'.store, procs := s.procs[pid := s'.procs[pid]])
    requires Built(s.store, tag, s'.store, tag', s'.procs[pid].table, pid, program.segments)
    requires 1 <= q < NPROC && q != pid && Prepared(s, tag, q, x)
    ensures Prepared(s', tag', q, x)
  {
    CoreStore(s, tag);
    var table := s.procs[q].table;
    GrowsKeepsTags(s.store, tag, s'.store, tag', pid);
    assert Lookup(s'.store.mem, table, VM_END - 1) == Lookup(s.store.mem, table, VM_END - 1);
    hide OffImage;
    forall v | PROC_START <= v < VPAGES && v != VM_END - 1 && OffImage(x.segments, v)
      ensures Lookup(s'.store.mem, table, v) == Unmapped
    {
      assert Lookup(s'.store.mem, table, v) == Lookup(s.store.mem, table, v);
    }
    hide Core, AllPlaced, WellFormed, Grows, SameOutside, FreeCount;
    AllPlacedStays(s.store, tag, s'.store, tag', table, q, x.segments, pid, 0, VM_END);
  }

  // ---- Who owns what ----

  /** pageinfo_init, address by address: page 0 and the I/O hole from 0xA0000 up to 0x100000 are
      reserved, the kernel's image from 0x40000 on and its stack page at 0x7F000 the kernel's, and
      exactly the other pages free. */
  lemma InitialOwners(l: Layout, p: nat)
    requires p < NPAGES
    ensures (p == 0 || 0xA0 <= p < 0x100) ==> InitialInfo(l)[p] == PageInfo(-1, 1)
    ensures 0 < p < 0xA0 || 0x100 <= p ==>
      InitialInfo(l)[p] == if p == 0x7F || (0x40 <= p && p * 4096 < l.end) then PageInfo(-2, 1) else PageInfo(0, 0)
  {
  }

  // ---- kernel() ----

  predicate ValidPrograms(programs: seq<Program>) {
    forall i | 0 <= i < |programs| :: ValidProgram(programs[i])
  }

  /** The segments of all programs, in the order they are loaded. */
  function AllSegments(programs: seq<Program>): seq<Segment> {
    if programs == [] then [] else programs[0].segments + AllSegments(programs[1..])
  }

  /** All images lie in physical memory, and no two segments share a page. */
  ghost predicate ImagesFit(segs: seq<Segment>) {
    && (forall i, v | 0 <= i < |segs| && 0 <= v && OnPage(segs[i], v) :: v < NPAGES)
    && (forall i, j, v | 0 <= i < j < |segs| && 0 <= v && OnPage(segs[i], v) :: !OnPage(segs[j], v))
  }

  lemma CanLoadPrefix(info: Info, a: seq<Segment>, b: seq<Segment>)
    requires CanLoad(info, a + b)
    ensures CanLoad(info, a)
  {
    hide OnPage, FreePage;
    forall i, v | 0 <= i < |a| && 0 <= v && OnPage(a[i], v)
      ensures FreePage(info, v)
    {
      assert (a + b)[i] == a[i];
    }
    forall i, j, v | 0 <= i < j < |a| && 0 <= v && OnPage(a[i], v)
      ensures !OnPage(a[j], v)
    {
      assert (a + b)[i] == a[i] && (a + b)[j] == a[j];
    }
  }

  /** After some programs have their pages the others can be loaded exactly when all could. */
  lemma CanLoadRest(info: Info, info': Info, pid: nat, a: seq<Segment>, b: seq<Segment>)
    requires SetupTook(info, info', pid, a) && CanLoad(info, a)
    requires forall i | 0 <= i < |b| :: ValidSegment(b[i])
    ensures CanLoad(info, a + b) <==> CanLoad(info', b)
  {
    hide CanLoad, SetupTook, ValidSegment;
    if CanLoad(info, a + b) {
      RestCanLoad(info, info', pid, a, b);
    }
    if CanLoad(info', b) {
      WholeCanLoad(info, info', pid, a, b);
    }
  }

  /** Where two lists of segments are disjoint, the pages of one are off the other. */
  lemma OtherImage(info: Info, a: seq<Segment>, b: seq<Segment>, i: nat, v: nat)
    requires CanLoad(info, a + b) && i < |b| && OnPage(b[i], v)
    ensures OffImage(a, v) && FreePage(info, v)
  {
    hide OnPage, FreePage;
    var whole := a + b;
    assert whole[|a| + i] == b[i];
    forall j | 0 <= j < |a|
      ensures !OnPage(a[j], v)
    {
      assert whole[j] == a[j];
    }
  }

  lemma RestCanLoad(info: Info, info': Info, pid: nat, a: seq<Segment>, b: seq<Segment>)
    requires SetupTook(info, info', pid, a) && CanLoad(info, a + b)
    requires forall i | 0 <= i < |b| :: ValidSegment(b[i])
    ensures CanLoad(info', b)
  {
    forall i, v | 0 <= i < |b| && 0 <= v && OnPage(b[i], v)
      ensures FreePage(info', v)
    {
      OnPageHigh(b[i], v);
      OtherImage(info, a, b, i, v);
    }
    hide OnPage;
    forall i, j, v | 0 <= i < j < |b| && 0 <= v && OnPage(b[i], v)
      ensures !OnPage(b[j], v)
    {
      assert (a + b)[|a| + i] == b[i] && (a + b)[|a| + j] == b[j];
    }
  }

  lemma WholeCanLoad(info: Info, info': Info, pid: nat, a: seq<Segment>, b: seq<Segment>)
    requires SetupTook(info, info', pid, a) && CanLoad(info, a) && CanLoad(info', b)
    requires forall i | 0 <= i < |b| :: ValidSegment(b[i])
    ensures CanLoad(info, a + b)
  {
    hide OnPage, FreePage, SetupTook, ValidSegment, OffImage;
    var whole := a + b;
    forall i, v | 0 <= i < |b| && 0 <= v && OnPage(b[i], v)
      ensures FreePage(info, v) && OffImage(a, v)
    {
      StillFree(info, info', pid, a, b[i], v);
    }
    forall i, v | 0 <= i < |whole| && 0 <= v && OnPage(whole[i], v)
      ensures FreePage(info, v)
    {
      assert whole[i] == if i < |a| then a[i] else b[i - |a|];
    }
    forall i, j, v | 0 <= i < j < |whole| && 0 <= v && OnPage(whole[i], v)
      ensures !OnPage(whole[j], v)
    {
      WholeDisjoint(info, info', a, b, i, j, v);
    }
  }

  /** A page of another image that is free afterwards was free before, and is off the first image. */
  lemma StillFree(info: Info, info': Info, pid: nat, a: seq<Segment>, s: Segment, v: nat)
    requires SetupTook(info, info', pid, a) && ValidSegment(s) && OnPage(s, v) && FreePage(info', v)
    ensures FreePage(info, v) && OffImage(a, v)
  {
    OnPageHigh(s, v);
    hide OffImage, OnPage, LowFree;
    assert info'[v] == if OffImage(a, v) then info[v] else PageInfo(pid, 1);
  }

  lemma WholeDisjoint(info: Info, info': Info, a: seq<Segment>, b: seq<Segment>, i: nat, j: nat, v: nat)
    requires CanLoad(info, a) && CanLoad(info', b) && i < j < |a + b| && OnPage((a + b)[i], v)
    requires forall k | 0 <= k < |b| && OnPage(b[k], v) :: OffImage(a, v)
    ensures !OnPage((a + b)[j], v)
  {
    hide OnPage, FreePage;
    assert (a + b)[i] == if i < |a| then a[i] else b[i - |a|];
    assert (a + b)[j] == if j < |a| then a[j] else b[j - |a|];
  }

  lemma {:induction false} AllSegmentsValid(programs: seq<Program>)
    requires ValidPrograms(programs)
    ensures forall i | 0 <= i < |AllSegments(programs)| :: ValidSegment(AllSegments(programs)[i])
    decreases |programs|
  {
    hide ValidSegment;
    if programs != [] {
      assert ValidProgram(programs[0]);
      AllSegmentsValid(programs[1..]);
    }
  }

  /** Pages that setting up the programs takes: six each, for tables and a stack, and their segments. */
  function PagesNeeded(programs: seq<Program>): nat {
    if programs == [] then 0 else 6 + SegmentPages(programs[0].segments) + PagesNeeded(programs[1..])
  }

  /** Processes pid, pid + 1, ... are ready to run the programs. */
  ghost predicate AllPrepared(s: State, tag: Tags, pid: nat, programs: seq<Program>)
    requires pid + |programs| <= NPROC && ValidPrograms(programs)
  {
    forall i | 0 <= i < |programs| :: Prepared(s, tag, pid + i, programs[i])
  }

  lemma {:induction false} SetupAllPrepares(s: State, tag: Tags, pid: nat, programs: seq<Program>)
    returns (tag': Tags)
    requires Core(s, tag) && !s.status.Panicked? && 1 <= pid && pid + |programs| <= NPROC && ValidPrograms(programs)
    requires (forall q | pid <= q < NPROC :: s.procs[q].state == P_FREE) && LowFree(s.store.info) >= 6 * |programs|
    ensures SetupAll(s, pid, programs).status.Panicked? <==> !CanLoad(s.store.info, AllSegments(programs))
    ensures var s' := SetupAll(s, pid, programs);
      !s'.status.Panicked? ==>
        && Core(s', tag') && AllPrepared(s', tag', pid, programs)
        && s' == s.(store := s'.store, procs := s'.procs)
        && (forall q | 0 <= q < NPROC && (q < pid || pid + |programs| <= q) :: s'.procs[q] == s.procs[q])
        && FreeCount(s'.store.info) + PagesNeeded(programs) == FreeCount(s.store.info)
        && LowFree(s'.store.info) + 6 * |programs| == LowFree(s.store.info)
        && (forall q, x | 1 <= q < pid && ValidProgram(x) && Prepared(s, tag, q, x) :: Prepared(s', tag', q, x))
    decreases |programs|
  {
    hide Core, Prepared, FreeCount, ProcessSetup, ValidProgram, CanLoad, LowFree, SetupTook, ValidSegment;
    tag' := tag;
    if programs == [] {
      NothingToLoad(s.store.info);
    } else {
      assert ValidProgram(programs[0]);
      var s1 := ProcessSetup(s, pid, programs[0]);
      var tag1 := ProcessSetupPrepares(s, tag, pid, programs[0]);
      if s1.status.Panicked? {
        if CanLoad(s.store.info, AllSegments(programs)) {
          CanLoadPrefix(s.store.info, programs[0].segments, AllSegments(programs[1..]));
        }
      } else {
        AllSegmentsValid(programs[1..]);
        CanLoadRest(s.store.info, s1.store.info, pid, programs[0].segments, AllSegments(programs[1..]));
        SetupTookSix(s.store.info, s1.store.info, pid, programs[0].segments);
        tag' := SetupAllPrepares(s1, tag1, pid + 1, programs[1..]);
        var s' := SetupAll(s1, pid + 1, programs[1..]);
        if !s'.status.Panicked? {
          AllPreparedJoins(s', tag', pid, programs);
        }
      }
    }
  }

  lemma SetupTookSix(info: Info, info': Info, pid: nat, segs: seq<Segment>)
    requires SetupTook(info, info', pid, segs)
    ensures LowFree(info') + 6 == LowFree(info)
  {
  }

  lemma AllPreparedJoins(s: State, tag: Tags, pid: nat, programs: seq<Program>)
    requires programs != [] && pid + |programs| <= NPROC && ValidPrograms(programs)
    requires Prepared(s, tag, pid, programs[0]) && AllPrepared(s, tag, pid + 1, programs[1..])
    ensures AllPrepared(s, tag, pid, programs)
  {
    hide Prepared, ValidProgram;
    forall i | 0 <= i < |programs|
      ensures Prepared(s, tag, pid + i, programs[i])
    {
      if i > 0 {
        assert programs[1..][i - 1] == programs[i];
        assert Prepared(s, tag, pid + 1 + (i - 1), programs[1..][i - 1]);
      }
    }
  }

  lemma BeforeSetupCore(mem: Memory, l: Layout)
    requires ValidLayout(l)
    ensures Core(BeforeSetup(mem, l), KernelTags(l))
  {
    KernelStoreWellFormed(mem, l);
    InitialInfoOk(l);
    hide KernelStore, InitialInfo, WellFormed, KernelSpace, InfoOk, KernelTags;
  }

  lemma InitialInfoOk(l: Layout)
    ensures InfoOk(l, InitialInfo(l), NoProcs())
  {
  }

  /** Whatever the linker chose, there are low pages enough for fifteen processes. */
  lemma LowFreeInitially(l: Layout)
    requires ValidLayout(l)
    ensures LowFree(InitialInfo(l)) >= 6 * 15
  {
    hide InitialInfo, InitialOwner, IsFree, FreeFrom;
    InitiallyFree(l);
    FreeRuns(InitialInfo(l), 0, 0x1, 0x40, 0x80, 0xA0, PROC_START);
  }

  lemma {:induction false} FreeRuns(info: Info, z: nat, a: nat, b: nat, c: nat, d: nat, e: nat)
    requires z <= a <= b <= c <= d <= e <= NPAGES
    requires forall p | a <= p < b || c <= p < d :: IsFree(info[p])
    ensures FreeFrom(info, z) >= FreeFrom(info, e) + (b - a) + (d - c)
  {
    hide FreeFrom;
    FreeFalls(info, z, a);
    FreeRun(info, a, b);
    FreeFalls(info, b, c);
    FreeRun(info, c, d);
    FreeFalls(info, d, e);
  }

  lemma {:induction false} FreeRun(info: Info, a: nat, b: nat)
    requires a <= b <= NPAGES && forall p | a <= p < b :: IsFree(info[p])
    ensures FreeFrom(info, a) == FreeFrom(info, b) + (b - a)
  {
    FreeFromFalls(info, a, b);
  }

  lemma {:induction false} FreeFalls(info: Info, a: nat, b: nat)
    requires a <= b <= NPAGES
    ensures FreeFrom(info, b) <= FreeFrom(info, a)
  {
    FreeFromFalls(info, a, b);
  }

  lemma InitiallyFree(l: Layout)
    requires ValidLayout(l)
    ensures forall p | 0x1 <= p < 0x40 || 0x80 <= p < 0xA0 :: IsFree(InitialInfo(l)[p])
  {
  }

  lemma InitiallyFits(l: Layout, segs: seq<Segment>)
    requires ValidLayout(l) && forall i | 0 <= i < |segs| :: ValidSegment(segs[i])
    ensures CanLoad(InitialInfo(l), segs) <==> ImagesFit(segs)
  {
    var info := InitialInfo(l);
    if CanLoad(info, segs) {
      forall i, v | 0 <= i < |segs| && 0 <= v && OnPage(segs[i], v)
        ensures v < NPAGES
      {
        assert FreePage(info, v);
      }
      hide OnPage, FreePage, InitialInfo;
      assert ImagesFit(segs);
    }
    if ImagesFit(segs) {
      forall i, v | 0 <= i < |segs| && 0 <= v && OnPage(segs[i], v)
        ensures FreePage(info, v)
      {
        OnPageHigh(segs[i], v);
        assert v < NPAGES;
      }
      hide OnPage, FreePage, InitialInfo;
      assert CanLoad(info, segs);
    }
  }

  /** From any contents of memory: kernel() panics exactly when the images do not fit or overlap;
      otherwise it starts process 1 in a state that satisfies the invariant, with every program loaded
      in an address space of its own and exactly the pages needed taken. */
  lemma KernelStarts(mem: Memory, l: Layout, programs: seq<Program>)
    returns (tag: Tags)
    requires ValidLayout(l) && 1 <= |programs| < NPROC && ValidPrograms(programs)
    ensures Start(mem, l, programs).status.Panicked? <==> !ImagesFit(AllSegments(programs))
    ensures var s := Start(mem, l, programs);
      !s.status.Panicked? ==>
        && Inv(s, tag) && s.status.Running? && s.current == 1
        && AllPrepared(s, tag, 1, programs)
        && (forall q | |programs| < q < NPROC :: s.procs[q].state == P_FREE)
        && FreeCount(s.store.info) + PagesNeeded(programs) == FreeCount(InitialInfo(l))
        && FreeCount(s.store.info) >= 6 * (NPROC - 1 - |programs|)
  {
    BeforeSetupCore(mem, l);
    KernelStoreWellFormed(mem, l);
    hide Core, Inv, FreeCount, KernelStore, Run, SetupAll, InitialInfo, AllPlaced, NothingElse, KernelSpace,
        WellFormed, SpacesOk, KernelTags;
    hide LowFree, ImagesFit, CanLoad, ValidSegment;
    LowFreeInitially(l);
    AllSegmentsValid(programs);
    InitiallyFits(l, AllSegments(programs));
    tag := SetupAllPrepares(BeforeSetup(mem, l), KernelTags(l), 1, programs);
    var s := SetupAll(BeforeSetup(mem, l), 1, programs);
    if !s.status.Panicked? {
      LowFreeCount(s.store.info);
      assert Prepared(s, tag, 1 + 0, programs[0]);
      RunKeeps(s, tag, 1);
      StartedPrepared(s, tag, Run(s, 1), programs);
    }
  }

  lemma StartedPrepared(s: State, tag: Tags, s': State, programs: seq<Program>)
    requires 1 + |programs| <= NPROC && ValidPrograms(programs) && AllPrepared(s, tag, 1, programs)
    requires s'.store == s.store && s'.procs == s.procs
    ensures AllPrepared(s', tag, 1, programs)
  {
    hide AllPlaced, ValidProgram, NothingElse, StackMapped;
    forall i | 0 <= i < |programs|
      ensures Prepared(s', tag, 1 + i, programs[i])
    {
      assert Prepared(s, tag, 1 + i, programs[i]);
    }
  }

  /** Every run from power-on: until the machine panics the invariant holds, so the kernel's checks
      and the isolation of Runs apply from boot on. */
  lemma BootedRunKeepsInv(mem: Memory, l: Layout, programs: seq<Program>, evs: seq<Event>)
    returns (tag: Tags)
    requires ValidLayout(l) && 1 <= |programs| < NPROC && ValidPrograms(programs)
    requires RunOk(Start(mem, l, programs), evs)
    ensures var s := After(Start(mem, l, programs), evs); !s.status.Panicked? ==> Inv(s, tag)
  {
    tag := KernelStarts(mem, l, programs);
    var s := Start(mem, l, programs);
    hide Inv, Step, Start, FreeCount, InitialInfo;
    if s.status.Panicked? {
      PanicStays(s, evs);
    } else {
      tag := RunKeepsInv(s, tag, evs);
    }
  }

  /** From power-on: of the runs that do not panic, exactly those whose page requests are such as RunOk
      says pass only through states that satisfy the invariant. */
  lemma {:induction false} BootedKeepsExactly(mem: Memory, l: Layout, programs: seq<Program>, evs: seq<Event>)
    requires ValidLayout(l) && 1 <= |programs| < NPROC && ValidPrograms(programs)
    requires !After(Start(mem, l, programs), evs).status.Panicked?
    ensures var s := Start(mem, l, programs);
      RunOk(s, evs) <==> forall k | 0 <= k <= |evs| :: Sound(After(s, evs[..k]))
  {
    hide Inv, After, Start, FreeCount, InitialInfo, Sound, RunOk, ImagesFit, AllPrepared, AllSegments, PagesNeeded;
    var tag := KernelStarts(mem, l, programs);
    var s := Start(mem, l, programs);
    if s.status.Panicked? {
      PanicStays(s, evs);
    } else {
      RunKeepsExactly(s, tag, evs);
    }
  }

  /** From power-on those pages stay reserved and the kernel's in every run, whatever it does. */
  lemma {:induction false} BootedOwners(mem: Memory, l: Layout, programs: seq<Program>, evs: seq<Event>, p: nat)
    requires ValidLayout(l) && 1 <= |programs| < NPROC && ValidPrograms(programs) && p < NPAGES
    requires !Start(mem, l, programs).status.Panicked?
    ensures var info := After(Start(mem, l, programs), evs).store.info;
      && (p == 0 || 0xA0 <= p < 0x100 ==> info[p] == PageInfo(-1, 1))
      && (p == 0x7F || (0x40 <= p && p * 4096 < l.end) ==> info[p] == PageInfo(-2, 1))
  {
    hide After, Start, FreeCount, ImagesFit, AllPrepared, AllSegments, PagesNeeded;
    var tag := KernelStarts(mem, l, programs);
    var s := Start(mem, l, programs);
    StartTicks(mem, l, programs);
    hide InitialInfo;
    BootOwnersStand(s, tag, p);
    RunOwners(s, evs);
  }

  lemma BootOwnersStand(s: State, tag: Tags, p: nat)
    requires Inv(s, tag) && p < NPAGES
    ensures var l, info := s.layout, s.store.info;
      && (p == 0 || 0xA0 <= p < 0x100 ==> info[p] == PageInfo(-1, 1))
      && (p == 0x7F || (0x40 <= p && p * 4096 < l.end) ==> info[p] == PageInfo(-2, 1))
  {
    assert ValidLayout(s.layout) && InfoOk(s.layout, s.store.info, s.procs);
  }

  lemma StartTicks(mem: Memory, l: Layout, programs: seq<Program>)
    requires ValidLayout(l) && 1 <= |programs| < NPROC && ValidPrograms(programs)
    ensures !Start(mem, l, programs).status.Panicked? ==>
      Start(mem, l, programs).layout == l && Start(mem, l, programs).ticks == 0
  {
    hide Core, Prepared, KernelStore, InitialInfo, Run, SetupAll, FreeCount, CanLoad, LowFree, ValidSegment;
    BeforeSetupCore(mem, l);
    LowFreeInitially(l);
    KernelStoreWellFormed(mem, l);
    var _ := SetupAllPrepares(BeforeSetup(mem, l), KernelTags(l), 1, programs);
    RunLayout(SetupAll(BeforeSetup(mem, l), 1, programs), 1);
  }

  lemma RunLayout(s: State, pid: nat)
    requires pid < NPROC
    ensures Run(s, pid).layout == s.layout && Run(s, pid).ticks == s.ticks
  {
    hide SetPagetableOk;
  }

  lemma {:induction false} PanicStays(s: State, evs: seq<Event>)
    requires s.status.Panicked?
    ensures After(s, evs) == s
    decreases |evs|
  {
    if evs != [] {
      PanicStays(s, evs[..|evs| - 1]);
    }
  }
}
