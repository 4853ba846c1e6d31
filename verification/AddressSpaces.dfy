/** The kernel's use of page tables: what each address space may map, and copying the kernel range. */
module AddressSpaces {
  import opened Words
  import opened Pages
  import opened Paging
  import opened MapRanges
  import opened Budget

  /** Page numbers of PROC_START_ADDR, MEMSIZE_VIRTUAL and the console. */
  const PROC_START := 0x100
  const VM_END := 0x300
  const CONSOLE := 0xB8

  /** Permissions of the identity mapping of page v below PROC_START_ADDR. */
  function KernelFlags(v: nat): Flags {
    if v == CONSOLE then PWU else PW
  }

  /** A leaf entry for page v of a space: empty; the identity below PROC_START_ADDR; above it, a
      writable user page that belongs to this space and this page alone. The kernel's own space maps
      all of physical memory to itself. */
  ghost predicate LeafOk(e: Word, tag: Tags, space: int, v: nat) {
    || e == ZERO
    || (v < PROC_START && e == Word(v, KernelFlags(v)))
    || (space == KERNEL && PROC_START <= v < NPAGES && e == Word(v, PWU))
    || (space != KERNEL && PROC_START <= v && e.flags == PWU && e.frame in tag && tag[e.frame] == Frame(space, v))
  }

  ghost predicate Leaves(mem: Memory, tag: Tags) {
    forall q: nat, i | q < NPAGES && IsNode(tag, q, 3) && 0 <= i < NENTRIES ::
      LeafOk(mem[q][i], tag, tag[q].space, tag[q].prefix * NENTRIES + i)
  }

  /** All address spaces are disjoint trees of pages they own, with leaves the kernel allows. */
  ghost predicate WellFormed(st: Store, tag: Tags) {
    && Typed(st.mem, tag) && Owned(st.info, tag) && Leaves(st.mem, tag)
    && !IsFree(st.info[0])
  }

  /** The kernel range of an address space: the identity, with the console open to users. */
  ghost predicate KernelMapped(mem: Memory, root: nat) {
    forall v | 0 <= v < PROC_START :: Lookup(mem, root, v) == Mapped(v, KernelFlags(v))
  }

  lemma LeavesDelta(mem: Memory, tag: Tags, mem': Memory, tag': Tags, space: int, v: nat, e: Word)
    requires Leaves(mem, tag) && LeafDelta(mem, tag, mem', tag', space, v, e)
    requires forall p | p in tag :: p in tag' && tag'[p] == tag[p]
    requires LeafOk(e, tag, space, v)
    ensures Leaves(mem', tag')
  {
    forall q: nat, i | q < NPAGES && IsNode(tag', q, 3) && 0 <= i < NENTRIES
      ensures LeafOk(mem'[q][i], tag', tag'[q].space, tag'[q].prefix * NENTRIES + i)
    {
      if q in tag {
        assert IsNode(tag, q, 3);
        assert LeafOk(mem[q][i], tag, tag[q].space, tag[q].prefix * NENTRIES + i);
      }
    }
  }

  /** What one call of virtual_memory_map does to a well-formed store. */
  ghost predicate MapEffect(st: Store, tag: Tags, root: nat, space: int, v: nat, pn: nat, perm: Flags, r: MapResult,
      tag': Tags) {
    && !r.outcome.Panic?
    && WellFormed(r.st, tag')
    && Grows(st, tag, r.st, tag', space)
    && SameOutside(st.mem, r.st.mem, tag, space, v, v + 1)
    && (r.outcome.Done? ==> Lookup(r.st.mem, root, v) == Target(pn, perm))
    && (r.outcome.Failed? ==> SameOutside(st.mem, r.st.mem, tag, space, v, v))
  }

  /** A one-page call is the page-by-page form: the sentinel is out of reach below 2^48. */
  lemma MapSingle(st: Store, root: nat, v: nat, pn: nat, perm: Flags, alloc: Option<int>)
    requires root < NPAGES && v < VPAGES && pn < NPAGES
    ensures Map(st, root, v, pn, 1, perm, alloc) == MapOne(st, root, v, pn, perm, alloc)
  {
    LowGroup(v);
    assert Canon(v) == v;
  }

  lemma MapEffects(st: Store, tag: Tags, root: nat, space: int, v: nat, pn: nat, perm: Flags, alloc: Option<int>)
    returns (tag': Tags)
    requires WellFormed(st, tag) && IsRoot(tag, root, space) && v < VPAGES && pn < NPAGES
    requires alloc.Some? ==> alloc.value == space
    requires LeafOk(Entry(pn, perm), tag, space, v)
    ensures root < NPAGES
    ensures MapEffect(st, tag, root, space, v, pn, perm, Map(st, root, v, pn, 1, perm, alloc), tag')
  {
    hide Typed, Owned, SameOutside, Grows, Leaves, LeafDelta, LeafOk, Map, MapOne;
    RootInRange(st.mem, tag, root, space);
    MapSingle(st, root, v, pn, perm, alloc);
    tag' := MapOneAgrees(st, tag, root, space, v, pn, perm, alloc);
    var r := MapOne(st, root, v, pn, perm, alloc);
    GrowsKeepsTags(st, tag, r.st, tag', space);
    LeavesDelta(st.mem, tag, r.st.mem, tag', space, v, Entry(pn, perm));
    GrowsKeepsUsed(st, tag, r.st, tag', space, 0);
  }

  lemma GrowsKeepsUsed(st: Store, tag: Tags, st': Store, tag': Tags, space: int, p: nat)
    requires Grows(st, tag, st', tag', space) && p < NPAGES && !IsFree(st.info[p])
    ensures st'.info[p] == st.info[p]
  {
  }

  // ---- copy_pagetable ----

  /** The loop of copy_pagetable from page v on; a map that fails is a panic. */
  function CopyLoop(st: Store, src: nat, dst: nat, v: nat, owner: int): (r: MapResult)
    requires dst < NPAGES && v <= PROC_START
    ensures !r.outcome.Failed?
    decreases PROC_START - v
  {
    if v == PROC_START then MapResult(st, Done) else
    match Lookup(st.mem, src, v)
    case Unmapped => CopyLoop(st, src, dst, v + 1, owner)
    case Mapped(pn, perm) =>
      var r := Map(st, dst, v, pn, 1, perm, Some(owner));
      if r.outcome.Done? then CopyLoop(r.st, src, dst, v + 1, owner) else MapResult(r.st, Panic)
  }

  /** copy_pagetable: the new table (0 for NULL), and whether the kernel panicked on the way. */
  datatype CopyResult = CopyResult(st: Store, root: nat, panicked: bool)

  function CopyTable(st: Store, src: nat, owner: int): (r: CopyResult)
    ensures r.root < NPAGES
  {
    var a := AllocTable(st, owner);
    if a.pn == 0 then CopyResult(a.st, 0, false) else
    var r := CopyLoop(a.st, src, a.pn, 0, owner);
    CopyResult(r.st, a.pn, r.outcome.Panic?)
  }

  /** A table of `owner` that holds the kernel range up to page v and nothing above. */
  ghost predicate CopiedUpTo(mem: Memory, tag: Tags, dst: nat, owner: int, v: nat) {
    && IsRoot(tag, dst, owner)
    && (forall x | 0 <= x < v :: Lookup(mem, dst, x) == Mapped(x, KernelFlags(x)))
    && (forall x | v <= x < VPAGES :: Lookup(mem, dst, x) == Unmapped)
  }

  lemma CopiedStep(m0: Memory, tag: Tags, m1: Memory, tag1: Tags, dst: nat, owner: int, v: nat)
    requires CopiedUpTo(m0, tag, dst, owner, v) && v < PROC_START
    requires forall p | p in tag :: p in tag1 && tag1[p] == tag[p]
    requires SameOutside(m0, m1, tag, owner, v, v + 1) && Lookup(m1, dst, v) == Target(v, KernelFlags(v))
    ensures CopiedUpTo(m1, tag1, dst, owner, v + 1)
  {
    forall x | 0 <= x < VPAGES && x != v
      ensures Lookup(m1, dst, x) == Lookup(m0, dst, x)
    {
      assert x < v || v + 1 <= x;
    }
  }

  /** A fresh zeroed page is the root of an empty table. */
  lemma FreshRoot(st: Store, tag: Tags, owner: int)
    returns (tag': Tags)
    requires WellFormed(st, tag) && AllocTable(st, owner).pn != 0
    ensures var a := AllocTable(st, owner);
      && tag' == tag[a.pn := Table(owner, 0, 0)]
      && WellFormed(a.st, tag') && Grows(st, tag, a.st, tag', owner)
      && SameOutside(st.mem, a.st.mem, tag, owner, 0, 0)
      && CopiedUpTo(a.st.mem, tag', a.pn, owner, 0)
  {
    var a := AllocTable(st, owner);
    assert a.pn !in tag;
    tag' := tag[a.pn := Table(owner, 0, 0)];
    FreshRootTyped(st, tag, owner);
    FreshRootLeaves(st, tag, owner);
    assert Owned(a.st.info, tag');
    FreshRootSame(st, tag, a.st.mem, a.pn);
    SameTranslationsOutside(st.mem, a.st.mem, tag, owner, 0, 0);
  }

  lemma FreshRootTyped(st: Store, tag: Tags, owner: int)
    requires WellFormed(st, tag) && AllocTable(st, owner).pn != 0
    ensures var a := AllocTable(st, owner); Typed(a.st.mem, tag[a.pn := Table(owner, 0, 0)])
  {
    var a := AllocTable(st, owner);
    var tag' := tag[a.pn := Table(owner, 0, 0)];
    assert a.pn !in tag;
    forall p | p in tag' && tag'[p].Table?
      ensures NodeOk(a.st.mem, tag', p)
    {
      if p != a.pn {
        assert NodeOk(st.mem, tag, p);
        assert a.st.mem[p] == st.mem[p];
      }
    }
  }

  lemma FreshRootLeaves(st: Store, tag: Tags, owner: int)
    requires WellFormed(st, tag) && AllocTable(st, owner).pn != 0
    ensures var a := AllocTable(st, owner); Leaves(a.st.mem, tag[a.pn := Table(owner, 0, 0)])
  {
    var a := AllocTable(st, owner);
    var tag' := tag[a.pn := Table(owner, 0, 0)];
    assert a.pn !in tag;
    forall q: nat, i | q < NPAGES && IsNode(tag', q, 3) && 0 <= i < NENTRIES
      ensures LeafOk(a.st.mem[q][i], tag', tag'[q].space, tag'[q].prefix * NENTRIES + i)
    {
      assert IsNode(tag, q, 3);
      assert LeafOk(st.mem[q][i], tag, tag[q].space, tag[q].prefix * NENTRIES + i);
    }
  }

  lemma FreshRootSame(st: Store, tag: Tags, mem': Memory, q: nat)
    requires Typed(st.mem, tag) && q < NPAGES && q !in tag && mem' == st.mem[q := mem'[q]]
    ensures SameTranslations(st.mem, mem', tag)
  {
    forall n, level, v, perms | 0 <= level <= 3 && 0 <= v && IsNode(tag, n, level)
      ensures LookupFrom(mem', n, level, v, perms) == LookupFrom(st.mem, n, level, v, perms)
    {
      LookupFrame(st.mem, mem', tag, n, level, v, perms);
    }
  }

  /** What a finished copy has established. */
  ghost predicate CopyDone(st: Store, tag: Tags, st': Store, tag': Tags, dst: nat, owner: int) {
    && WellFormed(st', tag') && Grows(st, tag, st', tag', owner)
    && SameOutside(st.mem, st'.mem, tag, owner, 0, PROC_START)
    && CopiedUpTo(st'.mem, tag', dst, owner, PROC_START)
    && Missing(st'.mem, dst, 0, 0) == 0 && Missing(st'.mem, dst, 0, NENTRIES) == 1
  }

  /** The kernel range of another space read while this one is being built. */
  lemma KernelMappedKept(m0: Memory, m1: Memory, tag: Tags, src: nat, space: int, owner: int, lo: nat, hi: nat)
    requires KernelMapped(m0, src) && IsRoot(tag, src, space) && space != owner
    requires SameOutside(m0, m1, tag, owner, lo, hi)
    ensures KernelMapped(m1, src)
  {
    forall v | 0 <= v < PROC_START
      ensures Lookup(m1, src, v) == Mapped(v, KernelFlags(v))
    {
      assert Lookup(m1, src, v) == Lookup(m0, src, v);
    }
  }

  /** Once the leaf table of the kernel range exists, the rest of the copy only stores entries. */
  lemma {:induction false} CopyRest(st: Store, tag: Tags, src: nat, space: int, dst: nat, owner: int, v: nat)
    returns (tag': Tags)
    requires WellFormed(st, tag) && IsRoot(tag, src, space) && space != owner && KernelMapped(st.mem, src)
    requires v <= PROC_START && dst < NPAGES && CopiedUpTo(st.mem, tag, dst, owner, v)
    requires Missing(st.mem, dst, 0, 0) == 0 && Missing(st.mem, dst, 0, NENTRIES) == 1
    ensures var r := CopyLoop(st, src, dst, v, owner);
      && r.outcome.Done? && r.st.info == st.info
      && CopyDone(st, tag, r.st, tag', dst, owner)
    decreases PROC_START - v
  {
    hide WellFormed, SameOutside, Grows, KernelMapped, Map;
    if v == PROC_START {
      tag' := tag;
      CopyNothing(st, tag, dst, owner);
    } else {
      KernelMappedAt(st.mem, src, v);
      LowMissing(st.mem, dst, v);
      var tag1 := CopyStep(st, tag, src, space, dst, owner, v);
      var r1 := Map(st, dst, v, v, 1, KernelFlags(v), Some(owner));
      KernelMappedKept(st.mem, r1.st.mem, tag, src, space, owner, v, v + 1);
      tag' := CopyRest(r1.st, tag1, src, space, dst, owner, v + 1);
      CopyDoneTransitive(st, tag, r1.st, tag1, CopyLoop(r1.st, src, dst, v + 1, owner).st, tag', dst, owner, v);
    }
  }

  lemma KernelMappedAt(mem: Memory, src: nat, v: nat)
    requires KernelMapped(mem, src) && v < PROC_START
    ensures Lookup(mem, src, v) == Mapped(v, KernelFlags(v))
  {
  }

  lemma {:induction false} LowMissing(mem: Memory, root: nat, v: nat)
    requires v < NENTRIES
    ensures Missing(mem, root, 0, v) == Missing(mem, root, 0, 0)
  {
    assert Prefix(v, 3) == v / NENTRIES == 0 && Prefix(0, 3) == 0;
    MissingGroup(mem, root, 0, v, 0);
  }

  lemma {:induction false} CopyNothing(st: Store, tag: Tags, dst: nat, owner: int)
    requires WellFormed(st, tag) && CopiedUpTo(st.mem, tag, dst, owner, PROC_START)
    requires Missing(st.mem, dst, 0, 0) == 0 && Missing(st.mem, dst, 0, NENTRIES) == 1
    ensures CopyDone(st, tag, st, tag, dst, owner)
  {
  }

  lemma CopyStep(st: Store, tag: Tags, src: nat, space: int, dst: nat, owner: int, v: nat)
    returns (tag1: Tags)
    requires WellFormed(st, tag) && IsRoot(tag, src, space) && v < PROC_START && dst < NPAGES
    requires CopiedUpTo(st.mem, tag, dst, owner, v) && Missing(st.mem, dst, 0, v) == 0
    ensures var r := Map(st, dst, v, v, 1, KernelFlags(v), Some(owner));
      && r.outcome.Done? && r.st.info == st.info
      && WellFormed(r.st, tag1) && Grows(st, tag, r.st, tag1, owner)
      && SameOutside(st.mem, r.st.mem, tag, owner, v, v + 1)
      && CopiedUpTo(r.st.mem, tag1, dst, owner, v + 1) && IsRoot(tag1, src, space)
      && (forall x | 0 <= x < VPAGES :: Missing(r.st.mem, dst, 0, x) == Missing(st.mem, dst, 0, x))
  {
    var r := Map(st, dst, v, v, 1, KernelFlags(v), Some(owner));
    assert WellFormed(st, tag) ==> Typed(st.mem, tag);
    hide Typed, Owned, Leaves, SameOutside, Grows, Map;
    assert LeafOk(Entry(v, KernelFlags(v)), tag, owner, v);
    tag1 := MapEffects(st, tag, dst, owner, v, v, KernelFlags(v), Some(owner));
    MapSingle(st, dst, v, v, KernelFlags(v), Some(owner));
    MapOnePresent(st, tag, dst, owner, v, v, KernelFlags(v), Some(owner));
    GrowsKeepsTags(st, tag, r.st, tag1, owner);
    CopiedStep(st.mem, tag, r.st.mem, tag1, dst, owner, v);
  }

  lemma CopyDoneTransitive(st: Store, tag: Tags, st1: Store, tag1: Tags, st2: Store, tag2: Tags, dst: nat,
      owner: int, v: nat)
    requires v < PROC_START
    requires Grows(st, tag, st1, tag1, owner) && SameOutside(st.mem, st1.mem, tag, owner, v, v + 1)
    requires CopyDone(st1, tag1, st2, tag2, dst, owner)
    ensures CopyDone(st, tag, st2, tag2, dst, owner)
  {
    hide WellFormed, Grows, CopiedUpTo;
    GrowsTransitive(st, tag, st1, tag1, st2, tag2, owner);
    GrowsKeepsTags(st, tag, st1, tag1, owner);
    forall r, sp, x | IsRoot(tag, r, sp) && 0 <= x < VPAGES && (sp != owner || PROC_START <= x)
      ensures Lookup(st2.mem, r, x) == Lookup(st.mem, r, x)
    {
      assert IsRoot(tag1, r, sp);
      assert Lookup(st1.mem, r, x) == Lookup(st.mem, r, x);
    }
  }

  lemma {:induction false} EmptyRootMissing(mem: Memory, dst: nat, v: nat)
    requires dst < NPAGES && mem[dst] == ZeroPage()
    ensures Missing(mem, dst, 0, v) == 3
  {
  }

  /** The first page of a copy builds the three tables below the root, if they can be had. */
  lemma CopyFirst(st: Store, tag: Tags, dst: nat, owner: int)
    returns (tag1: Tags)
    requires WellFormed(st, tag) && dst < NPAGES && CopiedUpTo(st.mem, tag, dst, owner, 0)
    requires st.mem[dst] == ZeroPage() && owner != FREE
    ensures var r := Map(st, dst, 0, 0, 1, KernelFlags(0), Some(owner));
      && !r.outcome.Panic?
      && (r.outcome.Done? <==> FreeCount(st.info) >= 3)
      && (r.outcome.Done? ==>
        && FreeCount(r.st.info) == FreeCount(st.info) - 3
        && WellFormed(r.st, tag1) && Grows(st, tag, r.st, tag1, owner)
        && SameOutside(st.mem, r.st.mem, tag, owner, 0, 1)
        && CopiedUpTo(r.st.mem, tag1, dst, owner, 1)
        && Missing(r.st.mem, dst, 0, 0) == 0 && Missing(r.st.mem, dst, 0, NENTRIES) == 1)
  {
    assert WellFormed(st, tag) ==> Typed(st.mem, tag) && Owned(st.info, tag);
    hide Typed, Owned, Leaves, SameOutside, Grows, Map;
    var r := Map(st, dst, 0, 0, 1, KernelFlags(0), Some(owner));
    MapSingle(st, dst, 0, 0, KernelFlags(0), Some(owner));
    EmptyRootMissing(st.mem, dst, 0);
    MapOneBudget(st, tag, dst, owner, 0, 0, KernelFlags(0));
    tag1 := MapEffects(st, tag, dst, owner, 0, 0, KernelFlags(0), Some(owner));
    if r.outcome.Done? {
      GrowsKeepsTags(st, tag, r.st, tag1, owner);
      CopiedStep(st.mem, tag, r.st.mem, tag1, dst, owner, 0);
      MapOneMissing(st, tag, dst, owner, 0, 0, KernelFlags(0), Some(owner), 0);
      NearMissing(st, tag, dst, owner);
    }
  }

  lemma {:induction false} NearMissing(st: Store, tag: Tags, dst: nat, owner: int)
    requires Typed(st.mem, tag) && Owned(st.info, tag) && IsRoot(tag, dst, owner) && dst < NPAGES
    requires st.mem[dst] == ZeroPage() && owner != FREE
    requires MapOne(st, dst, 0, 0, KernelFlags(0), Some(owner)).outcome.Done?
    ensures Missing(MapOne(st, dst, 0, 0, KernelFlags(0), Some(owner)).st.mem, dst, 0, NENTRIES) == 1
  {
    hide Typed, Owned, Grows, SameTranslations, LeavesKept;
    PrefixRoot(0);
    SecondLeaf();
    EmptyRootMissing(st.mem, dst, NENTRIES);
    var w := WalkFrom(st, dst, 0, 0, KernelFlags(0), Some(owner));
    var tag' := WalkKeeps(st, tag, dst, 0, 0, KernelFlags(0), Some(owner));
    RootKept(st, tag, w.st, tag', dst, owner);
    WalkMissingNear(st, tag, dst, 0, 0, KernelFlags(0), owner, NENTRIES);
    LeafOf(w.st.mem, tag', dst, owner, 0);
    MissingAfterStore(w.st.mem, tag', dst, w.walk.pt, 0, Entry(0, KernelFlags(0)), NENTRIES);
  }

  lemma SecondLeaf()
    ensures Prefix(NENTRIES, 3) == 1 && Prefix(NENTRIES, 2) == 0 && Prefix(0, 2) == 0 && Prefix(0, 3) == 0
  {
    assert Prefix(NENTRIES, 4) == NENTRIES && Prefix(0, 4) == 0;
  }

  lemma {:induction false} MissingAfterStore(mem: Memory, tag: Tags, root: nat, q: nat, i: nat, w: Word, v: nat)
    requires Typed(mem, tag) && IsNode(tag, root, 0) && IsNode(tag, q, 3) && q < NPAGES && i < NENTRIES
    ensures Missing(SetEntry(mem, q, i, w), root, 0, v) == Missing(mem, root, 0, v)
  {
    MissingFrame(mem, SetEntry(mem, q, i, w), tag, root, 0, v);
  }

  /** copy_pagetable gives the new owner a table with the source's kernel range and nothing else,
      changes no other translation, and takes exactly four pages; it returns NULL exactly when no
      page is free, and panics exactly when one, two or three are. */
  lemma CopyTableCopies(st: Store, tag: Tags, src: nat, space: int, owner: int)
    returns (tag': Tags)
    requires WellFormed(st, tag) && IsRoot(tag, src, space) && KernelMapped(st.mem, src)
    requires space != owner && owner != FREE
    ensures var r := CopyTable(st, src, owner);
      && (r.root == 0 <==> FreeCount(st.info) == 0)
      && (r.root == 0 ==> r.st == st && !r.panicked)
      && (r.panicked <==> 1 <= FreeCount(st.info) <= 3)
      && (FreeCount(st.info) >= 4 ==>
        && FreeCount(r.st.info) == FreeCount(st.info) - 4
        && CopyDone(st, tag, r.st, tag', r.root, owner)
        && (forall v | 0 <= v < PROC_START ::
          Lookup(r.st.mem, r.root, v) == Lookup(r.st.mem, src, v) == Lookup(st.mem, src, v))
        && (forall v | PROC_START <= v < VPAGES :: Lookup(r.st.mem, r.root, v) == Unmapped))
  {
    GetFreeTakesLowest(st.info, owner);
    var a := AllocTable(st, owner);
    tag' := tag;
    if a.pn != 0 {
      hide WellFormed, Grows, SameOutside, KernelMapped, Map;
      var tag0 := FreshRoot(st, tag, owner);
      assert a.st.mem[a.pn] == ZeroPage();
      KernelMappedKept(st.mem, a.st.mem, tag, src, space, owner, 0, 0);
      KernelMappedAt(a.st.mem, src, 0);
      var r1 := Map(a.st, a.pn, 0, 0, 1, KernelFlags(0), Some(owner));
      var tag1 := CopyFirst(a.st, tag0, a.pn, owner);
      if r1.outcome.Done? {
        GrowsKeepsTags(st, tag, a.st, tag0, owner);
        GrowsKeepsTags(a.st, tag0, r1.st, tag1, owner);
        KernelMappedKept(a.st.mem, r1.st.mem, tag0, src, space, owner, 0, 1);
        tag' := CopyRest(r1.st, tag1, src, space, a.pn, owner, 1);
        var st' := CopyTable(st, src, owner).st;
        CopyDoneTransitive(a.st, tag0, r1.st, tag1, st', tag', a.pn, owner, 0);
        CopyDoneFromRoot(st, tag, a.st, tag0, st', tag', a.pn, owner);
        KernelMappedKept(st.mem, st'.mem, tag, src, space, owner, 0, PROC_START);
        CopyAgrees(st.mem, st'.mem, tag', src, a.pn, owner);
      }
    }
  }

  lemma CopyDoneFromRoot(st: Store, tag: Tags, st0: Store, tag0: Tags, st': Store, tag': Tags, dst: nat, owner: int)
    requires Grows(st, tag, st0, tag0, owner) && SameOutside(st.mem, st0.mem, tag, owner, 0, 0)
    requires CopyDone(st0, tag0, st', tag', dst, owner)
    ensures CopyDone(st, tag, st', tag', dst, owner)
  {
    hide WellFormed, Grows, CopiedUpTo, SameOutside;
    GrowsTransitive(st, tag, st0, tag0, st', tag', owner);
    GrowsKeepsTags(st, tag, st0, tag0, owner);
    SameOutsideTransitive(st.mem, st0.mem, st'.mem, tag, tag0, owner, 0, 0, PROC_START);
  }

  lemma CopyAgrees(mem: Memory, mem': Memory, tag': Tags, src: nat, dst: nat, owner: int)
    requires KernelMapped(mem, src) && KernelMapped(mem', src) && CopiedUpTo(mem', tag', dst, owner, PROC_START)
    ensures forall v | 0 <= v < PROC_START :: Lookup(mem', dst, v) == Lookup(mem', src, v) == Lookup(mem, src, v)
    ensures forall v | PROC_START <= v < VPAGES :: Lookup(mem', dst, v) == Unmapped
  {
  }
}
