/** Loading an ELF image into a process: pages are assigned and mapped, then bytes are copied and
    cleared through the process's own page table. */
module Loader {
  import opened Words
  import opened Pages
  import opened Paging
  import opened MapRanges
  import opened Budget
  import opened AddressSpaces
  import opened Forking
  import opened KernelState
  import opened Invariant
  import opened Bytes

  /** A program header, with the image from p_offset on. */
  datatype Segment = Segment(loadable: bool, va: nat, filesz: nat, memsz: nat, src: seq<Byte>)

  datatype Program = Program(segments: seq<Segment>, entry: Word64)

  /** What the loader takes for granted of an image: sizes in order, user addresses, and enough of
      the image behind the segment's data. */
  predicate ValidSegment(s: Segment) {
    && s.filesz <= s.memsz && PROC_START * PAGE_SIZE <= s.va
    && s.filesz + s.va % PAGE_SIZE <= |s.src|
  }

  predicate ValidProgram(p: Program) {
    forall i | 0 <= i < |p.segments| :: ValidSegment(p.segments[i])
  }

  /** First page of a segment, and the page after its last. */
  function First(s: Segment): nat {
    s.va / PAGE_SIZE
  }

  function Last(s: Segment): nat {
    var hi := (s.va + s.memsz + PAGE_SIZE - 1) / PAGE_SIZE;
    if First(s) * PAGE_SIZE >= s.va + s.memsz then First(s) else hi
  }

  /** The loop that assigns and identity-maps pages from v up to an end address. */
  function AssignLoop(st: Store, root: nat, v: nat, end: nat, owner: int): (r: MapResult)
    requires root < NPAGES
    decreases end - v * PAGE_SIZE
  {
    if v * PAGE_SIZE >= end then MapResult(st, Done)
    else if !Assignable(st.info, v) then MapResult(st, Failed)
    else
      var r := Map(Store(st.mem, st.info[v := PageInfo(owner, 1)]), root, v, v, 1, PWU, None);
      if r.outcome.Done? then AssignLoop(r.st, root, v + 1, end, owner) else r
  }

  /** What memcpy and memset store from the rounded-down address on. */
  function Contents(s: Segment): seq<Byte>
    requires ValidSegment(s)
  {
    s.src[..s.filesz + s.va % PAGE_SIZE] + seq(s.memsz - s.filesz, _ => 0)
  }

  /** program_load_segment. A store that faults would be a kernel page fault, which panics. */
  function LoadSegment(st: Store, l: Layout, root: nat, owner: int, s: Segment): (r: MapResult)
    requires root < NPAGES && ValidSegment(s)
  {
    var r := AssignLoop(st, root, First(s), s.va + s.memsz, owner);
    if !r.outcome.Done? then r
    else if !SetPagetableOk(r.st.mem, l, root) then MapResult(r.st, Panic)
    else
      match StoreBytes(r.st.mem, root, First(s) * PAGE_SIZE, Contents(s))
      case None => MapResult(r.st, Panic)
      case Some(m) => MapResult(Store(m, r.st.info), if SetPagetableOk(m, l, l.kpt) then Done else Panic)
  }

  /** program_load's loop over the program headers. */
  function LoadSegments(st: Store, l: Layout, root: nat, owner: int, segs: seq<Segment>): (r: MapResult)
    requires root < NPAGES && forall i | 0 <= i < |segs| :: ValidSegment(segs[i])
    decreases |segs|
  {
    if segs == [] then MapResult(st, Done)
    else if !segs[0].loadable then LoadSegments(st, l, root, owner, segs[1..])
    else
      var r := LoadSegment(st, l, root, owner, segs[0]);
      if r.outcome.Done? then LoadSegments(r.st, l, root, owner, segs[1..]) else r
  }

  // ---- What loading establishes ----

  /** The allocator's counts are in order: an unreferenced page has no owner. */
  ghost predicate CountsOk(info: Info) {
    forall p | 0 <= p < NPAGES :: info[p].refcount == 0 ==> info[p].owner == FREE
  }

  /** A space under construction that can map user pages below 0x200000 without allocating. */
  ghost predicate Loadable(st: Store, tag: Tags, root: nat, space: int) {
    && WellFormed(st, tag) && CountsOk(st.info) && IsRoot(tag, root, space)
    && root < NPAGES && Missing(st.mem, root, 0, 0) == 0 && Missing(st.mem, root, 0, NENTRIES) == 1
  }

  /** The segment read back through the page table: the image's bytes, then zeros, to p_memsz. Its
      pages are the space's own. For a page-aligned segment this is the placement ELF asks for;
      otherwise the data starts at the page boundary below p_va. */
  ghost predicate Placed(mem: Memory, tag: Tags, root: nat, space: int, s: Segment)
    requires ValidSegment(s)
  {
    && Loaded(mem, tag, root, space, First(s), Last(s))
    && forall a | First(s) * PAGE_SIZE <= a < s.va + s.memsz ::
      LoadByte(mem, root, a) == Some(Contents(s)[a - First(s) * PAGE_SIZE])
  }

  predicate FreePage(info: Info, v: nat) {
    v < NPAGES && IsFree(info[v])
  }

  /** What changing one space by taking the free pages [lo, hi) amounts to. */
  ghost predicate Took(st: Store, tag: Tags, st': Store, tag': Tags, space: int, lo: nat, hi: nat) {
    && Grows(st, tag, st', tag', space) && SameOutside(st.mem, st'.mem, tag, space, lo, hi)
    && lo <= hi && (forall v | lo <= v < hi :: FreePage(st.info, v))
    && FreeCount(st'.info) == FreeCount(st.info) - (hi - lo)
    && TookPages(st.info, st'.info, space, lo, hi)
  }

  /** Pages [lo, hi) now belong to a space; no other page has changed hands. */
  ghost predicate TookPages(info: Info, info': Info, space: int, lo: nat, hi: nat) {
    forall p | 0 <= p < NPAGES :: info'[p] == if lo <= p < hi then PageInfo(space, 1) else info[p]
  }

  /** Pages [lo, hi) of a space, as far as they are pages of memory, are free. */
  predicate NoneInUse(info: Info, lo: nat, hi: nat) {
    forall v | lo <= v < hi && v < NPAGES :: FreePage(info, v)
  }

  lemma AssignStep(st: Store, tag: Tags, root: nat, space: int, v: nat)
    returns (tag': Tags)
    requires Loadable(st, tag, root, space) && root < NPAGES && space != KERNEL && space != FREE
    requires PROC_START <= v && Assignable(st.info, v)
    ensures var r := Map(Store(st.mem, st.info[v := PageInfo(space, 1)]), root, v, v, 1, PWU, None);
      && r.outcome.Done? && Loadable(r.st, tag', root, space)
      && r.st.info == st.info[v := PageInfo(space, 1)]
      && Took(st, tag, r.st, tag', space, v, v + 1)
      && Loaded(r.st.mem, tag', root, space, v, v + 1)
  {
    hide Loadable, Map, SameOutside, Grows, WellFormed, FreeCount, Missing, Lookup;
    var st1 := Store(st.mem, st.info[v := PageInfo(space, 1)]);
    var tag1 := tag[v := Frame(space, v)];
    AssignStepTakes(st, tag, root, space, v);
    var r := Map(st1, root, v, v, 1, PWU, None);
    tag' := AssignStepMaps(st1, tag1, root, space, v);
    TookOne(st, tag, st1, tag1, r.st, tag', space, v);
  }

  lemma {:induction false} AssignStepTakes(st: Store, tag: Tags, root: nat, space: int, v: nat)
    requires Loadable(st, tag, root, space) && Assignable(st.info, v) && space != FREE
    ensures var st1 := Store(st.mem, st.info[v := PageInfo(space, 1)]);
      var tag1 := tag[v := Frame(space, v)];
      && IsFree(st.info[v]) && FreeCount(st1.info) == FreeCount(st.info) - 1 && CountsOk(st1.info)
      && WellFormed(st1, tag1) && Grows(st, tag, st1, tag1, space) && SameOutside(st.mem, st1.mem, tag, space, v, v)
      && IsRoot(tag1, root, space) && root < NPAGES
      && Missing(st1.mem, root, 0, 0) == 0 && Missing(st1.mem, root, 0, NENTRIES) == 1
  {
    hide Map, SameOutside, Grows, WellFormed, Missing, Lookup;
    assert GivePage(st, v, st.mem[v], space) == Store(st.mem, st.info[v := PageInfo(space, 1)]);
    NewFrame(st, tag, v, st.mem[v], space, v);
    FreeFromUpdate(st.info, v, PageInfo(space, 1), 0);
  }

  lemma AssignStepMaps(st1: Store, tag1: Tags, root: nat, space: int, v: nat)
    returns (tag': Tags)
    requires WellFormed(st1, tag1) && IsRoot(tag1, root, space) && root < NPAGES && CountsOk(st1.info)
    requires space != KERNEL && PROC_START <= v < NPAGES && v in tag1 && tag1[v] == Frame(space, v)
    requires Missing(st1.mem, root, 0, 0) == 0 && Missing(st1.mem, root, 0, NENTRIES) == 1
    ensures var r := Map(st1, root, v, v, 1, PWU, None);
      && r.outcome.Done? && r.st.info == st1.info && Loadable(r.st, tag', root, space)
      && Grows(st1, tag1, r.st, tag', space) && SameOutside(st1.mem, r.st.mem, tag1, space, v, v + 1)
      && Loaded(r.st.mem, tag', root, space, v, v + 1)
  {
    LowMissing(st1.mem, root, v);
    WellFormedParts(st1, tag1);
    assert LeafOk(Entry(v, PWU), tag1, space, v);
    hide Typed, Owned, Leaves, Map, SameOutside, Grows, WellFormed, LeafOk;
    MapSingle(st1, root, v, v, PWU, None);
    MapOnePresent(st1, tag1, root, space, v, v, PWU, None);
    tag' := MapEffects(st1, tag1, root, space, v, v, PWU, None);
    GrowsKeepsTags(st1, tag1, Map(st1, root, v, v, 1, PWU, None).st, tag', space);
  }

  lemma TookOne(st: Store, tag: Tags, st1: Store, tag1: Tags, st2: Store, tag2: Tags, space: int, v: nat)
    requires v < NPAGES && IsFree(st.info[v]) && FreeCount(st1.info) == FreeCount(st.info) - 1
    requires st2.info == st1.info == st.info[v := PageInfo(space, 1)]
    requires Grows(st, tag, st1, tag1, space) && SameOutside(st.mem, st1.mem, tag, space, v, v)
    requires Grows(st1, tag1, st2, tag2, space) && SameOutside(st1.mem, st2.mem, tag1, space, v, v + 1)
    ensures Took(st, tag, st2, tag2, space, v, v + 1)
  {
    hide SameOutside, Grows, FreeCount;
    GrowsTransitive(st, tag, st1, tag1, st2, tag2, space);
    GrowsKeepsTags(st, tag, st1, tag1, space);
    SameOutsideTransitive(st.mem, st1.mem, st2.mem, tag, tag1, space, v, v, v + 1);
  }

  lemma {:induction false} AssignMaps(st: Store, tag: Tags, root: nat, space: int, v: nat, end: nat)
    returns (tag': Tags, hi: nat)
    requires Loadable(st, tag, root, space) && root < NPAGES && space != KERNEL && space != FREE && PROC_START <= v
    ensures var r := AssignLoop(st, root, v, end, space);
      && !r.outcome.Panic?
      && (!r.outcome.Done? ==> exists x :: v <= x && x * PAGE_SIZE < end && !FreePage(st.info, x))
      && (r.outcome.Done? ==>
        && hi == (if v * PAGE_SIZE >= end then v else (end + PAGE_SIZE - 1) / PAGE_SIZE)
        && Loadable(r.st, tag', root, space) && Took(st, tag, r.st, tag', space, v, hi)
        && Loaded(r.st.mem, tag', root, space, v, hi))
    decreases end - v * PAGE_SIZE
  {
    hide Loadable, Took, Map, Loaded;
    tag', hi := tag, v;
    if v * PAGE_SIZE >= end {
      TookNothing(st, tag, root, space, v);
    } else if Assignable(st.info, v) {
      var tag1 := AssignStep(st, tag, root, space, v);
      var r1 := Map(Store(st.mem, st.info[v := PageInfo(space, 1)]), root, v, v, 1, PWU, None);
      tag', hi := AssignMaps(r1.st, tag1, root, space, v + 1, end);
      var r := AssignLoop(st, root, v, end, space);
      if r.outcome.Done? {
        TookMore(st, tag, r1.st, tag1, r.st, tag', root, space, v, hi);
      } else {
        var x :| v + 1 <= x && x * PAGE_SIZE < end && !FreePage(r1.st.info, x);
        assert !FreePage(st.info, x);
      }
    } else {
      assert !FreePage(st.info, v);
    }
  }

  lemma TookNothing(st: Store, tag: Tags, root: nat, space: int, v: nat)
    requires Loadable(st, tag, root, space)
    ensures Took(st, tag, st, tag, space, v, v) && Loaded(st.mem, tag, root, space, v, v)
  {
  }

  lemma TookMore(st: Store, tag: Tags, st1: Store, tag1: Tags, st2: Store, tag2: Tags, root: nat, space: int, v: nat,
      hi: nat)
    requires Loadable(st1, tag1, root, space) && v < VPAGES
    requires Took(st, tag, st1, tag1, space, v, v + 1) && Loaded(st1.mem, tag1, root, space, v, v + 1)
    requires Took(st1, tag1, st2, tag2, space, v + 1, hi) && Loaded(st2.mem, tag2, root, space, v + 1, hi)
    ensures Took(st, tag, st2, tag2, space, v, hi) && Loaded(st2.mem, tag2, root, space, v, hi)
  {
    hide Loadable, FreeCount;
    TookTransitive(st, tag, st1, tag1, st2, tag2, space, v, v + 1, hi);
    LoadedRoot(st1, tag1, root, space);
    LoadedStays(st1, tag1, st2, tag2, root, space, v, v + 1, space, v + 1, hi);
    hide Took;
  }

  lemma LoadedRoot(st: Store, tag: Tags, root: nat, space: int)
    requires Loadable(st, tag, root, space)
    ensures IsRoot(tag, root, space) && WellFormed(st, tag) && Owned(st.info, tag)
  {
  }

  lemma TookTransitive(st: Store, tag: Tags, st1: Store, tag1: Tags, st2: Store, tag2: Tags, space: int, lo: nat,
      mid: nat, hi: nat)
    requires Took(st, tag, st1, tag1, space, lo, mid) && Took(st1, tag1, st2, tag2, space, mid, hi)
    ensures Took(st, tag, st2, tag2, space, lo, hi)
  {
    FreeBefore(st, tag, st1, tag1, space);
    forall v | lo <= v < hi
      ensures FreePage(st.info, v)
    {
      if mid <= v {
        assert FreePage(st1.info, v);
      }
    }
    hide SameOutside, Grows, FreeCount;
    GrowsTransitive(st, tag, st1, tag1, st2, tag2, space);
    GrowsKeepsTags(st, tag, st1, tag1, space);
    SameOutsideTransitive(st.mem, st1.mem, st2.mem, tag, tag1, space, lo, mid, hi);
  }

  lemma FreeBefore(st: Store, tag: Tags, st1: Store, tag1: Tags, space: int)
    requires Grows(st, tag, st1, tag1, space)
    ensures forall p | 0 <= p < NPAGES && IsFree(st1.info[p]) :: IsFree(st.info[p])
  {
  }

  /** Loaded pages stay loaded while this space or another maps other pages. */
  lemma LoadedStays(st: Store, tag: Tags, st': Store, tag': Tags, root: nat, space: int, a: nat, b: nat, who: int,
      lo: nat, hi: nat)
    requires Owned(st.info, tag) && IsRoot(tag, root, space) && Loaded(st.mem, tag, root, space, a, b)
    requires Grows(st, tag, st', tag', who) && SameOutside(st.mem, st'.mem, tag, who, lo, hi)
    requires who == space ==> NoneInUse(st.info, lo, hi)
    ensures Loaded(st'.mem, tag', root, space, a, b)
  {
    forall v | a <= v < b
      ensures v < NPAGES && v in tag' && tag'[v] == Frame(space, v) && Lookup(st'.mem, root, v) == Mapped(v, PWU)
    {
      hide LookupFrom;
      assert Lookup(st.mem, root, v) == Mapped(v, PWU);
      assert !FreePage(st.info, v);
      assert space != who || v < lo || hi <= v;
      assert IsRoot(tag, root, space) && v < VPAGES;
      assert Lookup(st'.mem, root, v) == Lookup(st.mem, root, v);
    }
  }

  /** The two tables set_pagetable is asked about while loading. */
  ghost predicate BothPass(mem: Memory, tag: Tags, l: Layout, root: nat) {
    ValidLayout(l) && KernelSpace(mem, tag, l) && KernelMapped(mem, root)
  }

  lemma BothPassStays(st: Store, tag: Tags, st': Store, tag': Tags, l: Layout, root: nat, space: int, lo: nat,
      hi: nat)
    requires BothPass(st.mem, tag, l, root) && IsRoot(tag, root, space) && space != KERNEL && PROC_START <= lo
    requires (forall p | p in tag :: p in tag' && tag'[p] == tag[p]) && SameOutside(st.mem, st'.mem, tag, space, lo, hi)
    ensures BothPass(st'.mem, tag', l, root)
  {
    forall v | 0 <= v < NPAGES
      ensures Lookup(st'.mem, l.kpt, v) == Lookup(st.mem, l.kpt, v)
    {
      assert IsRoot(tag, l.kpt, KERNEL);
    }
    forall v | 0 <= v < PROC_START
      ensures Lookup(st'.mem, root, v) == Lookup(st.mem, root, v)
    {
    }
  }

  lemma BothPassed(mem: Memory, tag: Tags, l: Layout, root: PageNumber)
    requires BothPass(mem, tag, l, root)
    ensures SetPagetableOk(mem, l, root) && SetPagetableOk(mem, l, l.kpt)
  {
    KernelSpaceMapped(mem, tag, l);
    SetPagetablePasses(mem, tag, l, root);
    SetPagetablePasses(mem, tag, l, l.kpt);
  }

  /** One segment: it fails exactly when a page of it is not free; otherwise it is placed, by taking
      exactly its own pages, all of them free before. */
  lemma LoadSegmentPlaces(st: Store, tag: Tags, l: Layout, root: PageNumber, space: int, s: Segment)
    returns (tag': Tags)
    requires Loadable(st, tag, root, space) && space != KERNEL && space != FREE
    requires ValidSegment(s) && BothPass(st.mem, tag, l, root)
    ensures var r := LoadSegment(st, l, root, space, s);
      && !r.outcome.Panic?
      && (r.outcome.Done? <==> forall v | First(s) <= v < Last(s) :: FreePage(st.info, v))
      && (r.outcome.Done? ==>
        && Loadable(r.st, tag', root, space) && Took(st, tag, r.st, tag', space, First(s), Last(s))
        && BothPass(r.st.mem, tag', l, root) && Placed(r.st.mem, tag', root, space, s))
  {
    var hi;
    hide Took, Loaded, Loadable, AssignLoop, StoreBytes, SetPagetableOk, BothPass;
    LoadedRoot(st, tag, root, space);
    tag', hi := AssignMaps(st, tag, root, space, First(s), s.va + s.memsz);
    var r := AssignLoop(st, root, First(s), s.va + s.memsz, space);
    if !r.outcome.Done? {
      var x :| First(s) <= x && x * PAGE_SIZE < s.va + s.memsz && !FreePage(st.info, x);
      assert x < Last(s);
    } else {
      TookParts(st, tag, r.st, tag', space, First(s), Last(s));
      BothPassStays(st, tag, r.st, tag', l, root, space, First(s), Last(s));
      BothPassed(r.st.mem, tag', l, root);
      LoadedRoot(r.st, tag', root, space);
      SegmentFits(s);
      StoreBytesStores(r.st, tag', root, space, First(s), Last(s), First(s) * PAGE_SIZE, Contents(s));
      var m := StoreBytes(r.st.mem, root, First(s) * PAGE_SIZE, Contents(s)).value;
      FilledIn(st, tag, r.st, tag', m, l, root, space, s);
      BothPassed(m, tag', l, root);
    }
  }

  lemma SegmentFits(s: Segment)
    requires ValidSegment(s)
    ensures PROC_START <= First(s) && |Contents(s)| == s.memsz + s.va % PAGE_SIZE
    ensures First(s) * PAGE_SIZE + |Contents(s)| == s.va + s.memsz
    ensures Contents(s) != [] ==> s.va + s.memsz <= Last(s) * PAGE_SIZE
  {
  }

  lemma TookParts(st: Store, tag: Tags, st': Store, tag': Tags, space: int, lo: nat, hi: nat)
    requires Took(st, tag, st', tag', space, lo, hi)
    ensures SameOutside(st.mem, st'.mem, tag, space, lo, hi)
    ensures forall p | p in tag :: p in tag' && tag'[p] == tag[p]
    ensures forall v | lo <= v < hi :: FreePage(st.info, v)
  {
  }

  lemma TookGrew(st: Store, tag: Tags, st': Store, tag': Tags, space: int, lo: nat, hi: nat)
    requires Took(st, tag, st', tag', space, lo, hi)
    ensures Grows(st, tag, st', tag', space) && SameOutside(st.mem, st'.mem, tag, space, lo, hi)
        && NoneInUse(st.info, lo, hi)
    ensures TookPages(st.info, st'.info, space, lo, hi)
  {
  }

  /** Filling the pages just taken. */
  lemma FilledIn(st: Store, tag: Tags, st1: Store, tag1: Tags, m: Memory, l: Layout, root: PageNumber, space: int,
      s: Segment)
    requires ValidSegment(s) && Took(st, tag, st1, tag1, space, First(s), Last(s)) && Loadable(st1, tag1, root, space)
    requires BothPass(st1.mem, tag1, l, root) && space != KERNEL
    requires BytesStored(st1, tag1, root, First(s), Last(s), First(s) * PAGE_SIZE, Contents(s), m)
    requires Loaded(m, tag1, root, space, First(s), Last(s))
    ensures var st2 := Store(m, st1.info);
      && Loadable(st2, tag1, root, space) && Took(st, tag, st2, tag1, space, First(s), Last(s))
      && BothPass(m, tag1, l, root) && Placed(m, tag1, root, space, s)
  {
    hide Took, Loadable, BothPass, Loaded, LoadByte, Contents, WellFormed, SameTranslations, OnlyPages, SameOutside;
    LoadedRoot(st1, tag1, root, space);
    SegmentFits(s);
    SameTranslationsOutside(st1.mem, m, tag1, space, First(s), First(s));
    BothPassStays(st1, tag1, Store(m, st1.info), tag1, l, root, space, First(s), First(s));
    FilledTook(st, tag, st1, tag1, m, space, First(s), Last(s));
    FilledLoadable(st1, tag1, m, root, space, First(s), Last(s));
    forall a | First(s) * PAGE_SIZE <= a < s.va + s.memsz
      ensures LoadByte(m, root, a) == Some(Contents(s)[a - First(s) * PAGE_SIZE])
    {
      assert First(s) * PAGE_SIZE <= a < Last(s) * PAGE_SIZE;
    }
  }

  lemma FilledTook(st: Store, tag: Tags, st1: Store, tag1: Tags, m: Memory, space: int, lo: nat, hi: nat)
    requires Took(st, tag, st1, tag1, space, lo, hi) && OnlyPages(st1.mem, m, lo, hi)
    requires SameOutside(st1.mem, m, tag1, space, lo, lo)
    ensures Took(st, tag, Store(m, st1.info), tag1, space, lo, hi)
  {
    GrowsKeepsTags(st, tag, st1, tag1, space);
    forall p | 0 <= p < NPAGES
      ensures m[p] == st.mem[p] || IsFree(st.info[p]) || (p in tag && tag[p].Table? && tag[p].space == space)
    {
      if lo <= p < hi {
        assert FreePage(st.info, p);
      } else {
        assert m[p] == st1.mem[p];
      }
    }
    forall r, sp, x | IsRoot(tag, r, sp) && 0 <= x < VPAGES && (sp != space || x < lo || hi <= x)
      ensures Lookup(m, r, x) == Lookup(st.mem, r, x)
    {
      assert IsRoot(tag1, r, sp);
      assert Lookup(m, r, x) == Lookup(st1.mem, r, x);
    }
  }

  lemma FilledLoadable(st: Store, tag: Tags, m: Memory, root: nat, space: int, lo: nat, hi: nat)
    requires Loadable(st, tag, root, space) && WellFormed(Store(m, st.info), tag)
    requires OnlyPages(st.mem, m, lo, hi) && Loaded(m, tag, root, space, lo, hi)
    ensures Loadable(Store(m, st.info), tag, root, space)
  {
    forall p | p in tag && tag[p].Table?
      ensures m[p] == st.mem[p]
    {
    }
    MissingFrame(st.mem, m, tag, root, 0, 0);
    MissingFrame(st.mem, m, tag, root, 0, NENTRIES);
  }

  /** A placed segment stays as it is while this space or another maps other pages. */
  lemma PlacedStays(st: Store, tag: Tags, st': Store, tag': Tags, root: nat, space: int, s: Segment, who: int,
      lo: nat, hi: nat)
    requires ValidSegment(s) && Owned(st.info, tag) && IsRoot(tag, root, space) && Placed(st.mem, tag, root, space, s)
    requires Grows(st, tag, st', tag', who) && SameOutside(st.mem, st'.mem, tag, who, lo, hi)
    requires who == space ==> NoneInUse(st.info, lo, hi)
    ensures Placed(st'.mem, tag', root, space, s)
  {
    LoadedStays(st, tag, st', tag', root, space, First(s), Last(s), who, lo, hi);
    SegmentFits(s);
    forall a | First(s) * PAGE_SIZE <= a < s.va + s.memsz
      ensures LoadByte(st'.mem, root, a) == LoadByte(st.mem, root, a)
    {
      LoadedAt(st.mem, tag, root, space, First(s), Last(s), a);
      LoadedAt(st'.mem, tag', root, space, First(s), Last(s), a);
      FrameKept(st, tag, st', tag', who, a / PAGE_SIZE);
    }
  }

  ghost predicate AllPlaced(mem: Memory, tag: Tags, root: nat, space: int, segs: seq<Segment>)
    requires forall i | 0 <= i < |segs| :: ValidSegment(segs[i])
  {
    forall i | 0 <= i < |segs| && segs[i].loadable :: Placed(mem, tag, root, space, segs[i])
  }

  /** Pages the loadable segments occupy in all. */
  function SegmentPages(segs: seq<Segment>): nat {
    if segs == [] then 0 else (if segs[0].loadable then Last(segs[0]) - First(segs[0]) else 0) + SegmentPages(segs[1..])
  }

  /** What one segment, or several, changed for everybody else. */
  ghost predicate Loading(st: Store, tag: Tags, st': Store, tag': Tags, l: Layout, root: nat, space: int,
      pages: nat) {
    && Loadable(st', tag', root, space) && BothPass(st'.mem, tag', l, root)
    && Grows(st, tag, st', tag', space) && SameOutside(st.mem, st'.mem, tag, space, PROC_START, NPAGES)
    && FreeCount(st'.info) + pages == FreeCount(st.info)
  }

  /** program_load: when it returns 0, every loadable segment read through the process's own table is
      its image followed by zeros, so segments that succeed cannot overlap and later ones leave
      earlier ones alone; no table is ever allocated, and no assertion fails. */
  lemma {:induction false} LoadSegmentsPlaces(st: Store, tag: Tags, l: Layout, root: PageNumber, space: int,
      segs: seq<Segment>)
    returns (tag': Tags)
    requires Loadable(st, tag, root, space) && space != KERNEL && space != FREE
    requires (forall i | 0 <= i < |segs| :: ValidSegment(segs[i])) && BothPass(st.mem, tag, l, root)
    ensures var r := LoadSegments(st, l, root, space, segs);
      && !r.outcome.Panic?
      && (r.outcome.Done? ==>
        && Loading(st, tag, r.st, tag', l, root, space, SegmentPages(segs))
        && AllPlaced(r.st.mem, tag', root, space, segs)
        && (forall s | ValidSegment(s) && Placed(st.mem, tag, root, space, s) ::
           Placed(r.st.mem, tag', root, space, s)))
    decreases |segs|
  {
    hide Loadable, Loading, BothPass, LoadSegment, Placed, Took, ValidSegment;
    tag' := tag;
    if segs == [] {
      LoadedNothing(st, tag, l, root, space);
    } else if !segs[0].loadable {
      tag' := LoadSegmentsPlaces(st, tag, l, root, space, segs[1..]);
    } else {
      var s := segs[0];
      var r1 := LoadSegment(st, l, root, space, s);
      var tag1 := LoadSegmentPlaces(st, tag, l, root, space, s);
      if r1.outcome.Done? {
        tag' := LoadSegmentsPlaces(r1.st, tag1, l, root, space, segs[1..]);
        var r := LoadSegments(r1.st, l, root, space, segs[1..]);
        if r.outcome.Done? {
          LoadedOneMore(st, tag, r1.st, tag1, r.st, tag', l, root, space, s, SegmentPages(segs[1..]));
          LoadedRoot(st, tag, root, space);
          forall x | ValidSegment(x) && Placed(st.mem, tag, root, space, x)
            ensures Placed(r.st.mem, tag', root, space, x)
          {
            TookGrew(st, tag, r1.st, tag1, space, First(s), Last(s));
            PlacedStays(st, tag, r1.st, tag1, root, space, x, space, First(s), Last(s));
          }
        }
      }
    }
  }

  lemma LoadedNothing(st: Store, tag: Tags, l: Layout, root: nat, space: int)
    requires Loadable(st, tag, root, space) && BothPass(st.mem, tag, l, root)
    ensures Loading(st, tag, st, tag, l, root, space, 0)
  {
  }

  lemma LoadedOneMore(st: Store, tag: Tags, st1: Store, tag1: Tags, st2: Store, tag2: Tags, l: Layout,
      root: PageNumber, space: int, s: Segment, pages: nat)
    requires ValidSegment(s) && Took(st, tag, st1, tag1, space, First(s), Last(s))
    requires Loading(st1, tag1, st2, tag2, l, root, space, pages)
    ensures Loading(st, tag, st2, tag2, l, root, space, Last(s) - First(s) + pages)
  {
    hide Loadable, BothPass, FreeCount;
    SegmentFits(s);
    TookLow(st, tag, st1, tag1, space, First(s), Last(s));
    GrowsKeepsTags(st, tag, st1, tag1, space);
    GrowsTransitive(st, tag, st1, tag1, st2, tag2, space);
    SameOutsideChain(st.mem, st1.mem, st2.mem, tag, tag1, space, PROC_START, NPAGES);
  }

  lemma TookLow(st: Store, tag: Tags, st1: Store, tag1: Tags, space: int, lo: nat, hi: nat)
    requires Took(st, tag, st1, tag1, space, lo, hi) && PROC_START <= lo
    ensures SameOutside(st.mem, st1.mem, tag, space, PROC_START, NPAGES)
  {
    if lo < hi {
      assert FreePage(st.info, hi - 1);
    }
    assert forall r, sp, x | IsRoot(tag, r, sp) && 0 <= x < VPAGES && (sp != space || x < lo || hi <= x) ::
      Lookup(st1.mem, r, x) == Lookup(st.mem, r, x);
  }

  lemma SameOutsideChain(m0: Memory, m1: Memory, m2: Memory, tag: Tags, tag1: Tags, space: int, lo: nat, hi: nat)
    requires forall p | p in tag :: p in tag1 && tag1[p] == tag[p]
    requires SameOutside(m0, m1, tag, space, lo, hi) && SameOutside(m1, m2, tag1, space, lo, hi)
    ensures SameOutside(m0, m2, tag, space, lo, hi)
  {
    forall r, sp, x | IsRoot(tag, r, sp) && 0 <= x < VPAGES && (sp != space || x < lo || hi <= x)
      ensures Lookup(m2, r, x) == Lookup(m0, r, x)
    {
      assert IsRoot(tag1, r, sp);
      assert Lookup(m1, r, x) == Lookup(m0, r, x);
    }
  }

  /** Page v belongs to a loadable segment. */
  predicate OnPage(s: Segment, v: nat) {
    s.loadable && First(s) <= v < Last(s)
  }

  /** Every page of the loadable segments is free, and no two segments share one. */
  ghost predicate CanLoad(info: Info, segs: seq<Segment>) {
    && (forall i, v | 0 <= i < |segs| && 0 <= v && OnPage(segs[i], v) :: FreePage(info, v))
    && (forall i, j, v | 0 <= i < j < |segs| && 0 <= v && OnPage(segs[i], v) :: !OnPage(segs[j], v))
  }

  /** program_load returns 0 exactly when the pages of the loadable segments are free and disjoint. */
  lemma {:induction false} LoadsExactly(st: Store, tag: Tags, l: Layout, root: PageNumber, space: int,
      segs: seq<Segment>)
    requires Loadable(st, tag, root, space) && space != KERNEL && space != FREE
    requires (forall i | 0 <= i < |segs| :: ValidSegment(segs[i])) && BothPass(st.mem, tag, l, root)
    ensures LoadSegments(st, l, root, space, segs).outcome.Done? <==> CanLoad(st.info, segs)
    decreases |segs|
  {
    hide Loadable, BothPass, LoadSegment, Placed, Took, ValidSegment, CanLoad;
    if segs == [] {
      NothingToLoad(st.info);
    } else {
      var s := segs[0];
      if s.loadable {
        var tag1 := LoadSegmentPlaces(st, tag, l, root, space, s);
        var r1 := LoadSegment(st, l, root, space, s);
        if r1.outcome.Done? {
          TookGrew(st, tag, r1.st, tag1, space, First(s), Last(s));
          CanLoadStep(st.info, r1.st.info, segs, space);
          LoadsExactly(r1.st, tag1, l, root, space, segs[1..]);
        } else {
          FirstBlocked(st.info, segs);
        }
      } else {
        CanLoadStep(st.info, st.info, segs, space);
        LoadsExactly(st, tag, l, root, space, segs[1..]);
      }
    }
  }

  lemma NothingToLoad(info: Info)
    ensures CanLoad(info, [])
  {
  }

  lemma FirstBlocked(info: Info, segs: seq<Segment>)
    requires segs != [] && segs[0].loadable && exists v :: First(segs[0]) <= v < Last(segs[0]) && !FreePage(info, v)
    ensures !CanLoad(info, segs)
  {
    var v :| First(segs[0]) <= v < Last(segs[0]) && !FreePage(info, v);
    assert OnPage(segs[0], v);
  }

  /** After the first segment has its pages, the rest can load exactly when all could. */
  lemma CanLoadStep(info: Info, info': Info, segs: seq<Segment>, space: int)
    requires segs != [] && space != FREE
    requires segs[0].loadable ==> TookPages(info, info', space, First(segs[0]), Last(segs[0]))
    requires segs[0].loadable ==> forall v | First(segs[0]) <= v < Last(segs[0]) :: FreePage(info, v)
    requires !segs[0].loadable ==> info' == info
    ensures CanLoad(info, segs) <==> CanLoad(info', segs[1..])
  {
    var rest := segs[1..];
    hide First, Last;
    if CanLoad(info, segs) {
      forall i, v | 0 <= i < |rest| && 0 <= v && OnPage(rest[i], v)
        ensures FreePage(info', v)
      {
        assert rest[i] == segs[i + 1] && FreePage(info, v) && !OnPage(segs[0], v);
      }
      forall i, j, v | 0 <= i < j < |rest| && 0 <= v && OnPage(rest[i], v)
        ensures !OnPage(rest[j], v)
      {
        assert rest[i] == segs[i + 1] && rest[j] == segs[j + 1];
      }
    }
    if CanLoad(info', rest) {
      forall i, v | 0 <= i < |segs| && 0 <= v && OnPage(segs[i], v)
        ensures FreePage(info, v) && (i > 0 ==> !OnPage(segs[0], v))
      {
        if i > 0 {
          assert rest[i - 1] == segs[i] && FreePage(info', v);
        }
      }
      forall i, j, v | 0 <= i < j < |segs| && 0 <= v && OnPage(segs[i], v)
        ensures !OnPage(segs[j], v)
      {
        if i > 0 {
          assert rest[i - 1] == segs[i] && rest[j - 1] == segs[j];
        }
      }
    }
  }

  /** Page x belongs to no loadable segment. */
  predicate OffImage(segs: seq<Segment>, x: nat) {
    forall i | 0 <= i < |segs| :: !OnPage(segs[i], x)
  }

  /** program_load maps the pages of its segments and nothing else. */
  lemma {:induction false} LoadsOnlySegments(st: Store, tag: Tags, l: Layout, root: PageNumber, space: int,
      segs: seq<Segment>, x: nat)
    requires Loadable(st, tag, root, space) && space != KERNEL && space != FREE
    requires (forall i | 0 <= i < |segs| :: ValidSegment(segs[i])) && BothPass(st.mem, tag, l, root)
    requires LoadSegments(st, l, root, space, segs).outcome.Done? && x < VPAGES && OffImage(segs, x)
    ensures Lookup(LoadSegments(st, l, root, space, segs).st.mem, root, x) == Lookup(st.mem, root, x)
    decreases |segs|
  {
    hide Loadable, BothPass, LoadSegment, Placed, Took, ValidSegment, Lookup;
    if segs != [] {
      var s := segs[0];
      assert OffImage(segs[1..], x) by {
        forall i | 0 <= i < |segs[1..]|
          ensures !OnPage(segs[1..][i], x)
        {
          assert segs[1..][i] == segs[i + 1];
        }
      }
      if s.loadable {
        var tag1 := LoadSegmentPlaces(st, tag, l, root, space, s);
        var r1 := LoadSegment(st, l, root, space, s);
        TookGrew(st, tag, r1.st, tag1, space, First(s), Last(s));
        LoadedRoot(st, tag, root, space);
        assert !OnPage(s, x);
        LoadsOnlySegments(r1.st, tag1, l, root, space, segs[1..], x);
      } else {
        LoadsOnlySegments(st, tag, l, root, space, segs[1..], x);
      }
    }
  }

  /** program_load takes the pages of its segments and no others. */
  lemma {:induction false} LoadTakesSegments(st: Store, tag: Tags, l: Layout, root: PageNumber, space: int,
      segs: seq<Segment>, p: nat)
    requires Loadable(st, tag, root, space) && space != KERNEL && space != FREE
    requires (forall i | 0 <= i < |segs| :: ValidSegment(segs[i])) && BothPass(st.mem, tag, l, root)
    requires LoadSegments(st, l, root, space, segs).outcome.Done? && p < NPAGES
    ensures LoadSegments(st, l, root, space, segs).st.info[p] ==
        if OffImage(segs, p) then st.info[p] else PageInfo(space, 1)
    decreases |segs|
  {
    hide Loadable, BothPass, LoadSegment, Placed, Took, ValidSegment, Lookup, OffImage, OnPage;
    if segs == [] {
      NothingOn(p);
    } else {
      var s := segs[0];
      OffImageStep(segs, p);
      if s.loadable {
        var tag1 := LoadSegmentPlaces(st, tag, l, root, space, s);
        var r1 := LoadSegment(st, l, root, space, s);
        TookGrew(st, tag, r1.st, tag1, space, First(s), Last(s));
        LoadTakesSegments(r1.st, tag1, l, root, space, segs[1..], p);
        OnPageOf(s, p);
      } else {
        LoadTakesSegments(st, tag, l, root, space, segs[1..], p);
        OnPageOf(s, p);
      }
    }
  }

  lemma NothingOn(p: nat)
    ensures OffImage([], p)
  {
  }

  lemma OnPageOf(s: Segment, p: nat)
    ensures OnPage(s, p) <==> s.loadable && First(s) <= p < Last(s)
  {
  }

  lemma OffImageStep(segs: seq<Segment>, p: nat)
    requires segs != []
    ensures OffImage(segs, p) <==> !OnPage(segs[0], p) && OffImage(segs[1..], p)
  {
    hide OnPage;
    var rest := segs[1..];
    if !OnPage(segs[0], p) && OffImage(rest, p) {
      forall i | 0 <= i < |segs|
        ensures !OnPage(segs[i], p)
      {
        if i > 0 {
          assert segs[i] == rest[i - 1];
        }
      }
    }
    if OffImage(segs, p) {
      forall i | 0 <= i < |rest|
        ensures !OnPage(rest[i], p)
      {
        assert rest[i] == segs[i + 1];
      }
    }
  }

  /** The byte at p_va + k is the file's byte p_va mod 4096 places further on, then zeros up to p_memsz. */
  lemma PlacementAt(mem: Memory, tag: Tags, root: nat, space: int, s: Segment, k: nat)
    requires ValidSegment(s) && Placed(mem, tag, root, space, s) && k < s.memsz
    ensures LoadByte(mem, root, s.va + k) == Some(if k < s.filesz then s.src[k + s.va % PAGE_SIZE] else 0)
  {
    assert s.va == First(s) * PAGE_SIZE + s.va % PAGE_SIZE;
    hide LoadByte;
  }

  /** Where System V gABI chapter 5 puts a segment: at p_va its p_filesz bytes of the file, then zeros
      up to p_memsz. */
  predicate AsInFile(mem: Memory, root: nat, s: Segment)
    requires ValidSegment(s)
  {
    forall k | 0 <= k < s.memsz :: ByteAsInFile(mem, root, s, k)
  }

  predicate ByteAsInFile(mem: Memory, root: nat, s: Segment, k: nat)
    requires ValidSegment(s) && k < s.memsz
  {
    LoadByte(mem, root, s.va + k) == Some(if k < s.filesz then s.src[k] else 0)
  }

  /** The data of a segment repeats with the distance of p_va from its page boundary; it does whenever
      p_va is page-aligned or p_filesz is 0. */
  predicate Repeats(s: Segment)
    requires ValidSegment(s)
  {
    forall k | 0 <= k < s.filesz :: RepeatsAt(s, k)
  }

  predicate RepeatsAt(s: Segment, k: nat)
    requires ValidSegment(s) && k < s.filesz
  {
    s.src[k + s.va % PAGE_SIZE] == s.src[k]
  }

  /** A segment is placed as ELF asks exactly when its data repeats with that distance. */
  lemma PlacedExactly(mem: Memory, tag: Tags, root: nat, space: int, s: Segment)
    requires ValidSegment(s) && Placed(mem, tag, root, space, s)
    ensures AsInFile(mem, root, s) <==> Repeats(s)
  {
    hide LoadByte, Placed;
    forall k | 0 <= k < s.memsz
      ensures ByteAsInFile(mem, root, s, k) <==> (k < s.filesz ==> RepeatsAt(s, k))
    {
      PlacementAt(mem, tag, root, space, s, k);
    }
    hide ByteAsInFile, RepeatsAt;
    if AsInFile(mem, root, s) {
      forall k | 0 <= k < s.filesz
        ensures RepeatsAt(s, k)
      {
        assert ByteAsInFile(mem, root, s, k);
      }
    }
  }

  /** program_load, for any images: after it has returned 0, exactly those loadable segments are as in
      the file whose data repeats with the distance of p_va from its page boundary. */
  lemma {:induction false} LoadsAsInFileExactly(st: Store, tag: Tags, l: Layout, root: PageNumber, space: int,
      segs: seq<Segment>, i: nat)
    requires Loadable(st, tag, root, space) && space != KERNEL && space != FREE
    requires (forall j | 0 <= j < |segs| :: ValidSegment(segs[j])) && BothPass(st.mem, tag, l, root)
    requires LoadSegments(st, l, root, space, segs).outcome.Done? && i < |segs| && segs[i].loadable
    ensures AsInFile(LoadSegments(st, l, root, space, segs).st.mem, root, segs[i]) <==> Repeats(segs[i])
  {
    hide Loadable, Loading, BothPass, LoadSegment, Placed, AsInFile, Repeats;
    var tag' := LoadSegmentsPlaces(st, tag, l, root, space, segs);
    PlacedExactly(LoadSegments(st, l, root, space, segs).st.mem, tag', root, space, segs[i]);
  }

  /** One byte, 7, wanted at the second byte of a page; the file goes on with 8. */
  function Unaligned(): (s: Segment)
    ensures ValidSegment(s)
  {
    Segment(true, PROC_START * PAGE_SIZE + 1, 1, 1, [7, 8])
  }

  /** Loading it succeeds, and puts the 8 where the 7 should be. */
  lemma UnalignedMisplaced(st: Store, tag: Tags, l: Layout, root: PageNumber, space: int)
    requires Loadable(st, tag, root, space) && space != KERNEL && space != FREE && BothPass(st.mem, tag, l, root)
    requires FreePage(st.info, PROC_START)
    ensures var r := LoadSegment(st, l, root, space, Unaligned());
      && r.outcome.Done? && !AsInFile(r.st.mem, root, Unaligned())
      && LoadByte(r.st.mem, root, Unaligned().va) == Some(8)
  {
    hide Loadable, BothPass, LoadSegment, Placed, AsInFile, Took;
    var s := Unaligned();
    assert First(s) == PROC_START && Last(s) == PROC_START + 1 && s.va % PAGE_SIZE == 1;
    var tag' := LoadSegmentPlaces(st, tag, l, root, space, s);
    var mem' := LoadSegment(st, l, root, space, s).st.mem;
    PlacementAt(mem', tag', root, space, s, 0);
    PlacedExactly(mem', tag', root, space, s);
    assert !RepeatsAt(s, 0);
  }
}
