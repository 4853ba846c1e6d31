/** virtual_memory_map over a range: the page-by-page form, the cached loop, and what they map. */
module MapRanges {
  import opened Words
  import opened Pages
  import opened Paging

  /** Page by page, each time walking from the root. */
  function MapPages(st: Store, root: nat, v: nat, pn: nat, n: nat, perm: Flags, alloc: Option<int>): (r: MapResult)
    requires root < NPAGES && (perm.p ==> pn + n <= NPAGES)
    decreases n
  {
    if n == 0 then MapResult(st, Done) else
    var r := MapOne(st, root, Canon(v), pn, perm, alloc);
    if r.outcome.Done? then MapPages(r.st, root, v + 1, pn + 1, n - 1, perm, alloc) else r
  }

  /** The loop of virtual_memory_map from one iteration on: `last` and `l4` are last_index123 and
      l4pagetable. */
  function MapLoop(st: Store, root: nat, v: nat, pn: nat, n: nat, perm: Flags, alloc: Option<int>, last: int,
      l4: Option<nat>): (r: MapResult)
    requires root < NPAGES && (perm.p ==> pn + n <= NPAGES) && (l4.Some? ==> l4.value < NPAGES)
    decreases n
  {
    if n == 0 then MapResult(st, Done) else
    var w := if Group(v) != last then WalkFrom(st, root, 0, Canon(v), perm, alloc)
             else WalkResult(st, match l4 case Some(q) => Leaf(q) case None => NoTable);
    match w.walk
    case BadEntry => MapResult(w.st, Panic)
    case Leaf(q) =>
      MapLoop(Store(SetEntry(w.st.mem, q, v % NENTRIES, Entry(pn, perm)), w.st.info), root, v + 1, pn + 1, n - 1,
          perm, alloc, Group(v), Some(q))
    case NoTable =>
      if perm.p then MapResult(w.st, Failed)
      else MapLoop(w.st, root, v + 1, pn + 1, n - 1, perm, alloc, Group(v), None)
  }

  /** virtual_memory_map on page numbers, its argument assertions included. */
  function Map(st: Store, root: nat, v: nat, pn: nat, n: nat, perm: Flags, alloc: Option<int>): (r: MapResult)
    requires root < NPAGES
  {
    if perm.p && pn + n > NPAGES then MapResult(st, Panic)
    else MapLoop(st, root, v, pn, n, perm, alloc, -1, None)
  }

  // ---- One page ----

  lemma LeafWriteTyped(mem: Memory, tag: Tags, q: nat, i: nat, w: Word)
    requires Typed(mem, tag) && q in tag && tag[q].Table? && tag[q].level == 3 && i < NENTRIES
    ensures Typed(SetEntry(mem, q, i, w), tag)
  {
    var mem' := SetEntry(mem, q, i, w);
    forall p | p in tag && tag[p].Table?
      ensures NodeOk(mem', tag, p)
    {
      assert NodeOk(mem, tag, p);
      assert p != q ==> mem'[p] == mem[p];
    }
  }

  /** Storing a leaf entry changes the translation of one page of one space. */
  lemma {:induction false} LeafWriteLookup(mem: Memory, tag: Tags, q: nat, i: nat, w: Word, n: nat, v: nat)
    requires Typed(mem, tag) && q in tag && tag[q].Table? && tag[q].level == 3 && i < NENTRIES
    requires IsNode(tag, n, 0)
    ensures LeafTable(SetEntry(mem, q, i, w), n, 0, v) == LeafTable(mem, n, 0, v)
    ensures Lookup(SetEntry(mem, q, i, w), n, v) ==
      if LeafTable(mem, n, 0, v) == Some(q) && v % NENTRIES == i then LeafMapping(w) else Lookup(mem, n, v)
  {
    var mem' := SetEntry(mem, q, i, w);
    LeafWriteTyped(mem, tag, q, i, w);
    LeafTableFrame(mem, mem', tag, n, 0, v);
    LookupIsLeaf(mem, tag, n, 0, v);
    LookupIsLeaf(mem', tag, n, 0, v);
  }

  ghost predicate IsRoot(tag: Tags, root: nat, space: int) {
    root in tag && tag[root] == Table(space, 0, 0)
  }

  /** Every root but that of `space` translates as before, and so does `space` outside [lo, hi). */
  ghost predicate SameOutside(mem: Memory, mem': Memory, tag: Tags, space: int, lo: nat, hi: nat) {
    forall r, sp, x | IsRoot(tag, r, sp) && 0 <= x < VPAGES && (sp != space || x < lo || hi <= x) ::
      Lookup(mem', r, x) == Lookup(mem, r, x)
  }

  lemma RootInRange(mem: Memory, tag: Tags, root: nat, space: int)
    requires Typed(mem, tag) && IsRoot(tag, root, space)
    ensures root < NPAGES
  {
  }

  lemma RootKept(st: Store, tag: Tags, st': Store, tag': Tags, root: nat, space: int)
    requires Grows(st, tag, st', tag', space) && IsRoot(tag, root, space)
    ensures IsRoot(tag', root, space)
  {
  }

  lemma {:induction false} LeafOf(mem: Memory, tag: Tags, root: nat, space: int, v: nat)
    requires Typed(mem, tag) && IsRoot(tag, root, space) && v < VPAGES
    ensures LeafTable(mem, root, 0, v).Some? ==> IsNode(tag, LeafTable(mem, root, 0, v).value, 3)
    ensures LeafTable(mem, root, 0, v).Some? ==> tag[LeafTable(mem, root, 0, v).value] == Table(space, 3, v / NENTRIES)
  {
    PrefixRoot(v);
    LeafTableTyped(mem, tag, root, 0, v);
    assert Prefix(v, 3) == v / NENTRIES;
  }

  /** Storing a leaf entry of page v of a space leaves everything but that page translated as before. */
  lemma LeafWriteOutside(mem: Memory, tag: Tags, q: nat, space: int, v: nat, w: Word)
    requires Typed(mem, tag) && q in tag && tag[q] == Table(space, 3, v / NENTRIES)
    ensures SameOutside(mem, SetEntry(mem, q, v % NENTRIES, w), tag, space, v, v + 1)
  {
    forall r, sp, x | IsRoot(tag, r, sp) && 0 <= x < VPAGES && (sp != space || x != v)
      ensures Lookup(SetEntry(mem, q, v % NENTRIES, w), r, x) == Lookup(mem, r, x)
    {
      LeafOf(mem, tag, r, sp, x);
      LeafWriteLookup(mem, tag, q, v % NENTRIES, w, r, x);
    }
  }

  lemma SameTranslationsOutside(mem: Memory, mem': Memory, tag: Tags, space: int, lo: nat, hi: nat)
    requires SameTranslations(mem, mem', tag)
    ensures SameOutside(mem, mem', tag, space, lo, hi)
  {
    forall r, sp, x | IsRoot(tag, r, sp) && 0 <= x < VPAGES
      ensures Lookup(mem', r, x) == Lookup(mem, r, x)
    {
      assert IsNode(tag, r, 0);
      assert LookupFrom(mem', r, 0, x, PWU) == LookupFrom(mem, r, 0, x, PWU);
    }
  }

  lemma SameOutsideTransitive(m0: Memory, m1: Memory, m2: Memory, tag: Tags, tag1: Tags, space: int, lo: nat,
      mid: nat, hi: nat)
    requires lo <= mid <= hi
    requires forall p | p in tag :: p in tag1 && tag1[p] == tag[p]
    requires SameOutside(m0, m1, tag, space, lo, mid) && SameOutside(m1, m2, tag1, space, mid, hi)
    ensures SameOutside(m0, m2, tag, space, lo, hi)
  {
    forall r, sp, x | IsRoot(tag, r, sp) && 0 <= x < VPAGES && (sp != space || x < lo || hi <= x)
      ensures Lookup(m2, r, x) == Lookup(m0, r, x)
    {
      assert IsRoot(tag1, r, sp);
      assert Lookup(m1, r, x) == Lookup(m0, r, x);
    }
  }

  /** No leaf entry differs from before but the one of page v, which may now be e; new leaf tables
      are otherwise empty. */
  ghost predicate LeafDelta(mem: Memory, tag: Tags, mem': Memory, tag': Tags, space: int, v: nat, e: Word) {
    forall q: nat, i | q < NPAGES && IsNode(tag', q, 3) && 0 <= i < NENTRIES ::
      || mem'[q][i] == ZERO
      || (q in tag && mem'[q][i] == mem[q][i])
      || (tag'[q].space == space && tag'[q].prefix * NENTRIES + i == v && mem'[q][i] == e)
  }

  /** The effect of mapping [v, v + n) on a store with well-formed trees. */
  ghost predicate MappedRange(st: Store, tag: Tags, root: nat, v: nat, n: nat, r: MapResult, tag': Tags)
    requires root in tag
  {
    && !r.outcome.Panic?
    && Grows(st, tag, r.st, tag', tag[root].space)
    && Typed(r.st.mem, tag') && Owned(r.st.info, tag')
    && SameOutside(st.mem, r.st.mem, tag, tag[root].space, v, v + n)
  }

  /** One page mapped: it translates to what was asked, nothing else changes; a failure changes no
      translation at all. */
  lemma MapOneAgrees(st: Store, tag: Tags, root: nat, space: int, v: nat, pn: nat, perm: Flags, alloc: Option<int>)
    returns (tag': Tags)
    requires Typed(st.mem, tag) && Owned(st.info, tag) && IsRoot(tag, root, space) && v < VPAGES
    requires (perm.p ==> pn <= NPAGES) && (alloc.Some? ==> alloc.value == space)
    ensures var r := MapOne(st, root, v, pn, perm, alloc);
      && MappedRange(st, tag, root, v, 1, r, tag')
      && (r.outcome.Done? ==> Lookup(r.st.mem, root, v) == Target(pn, perm))
      && (r.outcome.Failed? ==> perm.p && SameOutside(st.mem, r.st.mem, tag, space, v, v))
      && LeafDelta(st.mem, tag, r.st.mem, tag', space, v, Entry(pn, perm))
  {
    hide Typed, Owned, SameOutside, Grows, SameTranslations, LeavesKept, LeafDelta;
    RootInRange(st.mem, tag, root, space);
    PrefixRoot(v);
    tag' := WalkKeeps(st, tag, root, 0, v, perm, alloc);
    var w := WalkFrom(st, root, 0, v, perm, alloc);
    SameTranslationsOutside(st.mem, w.st.mem, tag, space, v, v);
    var e := Entry(pn, perm);
    if w.walk.Leaf? {
      var mem' := SetEntry(w.st.mem, w.walk.pt, v % NENTRIES, e);
      RootKept(st, tag, w.st, tag', root, space);
      GrowsKeepsTags(st, tag, w.st, tag', space);
      LeafOf(w.st.mem, tag', root, space, v);
      LeafWriteTyped(w.st.mem, tag', w.walk.pt, v % NENTRIES, e);
      LeafWriteOutside(w.st.mem, tag', w.walk.pt, space, v, e);
      LeafWriteLookup(w.st.mem, tag', w.walk.pt, v % NENTRIES, e, root, v);
      SameOutsideTransitive(st.mem, w.st.mem, mem', tag, tag', space, v, v, v + 1);
      LeafWriteGrows(st, tag, w.st, tag', space, w.walk.pt, v % NENTRIES, e);
      LeafWriteDelta(st.mem, tag, w.st.mem, tag', space, v, e, w.walk.pt);
    } else {
      SameTranslationsOutside(st.mem, w.st.mem, tag, space, v, v + 1);
      LeavesKeptDelta(st.mem, tag, w.st.mem, tag', space, v, e);
      if !perm.p {
        WalkOnlyLooks(st, tag, root, 0, v, perm, alloc);
        LookupIsLeaf(st.mem, tag, root, 0, v);
      }
    }
  }

  lemma LeavesKeptDelta(mem: Memory, tag: Tags, mem': Memory, tag': Tags, space: int, v: nat, e: Word)
    requires LeavesKept(mem, tag, mem', tag')
    ensures LeafDelta(mem, tag, mem', tag', space, v, e)
  {
  }

  lemma LeafWriteDelta(mem: Memory, tag: Tags, mem1: Memory, tag': Tags, space: int, v: nat, e: Word, q: nat)
    requires LeavesKept(mem, tag, mem1, tag')
    requires q < NPAGES && q in tag' && tag'[q] == Table(space, 3, v / NENTRIES)
    ensures LeafDelta(mem, tag, SetEntry(mem1, q, v % NENTRIES, e), tag', space, v, e)
  {
  }

  lemma LeafWriteGrows(st: Store, tag: Tags, st1: Store, tag1: Tags, space: int, q: nat, i: nat, w: Word)
    requires Grows(st, tag, st1, tag1, space)
    requires q in tag1 && q < NPAGES && tag1[q].Table? && tag1[q].space == space && i < NENTRIES
    ensures Grows(st, tag, Store(SetEntry(st1.mem, q, i, w), st1.info), tag1, space)
  {
  }

  // ---- A range of pages ----

  /** Mapping [v, v + n) got as far as k pages: those translate to their targets, every other page
      of the space and every other space translates as before. */
  ghost predicate RangeResult(st: Store, tag: Tags, root: nat, v: nat, pn: nat, n: nat, perm: Flags, r: MapResult,
      tag': Tags, k: nat)
    requires root in tag
  {
    && !r.outcome.Panic?
    && Grows(st, tag, r.st, tag', tag[root].space)
    && Typed(r.st.mem, tag') && Owned(r.st.info, tag')
    && SameOutside(st.mem, r.st.mem, tag, tag[root].space, v, v + k)
    && MapsTo(r.st.mem, root, v, k, pn, perm)
    && (if r.outcome.Done? then k == n else perm.p && k < n)
  }

  /** virtual_memory_map page by page: on success every page of the range translates to its
      physical page with `perm & 7` (to nothing without PTE_P); a failure has mapped a proper
      prefix of the range and changed no other translation. */
  lemma {:induction false} MapPagesAgrees(st: Store, tag: Tags, root: nat, space: int, v: nat, pn: nat, n: nat,
      perm: Flags, alloc: Option<int>)
    returns (tag': Tags, k: nat)
    requires Typed(st.mem, tag) && Owned(st.info, tag) && IsRoot(tag, root, space)
    requires v + n <= VPAGES && (perm.p ==> pn + n <= NPAGES) && (alloc.Some? ==> alloc.value == space)
    ensures RangeResult(st, tag, root, v, pn, n, perm, MapPages(st, root, v, pn, n, perm, alloc), tag', k)
    decreases n
  {
    hide Typed, Owned, SameOutside, Grows, MapsTo, RangeResult, MapOne;
    RootInRange(st.mem, tag, root, space);
    if n == 0 {
      tag', k := tag, 0;
      RangeNone(st, tag, root, v, pn, n, perm);
    } else {
      assert Canon(v) == v;
      var tag1 := MapOneAgrees(st, tag, root, space, v, pn, perm, alloc);
      var r1 := MapOne(st, root, v, pn, perm, alloc);
      if r1.outcome.Failed? {
        tag', k := tag1, 0;
        RangeFailed(st, tag, root, v, pn, n, perm, r1, tag');
      } else {
        RootKept(st, tag, r1.st, tag1, root, space);
        var k1;
        tag', k1 := MapPagesAgrees(r1.st, tag1, root, space, v + 1, pn + 1, n - 1, perm, alloc);
        k := k1 + 1;
        RangeStep(st, tag, root, space, v, pn, n, perm, r1, tag1,
            MapPages(r1.st, root, v + 1, pn + 1, n - 1, perm, alloc), tag', k1);
      }
    }
  }

  lemma RangeNone(st: Store, tag: Tags, root: nat, v: nat, pn: nat, n: nat, perm: Flags)
    requires Typed(st.mem, tag) && Owned(st.info, tag) && root in tag && n == 0
    ensures RangeResult(st, tag, root, v, pn, n, perm, MapResult(st, Done), tag, 0)
  {
  }

  lemma RangeFailed(st: Store, tag: Tags, root: nat, v: nat, pn: nat, n: nat, perm: Flags, r: MapResult, tag': Tags)
    requires root in tag && r.outcome.Failed? && perm.p && n > 0
    requires MappedRange(st, tag, root, v, 1, r, tag') && SameOutside(st.mem, r.st.mem, tag, tag[root].space, v, v)
    ensures RangeResult(st, tag, root, v, pn, n, perm, r, tag', 0)
  {
    hide Typed, Owned, SameOutside, Grows;
  }

  lemma RangeStep(st: Store, tag: Tags, root: nat, space: int, v: nat, pn: nat, n: nat, perm: Flags, r1: MapResult,
      tag1: Tags, r: MapResult, tag': Tags, k: nat)
    requires n > 0 && IsRoot(tag, root, space) && IsRoot(tag1, root, space) && v + n <= VPAGES
    requires MappedRange(st, tag, root, v, 1, r1, tag1) && Lookup(r1.st.mem, root, v) == Target(pn, perm)
    requires RangeResult(r1.st, tag1, root, v + 1, pn + 1, n - 1, perm, r, tag', k)
    ensures RangeResult(st, tag, root, v, pn, n, perm, r, tag', k + 1)
  {
    hide Typed, Owned, SameOutside, Grows, MapsTo;
    GrowsTransitive(st, tag, r1.st, tag1, r.st, tag', space);
    GrowsKeepsTags(st, tag, r1.st, tag1, space);
    SameOutsideTransitive(st.mem, r1.st.mem, r.st.mem, tag, tag1, space, v, v + 1, v + (k + 1));
    MapsToExtends(r1.st.mem, r.st.mem, tag1, root, space, v, k, pn, perm);
  }

  lemma GrowsKeepsTags(st: Store, tag: Tags, st': Store, tag': Tags, space: int)
    requires Grows(st, tag, st', tag', space)
    ensures forall p | p in tag :: p in tag' && tag'[p] == tag[p]
  {
  }

  /** Where virtual_memory_map sends a page: pn with `perm & 7`, or nowhere without PTE_P. */
  function Target(pn: nat, perm: Flags): Mapping {
    if perm.p then Mapped(pn, And(PWU, perm)) else Unmapped
  }

  ghost predicate MapsTo(mem: Memory, root: nat, v: nat, n: nat, pn: nat, perm: Flags) {
    forall x | v <= x < v + n :: Lookup(mem, root, x) == Target(pn + (x - v), perm)
  }

  lemma MapsToExtends(m1: Memory, mem: Memory, tag: Tags, root: nat, space: int, v: nat, k: nat, pn: nat, perm: Flags)
    requires IsRoot(tag, root, space) && v + 1 + k <= VPAGES
    requires Lookup(m1, root, v) == Target(pn, perm) && SameOutside(m1, mem, tag, space, v + 1, v + 1 + k)
    requires MapsTo(mem, root, v + 1, k, pn + 1, perm)
    ensures MapsTo(mem, root, v, k + 1, pn, perm)
  {
    assert Lookup(mem, root, v) == Lookup(m1, root, v);
  }

  // ---- The cached loop refines the page-by-page form ----

  lemma {:induction false} LeafTableGroup(mem: Memory, pt: nat, level: nat, v: nat, x: nat)
    requires level <= 3 && Prefix(v, 3) == Prefix(x, 3)
    ensures LeafTable(mem, pt, level, v) == LeafTable(mem, pt, level, x)
    decreases 3 - level
  {
    if level < 3 {
      PrefixGroup(v, x, level + 1);
      LeafTableGroup(mem, Read(mem, pt, Index(v, level)).frame, level + 1, v, x);
    }
  }

  lemma {:induction false} PrefixGroup(v: nat, x: nat, level: nat)
    requires level <= 3 && Prefix(v, 3) == Prefix(x, 3)
    ensures Prefix(v, level) == Prefix(x, level)
    decreases 3 - level
  {
    if level < 3 {
      PrefixGroup(v, x, level + 1);
    }
  }

  /** What the cached table of the loop means when the next page is v. */
  ghost predicate Cached(mem: Memory, root: nat, v: nat, perm: Flags, last: int, l4: Option<nat>) {
    Group(v) == last ==> LeafTable(mem, root, 0, Canon(v)) == l4 && (l4.None? ==> !perm.p)
  }

  /** From any iteration whose cache is right, the loop does what walking from the root for every
      page does: same memory, same allocations, same result. */
  lemma {:induction false} MapLoopIsMapPages(st: Store, tag: Tags, root: nat, space: int, v: nat, pn: nat, n: nat,
      perm: Flags, alloc: Option<int>, last: int, l4: Option<nat>)
    requires Typed(st.mem, tag) && Owned(st.info, tag) && IsRoot(tag, root, space)
    requires (perm.p ==> pn + n <= NPAGES) && (alloc.Some? ==> alloc.value == space)
    requires (l4.Some? ==> l4.value < NPAGES) && (n > 0 ==> Cached(st.mem, root, v, perm, last, l4))
    ensures MapLoop(st, root, v, pn, n, perm, alloc, last, l4) == MapPages(st, root, v, pn, n, perm, alloc)
    decreases n
  {
    hide Typed, Owned, SameOutside, Grows, LeafDelta, MapOne, MapLoop, WalkFrom, LeafTable, Group, Cached, Canon;
    RootInRange(st.mem, tag, root, space);
    if n == 0 {
      LoopOfNothing(st, root, v, pn, perm, alloc, last, l4);
    } else {
      var c := Canon(v);
      CachedIsWalk(st, tag, root, space, v, perm, alloc, last, l4);
      MapLoopStep(st, root, v, pn, n, perm, alloc, last, l4);
      var r := MapOne(st, root, c, pn, perm, alloc);
      var tag1 := MapOneAgrees(st, tag, root, space, c, pn, perm, alloc);
      RootKept(st, tag, r.st, tag1, root, space);
      if r.outcome.Done? {
        var l4 := MapOneCaches(st, tag, root, space, c, pn, perm, alloc);
        NextCached(r.st.mem, root, v, perm, l4);
        MapLoopIsMapPages(r.st, tag1, root, space, v + 1, pn + 1, n - 1, perm, alloc, Group(v), l4);
      }
    }
  }

  lemma {:induction false} LoopOfNothing(st: Store, root: nat, v: nat, pn: nat, perm: Flags, alloc: Option<int>,
      last: int, l4: Option<nat>)
    requires root < NPAGES && (perm.p ==> pn <= NPAGES) && (l4.Some? ==> l4.value < NPAGES)
    ensures MapLoop(st, root, v, pn, 0, perm, alloc, last, l4) == MapResult(st, Done)
  {
  }

  /** A cache that is right answers as the walk would. */
  lemma {:induction false} CachedIsWalk(st: Store, tag: Tags, root: nat, space: int, v: nat, perm: Flags,
      alloc: Option<int>, last: int, l4: Option<nat>)
    requires Typed(st.mem, tag) && IsRoot(tag, root, space) && root < NPAGES
    requires (l4.Some? ==> l4.value < NPAGES) && Cached(st.mem, root, v, perm, last, l4)
    ensures Group(v) == last ==>
      WalkFrom(st, root, 0, Canon(v), perm, alloc) ==
          WalkResult(st, match l4 case Some(q) => Leaf(q) case None => NoTable)
  {
    hide Typed, WalkFrom, LeafTable, Group, Canon;
    if Group(v) == last {
      WalkOnlyLooks(st, tag, root, 0, Canon(v), perm, alloc);
    }
  }

  /** One iteration of the loop whose cached answer is the walk's answer. */
  lemma MapLoopStep(st: Store, root: nat, v: nat, pn: nat, n: nat, perm: Flags, alloc: Option<int>, last: int,
      l4: Option<nat>)
    requires root < NPAGES && n > 0 && (perm.p ==> pn + n <= NPAGES) && (l4.Some? ==> l4.value < NPAGES)
    requires Group(v) == last ==>
      WalkFrom(st, root, 0, Canon(v), perm, alloc) ==
          WalkResult(st, match l4 case Some(q) => Leaf(q) case None => NoTable)
    ensures var w := WalkFrom(st, root, 0, Canon(v), perm, alloc).walk;
      var r := MapOne(st, root, Canon(v), pn, perm, alloc);
      MapLoop(st, root, v, pn, n, perm, alloc, last, l4) ==
        if r.outcome.Done?
        then MapLoop(r.st, root, v + 1, pn + 1, n - 1, perm, alloc, Group(v), if w.Leaf? then Some(w.pt) else None)
        else r
  {
    CanonIndex(v);
  }

  /** After a page is mapped, the walk's answer is what a fresh walk would find. */
  lemma MapOneCaches(st: Store, tag: Tags, root: nat, space: int, v: nat, pn: nat, perm: Flags, alloc: Option<int>)
    returns (l4: Option<nat>)
    requires Typed(st.mem, tag) && Owned(st.info, tag) && IsRoot(tag, root, space) && v < VPAGES
    requires (perm.p ==> pn <= NPAGES) && (alloc.Some? ==> alloc.value == space)
    requires MapOne(st, root, v, pn, perm, alloc).outcome.Done?
    ensures var w := WalkFrom(st, root, 0, v, perm, alloc).walk;
      && !w.BadEntry?
      && l4 == (if w.Leaf? then Some(w.pt) else None) && (l4.None? ==> !perm.p)
      && LeafTable(MapOne(st, root, v, pn, perm, alloc).st.mem, root, 0, v) == l4
  {
    PrefixRoot(v);
    var w := WalkFrom(st, root, 0, v, perm, alloc);
    var tag1 := WalkKeeps(st, tag, root, 0, v, perm, alloc);
    l4 := if w.walk.Leaf? then Some(w.walk.pt) else None;
    if w.walk.Leaf? {
      assert IsRoot(tag1, root, space);
      LeafOf(w.st.mem, tag1, root, space, v);
      LeafWriteLookup(w.st.mem, tag1, w.walk.pt, v % NENTRIES, Entry(pn, perm), root, v);
    } else {
      WalkOnlyLooks(st, tag, root, 0, v, perm, alloc);
    }
  }

  lemma {:induction false} NextCached(mem: Memory, root: nat, v: nat, perm: Flags, l4: Option<nat>)
    requires LeafTable(mem, root, 0, Canon(v)) == l4 && (l4.None? ==> !perm.p)
    ensures Cached(mem, root, v + 1, perm, Group(v), l4)
  {
    SameGroup(v);
    if Group(v + 1) == Group(v) {
      LeafTableGroup(mem, root, 0, Canon(v), Canon(v + 1));
    }
  }

  /** Pages from v on, up to n of them, that one leaf table decodes. */
  function GroupRest(v: nat, n: nat): (m: nat)
    ensures m <= n && (n > 0 ==> m > 0)
  {
    if n < NENTRIES - v % NENTRIES then n else NENTRIES - v % NENTRIES
  }

  /** With NULL cached for the group of v and no PTE_P, the loop passes over the pages of the group. */
  lemma {:induction false} LoopSkipsGroup(st: Store, root: nat, v: nat, pn: nat, n: nat, perm: Flags,
      alloc: Option<int>)
    requires root < NPAGES && !perm.p && n > 0
    ensures var m := GroupRest(v, n);
      && (n > m ==> Group(v + m) != Group(v))
      && MapLoop(st, root, v, pn, n, perm, alloc, Group(v), None) ==
        MapLoop(st, root, v + m, pn + m, n - m, perm, alloc, Group(v), None)
    decreases n
  {
    hide Group, WalkFrom;
    SameGroup(v);
    var q, r := v / NENTRIES, v % NENTRIES;
    Div512(v, q, r);
    if r == NENTRIES - 1 {
      Div512(v + 1, q + 1, 0);
    } else {
      Div512(v + 1, q, r + 1);
      if n > 1 {
        LoopSkipsGroup(st, root, v + 1, pn + 1, n - 1, perm, alloc);
      }
    }
  }

  lemma {:induction false} LoopFailsAtOnce(st: Store, root: nat, v: nat, pn: nat, n: nat, perm: Flags,
      alloc: Option<int>)
    requires root < NPAGES && perm.p && n > 0 && pn + n <= NPAGES
    ensures MapLoop(st, root, v, pn, n, perm, alloc, Group(v), None) == MapResult(st, Failed)
  {
    hide Group, WalkFrom;
  }

  /** Which pages truncate to the sentinel: those of the last leaf table of every 2^53 bytes. */
  lemma SentinelPages(v: nat)
    ensures Group(v) == -1 <==> v / NENTRIES % 0x1_0000_0000 == 0xFFFF_FFFF
  {
  }

  /** virtual_memory_map is the page-by-page form, except when the first page's group truncates to
      the sentinel -1: then a map with PTE_P fails at once, and one without passes over the pages of
      the first leaf table. */
  lemma {:induction false} MapIsMapPages(st: Store, tag: Tags, root: nat, space: int, v: nat, pn: nat, n: nat,
      perm: Flags, alloc: Option<int>)
    requires Typed(st.mem, tag) && Owned(st.info, tag) && IsRoot(tag, root, space)
    requires (perm.p ==> pn + n <= NPAGES) && (alloc.Some? ==> alloc.value == space)
    ensures var r := Map(st, root, v, pn, n, perm, alloc);
      if Group(v) != -1 || n == 0 then r == MapPages(st, root, v, pn, n, perm, alloc)
      else if perm.p then r == MapResult(st, Failed)
      else
        var m := GroupRest(v, n);
        r == MapPages(st, root, v + m, pn + m, n - m, perm, alloc)
  {
    RootInRange(st.mem, tag, root, space);
    assert Map(st, root, v, pn, n, perm, alloc) ==
        MapLoop(st, root, v, pn, n, perm, alloc, -1, None);
    hide Map, MapPages, MapLoop, Group, GroupRest, Typed, Owned;
    if Group(v) != -1 || n == 0 {
      FreshLoop(st, tag, root, space, v, pn, n, perm, alloc);
    } else if perm.p {
      LoopFailsAtOnce(st, root, v, pn, n, perm, alloc);
    } else {
      LoopSkipsGroup(st, root, v, pn, n, perm, alloc);
      var m := GroupRest(v, n);
      FreshLoop(st, tag, root, space, v + m, pn + m, n - m, perm, alloc);
    }
  }

  /** With no cache that counts, the loop is the page-by-page form. */
  lemma {:induction false} FreshLoop(st: Store, tag: Tags, root: nat, space: int, v: nat, pn: nat, n: nat,
      perm: Flags, alloc: Option<int>)
    requires Typed(st.mem, tag) && Owned(st.info, tag) && IsRoot(tag, root, space) && root < NPAGES
    requires (perm.p ==> pn + n <= NPAGES) && (alloc.Some? ==> alloc.value == space) && (n == 0 || Group(v) != -1)
    ensures MapLoop(st, root, v, pn, n, perm, alloc, -1, None) == MapPages(st, root, v, pn, n, perm, alloc)
  {
    hide MapPages, MapLoop, Group, LeafTable, Typed, Owned, Canon;
    MapLoopIsMapPages(st, tag, root, space, v, pn, n, perm, alloc, -1, None);
  }

  /** A range that can be mapped page by page with PTE_P is mapped exactly when it is empty or its
      first page does not truncate to the sentinel. */
  lemma {:induction false} MapsExactly(st: Store, tag: Tags, root: nat, space: int, v: nat, pn: nat, n: nat,
      perm: Flags, alloc: Option<int>)
    requires Typed(st.mem, tag) && Owned(st.info, tag) && IsRoot(tag, root, space)
    requires perm.p && pn + n <= NPAGES && (alloc.Some? ==> alloc.value == space)
    requires root < NPAGES && MapPages(st, root, v, pn, n, perm, alloc).outcome.Done?
    ensures Map(st, root, v, pn, n, perm, alloc).outcome.Done? <==>
      n == 0 || v / NENTRIES % 0x1_0000_0000 != 0xFFFF_FFFF
  {
    hide Map, MapPages;
    SentinelPages(v);
    MapIsMapPages(st, tag, root, space, v, pn, n, perm, alloc);
  }

  lemma LowGroup(v: nat)
    requires v < VPAGES
    ensures Group(v) == v / NENTRIES >= 0
  {
  }

  // ---- Without PTE_P ----

  /** Unmapping one page looks for its leaf table and builds none. */
  lemma UnmapOneTakesNothing(st: Store, tag: Tags, root: nat, space: int, v: nat, pn: nat, perm: Flags,
      alloc: Option<int>)
    requires Typed(st.mem, tag) && IsRoot(tag, root, space) && root < NPAGES && !perm.p
    ensures MapOne(st, root, v, pn, perm, alloc).st.info == st.info
  {
    hide Typed, WalkFrom, LeafTable;
    WalkOnlyLooks(st, tag, root, 0, v, perm, alloc);
  }

  /** virtual_memory_map without PTE_P returns 0, takes no page even when it is given an allocator,
      and leaves the range unmapped and everything else as it was. */
  lemma {:induction false} UnmapRange(st: Store, tag: Tags, root: nat, space: int, v: nat, pn: nat, n: nat,
      perm: Flags, alloc: Option<int>)
    returns (tag': Tags)
    requires Typed(st.mem, tag) && Owned(st.info, tag) && IsRoot(tag, root, space) && !perm.p
    requires v + n <= VPAGES && (alloc.Some? ==> alloc.value == space)
    ensures root < NPAGES
    ensures var r := Map(st, root, v, pn, n, perm, alloc);
      && r.outcome.Done? && r.st.info == st.info
      && Typed(r.st.mem, tag') && SameOutside(st.mem, r.st.mem, tag, space, v, v + n)
      && (forall x | v <= x < v + n :: Lookup(r.st.mem, root, x) == Unmapped)
  {
    hide Typed, Owned, SameOutside, Grows, Map, MapPages, Lookup;
    RootInRange(st.mem, tag, root, space);
    if n > 0 {
      LowGroup(v);
    }
    MapIsMapPages(st, tag, root, space, v, pn, n, perm, alloc);
    UnmapTakesNothing(st, tag, root, space, v, pn, n, perm, alloc);
    var k;
    tag', k := MapPagesAgrees(st, tag, root, space, v, pn, n, perm, alloc);
  }

  lemma {:induction false} UnmapTakesNothing(st: Store, tag: Tags, root: nat, space: int, v: nat, pn: nat, n: nat,
      perm: Flags, alloc: Option<int>)
    requires Typed(st.mem, tag) && Owned(st.info, tag) && IsRoot(tag, root, space) && root < NPAGES && !perm.p
    requires v + n <= VPAGES && (alloc.Some? ==> alloc.value == space)
    ensures MapPages(st, root, v, pn, n, perm, alloc).st.info == st.info
    decreases n
  {
    hide Typed, Owned, SameOutside, Grows, MapOne, LeafDelta, Lookup;
    if n > 0 {
      assert Canon(v) == v;
      UnmapOneTakesNothing(st, tag, root, space, v, pn, perm, alloc);
      var tag1 := MapOneAgrees(st, tag, root, space, v, pn, perm, alloc);
      var r := MapOne(st, root, v, pn, perm, alloc);
      RootKept(st, tag, r.st, tag1, root, space);
      if r.outcome.Done? {
        UnmapTakesNothing(r.st, tag1, root, space, v + 1, pn + 1, n - 1, perm, alloc);
      }
    }
  }

  // ---- Without PTE_P, at any address ----

  /** Does a range of 64-bit page numbers meet page y, of which only the low 36 bits count? */
  ghost predicate Meets(v: nat, n: nat, y: nat) {
    exists x: nat :: v <= x < v + n && Canon(x) == y
  }

  lemma MeetsStep(v: nat, n: nat, y: nat)
    requires n > 0
    ensures Meets(v, n, y) <==> Canon(v) == y || Meets(v + 1, n - 1, y)
  {
    if Meets(v, n, y) {
      var x: nat :| v <= x < v + n && Canon(x) == y;
      assert x == v || v + 1 <= x < v + 1 + (n - 1);
    }
    if Meets(v + 1, n - 1, y) {
      var x: nat :| v + 1 <= x < v + 1 + (n - 1) && Canon(x) == y;
      assert v <= x < v + n;
    }
  }

  /** What a map without PTE_P of the pages from v on leaves: those pages unmapped, every other page
      of the space and every other space as before, no page taken. */
  ghost predicate Unmaps(st: Store, tag: Tags, root: nat, space: int, v: nat, n: nat, r: MapResult, tag': Tags) {
    && r.outcome.Done? && r.st.info == st.info && Typed(r.st.mem, tag') && Owned(r.st.info, tag')
    && Grows(st, tag, r.st, tag', space) && SameOutside(st.mem, r.st.mem, tag, space, 0, VPAGES)
    && (forall y | 0 <= y < VPAGES ::
      Lookup(r.st.mem, root, y) == if Meets(v, n, y) then Unmapped else Lookup(st.mem, root, y))
  }

  lemma {:induction false} PagesUnmap(st: Store, tag: Tags, root: nat, space: int, v: nat, pn: nat, n: nat,
      perm: Flags, alloc: Option<int>)
    returns (tag': Tags)
    requires Typed(st.mem, tag) && Owned(st.info, tag) && IsRoot(tag, root, space) && !perm.p
    requires root < NPAGES && (alloc.Some? ==> alloc.value == space)
    ensures Unmaps(st, tag, root, space, v, n, MapPages(st, root, v, pn, n, perm, alloc), tag')
    decreases n
  {
    hide Typed, Owned, Unmaps, MapOne, LeafDelta, Grows, SameOutside, Meets, Canon;
    if n == 0 {
      tag' := tag;
      UnmapsNone(st, tag, root, space, v);
    } else {
      var r1 := MapOne(st, root, Canon(v), pn, perm, alloc);
      var tag1 := MapOneAgrees(st, tag, root, space, Canon(v), pn, perm, alloc);
      UnmapOneTakesNothing(st, tag, root, space, Canon(v), pn, perm, alloc);
      RootKept(st, tag, r1.st, tag1, root, space);
      tag' := PagesUnmap(r1.st, tag1, root, space, v + 1, pn + 1, n - 1, perm, alloc);
      UnmapsOneMore(st, tag, r1, tag1, MapPages(r1.st, root, v + 1, pn + 1, n - 1, perm, alloc), tag', root, space, v,
          n);
    }
  }

  lemma UnmapsNone(st: Store, tag: Tags, root: nat, space: int, v: nat)
    requires Typed(st.mem, tag) && Owned(st.info, tag)
    ensures Unmaps(st, tag, root, space, v, 0, MapResult(st, Done), tag)
  {
  }

  lemma UnmapsOneMore(st: Store, tag: Tags, r1: MapResult, tag1: Tags, r: MapResult, tag': Tags, root: nat,
      space: int, v: nat, n: nat)
    requires IsRoot(tag, root, space) && IsRoot(tag1, root, space) && n > 0 && r1.st.info == st.info
    requires MappedRange(st, tag, root, Canon(v), 1, r1, tag1) && Lookup(r1.st.mem, root, Canon(v)) == Unmapped
    requires Unmaps(r1.st, tag1, root, space, v + 1, n - 1, r, tag')
    ensures Unmaps(st, tag, root, space, v, n, r, tag')
  {
    hide Typed, Owned, Grows, Meets, Canon, Lookup;
    GrowsTransitive(st, tag, r1.st, tag1, r.st, tag', space);
    GrowsKeepsTags(st, tag, r1.st, tag1, space);
    OthersSame(st.mem, r1.st.mem, r.st.mem, tag, tag1, space, Canon(v), Canon(v) + 1);
    forall y | 0 <= y < VPAGES
      ensures Lookup(r.st.mem, root, y) == if Meets(v, n, y) then Unmapped else Lookup(st.mem, root, y)
    {
      MeetsStep(v, n, y);
      assert y != Canon(v) ==> Lookup(r1.st.mem, root, y) == Lookup(st.mem, root, y);
    }
  }

  /** Two changes to one space leave all others as they were. */
  lemma OthersSame(m0: Memory, m1: Memory, m2: Memory, tag: Tags, tag1: Tags, space: int, lo: nat, hi: nat)
    requires forall p | p in tag :: p in tag1 && tag1[p] == tag[p]
    requires SameOutside(m0, m1, tag, space, lo, hi) && SameOutside(m1, m2, tag1, space, 0, VPAGES)
    ensures SameOutside(m0, m2, tag, space, 0, VPAGES)
  {
    hide Lookup;
    forall r, sp, x | IsRoot(tag, r, sp) && 0 <= x < VPAGES && sp != space
      ensures Lookup(m2, r, x) == Lookup(m0, r, x)
    {
      assert IsRoot(tag1, r, sp);
      assert Lookup(m1, r, x) == Lookup(m0, r, x);
    }
  }

  /** Pages the loop passes over without looking for their table: none, or the first leaf table's. */
  function Skipped(v: nat, n: nat): (m: nat)
    ensures m <= n
  {
    if Group(v) == -1 then GroupRest(v, n) else 0
  }

  /** virtual_memory_map without PTE_P, at any 64-bit address and of any length: it answers 0, takes no
      page, and unmaps exactly the pages behind those it passes over. */
  lemma {:induction false} MapUnmaps(st: Store, tag: Tags, root: nat, space: int, v: nat, pn: nat, n: nat,
      perm: Flags, alloc: Option<int>)
    returns (tag': Tags)
    requires Typed(st.mem, tag) && Owned(st.info, tag) && IsRoot(tag, root, space) && !perm.p
    requires root < NPAGES && (alloc.Some? ==> alloc.value == space)
    ensures var m := Skipped(v, n);
      Unmaps(st, tag, root, space, v + m, n - m, Map(st, root, v, pn, n, perm, alloc), tag')
  {
    hide Typed, Owned, Unmaps, MapPages, Map, Group;
    MapIsMapPages(st, tag, root, space, v, pn, n, perm, alloc);
    var m := Skipped(v, n);
    tag' := PagesUnmap(st, tag, root, space, v + m, pn + m, n - m, perm, alloc);
  }

  /** Every page of a range is unmapped. */
  ghost predicate RangeUnmapped(mem: Memory, root: nat, v: nat, n: nat) {
    forall x: nat | v <= x < v + n :: Lookup(mem, root, Canon(x)) == Unmapped
  }

  /** Page x was unmapped before, or the n pages from v on meet it. */
  ghost predicate GoneOrMet(mem: Memory, root: nat, v: nat, n: nat, x: nat) {
    Lookup(mem, root, Canon(x)) == Unmapped || Meets(v, n, Canon(x))
  }

  ghost predicate AllGoneOrMet(mem: Memory, root: nat, lo: nat, v: nat, n: nat) {
    forall x: nat | lo <= x < v :: GoneOrMet(mem, root, v, n, x)
  }

  /** Without PTE_P the range ends unmapped exactly when it is empty, its first page does not truncate
      to the sentinel, or each page of its first leaf table was unmapped already or comes again
      further on, 2^48 bytes being the same addresses again. */
  lemma {:induction false} UnmapsExactly(st: Store, tag: Tags, root: nat, space: int, v: nat, pn: nat, n: nat,
      perm: Flags, alloc: Option<int>)
    requires Typed(st.mem, tag) && Owned(st.info, tag) && IsRoot(tag, root, space) && !perm.p
    requires root < NPAGES && (alloc.Some? ==> alloc.value == space)
    ensures RangeUnmapped(Map(st, root, v, pn, n, perm, alloc).st.mem, root, v, n) <==>
      || n == 0 || v / NENTRIES % 0x1_0000_0000 != 0xFFFF_FFFF
      || AllGoneOrMet(st.mem, root, v, v + GroupRest(v, n), n - GroupRest(v, n))
  {
    hide Typed, Owned, Map, Group, Lookup, Canon, GroupRest, Grows, SameOutside, Meets;
    SentinelPages(v);
    var tag' := MapUnmaps(st, tag, root, space, v, pn, n, perm, alloc);
    RangeUnmappedExactly(st.mem, Map(st, root, v, pn, n, perm, alloc).st.mem, root, v, v + Skipped(v, n),
        n - Skipped(v, n));
  }

  /** A range of which only the part from v on has been unmapped. */
  lemma RangeUnmappedExactly(mem: Memory, mem': Memory, root: nat, lo: nat, v: nat, n: nat)
    requires lo <= v && forall y | 0 <= y < VPAGES ::
      Lookup(mem', root, y) == if Meets(v, n, y) then Unmapped else Lookup(mem, root, y)
    ensures RangeUnmapped(mem', root, lo, v - lo + n) <==> AllGoneOrMet(mem, root, lo, v, n)
  {
    hide Lookup, Canon;
    assert forall x: nat | v <= x < v + n :: Meets(v, n, Canon(x));
    hide Meets;
    if RangeUnmapped(mem', root, lo, v - lo + n) {
      forall x: nat | lo <= x < v
        ensures GoneOrMet(mem, root, v, n, x)
      {
        assert Lookup(mem', root, Canon(x)) == Unmapped;
      }
    }
    if AllGoneOrMet(mem, root, lo, v, n) {
      forall x: nat | lo <= x < lo + (v - lo + n)
        ensures Lookup(mem', root, Canon(x)) == Unmapped
      {
        assert x < v ==> GoneOrMet(mem, root, v, n, x);
      }
    }
  }

  /** The first page whose index truncates to the sentinel. */
  const SENTINEL_PAGE := 0xFFFF_FFFF * NENTRIES

  /** There a map of one page without PTE_P answers 0 and does nothing, where walking from the root
      would have unmapped the page. */
  lemma {:induction false} SentinelStaysMapped(st: Store, tag: Tags, root: nat, space: int, pn: nat, perm: Flags,
      alloc: Option<int>)
    requires Typed(st.mem, tag) && Owned(st.info, tag) && IsRoot(tag, root, space) && !perm.p
    requires alloc.Some? ==> alloc.value == space
    ensures root < NPAGES && Map(st, root, SENTINEL_PAGE, pn, 1, perm, alloc) == MapResult(st, Done)
    ensures Lookup(MapPages(st, root, SENTINEL_PAGE, pn, 1, perm, alloc).st.mem, root, Canon(SENTINEL_PAGE)) == Unmapped
  {
    RootInRange(st.mem, tag, root, space);
    Div512(SENTINEL_PAGE, 0xFFFF_FFFF, 0);
    SentinelPages(SENTINEL_PAGE);
    MapIsMapPages(st, tag, root, space, SENTINEL_PAGE, pn, 1, perm, alloc);
    hide Map, Typed, Owned, Grows, SameOutside, Lookup;
    var _ := PagesUnmap(st, tag, root, space, SENTINEL_PAGE, pn, 1, perm, alloc);
    assert Meets(SENTINEL_PAGE, 1, Canon(SENTINEL_PAGE));
  }

  // ---- Without an allocator ----

  lemma {:induction false} WalkIgnoresOwners(mem: Memory, info: Info, info': Info, pt: nat, level: nat, v: nat,
      perm: Flags)
    requires pt < NPAGES && level <= 3
    ensures var w, w' := WalkFrom(Store(mem, info), pt, level, v, perm, None),
        WalkFrom(Store(mem, info'), pt, level, v, perm, None);
      w.st == Store(mem, info) && w'.st == Store(mem, info') && w'.walk == w.walk
    decreases 3 - level
  {
    if level < 3 {
      var e := mem[pt][Index(v, level)];
      if e.flags.p && e.frame < NPAGES {
        WalkIgnoresOwners(mem, info, info', e.frame, level + 1, v, perm);
      }
    }
  }

  /** A map without an allocator takes no page, and does not look at who owns what. */
  lemma {:induction false} LoopIgnoresOwners(mem: Memory, info: Info, info': Info, root: nat, v: nat, pn: nat,
      n: nat, perm: Flags, last: int, l4: Option<nat>)
    requires root < NPAGES && (perm.p ==> pn + n <= NPAGES) && (l4.Some? ==> l4.value < NPAGES)
    ensures var r := MapLoop(Store(mem, info), root, v, pn, n, perm, None, last, l4);
      var r' := MapLoop(Store(mem, info'), root, v, pn, n, perm, None, last, l4);
      r.st.info == info && r' == MapResult(Store(r.st.mem, info'), r.outcome)
    decreases n
  {
    hide WalkFrom, Index, Group;
    if n > 0 {
      WalkIgnoresOwners(mem, info, info', root, 0, Canon(v), perm);
      var w := if Group(v) != last then WalkFrom(Store(mem, info), root, 0, Canon(v), perm, None)
               else WalkResult(Store(mem, info), match l4 case Some(q) => Leaf(q) case None => NoTable);
      if w.walk.Leaf? {
        LoopIgnoresOwners(SetEntry(mem, w.walk.pt, v % NENTRIES, Entry(pn, perm)), info, info', root, v + 1, pn + 1,
            n - 1, perm, Group(v), Some(w.walk.pt));
      } else if w.walk.NoTable? && !perm.p {
        LoopIgnoresOwners(mem, info, info', root, v + 1, pn + 1, n - 1, perm, Group(v), None);
      }
    }
  }

  lemma MapIgnoresOwners(mem: Memory, info: Info, info': Info, root: nat, v: nat, pn: nat, n: nat, perm: Flags)
    requires root < NPAGES
    ensures var r, r' := Map(Store(mem, info), root, v, pn, n, perm, None),
        Map(Store(mem, info'), root, v, pn, n, perm, None);
      r.st.info == info && r' == MapResult(Store(r.st.mem, info'), r.outcome)
  {
    if !(perm.p && pn + n > NPAGES) {
      LoopIgnoresOwners(mem, info, info', root, v, pn, n, perm, -1, None);
    }
  }
}
