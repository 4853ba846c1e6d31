/** How many table pages a mapping needs, and that it succeeds exactly when that many are free. */
module Budget {
  import opened Words
  import opened Pages
  import opened Paging
  import opened MapRanges

  /** Number of tables missing on the way from a table to the leaf table of v. */
  function Missing(mem: Memory, pt: nat, level: nat, v: nat): nat
    requires level <= 3
    decreases 3 - level
  {
    if level == 3 then 0 else
    var e := Read(mem, pt, Index(v, level));
    if !e.flags.p then 3 - level else Missing(mem, e.frame, level + 1, v)
  }

  lemma {:induction false} MissingNone(mem: Memory, pt: nat, level: nat, v: nat)
    requires level <= 3
    ensures Missing(mem, pt, level, v) == 0 <==> LeafTable(mem, pt, level, v).Some?
    decreases 3 - level
  {
    if level < 3 {
      MissingNone(mem, Read(mem, pt, Index(v, level)).frame, level + 1, v);
    }
  }

  lemma {:induction false} MissingGroup(mem: Memory, pt: nat, level: nat, v: nat, x: nat)
    requires level <= 3 && Prefix(v, 3) == Prefix(x, 3)
    ensures Missing(mem, pt, level, v) == Missing(mem, pt, level, x)
    decreases 3 - level
  {
    if level < 3 {
      PrefixGroup(v, x, level + 1);
      MissingGroup(mem, Read(mem, pt, Index(v, level)).frame, level + 1, v, x);
    }
  }

  lemma {:induction false} MissingFrame(mem: Memory, mem': Memory, tag: Tags, pt: nat, level: nat, v: nat)
    requires Typed(mem, tag) && level <= 3 && IsNode(tag, pt, level)
    requires forall p | p in tag && tag[p].Table? && tag[p].space == tag[pt].space && tag[p].level < 3 ::
      mem'[p] == mem[p]
    ensures Missing(mem', pt, level, v) == Missing(mem, pt, level, v)
    decreases 3 - level
  {
    if level < 3 {
      assert NodeOk(mem, tag, pt);
      var i := Index(v, level);
      assert LinkOk(mem[pt][i], tag, tag[pt].space, level + 1, tag[pt].prefix * NENTRIES + i);
      if mem[pt][i].flags.p {
        MissingFrame(mem, mem', tag, mem[pt][i].frame, level + 1, v);
      }
    }
  }

  lemma AllocBudget(st: Store, owner: int)
    requires owner != FREE && !IsFree(st.info[0])
    ensures var a := AllocTable(st, owner);
      && !IsFree(a.st.info[0])
      && (a.pn == 0 <==> FreeCount(st.info) == 0)
      && FreeCount(a.st.info) == (if a.pn == 0 then 0 else FreeCount(st.info) - 1)
      && (a.pn != 0 ==> a.st.mem[a.pn] == ZeroPage())
  {
    GetFreeTakesLowest(st.info, owner);
  }

  /** lookup_l4pagetable finds or builds the leaf table exactly when the missing tables can be
      allocated, and then takes exactly that many pages; otherwise it has used up all pages. */
  lemma {:induction false} WalkBudget(st: Store, tag: Tags, pt: nat, level: nat, v: nat, perm: Flags, owner: int)
    requires Typed(st.mem, tag) && Owned(st.info, tag)
    requires level <= 3 && IsNode(tag, pt, level) && tag[pt].prefix == Prefix(v, level)
    requires perm.p && owner == tag[pt].space && owner != FREE && !IsFree(st.info[0])
    ensures var r := WalkFrom(st, pt, level, v, perm, Some(owner));
      && !IsFree(r.st.info[0])
      && (r.walk.Leaf? <==> FreeCount(st.info) >= Missing(st.mem, pt, level, v))
      && FreeCount(r.st.info) == if r.walk.Leaf? then FreeCount(st.info) - Missing(st.mem, pt, level, v) else 0
    decreases 3 - level
  {
    hide Typed, Owned, Grows, SameTranslations, LeavesKept, AllocTable, GetFree, FreeCount;
    if level < 3 {
      NodeStep(st.mem, tag, pt, level, v);
      var e := st.mem[pt][Index(v, level)];
      if e.flags.p {
        WalkBudget(st, tag, e.frame, level + 1, v, perm, owner);
      } else {
        AllocBudget(st, owner);
        var a := AllocTable(st, owner);
        if a.pn != 0 {
          var st1, tag1 := WalkLinks(st, tag, pt, level, v, owner);
          WalkBudget(st1, tag1, a.pn, level + 1, v, perm, owner);
        }
      }
    }
  }

  /** Mapping one page succeeds exactly when its missing tables can be allocated. */
  lemma {:induction false} MapOneBudget(st: Store, tag: Tags, root: nat, space: int, v: nat, pn: nat, perm: Flags)
    requires Typed(st.mem, tag) && Owned(st.info, tag) && IsRoot(tag, root, space) && v < VPAGES
    requires perm.p && pn <= NPAGES && space != FREE && !IsFree(st.info[0])
    ensures var r := MapOne(st, root, v, pn, perm, Some(space));
      && !IsFree(r.st.info[0])
      && (r.outcome.Done? <==> FreeCount(st.info) >= Missing(st.mem, root, 0, v))
      && FreeCount(r.st.info) == if r.outcome.Done? then FreeCount(st.info) - Missing(st.mem, root, 0, v) else 0
  {
    PrefixRoot(v);
    WalkBudget(st, tag, root, 0, v, perm, space);
    var tag' := WalkKeeps(st, tag, root, 0, v, perm, Some(space));
  }

  /** Where the leaf table exists, mapping is one store into it and allocates nothing. */
  lemma {:induction false} MapOnePresent(st: Store, tag: Tags, root: nat, space: int, v: nat, pn: nat, perm: Flags,
      alloc: Option<int>)
    requires Typed(st.mem, tag) && IsRoot(tag, root, space) && v < VPAGES
    requires (perm.p ==> pn <= NPAGES) && Missing(st.mem, root, 0, v) == 0
    ensures var r := MapOne(st, root, v, pn, perm, alloc);
      && r.outcome.Done? && r.st.info == st.info
      && (forall x | 0 <= x < VPAGES :: Missing(r.st.mem, root, 0, x) == Missing(st.mem, root, 0, x))
  {
    MissingNone(st.mem, root, 0, v);
    WalkOnlyLooks(st, tag, root, 0, v, perm, alloc);
    LeafOf(st.mem, tag, root, space, v);
    var mem' := MapOne(st, root, v, pn, perm, alloc).st.mem;
    forall x | 0 <= x < VPAGES
      ensures Missing(mem', root, 0, x) == Missing(st.mem, root, 0, x)
    {
      MissingFrame(st.mem, mem', tag, root, 0, x);
    }
  }

  /** Mapping page v leaves no table missing for the pages of the same leaf table. */
  lemma {:induction false} MapOneMissing(st: Store, tag: Tags, root: nat, space: int, v: nat, pn: nat, perm: Flags,
      alloc: Option<int>, x: nat)
    requires Typed(st.mem, tag) && Owned(st.info, tag) && IsRoot(tag, root, space) && v < VPAGES
    requires perm.p && pn <= NPAGES && (alloc.Some? ==> alloc.value == space)
    requires MapOne(st, root, v, pn, perm, alloc).outcome.Done? && Prefix(x, 3) == Prefix(v, 3)
    ensures Missing(MapOne(st, root, v, pn, perm, alloc).st.mem, root, 0, x) == 0
  {
    var mem' := MapOne(st, root, v, pn, perm, alloc).st.mem;
    var l4 := MapOneCaches(st, tag, root, space, v, pn, perm, alloc);
    MissingNone(mem', root, 0, v);
    MissingGroup(mem', root, 0, v, x);
  }

  /** Building the path for v leaves exactly one table missing for a page whose path parts from it
      at the last interior level and that was missing some. */
  lemma {:induction false} WalkMissingNear(st: Store, tag: Tags, pt: nat, level: nat, v: nat, perm: Flags,
      owner: int, x: nat)
    requires Typed(st.mem, tag) && Owned(st.info, tag)
    requires level <= 2 && IsNode(tag, pt, level) && tag[pt].prefix == Prefix(v, level)
    requires perm.p && owner == tag[pt].space && WalkFrom(st, pt, level, v, perm, Some(owner)).walk.Leaf?
    requires Prefix(x, 2) == Prefix(v, 2) && Prefix(x, 3) != Prefix(v, 3)
    requires Missing(st.mem, pt, level, x) > 0
    ensures Missing(WalkFrom(st, pt, level, v, perm, Some(owner)).st.mem, pt, level, x) == 1
    decreases 3 - level
  {
    hide Typed, Owned, Grows, SameTranslations, LeavesKept;
    NodeStep(st.mem, tag, pt, level, v);
    var i := Index(v, level);
    var e := st.mem[pt][i];
    PrefixStep(v, level);
    PrefixStep(x, level);
    if level == 2 {
      WalkLastLevel(st, tag, pt, v, perm, owner, Index(x, 2));
    } else {
      PrefixTwo(v, x, level + 1);
      if e.flags.p {
        WalkMissingNear(st, tag, e.frame, level + 1, v, perm, owner, x);
        LinkedEntryStays(st, tag, e.frame, level + 1, v, perm, Some(owner), pt, i);
      } else {
        var a := AllocTable(st, owner);
        var st1, tag1 := WalkLinks(st, tag, pt, level, v, owner);
        assert st1.mem[a.pn] == ZeroPage();
        WalkMissingNear(st1, tag1, a.pn, level + 1, v, perm, owner, x);
        LinkedEntryStays(st1, tag1, a.pn, level + 1, v, perm, Some(owner), pt, i);
      }
    }
  }

  lemma {:induction false} PrefixTwo(v: nat, x: nat, level: nat)
    requires level <= 2 && Prefix(v, 2) == Prefix(x, 2)
    ensures Prefix(v, level) == Prefix(x, level)
    decreases 2 - level
  {
    if level < 2 {
      PrefixTwo(v, x, level + 1);
    }
  }

  lemma {:induction false} WalkLastLevel(st: Store, tag: Tags, pt: nat, v: nat, perm: Flags, owner: int, j: nat)
    requires Typed(st.mem, tag) && Owned(st.info, tag) && IsNode(tag, pt, 2) && pt < NPAGES
    requires WalkFrom(st, pt, 2, v, perm, Some(owner)).walk.Leaf? && j < NENTRIES && j != Index(v, 2)
    ensures WalkFrom(st, pt, 2, v, perm, Some(owner)).st.mem[pt][j] == st.mem[pt][j]
  {
    var a := AllocTable(st, owner);
    assert a.pn != 0 ==> a.pn !in tag;
  }

  lemma {:induction false} MissingAtMost(mem: Memory, pt: nat, level: nat, v: nat)
    requires level <= 3
    ensures Missing(mem, pt, level, v) <= 3 - level
    decreases 3 - level
  {
    if level < 3 {
      MissingAtMost(mem, Read(mem, pt, Index(v, level)).frame, level + 1, v);
    }
  }

  /** With three pages free for tables, a map of one page at this 64-bit address fails and changes
      nothing, where walking from the root would have mapped it. */
  lemma {:induction false} SentinelFails(st: Store, tag: Tags, root: nat, space: int, pn: nat, perm: Flags)
    requires Typed(st.mem, tag) && Owned(st.info, tag) && IsRoot(tag, root, space) && space != FREE
    requires perm.p && pn < NPAGES && !IsFree(st.info[0]) && FreeCount(st.info) >= 3
    ensures SENTINEL_PAGE * PAGE_SIZE < 0x1_0000_0000_0000_0000 && root < NPAGES
    ensures Map(st, root, SENTINEL_PAGE, pn, 1, perm, Some(space)) == MapResult(st, Failed)
    ensures MapPages(st, root, SENTINEL_PAGE, pn, 1, perm, Some(space)).outcome.Done?
  {
    SentinelGroup();
    hide Canon, Group, Map, MapPages;
    MapIsMapPages(st, tag, root, space, SENTINEL_PAGE, pn, 1, perm, Some(space));
    OnePageMaps(st, tag, root, space, SENTINEL_PAGE, pn, perm);
  }

  lemma SentinelGroup()
    ensures Group(SENTINEL_PAGE) == -1
  {
    Div512(SENTINEL_PAGE, 0xFFFF_FFFF, 0);
    SentinelPages(SENTINEL_PAGE);
  }

  /** With three pages free for tables, walking from the root maps any one page. */
  lemma {:induction false} OnePageMaps(st: Store, tag: Tags, root: nat, space: int, v: nat, pn: nat, perm: Flags)
    requires Typed(st.mem, tag) && Owned(st.info, tag) && IsRoot(tag, root, space) && space != FREE
    requires perm.p && pn < NPAGES && !IsFree(st.info[0]) && FreeCount(st.info) >= 3
    ensures root < NPAGES && MapPages(st, root, v, pn, 1, perm, Some(space)).outcome.Done?
  {
    RootInRange(st.mem, tag, root, space);
    MissingAtMost(st.mem, root, 0, Canon(v));
    hide MapOne, Missing, FreeCount, Typed, Owned;
    MapOneBudget(st, tag, root, space, Canon(v), pn, perm);
  }
}
