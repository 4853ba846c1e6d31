/** The memory half of fork: data pages and the copy of the parent's writable pages. */
module Forking {
  import opened Words
  import opened Pages
  import opened Paging
  import opened MapRanges
  import opened Budget
  import opened AddressSpaces

  // ---- Data pages ----

  /** A store after a free page has been given to an owner, with some content. */
  function GivePage(st: Store, q: nat, content: Page, owner: int): Store
    requires q < NPAGES
  {
    Store(st.mem[q := content], st.info[q := PageInfo(owner, 1)])
  }

  /** A new data page changes no translation and keeps all trees well formed. */
  lemma NewFrame(st: Store, tag: Tags, q: nat, content: Page, space: int, v: nat)
    requires WellFormed(st, tag) && q < NPAGES && IsFree(st.info[q])
    ensures var st' := GivePage(st, q, content, space);
      var tag' := tag[q := Frame(space, v)];
      && q !in tag && WellFormed(st', tag') && Grows(st, tag, st', tag', space)
      && SameOutside(st.mem, st'.mem, tag, space, v, v)
  {
    assert q !in tag;
    var st' := GivePage(st, q, content, space);
    var tag' := tag[q := Frame(space, v)];
    NewFrameTyped(st, tag, q, content, space, v);
    NewFrameLeaves(st, tag, q, content, space, v);
    FreshRootSame(st, tag, st'.mem, q);
    SameTranslationsOutside(st.mem, st'.mem, tag, space, v, v);
  }

  lemma NewFrameTyped(st: Store, tag: Tags, q: nat, content: Page, space: int, v: nat)
    requires WellFormed(st, tag) && q < NPAGES && q !in tag
    ensures Typed(st.mem[q := content], tag[q := Frame(space, v)])
  {
    var tag' := tag[q := Frame(space, v)];
    forall p | p in tag' && tag'[p].Table?
      ensures NodeOk(st.mem[q := content], tag', p)
    {
      assert NodeOk(st.mem, tag, p);
    }
  }

  lemma NewFrameLeaves(st: Store, tag: Tags, q: nat, content: Page, space: int, v: nat)
    requires WellFormed(st, tag) && q < NPAGES && q !in tag
    ensures Leaves(st.mem[q := content], tag[q := Frame(space, v)])
  {
    var tag', mem' := tag[q := Frame(space, v)], st.mem[q := content];
    forall p: nat, i | p < NPAGES && IsNode(tag', p, 3) && 0 <= i < NENTRIES
      ensures LeafOk(mem'[p][i], tag', tag'[p].space, tag'[p].prefix * NENTRIES + i)
    {
      assert IsNode(tag, p, 3);
      assert LeafOk(st.mem[p][i], tag, tag[p].space, tag[p].prefix * NENTRIES + i);
    }
  }

  /** What a process's table can say about a page: above the kernel range, only pages of its own. */
  lemma UserLookup(st: Store, tag: Tags, root: nat, space: int, v: nat)
    requires WellFormed(st, tag) && IsRoot(tag, root, space) && space != KERNEL && PROC_START <= v < VPAGES
    ensures var m := Lookup(st.mem, root, v);
      m.Mapped? ==> m.perm == PWU && m.pn < NPAGES && m.pn in tag && tag[m.pn] == Frame(space, v)
  {
    LookupIsLeaf(st.mem, tag, root, 0, v);
    LeafOf(st.mem, tag, root, space, v);
    var l := LeafTable(st.mem, root, 0, v);
    if l.Some? {
      assert IsNode(tag, l.value, 3) && l.value < NPAGES;
      assert LeafOk(st.mem[l.value][v % NENTRIES], tag, space, v);
    }
  }

  // ---- The loop of fork ----

  /** memcpy of a page: beyond physical memory there is nothing to read. */
  function PageAt(mem: Memory, pn: nat): Page {
    if pn < NPAGES then mem[pn] else ZeroPage()
  }

  /** One iteration of fork's loop: give the child its own copy of a writable page. */
  function ForkPage(st: Store, src: nat, dst: nat, v: nat, owner: int): (r: MapResult)
    requires dst < NPAGES
  {
    match Lookup(st.mem, src, v)
    case Unmapped => MapResult(st, Done)
    case Mapped(pn, perm) =>
      if !perm.w then MapResult(st, Done) else
      var g := GetFree(st.info, owner);
      if g.pn == 0 then MapResult(Store(st.mem, g.info), Failed)
      else Map(Store(st.mem[g.pn := PageAt(st.mem, pn)], g.info), dst, v, g.pn, 1, perm, Some(owner))
  }

  function ForkLoop(st: Store, src: nat, dst: nat, v: nat, owner: int): (r: MapResult)
    requires dst < NPAGES && v <= VM_END
    decreases VM_END - v
  {
    if v == VM_END then MapResult(st, Done) else
    var r := ForkPage(st, src, dst, v, owner);
    if r.outcome.Done? then ForkLoop(r.st, src, dst, v + 1, owner) else r
  }

  predicate Writable(m: Mapping) {
    m.Mapped? && m.perm.w
  }

  /** Page v of the new table against the parent's at an earlier store: mapped alike, to a page
      that was free then, belongs to the child, and holds what the parent's page held; or absent. */
  ghost predicate PageForked(st: Store, src: nat, mem: Memory, tag: Tags, dst: nat, owner: int, v: nat) {
    var from, to := Lookup(st.mem, src, v), Lookup(mem, dst, v);
    if Writable(from) then
      && from.pn < NPAGES && to.Mapped? && to.perm == from.perm
      && to.pn < NPAGES && to.pn in tag && tag[to.pn] == Frame(owner, v)
      && IsFree(st.info[to.pn]) && mem[to.pn] == st.mem[from.pn]
    else to == Unmapped
  }

  /** Pages one iteration takes. */
  function PageCost(mem: Memory, src: nat, dst: nat, v: nat): nat {
    if Writable(Lookup(mem, src, v)) then 1 + Missing(mem, dst, 0, v) else 0
  }

  lemma {:induction false} HighMissing(mem: Memory, root: nat, v: nat)
    requires NENTRIES <= v < 2 * NENTRIES
    ensures Missing(mem, root, 0, v) == Missing(mem, root, 0, NENTRIES)
  {
    assert Prefix(v, 3) == v / NENTRIES == 1;
    SecondLeaf();
    MissingGroup(mem, root, 0, v, NENTRIES);
  }

  /** One iteration of fork's loop, on well-formed stores. */
  lemma ForkStep(st: Store, tag: Tags, src: nat, space: int, dst: nat, owner: int, v: nat)
    returns (tag': Tags)
    requires WellFormed(st, tag) && IsRoot(tag, src, space) && IsRoot(tag, dst, owner) && dst < NPAGES
    requires space != owner && space != KERNEL && owner != KERNEL && owner != FREE
    requires PROC_START <= v < VM_END && Lookup(st.mem, dst, v) == Unmapped
    ensures var r := ForkPage(st, src, dst, v, owner);
      && !r.outcome.Panic?
      && WellFormed(r.st, tag') && Grows(st, tag, r.st, tag', owner)
      && SameOutside(st.mem, r.st.mem, tag, owner, v, v + 1)
      && (r.outcome.Done? <==> FreeCount(st.info) >= PageCost(st.mem, src, dst, v))
      && (r.outcome.Done? ==>
        && FreeCount(r.st.info) == FreeCount(st.info) - PageCost(st.mem, src, dst, v)
        && PageForked(st, src, r.st.mem, tag', dst, owner, v))
  {
    UserLookup(st, tag, src, space, v);
    tag' := tag;
    var from := Lookup(st.mem, src, v);
    var r := ForkPage(st, src, dst, v, owner);
    if Writable(from) {
      GetFreeTakesLowest(st.info, owner);
      var g := GetFree(st.info, owner);
      if g.pn != 0 {
        var st1 := GivePage(st, g.pn, st.mem[from.pn], owner);
        NewFrame(st, tag, g.pn, st.mem[from.pn], owner, v);
        tag' := ForkStepMaps(st, tag, st1, tag[g.pn := Frame(owner, v)], dst, owner, v, g.pn);
        assert r == Map(st1, dst, v, g.pn, 1, PWU, Some(owner));
      }
    }
  }

  lemma NothingForked(st: Store, src: nat, dst: nat, v: nat, owner: int)
    requires dst < NPAGES && !Writable(Lookup(st.mem, src, v))
    ensures ForkPage(st, src, dst, v, owner) == MapResult(st, Done)
  {
    hide LookupFrom;
  }

  /** The copy of a writable page: a page for it, its content, and the map. */
  lemma ForkPageShape(st: Store, src: nat, dst: nat, v: nat, owner: int)
    requires dst < NPAGES && owner != FREE && Writable(Lookup(st.mem, src, v)) && Lookup(st.mem, src, v).pn < NPAGES
    ensures var from := Lookup(st.mem, src, v);
      var g := GetFree(st.info, owner);
      ForkPage(st, src, dst, v, owner) ==
        if g.pn == 0 then MapResult(Store(st.mem, g.info), Failed)
        else Map(GivePage(st, g.pn, st.mem[from.pn], owner), dst, v, g.pn, 1, from.perm, Some(owner))
  {
    hide LookupFrom, Map, FreeCount;
    GetFreeTakesLowest(st.info, owner);
  }

  /** Mapping the child's copy, once it has its page. */
  lemma ForkStepMaps(st: Store, tag: Tags, st1: Store, tag1: Tags, dst: nat, owner: int, v: nat, q: nat)
    returns (tag': Tags)
    requires WellFormed(st, tag) && WellFormed(st1, tag1) && Grows(st, tag, st1, tag1, owner)
    requires q < NPAGES && q !in tag && st1.mem == st.mem[q := st1.mem[q]] && tag1 == tag[q := Frame(owner, v)]
    requires SameOutside(st.mem, st1.mem, tag, owner, v, v)
    requires IsRoot(tag, dst, owner) && dst < NPAGES && owner != KERNEL && owner != FREE
    requires PROC_START <= v < VM_END
    ensures var r := Map(st1, dst, v, q, 1, PWU, Some(owner));
      && !r.outcome.Panic?
      && WellFormed(r.st, tag') && Grows(st, tag, r.st, tag', owner)
      && SameOutside(st.mem, r.st.mem, tag, owner, v, v + 1)
      && (r.outcome.Done? <==> FreeCount(st1.info) >= Missing(st.mem, dst, 0, v))
      && (r.outcome.Done? ==>
        && FreeCount(r.st.info) == FreeCount(st1.info) - Missing(st.mem, dst, 0, v)
        && Lookup(r.st.mem, dst, v) == Mapped(q, PWU)
        && q in tag' && tag'[q] == Frame(owner, v) && r.st.mem[q] == st1.mem[q])
  {
    var r := Map(st1, dst, v, q, 1, PWU, Some(owner));
    WellFormedParts(st, tag);
    WellFormedParts(st1, tag1);
    MissingFrame(st.mem, st1.mem, tag, dst, 0, v);
    assert LeafOk(Entry(q, PWU), tag1, owner, v);
    assert !IsFree(st1.info[q]);
    hide WellFormed, Typed, Owned, Leaves, SameOutside, Map;
    tag' := MapEffects(st1, tag1, dst, owner, v, q, PWU, Some(owner));
    MapSingle(st1, dst, v, q, PWU, Some(owner));
    MapOneBudget(st1, tag1, dst, owner, v, q, PWU);
    GrowsTransitive(st, tag, st1, tag1, r.st, tag', owner);
    SameOutsideTransitive(st.mem, st1.mem, r.st.mem, tag, tag1, owner, v, v, v + 1);
  }

  lemma WellFormedParts(st: Store, tag: Tags)
    requires WellFormed(st, tag)
    ensures Typed(st.mem, tag) && Owned(st.info, tag) && Leaves(st.mem, tag) && !IsFree(st.info[0])
  {
  }

  /** How one iteration changes the tables missing above the first leaf table. */
  lemma {:induction false} ForkStepMissing(st: Store, tag: Tags, src: nat, space: int, dst: nat, owner: int, v: nat)
    requires WellFormed(st, tag) && IsRoot(tag, src, space) && IsRoot(tag, dst, owner) && dst < NPAGES
    requires space != owner && space != KERNEL && owner != KERNEL && owner != FREE
    requires PROC_START <= v < VM_END && ForkPage(st, src, dst, v, owner).outcome.Done?
    requires v < NENTRIES ==> Missing(st.mem, dst, 0, 0) == 0
    ensures var mem' := ForkPage(st, src, dst, v, owner).st.mem;
      && (v < NENTRIES ==> Missing(mem', dst, 0, 0) == 0)
      && Missing(mem', dst, 0, NENTRIES) ==
        if NENTRIES <= v && Writable(Lookup(st.mem, src, v)) then 0 else Missing(st.mem, dst, 0, NENTRIES)
  {
    hide WellFormed, Typed, Owned, Leaves, SameOutside, Map, Grows, Missing, FreeCount, Lookup, GetFree, ForkPage,
        MapOne;
    UserLookup(st, tag, src, space, v);
    var from := Lookup(st.mem, src, v);
    if !Writable(from) {
      NothingForked(st, src, dst, v, owner);
    } else {
      WellFormedParts(st, tag);
      GetFreeTakesLowest(st.info, owner);
      ForkPageShape(st, src, dst, v, owner);
      var g := GetFree(st.info, owner);
      var st1 := GivePage(st, g.pn, st.mem[from.pn], owner);
      var tag1 := tag[g.pn := Frame(owner, v)];
      NewFrame(st, tag, g.pn, st.mem[from.pn], owner, v);
      WellFormedParts(st1, tag1);
      MissingFrame(st.mem, st1.mem, tag, dst, 0, 0);
      MissingFrame(st.mem, st1.mem, tag, dst, 0, NENTRIES);
      MapSingle(st1, dst, v, g.pn, PWU, Some(owner));
      if v < NENTRIES {
        LowMissing(st1.mem, dst, v);
        MapOnePresent(st1, tag1, dst, owner, v, g.pn, PWU, Some(owner));
      } else {
        assert Prefix(v, 3) == v / NENTRIES == 1;
        SecondLeaf();
        MapOneMissing(st1, tag1, dst, owner, v, g.pn, PWU, Some(owner), NENTRIES);
      }
    }
  }

  /** Writable pages of a table in [v, VM_END). */
  function WritableFrom(mem: Memory, src: nat, v: nat): nat
    requires v <= VM_END
    decreases VM_END - v
  {
    if v == VM_END then 0
    else (if Writable(Lookup(mem, src, v)) then 1 else 0) + WritableFrom(mem, src, v + 1)
  }

  /** Is any of them at or above 0x200000, where a second leaf table is needed? */
  predicate HighFrom(mem: Memory, src: nat, v: nat)
    requires v <= VM_END
    decreases VM_END - v
  {
    v < VM_END && ((NENTRIES <= v && Writable(Lookup(mem, src, v))) || HighFrom(mem, src, v + 1))
  }

  lemma {:induction false} SameNeed(mem: Memory, mem': Memory, src: nat, v: nat)
    requires v <= VM_END && forall x | v <= x < VM_END :: Lookup(mem', src, x) == Lookup(mem, src, x)
    ensures WritableFrom(mem', src, v) == WritableFrom(mem, src, v) && HighFrom(mem', src, v) == HighFrom(mem, src, v)
    decreases VM_END - v
  {
    if v < VM_END {
      SameNeed(mem, mem', src, v + 1);
    }
  }

  /** Pages the loop takes from page v on. */
  function LoopCost(mem: Memory, src: nat, dst: nat, v: nat): nat
    requires v <= VM_END
  {
    WritableFrom(mem, src, v) + if HighFrom(mem, src, v) then Missing(mem, dst, 0, NENTRIES) else 0
  }

  ghost predicate RangeForked(st: Store, src: nat, mem: Memory, tag: Tags, dst: nat, owner: int, lo: nat) {
    forall x | lo <= x < VM_END :: PageForked(st, src, mem, tag, dst, owner, x)
  }

  lemma RangeForkedStep(st: Store, tag: Tags, st1: Store, tag1: Tags, st2: Store, tag2: Tags, src: nat, space: int,
      dst: nat, owner: int, v: nat)
    requires WellFormed(st, tag) && WellFormed(st1, tag1) && IsRoot(tag, src, space) && IsRoot(tag1, dst, owner)
    requires space != owner && space != KERNEL && PROC_START <= v < VM_END
    requires Grows(st, tag, st1, tag1, owner) && SameOutside(st.mem, st1.mem, tag, owner, v, v + 1)
    requires Grows(st1, tag1, st2, tag2, owner) && SameOutside(st1.mem, st2.mem, tag1, owner, v + 1, VM_END)
    requires PageForked(st, src, st1.mem, tag1, dst, owner, v)
    requires RangeForked(st1, src, st2.mem, tag2, dst, owner, v + 1)
    ensures RangeForked(st, src, st2.mem, tag2, dst, owner, v)
  {
    forall x | v <= x < VM_END
      ensures PageForked(st, src, st2.mem, tag2, dst, owner, x)
    {
      UserLookup(st, tag, src, space, x);
      hide WellFormed, SameOutside, Grows, PageForked;
      if x == v {
        PageForkedLater(st, src, st1, tag1, st2, tag2, dst, owner, v);
      } else {
        PageForkedSince(st, tag, st1, tag1, src, space, st2.mem, tag2, dst, owner, v, v + 1, x);
      }
    }
  }

  lemma PageForkedLater(st: Store, src: nat, st1: Store, tag1: Tags, st2: Store, tag2: Tags, dst: nat, owner: int,
      v: nat)
    requires WellFormed(st1, tag1) && IsRoot(tag1, dst, owner) && v < VPAGES
    requires Grows(st1, tag1, st2, tag2, owner) && SameOutside(st1.mem, st2.mem, tag1, owner, v + 1, VM_END)
    requires PageForked(st, src, st1.mem, tag1, dst, owner, v)
    ensures PageForked(st, src, st2.mem, tag2, dst, owner, v)
  {
    assert Lookup(st2.mem, dst, v) == Lookup(st1.mem, dst, v);
  }

  lemma PageForkedSince(st: Store, tag: Tags, st1: Store, tag1: Tags, src: nat, space: int, mem: Memory, tag2: Tags,
      dst: nat, owner: int, lo: nat, hi: nat, x: nat)
    requires WellFormed(st, tag) && IsRoot(tag, src, space) && space != owner && x < VPAGES
    requires Grows(st, tag, st1, tag1, owner) && SameOutside(st.mem, st1.mem, tag, owner, lo, hi)
    requires var m := Lookup(st.mem, src, x);
      m.Mapped? ==> m.perm == PWU && m.pn < NPAGES && m.pn in tag && tag[m.pn] == Frame(space, x)
    requires PageForked(st1, src, mem, tag2, dst, owner, x)
    ensures PageForked(st, src, mem, tag2, dst, owner, x)
  {
    assert Lookup(st1.mem, src, x) == Lookup(st.mem, src, x);
    var from := Lookup(st.mem, src, x);
    if from.Mapped? {
      FrameKept(st, tag, st1, tag1, owner, from.pn);
    }
  }

  /** A data page outlives whatever else is allocated and mapped. */
  lemma FrameKept(st: Store, tag: Tags, st': Store, tag': Tags, space: int, q: nat)
    requires Owned(st.info, tag) && Grows(st, tag, st', tag', space) && q in tag && tag[q].Frame?
    ensures q < NPAGES && st'.mem[q] == st.mem[q] && tag'[q] == tag[q]
  {
  }

  /** The outcome of fork's loop from page v on. */
  ghost predicate LoopResult(st: Store, tag: Tags, src: nat, dst: nat, owner: int, v: nat, r: MapResult, tag': Tags)
    requires v <= VM_END
  {
    && !r.outcome.Panic?
    && WellFormed(r.st, tag') && Grows(st, tag, r.st, tag', owner)
    && SameOutside(st.mem, r.st.mem, tag, owner, v, VM_END)
    && (r.outcome.Done? <==> FreeCount(st.info) >= LoopCost(st.mem, src, dst, v))
    && (r.outcome.Done? ==>
      && FreeCount(r.st.info) == FreeCount(st.info) - LoopCost(st.mem, src, dst, v)
      && RangeForked(st, src, r.st.mem, tag', dst, owner, v))
  }

  /** fork's loop: it succeeds exactly when the pages it needs are free, takes exactly those, and
      then every page from v on is the child's own copy of the parent's. */
  lemma {:induction false} ForkLoopCopies(st: Store, tag: Tags, src: nat, space: int, dst: nat, owner: int, v: nat)
    returns (tag': Tags)
    requires WellFormed(st, tag) && IsRoot(tag, src, space) && IsRoot(tag, dst, owner) && dst < NPAGES
    requires space != owner && space != KERNEL && owner != KERNEL && owner != FREE
    requires PROC_START <= v <= VM_END && (v < NENTRIES ==> Missing(st.mem, dst, 0, 0) == 0)
    requires forall x | v <= x < VM_END :: Lookup(st.mem, dst, x) == Unmapped
    ensures LoopResult(st, tag, src, dst, owner, v, ForkLoop(st, src, dst, v, owner), tag')
    decreases VM_END - v
  {
    hide WellFormed, Grows, SameOutside, ForkPage, PageForked, RangeForked, LoopResult, LoopCost, Lookup, Missing,
        Writable, FreeCount;
    if v == VM_END {
      tag' := tag;
      LoopEnds(st, tag, src, dst, owner);
    } else {
      var r1 := ForkPage(st, src, dst, v, owner);
      var tag1 := ForkStep(st, tag, src, space, dst, owner, v);
      if r1.outcome.Done? {
        ForkStepMissing(st, tag, src, space, dst, owner, v);
        ForkStepKeeps(st, tag, r1.st, tag1, src, space, dst, owner, v);
        LoopCostStep(st.mem, r1.st.mem, src, dst, v);
        tag' := ForkLoopCopies(r1.st, tag1, src, space, dst, owner, v + 1);
        LoopResultStep(st, tag, src, space, dst, owner, v, r1, tag1, ForkLoop(r1.st, src, dst, v + 1, owner), tag');
      } else {
        tag' := tag1;
        LoopFailed(st, tag, src, dst, owner, v, r1, tag1);
      }
    }
  }

  lemma LoopEnds(st: Store, tag: Tags, src: nat, dst: nat, owner: int)
    requires WellFormed(st, tag)
    ensures LoopResult(st, tag, src, dst, owner, VM_END, MapResult(st, Done), tag)
  {
  }

  lemma {:induction false} LoopFailed(st: Store, tag: Tags, src: nat, dst: nat, owner: int, v: nat, r: MapResult,
      tag': Tags)
    requires PROC_START <= v < VM_END && (v < NENTRIES ==> Missing(st.mem, dst, 0, 0) == 0)
    requires r.outcome.Failed? && WellFormed(r.st, tag') && Grows(st, tag, r.st, tag', owner)
    requires SameOutside(st.mem, r.st.mem, tag, owner, v, v + 1)
    requires FreeCount(st.info) < PageCost(st.mem, src, dst, v)
    ensures LoopResult(st, tag, src, dst, owner, v, r, tag')
  {
    hide WellFormed, Grows, RangeForked;
    PageCosts(st.mem, src, dst, v);
  }

  lemma LoopResultStep(st: Store, tag: Tags, src: nat, space: int, dst: nat, owner: int, v: nat, r1: MapResult,
      tag1: Tags, r: MapResult, tag': Tags)
    requires WellFormed(st, tag) && WellFormed(r1.st, tag1) && IsRoot(tag, src, space) && IsRoot(tag1, dst, owner)
    requires space != owner && space != KERNEL && PROC_START <= v < VM_END
    requires Grows(st, tag, r1.st, tag1, owner) && SameOutside(st.mem, r1.st.mem, tag, owner, v, v + 1)
    requires FreeCount(st.info) >= PageCost(st.mem, src, dst, v)
    requires FreeCount(r1.st.info) == FreeCount(st.info) - PageCost(st.mem, src, dst, v)
    requires LoopCost(st.mem, src, dst, v) == PageCost(st.mem, src, dst, v) + LoopCost(r1.st.mem, src, dst, v + 1)
    requires PageForked(st, src, r1.st.mem, tag1, dst, owner, v)
    requires LoopResult(r1.st, tag1, src, dst, owner, v + 1, r, tag')
    ensures LoopResult(st, tag, src, dst, owner, v, r, tag')
  {
    hide WellFormed, Grows, SameOutside, PageForked, RangeForked, LoopCost, PageCost;
    GrowsTransitive(st, tag, r1.st, tag1, r.st, tag', owner);
    GrowsKeepsTags(st, tag, r1.st, tag1, owner);
    SameOutsideTransitive(st.mem, r1.st.mem, r.st.mem, tag, tag1, owner, v, v + 1, VM_END);
    if r.outcome.Done? {
      RangeForkedStep(st, tag, r1.st, tag1, r.st, tag', src, space, dst, owner, v);
    }
  }

  lemma {:induction false} LoopCostStep(mem: Memory, mem1: Memory, src: nat, dst: nat, v: nat)
    requires PROC_START <= v < VM_END && (v < NENTRIES ==> Missing(mem, dst, 0, 0) == 0)
    requires forall x | v <= x < VM_END :: Lookup(mem1, src, x) == Lookup(mem, src, x)
    requires Missing(mem1, dst, 0, NENTRIES) ==
      if NENTRIES <= v && Writable(Lookup(mem, src, v)) then 0 else Missing(mem, dst, 0, NENTRIES)
    ensures LoopCost(mem, src, dst, v) == PageCost(mem, src, dst, v) + LoopCost(mem1, src, dst, v + 1)
  {
    hide Missing, Lookup, PageCost, Writable;
    SameNeed(mem, mem1, src, v + 1);
    PageCosts(mem, src, dst, v);
  }

  lemma {:induction false} PageCosts(mem: Memory, src: nat, dst: nat, v: nat)
    requires PROC_START <= v < VM_END && (v < NENTRIES ==> Missing(mem, dst, 0, 0) == 0)
    ensures PageCost(mem, src, dst, v) ==
      if !Writable(Lookup(mem, src, v)) then 0
      else if v < NENTRIES then 1 else 1 + Missing(mem, dst, 0, NENTRIES)
  {
    if v < NENTRIES {
      LowMissing(mem, dst, v);
    } else {
      HighMissing(mem, dst, v);
    }
  }

  /** After one iteration the loop's assumptions hold again, and the parent translates as before. */
  lemma ForkStepKeeps(st: Store, tag: Tags, st1: Store, tag1: Tags, src: nat, space: int, dst: nat, owner: int,
      v: nat)
    requires IsRoot(tag, src, space) && IsRoot(tag, dst, owner) && space != owner
    requires PROC_START <= v < VM_END
    requires Grows(st, tag, st1, tag1, owner) && SameOutside(st.mem, st1.mem, tag, owner, v, v + 1)
    requires forall x | v <= x < VM_END :: Lookup(st.mem, dst, x) == Unmapped
    ensures IsRoot(tag1, src, space) && IsRoot(tag1, dst, owner)
    ensures forall x | v + 1 <= x < VM_END :: Lookup(st1.mem, dst, x) == Unmapped
    ensures forall x | v <= x < VM_END :: Lookup(st1.mem, src, x) == Lookup(st.mem, src, x)
  {
  }

  // ---- The whole of fork's memory work ----

  /** Pages fork takes: four tables, the parent's writable pages, and a second leaf table if any of
      those is at or above 0x200000. */
  function ForkCost(mem: Memory, src: nat): nat {
    4 + WritableFrom(mem, src, PROC_START) + if HighFrom(mem, src, PROC_START) then 1 else 0
  }

  /** What fork's copying leaves, whether or not it ran out of pages in its loop. */
  ghost predicate ForkResult(st: Store, tag: Tags, src: nat, owner: int, root: nat, r: MapResult, tag': Tags) {
    && !r.outcome.Panic?
    && WellFormed(r.st, tag') && Grows(st, tag, r.st, tag', owner)
    && SameOutside(st.mem, r.st.mem, tag, owner, 0, VM_END)
    && IsRoot(tag', root, owner) && KernelMapped(r.st.mem, root)
    && (forall v | VM_END <= v < VPAGES :: Lookup(r.st.mem, root, v) == Unmapped)
    && (r.outcome.Done? <==> FreeCount(st.info) >= ForkCost(st.mem, src))
    && (r.outcome.Done? ==>
      && FreeCount(r.st.info) == FreeCount(st.info) - ForkCost(st.mem, src)
      && RangeForked(st, src, r.st.mem, tag', root, owner, PROC_START))
  }

  /** copy_pagetable and fork's loop together, once copy_pagetable has its four pages. */
  lemma ForkCopies(st: Store, tag: Tags, src: nat, space: int, owner: int)
    returns (tag': Tags)
    requires WellFormed(st, tag) && IsRoot(tag, src, space) && KernelMapped(st.mem, src)
    requires space != owner && space != KERNEL && owner != KERNEL && owner != FREE
    requires FreeCount(st.info) >= 4
    ensures var c := CopyTable(st, src, owner);
      && c.root != 0 && !c.panicked
      && ForkResult(st, tag, src, owner, c.root, ForkLoop(c.st, src, c.root, PROC_START, owner), tag')
  {
    hide WellFormed, Grows, SameOutside, KernelMapped, RangeForked, Missing, FreeCount, CopyTable, ForkLoop,
        LoopCost, ForkCost;
    var c := CopyTable(st, src, owner);
    var tag1 := CopyTableCopies(st, tag, src, space, owner);
    GrowsKeepsTags(st, tag, c.st, tag1, owner);
    tag' := ForkLoopCopies(c.st, tag1, src, space, c.root, owner, PROC_START);
    var r := ForkLoop(c.st, src, c.root, PROC_START, owner);
    ForkCosts(st, tag, c.st, tag1, src, space, c.root, owner);
    GrowsTransitive(st, tag, c.st, tag1, r.st, tag', owner);
    SameOutsideTransitive(st.mem, c.st.mem, r.st.mem, tag, tag1, owner, 0, PROC_START, VM_END);
    RootKept(c.st, tag1, r.st, tag', c.root, owner);
    ForkKeepsCopied(c.st.mem, r.st.mem, tag1, c.root, owner);
    if r.outcome.Done? {
      RangeForkedSince(st, tag, c.st, tag1, src, space, r.st.mem, tag', c.root, owner);
    }
  }

  lemma {:induction false} ForkCosts(st: Store, tag: Tags, st1: Store, tag1: Tags, src: nat, space: int, dst: nat,
      owner: int)
    requires IsRoot(tag, src, space) && space != owner && SameOutside(st.mem, st1.mem, tag, owner, 0, PROC_START)
    requires Missing(st1.mem, dst, 0, NENTRIES) == 1
    ensures LoopCost(st1.mem, src, dst, PROC_START) + 4 == ForkCost(st.mem, src)
  {
    SameNeed(st.mem, st1.mem, src, PROC_START);
  }

  lemma ForkKeepsCopied(m1: Memory, m2: Memory, tag1: Tags, dst: nat, owner: int)
    requires CopiedUpTo(m1, tag1, dst, owner, PROC_START) && SameOutside(m1, m2, tag1, owner, PROC_START, VM_END)
    ensures KernelMapped(m2, dst)
    ensures forall v | VM_END <= v < VPAGES :: Lookup(m2, dst, v) == Unmapped
  {
    forall v | 0 <= v < VPAGES && (v < PROC_START || VM_END <= v)
      ensures Lookup(m2, dst, v) == Lookup(m1, dst, v)
    {
    }
  }

  lemma RangeForkedSince(st: Store, tag: Tags, st1: Store, tag1: Tags, src: nat, space: int, mem: Memory, tag2: Tags,
      dst: nat, owner: int)
    requires WellFormed(st, tag) && IsRoot(tag, src, space) && space != owner && space != KERNEL
    requires Grows(st, tag, st1, tag1, owner) && SameOutside(st.mem, st1.mem, tag, owner, 0, PROC_START)
    requires RangeForked(st1, src, mem, tag2, dst, owner, PROC_START)
    ensures RangeForked(st, src, mem, tag2, dst, owner, PROC_START)
  {
    forall x | PROC_START <= x < VM_END
      ensures PageForked(st, src, mem, tag2, dst, owner, x)
    {
      assert PageForked(st1, src, mem, tag2, dst, owner, x);
      UserLookup(st, tag, src, space, x);
      hide WellFormed, SameOutside, Grows, PageForked;
      PageForkedSince(st, tag, st1, tag1, src, space, mem, tag2, dst, owner, 0, PROC_START, x);
    }
  }
}
