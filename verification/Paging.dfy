/** The page-table trie: lookup, the walk that finds or builds a leaf table, and mapping. */
module Paging {
  import opened Words
  import opened Pages

  /** What virtual_memory_lookup reports. */
  datatype Mapping = Unmapped | Mapped(pn: nat, perm: Flags)

  /** A word of physical memory; beyond the modelled 2 MB there is nothing present. */
  function Read(mem: Memory, pt: nat, i: nat): Word
    requires i < NENTRIES
  {
    if pt < NPAGES then mem[pt][i] else ZERO
  }

  function SetEntry(mem: Memory, pt: nat, i: nat, w: Word): Memory
    requires pt < NPAGES && i < NENTRIES
  {
    mem[pt := mem[pt][i := w]]
  }

  /** virtual_memory_lookup from a table at a level, with the permissions gathered so far. */
  function LookupFrom(mem: Memory, pt: nat, level: nat, v: nat, perms: Flags): Mapping
    requires level <= 3
    decreases 4 - level
  {
    var e := Read(mem, pt, Index(v, level));
    var perms' := And(perms, e.flags);
    if !perms'.p then Unmapped
    else if level == 3 then Mapped(e.frame, perms')
    else LookupFrom(mem, e.frame, level + 1, v, perms')
  }

  /** virtual_memory_lookup of virtual page v. */
  function Lookup(mem: Memory, root: nat, v: nat): Mapping {
    LookupFrom(mem, root, 0, v, PWU)
  }

  /** The answer of lookup_l4pagetable: a leaf table, NULL, or a failed assertion. */
  datatype Walk = Leaf(pt: nat) | NoTable | BadEntry

  datatype WalkResult = WalkResult(st: Store, walk: Walk)

  /** The memory after a fresh zeroed table q is linked at entry i of pt. */
  function Link(mem: Memory, pt: nat, i: nat, q: nat): Memory
    requires pt < NPAGES && i < NENTRIES && q < NPAGES
  {
    SetEntry(mem, pt, i, Word(q, PWU))[q := ZeroPage()]
  }

  /** lookup_l4pagetable from a table at a level. The allocator, when there is one, is
      pagetable_alloc on behalf of the owner it carries. */
  function WalkFrom(st: Store, pt: nat, level: nat, v: nat, perm: Flags, alloc: Option<int>): (r: WalkResult)
    requires pt < NPAGES && level <= 3
    ensures r.walk.Leaf? ==> r.walk.pt < NPAGES
    decreases 3 - level
  {
    if level == 3 then WalkResult(st, Leaf(pt)) else
    var e := st.mem[pt][Index(v, level)];
    if e.flags.p then
      if e.frame >= NPAGES || (perm.w && !e.flags.w) || (perm.u && !e.flags.u) then WalkResult(st, BadEntry)
      else WalkFrom(st, e.frame, level + 1, v, perm, alloc)
    else if !perm.p || alloc.None? then WalkResult(st, NoTable)
    else
      var a := AllocTable(st, alloc.value);
      if a.pn == 0 then WalkResult(a.st, NoTable)
      else WalkFrom(Store(Link(a.st.mem, pt, Index(v, level), a.pn), a.st.info), a.pn, level + 1, v, perm, alloc)
  }

  /** Results of virtual_memory_map: 0, -1, or a failed assertion. */
  datatype Outcome = Done | Failed | Panic

  datatype MapResult = MapResult(st: Store, outcome: Outcome)

  /** The word virtual_memory_map stores for physical page pn: `pa | perm`, or just `perm`. */
  function Entry(pn: nat, perm: Flags): Word
    requires perm.p ==> pn <= NPAGES
  {
    if perm.p then Word(pn, perm) else Word(0, perm)
  }

  /** One page: find the leaf table from the root and store the entry. */
  function MapOne(st: Store, root: nat, v: nat, pn: nat, perm: Flags, alloc: Option<int>): (r: MapResult)
    requires root < NPAGES && (perm.p ==> pn <= NPAGES)
  {
    var w := WalkFrom(st, root, 0, v, perm, alloc);
    match w.walk
    case BadEntry => MapResult(w.st, Panic)
    case NoTable => MapResult(w.st, if perm.p then Failed else Done)
    case Leaf(q) => MapResult(Store(SetEntry(w.st.mem, q, v % NENTRIES, Entry(pn, perm)), w.st.info), Done)
  }

  // ---- Well-formed tables ----

  /** What a physical page is used for: a table of an address space at a level, decoding a given
      prefix, or a data page of the space for a virtual page. */
  datatype Tag = Table(space: int, level: nat, prefix: nat) | Frame(space: int, v: nat)

  type Tags = map<nat, Tag>

  /** An entry of an interior table is empty or links the one table tagged for that position. */
  ghost predicate LinkOk(e: Word, tag: Tags, space: int, level: nat, prefix: nat) {
    e == ZERO || (e.flags == PWU && e.frame in tag && tag[e.frame] == Table(space, level, prefix))
  }

  ghost predicate NodeOk(mem: Memory, tag: Tags, p: nat)
    requires p < NPAGES && p in tag && tag[p].Table?
  {
    && tag[p].level <= 3
    && (tag[p].level < 3 ==>
      forall i | 0 <= i < NENTRIES ::
        LinkOk(mem[p][i], tag, tag[p].space, tag[p].level + 1, tag[p].prefix * NENTRIES + i))
  }

  /** Every tagged table is consistent with the tags: all address spaces are disjoint trees. */
  ghost predicate Typed(mem: Memory, tag: Tags) {
    forall p | p in tag :: p < NPAGES && (tag[p].Table? ==> NodeOk(mem, tag, p))
  }

  /** Tagged pages are allocated once, to the space they serve. */
  ghost predicate Owned(info: Info, tag: Tags) {
    forall p | p in tag :: p < NPAGES && info[p] == PageInfo(tag[p].space, 1)
  }

  /** The leaf table that virtual page v would be found in. */
  function LeafTable(mem: Memory, pt: nat, level: nat, v: nat): Option<nat>
    requires level <= 3
    decreases 3 - level
  {
    if level == 3 then Some(pt) else
    var e := Read(mem, pt, Index(v, level));
    if !e.flags.p then None else LeafTable(mem, e.frame, level + 1, v)
  }

  ghost predicate IsNode(tag: Tags, n: nat, level: nat) {
    n in tag && tag[n].Table? && tag[n].level == level
  }

  function LeafMapping(e: Word): Mapping {
    if e.flags.p then Mapped(e.frame, And(PWU, e.flags)) else Unmapped
  }

  /** One step down a well-formed tree: the entry for v is empty or links v's node of the next level. */
  lemma NodeStep(mem: Memory, tag: Tags, pt: nat, level: nat, v: nat)
    requires Typed(mem, tag) && level < 3 && IsNode(tag, pt, level) && tag[pt].prefix == Prefix(v, level)
    ensures pt < NPAGES
    ensures var e := mem[pt][Index(v, level)];
      || e == ZERO
      || (e.flags == PWU && e.frame < NPAGES && e.frame in tag
          && tag[e.frame] == Table(tag[pt].space, level + 1, Prefix(v, level + 1)))
  {
    assert NodeOk(mem, tag, pt);
    var i := Index(v, level);
    assert LinkOk(mem[pt][i], tag, tag[pt].space, level + 1, tag[pt].prefix * NENTRIES + i);
    PrefixStep(v, level);
  }

  lemma {:induction false} LeafTableTyped(mem: Memory, tag: Tags, pt: nat, level: nat, v: nat)
    requires Typed(mem, tag) && level <= 3
    requires pt in tag && tag[pt].Table? && tag[pt].level == level && tag[pt].prefix == Prefix(v, level)
    ensures var l := LeafTable(mem, pt, level, v);
      l.Some? ==> l.value in tag && tag[l.value] == Table(tag[pt].space, 3, Prefix(v, 3))
    decreases 3 - level
  {
    if level < 3 {
      assert NodeOk(mem, tag, pt);
      var e := mem[pt][Index(v, level)];
      assert LinkOk(e, tag, tag[pt].space, level + 1, tag[pt].prefix * NENTRIES + Index(v, level));
      if e.flags.p {
        PrefixStep(v, level);
        LeafTableTyped(mem, tag, e.frame, level + 1, v);
      }
    }
  }

  /** On a well-formed tree the walk keeps all permissions until the leaf, so a lookup is one
      read of the leaf table. */
  lemma {:induction false} LookupIsLeaf(mem: Memory, tag: Tags, pt: nat, level: nat, v: nat)
    requires Typed(mem, tag) && level <= 3 && IsNode(tag, pt, level)
    ensures LookupFrom(mem, pt, level, v, PWU) ==
      match LeafTable(mem, pt, level, v)
      case None => Unmapped
      case Some(q) => LeafMapping(Read(mem, q, v % NENTRIES))
    decreases 3 - level
  {
    if level < 3 {
      assert NodeOk(mem, tag, pt);
      var i := Index(v, level);
      assert LinkOk(mem[pt][i], tag, tag[pt].space, level + 1, tag[pt].prefix * NENTRIES + i);
      if mem[pt][i].flags.p {
        LookupIsLeaf(mem, tag, mem[pt][i].frame, level + 1, v);
      }
    }
  }

  /** Stores that agree on the interior tables of a space find the same leaf tables in it. */
  lemma {:induction false} LeafTableFrame(mem: Memory, mem': Memory, tag: Tags, pt: nat, level: nat, v: nat)
    requires Typed(mem, tag) && level <= 3 && IsNode(tag, pt, level)
    requires forall p | p in tag && tag[p].Table? && tag[p].space == tag[pt].space && tag[p].level < 3 ::
      mem'[p] == mem[p]
    ensures LeafTable(mem', pt, level, v) == LeafTable(mem, pt, level, v)
    decreases 3 - level
  {
    if level < 3 {
      assert NodeOk(mem, tag, pt);
      var i := Index(v, level);
      assert LinkOk(mem[pt][i], tag, tag[pt].space, level + 1, tag[pt].prefix * NENTRIES + i);
      if mem[pt][i].flags.p {
        LeafTableFrame(mem, mem', tag, mem[pt][i].frame, level + 1, v);
      }
    }
  }

  /** Stores that agree on every table of a space translate it alike. */
  lemma {:induction false} LookupFrame(mem: Memory, mem': Memory, tag: Tags, pt: nat, level: nat, v: nat,
      perms: Flags)
    requires Typed(mem, tag) && level <= 3 && IsNode(tag, pt, level)
    requires forall p | p in tag && tag[p].Table? && tag[p].space == tag[pt].space :: mem'[p] == mem[p]
    ensures LookupFrom(mem', pt, level, v, perms) == LookupFrom(mem, pt, level, v, perms)
    decreases 3 - level
  {
    if level < 3 {
      assert NodeOk(mem, tag, pt);
      var i := Index(v, level);
      assert LinkOk(mem[pt][i], tag, tag[pt].space, level + 1, tag[pt].prefix * NENTRIES + i);
      if And(perms, mem[pt][i].flags).p {
        LookupFrame(mem, mem', tag, mem[pt][i].frame, level + 1, v, And(perms, mem[pt][i].flags));
      }
    }
  }

  // ---- Growing a tree ----

  /** From one store to a later one: tags are only added, on pages that were free; owners of pages
      in use stand; memory changes only in tables of the one space and on pages that were free. */
  ghost predicate Grows(st: Store, tag: Tags, st': Store, tag': Tags, space: int) {
    && (forall p | p in tag :: p in tag' && tag'[p] == tag[p])
    && (forall p | p in tag' && p !in tag :: p < NPAGES && IsFree(st.info[p]) && tag'[p].space == space)
    && (forall p | 0 <= p < NPAGES ::
      st'.info[p] == st.info[p] || (IsFree(st.info[p]) && st'.info[p] == PageInfo(space, 1)))
    && (forall p | 0 <= p < NPAGES ::
      st'.mem[p] == st.mem[p] || IsFree(st.info[p]) || (p in tag && tag[p].Table? && tag[p].space == space))
  }

  /** Every node of every tree translates as before. */
  ghost predicate SameTranslations(mem: Memory, mem': Memory, tag: Tags) {
    forall n, level, v, perms | 0 <= level <= 3 && 0 <= v && IsNode(tag, n, level) ::
      LookupFrom(mem', n, level, v, perms) == LookupFrom(mem, n, level, v, perms)
  }

  /** An empty entry of an interior table turned into a link to an empty table. */
  ghost predicate Linked(mem: Memory, mem': Memory, tag: Tags, pt: nat, i: nat, q: nat) {
    && pt in tag && tag[pt].Table? && pt < NPAGES && tag[pt].level < 3 && i < NENTRIES
    && q !in tag && q < NPAGES && mem[pt][i] == ZERO
    && mem' == Link(mem, pt, i, q)
  }

  lemma {:induction false} LinkKeepsLookup(mem: Memory, mem': Memory, tag: Tags, pt: nat, i: nat, q: nat, n: nat,
      level: nat, v: nat, perms: Flags)
    requires Typed(mem, tag) && Linked(mem, mem', tag, pt, i, q)
    requires level <= 3 && IsNode(tag, n, level)
    ensures LookupFrom(mem', n, level, v, perms) == LookupFrom(mem, n, level, v, perms)
    decreases 3 - level
  {
    var j := Index(v, level);
    if n == pt && j == i {
      assert mem'[n][j] == Word(q, PWU);
    } else if level < 3 {
      assert mem'[n][j] == mem[n][j];
      assert NodeOk(mem, tag, n);
      assert LinkOk(mem[n][j], tag, tag[n].space, level + 1, tag[n].prefix * NENTRIES + j);
      if And(perms, mem[n][j].flags).p {
        LinkKeepsLookup(mem, mem', tag, pt, i, q, mem[n][j].frame, level + 1, v, And(perms, mem[n][j].flags));
      }
    }
  }

  lemma LinkKeepsTranslations(mem: Memory, mem': Memory, tag: Tags, pt: nat, i: nat, q: nat)
    requires Typed(mem, tag) && Linked(mem, mem', tag, pt, i, q)
    ensures SameTranslations(mem, mem', tag)
  {
    forall n, level, v, perms | 0 <= level <= 3 && 0 <= v && IsNode(tag, n, level)
      ensures LookupFrom(mem', n, level, v, perms) == LookupFrom(mem, n, level, v, perms)
    {
      LinkKeepsLookup(mem, mem', tag, pt, i, q, n, level, v, perms);
    }
  }

  lemma LinkKeepsTyped(mem: Memory, mem': Memory, tag: Tags, pt: nat, i: nat, q: nat)
    requires Typed(mem, tag) && Linked(mem, mem', tag, pt, i, q)
    ensures Typed(mem', tag[q := Table(tag[pt].space, tag[pt].level + 1, tag[pt].prefix * NENTRIES + i)])
  {
    var tag' := tag[q := Table(tag[pt].space, tag[pt].level + 1, tag[pt].prefix * NENTRIES + i)];
    forall p | p in tag' && tag'[p].Table?
      ensures NodeOk(mem', tag', p)
    {
      if p != q {
        assert NodeOk(mem, tag, p);
        if tag[p].level < 3 {
          forall j | 0 <= j < NENTRIES
            ensures LinkOk(mem'[p][j], tag', tag[p].space, tag[p].level + 1, tag[p].prefix * NENTRIES + j)
          {
            assert LinkOk(mem[p][j], tag, tag[p].space, tag[p].level + 1, tag[p].prefix * NENTRIES + j);
          }
        }
      }
    }
  }

  /** Leaf tables are as they were, or new and empty. */
  ghost predicate LeavesKept(mem: Memory, tag: Tags, mem': Memory, tag': Tags) {
    forall q: nat | q < NPAGES && IsNode(tag', q, 3) ::
      (q in tag && mem'[q] == mem[q]) || mem'[q] == ZeroPage()
  }

  /** What a walk leaves behind: no failed assertion, trees that stay well formed, grow only by
      free pages and translate as before, and the leaf table for v when there is one. */
  ghost predicate Walked(st: Store, tag: Tags, pt: nat, level: nat, v: nat, r: WalkResult, tag': Tags)
    requires level <= 3 && pt in tag
  {
    && !r.walk.BadEntry?
    && Grows(st, tag, r.st, tag', tag[pt].space)
    && Typed(r.st.mem, tag') && Owned(r.st.info, tag')
    && SameTranslations(st.mem, r.st.mem, tag)
    && LeavesKept(st.mem, tag, r.st.mem, tag')
    && (r.walk.Leaf? ==> LeafTable(r.st.mem, pt, level, v) == Some(r.walk.pt))
  }

  lemma GrowsTransitive(st: Store, tag: Tags, st1: Store, tag1: Tags, st2: Store, tag2: Tags, space: int)
    requires Grows(st, tag, st1, tag1, space) && Grows(st1, tag1, st2, tag2, space)
    ensures Grows(st, tag, st2, tag2, space)
  {
    forall p | 0 <= p < NPAGES
      ensures st2.mem[p] == st.mem[p] || IsFree(st.info[p]) || (p in tag && tag[p].Table? && tag[p].space == space)
    {
      assert st1.info[p] == st.info[p] || IsFree(st.info[p]);
    }
  }

  /** Building tables below one node leaves the present entries of all nodes above it alone. */
  lemma {:induction false} LinkedEntryStays(st: Store, tag: Tags, pt: nat, level: nat, v: nat, perm: Flags,
      alloc: Option<int>, n: nat, i: nat)
    requires Typed(st.mem, tag) && Owned(st.info, tag)
    requires level <= 3 && IsNode(tag, pt, level) && tag[pt].prefix == Prefix(v, level)
    requires alloc.Some? ==> alloc.value == tag[pt].space
    requires n in tag && n < NPAGES && i < NENTRIES && tag[n].Table? && tag[n].level < level
    ensures WalkFrom(st, pt, level, v, perm, alloc).st.mem[n][i] == st.mem[n][i]
    decreases 3 - level
  {
    if level < 3 {
      assert NodeOk(st.mem, tag, pt);
      var j := Index(v, level);
      var e := st.mem[pt][j];
      assert LinkOk(e, tag, tag[pt].space, level + 1, tag[pt].prefix * NENTRIES + j);
      PrefixStep(v, level);
      if e.flags.p {
        LinkedEntryStays(st, tag, e.frame, level + 1, v, perm, alloc, n, i);
      } else if perm.p && alloc.Some? {
        var a := AllocTable(st, alloc.value);
        if a.pn != 0 {
          var q := a.pn;
          assert q !in tag;
          var tag1 := tag[q := Table(alloc.value, level + 1, tag[pt].prefix * NENTRIES + j)];
          var st1 := Store(Link(a.st.mem, pt, j, q), a.st.info);
          assert st1.mem == Link(st.mem, pt, j, q);
          LinkKeepsTyped(st.mem, st1.mem, tag, pt, j, q);
          LinkedEntryStays(st1, tag1, q, level + 1, v, perm, alloc, n, i);
        }
      }
    }
  }

  /** lookup_l4pagetable on a well-formed tree. */
  lemma {:induction false} WalkKeeps(st: Store, tag: Tags, pt: nat, level: nat, v: nat, perm: Flags,
      alloc: Option<int>)
    returns (tag': Tags)
    requires Typed(st.mem, tag) && Owned(st.info, tag)
    requires level <= 3 && IsNode(tag, pt, level) && tag[pt].prefix == Prefix(v, level)
    requires alloc.Some? ==> alloc.value == tag[pt].space
    ensures Walked(st, tag, pt, level, v, WalkFrom(st, pt, level, v, perm, alloc), tag')
    decreases 3 - level
  {
    hide Typed, Owned, Grows, SameTranslations, LeavesKept;
    tag' := tag;
    Unwalked(st, tag);
    if level < 3 {
      NodeStep(st.mem, tag, pt, level, v);
      var i := Index(v, level);
      var e := st.mem[pt][i];
      if e.flags.p {
        tag' := WalkKeeps(st, tag, e.frame, level + 1, v, perm, alloc);
        LinkedEntryStays(st, tag, e.frame, level + 1, v, perm, alloc, pt, i);
      } else if perm.p && alloc.Some? {
        var a := AllocTable(st, alloc.value);
        if a.pn == 0 {
          FailedAlloc(st, tag, alloc.value);
        } else {
          var st1, tag1 := WalkLinks(st, tag, pt, level, v, alloc.value);
          tag' := WalkKeeps(st1, tag1, a.pn, level + 1, v, perm, alloc);
          LinkedEntryStays(st1, tag1, a.pn, level + 1, v, perm, alloc, pt, i);
          WalkedAfterLink(st, tag, pt, level, v, st1, tag1, a.pn, WalkFrom(st, pt, level, v, perm, alloc), tag');
        }
      }
    }
  }

  lemma Unwalked(st: Store, tag: Tags)
    requires Typed(st.mem, tag)
    ensures forall space :: Grows(st, tag, st, tag, space)
    ensures SameTranslations(st.mem, st.mem, tag) && LeavesKept(st.mem, tag, st.mem, tag)
  {
  }

  /** A failed allocation, even one that has taken page 0, touches no page in use. */
  lemma FailedAlloc(st: Store, tag: Tags, owner: int)
    requires Typed(st.mem, tag) && Owned(st.info, tag) && AllocTable(st, owner).pn == 0
    ensures var st' := AllocTable(st, owner).st;
      st'.mem == st.mem && Owned(st'.info, tag) && Grows(st, tag, st', tag, owner)
  {
  }

  /** The store after one missing table has been allocated and linked. */
  lemma WalkLinks(st: Store, tag: Tags, pt: nat, level: nat, v: nat, owner: int)
    returns (st1: Store, tag1: Tags)
    requires Typed(st.mem, tag) && Owned(st.info, tag)
    requires level < 3 && IsNode(tag, pt, level) && tag[pt].prefix == Prefix(v, level)
    requires owner == tag[pt].space && st.mem[pt][Index(v, level)] == ZERO
    requires AllocTable(st, owner).pn != 0
    ensures var a := AllocTable(st, owner);
      && st1 == Store(Link(a.st.mem, pt, Index(v, level), a.pn), a.st.info)
      && tag1 == tag[a.pn := Table(owner, level + 1, Prefix(v, level + 1))]
      && a.pn !in tag
      && Grows(st, tag, st1, tag1, owner)
      && Typed(st1.mem, tag1) && Owned(st1.info, tag1)
      && SameTranslations(st.mem, st1.mem, tag)
      && LeavesKept(st.mem, tag, st1.mem, tag1)
  {
    var i := Index(v, level);
    var a := AllocTable(st, owner);
    var q := a.pn;
    assert q !in tag;
    PrefixStep(v, level);
    tag1 := tag[q := Table(owner, level + 1, Prefix(v, level + 1))];
    assert tag1 == tag[q := Table(owner, level + 1, tag[pt].prefix * NENTRIES + i)];
    st1 := Store(Link(st.mem, pt, i, q), a.st.info);
    assert Link(a.st.mem, pt, i, q) == st1.mem;
    assert Linked(st.mem, st1.mem, tag, pt, i, q);
    LinkedStore(st, tag, pt, i, q, tag1, st1);
    hide Typed, Owned, Linked;
    LinkKeepsTranslations(st.mem, st1.mem, tag, pt, i, q);
    LinkKeepsTyped(st.mem, st1.mem, tag, pt, i, q);
  }

  lemma LinkedStore(st: Store, tag: Tags, pt: nat, i: nat, q: nat, tag1: Tags, st1: Store)
    requires Typed(st.mem, tag) && Owned(st.info, tag) && Linked(st.mem, st1.mem, tag, pt, i, q) && IsFree(st.info[q])
    requires tag1 == tag[q := Table(tag[pt].space, tag[pt].level + 1, tag[pt].prefix * NENTRIES + i)]
    requires st1.info == st.info[q := PageInfo(tag[pt].space, 1)]
    ensures Grows(st, tag, st1, tag1, tag[pt].space) && Owned(st1.info, tag1) && LeavesKept(st.mem, tag, st1.mem, tag1)
  {
  }

  lemma WalkedAfterLink(st: Store, tag: Tags, pt: nat, level: nat, v: nat, st1: Store, tag1: Tags, q: nat,
      r: WalkResult, tag': Tags)
    requires level < 3 && pt in tag && q in tag1 && tag1[q].space == tag[pt].space
    requires Grows(st, tag, st1, tag1, tag[pt].space) && SameTranslations(st.mem, st1.mem, tag)
    requires LeavesKept(st.mem, tag, st1.mem, tag1)
    requires Walked(st1, tag1, q, level + 1, v, r, tag')
    requires pt < NPAGES && q < NPAGES && r.st.mem[pt][Index(v, level)] == Word(q, PWU)
    ensures Walked(st, tag, pt, level, v, r, tag')
  {
    GrowsTransitive(st, tag, st1, tag1, r.st, tag', tag[pt].space);
    forall n, l, x, f | 0 <= l <= 3 && 0 <= x && IsNode(tag, n, l)
      ensures LookupFrom(r.st.mem, n, l, x, f) == LookupFrom(st.mem, n, l, x, f)
    {
      assert IsNode(tag1, n, l);
      assert LookupFrom(st1.mem, n, l, x, f) == LookupFrom(st.mem, n, l, x, f);
    }
    forall q: nat | q < NPAGES && IsNode(tag', q, 3)
      ensures (q in tag && r.st.mem[q] == st.mem[q]) || r.st.mem[q] == ZeroPage()
    {
      assert q in tag1 ==> IsNode(tag1, q, 3);
    }
  }

  /** Without an allocator, or for an absent mapping, the walk only looks. */
  lemma {:induction false} WalkOnlyLooks(st: Store, tag: Tags, pt: nat, level: nat, v: nat, perm: Flags,
      alloc: Option<int>)
    requires Typed(st.mem, tag) && level <= 3 && IsNode(tag, pt, level)
    requires !perm.p || alloc.None? || LeafTable(st.mem, pt, level, v).Some?
    ensures WalkFrom(st, pt, level, v, perm, alloc) ==
      WalkResult(st, match LeafTable(st.mem, pt, level, v) case None => NoTable case Some(q) => Leaf(q))
    decreases 3 - level
  {
    if level < 3 {
      assert NodeOk(st.mem, tag, pt);
      var i := Index(v, level);
      assert LinkOk(st.mem[pt][i], tag, tag[pt].space, level + 1, tag[pt].prefix * NENTRIES + i);
      if st.mem[pt][i].flags.p {
        WalkOnlyLooks(st, tag, st.mem[pt][i].frame, level + 1, v, perm, alloc);
      }
    }
  }
}
