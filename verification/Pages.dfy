/** Physical memory and the allocator of physical pages. */
module Pages {
  import opened Words

  const NPAGES := 512

  const FREE := 0
  const RESERVED := -1
  const KERNEL := -2

  type Page = s: seq<Word> | |s| == NENTRIES witness seq(NENTRIES, _ => ZERO)
  type Memory = m: seq<Page> | |m| == NPAGES witness seq(NPAGES, _ => ZeroPage())

  /** A page as memset leaves it. */
  function ZeroPage(): (p: Page)
    ensures forall i | 0 <= i < NENTRIES :: p[i] == ZERO
  {
    seq(NENTRIES, _ => ZERO)
  }

  datatype PageInfo = PageInfo(owner: int, refcount: int)
  type Info = s: seq<PageInfo> | |s| == NPAGES witness seq(NPAGES, _ => PageInfo(FREE, 0))

  /** What the allocator and the page-table code work on. */
  datatype Store = Store(mem: Memory, info: Info)

  predicate IsFree(i: PageInfo) {
    i.refcount == 0 && i.owner == FREE
  }

  /** The lowest free page at or above `from`, or NPAGES. */
  function FirstFree(info: Info, from: nat): (pn: nat)
    requires from <= NPAGES
    ensures from <= pn <= NPAGES
    ensures pn < NPAGES ==> IsFree(info[pn])
    ensures forall p | from <= p < pn :: !IsFree(info[p])
    decreases NPAGES - from
  {
    if from == NPAGES || IsFree(info[from]) then from else FirstFree(info, from + 1)
  }

  function FreeFrom(info: Info, from: nat): (n: nat)
    requires from <= NPAGES
    decreases NPAGES - from
  {
    if from == NPAGES then 0
    else (if IsFree(info[from]) then 1 else 0) + FreeFrom(info, from + 1)
  }

  /** Number of free pages. */
  function FreeCount(info: Info): nat {
    FreeFrom(info, 0)
  }

  /** A page number with the table of owners after the call. */
  datatype Grant = Grant(info: Info, pn: nat)

  /** The store after allocating a page, and the page. */
  datatype Alloc = Alloc(st: Store, pn: nat)

  /** Can assign_physical_page hand out this page? Not if it is out of range or in use. */
  predicate Assignable(info: Info, pn: nat) {
    pn < NPAGES && info[pn].refcount == 0
  }

  /** get_free_addr as a page number; 0 is the code's out-of-memory value. */
  function GetFree(info: Info, owner: int): (r: Grant)
    ensures r.pn < NPAGES
  {
    var pn := FirstFree(info, 0);
    if pn == NPAGES then Grant(info, 0) else Grant(info[pn := PageInfo(owner, 1)], pn)
  }

  /** pagetable_alloc: a zeroed page, or 0. */
  function AllocTable(st: Store, owner: int): (r: Alloc)
    ensures r.pn < NPAGES
  {
    var g := GetFree(st.info, owner);
    Alloc(Store(if g.pn == 0 then st.mem else st.mem[g.pn := ZeroPage()], g.info), g.pn)
  }

  lemma {:induction false} FreeFromUpdate(info: Info, p: nat, i: PageInfo, from: nat)
    requires from <= NPAGES && p < NPAGES && IsFree(info[p]) && !IsFree(i)
    ensures FreeFrom(info, from) == FreeFrom(info[p := i], from) + (if from <= p then 1 else 0)
    decreases NPAGES - from
  {
    if from < NPAGES {
      FreeFromUpdate(info, p, i, from + 1);
    }
  }

  lemma {:induction false} FreeFromFirst(info: Info, from: nat)
    requires from <= NPAGES
    ensures FreeFrom(info, from) == 0 <==> FirstFree(info, from) == NPAGES
    decreases NPAGES - from
  {
    if from < NPAGES {
      FreeFromFirst(info, from + 1);
    }
  }

  /** Allocation takes the lowest free page, counts it off, and touches no other entry; it
      reports failure exactly when nothing is free, or when the page it took is page 0. */
  lemma GetFreeTakesLowest(info: Info, owner: int)
    requires owner != FREE
    ensures GetFree(info, owner).pn == 0 <==> FreeCount(info) == 0 || IsFree(info[0])
    ensures FreeCount(info) == 0 ==> GetFree(info, owner).info == info
    ensures var g := GetFree(info, owner); g.pn != 0 ==>
      && IsFree(info[g.pn])
      && (forall p | 0 <= p < g.pn :: !IsFree(info[p]))
      && g.info == info[g.pn := PageInfo(owner, 1)]
      && FreeCount(g.info) == FreeCount(info) - 1
  {
    FreeFromFirst(info, 0);
    var pn := FirstFree(info, 0);
    if pn < NPAGES {
      FreeFromUpdate(info, pn, PageInfo(owner, 1), 0);
    }
  }

  /** The pages with owner 0 and no reference, from `from` on. */
  function FreePages(info: Info, from: nat): set<nat> {
    set p: nat | from <= p < 512 && info[p].owner == 0 && info[p].refcount == 0
  }

  /** The count is the number of those pages, and one of them is taken whenever there is one. */
  lemma FreeCountExactly(info: Info, owner: int)
    ensures FreeCount(info) == |FreePages(info, 0)|
    ensures var g, pages := GetFree(info, owner), FreePages(info, 0);
      if pages == {} then g == Grant(info, 0)
      else g.pn in pages && (forall p | p in pages :: g.pn <= p) && g.info == info[g.pn := PageInfo(owner, 1)]
  {
    FreeFromSize(info, 0);
    var pages, pn := FreePages(info, 0), FirstFree(info, 0);
    assert forall p | p in pages :: IsFree(info[p]);
    assert pn < NPAGES ==> pn in pages;
  }

  lemma {:induction false} FreeFromSize(info: Info, from: nat)
    requires from <= NPAGES
    ensures FreeFrom(info, from) == |FreePages(info, from)|
    decreases NPAGES - from
  {
    if from < NPAGES {
      FreeFromSize(info, from + 1);
      var more := FreePages(info, from + 1);
      assert FreePages(info, from) == if IsFree(info[from]) then more + {from} else more;
    }
  }
}
