/** The bytes of memory: words as eight little-endian bytes, read and written through a page table. */
module Bytes {
  import opened Words
  import opened Pages
  import opened Paging
  import opened MapRanges
  import opened AddressSpaces

  type Byte = n: nat | n < 256

  /** Byte k of an integer, least significant first. */
  function ByteAt(n: nat, k: nat): Byte {
    if k == 0 then n % 256 else ByteAt(n / 256, k - 1)
  }

  function WithByte(n: nat, k: nat, b: Byte): nat {
    if k == 0 then n / 256 * 256 + b else WithByte(n / 256, k - 1, b) * 256 + n % 256
  }

  function Pow256(j: nat): nat {
    if j == 0 then 1 else 256 * Pow256(j - 1)
  }

  lemma {:induction false} WithByteReads(n: nat, k: nat, b: Byte, j: nat)
    ensures ByteAt(WithByte(n, k, b), j) == if j == k then b else ByteAt(n, j)
  {
    if k > 0 && j > 0 {
      assert WithByte(n, k, b) / 256 == WithByte(n / 256, k - 1, b);
      WithByteReads(n / 256, k - 1, b, j - 1);
    }
  }

  lemma {:induction false} WithByteBound(n: nat, k: nat, b: Byte, j: nat)
    requires n < Pow256(j) && k < j
    ensures WithByte(n, k, b) < Pow256(j)
  {
    if k > 0 {
      assert n / 256 < Pow256(j - 1);
      WithByteBound(n / 256, k - 1, b, j - 1);
    } else {
      assert n / 256 < Pow256(j - 1);
    }
  }

  lemma Pow8()
    ensures Pow256(8) == 0x1_0000_0000_0000_0000
  {
    assert Pow256(4) == 0x1_0000_0000;
  }

  function WordByte(w: Word, k: nat): Byte {
    ByteAt(Value(w), k)
  }

  /** A word with byte k replaced. */
  function SetWordByte(w: Word, k: nat, b: Byte): Word
    requires k < 8
  {
    Pow8();
    WordRoundTrip(w, 0);
    WithByteBound(Value(w), k, b, 8);
    WordOf(WithByte(Value(w), k, b))
  }

  lemma SetWordByteReads(w: Word, k: nat, b: Byte, j: nat)
    requires k < 8
    ensures WordByte(SetWordByte(w, k, b), j) == if j == k then b else WordByte(w, j)
  {
    Pow8();
    WordRoundTrip(w, 0);
    WithByteBound(Value(w), k, b, 8);
    WordRoundTrip(w, WithByte(Value(w), k, b));
    WithByteReads(Value(w), k, b, j);
  }

  /** The byte at an offset of a page. */
  function PageByte(p: Page, off: nat): Byte
    requires off < PAGE_SIZE
  {
    WordByte(p[off / 8], off % 8)
  }

  function SetPageByte(p: Page, off: nat, b: Byte): Page
    requires off < PAGE_SIZE
  {
    p[off / 8 := SetWordByte(p[off / 8], off % 8, b)]
  }

  lemma SetPageByteReads(p: Page, off: nat, b: Byte, at: nat)
    requires off < PAGE_SIZE && at < PAGE_SIZE
    ensures PageByte(SetPageByte(p, off, b), at) == if at == off then b else PageByte(p, at)
  {
    hide WordByte, SetWordByte;
    if at / 8 == off / 8 {
      SetWordByteReads(p[off / 8], off % 8, b, at % 8);
    }
  }

  // ---- Through a page table ----

  /** The byte a supervisor access at an address reads; None is a fault. */
  function LoadByte(mem: Memory, root: nat, va: nat): Option<Byte> {
    match Lookup(mem, root, Canon(va / PAGE_SIZE))
    case Unmapped => None
    case Mapped(pn, _) => if pn < NPAGES then Some(PageByte(mem[pn], va % PAGE_SIZE)) else None
  }

  /** The memory after a supervisor store of one byte; None is a fault. */
  function StoreByte(mem: Memory, root: nat, va: nat, b: Byte): Option<Memory> {
    match Lookup(mem, root, Canon(va / PAGE_SIZE))
    case Unmapped => None
    case Mapped(pn, perm) =>
      if pn < NPAGES && perm.w then Some(mem[pn := SetPageByte(mem[pn], va % PAGE_SIZE, b)]) else None
  }

  /** memcpy and memset into an address space: bytes stored at consecutive addresses. */
  function StoreBytes(mem: Memory, root: nat, va: nat, bs: seq<Byte>): Option<Memory>
    decreases |bs|
  {
    if bs == [] then Some(mem) else
    match StoreByte(mem, root, va, bs[0])
    case None => None
    case Some(m) => StoreBytes(m, root, va + 1, bs[1..])
  }

  /** Pages [lo, hi) of a space are identity-mapped data pages of that space. */
  ghost predicate Loaded(mem: Memory, tag: Tags, root: nat, space: int, lo: nat, hi: nat) {
    forall v | lo <= v < hi :: v < NPAGES && v in tag && tag[v] == Frame(space, v)
        && Lookup(mem, root, v) == Mapped(v, PWU)
  }

  /** Memories with the same trees and the same content but for pages [lo, hi). */
  ghost predicate OnlyPages(mem: Memory, mem': Memory, lo: nat, hi: nat) {
    forall p | 0 <= p < NPAGES && (p < lo || hi <= p) :: mem'[p] == mem[p]
  }

  lemma ByteWriteKeeps(st: Store, tag: Tags, p: nat, content: Page)
    requires WellFormed(st, tag) && p < NPAGES && p in tag && tag[p].Frame?
    ensures var mem' := st.mem[p := content];
      WellFormed(Store(mem', st.info), tag) && SameTranslations(st.mem, mem', tag)
  {
    var mem' := st.mem[p := content];
    forall n | n in tag && tag[n].Table?
      ensures NodeOk(mem', tag, n)
    {
      assert NodeOk(st.mem, tag, n);
    }
    forall q: nat, j | q < NPAGES && IsNode(tag, q, 3) && 0 <= j < NENTRIES
      ensures LeafOk(mem'[q][j], tag, tag[q].space, tag[q].prefix * NENTRIES + j)
    {
      assert LeafOk(st.mem[q][j], tag, tag[q].space, tag[q].prefix * NENTRIES + j);
    }
    forall n, level, v, perms | 0 <= level <= 3 && 0 <= v && IsNode(tag, n, level)
      ensures LookupFrom(mem', n, level, v, perms) == LookupFrom(st.mem, n, level, v, perms)
    {
      LookupFrame(st.mem, mem', tag, n, level, v, perms);
    }
  }

  /** What storing bytes at va leaves: those bytes there, every other byte of loaded pages as it was,
      and the same trees and translations. */
  ghost predicate BytesStored(st: Store, tag: Tags, root: nat, lo: nat, hi: nat, va: nat, bs: seq<Byte>,
      mem': Memory) {
    && WellFormed(Store(mem', st.info), tag) && SameTranslations(st.mem, mem', tag)
    && OnlyPages(st.mem, mem', lo, hi)
    && (forall a | lo * PAGE_SIZE <= a < hi * PAGE_SIZE ::
          LoadByte(mem', root, a) == if va <= a < va + |bs| then Some(bs[a - va]) else LoadByte(st.mem, root, a))
  }

  lemma StoreByteStores(st: Store, tag: Tags, root: nat, space: int, lo: nat, hi: nat, va: nat, b: Byte)
    requires WellFormed(st, tag) && IsRoot(tag, root, space) && Loaded(st.mem, tag, root, space, lo, hi)
    requires lo * PAGE_SIZE <= va < hi * PAGE_SIZE
    ensures var r := StoreByte(st.mem, root, va, b);
      r.Some? && BytesStored(st, tag, root, lo, hi, va, [b], r.value) && Loaded(r.value, tag, root, space, lo, hi)
  {
    hide WellFormed, SetPageByte, PageByte, LookupFrom, LoadByte, Loaded, SameTranslations;
    var p, off := va / PAGE_SIZE, va % PAGE_SIZE;
    LoadedAt(st.mem, tag, root, space, lo, hi, va);
    var content := SetPageByte(st.mem[p], off, b);
    var mem' := st.mem[p := content];
    assert StoreByte(st.mem, root, va, b) == Some(mem');
    hide Lookup, StoreByte;
    ByteWriteKeeps(st, tag, p, content);
    StillLoaded(st.mem, mem', tag, root, space, lo, hi);
    forall a | lo * PAGE_SIZE <= a < hi * PAGE_SIZE
      ensures LoadByte(mem', root, a) == if va <= a < va + 1 then Some(b) else LoadByte(st.mem, root, a)
    {
      StoredByteReads(st.mem, mem', tag, root, space, lo, hi, va, b, a);
    }
  }

  lemma StoredByteReads(mem: Memory, mem': Memory, tag: Tags, root: nat, space: int, lo: nat, hi: nat, va: nat,
      b: Byte, a: nat)
    requires Loaded(mem, tag, root, space, lo, hi) && Loaded(mem', tag, root, space, lo, hi)
    requires lo * PAGE_SIZE <= va < hi * PAGE_SIZE && lo * PAGE_SIZE <= a < hi * PAGE_SIZE && va / PAGE_SIZE < NPAGES
    requires mem' == mem[va / PAGE_SIZE := SetPageByte(mem[va / PAGE_SIZE], va % PAGE_SIZE, b)]
    ensures LoadByte(mem', root, a) == if a == va then Some(b) else LoadByte(mem, root, a)
  {
    hide SetPageByte, PageByte, Lookup, LoadByte, Loaded;
    LoadedAt(mem, tag, root, space, lo, hi, a);
    LoadedAt(mem', tag, root, space, lo, hi, a);
    if a / PAGE_SIZE == va / PAGE_SIZE {
      SetPageByteReads(mem[va / PAGE_SIZE], va % PAGE_SIZE, b, a % PAGE_SIZE);
    }
  }

  lemma LoadedAt(mem: Memory, tag: Tags, root: nat, space: int, lo: nat, hi: nat, a: nat)
    requires Loaded(mem, tag, root, space, lo, hi) && lo * PAGE_SIZE <= a < hi * PAGE_SIZE
    ensures var q := a / PAGE_SIZE;
      && lo <= q < hi && q < NPAGES && Canon(q) == q && q in tag && tag[q] == Frame(space, q)
      && Lookup(mem, root, q) == Mapped(q, PWU)
      && LoadByte(mem, root, a) == Some(PageByte(mem[q], a % PAGE_SIZE))
  {
    var q := a / PAGE_SIZE;
    assert lo <= q < hi;
    assert Lookup(mem, root, q) == Mapped(q, PWU);
    assert Canon(q) == q;
  }

  lemma StillLoaded(mem: Memory, mem': Memory, tag: Tags, root: nat, space: int, lo: nat, hi: nat)
    requires Loaded(mem, tag, root, space, lo, hi) && IsRoot(tag, root, space) && SameTranslations(mem, mem', tag)
    ensures Loaded(mem', tag, root, space, lo, hi)
  {
    assert IsNode(tag, root, 0);
    forall v | lo <= v < hi
      ensures v < NPAGES && v in tag && tag[v] == Frame(space, v) && Lookup(mem', root, v) == Mapped(v, PWU)
    {
      assert Lookup(mem, root, v) == Mapped(v, PWU);
      assert LookupFrom(mem', root, 0, v, PWU) == LookupFrom(mem, root, 0, v, PWU);
    }
  }

  lemma {:induction false} StoreBytesStores(st: Store, tag: Tags, root: nat, space: int, lo: nat, hi: nat, va: nat,
      bs: seq<Byte>)
    requires WellFormed(st, tag) && IsRoot(tag, root, space) && Loaded(st.mem, tag, root, space, lo, hi)
    requires bs != [] ==> lo * PAGE_SIZE <= va && va + |bs| <= hi * PAGE_SIZE
    ensures var r := StoreBytes(st.mem, root, va, bs);
      r.Some? && BytesStored(st, tag, root, lo, hi, va, bs, r.value) && Loaded(r.value, tag, root, space, lo, hi)
    decreases |bs|
  {
    hide WellFormed, StoreByte, LoadByte, Loaded;
    if bs != [] {
      StoreByteStores(st, tag, root, space, lo, hi, va, bs[0]);
      var m := StoreByte(st.mem, root, va, bs[0]).value;
      StoreBytesStores(Store(m, st.info), tag, root, space, lo, hi, va + 1, bs[1..]);
      var mem' := StoreBytes(st.mem, root, va, bs).value;
      BytesStoredJoin(st, tag, root, lo, hi, va, bs, m, mem');
    }
  }

  lemma BytesStoredJoin(st: Store, tag: Tags, root: nat, lo: nat, hi: nat, va: nat, bs: seq<Byte>, m: Memory,
      mem': Memory)
    requires bs != [] && BytesStored(st, tag, root, lo, hi, va, [bs[0]], m)
    requires BytesStored(Store(m, st.info), tag, root, lo, hi, va + 1, bs[1..], mem')
    ensures BytesStored(st, tag, root, lo, hi, va, bs, mem')
  {
    hide WellFormed, LoadByte;
    forall n, level, v, perms | 0 <= level <= 3 && 0 <= v && IsNode(tag, n, level)
      ensures LookupFrom(mem', n, level, v, perms) == LookupFrom(st.mem, n, level, v, perms)
    {
      assert LookupFrom(m, n, level, v, perms) == LookupFrom(st.mem, n, level, v, perms);
    }
  }
}
