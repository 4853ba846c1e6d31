/** Machine words, page-table entries and the index arithmetic of four-level paging. */
module Words {
  const PAGE_SIZE := 4096
  const NENTRIES := 512
  /** Number of virtual pages that four 9-bit indices can name: 2^48 bytes of address space. */
  const VPAGES := 0x10_0000_0000

  datatype Option<+T> = None | Some(value: T)

  type Rest = n: nat | n < 512
  type Word64 = n: nat | n < 0x1_0000_0000_0000_0000
  type FrameNumber = n: nat | n < 0x10_0000_0000_0000

  /** The low twelve bits of an entry: Present, Writable, User, and the nine others. */
  datatype Flags = Flags(p: bool, w: bool, u: bool, rest: Rest)

  /** A 64-bit word split where the hardware splits an entry: 52 bits of frame, 12 of flags. */
  datatype Word = Word(frame: FrameNumber, flags: Flags)

  const NOFLAGS := Flags(false, false, false, 0)
  const PW := Flags(true, true, false, 0)
  const PWU := Flags(true, true, true, 0)
  const ZERO := Word(0, NOFLAGS)

  /** Bitwise and of an 8-bit permission set below 8 with an entry's flags. */
  function And(f: Flags, g: Flags): Flags {
    Flags(f.p && g.p, f.w && g.w, f.u && g.u, 0)
  }

  function Bit(b: bool): nat {
    if b then 1 else 0
  }

  function FlagsValue(f: Flags): nat {
    8 * f.rest + 4 * Bit(f.u) + 2 * Bit(f.w) + Bit(f.p)
  }

  /** The integer a word holds. */
  function Value(w: Word): nat {
    w.frame * PAGE_SIZE + FlagsValue(w.flags)
  }

  function FlagsOf(n: nat): Flags
    requires n < PAGE_SIZE
  {
    Flags(n % 2 == 1, n / 2 % 2 == 1, n / 4 % 2 == 1, n / 8)
  }

  /** The word that holds an integer below 2^64: PTE_ADDR and PTE_FLAGS of the integer. */
  function WordOf(n: nat): Word
    requires n < 0x1_0000_0000_0000_0000
  {
    Word(n / PAGE_SIZE, FlagsOf(n % PAGE_SIZE))
  }

  lemma FlagsRoundTrip(f: Flags)
    ensures FlagsValue(f) < PAGE_SIZE && FlagsOf(FlagsValue(f)) == f
  {
    var n := FlagsValue(f);
    assert n / 8 == f.rest;
    assert n / 4 == 2 * f.rest + Bit(f.u);
    assert n / 2 == 4 * f.rest + 2 * Bit(f.u) + Bit(f.w);
  }

  /** The split loses nothing: words and the integers below 2^64 correspond one to one. */
  lemma WordRoundTrip(w: Word, n: nat)
    requires n < 0x1_0000_0000_0000_0000
    ensures Value(w) < 0x1_0000_0000_0000_0000 && WordOf(Value(w)) == w
    ensures Value(WordOf(n)) == n
  {
    FlagsRoundTrip(w.flags);
    assert Value(w) / PAGE_SIZE == w.frame && Value(w) % PAGE_SIZE == FlagsValue(w.flags);
    var m := n % PAGE_SIZE;
    assert m / 4 / 2 == m / 8 && m / 2 / 2 == m / 4;
    assert FlagsValue(FlagsOf(m)) == m;
  }

  /** Position of virtual page v at a level: the bits of v above what the levels below decode. */
  function Prefix(v: nat, level: nat): nat
    requires level <= 4
    decreases 4 - level
  {
    if level == 4 then v else Prefix(v, level + 1) / NENTRIES
  }

  /** The index virtual page v uses in a table at a level. */
  function Index(v: nat, level: nat): (i: nat)
    requires level <= 3
    ensures i < NENTRIES
  {
    Prefix(v, level + 1) % NENTRIES
  }

  lemma PrefixStep(v: nat, level: nat)
    requires level <= 3
    ensures Prefix(v, level + 1) == Prefix(v, level) * NENTRIES + Index(v, level)
  {
  }

  lemma {:induction false} PrefixRoot(v: nat)
    requires v < VPAGES
    ensures Prefix(v, 0) == 0
  {
    assert Prefix(v, 3) == v / 512;
    assert Prefix(v, 2) == Prefix(v, 3) / 512;
    assert Prefix(v, 1) == Prefix(v, 2) / 512;
  }

  /** The page a 64-bit page number decodes to: pageindex looks at bits 12 to 47 only. */
  function Canon(v: nat): (c: nat)
    ensures c < VPAGES
  {
    v % VPAGES
  }

  /** Conversion of an unsigned value to the compiler's 32-bit int. */
  function ToInt32(n: nat): int {
    var m := n % 0x1_0000_0000;
    if m < 0x8000_0000 then m else m - 0x1_0000_0000
  }

  /** cur_index123 of virtual_memory_map for a page number: `va >> 21`, stored in an int. */
  function Group(v: nat): int {
    ToInt32(v / NENTRIES)
  }

  lemma Div512(n: int, q: int, r: int)
    requires n == NENTRIES * q + r && 0 <= r < NENTRIES
    ensures n / NENTRIES == q && n % NENTRIES == r
  {
  }

  lemma DivPages(n: int, q: int, r: int)
    requires n == VPAGES * q + r && 0 <= r < VPAGES
    ensures n / VPAGES == q && n % VPAGES == r
  {
  }

  lemma ToInt32Next(a: nat)
    ensures ToInt32(a) != ToInt32(a + 1)
  {
    var q, m := a / 0x1_0000_0000, a % 0x1_0000_0000;
    assert a == 0x1_0000_0000 * q + m;
    if m == 0xFFFF_FFFF {
      assert a + 1 == 0x1_0000_0000 * (q + 1);
    } else {
      assert a + 1 == 0x1_0000_0000 * q + (m + 1);
    }
  }

  /** Consecutive pages have the same cur_index123 exactly when one leaf table decodes both. */
  lemma SameGroup(v: nat)
    ensures Group(v) == Group(v + 1) <==> v / NENTRIES == (v + 1) / NENTRIES
    ensures v / NENTRIES == (v + 1) / NENTRIES ==> Prefix(Canon(v), 3) == Prefix(Canon(v + 1), 3)
  {
    var q, r := v / NENTRIES, v % NENTRIES;
    if r == NENTRIES - 1 {
      Div512(v + 1, q + 1, 0);
      ToInt32Next(q);
    } else {
      Div512(v + 1, q, r + 1);
      var d, c := v / VPAGES, Canon(v);
      assert c % NENTRIES == r by {
        CanonIndex(v);
      }
      DivPages(v + 1, d, c + 1);
      Div512(c + 1, c / NENTRIES, r + 1);
      assert Prefix(c, 3) == c / NENTRIES && Prefix(c + 1, 3) == (c + 1) / NENTRIES;
    }
  }

  lemma CanonIndex(v: nat)
    ensures Canon(v) % NENTRIES == v % NENTRIES
  {
    var d, c := v / VPAGES, Canon(v);
    assert VPAGES == 0x800_0000 * NENTRIES;
    assert v == VPAGES * d + c;
    Div512(v, 0x800_0000 * d + c / NENTRIES, c % NENTRIES);
  }

  /** The shift of pageindex at a level: 12 bits of offset and 9 for each level below. */
  function IndexUnit(level: nat): (u: nat)
    requires level <= 3
    ensures u > 0
  {
    match level
    case 0 => 0x80_0000_0000
    case 1 => 0x4000_0000
    case 2 => 0x20_0000
    case 3 => 0x1000
  }

  /** pageindex: shift, then keep nine bits. */
  function PageIndex(addr: nat, level: nat): nat
    requires level <= 3
  {
    addr / IndexUnit(level) % NENTRIES
  }

  lemma DivTwice(n: nat, level: nat)
    requires level < 3
    ensures n / IndexUnit(level) == n / IndexUnit(level + 1) / NENTRIES
  {
    assert IndexUnit(level) == IndexUnit(level + 1) * NENTRIES;
  }

  /** On all 64 bits pageindex uses exactly the page number's low 36 bits, nine at a level. */
  lemma {:induction false} PageIndexIsIndex(addr: nat, level: nat)
    requires level <= 3
    ensures PageIndex(addr, level) == Index(Canon(addr / PAGE_SIZE), level)
  {
    var v := addr / PAGE_SIZE;
    var d, c := v / VPAGES, Canon(v);
    assert v == VPAGES * d + c;
    PrefixOfAddress(addr, level, d);
    var k := match level case 3 => 0x800_0000 case 2 => 0x4_0000 case 1 => 0x200 case 0 => 1;
    assert Prefix(c, level + 1) == NENTRIES * Prefix(c, level) + Index(c, level);
    Div512(addr / IndexUnit(level), k * d + Prefix(c, level), Index(c, level));
  }

  lemma {:induction false} PrefixOfAddress(addr: nat, level: nat, d: nat)
    requires level <= 3 && d == addr / PAGE_SIZE / VPAGES
    ensures var k := match level case 3 => 0x800_0000 case 2 => 0x4_0000 case 1 => 0x200 case 0 => 1;
      addr / IndexUnit(level) == NENTRIES * (k * d) + Prefix(Canon(addr / PAGE_SIZE), level + 1)
    decreases 3 - level
  {
    var c := Canon(addr / PAGE_SIZE);
    if level == 3 {
      assert addr / PAGE_SIZE == VPAGES * d + c;
    } else {
      PrefixOfAddress(addr, level + 1, d);
      DivTwice(addr, level);
      var k := match level + 1 case 3 => 0x800_0000 case 2 => 0x4_0000 case 1 => 0x200;
      var p := Prefix(c, level + 2);
      Div512(NENTRIES * (k * d) + p, k * d + p / NENTRIES, p % NENTRIES);
    }
  }
}
