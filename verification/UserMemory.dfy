/** A process's memory through its own translation: a word it stores reads back, byte by byte. */
module UserMemory {
  import opened Words
  import opened Pages
  import opened Paging
  import opened MapRanges
  import opened AddressSpaces
  import opened Forking
  import opened KernelState
  import opened Kernel
  import opened Invariant
  import opened Steps
  import opened Bytes

  /** A word is its eight bytes, the first the least significant. */
  lemma ValueIsBytes(w: Word)
    ensures Value(w) == WordByte(w, 0) + 0x100 * WordByte(w, 1) + 0x1_0000 * WordByte(w, 2)
      + 0x100_0000 * WordByte(w, 3) + 0x1_0000_0000 * WordByte(w, 4) + 0x100_0000_0000 * WordByte(w, 5)
      + 0x1_0000_0000_0000 * WordByte(w, 6) + 0x100_0000_0000_0000 * WordByte(w, 7)
  {
    WordRoundTrip(w, 0);
    var n := Value(w);
    hide Value;
    ByteSteps(n, 0);
    ByteSteps(n, 1);
    ByteSteps(n, 2);
    ByteSteps(n, 3);
    ByteSteps(n, 4);
    ByteSteps(n, 5);
    ByteSteps(n, 6);
    ByteSteps(n, 7);
    hide ByteAt, Shifted;
    ShiftedOut(n);
  }

  /** n without its lowest k bytes. */
  function Shifted(n: nat, k: nat): nat {
    if k == 0 then n else Shifted(n / 256, k - 1)
  }

  lemma {:induction false} ByteSteps(n: nat, k: nat)
    ensures Shifted(n, k) == 256 * Shifted(n, k + 1) + ByteAt(n, k)
    ensures Shifted(n, 0) == n
    decreases k
  {
    if k > 0 {
      ByteSteps(n / 256, k - 1);
    }
  }

  lemma {:induction false} ShiftedLess(n: nat, k: nat)
    requires n < Pow256(k)
    ensures Shifted(n, k) == 0
    decreases k
  {
    if k > 0 {
      assert n / 256 < Pow256(k - 1);
      ShiftedLess(n / 256, k - 1);
    }
  }

  lemma {:induction false} ShiftedOut(n: nat)
    requires n < 0x1_0000_0000_0000_0000
    ensures Shifted(n, 8) == 0
  {
    Pow8();
    ShiftedLess(n, 8);
  }

  /** User code may read this page of its space. */
  predicate UserReadable(m: Mapping) {
    m.Mapped? && m.perm.u
  }

  /** Where the current process may store, the word it stores reads back at its address, least
      significant byte first, and nothing else that its user code can read reads differently. */
  lemma StoreReadsBack(s: State, tag: Tags, va: nat, w: Word, a: nat)
    requires Inv(s, tag) && s.status.Running?
    ensures s.current < NPROC
    ensures var root, mem, mem' := s.procs[s.current].table, s.store.mem, UserStore(s, va, w).store.mem;
      UserReadable(Lookup(mem, root, Canon(a / 4096))) ==>
        LoadByte(mem', root, a) ==
          if UserWritable(Lookup(mem, root, Canon(va / 4096)))
            && Canon(a / 4096) == Canon(va / 4096) && a % 4096 / 8 == va % 4096 / 8
          then Some(WordByte(w, a % 8)) else LoadByte(mem, root, a)
  {
    hide Inv, Core, WellFormed, UserStore, Lookup, PageByte, WordByte;
    CurrentIsProcess(s, tag);
    var root, mem, mem' := s.procs[s.current].table, s.store.mem, UserStore(s, va, w).store.mem;
    var v, x := Canon(va / 4096), Canon(a / 4096);
    if UserReadable(Lookup(mem, root, x)) {
      ReadablePage(s, tag, x);
      var pn := Lookup(mem, root, x).pn;
      if UserWritable(Lookup(mem, root, v)) {
        ReadablePage(s, tag, v);
        StoreInto(s, tag, va, w, x);
        SamePageOnly(s, tag, v, x);
        PageByteIs(mem'[pn], a);
        PageByteIs(mem[pn], a);
      } else {
        NothingStored(s, va, w);
      }
    }
  }

  lemma NothingStored(s: State, va: nat, w: Word)
    requires s.current < NPROC && !UserWritable(Lookup(s.store.mem, s.procs[s.current].table, Canon(va / 4096)))
    ensures UserStore(s, va, w) == s
  {
  }

  /** Two pages that user code can read are the same physical page only if they are one. */
  lemma SamePageOnly(s: State, tag: Tags, v: nat, x: nat)
    requires Inv(s, tag) && s.status.Running? && s.current < NPROC && v < VPAGES && x < VPAGES
    requires UserReadable(Lookup(s.store.mem, s.procs[s.current].table, v))
    requires UserReadable(Lookup(s.store.mem, s.procs[s.current].table, x))
    ensures v != x ==>
      Lookup(s.store.mem, s.procs[s.current].table, v).pn != Lookup(s.store.mem, s.procs[s.current].table, x).pn
  {
    ReadablePage(s, tag, v);
    ReadablePage(s, tag, x);
    CoreParts(s, tag);
    ConsoleUntagged(s, tag);
  }

  /** What user code can read is the console or a page of the process's own, for one virtual page. */
  lemma ReadablePage(s: State, tag: Tags, x: nat)
    requires Inv(s, tag) && s.status.Running? && s.current < NPROC && x < VPAGES
    requires UserReadable(Lookup(s.store.mem, s.procs[s.current].table, x))
    ensures var pn := Lookup(s.store.mem, s.procs[s.current].table, x).pn;
      pn < NPAGES && if x < PROC_START then x == CONSOLE == pn else pn in tag && tag[pn] == Frame(s.current, x)
  {
    CurrentIsProcess(s, tag);
    CoreParts(s, tag);
    if x < PROC_START {
      KernelMappedAt(s.store.mem, s.procs[s.current].table, x);
    } else {
      UserLookup(s.store, tag, s.procs[s.current].table, s.current, x);
    }
  }

  /** A permitted store changes one word of the page it names and no translation. */
  lemma StoreInto(s: State, tag: Tags, va: nat, w: Word, x: nat)
    requires Inv(s, tag) && s.status.Running? && s.current < NPROC && x < VPAGES
    requires var m := Lookup(s.store.mem, s.procs[s.current].table, Canon(va / 4096)); UserWritable(m) && m.pn < NPAGES
    ensures var root, mem, mem' := s.procs[s.current].table, s.store.mem, UserStore(s, va, w).store.mem;
      var pn := Lookup(mem, root, Canon(va / 4096)).pn;
      && Lookup(mem', root, x) == Lookup(mem, root, x)
      && mem' == mem[pn := mem[pn][va % 4096 / 8 := w]]
  {
    var root, mem := s.procs[s.current].table, s.store.mem;
    var pn := Lookup(mem, root, Canon(va / 4096)).pn;
    CurrentIsProcess(s, tag);
    CoreParts(s, tag);
    UserStoreTarget(s, tag, va);
    ConsoleUntagged(s, tag);
    DataWriteKeeps(s.store, tag, pn, va % 4096 / 8, w);
    SameTranslationsOutside(mem, SetEntry(mem, pn, va % 4096 / 8, w), tag, s.current, 0, 0);
    hide Inv, Core, WellFormed, Lookup;
    assert IsRoot(tag, root, s.current);
  }

  lemma PageByteIs(p: Page, a: nat)
    ensures PageByte(p, a % 4096) == WordByte(p[a % 4096 / 8], a % 8)
  {
    hide WordByte;
    var q, r := a / 4096, a % 4096;
    Remainder8(a, 512 * q + r / 8, r % 8);
  }

  lemma Remainder8(n: nat, q: nat, r: nat)
    requires n == 8 * q + r && r < 8
    ensures n % 8 == r
  {
  }
}
