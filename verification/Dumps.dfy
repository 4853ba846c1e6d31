/** The lines memdump_physical and memdump_virtual print to the log. */
module Dumps {
  import opened Words
  import opened Pages
  import opened Paging
  import opened AddressSpaces
  import opened KernelState
  import opened Numbers
  import opened Printer

  /** An int8_t read as uint8_t. */
  function Uint8(n: int): Word64 {
    n % 256
  }

  /** An int passed where %u reads an unsigned. */
  function Uint32(n: int): Word64 {
    n % 0x1_0000_0000
  }

  function Decimal(n: nat): string {
    Digits(n, 10)
  }

  /** What log_printf prints; the empty string where C defines nothing. */
  function Printed(f: string, args: seq<Arg>): string {
    match Render(f, args)
    case None => ""
    case Some(t) => t
  }

  // ---- memdump_physical ----

  function PhysicalEntry(i: PageInfo): string {
    Printed("%u %u ", [Num(Uint8(i.owner)), Num(Uint32(i.refcount))])
  }

  /** Its loop from page p on. */
  function PhysicalEntries(info: Info, p: nat): string
    requires p <= NPAGES
    decreases NPAGES - p
  {
    if p == NPAGES then "" else PhysicalEntry(info[p]) + PhysicalEntries(info, p + 1)
  }

  function PhysicalLine(info: Info, ticks: Word64): string {
    Printed("PM_DUMP %u ", [Num(ticks)]) + PhysicalEntries(info, 0) + "\n"
  }

  // ---- memdump_virtual ----

  /** Every page below MEMSIZE_VIRTUAL that is mapped is mapped to a page of memory: pageinfo is
      indexed with it. */
  ghost predicate InRange(mem: Memory, table: nat) {
    forall v | 0 <= v < VM_END :: Lookup(mem, table, v).Mapped? ==> Lookup(mem, table, v).pn < NPAGES
  }

  function VirtualEntry(m: Mapping, info: Info): string
    requires m.Mapped? ==> m.pn < NPAGES
  {
    match m
    case Unmapped => Printed("0 0 0 ", [])
    case Mapped(pn, perm) =>
      Printed("%u %u %u ", [Num(Uint8(info[pn].owner)), Num(Uint8(info[pn].refcount)),
          Num(FlagsValue(perm) % PAGE_SIZE)])
  }

  function VirtualEntries(mem: Memory, info: Info, table: nat, v: nat): string
    requires v <= VM_END && InRange(mem, table)
    decreases VM_END - v
  {
    if v == VM_END then "" else VirtualEntry(Lookup(mem, table, v), info) + VirtualEntries(mem, info, table, v + 1)
  }

  /** The name memdump_virtual_all makes of a process number: snprintf into four characters. */
  function Name(pid: Word64): string {
    var t := Printed("%d ", [Num(pid)]);
    if |t| < 3 then t else t[..3]
  }

  function VirtualLine(mem: Memory, info: Info, table: nat, name: string, ticks: Word64): string
    requires InRange(mem, table)
  {
    Printed("VM_DUMP %s %u ", [Text(name), Num(ticks)]) + VirtualEntries(mem, info, table, 0) + "\n"
  }

  ghost predicate AllInRange(s: State) {
    forall pid | 0 <= pid < NPROC && s.procs[pid].state != P_FREE :: InRange(s.store.mem, s.procs[pid].table)
  }

  /** What a dump takes for granted: pages in range, and ticks as the kernel counts them. */
  ghost predicate CanDump(s: State) {
    AllInRange(s) && s.ticks < 0x1_0000_0000
  }

  /** memdump_virtual_all from process pid on. */
  function VirtualLines(s: State, pid: nat): string
    requires pid <= NPROC && CanDump(s)
    decreases NPROC - pid
  {
    if pid == NPROC then ""
    else if s.procs[pid].state == P_FREE then VirtualLines(s, pid + 1)
    else VirtualLine(s.store.mem, s.store.info, s.procs[pid].table, Name(pid), s.ticks) + VirtualLines(s, pid + 1)
  }

  /** One dump, as exception writes it: memory, then every process. */
  function Dump(s: State): string
    requires CanDump(s)
  {
    PhysicalLine(s.store.info, s.ticks) + VirtualLines(s, 0)
  }

  // ---- The formats rendered ----

  lemma UnsignedDirective(f: string, i: nat, args: seq<Arg>)
    requires i < |f| && f[i] == 'u' && args != [] && args[0].Num?
    ensures DirectiveAt(f, i, args) == Directive(Decimal(args[0].n % 0x1_0000_0000), i + 1, args[1..])
  {
    PlainDirective(f, i, args, Number(args[0].n % 0x1_0000_0000, 10, false, false, false), args[1..]);
  }

  /** A conversion without flags, width, precision or length. */
  lemma PlainDirective(f: string, i: nat, args: seq<Arg>, item: Item, rest: seq<Arg>)
    requires i < |f| && f[i] in "duxXpCcs" && Convert(f[i], false, args) == Conversion(item, rest)
    requires !item.Colour? && NumberPrefix(item, PLAIN) == ""
    ensures DirectiveAt(f, i, args) == Directive(Body(item), i + 1, rest)
  {
    PlainFormatted(item);
    PlainScan(f, i, args);
    hide Formatted, Convert, Body, NumberPrefix, FlagsFrom, Width, Precision, LengthEnd;
  }

  lemma {:induction false} PlainScan(f: string, i: nat, args: seq<Arg>)
    requires i < |f| && f[i] in "duxXpCcs"
    ensures FlagsFrom(f, i, PLAIN) == FlagScan(PLAIN, i) && LengthEnd(f, i) == i
    ensures Width(f, i, args) == Precision(f, i, args) == NumberScan(-1, i, args)
  {
  }

  lemma PlainFormatted(item: Item)
    requires !item.Colour? && NumberPrefix(item, PLAIN) == ""
    ensures Formatted(item, PLAIN, -1, -1) == Body(item)
  {
    hide Body;
    assert Formatted(item, PLAIN, -1, -1) == Body(item)[..|Body(item)|];
  }

  /** A conversion followed by a blank. */
  lemma RenderUnsigned(f: string, i: nat, args: seq<Arg>)
    requires i + 2 < |f| && f[i] == '%' && f[i + 1] == 'u' && f[i + 2] == ' ' && args != [] && args[0].Num?
    ensures RenderFrom(f, i, args) ==
      Prepended(Decimal(args[0].n % 0x1_0000_0000) + " ", RenderFrom(f, i + 3, args[1..]))
  {
    hide RenderFrom, DirectiveAt, Decimal, Prepended;
    UnsignedDirective(f, i + 1, args);
    RenderConversion(f, i, args);
    RenderPlain(f, i + 2, i + 3, args[1..]);
    assert f[i + 2..i + 3] == " ";
    PrependTwice(Decimal(args[0].n % 0x1_0000_0000), " ", RenderFrom(f, i + 3, args[1..]));
  }

  lemma RenderConversion(f: string, i: nat, args: seq<Arg>)
    requires i < |f| && f[i] == '%' && DirectiveAt(f, i + 1, args).Directive?
    ensures var d := DirectiveAt(f, i + 1, args);
      RenderFrom(f, i, args) == Prepended(d.text, RenderFrom(f, d.at, d.rest))
  {
    hide DirectiveAt;
  }

  /** Characters that are printed as they are. */
  lemma {:induction false} RenderPlain(f: string, i: nat, j: nat, args: seq<Arg>)
    requires i <= j <= |f| && forall k | i <= k < j :: f[k] != '%'
    ensures RenderFrom(f, i, args) ==
      Prepended(f[i..j], RenderFrom(f, j, args))
    decreases j - i
  {
    hide RenderFrom, Prepended;
    if i < j {
      RenderPlain(f, i + 1, j, args);
      RenderOne(f, i, args);
      assert f[i..j] == [f[i]] + f[i + 1..j];
      PrependTwice([f[i]], f[i + 1..j], RenderFrom(f, j, args));
    } else {
      assert f[i..j] == "";
      PrependNothing(RenderFrom(f, j, args));
    }
  }

  lemma RenderOne(f: string, i: nat, args: seq<Arg>)
    requires i < |f| && f[i] != '%'
    ensures RenderFrom(f, i, args) == Prepended([f[i]], RenderFrom(f, i + 1, args))
  {
    hide DirectiveAt;
  }

  /** Words, each followed by a blank. */
  function Spaced(words: seq<string>): string {
    if words == [] then "" else words[0] + " " + Spaced(words[1..])
  }

  lemma {:induction false} SpacedAppend(a: seq<string>, b: seq<string>)
    ensures Spaced(a + b) == Spaced(a) + Spaced(b)
    decreases |a|
  {
    if a == [] {
      assert a + b == b;
    } else {
      assert (a + b)[1..] == a[1..] + b;
      SpacedAppend(a[1..], b);
    }
  }

  lemma SpacedFew(a: string, b: string, c: string)
    ensures Spaced([a, b]) == a + " " + (b + " " + "")
    ensures Spaced([a, b, c]) == a + " " + (b + " " + (c + " " + ""))
  {
    assert [c][1..] == [] && Spaced([c]) == c + " " + "";
    assert [b][1..] == [] && Spaced([b]) == b + " " + "";
    assert [b, c][1..] == [c] && Spaced([b, c]) == b + " " + Spaced([c]);
    assert [a, b][1..] == [b] && [a, b, c][1..] == [b, c];
  }

  lemma PhysicalEntryIs(i: PageInfo)
    ensures PhysicalEntry(i) == Spaced([Decimal(Uint8(i.owner)), Decimal(Uint32(i.refcount))])
  {
    hide RenderFrom, Decimal;
    var f, args := "%u %u ", [Num(Uint8(i.owner)), Num(Uint32(i.refcount))];
    RenderUnsigned(f, 0, args);
    RenderUnsigned(f, 3, args[1..]);
    RenderEnd(f, args[1..][1..]);
    var a, b := Decimal(Uint8(i.owner)), Decimal(Uint32(i.refcount));
    SpacedFew(a, b, "");
    hide Spaced;
  }

  lemma VirtualEntryIs(m: Mapping, info: Info)
    requires m.Mapped? ==> m.pn < NPAGES
    ensures VirtualEntry(m, info) ==
      match m
      case Unmapped => Spaced(["0", "0", "0"])
      case Mapped(pn, perm) => Spaced([Decimal(Uint8(info[pn].owner)), Decimal(Uint8(info[pn].refcount)),
          Decimal(FlagsValue(perm) % PAGE_SIZE)])
  {
    hide DirectiveAt, Decimal, FlagsValue;
    match m
    case Unmapped =>
      var f := "0 0 0 ";
      RenderPlain(f, 0, 6, []);
      assert f[0..6] == f && RenderFrom(f, 6, []) == Some("");
      assert ["0", "0", "0"][1..] == ["0", "0"] && ["0", "0"][1..] == ["0"] && ["0"][1..] == [];
    case Mapped(pn, perm) =>
      var o, r, p := Uint8(info[pn].owner), Uint8(info[pn].refcount), FlagsValue(perm) % PAGE_SIZE;
      ThreeUnsigned(o, r, p);
  }

  lemma ThreeUnsigned(o: Word64, r: Word64, p: Word64)
    requires o < 0x1_0000_0000 && r < 0x1_0000_0000 && p < 0x1_0000_0000
    ensures Printed("%u %u %u ", [Num(o), Num(r), Num(p)]) == Spaced([Decimal(o), Decimal(r), Decimal(p)])
  {
    hide RenderFrom, Decimal;
    var f, args := "%u %u %u ", [Num(o), Num(r), Num(p)];
    RenderUnsigned(f, 0, args);
    RenderUnsigned(f, 3, args[1..]);
    RenderUnsigned(f, 6, args[1..][1..]);
    RenderEnd(f, args[1..][1..][1..]);
    SpacedFew(Decimal(o), Decimal(r), Decimal(p));
    hide Spaced;
  }

  lemma PhysicalHead(ticks: Word64)
    requires ticks < 0x1_0000_0000
    ensures Printed("PM_DUMP %u ", [Num(ticks)]) == Spaced(["PM_DUMP", Decimal(ticks)])
  {
    hide RenderFrom, Decimal;
    var f, args := "PM_DUMP %u ", [Num(ticks)];
    RenderPlain(f, 0, 8, args);
    RenderUnsigned(f, 8, args);
    RenderEnd(f, args[1..]);
    assert f[0..8] == "PM_DUMP" + " ";
    SpacedFew("PM_DUMP", Decimal(ticks), "");
    hide Spaced;
  }

  lemma StringDirective(f: string, i: nat, args: seq<Arg>)
    requires i < |f| && f[i] == 's' && args != [] && args[0].Text?
    ensures DirectiveAt(f, i, args) == Directive(args[0].s, i + 1, args[1..])
  {
    PlainDirective(f, i, args, Chars(args[0].s), args[1..]);
  }

  lemma RenderString(f: string, i: nat, args: seq<Arg>)
    requires i + 1 < |f| && f[i] == '%' && f[i + 1] == 's' && args != [] && args[0].Text?
    ensures RenderFrom(f, i, args) == Prepended(args[0].s, RenderFrom(f, i + 2, args[1..]))
  {
    StringDirective(f, i + 1, args);
    RenderConversion(f, i, args);
    hide DirectiveAt, RenderFrom;
  }

  lemma {:induction false} RenderEnd(f: string, args: seq<Arg>)
    ensures RenderFrom(f, |f|, args) == Some("")
  {
  }

  lemma VirtualHead(name: string, ticks: Word64)
    requires ticks < 0x1_0000_0000
    ensures Printed("VM_DUMP %s %u ", [Text(name), Num(ticks)]) == Spaced(["VM_DUMP", name, Decimal(ticks)])
  {
    hide Decimal, Spaced, RenderFrom;
    var f, args := "VM_DUMP %s %u ", [Text(name), Num(ticks)];
    var t := Decimal(ticks);
    RenderPlain(f, 0, 8, args);
    RenderString(f, 8, args);
    RenderPlain(f, 10, 11, args[1..]);
    RenderUnsigned(f, 11, args[1..]);
    RenderEnd(f, args[1..][1..]);
    assert f[0..8] == "VM_DUMP" + " " && f[10..11] == " ";
    SpacedFew("VM_DUMP", name, t);
    HeadJoins("VM_DUMP", name, t);
  }

  lemma HeadJoins(v: string, name: string, t: string)
    ensures v + " " + (name + (" " + (t + " " + ""))) == v + " " + (name + " " + (t + " " + ""))
  {
  }

  lemma NameRenders(pid: Word64)
    requires pid < NPROC
    ensures Render("%d ", [Num(pid)]) == Some(Decimal(pid) + " ") && |Decimal(pid)| <= 2
  {
    var f, args := "%d ", [Num(pid)];
    assert Power(10, 2) == 100;
    FewDigits(pid, 10, 2);
    hide DirectiveAt, RenderFrom, Digits;
    SignedDirective(f, 1, args);
    RenderConversion(f, 0, args);
    assert f[2..3] == " " && args[1..] == [] && " " + "" == " ";
    RenderPlain(f, 2, 3, []);
    RenderEnd(f, []);
    assert RenderFrom(f, 2, []) == Some(" ");
    hide Prepended;
    assert Prepended(Decimal(pid), Some(" ")) == Some(Decimal(pid) + " ") by {
      PrependedSome(Decimal(pid), " ");
    }
  }

  lemma PrependedSome(s: string, t: string)
    ensures Prepended(s, Some(t)) == Some(s + t)
  {
  }

  /** Process numbers fit the four characters with their blank and NUL. */
  lemma NameIs(pid: Word64)
    requires pid < NPROC
    ensures Name(pid) == Decimal(pid) + " "
  {
    hide Render, Decimal;
    NameRenders(pid);
  }

  lemma NameIsCString(pid: Word64)
    requires pid < NPROC
    ensures CString(Name(pid))
  {
    hide Name, Digits;
    NameIs(pid);
    forall k | 0 <= k < |Decimal(pid)|
      ensures Decimal(pid)[k] != '\0'
    {
      DigitsArePlain(pid, 10, k);
    }
  }

  lemma SignedDirective(f: string, i: nat, args: seq<Arg>)
    requires i < |f| && f[i] == 'd' && args != [] && args[0].Num? && args[0].n < NPROC
    ensures DirectiveAt(f, i, args) == Directive(Decimal(args[0].n), i + 1, args[1..])
  {
    assert ToInt32(args[0].n) == args[0].n;
    PlainDirective(f, i, args, Number(args[0].n, 10, true, false, false), args[1..]);
  }

  // ---- The lines as words ----

  /** Word k of the physical dump: owner and reference count of page k / 2. */
  function PhysicalWord(info: Info, k: nat): string
    requires k < 2 * NPAGES
  {
    var i := info[k / 2];
    Decimal(if k % 2 == 0 then Uint8(i.owner) else Uint32(i.refcount))
  }

  function PhysicalWords(info: Info): (w: seq<string>)
    ensures |w| == 2 * NPAGES && forall k | 0 <= k < 2 * NPAGES :: w[k] == PhysicalWord(info, k)
  {
    seq(2 * NPAGES, k requires 0 <= k < 2 * NPAGES => PhysicalWord(info, k))
  }

  lemma SpacedNone()
    ensures Spaced([]) == ""
  {
  }

  lemma PhysicalPair(info: Info, p: nat)
    requires p < NPAGES
    ensures var w := PhysicalWords(info); PhysicalEntry(info[p]) == Spaced([w[2 * p], w[2 * p + 1]])
  {
    hide PhysicalEntry, Decimal, PhysicalWords, Spaced;
    assert 2 * p / 2 == p && (2 * p + 1) / 2 == p && 2 * p % 2 == 0 && (2 * p + 1) % 2 == 1;
    PhysicalEntryIs(info[p]);
  }

  lemma {:induction false} PhysicalEntriesAre(info: Info, p: nat)
    requires p <= NPAGES
    ensures PhysicalEntries(info, p) == Spaced(PhysicalWords(info)[2 * p..])
    decreases NPAGES - p
  {
    hide PhysicalEntry, PhysicalWord, PhysicalWords, Spaced;
    SpacedNone();
    var w := PhysicalWords(info);
    if p == NPAGES {
      assert w[2 * p..] == [];
    } else {
      PhysicalEntriesAre(info, p + 1);
      PhysicalPair(info, p);
      var pair := [w[2 * p], w[2 * p + 1]];
      assert w[2 * p..] == pair + w[2 * (p + 1)..];
      SpacedAppend(pair, w[2 * (p + 1)..]);
    }
  }

  /** Number k of the virtual dump: owner, reference count or permissions of page k / 3. */
  function VirtualNumber(mem: Memory, info: Info, table: nat, k: nat): Word64
    requires k < 3 * VM_END && InRange(mem, table)
  {
    match Lookup(mem, table, k / 3)
    case Unmapped => 0
    case Mapped(pn, perm) =>
      if k % 3 == 0 then Uint8(info[pn].owner)
      else if k % 3 == 1 then Uint8(info[pn].refcount)
      else FlagsValue(perm) % PAGE_SIZE
  }

  function VirtualWords(mem: Memory, info: Info, table: nat): (w: seq<string>)
    requires InRange(mem, table)
    ensures |w| == 3 * VM_END && forall k | 0 <= k < 3 * VM_END :: w[k] == Decimal(VirtualNumber(mem, info, table, k))
  {
    seq(3 * VM_END, k requires 0 <= k < 3 * VM_END => Decimal(VirtualNumber(mem, info, table, k)))
  }

  lemma ZeroIs()
    ensures Decimal(0) == "0"
  {
  }

  lemma VirtualTriple(mem: Memory, info: Info, table: nat, v: nat)
    requires v < VM_END && InRange(mem, table)
    ensures var w := VirtualWords(mem, info, table);
      VirtualEntry(Lookup(mem, table, v), info) == Spaced([w[3 * v], w[3 * v + 1], w[3 * v + 2]])
  {
    hide VirtualEntry, Lookup, Decimal, VirtualWords, Spaced;
    ZeroIs();
    assert 3 * v / 3 == v && (3 * v + 1) / 3 == v && (3 * v + 2) / 3 == v;
    assert 3 * v % 3 == 0 && (3 * v + 1) % 3 == 1 && (3 * v + 2) % 3 == 2;
    VirtualEntryIs(Lookup(mem, table, v), info);
  }

  lemma {:induction false} VirtualEntriesAre(mem: Memory, info: Info, table: nat, v: nat)
    requires v <= VM_END && InRange(mem, table)
    ensures VirtualEntries(mem, info, table, v) == Spaced(VirtualWords(mem, info, table)[3 * v..])
    decreases VM_END - v
  {
    hide VirtualEntry, Lookup, Decimal, VirtualWords, VirtualNumber, Spaced;
    SpacedNone();
    var w := VirtualWords(mem, info, table);
    if v == VM_END {
      assert w[3 * v..] == [];
    } else {
      VirtualEntriesAre(mem, info, table, v + 1);
      VirtualTriple(mem, info, table, v);
      var triple := [w[3 * v], w[3 * v + 1], w[3 * v + 2]];
      assert w[3 * v..] == triple + w[3 * (v + 1)..];
      SpacedAppend(triple, w[3 * (v + 1)..]);
    }
  }

  lemma PhysicalLineIs(info: Info, ticks: Word64)
    requires ticks < 0x1_0000_0000
    ensures PhysicalLine(info, ticks) == Spaced(["PM_DUMP", Decimal(ticks)] + PhysicalWords(info)) + "\n"
  {
    PhysicalHead(ticks);
    PhysicalEntriesAre(info, 0);
    hide Spaced, Printed, PhysicalEntries, PhysicalWords, Decimal;
    assert PhysicalWords(info)[0..] == PhysicalWords(info);
    SpacedAppend(["PM_DUMP", Decimal(ticks)], PhysicalWords(info));
  }

  lemma VirtualLineIs(mem: Memory, info: Info, table: nat, pid: Word64, ticks: Word64)
    requires ticks < 0x1_0000_0000 && pid < NPROC && InRange(mem, table)
    ensures VirtualLine(mem, info, table, Name(pid), ticks) ==
      Spaced(["VM_DUMP", Decimal(pid) + " ", Decimal(ticks)] + VirtualWords(mem, info, table)) + "\n"
  {
    NameIs(pid);
    VirtualHead(Name(pid), ticks);
    VirtualEntriesAre(mem, info, table, 0);
    hide Spaced, Printed, VirtualEntries, VirtualWords, Decimal, Name, InRange;
    assert VirtualWords(mem, info, table)[0..] == VirtualWords(mem, info, table);
    SpacedAppend(["VM_DUMP", Decimal(pid) + " ", Decimal(ticks)], VirtualWords(mem, info, table));
  }
}
