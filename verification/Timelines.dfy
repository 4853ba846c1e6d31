/** parse_log.py: reading dumps back, and the checks it makes on them. */
module Timelines {
  import opened Words
  import opened Pages
  import opened Paging
  import opened AddressSpaces
  import opened KernelState
  import opened Numbers
  import opened Kernel
  import opened Invariant
  import opened Runs
  import opened Forking
  import opened MapRanges
  import opened Dumps

  datatype PMEntry = PMEntry(owner: nat, refcount: nat)

  datatype VMEntry = VMEntry(owner: nat, refcount: nat, ua: nat, perm: nat)

  /** MemMapInstance: one tick's memory, and the address spaces by process. */
  datatype Instance = Instance(pm: Option<seq<PMEntry>>, vm: map<nat, seq<VMEntry>>)

  /** MemMapTimeline: an instance for each tick, and whether a panic was logged. */
  datatype Timeline = Timeline(memData: map<nat, Instance>, panic: bool)

  // ---- Lines and tokens ----

  /** readlines: pieces that end in a newline, but for the last. */
  function LinesFrom(text: string, cur: string): seq<string>
    decreases |text|
  {
    if text == "" then (if cur == "" then [] else [cur])
    else if text[0] == '\n' then [cur + "\n"] + LinesFrom(text[1..], "")
    else LinesFrom(text[1..], cur + [text[0]])
  }

  function ReadLines(text: string): seq<string> {
    LinesFrom(text, "")
  }

  /** list(filter(bool, line.split(' '))). */
  function TokensFrom(s: string, cur: string): seq<string>
    decreases |s|
  {
    if s == "" then (if cur == "" then [] else [cur])
    else if s[0] == ' ' then (if cur == "" then [] else [cur]) + TokensFrom(s[1..], "")
    else TokensFrom(s[1..], cur + [s[0]])
  }

  function Tokens(s: string): seq<string> {
    TokensFrom(s, "")
  }

  /** int(token), for tokens of decimal digits. */
  function IntOf(token: string): Option<nat> {
    ParseNumber(token, 10)
  }

  // ---- Reading a line ----

  /** The loop over the pages of a PM_DUMP line, from page i on. */
  function PairsFrom(tokens: seq<string>, i: nat): Option<seq<PMEntry>>
    requires i <= 512 && |tokens| == 512 * 2 + 3
    decreases 512 - i
  {
    if i == 512 then Some([]) else
    var owner, refcount := IntOf(tokens[2 * i + 2]), IntOf(tokens[2 * i + 3]);
    var rest := PairsFrom(tokens, i + 1);
    if owner.None? || refcount.None? || rest.None? then None
    else Some([PMEntry(owner.value, refcount.value)] + rest.value)
  }

  /** The loop over the pages of a VM_DUMP line; PTE_U is 4. */
  function TriplesFrom(tokens: seq<string>, i: nat): Option<seq<VMEntry>>
    requires i <= 768 && |tokens| == 768 * 3 + 4
    decreases 768 - i
  {
    if i == 768 then Some([]) else
    var owner, refcount, perm := IntOf(tokens[3 * i + 3]), IntOf(tokens[3 * i + 4]), IntOf(tokens[3 * i + 5]);
    var rest := TriplesFrom(tokens, i + 1);
    if owner.None? || refcount.None? || perm.None? || rest.None? then None
    else Some([VMEntry(owner.value, refcount.value, perm.value / 4 % 2 * 4, perm.value)] + rest.value)
  }

  /** self.mem_data[tick], which a defaultdict creates. */
  function InstanceAt(t: Timeline, tick: nat): Instance {
    if tick in t.memData then t.memData[tick] else Instance(None, map[])
  }

  predicate StartsWith(line: string, prefix: string) {
    |prefix| <= |line| && line[..|prefix|] == prefix
  }

  function AddPhysical(t: Timeline, tokens: seq<string>): Option<Timeline> {
    if |tokens| - 3 != 512 * 2 || IntOf(tokens[1]).None? then None else
    var tick, data := IntOf(tokens[1]).value, PairsFrom(tokens, 0);
    if data.None? || InstanceAt(t, tick).pm.Some? then None
    else Some(t.(memData := t.memData[tick := InstanceAt(t, tick).(pm := data)]))
  }

  function AddVirtual(t: Timeline, tokens: seq<string>): Option<Timeline> {
    if |tokens| - 4 != 768 * 3 || IntOf(tokens[1]).None? || IntOf(tokens[2]).None? then None else
    var pid, tick, data := IntOf(tokens[1]).value, IntOf(tokens[2]).value, TriplesFrom(tokens, 0);
    var at := InstanceAt(t, tick);
    if data.None? || pid in at.vm then None
    else Some(t.(memData := t.memData[tick := at.(vm := at.vm[pid := data.value])]))
  }

  /** One turn of the constructor's loop; None for an exception. */
  function AddLine(t: Timeline, line: string): Option<Timeline> {
    if StartsWith(line, "PM_DUMP") then AddPhysical(t, Tokens(line))
    else if StartsWith(line, "VM_DUMP") then AddVirtual(t, Tokens(line))
    else if StartsWith(line, "PANIC: Unexpected exception 52!") then Some(t.(panic := true))
    else Some(t)
  }

  function ReadLog(t: Timeline, lines: seq<string>): Option<Timeline>
    decreases |lines|
  {
    if lines == [] then Some(t) else
    match AddLine(t, lines[0])
    case None => None
    case Some(t') => ReadLog(t', lines[1..])
  }

  /** What the panic line starts with. */
  predicate TellsPanic(line: string) {
    |line| >= 31 && line[..31] == "PANIC: Unexpected exception 52!"
  }

  /** A log that is read without an exception leaves `panic` set exactly when it was set before or some
      line starts so. */
  lemma {:induction false} PanicExactly(t: Timeline, lines: seq<string>)
    requires ReadLog(t, lines).Some?
    ensures ReadLog(t, lines).value.panic <==> t.panic || exists i :: 0 <= i < |lines| && TellsPanic(lines[i])
    decreases |lines|
  {
    if lines != [] {
      var t1 := AddLine(t, lines[0]).value;
      PanicLine(t, lines[0]);
      hide AddLine, TellsPanic;
      PanicExactly(t1, lines[1..]);
      if i :| 0 <= i < |lines| && TellsPanic(lines[i]) {
        assert i > 0 ==> TellsPanic(lines[1..][i - 1]);
      }
      if i :| 0 <= i < |lines[1..]| && TellsPanic(lines[1..][i]) {
        assert TellsPanic(lines[i + 1]);
      }
    }
  }

  lemma PanicLine(t: Timeline, line: string)
    requires AddLine(t, line).Some?
    ensures AddLine(t, line).value.panic <==> t.panic || TellsPanic(line)
  {
    hide Tokens, PairsFrom, TriplesFrom, IntOf;
    var panic := "PANIC: Unexpected exception 52!";
    assert |panic| == 31 && panic[0] == 'P' && panic[1] == 'A' && "PM_DUMP"[1] == 'M' && "VM_DUMP"[0] == 'V';
    if TellsPanic(line) {
      assert line[..31][0] == line[0] && line[..31][1] == line[1];
    }
  }

  predicate AllNumbers(tokens: seq<string>, from: nat, to: nat)
    requires to <= |tokens|
  {
    forall k | from <= k < to :: IntOf(tokens[k]).Some?
  }

  /** What the reader asks of a memory dump's line: 512 pairs of numbers behind the tick, and a tick
      without a memory dump. */
  predicate PhysicalReadable(t: Timeline, tokens: seq<string>) {
    |tokens| == 1027 && AllNumbers(tokens, 1, 1026)
    && var tick := IntOf(tokens[1]).value; tick in t.memData ==> t.memData[tick].pm.None?
  }

  /** And of a process's line: 768 triples of numbers behind process and tick, and a process that the
      tick does not have. */
  predicate VirtualReadable(t: Timeline, tokens: seq<string>) {
    |tokens| == 2308 && AllNumbers(tokens, 1, 2307)
    && var pid, tick := IntOf(tokens[1]).value, IntOf(tokens[2]).value;
      tick in t.memData ==> pid !in t.memData[tick].vm
  }

  /** A line raises no exception exactly when, if it starts with PM_DUMP or VM_DUMP, it is readable as
      such a dump and not a second one. */
  lemma LineReadExactly(t: Timeline, line: string)
    ensures AddLine(t, line).Some? <==>
      && (StartsWith(line, "PM_DUMP") ==> PhysicalReadable(t, Tokens(line)))
      && (!StartsWith(line, "PM_DUMP") && StartsWith(line, "VM_DUMP") ==> VirtualReadable(t, Tokens(line)))
  {
    hide IntOf, TokensFrom, PairsFrom, TriplesFrom, StartsWith;
    var tokens := Tokens(line);
    if |tokens| == 1027 {
      PairsReadExactly(tokens, 0);
    }
    if |tokens| == 2308 {
      TriplesReadExactly(tokens, 0);
    }
  }

  lemma {:induction false} PairsReadExactly(tokens: seq<string>, i: nat)
    requires i <= 512 && |tokens| == 1027
    ensures PairsFrom(tokens, i).Some? <==> AllNumbers(tokens, 2 * i + 2, 1026)
    decreases 512 - i
  {
    hide IntOf;
    if i < 512 {
      PairsReadExactly(tokens, i + 1);
    }
  }

  lemma {:induction false} TriplesReadExactly(tokens: seq<string>, i: nat)
    requires i <= 768 && |tokens| == 2308
    ensures TriplesFrom(tokens, i).Some? <==> AllNumbers(tokens, 3 * i + 3, 2307)
    decreases 768 - i
  {
    hide IntOf;
    if i < 768 {
      TriplesReadExactly(tokens, i + 1);
    }
  }

  class MemMapTimeline {
    var memData: map<nat, Instance>
    var panic: bool

    constructor ()
      ensures memData == map[] && !panic
    {
      memData, panic := map[], false;
    }

    /** The constructor's loop over the log; false for an exception. */
    method Load(lines: seq<string>) returns (ok: bool)
      modifies this
      ensures ok <==> ReadLog(old(Timeline(memData, panic)), lines).Some?
      ensures ok ==> Timeline(memData, panic) == ReadLog(old(Timeline(memData, panic)), lines).value
    {
      var i := 0;
      while i < |lines|
        invariant 0 <= i <= |lines|
        invariant ReadLog(Timeline(memData, panic), lines[i..]) == ReadLog(old(Timeline(memData, panic)), lines)
      {
        var r := ParseLine(lines[i]);
        if r.None? {
          return false;
        }
        memData, panic := r.value.memData, r.value.panic;
        i := i + 1;
      }
      return true;
    }

    method ParseLine(line: string) returns (r: Option<Timeline>)
      ensures r == AddLine(Timeline(memData, panic), line)
    {
      hide IntOf, TokensFrom, PairsFrom, TriplesFrom;
      var t := Timeline(memData, panic);
      var tokens := Tokens(line);
      if StartsWith(line, "PM_DUMP") {
        if |tokens| - 3 != 512 * 2 || IntOf(tokens[1]).None? {
          return None;
        }
        var tick := IntOf(tokens[1]).value;
        var data := ReadPairs(tokens);
        r := if data.None? || InstanceAt(t, tick).pm.Some? then None
             else Some(t.(memData := memData[tick := InstanceAt(t, tick).(pm := data)]));
      } else if StartsWith(line, "VM_DUMP") {
        if |tokens| - 4 != 768 * 3 || IntOf(tokens[1]).None? || IntOf(tokens[2]).None? {
          return None;
        }
        var pid, tick := IntOf(tokens[1]).value, IntOf(tokens[2]).value;
        var data := ReadTriples(tokens);
        var at := InstanceAt(t, tick);
        r := if data.None? || pid in at.vm then None
             else Some(t.(memData := memData[tick := at.(vm := at.vm[pid := data.value])]));
      } else if StartsWith(line, "PANIC: Unexpected exception 52!") {
        r := Some(t.(panic := true));
      } else {
        r := Some(t);
      }
    }

    /** The loop over physical pages. */
    static method ReadPairs(tokens: seq<string>) returns (r: Option<seq<PMEntry>>)
      requires |tokens| == 512 * 2 + 3
      ensures r == PairsFrom(tokens, 0)
    {
      hide IntOf;
      var data := [];
      var i := 0;
      JoinNothing(PairsFrom(tokens, 0));
      while i < 512
        invariant 0 <= i <= 512
        invariant PairsFrom(tokens, 0) == JoinedTo(data, PairsFrom(tokens, i))
      {
        var owner, refcount := IntOf(tokens[2 * i + 2]), IntOf(tokens[2 * i + 3]);
        if owner.None? || refcount.None? {
          return None;
        }
        JoinStep(data, PMEntry(owner.value, refcount.value), PairsFrom(tokens, i + 1));
        data := data + [PMEntry(owner.value, refcount.value)];
        i := i + 1;
      }
      assert data + [] == data;
      return Some(data);
    }

    /** The loop over virtual pages. */
    static method ReadTriples(tokens: seq<string>) returns (r: Option<seq<VMEntry>>)
      requires |tokens| == 768 * 3 + 4
      ensures r == TriplesFrom(tokens, 0)
    {
      hide IntOf;
      var data := [];
      var i := 0;
      JoinNothing(TriplesFrom(tokens, 0));
      while i < 768
        invariant 0 <= i <= 768
        invariant TriplesFrom(tokens, 0) == JoinedTo(data, TriplesFrom(tokens, i))
      {
        var owner, refcount, perm := IntOf(tokens[3 * i + 3]), IntOf(tokens[3 * i + 4]), IntOf(tokens[3 * i + 5]);
        if owner.None? || refcount.None? || perm.None? {
          return None;
        }
        var entry := VMEntry(owner.value, refcount.value, perm.value / 4 % 2 * 4, perm.value);
        JoinStep(data, entry, TriplesFrom(tokens, i + 1));
        data := data + [entry];
        i := i + 1;
      }
      assert data + [] == data;
      return Some(data);
    }
  }

  /** Entries read so far, before those still to be read. */
  function JoinedTo<T>(data: seq<T>, rest: Option<seq<T>>): Option<seq<T>> {
    match rest
    case None => None
    case Some(more) => Some(data + more)
  }

  lemma JoinNothing<T>(rest: Option<seq<T>>)
    ensures JoinedTo([], rest) == rest
  {
    if rest.Some? {
      assert [] + rest.value == rest.value;
    }
  }

  lemma JoinStep<T>(data: seq<T>, x: T, rest: Option<seq<T>>)
    ensures JoinedTo(data + [x], rest) ==
      JoinedTo(data, match rest case None => None case Some(more) => Some([x] + more))
  {
    if rest.Some? {
      assert data + [x] + rest.value == data + ([x] + rest.value);
    }
  }

  // ---- The checks ----

  const KERNEL_LIMIT := 256
  const CGA_BLOCK := 184

  predicate IsKernelIsolated(m: Instance) {
    forall pid, i | pid in m.vm && 0 <= i < |m.vm[pid]| && i < KERNEL_LIMIT && i != CGA_BLOCK :: m.vm[pid][i].ua == 0
  }

  predicate AreProcessesIsolated(m: Instance) {
    forall pid, i | pid in m.vm && KERNEL_LIMIT <= i < |m.vm[pid]| ::
      !(m.vm[pid][i].owner != 0 && m.vm[pid][i].owner != pid && m.vm[pid][i].ua != 0)
  }

  predicate CheckOwnershipInvariant(m: Instance) {
    forall pid, i | pid in m.vm && KERNEL_LIMIT <= i < |m.vm[pid]| ::
      !(m.vm[pid][i].owner != 0 && m.vm[pid][i].owner == pid && m.vm[pid][i].ua == 0)
  }

  /** False, too, where Python would raise an exception for a list that is too short. */
  predicate CheckCGAAccessInvariant(m: Instance) {
    forall pid | pid in m.vm :: CGA_BLOCK < |m.vm[pid]| && m.vm[pid][CGA_BLOCK].ua != 0
  }

  // ---- What a dump should read back as ----

  function PhysicalData(info: Info): (data: seq<PMEntry>)
    ensures |data| == NPAGES
    ensures forall p | 0 <= p < NPAGES :: data[p] == PMEntry(Uint8(info[p].owner), Uint32(info[p].refcount))
  {
    seq(NPAGES, p requires 0 <= p < NPAGES => PMEntry(Uint8(info[p].owner), Uint32(info[p].refcount)))
  }

  function VirtualDatum(m: Mapping, info: Info): VMEntry
    requires m.Mapped? ==> m.pn < NPAGES
  {
    match m
    case Unmapped => VMEntry(0, 0, 0, 0)
    case Mapped(pn, perm) =>
      VMEntry(Uint8(info[pn].owner), Uint8(info[pn].refcount), if perm.u then 4 else 0, FlagsValue(perm) % PAGE_SIZE)
  }

  function VirtualData(mem: Memory, info: Info, table: nat): (data: seq<VMEntry>)
    requires InRange(mem, table)
    ensures |data| == VM_END
    ensures forall v | 0 <= v < VM_END :: data[v] == VirtualDatum(Lookup(mem, table, v), info)
  {
    seq(VM_END, v requires 0 <= v < VM_END => VirtualDatum(Lookup(mem, table, v), info))
  }

  /** The address spaces of the processes in slots from n on. */
  function SpacesFrom(s: State, n: nat): map<nat, seq<VMEntry>>
    requires AllInRange(s)
  {
    map pid: nat | n <= pid < NPROC && s.procs[pid].state != P_FREE ::
        VirtualData(s.store.mem, s.store.info, s.procs[pid].table)
  }

  function Snapshot(s: State): Instance
    requires CanDump(s)
  {
    Instance(Some(PhysicalData(s.store.info)), SpacesFrom(s, 0))
  }

  // ---- Tokens of a dump ----

  /** A word of a line: something in it, and neither blank nor newline. */
  predicate Plain(w: string) {
    w != "" && forall k | 0 <= k < |w| :: w[k] != ' ' && w[k] != '\n'
  }

  lemma {:induction false} TokensThrough(w: string, rest: string, cur: string)
    requires forall k | 0 <= k < |w| :: w[k] != ' '
    ensures TokensFrom(w + rest, cur) == TokensFrom(rest, cur + w)
    decreases |w|
  {
    if w == "" {
      assert w + rest == rest && cur + w == cur;
    } else {
      assert (w + rest)[1..] == w[1..] + rest && cur + w == cur + [w[0]] + w[1..];
      TokensThrough(w[1..], rest, cur + [w[0]]);
    }
  }

  lemma TokensWord(w: string, rest: string)
    requires Plain(w)
    ensures Tokens(w + " " + rest) == [w] + Tokens(rest)
  {
    assert w + " " + rest == w + (" " + rest) && "" + w == w;
    TokensThrough(w, " " + rest, "");
    assert (" " + rest)[1..] == rest;
  }

  lemma {:induction false} TokensSpaced(words: seq<string>, rest: string)
    requires forall k | 0 <= k < |words| :: Plain(words[k])
    ensures Tokens(Spaced(words) + rest) == words + Tokens(rest)
    decreases |words|
  {
    hide Plain, TokensFrom, Tokens;
    if words == [] {
      assert Spaced(words) + rest == rest;
    } else {
      TokensSpaced(words[1..], rest);
      assert Spaced(words) + rest == words[0] + " " + (Spaced(words[1..]) + rest);
      TokensWord(words[0], Spaced(words[1..]) + rest);
      assert words == [words[0]] + words[1..];
    }
  }

  lemma TokensNewline()
    ensures Tokens("\n") == ["\n"]
  {
    assert "\n"[1..] == "" && "" + ['\n'] == "\n";
  }

  lemma DecimalIsPlain(n: nat)
    ensures Plain(Decimal(n)) && IntOf(Decimal(n)) == Some(n)
  {
    DigitsRoundTrip(n, 10);
    forall k | 0 <= k < |Decimal(n)|
      ensures Decimal(n)[k] != ' ' && Decimal(n)[k] != '\n'
    {
      DigitsArePlain(n, 10, k);
    }
  }

  /** Words without newlines make one line. */
  lemma {:induction false} LinesThrough(w: string, rest: string, cur: string)
    requires forall k | 0 <= k < |w| :: w[k] != '\n'
    ensures LinesFrom(w + rest, cur) == LinesFrom(rest, cur + w)
    decreases |w|
  {
    if w == "" {
      assert w + rest == rest && cur + w == cur;
    } else {
      assert (w + rest)[1..] == w[1..] + rest && cur + w == cur + [w[0]] + w[1..];
      LinesThrough(w[1..], rest, cur + [w[0]]);
    }
  }

  lemma {:induction false} SpacedOneLine(words: seq<string>)
    requires forall i, k | 0 <= i < |words| && 0 <= k < |words[i]| :: words[i][k] != '\n'
    ensures forall k | 0 <= k < |Spaced(words)| :: Spaced(words)[k] != '\n'
    decreases |words|
  {
    if words != [] {
      SpacedOneLine(words[1..]);
    }
  }

  lemma LineOf(line: string, rest: string)
    requires forall k | 0 <= k < |line| :: line[k] != '\n'
    ensures ReadLines(line + "\n" + rest) == [line + "\n"] + ReadLines(rest)
  {
    assert line + "\n" + rest == line + ("\n" + rest) && "" + line == line;
    LinesThrough(line, "\n" + rest, "");
    assert ("\n" + rest)[1..] == rest;
  }

  // ---- Round trip ----

  lemma PhysicalWordsPlain(info: Info, ticks: Word64)
    ensures var words := ["PM_DUMP", Decimal(ticks)] + PhysicalWords(info);
      forall k | 0 <= k < |words| :: Plain(words[k])
  {
    hide Decimal;
    var words := ["PM_DUMP", Decimal(ticks)] + PhysicalWords(info);
    forall k | 0 <= k < |words|
      ensures Plain(words[k])
    {
      DecimalIsPlain(ticks);
      if k >= 2 {
        var i := info[(k - 2) / 2];
        DecimalIsPlain(if k % 2 == 0 then Uint8(i.owner) else Uint32(i.refcount));
        assert words[k] == PhysicalWord(info, k - 2);
      }
    }
  }

  function PhysicalTokens(info: Info, ticks: Word64): (tokens: seq<string>)
    ensures |tokens| == 2 * NPAGES + 3
  {
    ["PM_DUMP", Decimal(ticks)] + PhysicalWords(info) + ["\n"]
  }

  lemma PhysicalLineTokens(info: Info, ticks: Word64)
    requires ticks < 0x1_0000_0000
    ensures Tokens(PhysicalLine(info, ticks)) == PhysicalTokens(info, ticks)
  {
    hide Tokens, PhysicalLine, Spaced, PhysicalWords, Plain, Decimal;
    PhysicalLineIs(info, ticks);
    PhysicalWordsPlain(info, ticks);
    TokensSpaced(["PM_DUMP", Decimal(ticks)] + PhysicalWords(info), "\n");
    TokensNewline();
  }

  lemma PairAt(info: Info, ticks: Word64, i: nat)
    requires i < NPAGES
    ensures var tokens := PhysicalTokens(info, ticks);
      && IntOf(tokens[2 * i + 2]) == Some(PhysicalData(info)[i].owner)
      && IntOf(tokens[2 * i + 3]) == Some(PhysicalData(info)[i].refcount)
  {
    hide Decimal, IntOf, PhysicalWords, PhysicalData;
    DecimalIsPlain(Uint8(info[i].owner));
    DecimalIsPlain(Uint32(info[i].refcount));
    assert 2 * i / 2 == i && (2 * i + 1) / 2 == i && 2 * i % 2 == 0 && (2 * i + 1) % 2 == 1;
    var words := PhysicalWords(info);
    assert words[2 * i] == PhysicalWord(info, 2 * i) && words[2 * i + 1] == PhysicalWord(info, 2 * i + 1);
    assert PhysicalTokens(info, ticks)[2 * i + 2] == words[2 * i]
        && PhysicalTokens(info, ticks)[2 * i + 3] == words[2 * i + 1];
  }

  lemma {:induction false} PairsParse(info: Info, ticks: Word64, i: nat)
    requires i <= NPAGES
    ensures PairsFrom(PhysicalTokens(info, ticks), i) == Some(PhysicalData(info)[i..])
    decreases NPAGES - i
  {
    hide PhysicalTokens, PhysicalData, IntOf;
    if i < NPAGES {
      PairsParse(info, ticks, i + 1);
      PairAt(info, ticks, i);
      var d := PhysicalData(info);
      assert d[i..] == [d[i]] + d[i + 1..];
    } else {
      assert PhysicalData(info)[i..] == [];
    }
  }

  lemma {:induction false} SpacedStarts(word: string, words: seq<string>, rest: string)
    requires words != [] && words[0] == word
    ensures StartsWith(Spaced(words) + rest, word)
  {
    assert Spaced(words) + rest == word + (" " + Spaced(words[1..]) + rest);
  }

  /** A memory dump read back: owners modulo 256 and reference counts, under its tick. */
  lemma PhysicalLineParses(t: Timeline, info: Info, ticks: Word64)
    requires ticks < 0x1_0000_0000 && ticks !in t.memData
    ensures AddLine(t, PhysicalLine(info, ticks)) ==
      Some(t.(memData := t.memData[ticks := Instance(Some(PhysicalData(info)), map[])]))
  {
    hide Tokens, PhysicalLine, Spaced, PhysicalWords, PhysicalData, Decimal, IntOf, PairsFrom, StartsWith,
        AddVirtual, AddPhysical;
    PhysicalLineTokens(info, ticks);
    PairsParse(info, ticks, 0);
    DecimalIsPlain(ticks);
    PhysicalLineIs(info, ticks);
    SpacedStarts("PM_DUMP", ["PM_DUMP", Decimal(ticks)] + PhysicalWords(info), "\n");
    assert PhysicalData(info)[0..] == PhysicalData(info);
    assert PhysicalTokens(info, ticks)[1] == Decimal(ticks);
    AddPhysicalIs(t, PhysicalTokens(info, ticks), ticks, PhysicalData(info));
  }

  lemma {:induction false} AddPhysicalIs(t: Timeline, tokens: seq<string>, tick: nat, data: seq<PMEntry>)
    requires |tokens| == 2 * NPAGES + 3 && IntOf(tokens[1]) == Some(tick)
    requires PairsFrom(tokens, 0) == Some(data) && tick !in t.memData
    ensures AddPhysical(t, tokens) == Some(t.(memData := t.memData[tick := Instance(Some(data), map[])]))
  {
    hide IntOf, PairsFrom;
  }

  lemma VirtualWordsPlain(mem: Memory, info: Info, table: nat, ticks: Word64)
    requires InRange(mem, table)
    ensures var words := [Decimal(ticks)] + VirtualWords(mem, info, table);
      forall k | 0 <= k < |words| :: Plain(words[k])
  {
    hide Decimal, VirtualNumber, VirtualWords, Plain;
    var words := [Decimal(ticks)] + VirtualWords(mem, info, table);
    forall k | 0 <= k < |words|
      ensures Plain(words[k])
    {
      if k == 0 {
        DecimalIsPlain(ticks);
      } else {
        DecimalIsPlain(VirtualNumber(mem, info, table, k - 1));
        assert words[k] == VirtualWords(mem, info, table)[k - 1];
      }
    }
  }

  function VirtualTokens(mem: Memory, info: Info, table: nat, pid: Word64, ticks: Word64): (tokens: seq<string>)
    requires InRange(mem, table)
    ensures |tokens| == 3 * VM_END + 4
  {
    ["VM_DUMP", Decimal(pid), Decimal(ticks)] + VirtualWords(mem, info, table) + ["\n"]
  }

  /** The blank behind the process number is one more separator to the parser. */
  lemma VirtualLineTokens(mem: Memory, info: Info, table: nat, pid: Word64, ticks: Word64)
    requires ticks < 0x1_0000_0000 && pid < NPROC && InRange(mem, table)
    ensures Tokens(VirtualLine(mem, info, table, Name(pid), ticks)) == VirtualTokens(mem, info, table, pid, ticks)
  {
    hide Tokens, VirtualLine, VirtualWords, Plain, Decimal, InRange, Name, Spaced;
    VirtualLineIs(mem, info, table, pid, ticks);
    var words := [Decimal(ticks)] + VirtualWords(mem, info, table);
    VirtualWordsPlain(mem, info, table, ticks);
    DecimalIsPlain(pid);
    assert ["VM_DUMP", Decimal(pid) + " ", Decimal(ticks)] + VirtualWords(mem, info, table) ==
        ["VM_DUMP", Decimal(pid) + " "] + words;
    NamedTokens(Decimal(pid), words);
    assert ["VM_DUMP", Decimal(pid)] + words + ["\n"] == VirtualTokens(mem, info, table, pid, ticks);
  }

  lemma {:induction false} NamedTokens(pid: string, words: seq<string>)
    requires Plain(pid) && forall k | 0 <= k < |words| :: Plain(words[k])
    ensures Tokens(Spaced(["VM_DUMP", pid + " "] + words) + "\n") == ["VM_DUMP", pid] + words + ["\n"]
  {
    hide Tokens, Plain, Spaced;
    VirtualSpaced(pid + " ", words);
    NamedLine(pid, Spaced(words));
    NamedRest(pid, words);
    DumpWordPlain();
    TokensWord("VM_DUMP", pid + " " + (" " + (Spaced(words) + "\n")));
    TokensJoin("VM_DUMP", pid, words);
  }

  lemma {:induction false} NamedRest(pid: string, words: seq<string>)
    requires Plain(pid) && forall k | 0 <= k < |words| :: Plain(words[k])
    ensures Tokens(pid + " " + (" " + (Spaced(words) + "\n"))) == [pid] + (words + ["\n"])
  {
    hide Tokens, Plain, Spaced;
    var rest := Spaced(words) + "\n";
    TokensWord(pid, " " + rest);
    TokensBlank(rest);
    TokensSpaced(words, "\n");
    TokensNewline();
  }

  lemma TokensJoin(head: string, pid: string, words: seq<string>)
    ensures [head] + ([pid] + (words + ["\n"])) == [head, pid] + words + ["\n"]
  {
  }

  lemma NamedLine(pid: string, w: string)
    ensures "VM_DUMP" + " " + (pid + " " + " " + w) + "\n" == "VM_DUMP" + " " + (pid + " " + (" " + (w + "\n")))
  {
    assert pid + " " + " " + w + "\n" == pid + " " + (" " + (w + "\n"));
  }

  lemma DumpWordPlain()
    ensures Plain("VM_DUMP")
  {
  }

  lemma TokensBlank(rest: string)
    ensures Tokens(" " + rest) == Tokens(rest)
  {
    assert (" " + rest)[1..] == rest;
  }

  lemma {:induction false} VirtualSpaced(name: string, words: seq<string>)
    ensures Spaced(["VM_DUMP", name] + words) == "VM_DUMP" + " " + (name + " " + Spaced(words))
  {
    assert (["VM_DUMP", name] + words)[1..] == [name] + words && ([name] + words)[1..] == words;
  }

  lemma UserBit(f: Flags)
    ensures FlagsValue(f) % PAGE_SIZE / 4 % 2 * 4 == if f.u then 4 else 0
  {
    FlagsRoundTrip(f);
    assert FlagsValue(f) / 4 == 2 * f.rest + Bit(f.u);
  }

  lemma TripleAt(mem: Memory, info: Info, table: nat, pid: Word64, ticks: Word64, i: nat)
    requires i < VM_END && InRange(mem, table)
    ensures var tokens := VirtualTokens(mem, info, table, pid, ticks);
      var datum := VirtualData(mem, info, table)[i];
      && IntOf(tokens[3 * i + 3]) == Some(datum.owner)
      && IntOf(tokens[3 * i + 4]) == Some(datum.refcount)
      && IntOf(tokens[3 * i + 5]) == Some(datum.perm)
      && datum.ua == datum.perm / 4 % 2 * 4
  {
    hide Decimal, IntOf, VirtualWords, VirtualData, Lookup, FlagsValue;
    var k := 3 * i;
    assert k / 3 == i && (k + 1) / 3 == i && (k + 2) / 3 == i && k % 3 == 0 && (k + 1) % 3 == 1 && (k + 2) % 3 == 2;
    TokenAt(mem, info, table, pid, ticks, k);
    TokenAt(mem, info, table, pid, ticks, k + 1);
    TokenAt(mem, info, table, pid, ticks, k + 2);
    hide VirtualTokens;
    if Lookup(mem, table, i).Mapped? {
      UserBit(Lookup(mem, table, i).perm);
    }
  }

  lemma TokenAt(mem: Memory, info: Info, table: nat, pid: Word64, ticks: Word64, k: nat)
    requires k < 3 * VM_END && InRange(mem, table)
    ensures IntOf(VirtualTokens(mem, info, table, pid, ticks)[k + 3]) == Some(VirtualNumber(mem, info, table, k))
  {
    hide Decimal, IntOf, VirtualWords, VirtualNumber;
    DecimalIsPlain(VirtualNumber(mem, info, table, k));
    assert VirtualTokens(mem, info, table, pid, ticks)[k + 3] == VirtualWords(mem, info, table)[k];
  }

  lemma {:induction false} TriplesParse(mem: Memory, info: Info, table: nat, pid: Word64, ticks: Word64, i: nat)
    requires i <= VM_END && InRange(mem, table)
    ensures TriplesFrom(VirtualTokens(mem, info, table, pid, ticks), i) == Some(VirtualData(mem, info, table)[i..])
    decreases VM_END - i
  {
    hide VirtualTokens, VirtualData, IntOf, Lookup, InRange;
    if i < VM_END {
      TriplesParse(mem, info, table, pid, ticks, i + 1);
      TripleAt(mem, info, table, pid, ticks, i);
      var d := VirtualData(mem, info, table);
      assert d[i..] == [d[i]] + d[i + 1..];
    } else {
      assert VirtualData(mem, info, table)[i..] == [];
    }
  }

  /** A process's dump read back: owner, reference count and permissions of every page. */
  lemma VirtualLineParses(t: Timeline, mem: Memory, info: Info, table: nat, pid: Word64, ticks: Word64)
    requires ticks < 0x1_0000_0000 && pid < NPROC && InRange(mem, table)
    requires pid !in InstanceAt(t, ticks).vm
    ensures var at := InstanceAt(t, ticks);
      AddLine(t, VirtualLine(mem, info, table, Name(pid), ticks)) ==
        Some(t.(memData := t.memData[ticks := at.(vm := at.vm[pid := VirtualData(mem, info, table)])]))
  {
    hide Tokens, VirtualLine, Spaced, VirtualWords, VirtualData, Decimal, IntOf, TriplesFrom, Name, InRange,
        AddPhysical, AddVirtual, StartsWith;
    var line, tokens := VirtualLine(mem, info, table, Name(pid), ticks), VirtualTokens(mem, info, table, pid, ticks);
    VirtualLineTokens(mem, info, table, pid, ticks);
    VirtualLineIs(mem, info, table, pid, ticks);
    SpacedStarts("VM_DUMP", ["VM_DUMP", Decimal(pid) + " ", Decimal(ticks)] + VirtualWords(mem, info, table), "\n");
    NotPhysical(line);
    TriplesParse(mem, info, table, pid, ticks, 0);
    assert VirtualData(mem, info, table)[0..] == VirtualData(mem, info, table);
    DecimalIsPlain(ticks);
    DecimalIsPlain(pid);
    assert tokens[1] == Decimal(pid) && tokens[2] == Decimal(ticks);
    AddVirtualIs(t, tokens, pid, ticks, VirtualData(mem, info, table));
  }

  lemma NotPhysical(line: string)
    requires StartsWith(line, "VM_DUMP")
    ensures !StartsWith(line, "PM_DUMP")
  {
    assert line[0] == 'V' by {
      assert line[..7][0] == 'V';
    }
  }

  lemma {:induction false} AddVirtualIs(t: Timeline, tokens: seq<string>, pid: nat, tick: nat, data: seq<VMEntry>)
    requires |tokens| == 3 * VM_END + 4 && IntOf(tokens[1]) == Some(pid) && IntOf(tokens[2]) == Some(tick)
    requires TriplesFrom(tokens, 0) == Some(data) && pid !in InstanceAt(t, tick).vm
    ensures var at := InstanceAt(t, tick);
      AddVirtual(t, tokens) == Some(t.(memData := t.memData[tick := at.(vm := at.vm[pid := data])]))
  {
    hide IntOf, TriplesFrom;
  }

  // ---- A whole dump, and a whole log ----

  lemma PhysicalLineIsLine(info: Info, ticks: Word64, rest: string)
    requires ticks < 0x1_0000_0000
    ensures ReadLines(PhysicalLine(info, ticks) + rest) == [PhysicalLine(info, ticks)] + ReadLines(rest)
  {
    hide PhysicalLine, Spaced, PhysicalWords, Decimal, ReadLines;
    var words := ["PM_DUMP", Decimal(ticks)] + PhysicalWords(info);
    PhysicalLineIs(info, ticks);
    PhysicalWordsPlain(info, ticks);
    PlainOneLine(words);
    LineOf(Spaced(words), rest);
  }

  lemma {:induction false} PlainOneLine(words: seq<string>)
    requires forall k | 0 <= k < |words| :: Plain(words[k])
    ensures forall k | 0 <= k < |Spaced(words)| :: Spaced(words)[k] != '\n'
  {
    forall i, k | 0 <= i < |words| && 0 <= k < |words[i]|
      ensures words[i][k] != '\n'
    {
      assert Plain(words[i]);
    }
    SpacedOneLine(words);
  }

  lemma VirtualLineIsLine(mem: Memory, info: Info, table: nat, pid: Word64, ticks: Word64, rest: string)
    requires ticks < 0x1_0000_0000 && pid < NPROC && InRange(mem, table)
    ensures var line := VirtualLine(mem, info, table, Name(pid), ticks);
      ReadLines(line + rest) == [line] + ReadLines(rest)
  {
    hide VirtualLine, VirtualWords, Decimal, ReadLines, Name, InRange, Plain;
    VirtualLineIs(mem, info, table, pid, ticks);
    var words := [Decimal(ticks)] + VirtualWords(mem, info, table);
    VirtualWordsPlain(mem, info, table, ticks);
    PlainOneLine(words);
    DecimalIsPlain(pid);
    PlainHasNoNewline(Decimal(pid));
    assert ["VM_DUMP", Decimal(pid) + " ", Decimal(ticks)] + VirtualWords(mem, info, table) ==
        ["VM_DUMP", Decimal(pid) + " "] + words;
    VirtualSpaced(Decimal(pid) + " ", words);
    hide Spaced;
    LineOf(Spaced(["VM_DUMP", Decimal(pid) + " "] + words), rest);
  }

  lemma PlainHasNoNewline(w: string)
    requires Plain(w)
    ensures forall k | 0 <= k < |w| :: w[k] != '\n'
  {
  }

  /** Reading one line and then the rest. */
  lemma {:induction false} ReadOne(t: Timeline, line: string, lines: seq<string>)
    requires AddLine(t, line).Some?
    ensures ReadLog(t, [line] + lines) == ReadLog(AddLine(t, line).value, lines)
  {
    hide AddLine;
    assert ([line] + lines)[1..] == lines;
  }

  /** A timeline after the processes from n on have been read at an existing tick. */
  function WithSpaces(t: Timeline, s: State, n: nat): Timeline
    requires AllInRange(s)
  {
    var at := InstanceAt(t, s.ticks);
    t.(memData := t.memData[s.ticks := at.(vm := at.vm + SpacesFrom(s, n))])
  }

  lemma {:induction false} VirtualLinesParse(t: Timeline, s: State, n: nat, rest: string)
    requires CanDump(s) && n <= NPROC && s.ticks in t.memData
    requires forall pid | pid in t.memData[s.ticks].vm :: pid < n
    ensures ReadLog(t, ReadLines(VirtualLines(s, n) + rest)) == ReadLog(WithSpaces(t, s, n), ReadLines(rest))
    decreases NPROC - n
  {
    hide ReadLog, ReadLines, VirtualLine, Name, InRange, VirtualData;
    if n == NPROC {
      assert VirtualLines(s, n) + rest == rest;
      SpacesNone(t, s);
    } else if s.procs[n].state == P_FREE {
      VirtualLinesParse(t, s, n + 1, rest);
      SpacesSkip(s, n);
    } else {
      var table := s.procs[n].table;
      var line := VirtualLine(s.store.mem, s.store.info, table, Name(n), s.ticks);
      var more := VirtualLines(s, n + 1) + rest;
      assert VirtualLines(s, n) + rest == line + more;
      VirtualLineIsLine(s.store.mem, s.store.info, table, n, s.ticks, more);
      VirtualLineParses(t, s.store.mem, s.store.info, table, n, s.ticks);
      ReadOne(t, line, ReadLines(more));
      var t1 := AddLine(t, line).value;
      hide AddLine;
      VirtualLinesParse(t1, s, n + 1, rest);
      SpacesTake(t, s, n);
    }
  }

  lemma SpacesNone(t: Timeline, s: State)
    requires AllInRange(s) && s.ticks in t.memData
    ensures WithSpaces(t, s, NPROC) == t
  {
    var at := InstanceAt(t, s.ticks);
    assert at.vm + SpacesFrom(s, NPROC) == at.vm;
    assert t.memData[s.ticks := t.memData[s.ticks]] == t.memData;
  }

  lemma SpacesSkip(s: State, n: nat)
    requires AllInRange(s) && n < NPROC && s.procs[n].state == P_FREE
    ensures SpacesFrom(s, n) == SpacesFrom(s, n + 1)
  {
  }

  lemma SpacesTake(t: Timeline, s: State, n: nat)
    requires AllInRange(s) && n < NPROC && s.procs[n].state != P_FREE && s.ticks in t.memData
    ensures var at := InstanceAt(t, s.ticks);
      var data := VirtualData(s.store.mem, s.store.info, s.procs[n].table);
      WithSpaces(t.(memData := t.memData[s.ticks := at.(vm := at.vm[n := data])]), s, n + 1) == WithSpaces(t, s, n)
  {
    hide VirtualData, InRange;
    var at := InstanceAt(t, s.ticks);
    var data := VirtualData(s.store.mem, s.store.info, s.procs[n].table);
    assert at.vm[n := data] + SpacesFrom(s, n + 1) == at.vm + SpacesFrom(s, n);
  }

  /** A dump at a new tick reads back as the state's snapshot, whatever was read before and follows. */
  lemma {:induction false} DumpParses(t: Timeline, s: State, rest: string)
    requires CanDump(s) && s.ticks !in t.memData
    ensures ReadLog(t, ReadLines(Dump(s) + rest)) ==
      ReadLog(t.(memData := t.memData[s.ticks := Snapshot(s)]), ReadLines(rest))
  {
    hide ReadLog, ReadLines, PhysicalLine, VirtualLines, PhysicalData, InRange, AllInRange, AddLine, WithSpaces,
        Snapshot;
    var line, more := PhysicalLine(s.store.info, s.ticks), VirtualLines(s, 0) + rest;
    assert Dump(s) + rest == line + more;
    PhysicalLineIsLine(s.store.info, s.ticks, more);
    PhysicalLineParses(t, s.store.info, s.ticks);
    ReadOne(t, line, ReadLines(more));
    VirtualLinesParse(AddLine(t, line).value, s, 0, rest);
    SnapshotJoins(t, s);
  }

  /** A dump's first line is that of memory. */
  lemma DumpStarts(s: State)
    requires CanDump(s)
    ensures ReadLines(Dump(s)) != [] && StartsWith(ReadLines(Dump(s))[0], "PM_DUMP")
  {
    hide ReadLines, PhysicalLine, VirtualLines, InRange, AllInRange, Spaced, Decimal, PhysicalWords;
    PhysicalLineIsLine(s.store.info, s.ticks, VirtualLines(s, 0));
    PhysicalLineIs(s.store.info, s.ticks);
    SpacedStarts("PM_DUMP", ["PM_DUMP", Decimal(s.ticks)] + PhysicalWords(s.store.info), "\n");
  }

  lemma SnapshotJoins(t: Timeline, s: State)
    requires CanDump(s)
    ensures WithSpaces(t.(memData := t.memData[s.ticks := Instance(Some(PhysicalData(s.store.info)), map[])]), s, 0) ==
      t.(memData := t.memData[s.ticks := Snapshot(s)])
  {
    hide PhysicalData, InRange, VirtualData;
    assert map[] + SpacesFrom(s, 0) == SpacesFrom(s, 0);
    assert t.memData[s.ticks := Instance(Some(PhysicalData(s.store.info)), map[])][s.ticks := Snapshot(s)] ==
        t.memData[s.ticks := Snapshot(s)];
  }

  /** The log of a run: a dump at each of these states. */
  function Log(states: seq<State>): string
    requires forall i | 0 <= i < |states| :: CanDump(states[i])
  {
    if states == [] then "" else Dump(states[0]) + Log(states[1..])
  }

  /** The timeline a log should read back as. */
  function Recorded(t: Timeline, states: seq<State>): Timeline
    requires forall i | 0 <= i < |states| :: CanDump(states[i])
    decreases |states|
  {
    if states == [] then t
    else Recorded(t.(memData := t.memData[states[0].ticks := Snapshot(states[0])]), states[1..])
  }

  /** Dumping and parsing undo each other: the log of dumps at distinct ticks reads back without an
      exception as exactly the snapshots of the states dumped. */
  lemma {:induction false} LogParses(t: Timeline, states: seq<State>)
    requires forall i | 0 <= i < |states| :: CanDump(states[i])
    requires forall i | 0 <= i < |states| :: states[i].ticks !in t.memData
    requires forall i, j | 0 <= i < j < |states| :: states[i].ticks != states[j].ticks
    ensures ReadLog(t, ReadLines(Log(states))) == Some(Recorded(t, states))
    decreases |states|
  {
    hide CanDump, ReadLines, Snapshot, Dump;
    if states == [] {
      assert ReadLines("") == [] by {
        NoLines();
      }
    } else {
      assert CanDump(states[0]);
      DumpParses(t, states[0], Log(states[1..]));
      LogParses(t.(memData := t.memData[states[0].ticks := Snapshot(states[0])]), states[1..]);
    }
  }

  /** Every instance read so far has its memory dump. */
  predicate AllDumped(t: Timeline) {
    forall tick | tick in t.memData :: t.memData[tick].pm.Some?
  }

  /** No tick is dumped twice, nor again after those of `t`. */
  predicate NewTicks(t: Timeline, states: seq<State>) {
    && (forall i | 0 <= i < |states| :: states[i].ticks !in t.memData)
    && forall i, j | 0 <= i < j < |states| :: states[i].ticks != states[j].ticks
  }

  /** A log of dumps is read without an exception exactly when no two dumps have the same tick. */
  lemma {:induction false} LogParsesExactly(t: Timeline, states: seq<State>)
    requires forall i | 0 <= i < |states| :: CanDump(states[i])
    requires AllDumped(t)
    ensures ReadLog(t, ReadLines(Log(states))).Some? <==> NewTicks(t, states)
    decreases |states|
  {
    hide CanDump, ReadLines, Dump, ReadLog;
    if NewTicks(t, states) {
      LogParses(t, states);
    } else {
      assert CanDump(states[0]);
      if states[0].ticks in t.memData {
        DumpRaises(t, states[0], Log(states[1..]));
      } else {
        var t1 := t.(memData := t.memData[states[0].ticks := Snapshot(states[0])]);
        DumpParses(t, states[0], Log(states[1..]));
        LogParsesExactly(t1, states[1..]);
        if NewTicks(t1, states[1..]) {
          NewTicksSplit(t, states);
        }
      }
    }
  }

  lemma NewTicksSplit(t: Timeline, states: seq<State>)
    requires states != [] && states[0].ticks !in t.memData && CanDump(states[0])
    requires NewTicks(t.(memData := t.memData[states[0].ticks := Snapshot(states[0])]), states[1..])
    ensures NewTicks(t, states)
  {
    hide CanDump, Snapshot;
    assert forall i | 1 <= i < |states| :: states[i] == states[1..][i - 1];
  }

  /** A second dump at a tick is an exception. */
  lemma {:induction false} DumpRaises(t: Timeline, s: State, rest: string)
    requires CanDump(s) && s.ticks in t.memData && t.memData[s.ticks].pm.Some?
    ensures ReadLog(t, ReadLines(Dump(s) + rest)).None?
  {
    hide ReadLines, PhysicalLine, VirtualLines, InRange, AllInRange, AddLine;
    var line, more := PhysicalLine(s.store.info, s.ticks), VirtualLines(s, 0) + rest;
    assert Dump(s) + rest == line + more;
    PhysicalLineIsLine(s.store.info, s.ticks, more);
    PhysicalLineRaises(t, s.store.info, s.ticks);
  }

  lemma PhysicalLineRaises(t: Timeline, info: Info, ticks: Word64)
    requires ticks < 0x1_0000_0000 && ticks in t.memData && t.memData[ticks].pm.Some?
    ensures AddLine(t, PhysicalLine(info, ticks)).None?
  {
    hide Tokens, PhysicalLine, Spaced, PhysicalWords, Decimal, IntOf, PairsFrom, StartsWith;
    PhysicalLineTokens(info, ticks);
    DecimalIsPlain(ticks);
    PhysicalLineIs(info, ticks);
    SpacedStarts("PM_DUMP", ["PM_DUMP", Decimal(ticks)] + PhysicalWords(info), "\n");
    assert PhysicalTokens(info, ticks)[1] == Decimal(ticks);
  }

  lemma NoLines()
    ensures ReadLines("") == []
  {
  }

  /** Each state dumped is found under its tick, and nothing else has been added. */
  lemma {:induction false} RecordedAt(t: Timeline, states: seq<State>, tick: nat)
    requires forall i | 0 <= i < |states| :: CanDump(states[i])
    requires forall i, j | 0 <= i < j < |states| :: states[i].ticks != states[j].ticks
    ensures Recorded(t, states).panic == t.panic
    ensures forall i | 0 <= i < |states| && states[i].ticks == tick ::
      tick in Recorded(t, states).memData && Recorded(t, states).memData[tick] == Snapshot(states[i])
    ensures (forall i | 0 <= i < |states| :: states[i].ticks != tick) ==>
      (tick in Recorded(t, states).memData <==> tick in t.memData)
      && (tick in t.memData ==> Recorded(t, states).memData[tick] == t.memData[tick])
    decreases |states|
  {
    hide CanDump, Snapshot;
    if states != [] {
      assert CanDump(states[0]);
      RecordedAt(t.(memData := t.memData[states[0].ticks := Snapshot(states[0])]), states[1..], tick);
      if states[0].ticks != tick {
        assert forall i | 1 <= i < |states| :: states[i] == states[1..][i - 1];
      } else {
        assert forall i | 0 <= i < |states[1..]| :: states[1..][i].ticks != tick;
      }
    }
  }

  // ---- Dumps of reachable states ----

  /** Page v of a process's dump, in a state that satisfies the invariant: owner modulo 256, count and
      rights of the page mapped there, which in the kernel range is v itself, for the user only at
      the console, and above it a page of the process's own with all rights. */
  ghost predicate DatumOk(s: State, pid: nat, v: nat, d: VMEntry)
    requires pid < NPROC
  {
    match Lookup(s.store.mem, s.procs[pid].table, v)
    case Unmapped => v >= PROC_START && d == VMEntry(0, 0, 0, 0)
    case Mapped(pn, perm) =>
      && pn < NPAGES && d.owner == s.store.info[pn].owner % 256 && d.refcount == s.store.info[pn].refcount
      && d.perm == FlagsValue(perm) && d.ua == (if perm.u then 4 else 0)
      && (if v < PROC_START then pn == v && d.perm == (if v == CONSOLE then 7 else 3)
          else d.owner == pid && d.refcount == 1 && d.perm == 7)
  }

  lemma DatumIs(s: State, tag: Tags, pid: nat, v: nat)
    requires Core(s, tag) && pid < NPROC && s.procs[pid].state != P_FREE && s.procs[pid].table != 0 && v < VM_END
    ensures var m := Lookup(s.store.mem, s.procs[pid].table, v); m.Mapped? ==> m.pn < NPAGES
    ensures DatumOk(s, pid, v, VirtualDatum(Lookup(s.store.mem, s.procs[pid].table, v), s.store.info))
  {
    hide Core, Lookup;
    var m := Lookup(s.store.mem, s.procs[pid].table, v);
    DatumMapping(s, tag, pid, v);
    if m.Mapped? {
      RefcountSmall(s, tag, m.pn);
      OwnerSmall(pid);
    }
  }

  /** What can be mapped at page v of a process. */
  lemma DatumMapping(s: State, tag: Tags, pid: nat, v: nat)
    requires Core(s, tag) && pid < NPROC && s.procs[pid].state != P_FREE && s.procs[pid].table != 0 && v < VM_END
    ensures var m := Lookup(s.store.mem, s.procs[pid].table, v);
      if v < PROC_START then m == Mapped(v, KernelFlags(v))
      else m.Mapped? ==> m.perm == PWU && m.pn < NPAGES && s.store.info[m.pn] == PageInfo(pid, 1)
  {
    var table := s.procs[pid].table;
    assert ProcOk(s.store.mem, tag, s.procs[pid], pid) && pid != 0;
    assert WellFormed(s.store, tag) && Owned(s.store.info, tag) && IsRoot(tag, table, pid);
    if v < PROC_START {
      KernelMappedAt(s.store.mem, table, v);
    } else {
      UserLookup(s.store, tag, table, pid, v);
    }
  }

  lemma OwnerSmall(pid: nat)
    requires pid < NPROC
    ensures Uint8(pid) == pid
  {
  }

  lemma RefcountSmall(s: State, tag: Tags, p: nat)
    requires Core(s, tag) && p < NPAGES
    ensures Uint8(s.store.info[p].refcount) == s.store.info[p].refcount == Uint32(s.store.info[p].refcount)
  {
    hide WellFormed, KernelSpace, ProcsOk;
  }

  lemma StateInRange(s: State, tag: Tags)
    requires Core(s, tag) && AllHaveTables(s.procs)
    ensures AllInRange(s)
  {
    forall pid | 0 <= pid < NPROC && s.procs[pid].state != P_FREE
      ensures InRange(s.store.mem, s.procs[pid].table)
    {
      forall v | 0 <= v < VM_END
        ensures Lookup(s.store.mem, s.procs[pid].table, v).Mapped? ==>
            Lookup(s.store.mem, s.procs[pid].table, v).pn < NPAGES
      {
        DatumIs(s, tag, pid, v);
      }
    }
  }

  /** The owner modulo 256, and the reference count. */
  predicate PageDatumOk(s: State, p: nat, d: PMEntry)
    requires p < NPAGES
  {
    d.owner == s.store.info[p].owner % 256 && d.refcount == s.store.info[p].refcount
  }

  /** What the dump of a state that satisfies the invariant says, entry by entry. */
  ghost predicate SnapshotOk(s: State, m: Instance) {
    && m.pm.Some? && |m.pm.value| == NPAGES
    && (forall p | 0 <= p < NPAGES :: PageDatumOk(s, p, m.pm.value[p]))
    && (forall pid: nat :: pid in m.vm <==> pid < NPROC && s.procs[pid].state != P_FREE)
    && (forall pid | pid in m.vm :: |m.vm[pid]| == VM_END)
    && (forall pid, v | pid in m.vm && 0 <= v < VM_END :: DatumOk(s, pid, v, m.vm[pid][v]))
  }

  lemma SnapshotIsOk(s: State, tag: Tags)
    requires Core(s, tag) && AllHaveTables(s.procs) && s.ticks < 0x1_0000_0000
    ensures CanDump(s) && SnapshotOk(s, Snapshot(s))
  {
    StateInRange(s, tag);
    hide Core, InRange, DatumOk, VirtualDatum, Lookup;
    var m := Snapshot(s);
    forall p | 0 <= p < NPAGES
      ensures PageDatumOk(s, p, m.pm.value[p])
    {
      RefcountSmall(s, tag, p);
    }
    forall pid, v | pid in m.vm && 0 <= v < VM_END
      ensures DatumOk(s, pid, v, m.vm[pid][v])
    {
      DatumIs(s, tag, pid, v);
    }
  }

  /** In every state that satisfies the invariant a dump reads back with owners modulo 256, the
      reference counts and the permissions of the state, and all four checks on it hold. */
  lemma SnapshotPasses(s: State, tag: Tags)
    requires Core(s, tag) && AllHaveTables(s.procs) && s.ticks < 0x1_0000_0000
    ensures CanDump(s) && SnapshotOk(s, Snapshot(s))
    ensures IsKernelIsolated(Snapshot(s)) && AreProcessesIsolated(Snapshot(s))
    ensures CheckOwnershipInvariant(Snapshot(s)) && CheckCGAAccessInvariant(Snapshot(s))
  {
    hide Core, InRange, Snapshot, AllHaveTables, SnapshotOk;
    SnapshotIsOk(s, tag);
    ChecksPass(s, Snapshot(s));
  }

  lemma ChecksPass(s: State, m: Instance)
    requires SnapshotOk(s, m)
    ensures IsKernelIsolated(m) && AreProcessesIsolated(m) && CheckOwnershipInvariant(m) && CheckCGAAccessInvariant(m)
  {
    hide DatumOk;
    forall pid, v | pid in m.vm && 0 <= v < |m.vm[pid]|
      ensures v < KERNEL_LIMIT ==> (m.vm[pid][v].ua != 0 <==> v == CGA_BLOCK)
      ensures v >= KERNEL_LIMIT ==>
        || (m.vm[pid][v].owner == 0 && m.vm[pid][v].ua == 0)
        || (m.vm[pid][v].owner == pid && m.vm[pid][v].ua != 0)
    {
      DatumSays(s, pid, v, m.vm[pid][v]);
    }
    hide SnapshotOk;
  }

  lemma DatumSays(s: State, pid: nat, v: nat, d: VMEntry)
    requires pid < NPROC && DatumOk(s, pid, v, d)
    ensures v < KERNEL_LIMIT ==> (d.ua != 0 <==> v == CGA_BLOCK)
    ensures v >= KERNEL_LIMIT ==> (d.owner == 0 && d.ua == 0) || (d.owner == pid && d.ua != 0)
  {
    hide Lookup;
  }

  /** So every dump of a run passes the checks that read it, as long as fork has left no process
      without a table; exception has made sure of that when it dumps. */
  lemma {:induction false} RunDumpsPass(s: State, tag: Tags, evs: seq<Event>)
    requires Inv(s, tag) && !s.status.Panicked? && RunOk(s, evs)
    requires !After(s, evs).status.Panicked? && CheckVirtualMemory(After(s, evs)) && After(s, evs).ticks < 0x1_0000_0000
    ensures var t := After(s, evs);
      && CanDump(t) && SnapshotOk(t, Snapshot(t))
      && IsKernelIsolated(Snapshot(t)) && AreProcessesIsolated(Snapshot(t))
      && CheckOwnershipInvariant(Snapshot(t)) && CheckCGAAccessInvariant(Snapshot(t))
  {
    hide After, CheckVirtualMemory, Snapshot, SnapshotOk, IsKernelIsolated, AreProcessesIsolated,
        CheckOwnershipInvariant, CheckCGAAccessInvariant;
    var tag' := RunKeepsInv(s, tag, evs);
    CheckPassesExactly(After(s, evs), tag');
    SnapshotPasses(After(s, evs), tag');
  }
}
