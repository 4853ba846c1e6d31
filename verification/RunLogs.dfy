/** The log of a whole run, and what parse_log.py makes of it. */
module RunLogs {
  import opened Words
  import opened Pages
  import opened Paging
  import opened KernelState
  import opened Kernel
  import opened Invariant
  import opened Steps
  import opened Runs
  import opened Loader
  import opened Boot
  import opened Dumps
  import opened Timelines

  /** Timer interrupts a second. */
  const HZ := 100

  /** exception dumps memory before the timer interrupt of every HZ-th tick. */
  predicate DumpsAt(t: State, ev: Event) {
    t.status.Running? && IsTrap(ev, INT_TIMER) && t.ticks % HZ == 0
  }

  /** sys_page_alloc found no page. */
  predicate OutOfMemoryAt(t: State, ev: Event)
    requires t.current < NPROC
  {
    t.status.Running? && IsTrap(ev, INT_SYS_PAGE_ALLOC) && GetFree(t.store.info, t.procs[t.current].pid).pn == 0
  }

  /** What one event writes to the log. The registers it saves are in no dump. */
  function Logged(t: State, ev: Event): string
    requires DumpsAt(t, ev) ==> CanDump(t)
  {
    if DumpsAt(t, ev) then Dump(t)
    else if t.current < NPROC && OutOfMemoryAt(t, ev) then "Out of memory\n"
    else ""
  }

  /** An event that does not panic the machine logs a dump if it is a timer interrupt at a multiple of
      100 ticks, a line if it asks for a page and none has owner 0 and no reference, and nothing else. */
  lemma LoggedExactly(t: State, tag: Tags, ev: Event)
    requires Inv(t, tag) && t.status.Running? && (DumpsAt(t, ev) ==> CanDump(t))
    ensures var full := forall p | 0 <= p < 512 :: t.store.info[p].owner != 0 || t.store.info[p].refcount != 0;
      Logged(t, ev) ==
        if ev.Trap? && ev.regs.intno == 32 && t.ticks % 100 == 0 then Dump(t)
        else if ev.Trap? && ev.regs.intno == 51 && full then "Out of memory\n"
        else ""
  {
    hide Inv, Dump, GetFree, FreeCount, CanDump;
    RunsOn(t, tag);
    FreeCountExactly(t.store.info, t.procs[t.current].pid);
    NoFreePages(t.store.info);
    NoPageZero(t, tag);
  }

  lemma NoFreePages(info: Info)
    ensures FreePages(info, 0) == {} <==> forall p | 0 <= p < 512 :: info[p].owner != 0 || info[p].refcount != 0
  {
    forall p: nat | p < 512 && info[p].owner == 0 && info[p].refcount == 0
      ensures p in FreePages(info, 0)
    {
    }
    assert forall p | p in FreePages(info, 0) :: info[p].owner == 0 && info[p].refcount == 0;
  }

  lemma NoPageZero(t: State, tag: Tags)
    requires Inv(t, tag)
    ensures 0 !in FreePages(t.store.info, 0)
  {
  }

  /** Every state dumped in a run can be. */
  ghost predicate AllCanDump(s: State, evs: seq<Event>)
    decreases |evs|
  {
    evs != [] ==>
      var init, t := evs[..|evs| - 1], After(s, evs[..|evs| - 1]);
      AllCanDump(s, init) && (DumpsAt(t, evs[|evs| - 1]) ==> CanDump(t))
  }

  function RunLog(s: State, evs: seq<Event>): string
    requires AllCanDump(s, evs)
    decreases |evs|
  {
    if evs == [] then ""
    else RunLog(s, evs[..|evs| - 1]) + Logged(After(s, evs[..|evs| - 1]), evs[|evs| - 1])
  }

  /** The timeline a run's log should read back as: a snapshot of each state dumped, under its tick. */
  function Recording(s: State, evs: seq<Event>): Timeline
    requires AllCanDump(s, evs)
    decreases |evs|
  {
    if evs == [] then Timeline(map[], false) else
    var t, r := After(s, evs[..|evs| - 1]), Recording(s, evs[..|evs| - 1]);
    if DumpsAt(t, evs[|evs| - 1]) then r.(memData := r.memData[t.ticks := Snapshot(t)]) else r
  }

  function Timers(evs: seq<Event>): nat {
    if evs == [] then 0 else Timers(evs[..|evs| - 1]) + if IsTrap(evs[|evs| - 1], INT_TIMER) then 1 else 0
  }

  // ---- Ticks ----

  lemma StepTicks(s: State, ev: Event)
    requires !Step(s, ev).status.Panicked? && s.status.Running? && s.current < NPROC
    ensures Step(s, ev).ticks == if IsTrap(ev, INT_TIMER) then (s.ticks + 1) % 0x1_0000_0000 else s.ticks
  {
    hide CheckVirtualMemory, SetPagetableOk, NextRunnable, PageAlloc, Fork, Resume, Schedule;
    if ev.Trap? {
      var s1 := Saved(s, ev.regs);
      ResumeTicks(s1);
      ResumeTicks(PageAlloc(s1));
      ResumeTicks(Fork(s1));
      CallTicks(s1);
      ResumeTicks(SetRax(s1, s1.current, s1.procs[s1.current].pid % 0x1_0000_0000_0000_0000));
      ResumeTicks(s1.(ticks := (s1.ticks + 1) % 0x1_0000_0000));
      ResumeTicks(s1.(procs := s1.procs[s1.current := s1.procs[s1.current].(state := P_BROKEN)]));
    }
  }

  lemma ResumeTicks(s: State)
    requires s.current < NPROC
    ensures Resume(s).ticks == s.ticks && Schedule(s).ticks == s.ticks
  {
    hide SetPagetableOk, NextRunnable;
  }

  lemma CallTicks(s: State)
    requires s.current < NPROC
    ensures PageAlloc(s).ticks == s.ticks && Fork(s).ticks == s.ticks
  {
  }

  /** While the count does not wrap, ticks are the timer interrupts so far. */
  lemma {:induction false} RunTicks(s: State, tag: Tags, evs: seq<Event>)
    requires Inv(s, tag) && !s.status.Panicked? && RunOk(s, evs) && !After(s, evs).status.Panicked?
    requires s.ticks + Timers(evs) < 0x1_0000_0000
    ensures s.ticks <= After(s, evs).ticks <= s.ticks + Timers(evs)
    ensures evs != [] && After(s, evs[..|evs| - 1]).status.Running? && IsTrap(evs[|evs| - 1], INT_TIMER) ==>
      After(s, evs).ticks == After(s, evs[..|evs| - 1]).ticks + 1
    ensures evs != [] ==> After(s, evs[..|evs| - 1]).ticks <= After(s, evs).ticks
    decreases |evs|
  {
    hide Step, Inv, EventOk;
    if evs != [] {
      var init, ev := evs[..|evs| - 1], evs[|evs| - 1];
      RunningBefore(s, evs);
      RunTicks(s, tag, init);
      var tag1 := RunKeepsInv(s, tag, init);
      var t := After(s, init);
      if t.status.Running? {
        RunsOn(t, tag1);
        StepTicks(t, ev);
      } else {
        StandsStill(t, ev);
      }
    }
  }

  lemma StandsStill(s: State, ev: Event)
    requires !s.status.Running?
    ensures Step(s, ev) == s
  {
  }

  // ---- Every dump of a run ----

  /** A state that is dumped in a run that goes on passes all four checks. */
  lemma {:induction false} DumpedIsSound(s: State, tag: Tags, evs: seq<Event>, ev: Event)
    requires Inv(s, tag) && !s.status.Panicked? && RunOk(s, evs) && DumpsAt(After(s, evs), ev)
    requires !Step(After(s, evs), ev).status.Panicked? && After(s, evs).ticks < 0x1_0000_0000
    ensures CanDump(After(s, evs)) && PassesAll(After(s, evs))
  {
    hide Step, Inv, Core, Snapshot, IsKernelIsolated, AreProcessesIsolated, CheckOwnershipInvariant,
        CheckCGAAccessInvariant, SnapshotOk, AllHaveTables, CheckVirtualMemory, SetPagetableOk, CanDump;
    RunPanicsExactly(s, tag, evs, ev);
    var tag1 := RunKeepsInv(s, tag, evs);
    CoreParts(After(s, evs), tag1);
    SnapshotPasses(After(s, evs), tag1);
  }

  /** The dump of a state says what the state is, and the four checks hold on it. */
  ghost predicate PassesAll(t: State)
    requires CanDump(t)
  {
    && SnapshotOk(t, Snapshot(t)) && IsKernelIsolated(Snapshot(t)) && AreProcessesIsolated(Snapshot(t))
    && CheckOwnershipInvariant(Snapshot(t)) && CheckCGAAccessInvariant(Snapshot(t))
  }

  /** A line that starts with none of the labels adds nothing. */
  lemma OtherLine(r: Timeline, line: string)
    requires line != "" && line[0] != 'P' && line[0] != 'V'
    ensures AddLine(r, line) == Some(r)
  {
    assert "PM_DUMP"[0] == 'P' && "VM_DUMP"[0] == 'V' && "PANIC: Unexpected exception 52!"[0] == 'P';
    StartsOther(line, "PM_DUMP");
    StartsOther(line, "VM_DUMP");
    StartsOther(line, "PANIC: Unexpected exception 52!");
    hide StartsWith;
  }

  lemma StartsOther(line: string, prefix: string)
    requires line != "" && prefix != "" && line[0] != prefix[0]
    ensures !StartsWith(line, prefix)
  {
  }

  /** One event's part of the log, whatever follows. */
  lemma {:induction false} LoggedParses(r: Timeline, t: State, ev: Event, rest: string)
    requires DumpsAt(t, ev) ==> CanDump(t) && t.ticks !in r.memData
    ensures ReadLog(r, ReadLines(Logged(t, ev) + rest)) ==
      ReadLog(if DumpsAt(t, ev) then r.(memData := r.memData[t.ticks := Snapshot(t)]) else r, ReadLines(rest))
  {
    hide ReadLog, ReadLines, Dump, Snapshot, CanDump, AddLine, GetFree;
    if DumpsAt(t, ev) {
      DumpParses(r, t, rest);
    } else if t.current < NPROC && OutOfMemoryAt(t, ev) {
      var line := "Out of memory\n";
      assert line == "Out of memory" + "\n";
      LineOf("Out of memory", rest);
      OtherLine(r, line);
      ReadOne(r, line, ReadLines(rest));
    } else {
      assert Logged(t, ev) + rest == rest;
    }
  }

  /** The ticks recorded, and those to come: the next dump's tick is a new one. */
  ghost predicate RecordingOk(s: State, evs: seq<Event>)
    requires AllCanDump(s, evs)
  {
    && !Recording(s, evs).panic
    && (forall tick | tick in Recording(s, evs).memData :: tick < After(s, evs).ticks)
    && (forall k | 0 <= k < |evs| && DumpsAt(After(s, evs[..k]), evs[k]) :: DumpRecorded(s, evs, k))
  }

  /** The k-th event dumped its state; the dump is recorded under its tick and passes the checks. */
  ghost predicate DumpRecorded(s: State, evs: seq<Event>, k: nat)
    requires AllCanDump(s, evs) && k < |evs|
  {
    var t, r := After(s, evs[..k]), Recording(s, evs);
    CanDump(t) && t.ticks in r.memData && r.memData[t.ticks] == Snapshot(t) && PassesAll(t)
  }

  /** The log of every run parses: whatever a machine logs before it panics is read without an
      exception, as exactly the snapshots of the states dumped, each under a tick of its own, and on
      each of them IsKernelIsolated, AreProcessesIsolated, CheckOwnershipInvariant and
      CheckCGAAccessInvariant hold. */
  lemma {:induction false} RunLogParses(s: State, tag: Tags, evs: seq<Event>, rest: string)
    requires Inv(s, tag) && !s.status.Panicked? && RunOk(s, evs) && !After(s, evs).status.Panicked?
    requires s.ticks + Timers(evs) < 0x1_0000_0000
    ensures AllCanDump(s, evs) && RecordingOk(s, evs)
    ensures ReadLog(Timeline(map[], false), ReadLines(RunLog(s, evs) + rest)) ==
      ReadLog(Recording(s, evs), ReadLines(rest))
    decreases |evs|
  {
    hide Inv, Step, EventOk, ReadLog, ReadLines, Logged, Snapshot, CanDump, PassesAll;
    if evs == [] {
      assert RunLog(s, evs) + rest == rest;
    } else {
      var init, ev := evs[..|evs| - 1], evs[|evs| - 1];
      var t := After(s, init);
      RunningBefore(s, evs);
      RunTicks(s, tag, init);
      RunTicks(s, tag, evs);
      if DumpsAt(t, ev) {
        DumpedIsSound(s, tag, init, ev);
      }
      RunLogParses(s, tag, init, Logged(t, ev) + rest);
      assert RunLog(s, evs) + rest == RunLog(s, init) + (Logged(t, ev) + rest);
      LoggedParses(Recording(s, init), t, ev, rest);
      RecordsOneMore(s, evs);
    }
  }

  lemma {:induction false} RecordsOneMore(s: State, evs: seq<Event>)
    requires evs != [] && AllCanDump(s, evs) && RecordingOk(s, evs[..|evs| - 1])
    requires var t, s' := After(s, evs[..|evs| - 1]), After(s, evs);
      && t.ticks <= s'.ticks
      && (DumpsAt(t, evs[|evs| - 1]) ==> t.ticks < s'.ticks && CanDump(t) && PassesAll(t))
    ensures RecordingOk(s, evs)
  {
    hide Snapshot, CanDump, PassesAll, After;
    var init := evs[..|evs| - 1];
    forall k | 0 <= k < |evs| && DumpsAt(After(s, evs[..k]), evs[k])
      ensures DumpRecorded(s, evs, k)
    {
      if k < |init| {
        assert init[..k] == evs[..k];
        assert DumpRecorded(s, init, k);
      }
    }
  }

  // ---- Which ticks are recorded ----

  /** The k-th event is a timer interrupt that finds the machine running at this tick. */
  predicate TimerAt(s: State, evs: seq<Event>, k: nat, tick: nat)
    requires k < |evs|
  {
    var t := After(s, evs[..k]);
    t.status.Running? && t.ticks == tick && evs[k].Trap? && evs[k].regs.intno == 32
  }

  /** A tick is in the log of a run exactly when it is a multiple of 100 and a timer interrupt found
      the machine running at it. */
  lemma {:induction false} RecordedTicks(s: State, evs: seq<Event>, tick: nat)
    requires AllCanDump(s, evs)
    ensures tick in Recording(s, evs).memData <==>
      tick % 100 == 0 && exists k :: 0 <= k < |evs| && TimerAt(s, evs, k, tick)
    decreases |evs|
  {
    hide After, Snapshot, CanDump;
    if evs != [] {
      var init, n := evs[..|evs| - 1], |evs| - 1;
      RecordedTicks(s, init, tick);
      assert evs[..n] == init;
      forall k | 0 <= k < n
        ensures TimerAt(s, evs, k, tick) == TimerAt(s, init, k, tick)
      {
        assert init[..k] == evs[..k];
      }
      hide TimerAt;
      if k :| 0 <= k < |init| && TimerAt(s, init, k, tick) {
        assert TimerAt(s, evs, k, tick);
      }
      assert DumpsAt(After(s, init), evs[n]) && After(s, init).ticks == tick <==>
        TimerAt(s, evs, n, tick) && tick % 100 == 0;
    }
  }

  /** Timer interrupts that find the machine running. */
  function RunningTimers(s: State, evs: seq<Event>): nat
    decreases |evs|
  {
    if evs == [] then 0 else
    var t, ev := After(s, evs[..|evs| - 1]), evs[|evs| - 1];
    RunningTimers(s, evs[..|evs| - 1])
    + if t.status.Running? && ev.Trap? && ev.regs.intno == 32 then 1 else 0
  }

  /** Before ticks wrap, they count those interrupts, and each tick passed was found by one. */
  lemma {:induction false} TicksPassed(s: State, tag: Tags, evs: seq<Event>, tick: nat)
    requires Inv(s, tag) && !s.status.Panicked? && RunOk(s, evs) && !After(s, evs).status.Panicked?
    requires s.ticks + Timers(evs) < 0x1_0000_0000
    ensures After(s, evs).ticks == s.ticks + RunningTimers(s, evs)
    ensures (exists k :: 0 <= k < |evs| && TimerAt(s, evs, k, tick)) <==> s.ticks <= tick < After(s, evs).ticks
    decreases |evs|
  {
    hide Step, Inv, EventOk;
    if evs != [] {
      var init, n := evs[..|evs| - 1], |evs| - 1;
      var t := After(s, init);
      RunningBefore(s, evs);
      RunTicks(s, tag, init);
      TicksPassed(s, tag, init, tick);
      var tag1 := RunKeepsInv(s, tag, init);
      if t.status.Running? {
        RunsOn(t, tag1);
        StepTicks(t, evs[n]);
      } else {
        StandsStill(t, evs[n]);
      }
      assert evs[..n] == init;
      forall k | 0 <= k < n
        ensures TimerAt(s, evs, k, tick) == TimerAt(s, init, k, tick)
      {
        assert init[..k] == evs[..k];
      }
      assert TimerAt(s, evs, n, tick) <==>
        t.status.Running? && t.ticks == tick && evs[n].Trap? && evs[n].regs.intno == 32;
      hide TimerAt, After;
      if k :| 0 <= k < |init| && TimerAt(s, init, k, tick) {
        assert TimerAt(s, evs, k, tick);
      }
    }
  }

  /** From power-on: after T timer interrupts that found the machine running, the log has exactly the
      ticks 0, 100, 200 and so on below T. */
  lemma {:induction false} BootedTicks(mem: Memory, l: Layout, programs: seq<Program>, evs: seq<Event>, tick: nat)
    requires ValidLayout(l) && 1 <= |programs| < NPROC && ValidPrograms(programs)
    requires var s := Start(mem, l, programs);
      !s.status.Panicked? && RunOk(s, evs) && !After(s, evs).status.Panicked? && Timers(evs) < 0x1_0000_0000
    ensures var s := Start(mem, l, programs);
      && s.ticks == 0 && AllCanDump(s, evs)
      && (tick in Recording(s, evs).memData <==> tick % 100 == 0 && tick < RunningTimers(s, evs))
  {
    hide Start, After, Inv, RunOk, AllCanDump, Recording, RecordingOk, ReadLog, ReadLines, RunLog, RunningTimers,
        TimerAt, ImagesFit, AllPrepared, FreeCount;
    var s := Start(mem, l, programs);
    StartTicks(mem, l, programs);
    var tag := KernelStarts(mem, l, programs);
    LogReadsBack(s, tag, evs);
    RecordedTicks(s, evs, tick);
    TicksPassed(s, tag, evs, tick);
  }

  /** parse_log.py on the log of a whole run. */
  lemma {:induction false} LogReadsBack(s: State, tag: Tags, evs: seq<Event>)
    requires Inv(s, tag) && !s.status.Panicked? && RunOk(s, evs) && !After(s, evs).status.Panicked?
    requires s.ticks + Timers(evs) < 0x1_0000_0000
    ensures AllCanDump(s, evs) && RecordingOk(s, evs)
    ensures ReadLog(Timeline(map[], false), ReadLines(RunLog(s, evs))) == Some(Recording(s, evs))
  {
    hide After, RecordingOk, AllCanDump, Recording, RunLog, RunOk;
    RunLogParses(s, tag, evs, "");
    assert RunLog(s, evs) + "" == RunLog(s, evs);
    NoLines();
  }
}
