/** What the checks of parse_log.py find, on the dump of any state at all. */
module LogChecks {
  import opened Words
  import opened Paging
  import opened KernelState
  import opened Dumps
  import opened Timelines

  /** User code of an existing process can reach page v. */
  predicate UserReaches(s: State, pid: nat, v: nat) {
    && pid < 16 && s.procs[pid].state != P_FREE
    && var m := Lookup(s.store.mem, s.procs[pid].table, v); m.Mapped? && m.perm.u
  }

  /** Page v of an existing process is mapped to a page whose owner, as an unsigned byte, is this. */
  predicate OwnerAt(s: State, pid: nat, v: nat, owner: nat) {
    && pid < 16 && s.procs[pid].state != P_FREE
    && var m := Lookup(s.store.mem, s.procs[pid].table, v);
      m.Mapped? && m.pn < 512 && s.store.info[m.pn].owner % 256 == owner
  }

  /** One entry of a snapshot. */
  lemma EntryIs(s: State, pid: nat, v: nat)
    requires CanDump(s) && v < 768 && pid < 16 && s.procs[pid].state != P_FREE
    ensures var vm := Snapshot(s).vm;
      && pid in vm && |vm[pid]| == 768
      && (vm[pid][v].ua != 0 <==> UserReaches(s, pid, v))
      && (vm[pid][v].owner != 0 ==> OwnerAt(s, pid, v, vm[pid][v].owner))
      && (forall owner: nat | OwnerAt(s, pid, v, owner) :: vm[pid][v].owner == owner)
  {
    hide Lookup;
    assert InRange(s.store.mem, s.procs[pid].table);
  }

  lemma SnapshotProcesses(s: State)
    requires CanDump(s)
    ensures forall pid | pid in Snapshot(s).vm ::
      pid < 16 && s.procs[pid].state != P_FREE && |Snapshot(s).vm[pid]| == 768
  {
    hide Lookup, InRange;
  }

  lemma Entries(s: State)
    requires CanDump(s)
    ensures forall pid: nat, v: nat | v < 768 && pid < 16 && s.procs[pid].state != P_FREE ::
      && pid in Snapshot(s).vm && |Snapshot(s).vm[pid]| == 768
      && (Snapshot(s).vm[pid][v].ua != 0 <==> UserReaches(s, pid, v))
      && (Snapshot(s).vm[pid][v].owner != 0 ==> OwnerAt(s, pid, v, Snapshot(s).vm[pid][v].owner))
      && (forall owner: nat | OwnerAt(s, pid, v, owner) :: Snapshot(s).vm[pid][v].owner == owner)
    ensures forall pid | pid in Snapshot(s).vm ::
      pid < 16 && s.procs[pid].state != P_FREE && |Snapshot(s).vm[pid]| == 768
  {
    SnapshotProcesses(s);
    forall pid: nat, v: nat | v < 768 && pid < 16 && s.procs[pid].state != P_FREE
      ensures pid in Snapshot(s).vm && |Snapshot(s).vm[pid]| == 768
      ensures Snapshot(s).vm[pid][v].ua != 0 <==> UserReaches(s, pid, v)
      ensures Snapshot(s).vm[pid][v].owner != 0 ==> OwnerAt(s, pid, v, Snapshot(s).vm[pid][v].owner)
      ensures forall owner: nat | OwnerAt(s, pid, v, owner) :: Snapshot(s).vm[pid][v].owner == owner
    {
      EntryIs(s, pid, v);
    }
  }

  /** IsKernelIsolated holds of a dump exactly when user code of no process reaches any of the pages
      below 256 but the console, 184. */
  lemma KernelIsolatedExactly(s: State)
    requires CanDump(s)
    ensures IsKernelIsolated(Snapshot(s)) <==>
      forall pid: nat, v: nat | v < 256 && v != 184 :: !UserReaches(s, pid, v)
  {
    Entries(s);
    hide Snapshot, CanDump, Lookup, OwnerAt;
    if pid: nat, v: nat :| v < 256 && v != 184 && UserReaches(s, pid, v) {
      assert Snapshot(s).vm[pid][v].ua != 0;
    }
  }

  /** AreProcessesIsolated holds exactly when no process reaches, at a page from 256 on, a page of
      another: what it reaches there has its own number as owner, or 0. */
  lemma ProcessesIsolatedExactly(s: State)
    requires CanDump(s)
    ensures AreProcessesIsolated(Snapshot(s)) <==>
      forall pid: nat, v: nat, owner: nat | 256 <= v < 768 && UserReaches(s, pid, v) && OwnerAt(s, pid, v, owner) ::
        owner == 0 || owner == pid
  {
    Entries(s);
    hide Snapshot, CanDump, Lookup;
    if pid: nat, v: nat, owner: nat :|
      256 <= v < 768 && UserReaches(s, pid, v) && OwnerAt(s, pid, v, owner) && owner != 0 && owner != pid {
      assert Snapshot(s).vm[pid][v].ua != 0 && Snapshot(s).vm[pid][v].owner == owner;
    }
  }

  /** CheckOwnershipInvariant holds exactly when a process reaches every page of its own, other than one
      of owner 0, that is mapped at a page from 256 on. */
  lemma OwnershipExactly(s: State)
    requires CanDump(s)
    ensures CheckOwnershipInvariant(Snapshot(s)) <==>
      forall pid: nat, v: nat | 256 <= v < 768 && pid != 0 && OwnerAt(s, pid, v, pid) :: UserReaches(s, pid, v)
  {
    Entries(s);
    hide Snapshot, CanDump, Lookup;
    if pid: nat, v: nat :| 256 <= v < 768 && pid != 0 && OwnerAt(s, pid, v, pid) && !UserReaches(s, pid, v) {
      assert Snapshot(s).vm[pid][v].ua == 0 && Snapshot(s).vm[pid][v].owner == pid;
    }
  }

  /** CheckCGAAccessInvariant holds exactly when user code of every process reaches the console. */
  lemma CGAAccessExactly(s: State)
    requires CanDump(s)
    ensures CheckCGAAccessInvariant(Snapshot(s)) <==>
      forall pid: nat | pid < 16 && s.procs[pid].state != P_FREE :: UserReaches(s, pid, 184)
  {
    Entries(s);
    hide Snapshot, CanDump, Lookup, OwnerAt;
    if pid: nat :| pid < 16 && s.procs[pid].state != P_FREE && !UserReaches(s, pid, 184) {
      assert Snapshot(s).vm[pid][184].ua == 0;
    }
  }

  // ---- Snapshots that fail ----

  /** The snapshot of one process with one page mapped besides the console. */
  function OnePage(pid: nat, v: nat, d: VMEntry, console: VMEntry): (m: Instance)
    ensures m.vm.Keys == {pid} && |m.vm[pid]| == 768
    ensures forall i | 0 <= i < 768 ::
      m.vm[pid][i] == if i == v then d else if i == 184 then console else VMEntry(0, 0, 0, 0)
  {
    Instance(None, map[pid := seq(768, i => if i == v then d else if i == 184 then console else VMEntry(0, 0, 0, 0))])
  }

  lemma OnePageChecks(pid: nat, v: nat, d: VMEntry, console: VMEntry)
    requires v < 768 && v != 184
    ensures var m := OnePage(pid, v, d, console);
      && (IsKernelIsolated(m) <==> v >= 256 || d.ua == 0)
      && (AreProcessesIsolated(m) <==> v < 256 || d.owner == 0 || d.owner == pid || d.ua == 0)
      && (CheckOwnershipInvariant(m) <==> v < 256 || d.owner == 0 || d.owner != pid || d.ua != 0)
      && (CheckCGAAccessInvariant(m) <==> console.ua != 0)
  {
    var m := OnePage(pid, v, d, console);
    assert m.vm[pid][v] == d && m.vm[pid][184] == console;
    hide OnePage;
  }

  /** Each check fails on a snapshot on which the three others hold: a page behind the console open to
      user code; process 3 with a page of process 1, and process 1 with a page of process 3; a page of
      its own that it cannot use; a console closed to it. */
  lemma ChecksFail()
    ensures var console, closed := VMEntry(255, 1, 4, 7), VMEntry(255, 1, 0, 3);
      && (var m := OnePage(1, 200, console, console);
        !IsKernelIsolated(m) && AreProcessesIsolated(m) && CheckOwnershipInvariant(m) && CheckCGAAccessInvariant(m))
      && (var m := OnePage(3, 300, VMEntry(1, 1, 4, 7), console);
        IsKernelIsolated(m) && !AreProcessesIsolated(m) && CheckOwnershipInvariant(m) && CheckCGAAccessInvariant(m))
      && (var m := OnePage(1, 300, VMEntry(3, 1, 4, 7), console);
        IsKernelIsolated(m) && !AreProcessesIsolated(m) && CheckOwnershipInvariant(m) && CheckCGAAccessInvariant(m))
      && (var m := OnePage(3, 300, VMEntry(3, 1, 0, 3), console);
        IsKernelIsolated(m) && AreProcessesIsolated(m) && !CheckOwnershipInvariant(m) && CheckCGAAccessInvariant(m))
      && (var m := OnePage(3, 300, VMEntry(3, 1, 4, 7), closed);
        IsKernelIsolated(m) && AreProcessesIsolated(m) && CheckOwnershipInvariant(m) && !CheckCGAAccessInvariant(m))
  {
    hide OnePage, IsKernelIsolated, AreProcessesIsolated, CheckOwnershipInvariant, CheckCGAAccessInvariant;
    var console, closed := VMEntry(255, 1, 4, 7), VMEntry(255, 1, 0, 3);
    OnePageChecks(1, 200, console, console);
    OnePageChecks(3, 300, VMEntry(1, 1, 4, 7), console);
    OnePageChecks(1, 300, VMEntry(3, 1, 4, 7), console);
    OnePageChecks(3, 300, VMEntry(3, 1, 0, 3), console);
    OnePageChecks(3, 300, VMEntry(3, 1, 4, 7), closed);
  }
}
