/** The kernel's code on its own data: physical memory, pageinfo and the process table as arrays that
    are written in place, each method proved to do what the functions of the other modules say. */
module Machines {
  import opened Words
  import opened Pages
  import opened Paging
  import opened MapRanges
  import opened AddressSpaces
  import opened Forking
  import opened KernelState
  import opened Kernel
  import opened Invariant
  import opened Bytes
  import opened Loader
  import opened Boot
  import opened Printer
  import opened Dumps

  /** The assertions on virtual_memory_map's address arguments that Map does not make itself. */
  predicate MapArgumentsOk(va: nat, pa: nat, sz: nat, perm: Flags) {
    && va % PAGE_SIZE == 0 && sz % PAGE_SIZE == 0 && va + sz <= 0x1_0000_0000_0000_0000
    && (perm.p ==> pa % PAGE_SIZE == 0)
  }

  class Machine {
    const layout: Layout
    const mem: array<Page>
    const pageinfo: array<PageInfo>
    const processes: array<Proc>
    var current: nat
    var pagetableOwner: int
    var ticks: nat
    var status: Status
    /** What has been written to the parallel port. */
    var log: string

    ghost predicate Shape() {
      && mem.Length == NPAGES && pageinfo.Length == NPAGES && processes.Length == NPROC
    }

    ghost predicate Valid()
      reads this
    {
      Shape() && current < NPROC
    }

    ghost function TheStore(): Store
      requires Shape()
      reads mem, pageinfo
    {
      Store(mem[..], pageinfo[..])
    }

    ghost function TheState(): State
      requires Shape()
      reads this, mem, pageinfo, processes
    {
      State(layout, TheStore(), processes[..], current, ticks, status)
    }

    /** The allocator argument of virtual_memory_map: NULL, or pagetable_alloc and its global. */
    ghost function Allocator(use: bool): Option<int>
      reads this
    {
      if use then Some(pagetableOwner) else None
    }

    // ---- The log ----

    method LogPrintf(f: string, args: seq<Arg>)
      requires CString(f) && CArgs(args)
      modifies this`log
      ensures log == old(log) + Printed(f, args)
    {
      log := log + Printed(f, args);
    }

    // ---- The allocator ----

    method AssignPhysicalPage(addr: nat, owner: int) returns (r: int)
      requires Shape()
      modifies pageinfo
      ensures r == 0 || r == -1
      ensures r == 0 <==> addr % PAGE_SIZE == 0 && Assignable(old(pageinfo[..]), addr / PAGE_SIZE)
      ensures pageinfo[..] ==
        if r == 0 then old(pageinfo[..])[addr / PAGE_SIZE := PageInfo(owner, 1)] else old(pageinfo[..])
    {
      if addr % PAGE_SIZE != 0 || addr >= NPAGES * PAGE_SIZE || pageinfo[addr / PAGE_SIZE].refcount != 0 {
        return -1;
      }
      pageinfo[addr / PAGE_SIZE] := PageInfo(owner, 1);
      return 0;
    }

    method GetFreeAddr(owner: int) returns (addr: int)
      requires Shape()
      modifies pageinfo
      ensures addr == GetFree(old(pageinfo[..]), owner).pn * PAGE_SIZE
      ensures pageinfo[..] == GetFree(old(pageinfo[..]), owner).info
    {
      addr := 0;
      while addr < NPAGES * PAGE_SIZE
        invariant addr % PAGE_SIZE == 0 && 0 <= addr <= NPAGES * PAGE_SIZE
        invariant pageinfo[..] == old(pageinfo[..])
        invariant FirstFree(old(pageinfo[..]), 0) == FirstFree(old(pageinfo[..]), addr / PAGE_SIZE)
      {
        var pn := addr / PAGE_SIZE;
        if pageinfo[pn].refcount == 0 && pageinfo[pn].owner == FREE {
          var r := AssignPhysicalPage(addr, owner);
          return if r == 0 then addr else 0;
        }
        addr := addr + PAGE_SIZE;
      }
      addr := 0;
    }

    method PagetableAlloc() returns (pn: nat)
      requires Shape()
      modifies mem, pageinfo
      ensures pn == AllocTable(old(TheStore()), pagetableOwner).pn
      ensures TheStore() == AllocTable(old(TheStore()), pagetableOwner).st
    {
      var addr := GetFreeAddr(pagetableOwner);
      pn := addr / PAGE_SIZE;
      if pn != 0 {
        mem[pn] := ZeroPage();
      }
    }

    // ---- Page tables ----

    method LookupL4Pagetable(root: PageNumber, va: nat, perm: Flags, useAllocator: bool) returns (w: Walk)
      requires Shape()
      modifies mem, pageinfo
      ensures var r := WalkFrom(old(TheStore()), root, 0, Canon(va / PAGE_SIZE), perm, Allocator(useAllocator));
        w == r.walk && TheStore() == r.st
    {
      ghost var v := Canon(va / PAGE_SIZE);
      ghost var r := WalkFrom(TheStore(), root, 0, v, perm, Allocator(useAllocator));
      var pt: PageNumber := root;
      var i := 0;
      while i <= 2
        invariant i <= 3
        invariant WalkFrom(TheStore(), pt, i, v, perm, Allocator(useAllocator)) == r
      {
        var j := PageIndex(va, i);
        PageIndexIsIndex(va, i);
        var pe := mem[pt][j];
        if !pe.flags.p {
          if !perm.p || !useAllocator {
            return NoTable;
          }
          var q := PagetableAlloc();
          if q == 0 {
            return NoTable;
          }
          pe := Word(q, PWU);
          mem[pt] := mem[pt][j := pe];
          mem[q] := ZeroPage();
        }
        if pe.frame >= NPAGES || (perm.w && !pe.flags.w) || (perm.u && !pe.flags.u) {
          return BadEntry;
        }
        pt := pe.frame;
        i := i + 1;
      }
      return Leaf(pt);
    }

    method VirtualMemoryMap(root: PageNumber, va0: nat, pa0: nat, sz0: nat, perm: Flags,
        useAllocator: bool) returns (r: Outcome)
      requires Shape()
      modifies mem, pageinfo
      ensures !MapArgumentsOk(va0, pa0, sz0, perm) ==> r == Panic && TheStore() == old(TheStore())
      ensures MapArgumentsOk(va0, pa0, sz0, perm) ==>
        MapResult(TheStore(), r) ==
          Map(old(TheStore()), root, va0 / PAGE_SIZE, pa0 / PAGE_SIZE, sz0 / PAGE_SIZE, perm, Allocator(useAllocator))
    {
      hide WalkFrom, Index, Group;
      if va0 % PAGE_SIZE != 0 || sz0 % PAGE_SIZE != 0 || va0 + sz0 > 0x1_0000_0000_0000_0000 {
        return Panic;
      }
      if perm.p && (pa0 % PAGE_SIZE != 0 || pa0 + sz0 > NPAGES * PAGE_SIZE) {
        return Panic;
      }
      var va: nat, pa: nat, sz: nat := va0, pa0, sz0;
      var last := -1;
      var l4: Option<PageNumber> := None;
      ghost var whole := MapLoop(TheStore(), root, va / PAGE_SIZE, pa / PAGE_SIZE, sz / PAGE_SIZE, perm,
          Allocator(useAllocator), last, l4);
      while sz != 0
        invariant va % PAGE_SIZE == 0 && sz % PAGE_SIZE == 0
            && (perm.p ==> pa % PAGE_SIZE == 0 && pa + sz <= NPAGES * PAGE_SIZE)
        invariant MapLoop(TheStore(), root, va / PAGE_SIZE, pa / PAGE_SIZE, sz / PAGE_SIZE, perm,
            Allocator(useAllocator), last, l4) == whole
        decreases sz
      {
        var cur := ToInt32(va / 0x20_0000);
        GroupOfAddress(va);
        if cur != last {
          var w := LookupL4Pagetable(root, va, perm, useAllocator);
          if w.BadEntry? {
            return Panic;
          }
          l4 := if w.Leaf? then Some(w.pt) else None;
          last := cur;
        }
        if l4.Some? {
          PageIndexIsIndex(va, 3);
          CanonIndex(va / PAGE_SIZE);
          var e := Entry(pa / PAGE_SIZE, perm);
          mem[l4.value] := mem[l4.value][PageIndex(va, 3) := e];
        } else if perm.p {
          return Failed;
        }
        NextPage(va);
        NextPage(pa);
        va, pa, sz := va + PAGE_SIZE, pa + PAGE_SIZE, sz - PAGE_SIZE;
      }
      return Done;
    }

    method VirtualMemoryLookup(root: nat, va: nat) returns (m: Mapping)
      requires Shape()
      ensures m == Lookup(mem[..], root, Canon(va / PAGE_SIZE))
    {
      ghost var v := Canon(va / PAGE_SIZE);
      var pt: nat, pe, perms := root, ZERO, PWU;
      var i: nat := 0;
      while i <= 3 && perms.p
        invariant i <= 4
        invariant i <= 3 ==> perms.p ==> LookupFrom(mem[..], pt, i, v, perms) == Lookup(mem[..], root, v)
        invariant !perms.p ==> Lookup(mem[..], root, v) == Unmapped
        invariant i == 4 && perms.p ==> Lookup(mem[..], root, v) == Mapped(pe.frame, perms)
      {
        PageIndexIsIndex(va, i);
        pe := if pt < NPAGES then mem[pt][PageIndex(va, i)] else ZERO;
        perms := And(perms, pe.flags);
        pt := pe.frame;
        i := i + 1;
      }
      return if perms.p then Mapped(pe.frame, perms) else Unmapped;
    }

    method CopyPagetable(src: nat, owner: int) returns (root: PageNumber, panicked: bool)
      requires Shape()
      modifies this`pagetableOwner, mem, pageinfo
      ensures var r := CopyTable(old(TheStore()), src, owner);
        TheStore() == r.st && root == r.root && panicked == r.panicked
      ensures pagetableOwner == owner
    {
      hide Map, Lookup, MapArgumentsOk;
      pagetableOwner := owner;
      root := PagetableAlloc();
      if root == 0 {
        return 0, false;
      }
      ghost var whole := CopyLoop(TheStore(), src, root, 0, owner);
      var va: nat := 0;
      while va < PROC_START * PAGE_SIZE
        invariant va % PAGE_SIZE == 0 && va <= PROC_START * PAGE_SIZE && pagetableOwner == owner
        invariant CopyLoop(TheStore(), src, root, va / PAGE_SIZE, owner) == whole
      {
        var m := VirtualMemoryLookup(src, va);
        LowPage(va);
        if m.Mapped? {
          PageArguments(va, m.pn, m.perm);
          var r := VirtualMemoryMap(root, va, m.pn * PAGE_SIZE, PAGE_SIZE, m.perm, true);
          if !r.Done? {
            return root, true;
          }
        }
        va := va + PAGE_SIZE;
      }
      return root, false;
    }

    // ---- fork ----

    method SetReturn(pid: nat, rax: Word64)
      requires Valid() && pid < NPROC
      modifies processes
      ensures TheState() == SetRax(old(TheState()), pid, rax)
    {
      processes[pid] := processes[pid].(regs := processes[pid].regs.(rax := rax));
    }

    /** fork's loop over the user range, once the child has its table. */
    method CopyUserPages(src: nat, dst: PageNumber, child: nat) returns (r: Outcome)
      requires Shape() && pagetableOwner == child
      modifies mem, pageinfo
      ensures MapResult(TheStore(), r) == ForkLoop(old(TheStore()), src, dst, PROC_START, child)
    {
      hide ForkPage;
      ghost var whole := ForkLoop(TheStore(), src, dst, PROC_START, child);
      var va: nat := PROC_START * PAGE_SIZE;
      while va < VM_END * PAGE_SIZE
        invariant va % PAGE_SIZE == 0 && va <= VM_END * PAGE_SIZE
        invariant ForkLoop(TheStore(), src, dst, va / PAGE_SIZE, child) == whole
      {
        LowPage(va);
        r := CopyUserPage(src, dst, va, child);
        if !r.Done? {
          return;
        }
        va := va + PAGE_SIZE;
      }
      return Done;
    }

    method CopyUserPage(src: nat, dst: PageNumber, va: nat, child: nat) returns (r: Outcome)
      requires Shape() && pagetableOwner == child && va % PAGE_SIZE == 0 && va < VM_END * PAGE_SIZE
      modifies mem, pageinfo
      ensures MapResult(TheStore(), r) == ForkPage(old(TheStore()), src, dst, va / PAGE_SIZE, child)
    {
      hide Map, Lookup, MapArgumentsOk, GetFree;
      LowPage(va);
      var m := VirtualMemoryLookup(src, va);
      if !Writable(m) {
        return Done;
      }
      var newPa := GetFreeAddr(child);
      if newPa == 0 {
        return Failed;
      }
      var from, to := m.pn, newPa / PAGE_SIZE;
      var content := if from < NPAGES then mem[from] else ZeroPage();
      MemcpyPage(to, content);
      PageArguments(va, to, m.perm);
      r := VirtualMemoryMap(dst, va, newPa, PAGE_SIZE, m.perm, true);
    }

    /** memcpy of one page, word by word; the pages are distinct or the same, never overlapping. */
    method MemcpyPage(to: nat, content: Page)
      requires Shape() && to < NPAGES
      modifies mem
      ensures mem[..] == old(mem[..])[to := content]
    {
      ghost var was := mem[..];
      var i := 0;
      while i < NENTRIES
        invariant 0 <= i <= NENTRIES
        invariant forall p | 0 <= p < NPAGES && p != to :: mem[p] == was[p]
        invariant mem[to][..i] == content[..i]
      {
        mem[to] := mem[to][i := content[i]];
        i := i + 1;
      }
      assert mem[to] == content;
      assert mem[..] == was[to := content];
    }

    method Fork()
      requires Valid() && processes[current].state != P_FREE
      modifies this`pagetableOwner, this`status, mem, pageinfo, processes
      ensures TheState() == Kernel.Fork(old(TheState()))
    {
      var i := 1;
      while i < NPROC && processes[i].state != P_FREE
        invariant 1 <= i <= NPROC
        invariant FreeSlot(processes[..], 1) == FreeSlot(processes[..], i)
      {
        i := i + 1;
      }
      if i == NPROC {
        SetReturn(current, FAILED);
        return;
      }
      ForkInto(i);
    }

    method ForkInto(i: nat)
      requires Valid() && processes[current].state != P_FREE && 1 <= i < NPROC
      requires i == FreeSlot(processes[..], 1)
      modifies this`pagetableOwner, this`status, mem, pageinfo, processes
      ensures TheState() == Kernel.Fork(old(TheState()))
    {
      hide CopyTable, ForkLoop, FreeSlot;
      var src := processes[current].table;
      processes[i] := Proc(i, processes[current].regs, P_RUNNABLE, processes[i].table);
      var root, panicked := CopyPagetable(src, i);
      processes[i] := processes[i].(table := root);
      if panicked {
        status := Panicked;
      } else if root == 0 {
        SetReturn(current, FAILED);
      } else {
        var r := CopyUserPages(src, root, i);
        if r.Panic? {
          status := Panicked;
        } else if r.Failed? {
          SetReturn(current, FAILED);
        } else {
          SetReturn(current, i);
          SetReturn(i, 0);
        }
      }
    }

    // ---- Checks ----

    method SetPagetable(table: nat) returns (ok: bool)
      requires Shape()
      ensures ok == SetPagetableOk(mem[..], layout, table)
    {
      ok := MapsAddress(table, layout.handler, layout.handler);
      if ok {
        ok := MapsAddress(layout.kpt, table * PAGE_SIZE, table * PAGE_SIZE);
      }
      if ok {
        ok := MapsAddress(table, layout.kpt * PAGE_SIZE, layout.kpt * PAGE_SIZE);
      }
      if ok {
        ok := MapsAddress(table, layout.mapCode, layout.mapCode);
      }
    }

    method MapsAddress(table: nat, va: nat, pa: nat) returns (ok: bool)
      requires Shape()
      ensures ok <==> LookupAddress(mem[..], table, va) == Some(pa)
    {
      var m := VirtualMemoryLookup(table, va);
      return m.Mapped? && m.pn * PAGE_SIZE + va % PAGE_SIZE == pa;
    }

    method CheckPageTableMappings(table: nat) returns (ok: bool)
      requires Shape()
      ensures ok == CheckMappings(mem[..], layout, table)
    {
      hide Lookup;
      var v: nat := KERNEL_START;
      while v * PAGE_SIZE < layout.end
        invariant CheckKernelRange(mem[..], layout, table, KERNEL_START) == CheckKernelRange(mem[..], layout, table, v)
        decreases layout.end - v * PAGE_SIZE
      {
        var m := VirtualMemoryLookup(table, v * PAGE_SIZE);
        assert v * PAGE_SIZE / PAGE_SIZE == v;
        if !m.Mapped? || m.pn != v || (v * PAGE_SIZE >= layout.startData && !m.perm.w) {
          return false;
        }
        v := v + 1;
      }
      var m := VirtualMemoryLookup(table, KERNEL_STACK * PAGE_SIZE);
      assert Canon(KERNEL_STACK * PAGE_SIZE / PAGE_SIZE) == KERNEL_STACK;
      return m.Mapped? && m.pn == KERNEL_STACK && m.perm.w;
    }

    method CheckPageTableOwnershipLevel(pt: nat, level: nat, owner: int, refcount: int) returns (ok: bool)
      requires Shape() && level <= 3
      ensures ok == CheckLevel(TheStore(), pt, level, owner, refcount)
      decreases 3 - level
    {
      var pn := ToInt32(pt);
      if pn < 0 || pn >= NPAGES || pageinfo[pn] != PageInfo(owner, refcount) {
        return false;
      }
      if level < 3 {
        var i := 0;
        while i < NENTRIES
          invariant 0 <= i <= NENTRIES
          invariant CheckEntries(TheStore(), pt, level, owner, 0) == CheckEntries(TheStore(), pt, level, owner, i)
        {
          var pe := if pt < NPAGES then mem[pt][i] else ZERO;
          if pe != ZERO {
            var below := CheckPageTableOwnershipLevel(pe.frame, level + 1, owner, 1);
            if !below {
              return false;
            }
          }
          i := i + 1;
        }
      }
      return true;
    }

    method CheckVirtualMemory() returns (ok: bool)
      requires Valid()
      ensures ok == KernelState.CheckVirtualMemory(TheState())
    {
      hide CheckMappings, CheckLevel;
      if processes[0].state != P_FREE {
        return false;
      }
      ok := CheckPageTableMappings(layout.kpt);
      if !ok {
        return false;
      }
      var users := KernelTableReferences();
      ok := CheckPageTableOwnershipLevel(layout.kpt, 0, KERNEL, 1 + users);
      if !ok {
        return false;
      }
      var pid := 0;
      while pid < NPROC
        invariant 0 <= pid <= NPROC
        invariant forall i | 0 <= i < pid :: CheckProc(TheState(), i)
      {
        ok := CheckProcess(pid);
        if !ok {
          return false;
        }
        pid := pid + 1;
      }
      var pn := 0;
      while pn < NPAGES
        invariant 0 <= pn <= NPAGES
        invariant forall p | 0 <= p < pn :: CheckOwner(TheState(), p)
      {
        if pageinfo[pn].refcount > 0 && pageinfo[pn].owner >= 0 {
          if pageinfo[pn].owner >= NPROC || processes[pageinfo[pn].owner].state == P_FREE {
            assert !CheckOwner(TheState(), pn);
            return false;
          }
        }
        pn := pn + 1;
      }
      return true;
    }

    method KernelTableReferences() returns (n: nat)
      requires Valid()
      ensures n == KernelTableUsers(TheState(), 0)
    {
      n := 0;
      var pid := 0;
      while pid < NPROC
        invariant 0 <= pid <= NPROC
        invariant n + KernelTableUsers(TheState(), pid) == KernelTableUsers(TheState(), 0)
      {
        if processes[pid].state != P_FREE && processes[pid].table == layout.kpt {
          n := n + 1;
        }
        pid := pid + 1;
      }
    }

    method CheckProcess(pid: nat) returns (ok: bool)
      requires Valid() && pid < NPROC
      ensures ok == CheckProc(TheState(), pid)
    {
      ok := true;
      if processes[pid].state != P_FREE && processes[pid].table != layout.kpt {
        ok := CheckPageTableMappings(processes[pid].table);
        if ok {
          ok := CheckPageTableOwnershipLevel(processes[pid].table, 0, pid, 1);
        }
      }
    }

    // ---- run, schedule, exception ----

    method Run(pid: nat)
      requires Valid() && pid < NPROC
      modifies this`current, this`status
      ensures TheState() == Kernel.Run(old(TheState()), pid)
    {
      var runnable := processes[pid].state == P_RUNNABLE;
      current := pid;
      var ok := SetPagetable(processes[pid].table);
      status := if runnable && ok then Running else Panicked;
    }

    /** The loop stops after one full turn without a runnable process: nothing can change any more,
        so the kernel would turn for ever. */
    method Schedule()
      requires Valid()
      modifies this`current, this`status
      ensures TheState() == Kernel.Schedule(old(TheState()))
    {
      var pid: nat := processes[current].pid;
      var n: nat := NPROC;
      while n > 0
        invariant 0 <= n <= NPROC
        invariant NextRunnable(processes[..], processes[current].pid, NPROC) == NextRunnable(processes[..], pid, n)
        invariant TheState() == old(TheState())
      {
        pid := (pid + 1) % NPROC;
        if processes[pid].state == P_RUNNABLE {
          Run(pid);
          return;
        }
        n := n - 1;
      }
      status := Spinning;
    }

    method Resume()
      requires Valid()
      modifies this`current, this`status
      ensures TheState() == Kernel.Resume(old(TheState()))
    {
      if status.Panicked? {
        return;
      }
      if processes[current].state == P_RUNNABLE {
        Run(current);
      } else {
        Schedule();
      }
    }

    method PageAlloc()
      requires Valid()
      modifies this`pagetableOwner, this`status, this`log, mem, pageinfo, processes
      ensures TheState() == Kernel.PageAlloc(old(TheState()))
    {
      hide Map, GetFree;
      var p := processes[current];
      var pa := GetFreeAddr(p.pid);
      pagetableOwner := p.pid;
      if pa == 0 {
        SetReturn(current, FAILED);
        LogPrintf("Out of memory\n", []);
        return;
      }
      var r := VirtualMemoryMap(p.table, p.regs.rdi, pa, PAGE_SIZE, PWU, true);
      if r.Panic? {
        status := Panicked;
      } else {
        SetReturn(current, if r.Done? then 0 else FAILED);
      }
    }

    method Exception(regs: Registers)
      requires Valid() && processes[current].state != P_FREE
      modifies this, mem, pageinfo, processes
      ensures TheState() == Kernel.Exception(old(TheState()), regs)
    {
      hide SetPagetableOk, KernelState.CheckVirtualMemory, Kernel.Fork, Kernel.PageAlloc, Kernel.Resume,
          Kernel.Schedule;
      processes[current] := processes[current].(regs := regs);
      var ok := SetPagetable(layout.kpt);
      if ok && (regs.intno != INT_PAGEFAULT || UserFault(regs.err)) {
        ok := CheckVirtualMemory();
      }
      if !ok {
        status := Panicked;
        return;
      }
      Dispatch(regs);
    }

    method Dispatch(regs: Registers)
      requires Valid() && processes[current].state != P_FREE
      modifies this, mem, pageinfo, processes
      ensures TheState() == Kernel.Dispatch(old(TheState()), regs)
    {
      hide Kernel.Fork, Kernel.PageAlloc, Kernel.Resume, Kernel.Schedule;
      if regs.intno == INT_SYS_GETPID {
        SetReturn(current, processes[current].pid % 0x1_0000_0000_0000_0000);
        Resume();
      } else if regs.intno == INT_SYS_YIELD {
        Schedule();
      } else if regs.intno == INT_SYS_PAGE_ALLOC {
        PageAlloc();
        Resume();
      } else if regs.intno == INT_SYS_FORK {
        Fork();
        Resume();
      } else if regs.intno == INT_TIMER {
        ticks := (ticks + 1) % 0x1_0000_0000;
        Schedule();
      } else if regs.intno == INT_PAGEFAULT && UserFault(regs.err) {
        processes[current] := processes[current].(state := P_BROKEN);
        Resume();
      } else {
        status := Panicked;
      }
    }

    method PageinfoInit()
      requires Shape()
      modifies pageinfo
      ensures forall p | 0 <= p < NPAGES ::
        pageinfo[p] == PageInfo(InitialOwner(layout, p), if InitialOwner(layout, p) == FREE then 0 else 1)
      ensures forall p | p == 0 || 0xA0 <= p < 0x100 :: pageinfo[p] == PageInfo(-1, 1)
      ensures forall p | 0 < p < 0xA0 || 0x100 <= p < NPAGES ::
        pageinfo[p] ==
          if p == 0x7F || (0x40 <= p && p * 4096 < layout.end) then PageInfo(-2, 1) else PageInfo(0, 0)
    {
      var addr := 0;
      while addr < NPAGES * PAGE_SIZE
        invariant addr % PAGE_SIZE == 0 && 0 <= addr <= NPAGES * PAGE_SIZE
        invariant forall p | 0 <= p < addr / PAGE_SIZE ::
          pageinfo[p] == PageInfo(InitialOwner(layout, p), if InitialOwner(layout, p) == FREE then 0 else 1)
      {
        var owner := FREE;
        if addr == 0 || 0xA0000 <= addr < 0x100000 {
          owner := RESERVED;
        } else if (KERNEL_START * PAGE_SIZE <= addr && addr < layout.end) || addr == KERNEL_STACK * PAGE_SIZE {
          owner := KERNEL;
        }
        pageinfo[addr / PAGE_SIZE] := PageInfo(owner, if owner != FREE then 1 else 0);
        addr := addr + PAGE_SIZE;
      }
    }

    // ---- The loader ----

    /** The loop of program_load_segment that assigns and maps the segment's pages. */
    method AssignPages(pid: nat, va: nat, end: nat) returns (r: Outcome)
      requires Valid() && pid < NPROC && va % PAGE_SIZE == 0
      modifies mem, pageinfo
      ensures MapResult(TheStore(), r) ==
        AssignLoop(old(TheStore()), processes[pid].table, va / PAGE_SIZE, end, processes[pid].pid)
    {
      hide Map;
      var root, owner := processes[pid].table, processes[pid].pid;
      ghost var whole := AssignLoop(TheStore(), root, va / PAGE_SIZE, end, owner);
      var addr := va;
      while addr < end
        invariant addr % PAGE_SIZE == 0
        invariant AssignLoop(TheStore(), root, addr / PAGE_SIZE, end, owner) == whole
        decreases end - addr
      {
        var got := AssignPhysicalPage(addr, owner);
        if got < 0 {
          return Failed;
        }
        assert MapArgumentsOk(addr, addr, PAGE_SIZE, PWU);
        r := VirtualMemoryMap(root, addr, addr, PAGE_SIZE, PWU, false);
        if !r.Done? {
          return;
        }
        NextPage(addr);
        addr := addr + PAGE_SIZE;
      }
      return Done;
    }

    /** A supervisor store of one byte through a page table. */
    method StoreByteAt(root: nat, va: nat, b: Byte) returns (ok: bool)
      requires Shape()
      modifies mem
      ensures match StoreByte(old(mem[..]), root, va, b)
        case None => !ok && mem[..] == old(mem[..])
        case Some(m) => ok && mem[..] == m
    {
      var m := VirtualMemoryLookup(root, va);
      ok := m.Mapped? && m.pn < NPAGES && m.perm.w;
      if ok {
        mem[m.pn] := SetPageByte(mem[m.pn], va % PAGE_SIZE, b);
      }
    }

    /** memcpy into an address space; it stops at the first byte it may not store. */
    method MemcpyThrough(root: nat, va: nat, bs: seq<Byte>) returns (ok: bool)
      requires Shape()
      modifies mem
      ensures ok <==> StoreBytes(old(mem[..]), root, va, bs).Some?
      ensures ok ==> mem[..] == StoreBytes(old(mem[..]), root, va, bs).value
    {
      hide StoreByte;
      var i := 0;
      while i < |bs|
        invariant 0 <= i <= |bs|
        invariant StoreBytes(mem[..], root, va + i, bs[i..]) == StoreBytes(old(mem[..]), root, va, bs)
      {
        ok := StoreByteAt(root, va + i, bs[i]);
        if !ok {
          return;
        }
        assert bs[i..][1..] == bs[i + 1..];
        i := i + 1;
      }
      return true;
    }

    /** memset of n bytes in an address space. */
    method MemsetThrough(root: nat, va: nat, b: Byte, n: nat) returns (ok: bool)
      requires Shape()
      modifies mem
      ensures ok <==> StoreBytes(old(mem[..]), root, va, Repeated(b, n)).Some?
      ensures ok ==> mem[..] == StoreBytes(old(mem[..]), root, va, Repeated(b, n)).value
    {
      hide StoreByte;
      var i := 0;
      while i < n
        invariant 0 <= i <= n
        invariant StoreBytes(mem[..], root, va + i, Repeated(b, n - i)) ==
            StoreBytes(old(mem[..]), root, va, Repeated(b, n))
      {
        ok := StoreByteAt(root, va + i, b);
        if !ok {
          return;
        }
        assert Repeated(b, n - i)[1..] == Repeated(b, n - (i + 1));
        i := i + 1;
      }
      return true;
    }

    method ProgramLoadSegment(pid: nat, s: Segment) returns (r: Outcome)
      requires Valid() && pid < NPROC && ValidSegment(s)
      modifies mem, pageinfo
      ensures var spec := LoadSegment(old(TheStore()), layout, processes[pid].table, processes[pid].pid, s);
        r == spec.outcome && (r == Done ==> TheStore() == spec.st)
    {
      hide AssignLoop, StoreBytes, SetPagetableOk;
      var table, offset := processes[pid].table, s.va % PAGE_SIZE;
      var va := s.va - offset;
      assert va == First(s) * PAGE_SIZE && va / PAGE_SIZE == First(s);
      r := AssignPages(pid, va, s.va + s.memsz);
      if !r.Done? {
        return;
      }
      var ok := SetPagetable(table);
      if !ok {
        return Panic;
      }
      ghost var m := mem[..];
      StoreBytesJoin(m, table, va, s.src[..s.filesz + offset], Repeated(0, s.memsz - s.filesz));
      assert Contents(s) == s.src[..s.filesz + offset] + Repeated(0, s.memsz - s.filesz);
      ok := MemcpyThrough(table, va, s.src[..s.filesz + offset]);
      if ok {
        ok := MemsetThrough(table, va + s.filesz + offset, 0, s.memsz - s.filesz);
      }
      if ok {
        ok := SetPagetable(layout.kpt);
      }
      return if ok then Done else Panic;
    }

    method ProgramLoad(pid: nat, program: Program) returns (r: Outcome)
      requires Valid() && pid < NPROC && ValidProgram(program)
      modifies mem, pageinfo, processes
      ensures var spec := LoadSegments(old(TheStore()), layout, old(processes[pid].table), old(processes[pid].pid),
          program.segments);
        r == spec.outcome && (r == Done ==> TheStore() == spec.st)
      ensures r == Done ==>
        processes[..] ==
          old(processes[..])[pid := old(processes[pid]).(regs := old(processes[pid].regs).(rip := program.entry))]
    {
      hide LoadSegment, ValidSegment;
      ghost var spec := LoadSegments(TheStore(), layout, processes[pid].table, processes[pid].pid, program.segments);
      var i := 0;
      while i < |program.segments|
        invariant 0 <= i <= |program.segments| && processes[..] == old(processes[..])
        invariant LoadSegments(TheStore(), layout, processes[pid].table, processes[pid].pid, program.segments[i..]) ==
            spec
      {
        assert program.segments[i..][1..] == program.segments[i + 1..];
        assert ValidSegment(program.segments[i]);
        if program.segments[i].loadable {
          r := ProgramLoadSegment(pid, program.segments[i]);
          if !r.Done? {
            return;
          }
        }
        i := i + 1;
      }
      processes[pid] := processes[pid].(regs := processes[pid].regs.(rip := program.entry));
      return Done;
    }

    // ---- Starting up ----

    method VirtualMemoryInit()
      requires Shape() && ValidLayout(layout)
      modifies mem, pageinfo
      ensures TheStore() ==
        Map(Store(LinkedTables(old(mem[..]), layout.kpt), old(pageinfo[..])), layout.kpt, 0, 0, NPAGES, PWU, None).st
    {
      hide Map;
      LinkTables();
      hide LinkedTables;
      var _ := VirtualMemoryMap(layout.kpt, 0, 0, NPAGES * PAGE_SIZE, PWU, false);
    }

    /** kernel_pagetables cleared and linked. */
    method LinkTables()
      requires Shape() && ValidLayout(layout)
      modifies mem
      ensures mem[..] == LinkedTables(old(mem[..]), layout.kpt)
    {
      var k := layout.kpt;
      mem[k], mem[k + 1], mem[k + 2], mem[k + 3], mem[k + 4] := ZeroPage(), ZeroPage(), ZeroPage(), ZeroPage(),
          ZeroPage();
      mem[k] := mem[k][0 := Word(k + 1, PWU)];
      mem[k + 1] := mem[k + 1][0 := Word(k + 2, PWU)];
      mem[k + 2] := mem[k + 2][0 := Word(k + 3, PWU)];
      mem[k + 2] := mem[k + 2][1 := Word(k + 4, PWU)];
    }

    method ProcessSetup(pid: nat, program: Program)
      requires Valid() && pid < NPROC && processes[pid].pid == pid && ValidProgram(program) && !status.Panicked?
      modifies this`pagetableOwner, this`status, mem, pageinfo, processes
      ensures SameUnlessPanicked(TheState(), Boot.ProcessSetup(old(TheState()), pid, program))
    {
      hide CopyTable, LoadSegments, Map, GetFree, ValidProgram;
      processes[pid] := processes[pid].(regs := ProcessInit);
      var root, panicked := CopyPagetable(layout.kpt, pid);
      processes[pid] := processes[pid].(table := root);
      if panicked {
        status := Panicked;
        return;
      }
      var r := ProgramLoad(pid, program);
      if !r.Done? {
        status := Panicked;
        return;
      }
      processes[pid] := processes[pid].(regs := processes[pid].regs.(rsp := VM_END * PAGE_SIZE));
      var stack := GetFreeAddr(pid);
      var m := VirtualMemoryMap(root, (VM_END - 1) * PAGE_SIZE, stack, PAGE_SIZE, PWU, true);
      if m.Panic? {
        status := Panicked;
        return;
      }
      processes[pid] := processes[pid].(state := P_RUNNABLE);
    }

    /** kernel(), from arbitrary contents of memory. */
    method Start(programs: seq<Program>)
      requires Shape() && ValidLayout(layout) && 1 <= |programs| < NPROC && ValidPrograms(programs)
      modifies this, mem, pageinfo, processes
      ensures Valid() && SameUnlessPanicked(TheState(), Boot.Start(old(mem[..]), layout, programs))
    {
      hide Map, Boot.ProcessSetup, SetPagetableOk, LinkedTables, ValidProgram, InitialInfo;
      InitKernel();
      ghost var whole := SetupAll(TheState(), 1, programs);
      assert programs[0..] == programs;
      var pid: nat := 1;
      while pid <= |programs|
        invariant 1 <= pid <= |programs| + 1 && Valid() && !status.Panicked?
        invariant forall i | pid <= i < NPROC :: processes[i].pid == i
        invariant SetupAll(TheState(), pid, programs[pid - 1..]) == whole
      {
        assert programs[pid - 1..][1..] == programs[pid..] && ValidProgram(programs[pid - 1]);
        ghost var before := TheState();
        ProcessSetup(pid, programs[pid - 1]);
        SetupOthers(before, pid, programs[pid - 1]);
        if status.Panicked? {
          return;
        }
        pid := pid + 1;
      }
      Run(1);
    }

    /** The first part of kernel(): tables, owners, process slots, and what users may touch. */
    method InitKernel()
      requires Shape() && ValidLayout(layout)
      modifies this, mem, pageinfo, processes
      ensures Valid() && TheState() == BeforeSetup(old(mem[..]), layout)
    {
      hide Map, LinkedTables, InitialInfo;
      VirtualMemoryInit();
      MapIgnoresOwners(LinkedTables(old(mem[..]), layout.kpt), old(pageinfo[..]), InitialInfo(layout), layout.kpt, 0,
          0, NPAGES, PWU);
      PageinfoInit();
      assert pageinfo[..] == InitialInfo(layout);
      current, ticks, status := 1, 0, Running;
      InitProcesses();
      var _ := VirtualMemoryMap(layout.kpt, 0, 0, PROC_START * PAGE_SIZE, PW, false);
      var _ := VirtualMemoryMap(layout.kpt, CONSOLE * PAGE_SIZE, CONSOLE * PAGE_SIZE, PAGE_SIZE, PWU, false);
    }

    method InitProcesses()
      requires Shape()
      modifies processes
      ensures processes[..] == NoProcs()
    {
      var i := 0;
      while i < NPROC
        invariant 0 <= i <= NPROC
        invariant forall j | 0 <= j < i :: processes[j] == Proc(j, Registers(0, 0, 0, 0, 0, 0, 0), P_FREE, 0)
      {
        processes[i] := Proc(i, Registers(0, 0, 0, 0, 0, 0, 0), P_FREE, 0);
        i := i + 1;
      }
    }

    // ---- Dumps ----

    method MemdumpPhysical()
      requires Shape() && ticks < 0x1_0000_0000
      modifies this`log
      ensures log == old(log) + PhysicalLine(pageinfo[..], ticks)
    {
      hide Printed;
      ghost var was := log;
      LogPrintf("PM_DUMP %u ", [Num(ticks)]);
      ghost var head, whole := log, PhysicalEntries(pageinfo[..], 0);
      var pn := 0;
      while pn < NPAGES
        invariant 0 <= pn <= NPAGES
        invariant log + PhysicalEntries(pageinfo[..], pn) == head + whole
      {
        ghost var before := log;
        LogPrintf("%u %u ", [Num(Uint8(pageinfo[pn].owner)), Num(Uint32(pageinfo[pn].refcount))]);
        JoinThree(before, PhysicalEntry(pageinfo[pn]), PhysicalEntries(pageinfo[..], pn + 1));
        pn := pn + 1;
      }
      assert log + "" == log;
      NewlineIs();
      LogPrintf("\n", []);
      JoinFour(was, Printed("PM_DUMP %u ", [Num(ticks)]), whole, "\n");
    }

    method MemdumpVirtual(table: nat, name: string)
      requires Shape() && ticks < 0x1_0000_0000 && InRange(mem[..], table) && CString(name)
      modifies this`log
      ensures log == old(log) + VirtualLine(mem[..], pageinfo[..], table, name, ticks)
    {
      hide Printed, Lookup, VirtualEntry, InRange;
      ghost var was := log;
      LogPrintf("VM_DUMP %s %u ", [Text(name), Num(ticks)]);
      ghost var head, whole := log, VirtualEntries(mem[..], pageinfo[..], table, 0);
      var va: nat := 0;
      while va < VM_END * PAGE_SIZE
        invariant va % PAGE_SIZE == 0 && va <= VM_END * PAGE_SIZE
        invariant log + VirtualEntries(mem[..], pageinfo[..], table, va / PAGE_SIZE) == head + whole
      {
        LowPage(va);
        ghost var v, before := va / PAGE_SIZE, log;
        MemdumpPage(table, va);
        JoinThree(before, VirtualEntry(Lookup(mem[..], table, v), pageinfo[..]),
            VirtualEntries(mem[..], pageinfo[..], table, v + 1));
        va := va + PAGE_SIZE;
      }
      assert log + "" == log;
      NewlineIs();
      LogPrintf("\n", []);
      JoinFour(was, Printed("VM_DUMP %s %u ", [Text(name), Num(ticks)]), whole, "\n");
    }

    method MemdumpPage(table: nat, va: nat)
      requires Shape() && InRange(mem[..], table) && va % PAGE_SIZE == 0 && va < VM_END * PAGE_SIZE
      modifies this`log
      ensures (Lookup(mem[..], table, va / PAGE_SIZE).Mapped? ==> Lookup(mem[..], table, va / PAGE_SIZE).pn < NPAGES)
      ensures log == old(log) + VirtualEntry(Lookup(mem[..], table, va / PAGE_SIZE), pageinfo[..])
    {
      hide Printed, LookupFrom;
      LowPage(va);
      var m := VirtualMemoryLookup(table, va);
      if m.Unmapped? {
        LogPrintf("0 0 0 ", []);
      } else {
        LogPrintf("%u %u %u ",
          [Num(Uint8(pageinfo[m.pn].owner)), Num(Uint8(pageinfo[m.pn].refcount)), Num(FlagsValue(m.perm) % PAGE_SIZE)]);
      }
    }

    method MemdumpVirtualAll()
      requires Valid() && CanDump(TheState())
      modifies this`log
      ensures log == old(log) + VirtualLines(TheState(), 0)
    {
      hide VirtualLine, InRange, Name;
      ghost var was, s := log, TheState();
      var i := 0;
      while i < NPROC
        invariant 0 <= i <= NPROC && TheState() == s
        invariant log + VirtualLines(s, i) == was + VirtualLines(s, 0)
      {
        if processes[i].state != P_FREE {
          ghost var before := log;
          MemdumpProcess(i);
          JoinThree(before, VirtualLine(s.store.mem, s.store.info, s.procs[i].table, Name(i), s.ticks),
              VirtualLines(s, i + 1));
        }
        i := i + 1;
      }
      assert log + "" == log;
    }

    method MemdumpProcess(i: nat)
      requires Valid() && i < NPROC && ticks < 0x1_0000_0000 && InRange(mem[..], processes[i].table)
      modifies this`log
      ensures log == old(log) + VirtualLine(mem[..], pageinfo[..], processes[i].table, Name(i), ticks)
    {
      hide VirtualLine, InRange, Name, Render;
      var s := new char[4];
      NamePrints(i);
      var ok, n := Vsnprintf(s, 4, "%d ", [Num(i)]);
      assert s[..n] == Name(i);
      NameIsCString(i);
      MemdumpVirtual(processes[i].table, s[..n]);
    }

    /** The two dumps of exception: together a dump of the state. */
    method Memdump()
      requires Valid() && CanDump(TheState())
      modifies this`log
      ensures log == old(log) + Dump(TheState())
    {
      hide PhysicalLine, VirtualLines, AllInRange;
      MemdumpPhysical();
      MemdumpVirtualAll();
    }
  }

  /** The same state, but for what a panic leaves behind in memory. */
  ghost predicate SameUnlessPanicked(s: State, t: State) {
    s.status == t.status && (s.status.Panicked? || s == t)
  }

  /** process_setup touches one slot. */
  lemma SetupOthers(s: State, pid: nat, program: Program)
    requires pid < NPROC && ValidProgram(program)
    ensures forall i | 0 <= i < NPROC && i != pid :: Boot.ProcessSetup(s, pid, program).procs[i] == s.procs[i]
  {
    hide CopyTable, LoadSegments, Map, GetFree;
  }

  function Repeated(b: Byte, n: nat): seq<Byte> {
    seq(n, _ => b)
  }

  /** Storing bytes in two goes. */
  lemma {:induction false} StoreBytesJoin(mem: Memory, root: nat, va: nat, a: seq<Byte>, b: seq<Byte>)
    ensures StoreBytes(mem, root, va, a + b) ==
      match StoreBytes(mem, root, va, a)
      case None => None
      case Some(m) => StoreBytes(m, root, va + |a|, b)
    decreases |a|
  {
    hide StoreByte;
    if a == [] {
      assert a + b == b;
    } else {
      assert (a + b)[1..] == a[1..] + b;
      if StoreByte(mem, root, va, a[0]).Some? {
        StoreBytesJoin(StoreByte(mem, root, va, a[0]).value, root, va + 1, a[1..], b);
      }
    }
  }

  lemma JoinThree(a: string, b: string, c: string)
    ensures a + b + c == a + (b + c)
  {
  }

  lemma JoinFour(a: string, b: string, c: string, d: string)
    ensures a + b + c + d == a + (b + c + d)
  {
  }

  lemma NewlineIs()
    ensures Printed("\n", []) == "\n"
  {
    RenderPlain("\n", 0, 1, []);
    RenderEnd("\n", []);
    assert "\n"[0..1] == "\n";
  }

  /** The process number is printed whole. */
  lemma NamePrints(pid: Word64)
    requires pid < NPROC
    ensures Render("%d ", [Num(pid)]).Some? && Render("%d ", [Num(pid)]).value == Name(pid) && |Name(pid)| <= 3
  {
    NameRenders(pid);
    NameIs(pid);
  }

  lemma GroupOfAddress(va: nat)
    ensures ToInt32(va / 0x20_0000) == Group(va / PAGE_SIZE)
  {
    DivTwice(va, 2);
  }

  lemma NextPage(a: nat)
    ensures (a + PAGE_SIZE) / PAGE_SIZE == a / PAGE_SIZE + 1
  {
  }

  lemma LowPage(va: nat)
    requires va < VM_END * PAGE_SIZE
    ensures Canon(va / PAGE_SIZE) == va / PAGE_SIZE < VM_END
    ensures (va + PAGE_SIZE) / PAGE_SIZE == va / PAGE_SIZE + 1
  {
  }

  lemma PageArguments(va: nat, pn: nat, perm: Flags)
    requires va % PAGE_SIZE == 0 && va < VM_END * PAGE_SIZE
    ensures pn * PAGE_SIZE / PAGE_SIZE == pn && PAGE_SIZE / PAGE_SIZE == 1
    ensures MapArgumentsOk(va, pn * PAGE_SIZE, PAGE_SIZE, perm)
  {
  }
}
