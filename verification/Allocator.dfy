/** The heap-growing user program p-allocator.c as a client of the kernel, under every schedule. */
module Allocator {
  import opened Words
  import opened Pages
  import opened Paging
  import opened MapRanges
  import opened AddressSpaces
  import opened Forking
  import opened KernelState
  import opened Kernel
  import opened Invariant
  import opened Steps
  import opened Runs
  import opened Views
  import opened Bytes
  import opened Loader
  import opened Boot

  /** Where the program is: before its sys_getpid, back from it, at the head of its loop, back from
      sys_page_alloc, allowed to store to the new page, or done allocating. */
  datatype Place = Begin | GotPid | Loop | Returned | Granted | Idle

  /** Its variables: place, p, and the page heap_top points at. */
  datatype Client = Client(place: Place, pid: int, heap: nat)

  /** How a compiled program keeps its variables: whatever they are, they can be read off the view
      its process has when it traps. */
  type Reader = View -> Client

  /** Process q, the pages its heap may use, from the page after its image up to its stack, and the
      pages its variables and its stack are on. */
  datatype Plan = Plan(q: nat, heap: HeapRange, home: set<nat>)

  predicate ValidPlan(p: Plan) {
    && 1 <= p.q < NPROC && ValidRange(p.heap) && p.heap.hi < VM_END
    && forall v | v in p.home :: v < VPAGES && !(p.heap.lo <= v < p.heap.hi)
  }

  /** The word that holds the byte heap_top points at, after `*heap_top = p`. */
  function Stored(s: State, pid: int, m: Mapping): Word
    requires m.Mapped?
  {
    SetWordByte(Read(s.store.mem, m.pn, 0), 0, pid % 256)
  }

  /** Looking at the answer of a call, which is an int in eax. */
  function Seen(c: Client, rax: Word64): Client {
    match c.place
    case GotPid => c.(place := Loop, pid := ToInt32(rax))
    case Returned => c.(place := if ToInt32(rax) < 0 then Idle else Granted)
    case _ => c
  }

  /** May the program store to page v? */
  predicate CanStore(s: State, p: Plan, v: nat)
    requires p.q < NPROC
  {
    UserWritable(Lookup(s.store.mem, s.procs[p.q].table, v))
  }

  /** A store to the program's own variables or stack; one it may not make arrives as a page fault. */
  predicate OwnStore(s: State, p: Plan, ev: Event)
    requires p.q < NPROC
  {
    match ev
    case Write(va, _) => Canon(va / PAGE_SIZE) in p.home && CanStore(s, p, Canon(va / PAGE_SIZE))
    case Trap(regs) =>
      regs.intno == INT_PAGEFAULT && UserFault(regs.err) && exists v :: v in p.home && !CanStore(s, p, v)
  }

  /** What the program does once it has looked at the answer of its last call: it goes on, stores to
      its own variables, or the timer interrupts it. Whatever store it may not make arrives as a fault. */
  predicate Acts(s: State, p: Plan, c: Client, ev: Event, c': Client)
    requires p.q < NPROC
  {
    || ((IsTrap(ev, INT_TIMER) || OwnStore(s, p, ev)) && c' == c)
    || match c.place
       case Begin => IsTrap(ev, INT_SYS_GETPID) && c' == c.(place := GotPid)
       case Loop =>
         || (IsTrap(ev, INT_SYS_YIELD) && (c' == c || (c.heap == p.heap.hi && c' == c.(place := Idle))))
         || (c.heap != p.heap.hi && IsTrap(ev, INT_SYS_PAGE_ALLOC)
             && ev.regs.rdi == c.heap * PAGE_SIZE && c' == c.(place := Returned))
       case Granted =>
         var m := Lookup(s.store.mem, s.procs[p.q].table, c.heap);
         if CanStore(s, p, c.heap)
         then ev == Write(c.heap * PAGE_SIZE, Stored(s, c.pid, m)) && c' == c.(place := Loop, heap := c.heap + 1)
         else IsTrap(ev, INT_PAGEFAULT) && UserFault(ev.regs.err) && c' == c
       case Idle => IsTrap(ev, INT_SYS_YIELD) && c' == c
       case _ => false
  }

  /** One event while q runs. Before the program looks at an answer, interrupts find it still in rax. */
  predicate Own(s: State, p: Plan, c: Client, ev: Event, c': Client)
    requires p.q < NPROC
  {
    var rax := s.procs[p.q].regs.rax;
    || (((IsTrap(ev, INT_TIMER) && ev.regs.rax == rax) || OwnStore(s, p, ev)) && c' == c)
    || Acts(s, p, Seen(c, rax), ev, c')
  }

  /** One event of the machine and the program's variables after it. While others run anything may
      happen. When q traps, its variables are in its registers and memory, and are read from there
      when it runs again. */
  predicate Moves(s: State, p: Plan, read: Reader, c: Client, ev: Event, c': Client)
    requires ValidPlan(p)
  {
    if s.current != p.q then EventOk(s, ev) && c' == read(ViewOf(Step(s, ev), p.q, p.heap)) else
    match ev
    case Write(_, _) => Own(s, p, c, ev, c')
    case Trap(regs) =>
      && Own(s, p, c, ev, read(ViewOf(Saved(s, regs), p.q, p.heap)))
      && c' == read(ViewOf(Step(s, ev), p.q, p.heap))
  }

  /** Page v of q's heap: mapped, writable, and its first byte is q. */
  predicate HeapPage(mem: Memory, root: nat, v: nat, q: nat) {
    var m := Lookup(mem, root, v);
    m.Mapped? && m.perm == PWU && m.pn < NPAGES && PageByte(mem[m.pn], 0) == q % 256
  }

  /** The heap so far, read through q's own translation, and the pages not yet asked for. */
  ghost predicate Heap(mem: Memory, root: nat, p: Plan, hi: nat, next: nat) {
    && (forall v | p.heap.lo <= v < hi :: HeapPage(mem, root, v, p.q))
    && (forall v | next <= v < p.heap.hi :: Lookup(mem, root, v) == Unmapped)
  }

  /** The program may store to its variables and its stack. */
  ghost predicate HomeOk(mem: Memory, root: nat, p: Plan) {
    forall v | v in p.home :: UserWritable(Lookup(mem, root, v))
  }

  /** First page not mapped yet. */
  function NextPage(rax: Word64, c: Client): nat {
    if c.place == Granted || (c.place == Returned && rax == 0) then c.heap + 1 else c.heap
  }

  /** What every state of a run satisfies for the program. */
  ghost predicate ClientOk(s: State, tag: Tags, p: Plan, read: Reader, c: Client) {
    && Inv(s, tag) && !s.status.Panicked? && ValidPlan(p)
    && ProgramOk(s, p, c)
    && (s.current != p.q ==> c == read(ViewOf(s, p.q, p.heap)))
  }

  ghost predicate ProgramOk(s: State, p: Plan, c: Client)
    requires ValidPlan(p)
  {
    var proc, mem := s.procs[p.q], s.store.mem;
    && p.heap.lo <= c.heap <= p.heap.hi && proc.state == P_RUNNABLE && proc.table != 0
    && Heap(mem, proc.table, p, c.heap, NextPage(proc.regs.rax, c)) && HomeOk(mem, proc.table, p)
    && AnswerOk(mem, p, proc, c)
  }

  /** Back from sys_getpid the answer is q. Back from sys_page_alloc it is -1, or 0 and the page is there. */
  predicate AnswerOk(mem: Memory, p: Plan, proc: Proc, c: Client) {
    var rax := proc.regs.rax;
    match c.place
    case Begin => true
    case GotPid => rax == p.q
    case Returned =>
      && c.pid == p.q && c.heap < p.heap.hi && rax in {0, FAILED}
      && (rax == 0 ==> UserWritable(Lookup(mem, proc.table, c.heap)))
    case Granted => c.pid == p.q && c.heap < p.heap.hi && UserWritable(Lookup(mem, proc.table, c.heap))
    case _ => c.pid == p.q
  }

  // ---- While others run ----

  lemma HeapFramed(st: Store, tag: Tags, mem': Memory, root: nat, p: Plan, hi: nat, next: nat)
    requires WellFormed(st, tag) && IsRoot(tag, root, p.q) && ValidPlan(p) && hi <= p.heap.hi
    requires Heap(st.mem, root, p, hi, next)
    requires forall v | p.heap.lo <= v < hi :: Lookup(mem', root, v) == Lookup(st.mem, root, v)
    requires forall v | next <= v < p.heap.hi :: Lookup(mem', root, v) == Lookup(st.mem, root, v)
    requires forall n: nat, v: nat | n in tag && tag[n] == Frame(p.q, v) && p.heap.lo <= v < hi ::
      n < NPAGES && mem'[n] == st.mem[n]
    ensures Heap(mem', root, p, hi, next)
  {
    forall v | p.heap.lo <= v < hi
      ensures HeapPage(mem', root, v, p.q)
    {
      assert HeapPage(st.mem, root, v, p.q);
      UserLookup(st, tag, root, p.q, v);
    }
  }

  lemma HomeFramed(mem: Memory, mem': Memory, root: nat, p: Plan)
    requires ValidPlan(p) && HomeOk(mem, root, p)
    requires forall v | 0 <= v < VPAGES && !(p.heap.lo <= v < p.heap.hi) ::
        Lookup(mem', root, v) == Lookup(mem, root, v)
    ensures HomeOk(mem', root, p)
  {
    hide Lookup;
  }

  lemma ClientRoot(s: State, tag: Tags, p: Plan, read: Reader, c: Client)
    requires ClientOk(s, tag, p, read, c)
    ensures IsRoot(tag, s.procs[p.q].table, p.q) && WellFormed(s.store, tag) && Core(s, tag)
  {
    assert ProcOk(s.store.mem, tag, s.procs[p.q], p.q);
  }

  lemma OtherMoves(s: State, tag: Tags, s': State, tag': Tags, p: Plan, read: Reader, c: Client)
    requires ClientOk(s, tag, p, read, c) && s.current != p.q && Inv(s', tag') && !s'.status.Panicked?
    requires OthersUndisturbed(s, tag, s', tag')
    ensures ClientOk(s', tag', p, read, read(ViewOf(s', p.q, p.heap)))
  {
    ClientRoot(s, tag, p, read, c);
    assert Undisturbed(s, tag, s', tag', p.q);
    ViewUndisturbed(s, tag, s', tag', p.q, p.heap);
    hide Inv, Core, WellFormed, OthersUndisturbed, Heap, HomeOk, ViewOf;
    HomeFramed(s.store.mem, s'.store.mem, s.procs[p.q].table, p);
    HeapFramed(s.store, tag, s'.store.mem, s.procs[p.q].table, p, c.heap, NextPage(s.procs[p.q].regs.rax, c));
  }

  // ---- While the program runs ----

  /** Looking at the answer changes nothing but what the program knows. */
  lemma LooksAtAnswer(s: State, p: Plan, c: Client)
    requires ValidPlan(p) && ProgramOk(s, p, c)
    ensures ProgramOk(s, p, Seen(c, s.procs[p.q].regs.rax))
  {
    hide Heap, HomeOk, Lookup;
  }

  /** How the program's variables may change in a trap that only answers or switches. */
  predicate QuietStep(regs: Registers, rax: Word64, c: Client, c1: Client) {
    || (c1 == c && !c.place.GotPid? && !c.place.Returned?)
    || (c1 == c && regs.intno == INT_TIMER && regs.rax == rax)
    || (c.place.Begin? && c1 == c.(place := GotPid) && regs.intno == INT_SYS_GETPID)
    || (c.place.Loop? && c1 == c.(place := Idle))
  }

  lemma QuietKeeps(s: State, s': State, p: Plan, regs: Registers, c: Client, c1: Client)
    requires ValidPlan(p) && ProgramOk(s, p, c) && QuietStep(regs, s.procs[p.q].regs.rax, c, c1)
    requires s'.store == s.store && s'.procs[p.q] == s.procs[p.q].(regs := s'.procs[p.q].regs)
    requires s'.procs[p.q].regs.rax == if regs.intno == INT_SYS_GETPID then p.q else regs.rax
    ensures ProgramOk(s', p, c1)
  {
    hide Heap, HomeOk, Lookup;
  }

  /** A yield, a getpid or a timer interrupt leaves memory and the program's variables as they were. */
  lemma QuietTrap(s: State, tag: Tags, p: Plan, regs: Registers, c: Client, c1: Client)
    requires Inv(s, tag) && ValidPlan(p) && ProgramOk(s, p, c) && s.current == p.q && s.status.Running?
    requires regs.intno in {INT_SYS_GETPID, INT_SYS_YIELD, INT_TIMER} && !Exception(s, regs).status.Panicked?
    requires QuietStep(regs, s.procs[p.q].regs.rax, c, c1)
    ensures ProgramOk(Exception(s, regs), p, c1)
    ensures ViewOf(Exception(s, regs), p.q, p.heap) == ViewOf(Saved(s, regs), p.q, p.heap)
  {
    hide Exception, Inv, ViewOf, ProgramOk, QuietStep;
    CurrentIsProcess(s, tag);
    QuietTrapView(s, regs, p.heap);
    QuietKeeps(s, Exception(s, regs), p, regs, c, c1);
  }

  lemma AllocMoves(s: State, tag: Tags, p: Plan, c: Client, regs: Registers)
    requires Inv(s, tag) && ValidPlan(p) && ProgramOk(s, p, c) && s.current == p.q && s.status.Running?
    requires c.place.Loop? && c.heap < p.heap.hi
    requires regs.intno == INT_SYS_PAGE_ALLOC && regs.rdi == c.heap * PAGE_SIZE && !Exception(s, regs).status.Panicked?
    ensures ProgramOk(Exception(s, regs), p, c.(place := Returned))
    ensures ViewOf(Exception(s, regs), p.q, p.heap) == ViewOf(Saved(s, regs), p.q, p.heap)
  {
    hide Exception, PageAlloc, Inv, Core, WellFormed, Heap, HomeOk, SetPagetableOk, CheckVirtualMemory, DispatchPanics,
        AllHaveTables, OthersUndisturbed, Lookup, Grows, SameOutside, ViewOf;
    var s1 := Saved(s, regs);
    RunsOn(s, tag);
    SavedKeeps(s, tag, regs);
    AllocShape(s, regs);
    CurrentIsProcess(s, tag);
    CoreParts(s, tag);
    CoreParts(s1, tag);
    var tag1 := PageAllocGives(s1, tag, c.heap);
    HeapAfterAlloc(s1, tag, PageAlloc(s1), tag1, p, c.heap);
    HomeAfterAlloc(s1, tag, PageAlloc(s1), tag1, p, c.heap);
    ViewAllocated(s1, tag, PageAlloc(s1), tag1, c.heap, p.heap);
  }

  lemma HeapAfterAlloc(s: State, tag: Tags, s': State, tag': Tags, p: Plan, hi: nat)
    requires WellFormed(s.store, tag) && ValidPlan(p) && s.current == p.q == s'.current && p.heap.lo <= hi < p.heap.hi
    requires IsRoot(tag, s.procs[p.q].table, p.q) && Allocated(s, tag, s', tag', hi)
    requires Heap(s.store.mem, s.procs[p.q].table, p, hi, hi)
    ensures var next := if s'.procs[p.q].regs.rax == 0 then hi + 1 else hi;
      Heap(s'.store.mem, s.procs[p.q].table, p, hi, next)
  {
    var root := s.procs[p.q].table;
    var next := if s'.procs[p.q].regs.rax == 0 then hi + 1 else hi;
    assert Owned(s.store.info, tag);
    forall v | p.heap.lo <= v < p.heap.hi && (v < hi || next <= v)
      ensures Lookup(s'.store.mem, root, v) == Lookup(s.store.mem, root, v)
    {
    }
    hide WellFormed, HeapPage, SameOutside;
    HeapFramed(s.store, tag, s'.store.mem, root, p, hi, next);
  }

  lemma HomeAfterAlloc(s: State, tag: Tags, s': State, tag': Tags, p: Plan, v: nat)
    requires ValidPlan(p) && s.current == p.q == s'.current && p.heap.lo <= v < p.heap.hi
    requires IsRoot(tag, s.procs[p.q].table, p.q) && Allocated(s, tag, s', tag', v)
    requires HomeOk(s.store.mem, s.procs[p.q].table, p)
    ensures HomeOk(s'.store.mem, s.procs[p.q].table, p)
  {
    hide HomeOk, Grows, Lookup;
    HomeFramed(s.store.mem, s'.store.mem, s.procs[p.q].table, p);
  }

  // ---- Stores ----

  /** A store to any page but those of the heap. */
  predicate OffHeap(p: Plan, ev: Event) {
    ev.Write? && !(p.heap.lo <= Canon(ev.va / PAGE_SIZE) < p.heap.hi)
  }

  /** The program's own stores never fault. */
  lemma OwnStoreStores(s: State, p: Plan, c: Client, ev: Event)
    requires ValidPlan(p) && ProgramOk(s, p, c) && OwnStore(s, p, ev)
    ensures ev.Write? && OffHeap(p, ev)
  {
    hide Lookup, Heap, AnswerOk;
  }

  /** A store to any page but those of the heap changes no translation and no page of the heap. */
  lemma OffHeapFrame(s: State, tag: Tags, p: Plan, va: nat, w: Word)
    requires Inv(s, tag) && ValidPlan(p) && s.current == p.q && s.status.Running? && OffHeap(p, Write(va, w))
    ensures var mem, mem' := s.store.mem, UserStore(s, va, w).store.mem;
      && SameTranslations(mem, mem', tag)
      && (forall n: nat, v: nat | n in tag && tag[n] == Frame(p.q, v) && p.heap.lo <= v < p.heap.hi ::
        n < NPAGES && mem'[n] == mem[n])
  {
    var s', v := UserStore(s, va, w), Canon(va / PAGE_SIZE);
    CoreParts(s, tag);
    OwnedPages(s.store, tag);
    if s' != s {
      var pn := Lookup(s.store.mem, s.procs[p.q].table, v).pn;
      UserStoreTarget(s, tag, va);
      ConsoleUntagged(s, tag);
      DataWriteKeeps(s.store, tag, pn, va % PAGE_SIZE / 8, w);
      hide Inv, Core, WellFormed, Lookup;
      assert s'.store.mem == SetEntry(s.store.mem, pn, va % PAGE_SIZE / 8, w);
    }
  }

  /** A store to any page of its own but those of the heap leaves the heap as it was. */
  lemma StoreOffHeap(s: State, tag: Tags, p: Plan, c: Client, va: nat, w: Word)
    requires Inv(s, tag) && ValidPlan(p) && ProgramOk(s, p, c) && s.current == p.q && s.status.Running?
    requires OffHeap(p, Write(va, w))
    ensures ProgramOk(UserStore(s, va, w), p, c)
  {
    hide Inv, Core, WellFormed, HeapPage, Heap, HomeOk, Lookup, UserStore, SameTranslations, OffHeap;
    var mem', root := UserStore(s, va, w).store.mem, s.procs[p.q].table;
    StoreShape(s, va, w);
    CurrentIsProcess(s, tag);
    CoreParts(s, tag);
    OffHeapFrame(s, tag, p, va, w);
    SameLookups(s.store.mem, mem', tag, root, p.q);
    HomeFramed(s.store.mem, mem', root, p);
    HeapFramed(s.store, tag, mem', root, p, c.heap, NextPage(s.procs[p.q].regs.rax, c));
  }

  lemma StoreShape(s: State, va: nat, w: Word)
    requires s.current < NPROC
    ensures UserStore(s, va, w) == s.(store := UserStore(s, va, w).store)
  {
  }

  lemma OwnedPages(st: Store, tag: Tags)
    requires WellFormed(st, tag)
    ensures forall n | n in tag :: n < NPAGES
  {
  }

  lemma SameLookups(mem: Memory, mem': Memory, tag: Tags, root: nat, space: int)
    requires SameTranslations(mem, mem', tag) && IsRoot(tag, root, space)
    ensures forall v | 0 <= v < VPAGES :: Lookup(mem', root, v) == Lookup(mem, root, v)
  {
    SameTranslationsOutside(mem, mem', tag, space, 0, 0);
  }

  /** The store of `*heap_top = p`. */
  lemma HeapStore(s: State, tag: Tags, p: Plan, c: Client)
    requires Inv(s, tag) && ValidPlan(p) && ProgramOk(s, p, c) && s.current == p.q && s.status.Running?
    requires c.place.Granted?
    ensures var m := Lookup(s.store.mem, s.procs[p.q].table, c.heap);
      && UserWritable(m)
      && ProgramOk(UserStore(s, c.heap * PAGE_SIZE, Stored(s, c.pid, m)), p, c.(place := Loop, heap := c.heap + 1))
  {
    hide Inv, Core, WellFormed, Heap, HomeOk, OthersUndisturbed, Stored, Lookup, UserStore, SetEntry,
        SameTranslations;
    var root := s.procs[p.q].table;
    var m := Lookup(s.store.mem, root, c.heap);
    var va, w := c.heap * PAGE_SIZE, Stored(s, c.pid, m);
    CurrentIsProcess(s, tag);
    CoreParts(s, tag);
    UserLookup(s.store, tag, root, p.q, c.heap);
    DataWriteKeeps(s.store, tag, m.pn, 0, w);
    WriteShape(s, c.heap, w);
    SameLookups(s.store.mem, SetEntry(s.store.mem, m.pn, 0, w), tag, root, p.q);
    HomeFramed(s.store.mem, SetEntry(s.store.mem, m.pn, 0, w), root, p);
    HeapAfterWrite(s, tag, SetEntry(s.store.mem, m.pn, 0, w), root, p, c.heap, m.pn);
  }

  lemma WriteShape(s: State, v: nat, w: Word)
    requires s.current < NPROC && v < VM_END
    ensures var m := Lookup(s.store.mem, s.procs[s.current].table, v);
      UserWritable(m) && m.pn < NPAGES ==>
        UserStore(s, v * PAGE_SIZE, w) == s.(store := Store(SetEntry(s.store.mem, m.pn, 0, w), s.store.info))
  {
    hide LookupFrom, SetEntry;
    var va := v * PAGE_SIZE;
    assert va / PAGE_SIZE == v && va % PAGE_SIZE == 0 && Canon(v) == v;
  }

  lemma HeapAfterWrite(s: State, tag: Tags, mem': Memory, root: nat, p: Plan, hi: nat, pn: nat)
    requires WellFormed(s.store, tag) && ValidPlan(p) && p.heap.lo <= hi < p.heap.hi && IsRoot(tag, root, p.q)
    requires pn < NPAGES && pn in tag && tag[pn] == Frame(p.q, hi) && Lookup(s.store.mem, root, hi) == Mapped(pn, PWU)
    requires mem' == SetEntry(s.store.mem, pn, 0, Stored(s, p.q, Mapped(pn, PWU)))
    requires SameTranslations(s.store.mem, mem', tag) && Heap(s.store.mem, root, p, hi, hi + 1)
    ensures Heap(mem', root, p, hi + 1, hi + 1)
  {
    OwnedPages(s.store, tag);
    SameLookups(s.store.mem, mem', tag, root, p.q);
    SetWordByteReads(s.store.mem[pn][0], 0, p.q % 256, 0);
    assert HeapPage(mem', root, hi, p.q) by {
      hide Lookup, SetWordByte, WordByte;
      assert mem'[pn][0] == SetWordByte(s.store.mem[pn][0], 0, p.q % 256);
      assert PageByte(mem'[pn], 0) == WordByte(mem'[pn][0], 0);
    }
    hide WellFormed, HeapPage, SameTranslations, Stored, Lookup;
    HeapFramed(s.store, tag, mem', root, p, hi, hi + 1);
    HeapGrows(mem', root, p, hi);
  }

  lemma HeapGrows(mem: Memory, root: nat, p: Plan, hi: nat)
    requires Heap(mem, root, p, hi, hi + 1) && HeapPage(mem, root, hi, p.q)
    ensures Heap(mem, root, p, hi + 1, hi + 1)
  {
    hide HeapPage;
  }

  // ---- Runs ----

  /** One of the program's own traps, whose answer it has looked at if it does more than wait. */
  lemma TrapKeeps(s: State, tag: Tags, p: Plan, c: Client, regs: Registers, c1: Client)
    requires Inv(s, tag) && ValidPlan(p) && ProgramOk(s, p, c) && s.current == p.q && s.status.Running?
    requires Own(s, p, c, Trap(regs), c1) && !Exception(s, regs).status.Panicked?
    ensures ProgramOk(Exception(s, regs), p, c1)
    ensures ViewOf(Exception(s, regs), p.q, p.heap) == ViewOf(Saved(s, regs), p.q, p.heap)
  {
    var rax := s.procs[p.q].regs.rax;
    var d := Seen(c, rax);
    NoFault(s, p, c, Trap(regs), c1);
    LooksAtAnswer(s, p, c);
    assert d.heap <= p.heap.hi;
    hide Inv, ProgramOk, OwnStore, CanStore, Lookup, ViewOf, Exception, Stored, Seen;
    if IsTrap(Trap(regs), INT_TIMER) && regs.rax == rax && c1 == c {
      QuietTrap(s, tag, p, regs, c, c1);
    } else if regs.intno == INT_SYS_PAGE_ALLOC {
      AllocMoves(s, tag, p, d, regs);
    } else {
      TrapIsOther(s, p, c, regs);
      QuietTrap(s, tag, p, regs, d, c1);
    }
  }

  lemma TrapIsOther(s: State, p: Plan, c: Client, regs: Registers)
    requires p.q < NPROC && regs.intno != INT_PAGEFAULT
    ensures !OwnStore(s, p, Trap(regs))
    ensures !Seen(c, s.procs[p.q].regs.rax).place.GotPid? && !Seen(c, s.procs[p.q].regs.rax).place.Returned?
  {
    hide CanStore;
  }

  /** Neither its own stores nor the store to a new page of its heap arrive as faults. */
  lemma NoFault(s: State, p: Plan, c: Client, ev: Event, c1: Client)
    requires ValidPlan(p) && ProgramOk(s, p, c) && Own(s, p, c, ev, c1)
    ensures !IsTrap(ev, INT_PAGEFAULT)
  {
    hide Lookup, Heap, Stored;
    LooksAtAnswer(s, p, c);
    if OwnStore(s, p, ev) {
      OwnStoreStores(s, p, c, ev);
    }
  }

  lemma WriteKeeps(s: State, tag: Tags, p: Plan, c: Client, va: nat, w: Word, c': Client)
    requires Inv(s, tag) && ValidPlan(p) && ProgramOk(s, p, c) && s.current == p.q && s.status.Running?
    requires Own(s, p, c, Write(va, w), c')
    ensures ProgramOk(UserStore(s, va, w), p, c')
  {
    hide Inv, Heap, HomeOk, Lookup, UserStore, Stored, OffHeap;
    LooksAtAnswer(s, p, c);
    var d := Seen(c, s.procs[p.q].regs.rax);
    if OwnStore(s, p, Write(va, w)) {
      OwnStoreStores(s, p, c, Write(va, w));
    }
    hide OwnStore;
    if OffHeap(p, Write(va, w)) && c' == c {
      StoreOffHeap(s, tag, p, c, va, w);
    } else if OffHeap(p, Write(va, w)) && c' == d {
      StoreOffHeap(s, tag, p, d, va, w);
    } else {
      HeapStore(s, tag, p, d);
    }
  }

  lemma OwnMoveKeeps(s: State, tag: Tags, tag1: Tags, p: Plan, read: Reader, c: Client, ev: Event, c': Client)
    requires ClientOk(s, tag, p, read, c) && s.status.Running? && s.current == p.q && Moves(s, p, read, c, ev, c')
    requires !Step(s, ev).status.Panicked? && Inv(Step(s, ev), tag1)
    ensures ClientOk(Step(s, ev), tag1, p, read, c')
  {
    hide Inv, Exception, Lookup, ViewOf, Own, ProgramOk;
    match ev
    case Write(va, w) =>
      WriteKeeps(s, tag, p, c, va, w, c');
      StoreShape(s, va, w);
    case Trap(regs) =>
      TrapKeeps(s, tag, p, c, regs, read(ViewOf(Saved(s, regs), p.q, p.heap)));
  }

  lemma MoveKeeps(s: State, tag: Tags, p: Plan, read: Reader, c: Client, ev: Event, c': Client)
    returns (tag': Tags)
    requires ClientOk(s, tag, p, read, c) && s.status.Running? && Moves(s, p, read, c, ev, c')
    requires !Step(s, ev).status.Panicked?
    ensures ClientOk(Step(s, ev), tag', p, read, c')
  {
    MoveOk(s, p, read, c, ev, c');
    hide Moves, ClientOk, Step, OthersUndisturbed, EventOk;
    ClientParts(s, tag, p, read, c);
    tag' := StepKeeps(s, tag, ev);
    if s.current != p.q {
      OtherMoves(s, tag, Step(s, ev), tag', p, read, c);
    } else {
      OwnMoveKeeps(s, tag, tag', p, read, c, ev, c');
    }
  }

  lemma ClientParts(s: State, tag: Tags, p: Plan, read: Reader, c: Client)
    requires ClientOk(s, tag, p, read, c)
    ensures Inv(s, tag) && !s.status.Panicked? && s.current < NPROC
  {
    hide ProgramOk;
  }

  lemma MoveOk(s: State, p: Plan, read: Reader, c: Client, ev: Event, c': Client)
    requires ValidPlan(p) && p.heap.lo <= c.heap <= p.heap.hi && Moves(s, p, read, c, ev, c')
    ensures EventOk(s, ev)
    ensures s.current != p.q ==> c' == read(ViewOf(Step(s, ev), p.q, p.heap))
  {
    hide Lookup, Stored, UserWritable, ViewOf, Step, FreeCount;
    assert Canon(c.heap * PAGE_SIZE / PAGE_SIZE) == c.heap;
  }

  /** A run of the machine together with the program's variables in each of its states. */
  ghost predicate Follows(s: State, p: Plan, read: Reader, evs: seq<Event>, cs: seq<Client>)
    requires ValidPlan(p)
  {
    && |cs| == |evs| + 1
    && forall k | 0 <= k < |evs| ::
      After(s, evs[..k]).status.Running? && Moves(After(s, evs[..k]), p, read, cs[k], evs[k], cs[k + 1])
  }

  lemma {:induction false} FollowsPrefix(s: State, p: Plan, read: Reader, evs: seq<Event>, cs: seq<Client>)
    requires ValidPlan(p) && evs != [] && Follows(s, p, read, evs, cs)
    ensures var n := |evs| - 1;
      && Follows(s, p, read, evs[..n], cs[..n + 1])
      && After(s, evs[..n]).status.Running? && Moves(After(s, evs[..n]), p, read, cs[n], evs[n], cs[n + 1])
  {
    hide Moves, After;
    var init, start := evs[..|evs| - 1], cs[..|evs|];
    forall k | 0 <= k < |init|
      ensures After(s, init[..k]).status.Running?
      ensures Moves(After(s, init[..k]), p, read, start[k], init[k], start[k + 1])
    {
      assert init[..k] == evs[..k];
    }
  }

  /** Under every schedule, whatever other processes do within the guard of RunOk: in every state
      reached without a panic the program has not been stopped by a page fault, finds its variables
      as it left them, every heap page it has written still reads back its process number through its
      own translation, and the pages from heap_top up to the stack are unmapped. */
  lemma {:induction false} AllocatorRuns(s: State, tag: Tags, p: Plan, read: Reader, evs: seq<Event>,
      cs: seq<Client>)
    returns (tag': Tags)
    requires ValidPlan(p) && Follows(s, p, read, evs, cs) && ClientOk(s, tag, p, read, cs[0])
    requires !After(s, evs).status.Panicked?
    ensures ClientOk(After(s, evs), tag', p, read, cs[|evs|])
    decreases |evs|
  {
    tag' := tag;
    if evs != [] {
      hide ClientOk, Moves, Step;
      var n := |evs| - 1;
      FollowsPrefix(s, p, read, evs, cs);
      hide Follows;
      var tag1 := AllocatorRuns(s, tag, p, read, evs[..n], cs[..n + 1]);
      tag' := MoveKeeps(After(s, evs[..n]), tag1, p, read, cs[n], evs[n], cs[n + 1]);
    }
  }

  /** The state s' of a run, at the program's own next event: no store of its faults, a request is
      always for an unmapped page, p is its process number, and each page of its heap reads back p. */
  predicate SafeAt(s': State, p: Plan, c: Client, ev: Event)
    requires ValidPlan(p)
  {
    var mem, root := s'.store.mem, s'.procs[p.q].table;
    && !IsTrap(ev, INT_PAGEFAULT)
    && (IsTrap(ev, INT_SYS_PAGE_ALLOC) ==> Lookup(mem, root, Canon(ev.regs.rdi / PAGE_SIZE)) == Unmapped)
    && (c.place !in {Begin, GotPid} ==> c.pid == p.q)
    && (forall v | p.heap.lo <= v < c.heap :: LoadByte(mem, root, v * PAGE_SIZE) == Some(p.q % 256))
  }

  lemma SafeNow(s: State, tag: Tags, p: Plan, read: Reader, c: Client, ev: Event, c': Client)
    requires ClientOk(s, tag, p, read, c) && s.current == p.q && Moves(s, p, read, c, ev, c')
    ensures SafeAt(s, p, c, ev)
  {
    OwnIsSafe(s, p, c, ev, if ev.Write? then c' else read(ViewOf(Saved(s, ev.regs), p.q, p.heap)));
    hide Inv, Lookup, PageByte, LoadByte, Moves;
    var root := s.procs[p.q].table;
    forall v | p.heap.lo <= v < c.heap
      ensures LoadByte(s.store.mem, root, v * PAGE_SIZE) == Some(p.q % 256)
    {
      HeapReads(s.store.mem, root, p, c.heap, NextPage(s.procs[p.q].regs.rax, c), v);
    }
  }

  lemma OwnIsSafe(s: State, p: Plan, c: Client, ev: Event, c1: Client)
    requires ValidPlan(p) && ProgramOk(s, p, c) && Own(s, p, c, ev, c1)
    ensures !IsTrap(ev, INT_PAGEFAULT)
    ensures IsTrap(ev, INT_SYS_PAGE_ALLOC) ==>
      Lookup(s.store.mem, s.procs[p.q].table, Canon(ev.regs.rdi / PAGE_SIZE)) == Unmapped
  {
    LooksAtAnswer(s, p, c);
    var d := Seen(c, s.procs[p.q].regs.rax);
    assert Canon(d.heap * PAGE_SIZE / PAGE_SIZE) == d.heap;
    NoFault(s, p, c, ev, c1);
    hide Lookup, HeapPage, HomeOk, Stored;
  }

  lemma HeapReads(mem: Memory, root: nat, p: Plan, hi: nat, next: nat, v: nat)
    requires ValidPlan(p) && Heap(mem, root, p, hi, next) && p.heap.lo <= v < hi <= p.heap.hi
    ensures LoadByte(mem, root, v * PAGE_SIZE) == Some(p.q % 256)
  {
    hide LookupFrom, PageByte;
    assert HeapPage(mem, root, v, p.q);
    assert v * PAGE_SIZE / PAGE_SIZE == v && v * PAGE_SIZE % PAGE_SIZE == 0 && Canon(v) == v;
  }

  lemma {:induction false} AllocatorSafe(s: State, tag: Tags, p: Plan, read: Reader, evs: seq<Event>,
      cs: seq<Client>, ev: Event, c': Client)
    requires ValidPlan(p) && Follows(s, p, read, evs, cs) && ClientOk(s, tag, p, read, cs[0])
    requires After(s, evs).status.Running? && After(s, evs).current == p.q
    requires Moves(After(s, evs), p, read, cs[|evs|], ev, c')
    ensures SafeAt(After(s, evs), p, cs[|evs|], ev)
  {
    var tag' := AllocatorRuns(s, tag, p, read, evs, cs);
    hide After, Follows, ClientOk, Moves, SafeAt;
    SafeNow(After(s, evs), tag', p, read, cs[|evs|], ev, c');
  }

  // ---- The program can always go on ----

  /** One way to keep the variables: all in a register. */
  function Encode(c: Client): nat
    requires 0 <= c.pid < NPROC
  {
    var place := match c.place
      case Begin => 0 case GotPid => 1 case Loop => 2 case Returned => 3 case Granted => 4 case Idle => 5;
    (c.heap * NPROC + c.pid) * 6 + place
  }

  function InRegister(v: View): Client {
    var n := v.regs.others;
    var place := match n % 6
      case 0 => Begin case 1 => GotPid case 2 => Loop case 3 => Returned case 4 => Granted case _ => Idle;
    Client(place, n / 6 % NPROC, n / 6 / NPROC)
  }

  lemma InRegisterReads(c: Client, v: View)
    requires 0 <= c.pid < NPROC && v.regs.others == Encode(c)
    ensures InRegister(v) == c
  {
    assert Encode(c) / 6 == c.heap * NPROC + c.pid;
  }

  /** The call or store the program makes next, once it has looked at its last answer. */
  predicate NextStep(p: Plan, d: Client, ev: Event) {
    match d.place
    case Begin => IsTrap(ev, INT_SYS_GETPID)
    case Loop => IsTrap(ev, if d.heap == p.heap.hi then INT_SYS_YIELD else INT_SYS_PAGE_ALLOC)
    case Granted => ev.Write? && ev.va == d.heap * PAGE_SIZE
    case _ => IsTrap(ev, INT_SYS_YIELD)
  }

  /** In every state of such a run in which the program runs, its next step is a move. */
  lemma GoesOn(s: State, tag: Tags, p: Plan, c: Client)
    returns (ev: Event, c': Client)
    requires ClientOk(s, tag, p, InRegister, c) && s.current == p.q && 0 <= c.pid < NPROC
    ensures Moves(s, p, InRegister, c, ev, c') && NextStep(p, Seen(c, s.procs[p.q].regs.rax), ev)
  {
    hide Inv, Heap, Step, Lookup, Stored, InRegister, Encode;
    LooksAtAnswer(s, p, c);
    var d := Seen(c, s.procs[p.q].regs.rax);
    if d.place.Granted? {
      ev := Write(d.heap * PAGE_SIZE, Stored(s, d.pid, Lookup(s.store.mem, s.procs[p.q].table, d.heap)));
      c' := d.(place := Loop, heap := d.heap + 1);
    } else {
      var next, intno := d, INT_SYS_YIELD;
      if d.place.Begin? {
        next, intno := d.(place := GotPid), INT_SYS_GETPID;
      } else if d.place.Loop? && d.heap != p.heap.hi {
        next, intno := d.(place := Returned), INT_SYS_PAGE_ALLOC;
      }
      var regs := s.procs[p.q].regs.(intno := intno, rdi := d.heap * PAGE_SIZE, others := Encode(next));
      ev := Trap(regs);
      c' := InRegister(ViewOf(Step(s, ev), p.q, p.heap));
      InRegisterReads(next, ViewOf(Saved(s, regs), p.q, p.heap));
    }
  }

  // ---- From boot ----

  /** The plan of a program whose heap lies between its image and the stack page. */
  predicate PlanFor(p: Plan, program: Program) {
    && ValidPlan(p) && p.heap.hi == VM_END - 1
    && (forall x | p.heap.lo <= x < p.heap.hi :: OffImage(program.segments, x))
    && (forall v | v in p.home :: v == VM_END - 1 || !OffImage(program.segments, v))
  }

  /** The program before its first instruction. */
  predicate AtStart(s: State, p: Plan, read: Reader, c: Client)
    requires ValidPlan(p)
  {
    c.place == Begin && c.heap == p.heap.lo && c == read(ViewOf(s, p.q, p.heap))
  }

  lemma PreparedClient(s: State, tag: Tags, p: Plan, read: Reader, c: Client, program: Program)
    requires Inv(s, tag) && !s.status.Panicked? && ValidProgram(program) && PlanFor(p, program)
    requires Prepared(s, tag, p.q, program) && AtStart(s, p, read, c)
    ensures ClientOk(s, tag, p, read, c)
  {
    PreparedHome(s, tag, p, program);
    hide Inv, AllPlaced, StackMapped, OffImage, HomeOk, ViewOf;
  }

  /** The pages of the image and of the stack are the process's to write. */
  lemma PreparedHome(s: State, tag: Tags, p: Plan, program: Program)
    requires ValidProgram(program) && PlanFor(p, program) && Prepared(s, tag, p.q, program)
    ensures HomeOk(s.store.mem, s.procs[p.q].table, p)
  {
    hide Lookup;
    forall v | v in p.home
      ensures UserWritable(Lookup(s.store.mem, s.procs[p.q].table, v))
    {
      if v != VM_END - 1 {
        var i :| 0 <= i < |program.segments| && OnPage(program.segments[i], v);
        assert Placed(s.store.mem, tag, s.procs[p.q].table, p.q, program.segments[i]);
      }
    }
  }

  /** From power-on, from its first instruction: set up by kernel(), with any programs beside it, the
      allocator never faults, never asks for a page it has, and reads back what it wrote, for as long
      as the machine runs. */
  lemma {:induction false} BootedAllocatorSafe(mem: Memory, l: Layout, programs: seq<Program>, p: Plan,
      read: Reader, evs: seq<Event>, cs: seq<Client>, ev: Event, c': Client)
    requires ValidLayout(l) && 1 <= |programs| < NPROC && ValidPrograms(programs)
    requires ImagesFit(AllSegments(programs))
    requires ValidPlan(p) && p.q <= |programs| && PlanFor(p, programs[p.q - 1])
    requires |cs| == |evs| + 1
    requires var s := Start(mem, l, programs);
      && Follows(s, p, read, evs, cs) && AtStart(s, p, read, cs[0]) && After(s, evs).status.Running?
      && After(s, evs).current == p.q && Moves(After(s, evs), p, read, cs[|evs|], ev, c')
    ensures SafeAt(After(Start(mem, l, programs), evs), p, cs[|evs|], ev)
  {
    hide Follows, Moves, After, Inv, Start, FreeCount, InitialInfo, Prepared, ValidProgram, PlanFor, ClientOk,
        SafeAt, ImagesFit, AtStart, ViewOf;
    var s := Start(mem, l, programs);
    var tag := KernelStarts(mem, l, programs);
    assert ValidProgram(programs[p.q - 1]);
    assert Prepared(s, tag, 1 + (p.q - 1), programs[p.q - 1]);
    PreparedClient(s, tag, p, read, cs[0], programs[p.q - 1]);
    AllocatorSafe(s, tag, p, read, evs, cs, ev, c');
  }
}
