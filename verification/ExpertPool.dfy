/**
 The private-page expert pool of windows/serve/prefetch.cc as threads that take atomic
 steps over shared memory.

 Resolver calls (`e0_mmid_base_res`) and prefill passes (`e0_pool_prefill`) run in any
 number and in any interleaving.  Every shared access is a step of its own: the load of a
 slot state, the compare-and-swap that claims it, taking and leaving the per-slot critical
 section, the check before a sleep, the sleep, the seek and the read on the one shared file
 handle, the charge, the publication and the wake-up.
 */
module ExpertPool {
  import opened Common

  /** One experts tensor: bytes per expert, file offset of expert 0, number of experts. */
  datatype Tensor = Tensor(per: nat, foff: nat, count: nat)

  /** A slot is one expert of one pooled tensor, looked up by tensor name. */
  datatype Slot = Slot(name: string, id: nat)

  /** The file, the tensor table built at start-up, and the two byte budgets (hot, observation). */
  datatype Config = Config(file: seq<byte>, tensors: map<string, Tensor>, cap: seq<nat>)

  /** Arguments of a resolver call; `data` is where the tensor's own pointer looks in the mapped file. */
  datatype Request = Request(name: string, data: nat, id: nat, nb02: nat)

  datatype Kind = Resolver(req: Request) | Prefill(reg: nat)

  /** Where a thread stands in the body it runs. */
  datatype Pc =
    | Lookup | Load | Cas
    | WaitEnter | WaitCheck | WaitSleep | Asleep | Woken | WaitLeave
    | FillEnter | FillLock | FillBudget | FillCommit | FillSeek | FillRead
    | FillCharge | FillUnlock | FillPublish | FillWake | FillLeave
    | Done

  /** Which base address a resolver call handed back. */
  datatype Base = Original | Pooled

  /** `todo` are the slots still to visit, the current one first. */
  datatype Thread = Thread(kind: Kind, todo: seq<Slot>, pc: Pc, ok: bool, base: Base)

  /**
   Shared memory.  `lock` maps a held critical section to its owner, `global` is the owner of
   `g_pmtx`, `pos` the position of the shared file handle.  `filler`, `fills` and `charged`
   are history: who claimed a slot, how many claims there were, which slots were charged to
   which region.
   */
  datatype State = State(
    threads: seq<Thread>,
    st: map<Slot, nat>,
    lock: map<Slot, nat>,
    global: Option<nat>,
    arena: map<string, seq<byte>>,
    pos: nat,
    bytes: seq<nat>,
    filler: map<Slot, nat>,
    fills: nat,
    charged: seq<(Slot, nat)>)

  /** What the environment decides in one step: success, and what a failed call leaves behind. */
  datatype Env = Env(ok: bool, junk: seq<byte>, pos: nat)

  /** Scheduled actions.  `Scribble` is a read in flight, `Timeout` the expiry of a sleep. */
  datatype Action =
    | Run(t: nat, env: Env)
    | Timeout(t: nat)
    | Scribble(t: nat, junk: seq<byte>)
    | Call(th: Thread)

  predicate IsSlot(c: Config, s: Slot) {
    s.name in c.tensors && s.id < c.tensors[s.name].count
  }

  function Slots(c: Config): set<Slot> {
    set n, i | n in c.tensors && 0 <= i < c.tensors[n].count :: Slot(n, i)
  }

  function Per(c: Config, s: Slot): nat requires IsSlot(c, s) { c.tensors[s.name].per }

  function Offset(c: Config, s: Slot): nat requires IsSlot(c, s) {
    c.tensors[s.name].foff + s.id * c.tensors[s.name].per
  }

  /** Every pooled tensor lies inside the file; `ReadFile` takes a 32-bit length. */
  ghost predicate ValidConfig(c: Config) {
    && |c.cap| == 2
    && forall n :: n in c.tensors ==>
        c.tensors[n].per < 0x1_0000_0000 &&
        c.tensors[n].foff + c.tensors[n].count * c.tensors[n].per <= |c.file|
  }

  predicate InTable(c: Config, r: Request) {
    r.name in c.tensors && c.tensors[r.name].per == r.nb02
  }

  /** The tensor is mapped from the file, and a pooled tensor is mapped from where the table says. */
  ghost predicate ValidRequest(c: Config, r: Request) {
    && r.data + r.id * r.nb02 + r.nb02 <= |c.file|
    && (r.name in c.tensors ==> r.data == c.tensors[r.name].foff && r.id < c.tensors[r.name].count)
  }

  /** The bytes the un-pooled engine would read for this request. */
  function Wanted(c: Config, r: Request): seq<byte> requires ValidRequest(c, r) {
    c.file[r.data + r.id * r.nb02 .. r.data + r.id * r.nb02 + r.nb02]
  }

  lemma BlockFits(id: nat, per: nat, count: nat)
    requires id < count
    ensures id * per + per <= count * per
  {
    assert (id + 1) * per <= count * per;
  }

  /** Expert `id`'s bytes in an arena of blocks of `per` bytes. */
  function Block(arena: seq<byte>, id: nat, per: nat): seq<byte>
    requires id * per + per <= |arena|
  {
    arena[id * per .. id * per + per]
  }

  function WriteBlock(arena: seq<byte>, id: nat, per: nat, data: seq<byte>): (r: seq<byte>)
    requires id * per + per <= |arena| && |data| == per
    ensures |r| == |arena|
  {
    arena[..id * per] + data + arena[id * per + per..]
  }

  /** Writing one expert's block leaves every other expert's block as it was. */
  lemma WriteBlockReads(arena: seq<byte>, id: nat, per: nat, data: seq<byte>, other: nat)
    requires id * per + per <= |arena| && other * per + per <= |arena| && |data| == per
    ensures Block(WriteBlock(arena, id, per, data), other, per)
         == if other == id then data else Block(arena, other, per)
  {
    var w := WriteBlock(arena, id, per, data);
    if other < id {
      BlockFits(other, per, id);
      assert Block(w, other, per) == Block(arena, other, per);
    } else if other > id {
      BlockFits(id, per, other);
      assert Block(w, other, per) == Block(arena, other, per);
    } else {
      assert Block(w, id, per) == data;
    }
  }

  // ---- thread programs ---------------------------------------------------------------

  predicate Current(th: Thread, s: Slot) { th.todo != [] && th.todo[0] == s }

  predicate Filling(pc: Pc) {
    pc.FillEnter? || pc.FillLock? || pc.FillBudget? || pc.FillCommit? || pc.FillSeek? || pc.FillRead?
    || pc.FillCharge? || pc.FillUnlock? || pc.FillPublish?
  }

  /** Between the claim and the wake-up. */
  predicate WillWake(pc: Pc) { Filling(pc) || pc.FillWake? }

  predicate HoldsLock(pc: Pc) {
    pc.WaitCheck? || pc.WaitSleep? || pc.WaitLeave? || (Filling(pc) && !pc.FillEnter?) || pc.FillWake? || pc.FillLeave?
  }

  predicate HoldsGlobal(pc: Pc) {
    pc.FillBudget? || pc.FillCommit? || pc.FillSeek? || pc.FillRead? || pc.FillCharge? || pc.FillUnlock?
  }

  predicate Waiting(pc: Pc) {
    pc.WaitEnter? || pc.WaitCheck? || pc.WaitSleep? || pc.Woken? || pc.WaitLeave?
  }

  predicate Bracketing(pc: Pc) {
    pc.FillEnter? || pc.FillLock? || pc.FillPublish? || pc.FillWake? || pc.FillLeave?
  }

  function Region(k: Kind): nat { if k.Resolver? then 0 else k.reg }

  /** Only sleeping threads, finished threads and threads in front of a held lock cannot step. */
  predicate Enabled(s: State, t: nat) {
    t < |s.threads| &&
    var th := s.threads[t];
    match th.pc
    case Done => false
    case Asleep => false
    case WaitEnter => th.todo != [] && th.todo[0] !in s.lock
    case Woken => th.todo != [] && th.todo[0] !in s.lock
    case FillEnter => th.todo != [] && th.todo[0] !in s.lock
    case FillLock => s.global.None?
    case _ => true
  }

  // Accesses to shared memory, one function each; `th` is what the thread becomes.

  function Set(s: State, t: nat, th: Thread): State requires t < |s.threads| {
    s.(threads := s.threads[t := th])
  }

  /** A successful `InterlockedCompareExchange(&st[id], 1, 0)`. */
  function Claim(s: State, t: nat, th: Thread, x: Slot): State requires t < |s.threads| {
    s.(threads := s.threads[t := th], st := s.st[x := 1], filler := s.filler[x := t], fills := s.fills + 1)
  }

  function Acquire(s: State, t: nat, th: Thread, x: Slot): State requires t < |s.threads| {
    s.(threads := s.threads[t := th], lock := s.lock[x := t])
  }

  function Release(s: State, t: nat, th: Thread, x: Slot): State requires t < |s.threads| {
    s.(threads := s.threads[t := th], lock := s.lock - {x})
  }

  function SetGlobal(s: State, t: nat, th: Thread, owner: Option<nat>): State requires t < |s.threads| {
    s.(threads := s.threads[t := th], global := owner)
  }

  /** The position of the one file handle after a seek or a read. */
  function Move(s: State, t: nat, th: Thread, pos: nat): State requires t < |s.threads| {
    s.(threads := s.threads[t := th], pos := pos)
  }

  /** Bytes landing in a slot's pages. */
  function Store(c: Config, s: State, x: Slot, data: seq<byte>): State {
    if IsSlot(c, x) && x.name in s.arena && |data| == Per(c, x)
       && x.id * Per(c, x) + Per(c, x) <= |s.arena[x.name]| then
      s.(arena := s.arena[x.name := WriteBlock(s.arena[x.name], x.id, Per(c, x), data)])
    else s
  }

  function Charge(s: State, t: nat, th: Thread, x: Slot, reg: nat, per: nat): State
    requires t < |s.threads| && reg < |s.bytes|
  {
    s.(threads := s.threads[t := th], bytes := s.bytes[reg := s.bytes[reg] + per], charged := s.charged + [(x, reg)])
  }

  function Publish(s: State, t: nat, th: Thread, x: Slot, v: nat): State requires t < |s.threads| {
    s.(threads := s.threads[t := th], st := s.st[x := v])
  }

  /** `WakeAllConditionVariable` on the slot's condition variable. */
  function Woke(th: Thread, x: Slot): Thread {
    if th.pc.Asleep? && Current(th, x) then th.(pc := Woken) else th
  }

  function WakeAll(s: State, t: nat, th: Thread, x: Slot): State requires t < |s.threads| {
    s.(threads := seq(|s.threads|, i requires 0 <= i < |s.threads| => if i == t then th else Woke(s.threads[i], x)))
  }

  /** After a slot is left alone: the resolver looks again, the prefill loop goes on. */
  function NextItem(th: Thread): Thread requires th.todo != [] {
    if th.kind.Resolver? then th.(pc := Load) else th.(pc := Load, todo := th.todo[1..])
  }

  function AfterLoad(th: Thread, st: nat): Thread requires th.todo != [] {
    if st == 0 then th.(pc := Cas)
    else if th.kind.Prefill? then NextItem(th)
    else if st == 1 then th.(pc := WaitEnter)
    else th.(pc := Done, base := if st == 2 then Pooled else Original)
  }

  function AfterLookup(c: Config, th: Thread): Thread {
    if th.kind.Prefill? then th.(pc := Load)
    else if InTable(c, th.kind.req) then th.(pc := Load, todo := [Slot(th.kind.req.name, th.kind.req.id)])
    else th.(pc := Done, base := Original)
  }

  function AfterFill(th: Thread): Thread requires th.todo != [] {
    if th.kind.Resolver? then th.(pc := Done, base := if th.ok then Pooled else Original) else NextItem(th)
  }

  predicate Fits(c: Config, s: State, th: Thread)
    requires |s.bytes| == 2 && |c.cap| == 2 && Region(th.kind) < 2
    requires th.todo != [] && IsSlot(c, th.todo[0])
  {
    s.bytes[Region(th.kind)] + Per(c, th.todo[0]) <= c.cap[Region(th.kind)]
  }

  /** What a thread needs to be in to have a next step at all. */
  predicate Runnable(c: Config, s: State, t: nat) {
    && Enabled(s, t) && |s.bytes| == 2 && |c.cap| == 2
    && var th := s.threads[t];
       && Region(th.kind) < 2
       && (th.pc.Lookup? || (th.pc.Load? && th.todo == [])
           || (th.todo != [] && IsSlot(c, th.todo[0]) && th.todo[0] in s.st))
  }

  /** The outcome of a `ReadFile`: what lands in memory, the thread after it, the handle's position. */
  datatype Outcome = Outcome(data: seq<byte>, th: Thread, pos: nat)

  /** Either the bytes at the handle's position, or a failure that leaves junk behind. */
  function ReadFile(c: Config, pos: nat, len: nat, th: Thread, e: Env): Outcome {
    if e.ok && pos + len <= |c.file| then
      Outcome(c.file[pos .. pos + len], th.(pc := FillCharge, ok := true), pos + len)
    else
      Outcome(e.junk, th.(pc := FillUnlock), e.pos)
  }

  function Read(c: Config, s: State, t: nat, e: Env): State
    requires Runnable(c, s, t) && s.threads[t].pc.FillRead?
  {
    var x := s.threads[t].todo[0];
    var r := ReadFile(c, s.pos, Per(c, x), s.threads[t], e);
    Move(Store(c, s, x, r.data), t, r.th, r.pos)
  }

  /** Finding the table entry, loading the slot state, trying to claim. */
  function LookStep(c: Config, s: State, t: nat): State
    requires Runnable(c, s, t) && (s.threads[t].pc.Lookup? || s.threads[t].pc.Load? || s.threads[t].pc.Cas?)
  {
    var th := s.threads[t];
    match th.pc
    case Lookup => Set(s, t, AfterLookup(c, th))
    case Load => if th.todo == [] then Set(s, t, th.(pc := Done)) else Set(s, t, AfterLoad(th, s.st[th.todo[0]]))
    case Cas =>
      if s.st[th.todo[0]] != 0 then Set(s, t, NextItem(th))
      else Claim(s, t, th.(pc := FillEnter, ok := false), th.todo[0])
  }

  /** The sleep of a resolver call on a slot another thread is filling. */
  function WaitStep(c: Config, s: State, t: nat): State
    requires Runnable(c, s, t) && Waiting(s.threads[t].pc)
  {
    var th := s.threads[t];
    match th.pc
    case WaitEnter => Acquire(s, t, th.(pc := WaitCheck), th.todo[0])
    case WaitCheck => Set(s, t, th.(pc := if s.st[th.todo[0]] == 1 then WaitSleep else WaitLeave))
    case WaitSleep => Release(s, t, th.(pc := Asleep), th.todo[0])
    case Woken => Acquire(s, t, th.(pc := WaitLeave), th.todo[0])
    case WaitLeave => Release(s, t, th.(pc := Load), th.todo[0])
  }

  /** The part of a fill done under the file lock, apart from the read. */
  function FileStep(c: Config, s: State, t: nat, e: Env): State
    requires Runnable(c, s, t) && HoldsGlobal(s.threads[t].pc) && !s.threads[t].pc.FillRead?
  {
    var th := s.threads[t];
    match th.pc
    case FillBudget => Set(s, t, th.(pc := if Fits(c, s, th) then FillCommit else FillUnlock))
    case FillCommit => Set(s, t, th.(pc := if e.ok then FillSeek else FillUnlock))
    case FillSeek =>
      if e.ok then Move(s, t, th.(pc := FillRead), Offset(c, th.todo[0]))
      else Move(s, t, th.(pc := FillUnlock), e.pos)
    case FillCharge => Charge(s, t, th.(pc := FillUnlock), th.todo[0], Region(th.kind), Per(c, th.todo[0]))
    case FillUnlock => SetGlobal(s, t, th.(pc := FillPublish), None)
  }

  /** The rest of a fill: both locks, the publication and the wake-up. */
  function SlotStep(c: Config, s: State, t: nat): State
    requires Runnable(c, s, t) && Bracketing(s.threads[t].pc)
  {
    var th := s.threads[t];
    match th.pc
    case FillEnter => Acquire(s, t, th.(pc := FillLock), th.todo[0])
    case FillLock => SetGlobal(s, t, th.(pc := FillBudget), Some(t))
    case FillPublish => Publish(s, t, th.(pc := FillWake), th.todo[0], if th.ok then 2 else 3)
    case FillWake => WakeAll(s, t, th.(pc := FillLeave), th.todo[0])
    case FillLeave => Release(s, t, AfterFill(th), th.todo[0])
  }

  /** One step of thread `t`. */
  function Next(c: Config, s: State, t: nat, e: Env): State
    requires Runnable(c, s, t)
  {
    if Waiting(s.threads[t].pc) then WaitStep(c, s, t)
    else if s.threads[t].pc.FillRead? then Read(c, s, t, e)
    else if HoldsGlobal(s.threads[t].pc) then FileStep(c, s, t, e)
    else if Bracketing(s.threads[t].pc) then SlotStep(c, s, t)
    else LookStep(c, s, t)
  }

  /** A call that may start: a resolver call, or a prefill pass over slots of the table. */
  ghost predicate Fresh(c: Config, th: Thread) {
    && th.pc == Lookup
    && match th.kind
       case Resolver(r) => th.todo == [] && ValidRequest(c, r)
       case Prefill(reg) => reg < 2 && forall k :: 0 <= k < |th.todo| ==> IsSlot(c, th.todo[k])
  }

  ghost predicate Can(c: Config, s: State, a: Action) {
    match a
    case Run(t, e) => Enabled(s, t)
    case Timeout(t) => t < |s.threads| && s.threads[t].pc.Asleep?
    case Scribble(t, junk) => t < |s.threads| && s.threads[t].pc.FillRead?
    case Call(th) => Fresh(c, th)
  }

  function After(c: Config, s: State, a: Action): State {
    match a
    case Run(t, e) => if Runnable(c, s, t) then Next(c, s, t, e) else s
    case Timeout(t) =>
      if t < |s.threads| then Set(s, t, s.threads[t].(pc := Woken)) else s
    case Scribble(t, junk) =>
      if t < |s.threads| && s.threads[t].todo != [] then Store(c, s, s.threads[t].todo[0], junk) else s
    case Call(th) => s.(threads := s.threads + [th])
  }

  /** Start-up: no thread, every slot empty, arenas reserved with unknown contents. */
  ghost predicate Initial(c: Config, s: State) {
    && s.threads == [] && s.lock == map[] && s.global == None && s.filler == map[] && s.fills == 0
    && s.charged == [] && s.bytes == [0, 0]
    && s.st == (map x | x in Slots(c) :: 0)
    && s.arena.Keys == c.tensors.Keys
    && forall n :: n in c.tensors ==> |s.arena[n]| == c.tensors[n].count * c.tensors[n].per
  }

  /** The state after a schedule, and whether each of its actions was possible in turn. */
  function Exec(c: Config, s: State, acts: seq<Action>): State {
    if acts == [] then s else After(c, Exec(c, s, acts[..|acts| - 1]), acts[|acts| - 1])
  }

  ghost predicate Schedule(c: Config, s: State, acts: seq<Action>) {
    acts == [] ||
    (Schedule(c, s, acts[..|acts| - 1]) && Can(c, Exec(c, s, acts[..|acts| - 1]), acts[|acts| - 1]))
  }

  // ---- the invariant ------------------------------------------------------------------

  function ChargedTo(c: Config, log: seq<(Slot, nat)>, reg: nat): nat {
    if log == [] then 0
    else
      var last := log[|log| - 1];
      ChargedTo(c, log[..|log| - 1], reg) + (if last.1 == reg && IsSlot(c, last.0) then Per(c, last.0) else 0)
  }

  /** Shapes: tables cover exactly the slots, the arenas are as large as reserved. */
  ghost predicate Shape(c: Config, s: State) {
    && |s.bytes| == 2
    && s.arena.Keys == c.tensors.Keys
    && (forall n :: n in c.tensors ==> |s.arena[n]| == c.tensors[n].count * c.tensors[n].per)
    && (forall x :: x in s.st <==> IsSlot(c, x))
    && (forall x :: x in s.st ==> s.st[x] <= 3)
    && (forall x :: x in s.filler <==> x in s.st && s.st[x] != 0)
    && s.fills == |s.filler|
  }

  ghost predicate Locked(s: State, t: nat, x: Slot) { x in s.lock && s.lock[x] == t }

  /** Thread `t` won the claim on a slot that is still marked as being filled. */
  ghost predicate Owns(s: State, t: nat, x: Slot, v: nat) {
    x in s.filler && s.filler[x] == t && x in s.st && s.st[x] == v
  }

  ghost predicate Room(c: Config, s: State, th: Thread) {
    && |s.bytes| == 2 && |c.cap| == 2 && Region(th.kind) < 2
    && th.todo != [] && IsSlot(c, th.todo[0])
    && Fits(c, s, th)
  }

  ghost predicate BlockReady(c: Config, s: State, x: Slot)
    requires IsSlot(c, x)
  {
    && x.name in s.arena
    && x.id * Per(c, x) + Per(c, x) <= |s.arena[x.name]|
    && Offset(c, x) + Per(c, x) <= |c.file|
    && Block(s.arena[x.name], x.id, Per(c, x)) == c.file[Offset(c, x) .. Offset(c, x) + Per(c, x)]
  }

  /** What holds of a thread by its position in the body it runs. */
  ghost predicate PcOk(c: Config, s: State, t: nat, th: Thread)
    requires ValidConfig(c)
  {
    if th.pc.Lookup? || th.pc.Load? || th.pc.Done? then true
    else
      && th.todo != [] && IsSlot(c, th.todo[0])
      && var x := th.todo[0];
         match th.pc
         case WaitEnter => th.kind.Resolver? && x in s.filler
         case WaitCheck => th.kind.Resolver? && x in s.filler && Locked(s, t, x)
         case WaitSleep => th.kind.Resolver? && x in s.filler && Locked(s, t, x) && x in s.st && s.st[x] == 1
         case Asleep => th.kind.Resolver? && x in s.filler
         case Woken => th.kind.Resolver? && x in s.filler
         case WaitLeave => th.kind.Resolver? && x in s.filler && Locked(s, t, x)
         case FillEnter => Owns(s, t, x, 1) && !th.ok
         case FillLock => Owns(s, t, x, 1) && !th.ok && Locked(s, t, x)
         case FillBudget => Owns(s, t, x, 1) && !th.ok && Locked(s, t, x) && s.global == Some(t)
         case FillCommit => Owns(s, t, x, 1) && !th.ok && Locked(s, t, x) && s.global == Some(t) && Room(c, s, th)
         case FillSeek => Owns(s, t, x, 1) && !th.ok && Locked(s, t, x) && s.global == Some(t) && Room(c, s, th)
         case FillRead => Owns(s, t, x, 1) && !th.ok && Locked(s, t, x) && s.global == Some(t) && Room(c, s, th)
                            && s.pos == Offset(c, x)
         case FillCharge => Owns(s, t, x, 1) && th.ok && Locked(s, t, x) && s.global == Some(t) && Room(c, s, th)
                            && BlockReady(c, s, x)
         case FillUnlock => Owns(s, t, x, 1) && Locked(s, t, x) && s.global == Some(t) && (th.ok ==> BlockReady(c, s, x))
         case FillPublish => Owns(s, t, x, 1) && Locked(s, t, x) && (th.ok ==> BlockReady(c, s, x))
         case FillWake => Owns(s, t, x, if th.ok then 2 else 3) && Locked(s, t, x)
         case FillLeave => Owns(s, t, x, if th.ok then 2 else 3) && Locked(s, t, x)
         case Cas => true
         case _ => false
  }

  /** What holds of a thread by the call it runs; a pooled answer names a ready slot. */
  ghost predicate CallOk(c: Config, s: State, th: Thread) {
    && Region(th.kind) < 2
    && (forall k :: 0 <= k < |th.todo| ==> IsSlot(c, th.todo[k]))
    && match th.kind
       case Prefill(_) => true
       case Resolver(r) =>
         && ValidRequest(c, r)
         && (!th.pc.Lookup? && !th.pc.Done? ==> InTable(c, r) && th.todo == [Slot(r.name, r.id)])
         && (th.pc.Done? && th.base.Pooled? ==>
              InTable(c, r) && Slot(r.name, r.id) in s.st && s.st[Slot(r.name, r.id)] == 2)
  }

  ghost predicate ThreadOk(c: Config, s: State, t: nat, th: Thread)
    requires ValidConfig(c)
  {
    CallOk(c, s, th) && PcOk(c, s, t, th)
  }

  /** A sleeping thread has a filler of its slot still on the way to the wake-up call. */
  ghost predicate NoLostWakeUp(s: State) {
    forall t :: 0 <= t < |s.threads| && s.threads[t].pc.Asleep? && s.threads[t].todo != [] ==>
      FillerAwake(s, s.threads[t].todo[0])
  }

  ghost predicate FillerAwake(s: State, x: Slot) {
    x in s.filler && s.filler[x] < |s.threads| && Current(s.threads[s.filler[x]], x) && WillWake(s.threads[s.filler[x]].pc)
  }

  /** Locks are held by threads that are inside them; a slot being filled has its filler inside. */
  ghost predicate Owners(s: State) {
    && (forall x :: x in s.lock ==>
          s.lock[x] < |s.threads| && Current(s.threads[s.lock[x]], x) && HoldsLock(s.threads[s.lock[x]].pc))
    && (s.global.Some? ==> s.global.value < |s.threads| && HoldsGlobal(s.threads[s.global.value].pc))
    && (forall x :: x in s.st && s.st[x] == 1 ==>
          x in s.filler && s.filler[x] < |s.threads| && Current(s.threads[s.filler[x]], x)
          && Filling(s.threads[s.filler[x]].pc))
  }

  /** A slot was charged exactly when it is ready, or filled and about to be published. */
  ghost predicate IsCharged(s: State, x: Slot) {
    && x in s.st
    && (s.st[x] == 2 ||
        (s.st[x] == 1 && x in s.filler && s.filler[x] < |s.threads| && s.threads[s.filler[x]].ok
         && !s.threads[s.filler[x]].pc.FillCharge?))
  }

  ghost predicate Accounts(c: Config, s: State)
    requires ValidConfig(c) && |s.bytes| == 2
  {
    && (forall r :: 0 <= r < 2 ==> s.bytes[r] == ChargedTo(c, s.charged, r) && s.bytes[r] <= c.cap[r])
    && (forall i :: 0 <= i < |s.charged| ==> IsSlot(c, s.charged[i].0) && s.charged[i].1 < 2 && IsCharged(s, s.charged[i].0))
    && (forall i, j :: 0 <= i < j < |s.charged| ==> s.charged[i].0 != s.charged[j].0)
    && (forall x :: IsCharged(s, x) ==> exists i :: 0 <= i < |s.charged| && s.charged[i].0 == x)
  }

  ghost predicate Threads(c: Config, s: State)
    requires ValidConfig(c)
  {
    forall t :: 0 <= t < |s.threads| ==> ThreadOk(c, s, t, s.threads[t])
  }

  /** A ready slot's pages hold the file's bytes. */
  ghost predicate Ready(c: Config, s: State)
    requires ValidConfig(c) && Shape(c, s)
  {
    forall x :: x in s.st && s.st[x] == 2 ==> BlockReady(c, s, x)
  }

  ghost predicate Inv(c: Config, s: State)
    requires ValidConfig(c)
  {
    Shape(c, s) && Threads(c, s) && Ready(c, s) && Owners(s) && NoLostWakeUp(s) && Accounts(c, s)
  }
}
