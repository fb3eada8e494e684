module ExpertPoolSafety {
  import opened Common
  import opened ExpertPool

  // ---- one access to shared memory, seen by another thread --------------------------

  lemma SetOther(c: Config, s: State, t: nat, th: Thread, u: nat, other: Thread)
    requires ValidConfig(c) && t < |s.threads| && u != t && ThreadOk(c, s, u, other)
    ensures ThreadOk(c, Set(s, t, th), u, other)
  {
  }

  lemma ClaimOther(c: Config, s: State, t: nat, th: Thread, x: Slot, u: nat, other: Thread)
    requires ValidConfig(c) && t < |s.threads| && u != t && ThreadOk(c, s, u, other)
    requires x in s.st && s.st[x] == 0 && x !in s.filler
    ensures ThreadOk(c, Claim(s, t, th, x), u, other)
  {
  }

  lemma AcquireOther(c: Config, s: State, t: nat, th: Thread, x: Slot, u: nat, other: Thread)
    requires ValidConfig(c) && t < |s.threads| && u != t && ThreadOk(c, s, u, other)
    requires x !in s.lock
    ensures ThreadOk(c, Acquire(s, t, th, x), u, other)
  {
  }

  lemma ReleaseOther(c: Config, s: State, t: nat, th: Thread, x: Slot, u: nat, other: Thread)
    requires ValidConfig(c) && t < |s.threads| && u != t && ThreadOk(c, s, u, other)
    requires Locked(s, t, x)
    ensures ThreadOk(c, Release(s, t, th, x), u, other)
  {
  }

  lemma GlobalOther(c: Config, s: State, t: nat, th: Thread, owner: Option<nat>, u: nat, other: Thread)
    requires ValidConfig(c) && t < |s.threads| && u != t && ThreadOk(c, s, u, other)
    requires s.global == None || s.global == Some(t)
    ensures ThreadOk(c, SetGlobal(s, t, th, owner), u, other)
  {
  }

  lemma MoveOther(c: Config, s: State, t: nat, th: Thread, pos: nat, u: nat, other: Thread)
    requires ValidConfig(c) && t < |s.threads| && u != t && ThreadOk(c, s, u, other)
    requires s.global == Some(t)
    ensures ThreadOk(c, Move(s, t, th, pos), u, other)
  {
  }

  lemma ChargeOther(c: Config, s: State, t: nat, th: Thread, x: Slot, reg: nat, per: nat, u: nat, other: Thread)
    requires ValidConfig(c) && t < |s.threads| && u != t && ThreadOk(c, s, u, other)
    requires s.global == Some(t) && reg < |s.bytes|
    ensures ThreadOk(c, Charge(s, t, th, x, reg, per), u, other)
  {
  }

  lemma PublishOther(c: Config, s: State, t: nat, th: Thread, x: Slot, v: nat, u: nat, other: Thread)
    requires ValidConfig(c) && t < |s.threads| && u != t && ThreadOk(c, s, u, other)
    requires Owns(s, t, x, 1) && Locked(s, t, x)
    ensures ThreadOk(c, Publish(s, t, th, x, v), u, other)
  {
  }

  lemma BlockStays(c: Config, s: State, x: Slot, data: seq<byte>, y: Slot)
    requires ValidConfig(c) && Shape(c, s) && IsSlot(c, x) && IsSlot(c, y) && x != y
    requires BlockReady(c, s, y)
    ensures BlockReady(c, Store(c, s, x, data), y)
  {
    if |data| == Per(c, x) && x.name == y.name {
      BlockFits(x.id, Per(c, x), c.tensors[x.name].count);
      WriteBlockReads(s.arena[x.name], x.id, Per(c, x), data, y.id);
    }
  }

  lemma StoreOther(c: Config, s: State, t: nat, x: Slot, data: seq<byte>, u: nat, other: Thread)
    requires ValidConfig(c) && Shape(c, s) && t < |s.threads| && u != t && ThreadOk(c, s, u, other)
    requires IsSlot(c, x) && Owns(s, t, x, 1)
    ensures ThreadOk(c, Store(c, s, x, data), u, other)
  {
    if other.todo != [] && IsSlot(c, other.todo[0]) && other.todo[0] != x && BlockReady(c, s, other.todo[0]) {
      BlockStays(c, s, x, data, other.todo[0]);
    }
  }

  // ---- one access to shared memory keeps the whole invariant ------------------------

  /** The thread keeps the locks it holds and stays, or stays out of, the filling part. */
  predicate SameRole(was: Thread, th: Thread) {
    && HoldsLock(th.pc) == HoldsLock(was.pc)
    && HoldsGlobal(th.pc) == HoldsGlobal(was.pc)
    && Filling(th.pc) == Filling(was.pc)
    && WillWake(th.pc) == WillWake(was.pc)
    && (HoldsLock(was.pc) || WillWake(was.pc) ==> th.todo == was.todo && th.ok == was.ok)
    && !was.pc.FillCharge? && !th.pc.FillCharge?
  }

  predicate SameFill(was: Thread, th: Thread) {
    && HoldsGlobal(th.pc) == HoldsGlobal(was.pc)
    && Filling(th.pc) == Filling(was.pc)
    && WillWake(th.pc) == WillWake(was.pc)
    && (WillWake(was.pc) ==> th.todo == was.todo && th.ok == was.ok)
    && !was.pc.FillCharge? && !th.pc.FillCharge?
  }

  lemma SetThreads(c: Config, s: State, t: nat, th: Thread)
    requires ValidConfig(c) && Threads(c, s) && t < |s.threads| && ThreadOk(c, Set(s, t, th), t, th)
    ensures Threads(c, Set(s, t, th))
  {
    forall u | 0 <= u < |s.threads| && u != t ensures ThreadOk(c, Set(s, t, th), u, s.threads[u]) {
      SetOther(c, s, t, th, u, s.threads[u]);
    }
  }

  lemma SetOwners(s: State, t: nat, th: Thread)
    requires t < |s.threads| && Owners(s)
    requires SameRole(s.threads[t], th)
    ensures Owners(Set(s, t, th))
  {
  }

  /** Apart from thread `t` only locks differ. */
  predicate OnlyThread(s: State, s': State, t: nat, th: Thread) {
    && t < |s.threads| && s'.threads == s.threads[t := th]
    && s'.st == s.st && s'.filler == s.filler && s'.bytes == s.bytes && s'.charged == s.charged
  }

  lemma SetSleep(s: State, s': State, t: nat, th: Thread)
    requires OnlyThread(s, s', t, th) && NoLostWakeUp(s)
    requires SameFill(s.threads[t], th) && !th.pc.Asleep?
    ensures NoLostWakeUp(s')
  {
  }

  lemma SetAccounts(c: Config, s: State, s': State, t: nat, th: Thread)
    requires ValidConfig(c) && |s.bytes| == 2 && Accounts(c, s) && Owners(s)
    requires OnlyThread(s, s', t, th) && SameFill(s.threads[t], th)
    ensures Accounts(c, s')
  {
    forall x ensures IsCharged(s', x) == IsCharged(s, x) {
    }
  }

  lemma SetKeeps(c: Config, s: State, t: nat, th: Thread)
    requires ValidConfig(c) && Inv(c, s) && t < |s.threads|
    requires SameRole(s.threads[t], th) && SameFill(s.threads[t], th) && !th.pc.Asleep?
    requires ThreadOk(c, Set(s, t, th), t, th)
    ensures Inv(c, Set(s, t, th))
  {
    SetThreads(c, s, t, th);
    SetOwners(s, t, th);
    SetSleep(s, Set(s, t, th), t, th);
    SetAccounts(c, s, Set(s, t, th), t, th);
  }

  lemma ClaimThreads(c: Config, s: State, t: nat, th: Thread, x: Slot)
    requires ValidConfig(c) && Threads(c, s) && t < |s.threads|
    requires x in s.st && s.st[x] == 0 && x !in s.filler && ThreadOk(c, Claim(s, t, th, x), t, th)
    ensures Threads(c, Claim(s, t, th, x))
  {
    forall u | 0 <= u < |s.threads| && u != t ensures ThreadOk(c, Claim(s, t, th, x), u, s.threads[u]) {
      ClaimOther(c, s, t, th, x, u, s.threads[u]);
    }
  }

  lemma ClaimOwners(s: State, t: nat, th: Thread, x: Slot)
    requires t < |s.threads| && Owners(s) && NoLostWakeUp(s)
    requires s.threads[t].pc.Cas? && th.pc.FillEnter? && Current(th, x) && x in s.st && s.st[x] == 0 && x !in s.filler
    ensures Owners(Claim(s, t, th, x)) && NoLostWakeUp(Claim(s, t, th, x))
  {
  }

  lemma ClaimAccounts(c: Config, s: State, t: nat, th: Thread, x: Slot)
    requires ValidConfig(c) && |s.bytes| == 2 && Accounts(c, s) && Owners(s) && t < |s.threads|
    requires s.threads[t].pc.Cas? && th.pc.FillEnter? && !th.ok && x in s.st && s.st[x] == 0
    ensures Accounts(c, Claim(s, t, th, x))
  {
    var s' := Claim(s, t, th, x);
    forall y ensures IsCharged(s', y) == IsCharged(s, y) {
    }
  }

  lemma ClaimShape(c: Config, s: State, t: nat, th: Thread, x: Slot)
    requires Shape(c, s) && t < |s.threads| && x in s.st && s.st[x] == 0
    ensures Shape(c, Claim(s, t, th, x))
  {
    assert Claim(s, t, th, x).filler.Keys == s.filler.Keys + {x};
  }

  lemma ClaimKeeps(c: Config, s: State, t: nat, th: Thread, x: Slot)
    requires ValidConfig(c) && Inv(c, s) && t < |s.threads| && s.threads[t].pc.Cas?
    requires x in s.st && s.st[x] == 0 && th.pc.FillEnter? && Current(th, x) && !th.ok
    requires ThreadOk(c, Claim(s, t, th, x), t, th)
    ensures Inv(c, Claim(s, t, th, x))
  {
    ClaimShape(c, s, t, th, x);
    ClaimThreads(c, s, t, th, x);
    ClaimOwners(s, t, th, x);
    ClaimAccounts(c, s, t, th, x);
  }

  lemma AcquireThreads(c: Config, s: State, t: nat, th: Thread, x: Slot)
    requires ValidConfig(c) && Threads(c, s) && t < |s.threads|
    requires x !in s.lock && ThreadOk(c, Acquire(s, t, th, x), t, th)
    ensures Threads(c, Acquire(s, t, th, x))
  {
    forall u | 0 <= u < |s.threads| && u != t ensures ThreadOk(c, Acquire(s, t, th, x), u, s.threads[u]) {
      AcquireOther(c, s, t, th, x, u, s.threads[u]);
    }
  }

  lemma AcquireOwners(s: State, t: nat, th: Thread, x: Slot)
    requires t < |s.threads| && Owners(s) && x !in s.lock
    requires !HoldsLock(s.threads[t].pc) && HoldsLock(th.pc) && Current(th, x) && SameFill(s.threads[t], th)
    ensures Owners(Acquire(s, t, th, x))
  {
  }

  lemma AcquireKeeps(c: Config, s: State, t: nat, th: Thread, x: Slot)
    requires ValidConfig(c) && Inv(c, s) && t < |s.threads| && x !in s.lock
    requires !HoldsLock(s.threads[t].pc) && HoldsLock(th.pc) && Current(th, x)
    requires SameFill(s.threads[t], th) && !th.pc.Asleep? && ThreadOk(c, Acquire(s, t, th, x), t, th)
    ensures Inv(c, Acquire(s, t, th, x))
  {
    AcquireThreads(c, s, t, th, x);
    AcquireOwners(s, t, th, x);
    SetSleep(s, Acquire(s, t, th, x), t, th);
    SetAccounts(c, s, Acquire(s, t, th, x), t, th);
  }

  lemma ReleaseThreads(c: Config, s: State, t: nat, th: Thread, x: Slot)
    requires ValidConfig(c) && Threads(c, s) && t < |s.threads|
    requires Locked(s, t, x) && ThreadOk(c, Release(s, t, th, x), t, th)
    ensures Threads(c, Release(s, t, th, x))
  {
    forall u | 0 <= u < |s.threads| && u != t ensures ThreadOk(c, Release(s, t, th, x), u, s.threads[u]) {
      ReleaseOther(c, s, t, th, x, u, s.threads[u]);
    }
  }

  lemma ReleaseOwners(s: State, t: nat, th: Thread, x: Slot)
    requires t < |s.threads| && Owners(s) && Locked(s, t, x)
    requires HoldsLock(s.threads[t].pc) && Current(s.threads[t], x) && SameFill(s.threads[t], th)
    ensures Owners(Release(s, t, th, x))
  {
  }

  /** A thread falls asleep only on a slot whose filler is still inside. */
  lemma ReleaseSleep(s: State, t: nat, th: Thread, x: Slot)
    requires t < |s.threads| && Owners(s) && NoLostWakeUp(s) && SameFill(s.threads[t], th)
    requires th.pc.Asleep? ==> Current(th, x) && x in s.st && s.st[x] == 1
    ensures NoLostWakeUp(Release(s, t, th, x))
  {
  }

  lemma ReleaseKeeps(c: Config, s: State, t: nat, th: Thread, x: Slot)
    requires ValidConfig(c) && Inv(c, s) && t < |s.threads| && Locked(s, t, x)
    requires HoldsLock(s.threads[t].pc) && Current(s.threads[t], x) && SameFill(s.threads[t], th)
    requires th.pc.Asleep? ==> Current(th, x) && x in s.st && s.st[x] == 1
    requires ThreadOk(c, Release(s, t, th, x), t, th)
    ensures Inv(c, Release(s, t, th, x))
  {
    ReleaseThreads(c, s, t, th, x);
    ReleaseOwners(s, t, th, x);
    ReleaseSleep(s, t, th, x);
    SetAccounts(c, s, Release(s, t, th, x), t, th);
  }

  /** Taking or giving back the file lock inside the filling part. */
  predicate SameSlot(was: Thread, th: Thread) {
    && Filling(was.pc) && Filling(th.pc) && !was.pc.FillEnter? && !th.pc.FillEnter?
    && th.todo == was.todo && th.ok == was.ok
  }

  lemma GlobalThreads(c: Config, s: State, t: nat, th: Thread, owner: Option<nat>)
    requires ValidConfig(c) && Threads(c, s) && t < |s.threads|
    requires (s.global == None || s.global == Some(t)) && ThreadOk(c, SetGlobal(s, t, th, owner), t, th)
    ensures Threads(c, SetGlobal(s, t, th, owner))
  {
    forall u | 0 <= u < |s.threads| && u != t ensures ThreadOk(c, SetGlobal(s, t, th, owner), u, s.threads[u]) {
      GlobalOther(c, s, t, th, owner, u, s.threads[u]);
    }
  }

  lemma GlobalOwners(s: State, t: nat, th: Thread, owner: Option<nat>)
    requires t < |s.threads| && Owners(s) && NoLostWakeUp(s) && SameSlot(s.threads[t], th)
    requires owner == if HoldsGlobal(th.pc) then Some(t) else None
    ensures Owners(SetGlobal(s, t, th, owner)) && NoLostWakeUp(SetGlobal(s, t, th, owner))
  {
  }

  lemma GlobalAccounts(c: Config, s: State, t: nat, th: Thread, owner: Option<nat>)
    requires ValidConfig(c) && |s.bytes| == 2 && Accounts(c, s) && Owners(s) && t < |s.threads|
    requires SameSlot(s.threads[t], th) && !s.threads[t].pc.FillCharge? && !th.pc.FillCharge?
    ensures Accounts(c, SetGlobal(s, t, th, owner))
  {
    forall x ensures IsCharged(SetGlobal(s, t, th, owner), x) == IsCharged(s, x) {
    }
  }

  lemma GlobalKeeps(c: Config, s: State, t: nat, th: Thread, owner: Option<nat>)
    requires ValidConfig(c) && Inv(c, s) && t < |s.threads|
    requires s.global == None || s.global == Some(t)
    requires SameSlot(s.threads[t], th) && !s.threads[t].pc.FillCharge? && !th.pc.FillCharge?
    requires owner == if HoldsGlobal(th.pc) then Some(t) else None
    requires ThreadOk(c, SetGlobal(s, t, th, owner), t, th)
    ensures Inv(c, SetGlobal(s, t, th, owner))
  {
    GlobalThreads(c, s, t, th, owner);
    GlobalOwners(s, t, th, owner);
    GlobalAccounts(c, s, t, th, owner);
  }

  lemma MoveThreads(c: Config, s: State, t: nat, th: Thread, pos: nat)
    requires ValidConfig(c) && Threads(c, s) && t < |s.threads|
    requires s.global == Some(t) && ThreadOk(c, Move(s, t, th, pos), t, th)
    ensures Threads(c, Move(s, t, th, pos))
  {
    forall u | 0 <= u < |s.threads| && u != t ensures ThreadOk(c, Move(s, t, th, pos), u, s.threads[u]) {
      MoveOther(c, s, t, th, pos, u, s.threads[u]);
    }
  }

  lemma MoveOwners(s: State, t: nat, th: Thread, pos: nat)
    requires t < |s.threads| && Owners(s) && NoLostWakeUp(s)
    requires Filling(s.threads[t].pc) && !s.threads[t].pc.FillEnter? && HoldsGlobal(th.pc) && th.todo == s.threads[t].todo
    ensures Owners(Move(s, t, th, pos)) && NoLostWakeUp(Move(s, t, th, pos))
  {
  }

  /** A slot becomes charged-or-about-to-be only by the charge itself. */
  lemma MoveAccounts(c: Config, s: State, t: nat, th: Thread, pos: nat)
    requires ValidConfig(c) && |s.bytes| == 2 && Accounts(c, s) && Owners(s) && t < |s.threads|
    requires Filling(s.threads[t].pc) && HoldsGlobal(th.pc) && th.todo == s.threads[t].todo
    requires !s.threads[t].pc.FillCharge? && !s.threads[t].ok && (th.ok ==> th.pc.FillCharge?)
    ensures Accounts(c, Move(s, t, th, pos))
  {
    forall x ensures IsCharged(Move(s, t, th, pos), x) == IsCharged(s, x) {
    }
  }

  lemma MoveKeeps(c: Config, s: State, t: nat, th: Thread, pos: nat)
    requires ValidConfig(c) && Inv(c, s) && t < |s.threads| && s.global == Some(t)
    requires Filling(s.threads[t].pc) && !s.threads[t].pc.FillEnter? && !s.threads[t].pc.FillCharge? && !s.threads[t].ok
    requires HoldsGlobal(th.pc) && th.todo == s.threads[t].todo && (th.ok ==> th.pc.FillCharge?)
    requires ThreadOk(c, Move(s, t, th, pos), t, th)
    ensures Inv(c, Move(s, t, th, pos))
  {
    MoveThreads(c, s, t, th, pos);
    MoveOwners(s, t, th, pos);
    MoveAccounts(c, s, t, th, pos);
  }

  lemma ChargeThreads(c: Config, s: State, t: nat, th: Thread, x: Slot, reg: nat, per: nat)
    requires ValidConfig(c) && Threads(c, s) && t < |s.threads| && reg < |s.bytes|
    requires s.global == Some(t) && ThreadOk(c, Charge(s, t, th, x, reg, per), t, th)
    ensures Threads(c, Charge(s, t, th, x, reg, per))
  {
    forall u | 0 <= u < |s.threads| && u != t ensures ThreadOk(c, Charge(s, t, th, x, reg, per), u, s.threads[u]) {
      ChargeOther(c, s, t, th, x, reg, per, u, s.threads[u]);
    }
  }

  lemma ChargeOwners(s: State, t: nat, th: Thread, x: Slot, reg: nat, per: nat)
    requires t < |s.threads| && reg < |s.bytes| && Owners(s) && NoLostWakeUp(s)
    requires s.threads[t].pc.FillCharge? && th.pc.FillUnlock? && th.todo == s.threads[t].todo
    ensures Owners(Charge(s, t, th, x, reg, per)) && NoLostWakeUp(Charge(s, t, th, x, reg, per))
  {
  }

  /** The charge is the one moment at which a slot enters the account, and it enters once. */
  lemma ChargeCharged(c: Config, s: State, t: nat, th: Thread, x: Slot, reg: nat, per: nat, y: Slot)
    requires t < |s.threads| && reg < |s.bytes| && Owners(s) && Owns(s, t, x, 1)
    requires s.threads[t].pc.FillCharge? && th.pc.FillUnlock? && th.ok && s.threads[t].ok
    ensures IsCharged(Charge(s, t, th, x, reg, per), y) == (IsCharged(s, y) || y == x)
    ensures !IsCharged(s, x)
  {
  }

  lemma ChargedGrows(c: Config, log: seq<(Slot, nat)>, x: Slot, reg: nat, r: nat)
    requires IsSlot(c, x)
    ensures ChargedTo(c, log + [(x, reg)], r) == ChargedTo(c, log, r) + if r == reg then Per(c, x) else 0
  {
    assert (log + [(x, reg)])[..|log|] == log;
  }

  lemma ChargeAccounts(c: Config, s: State, t: nat, th: Thread, x: Slot, reg: nat)
    requires ValidConfig(c) && |s.bytes| == 2 && Accounts(c, s) && Owners(s) && t < |s.threads|
    requires s.threads[t].pc.FillCharge? && th.pc.FillUnlock? && th.ok && s.threads[t].ok
    requires IsSlot(c, x) && Owns(s, t, x, 1) && reg < 2 && s.bytes[reg] + Per(c, x) <= c.cap[reg]
    ensures Accounts(c, Charge(s, t, th, x, reg, Per(c, x)))
  {
    var s' := Charge(s, t, th, x, reg, Per(c, x));
    forall y ensures IsCharged(s', y) == (IsCharged(s, y) || y == x) && !IsCharged(s, x) {
      ChargeCharged(c, s, t, th, x, reg, Per(c, x), y);
    }
    forall r | 0 <= r < 2 ensures s'.bytes[r] == ChargedTo(c, s'.charged, r) {
      ChargedGrows(c, s.charged, x, reg, r);
    }
    forall y | IsCharged(s', y) ensures exists i :: 0 <= i < |s'.charged| && s'.charged[i].0 == y {
      if y == x {
        assert s'.charged[|s.charged|].0 == x;
      } else {
        var i :| 0 <= i < |s.charged| && s.charged[i].0 == y;
        assert s'.charged[i].0 == y;
      }
    }
  }

  lemma ChargeKeeps(c: Config, s: State, t: nat, th: Thread, x: Slot, reg: nat)
    requires ValidConfig(c) && Inv(c, s) && t < |s.threads| && s.global == Some(t)
    requires s.threads[t].pc.FillCharge? && th.pc.FillUnlock? && th.ok && s.threads[t].ok && th.todo == s.threads[t].todo
    requires IsSlot(c, x) && Owns(s, t, x, 1) && reg < 2 && s.bytes[reg] + Per(c, x) <= c.cap[reg]
    requires ThreadOk(c, Charge(s, t, th, x, reg, Per(c, x)), t, th)
    ensures Inv(c, Charge(s, t, th, x, reg, Per(c, x)))
  {
    ChargeThreads(c, s, t, th, x, reg, Per(c, x));
    ChargeOwners(s, t, th, x, reg, Per(c, x));
    ChargeAccounts(c, s, t, th, x, reg);
  }

  lemma PublishThreads(c: Config, s: State, t: nat, th: Thread, x: Slot, v: nat)
    requires ValidConfig(c) && Threads(c, s) && t < |s.threads|
    requires Owns(s, t, x, 1) && Locked(s, t, x) && ThreadOk(c, Publish(s, t, th, x, v), t, th)
    ensures Threads(c, Publish(s, t, th, x, v))
  {
    forall u | 0 <= u < |s.threads| && u != t ensures ThreadOk(c, Publish(s, t, th, x, v), u, s.threads[u]) {
      PublishOther(c, s, t, th, x, v, u, s.threads[u]);
    }
  }

  lemma PublishOwners(s: State, t: nat, th: Thread, x: Slot, v: nat)
    requires t < |s.threads| && Owners(s) && NoLostWakeUp(s) && Owns(s, t, x, 1) && (v == 2 || v == 3)
    requires s.threads[t].pc.FillPublish? && th.pc.FillWake? && th.todo == s.threads[t].todo && Current(th, x)
    ensures Owners(Publish(s, t, th, x, v)) && NoLostWakeUp(Publish(s, t, th, x, v))
  {
  }

  lemma PublishAccounts(c: Config, s: State, t: nat, th: Thread, x: Slot)
    requires ValidConfig(c) && |s.bytes| == 2 && Accounts(c, s) && Owners(s) && t < |s.threads|
    requires s.threads[t].pc.FillPublish? && th.pc.FillWake? && Current(s.threads[t], x) && Owns(s, t, x, 1)
    ensures Accounts(c, Publish(s, t, th, x, if s.threads[t].ok then 2 else 3))
  {
    var s' := Publish(s, t, th, x, if s.threads[t].ok then 2 else 3);
    forall y ensures IsCharged(s', y) == IsCharged(s, y) {
    }
  }

  lemma PublishReady(c: Config, s: State, t: nat, th: Thread, x: Slot, v: nat)
    requires ValidConfig(c) && Shape(c, s) && Ready(c, s) && t < |s.threads| && IsSlot(c, x)
    requires v == 2 ==> BlockReady(c, s, x)
    requires v == 2 || v == 3
    requires x in s.filler
    ensures Shape(c, Publish(s, t, th, x, v)) && Ready(c, Publish(s, t, th, x, v))
  {
    forall y | IsSlot(c, y) && BlockReady(c, s, y) ensures BlockReady(c, Publish(s, t, th, x, v), y) {
    }
  }

  lemma PublishKeeps(c: Config, s: State, t: nat, th: Thread, x: Slot)
    requires ValidConfig(c) && Inv(c, s) && t < |s.threads| && IsSlot(c, x)
    requires s.threads[t].pc.FillPublish? && th.pc.FillWake? && th.todo == s.threads[t].todo && Current(th, x)
    requires Owns(s, t, x, 1) && Locked(s, t, x) && (s.threads[t].ok ==> BlockReady(c, s, x))
    requires ThreadOk(c, Publish(s, t, th, x, if s.threads[t].ok then 2 else 3), t, th)
    ensures Inv(c, Publish(s, t, th, x, if s.threads[t].ok then 2 else 3))
  {
    var v := if s.threads[t].ok then 2 else 3;
    PublishReady(c, s, t, th, x, v);
    PublishThreads(c, s, t, th, x, v);
    PublishOwners(s, t, th, x, v);
    PublishAccounts(c, s, t, th, x);
  }

  lemma SameMemoryOther(c: Config, s: State, s': State, u: nat, th: Thread)
    requires ValidConfig(c) && ThreadOk(c, s, u, th)
    requires s' == s.(threads := s'.threads)
    ensures ThreadOk(c, s', u, th)
  {
  }

  lemma WokeOk(c: Config, s: State, u: nat, th: Thread, x: Slot)
    requires ValidConfig(c) && ThreadOk(c, s, u, th)
    ensures ThreadOk(c, s, u, Woke(th, x))
  {
  }

  lemma WakeThreads(c: Config, s: State, t: nat, th: Thread, x: Slot)
    requires ValidConfig(c) && Threads(c, s) && t < |s.threads| && ThreadOk(c, s, t, th)
    ensures Threads(c, WakeAll(s, t, th, x))
  {
    var s' := WakeAll(s, t, th, x);
    forall u | 0 <= u < |s.threads| ensures ThreadOk(c, s', u, s'.threads[u]) {
      WokeOk(c, s, u, s.threads[u], x);
      SameMemoryOther(c, s, s', u, s'.threads[u]);
    }
  }

  /** After the wake-up call nobody sleeps on the slot any more. */
  lemma WakeOwners(s: State, t: nat, th: Thread, x: Slot)
    requires t < |s.threads| && Owners(s) && NoLostWakeUp(s) && x in s.st && Owns(s, t, x, s.st[x]) && s.st[x] != 1
    requires s.threads[t].pc.FillWake? && th.pc.FillLeave? && th.todo == s.threads[t].todo && Current(th, x)
    ensures Owners(WakeAll(s, t, th, x)) && NoLostWakeUp(WakeAll(s, t, th, x))
  {
  }

  lemma WakeAccounts(c: Config, s: State, t: nat, th: Thread, x: Slot)
    requires ValidConfig(c) && |s.bytes| == 2 && Accounts(c, s) && Owners(s) && t < |s.threads|
    requires s.threads[t].pc.FillWake? && th.pc.FillLeave?
    ensures Accounts(c, WakeAll(s, t, th, x))
  {
    var s' := WakeAll(s, t, th, x);
    forall y ensures IsCharged(s', y) == IsCharged(s, y) {
    }
  }

  lemma WakeKeeps(c: Config, s: State, t: nat, th: Thread, x: Slot)
    requires ValidConfig(c) && Inv(c, s) && t < |s.threads| && ThreadOk(c, s, t, th)
    requires s.threads[t].pc.FillWake? && th.pc.FillLeave? && th.todo == s.threads[t].todo && Current(th, x)
    requires x in s.st && Owns(s, t, x, s.st[x]) && s.st[x] != 1
    ensures Inv(c, WakeAll(s, t, th, x))
  {
    WakeThreads(c, s, t, th, x);
    WakeOwners(s, t, th, x);
    WakeAccounts(c, s, t, th, x);
  }

  lemma StoreReady(c: Config, s: State, t: nat, x: Slot, data: seq<byte>)
    requires ValidConfig(c) && Shape(c, s) && Ready(c, s) && IsSlot(c, x) && Owns(s, t, x, 1)
    ensures Shape(c, Store(c, s, x, data)) && Ready(c, Store(c, s, x, data))
  {
    var s' := Store(c, s, x, data);
    forall y | y in s'.st && s'.st[y] == 2 ensures BlockReady(c, s', y) {
      BlockStays(c, s, x, data, y);
    }
  }

  lemma StoreThreads(c: Config, s: State, t: nat, x: Slot, data: seq<byte>)
    requires ValidConfig(c) && Shape(c, s) && Threads(c, s) && t < |s.threads|
    requires IsSlot(c, x) && Owns(s, t, x, 1) && ThreadOk(c, Store(c, s, x, data), t, s.threads[t])
    ensures Threads(c, Store(c, s, x, data))
  {
    forall u | 0 <= u < |s.threads| && u != t ensures ThreadOk(c, Store(c, s, x, data), u, s.threads[u]) {
      StoreOther(c, s, t, x, data, u, s.threads[u]);
    }
  }

  /** Bytes landing in a slot that is being filled, whatever they are, disturb nothing. */
  lemma StoreKeeps(c: Config, s: State, t: nat, x: Slot, data: seq<byte>)
    requires ValidConfig(c) && Inv(c, s) && t < |s.threads| && s.threads[t].pc.FillRead?
    requires Current(s.threads[t], x)
    ensures Inv(c, Store(c, s, x, data))
  {
    ReaderFacts(c, s, t, x, data);
    StoreReady(c, s, t, x, data);
    StoreThreads(c, s, t, x, data);
    StoreRest(c, s, x, data);
  }

  lemma ReaderFacts(c: Config, s: State, t: nat, x: Slot, data: seq<byte>)
    requires ValidConfig(c) && Threads(c, s) && t < |s.threads| && s.threads[t].pc.FillRead? && Current(s.threads[t], x)
    ensures IsSlot(c, x) && Owns(s, t, x, 1) && ThreadOk(c, Store(c, s, x, data), t, s.threads[t])
  {
    assert ThreadOk(c, s, t, s.threads[t]);
    ReaderStays(c, s, t, x, data);
  }

  lemma StoreRest(c: Config, s: State, x: Slot, data: seq<byte>)
    requires ValidConfig(c) && |s.bytes| == 2 && Owners(s) && NoLostWakeUp(s) && Accounts(c, s)
    ensures Owners(Store(c, s, x, data)) && NoLostWakeUp(Store(c, s, x, data)) && Accounts(c, Store(c, s, x, data))
  {
    forall y ensures IsCharged(Store(c, s, x, data), y) == IsCharged(s, y) {
    }
  }

  lemma ReaderStays(c: Config, s: State, t: nat, x: Slot, data: seq<byte>)
    requires ValidConfig(c) && t < |s.threads| && s.threads[t].pc.FillRead? && ThreadOk(c, s, t, s.threads[t])
    ensures ThreadOk(c, Store(c, s, x, data), t, s.threads[t])
  {
  }

  lemma AppendKeeps(c: Config, s: State, th: Thread)
    requires ValidConfig(c) && Inv(c, s) && Fresh(c, th)
    ensures Inv(c, s.(threads := s.threads + [th]))
  {
    var s' := s.(threads := s.threads + [th]);
    forall u | 0 <= u < |s'.threads| ensures ThreadOk(c, s', u, s'.threads[u]) {
      if u < |s.threads| { SameMemoryOther(c, s, s', u, s.threads[u]); }
    }
    AppendOwners(s, th);
    AppendAccounts(c, s, th);
  }

  lemma AppendOwners(s: State, th: Thread)
    requires Owners(s) && NoLostWakeUp(s) && th.pc.Lookup?
    ensures Owners(s.(threads := s.threads + [th])) && NoLostWakeUp(s.(threads := s.threads + [th]))
  {
  }

  lemma AppendAccounts(c: Config, s: State, th: Thread)
    requires ValidConfig(c) && |s.bytes| == 2 && Accounts(c, s) && Owners(s)
    ensures Accounts(c, s.(threads := s.threads + [th]))
  {
    var s' := s.(threads := s.threads + [th]);
    forall y ensures IsCharged(s', y) == IsCharged(s, y) {
    }
  }

  // ---- every action keeps the invariant ---------------------------------------------

  lemma LookingFacts(c: Config, s: State, t: nat, e: Env)
    requires ValidConfig(c) && Runnable(c, s, t) && Threads(c, s)
    requires s.threads[t].pc.Lookup?
    ensures var th := s.threads[t];
            SameRole(th, AfterLookup(c, th)) && SameFill(th, AfterLookup(c, th)) && !AfterLookup(c, th).pc.Asleep?
            && ThreadOk(c, Set(s, t, AfterLookup(c, th)), t, AfterLookup(c, th))
  {
    assert ThreadOk(c, s, t, s.threads[t]);
  }

  lemma Looking(c: Config, s: State, t: nat, e: Env)
    requires ValidConfig(c) && Inv(c, s) && Runnable(c, s, t)
    requires s.threads[t].pc.Lookup?
    ensures Inv(c, LookStep(c, s, t))
  {
    LookingFacts(c, s, t, e);
    var th := s.threads[t];
    SetKeeps(c, s, t, AfterLookup(c, th));
  }

  lemma LoadingNothingFacts(c: Config, s: State, t: nat, e: Env)
    requires ValidConfig(c) && Runnable(c, s, t) && Threads(c, s)
    requires s.threads[t].pc.Load? && s.threads[t].todo == []
    ensures var th := s.threads[t];
            SameRole(th, th.(pc := Done)) && SameFill(th, th.(pc := Done)) && !th.(pc := Done).pc.Asleep?
            && ThreadOk(c, Set(s, t, th.(pc := Done)), t, th.(pc := Done))
  {
    assert ThreadOk(c, s, t, s.threads[t]);
  }

  lemma LoadingNothing(c: Config, s: State, t: nat, e: Env)
    requires ValidConfig(c) && Inv(c, s) && Runnable(c, s, t)
    requires s.threads[t].pc.Load? && s.threads[t].todo == []
    ensures Inv(c, LookStep(c, s, t))
  {
    LoadingNothingFacts(c, s, t, e);
    var th := s.threads[t];
    SetKeeps(c, s, t, th.(pc := Done));
  }

  lemma LoadingFacts(c: Config, s: State, t: nat, e: Env)
    requires ValidConfig(c) && Runnable(c, s, t) && Threads(c, s)
    requires s.threads[t].pc.Load? && s.threads[t].todo != []
    requires s.st[s.threads[t].todo[0]] != 0 ==> s.threads[t].todo[0] in s.filler
    ensures var th := s.threads[t]; var x := th.todo[0];
            SameRole(th, AfterLoad(th, s.st[x])) && SameFill(th, AfterLoad(th, s.st[x]))
            && !AfterLoad(th, s.st[x]).pc.Asleep?
            && ThreadOk(c, Set(s, t, AfterLoad(th, s.st[x])), t, AfterLoad(th, s.st[x]))
  {
    assert ThreadOk(c, s, t, s.threads[t]);
  }

  lemma Loading(c: Config, s: State, t: nat, e: Env)
    requires ValidConfig(c) && Inv(c, s) && Runnable(c, s, t)
    requires s.threads[t].pc.Load? && s.threads[t].todo != []
    ensures Inv(c, LookStep(c, s, t))
  {
    LoadingFacts(c, s, t, e);
    var th := s.threads[t];
    var x := th.todo[0];
    SetKeeps(c, s, t, AfterLoad(th, s.st[x]));
  }

  lemma LosingFacts(c: Config, s: State, t: nat, e: Env)
    requires ValidConfig(c) && Runnable(c, s, t) && Threads(c, s)
    requires s.threads[t].pc.Cas? && s.st[s.threads[t].todo[0]] != 0
    ensures var th := s.threads[t]; var x := th.todo[0];
            SameRole(th, NextItem(th)) && SameFill(th, NextItem(th)) && !NextItem(th).pc.Asleep?
            && ThreadOk(c, Set(s, t, NextItem(th)), t, NextItem(th))
  {
    assert ThreadOk(c, s, t, s.threads[t]);
  }

  lemma Losing(c: Config, s: State, t: nat, e: Env)
    requires ValidConfig(c) && Inv(c, s) && Runnable(c, s, t)
    requires s.threads[t].pc.Cas? && s.st[s.threads[t].todo[0]] != 0
    ensures Inv(c, LookStep(c, s, t))
  {
    LosingFacts(c, s, t, e);
    var th := s.threads[t];
    var x := th.todo[0];
    SetKeeps(c, s, t, NextItem(th));
  }

  lemma ClaimingFacts(c: Config, s: State, t: nat, e: Env)
    requires ValidConfig(c) && Runnable(c, s, t) && Threads(c, s)
    requires s.threads[t].pc.Cas? && s.st[s.threads[t].todo[0]] == 0
    ensures var th := s.threads[t]; var x := th.todo[0];
            ThreadOk(c, Claim(s, t, th.(pc := FillEnter, ok := false), x), t, th.(pc := FillEnter, ok := false))
  {
    assert ThreadOk(c, s, t, s.threads[t]);
  }

  lemma Claiming(c: Config, s: State, t: nat, e: Env)
    requires ValidConfig(c) && Inv(c, s) && Runnable(c, s, t)
    requires s.threads[t].pc.Cas? && s.st[s.threads[t].todo[0]] == 0
    ensures Inv(c, LookStep(c, s, t))
  {
    ClaimingFacts(c, s, t, e);
    var th := s.threads[t];
    var x := th.todo[0];
    ClaimKeeps(c, s, t, th.(pc := FillEnter, ok := false), x);
  }

  lemma WaitEnteringFacts(c: Config, s: State, t: nat, e: Env)
    requires ValidConfig(c) && Runnable(c, s, t) && Threads(c, s)
    requires s.threads[t].pc.WaitEnter?
    ensures var th := s.threads[t]; var x := th.todo[0];
            x !in s.lock && !HoldsLock(th.pc) && SameFill(th, th.(pc := WaitCheck))
            && ThreadOk(c, Acquire(s, t, th.(pc := WaitCheck), x), t, th.(pc := WaitCheck))
  {
    assert ThreadOk(c, s, t, s.threads[t]);
  }

  lemma WaitEntering(c: Config, s: State, t: nat, e: Env)
    requires ValidConfig(c) && Inv(c, s) && Runnable(c, s, t)
    requires s.threads[t].pc.WaitEnter?
    ensures Inv(c, WaitStep(c, s, t))
  {
    WaitEnteringFacts(c, s, t, e);
    var th := s.threads[t];
    var x := th.todo[0];
    AcquireKeeps(c, s, t, th.(pc := WaitCheck), x);
  }

  lemma WaitCheckingFacts(c: Config, s: State, t: nat, e: Env)
    requires ValidConfig(c) && Runnable(c, s, t) && Threads(c, s)
    requires s.threads[t].pc.WaitCheck?
    ensures var th := s.threads[t]; var x := th.todo[0];
            SameRole(th, th.(pc := if s.st[x] == 1 then WaitSleep else WaitLeave))
            && SameFill(th, th.(pc := if s.st[x] == 1 then WaitSleep else WaitLeave))
            && !th.(pc := if s.st[x] == 1 then WaitSleep else WaitLeave).pc.Asleep?
            && ThreadOk(c, Set(s, t, th.(pc := if s.st[x] == 1 then WaitSleep else WaitLeave)), t, th.(pc := if s.st[x] == 1 then WaitSleep else WaitLeave))
  {
    assert ThreadOk(c, s, t, s.threads[t]);
  }

  lemma WaitChecking(c: Config, s: State, t: nat, e: Env)
    requires ValidConfig(c) && Inv(c, s) && Runnable(c, s, t)
    requires s.threads[t].pc.WaitCheck?
    ensures Inv(c, WaitStep(c, s, t))
  {
    WaitCheckingFacts(c, s, t, e);
    var th := s.threads[t];
    var x := th.todo[0];
    SetKeeps(c, s, t, th.(pc := if s.st[x] == 1 then WaitSleep else WaitLeave));
  }

  lemma FallingAsleepFacts(c: Config, s: State, t: nat, e: Env)
    requires ValidConfig(c) && Runnable(c, s, t) && Threads(c, s)
    requires s.threads[t].pc.WaitSleep?
    ensures var th := s.threads[t]; var x := th.todo[0];
            s.st[x] == 1 && Locked(s, t, x) && SameFill(th, th.(pc := Asleep))
            && ThreadOk(c, Release(s, t, th.(pc := Asleep), x), t, th.(pc := Asleep))
  {
    assert ThreadOk(c, s, t, s.threads[t]);
  }

  lemma FallingAsleep(c: Config, s: State, t: nat, e: Env)
    requires ValidConfig(c) && Inv(c, s) && Runnable(c, s, t)
    requires s.threads[t].pc.WaitSleep?
    ensures Inv(c, WaitStep(c, s, t))
  {
    FallingAsleepFacts(c, s, t, e);
    var th := s.threads[t];
    var x := th.todo[0];
    ReleaseKeeps(c, s, t, th.(pc := Asleep), x);
  }

  lemma ReenteringFacts(c: Config, s: State, t: nat, e: Env)
    requires ValidConfig(c) && Runnable(c, s, t) && Threads(c, s)
    requires s.threads[t].pc.Woken?
    ensures var th := s.threads[t]; var x := th.todo[0];
            x !in s.lock && !HoldsLock(th.pc) && SameFill(th, th.(pc := WaitLeave))
            && ThreadOk(c, Acquire(s, t, th.(pc := WaitLeave), x), t, th.(pc := WaitLeave))
  {
    assert ThreadOk(c, s, t, s.threads[t]);
  }

  lemma Reentering(c: Config, s: State, t: nat, e: Env)
    requires ValidConfig(c) && Inv(c, s) && Runnable(c, s, t)
    requires s.threads[t].pc.Woken?
    ensures Inv(c, WaitStep(c, s, t))
  {
    ReenteringFacts(c, s, t, e);
    var th := s.threads[t];
    var x := th.todo[0];
    AcquireKeeps(c, s, t, th.(pc := WaitLeave), x);
  }

  lemma WaitLeavingFacts(c: Config, s: State, t: nat, e: Env)
    requires ValidConfig(c) && Runnable(c, s, t) && Threads(c, s)
    requires s.threads[t].pc.WaitLeave?
    ensures var th := s.threads[t]; var x := th.todo[0];
            Locked(s, t, x) && SameFill(th, th.(pc := Load))
            && ThreadOk(c, Release(s, t, th.(pc := Load), x), t, th.(pc := Load))
  {
    assert ThreadOk(c, s, t, s.threads[t]);
  }

  lemma WaitLeaving(c: Config, s: State, t: nat, e: Env)
    requires ValidConfig(c) && Inv(c, s) && Runnable(c, s, t)
    requires s.threads[t].pc.WaitLeave?
    ensures Inv(c, WaitStep(c, s, t))
  {
    WaitLeavingFacts(c, s, t, e);
    var th := s.threads[t];
    var x := th.todo[0];
    ReleaseKeeps(c, s, t, th.(pc := Load), x);
  }

  lemma FillEnteringFacts(c: Config, s: State, t: nat, e: Env)
    requires ValidConfig(c) && Runnable(c, s, t) && Threads(c, s)
    requires s.threads[t].pc.FillEnter?
    ensures var th := s.threads[t]; var x := th.todo[0];
            x !in s.lock && !HoldsLock(th.pc) && SameFill(th, th.(pc := FillLock))
            && ThreadOk(c, Acquire(s, t, th.(pc := FillLock), x), t, th.(pc := FillLock))
  {
    assert ThreadOk(c, s, t, s.threads[t]);
  }

  lemma FillEntering(c: Config, s: State, t: nat, e: Env)
    requires ValidConfig(c) && Inv(c, s) && Runnable(c, s, t)
    requires s.threads[t].pc.FillEnter?
    ensures Inv(c, SlotStep(c, s, t))
  {
    FillEnteringFacts(c, s, t, e);
    var th := s.threads[t];
    var x := th.todo[0];
    AcquireKeeps(c, s, t, th.(pc := FillLock), x);
  }

  lemma TakingFileFacts(c: Config, s: State, t: nat, e: Env)
    requires ValidConfig(c) && Runnable(c, s, t) && Threads(c, s)
    requires s.threads[t].pc.FillLock?
    ensures var th := s.threads[t]; var x := th.todo[0];
            (s.global == None || s.global == Some(t))
            && ThreadOk(c, SetGlobal(s, t, th.(pc := FillBudget), Some(t)), t, th.(pc := FillBudget))
  {
    assert ThreadOk(c, s, t, s.threads[t]);
  }

  lemma TakingFile(c: Config, s: State, t: nat, e: Env)
    requires ValidConfig(c) && Inv(c, s) && Runnable(c, s, t)
    requires s.threads[t].pc.FillLock?
    ensures Inv(c, SlotStep(c, s, t))
  {
    TakingFileFacts(c, s, t, e);
    var th := s.threads[t];
    var x := th.todo[0];
    GlobalKeeps(c, s, t, th.(pc := FillBudget), Some(t));
  }

  lemma BudgetingFacts(c: Config, s: State, t: nat, e: Env)
    requires ValidConfig(c) && Runnable(c, s, t) && Threads(c, s)
    requires s.threads[t].pc.FillBudget?
    ensures var th := s.threads[t]; var x := th.todo[0];
            SameRole(th, th.(pc := if Fits(c, s, th) then FillCommit else FillUnlock))
            && SameFill(th, th.(pc := if Fits(c, s, th) then FillCommit else FillUnlock))
            && !th.(pc := if Fits(c, s, th) then FillCommit else FillUnlock).pc.Asleep?
            && ThreadOk(c, Set(s, t, th.(pc := if Fits(c, s, th) then FillCommit else FillUnlock)), t, th.(pc := if Fits(c, s, th) then FillCommit else FillUnlock))
  {
    assert ThreadOk(c, s, t, s.threads[t]);
  }

  lemma Budgeting(c: Config, s: State, t: nat, e: Env)
    requires ValidConfig(c) && Inv(c, s) && Runnable(c, s, t)
    requires s.threads[t].pc.FillBudget?
    ensures Inv(c, FileStep(c, s, t, e))
  {
    BudgetingFacts(c, s, t, e);
    var th := s.threads[t];
    var x := th.todo[0];
    SetKeeps(c, s, t, th.(pc := if Fits(c, s, th) then FillCommit else FillUnlock));
  }

  lemma CommittingFacts(c: Config, s: State, t: nat, e: Env)
    requires ValidConfig(c) && Runnable(c, s, t) && Threads(c, s)
    requires s.threads[t].pc.FillCommit?
    ensures var th := s.threads[t]; var x := th.todo[0];
            SameRole(th, th.(pc := if e.ok then FillSeek else FillUnlock))
            && SameFill(th, th.(pc := if e.ok then FillSeek else FillUnlock))
            && !th.(pc := if e.ok then FillSeek else FillUnlock).pc.Asleep?
            && ThreadOk(c, Set(s, t, th.(pc := if e.ok then FillSeek else FillUnlock)), t, th.(pc := if e.ok then FillSeek else FillUnlock))
  {
    assert ThreadOk(c, s, t, s.threads[t]);
  }

  lemma Committing(c: Config, s: State, t: nat, e: Env)
    requires ValidConfig(c) && Inv(c, s) && Runnable(c, s, t)
    requires s.threads[t].pc.FillCommit?
    ensures Inv(c, FileStep(c, s, t, e))
  {
    CommittingFacts(c, s, t, e);
    var th := s.threads[t];
    var x := th.todo[0];
    SetKeeps(c, s, t, th.(pc := if e.ok then FillSeek else FillUnlock));
  }

  lemma SeekingFacts(c: Config, s: State, t: nat, e: Env)
    requires ValidConfig(c) && Runnable(c, s, t) && Threads(c, s)
    requires s.threads[t].pc.FillSeek? && e.ok
    ensures var th := s.threads[t]; var x := th.todo[0];
            s.global == Some(t) && !th.ok
            && ThreadOk(c, Move(s, t, th.(pc := FillRead), Offset(c, x)), t, th.(pc := FillRead))
  {
    assert ThreadOk(c, s, t, s.threads[t]);
  }

  lemma Seeking(c: Config, s: State, t: nat, e: Env)
    requires ValidConfig(c) && Inv(c, s) && Runnable(c, s, t)
    requires s.threads[t].pc.FillSeek? && e.ok
    ensures Inv(c, FileStep(c, s, t, e))
  {
    SeekingFacts(c, s, t, e);
    var th := s.threads[t];
    var x := th.todo[0];
    MoveKeeps(c, s, t, th.(pc := FillRead), Offset(c, x));
  }

  lemma SeekFailingFacts(c: Config, s: State, t: nat, e: Env)
    requires ValidConfig(c) && Runnable(c, s, t) && Threads(c, s)
    requires s.threads[t].pc.FillSeek? && !e.ok
    ensures var th := s.threads[t]; var x := th.todo[0];
            s.global == Some(t) && !th.ok && ThreadOk(c, Move(s, t, th.(pc := FillUnlock), e.pos), t, th.(pc := FillUnlock))
  {
    assert ThreadOk(c, s, t, s.threads[t]);
  }

  lemma SeekFailing(c: Config, s: State, t: nat, e: Env)
    requires ValidConfig(c) && Inv(c, s) && Runnable(c, s, t)
    requires s.threads[t].pc.FillSeek? && !e.ok
    ensures Inv(c, FileStep(c, s, t, e))
  {
    SeekFailingFacts(c, s, t, e);
    var th := s.threads[t];
    var x := th.todo[0];
    MoveKeeps(c, s, t, th.(pc := FillUnlock), e.pos);
  }

  lemma ChargingFacts(c: Config, s: State, t: nat, e: Env)
    requires ValidConfig(c) && Runnable(c, s, t) && Threads(c, s)
    requires s.threads[t].pc.FillCharge?
    ensures var th := s.threads[t]; var x := th.todo[0];
            s.global == Some(t) && th.ok && Owns(s, t, x, 1) && Fits(c, s, th)
            && ThreadOk(c, Charge(s, t, th.(pc := FillUnlock), x, Region(th.kind), Per(c, x)), t, th.(pc := FillUnlock))
  {
    assert ThreadOk(c, s, t, s.threads[t]);
  }

  lemma Charging(c: Config, s: State, t: nat, e: Env)
    requires ValidConfig(c) && Inv(c, s) && Runnable(c, s, t)
    requires s.threads[t].pc.FillCharge?
    ensures Inv(c, FileStep(c, s, t, e))
  {
    ChargingFacts(c, s, t, e);
    var th := s.threads[t];
    var x := th.todo[0];
    ChargeKeeps(c, s, t, th.(pc := FillUnlock), x, Region(th.kind));
  }

  lemma GivingFileFacts(c: Config, s: State, t: nat, e: Env)
    requires ValidConfig(c) && Runnable(c, s, t) && Threads(c, s)
    requires s.threads[t].pc.FillUnlock?
    ensures var th := s.threads[t]; var x := th.todo[0];
            (s.global == None || s.global == Some(t))
            && ThreadOk(c, SetGlobal(s, t, th.(pc := FillPublish), None), t, th.(pc := FillPublish))
  {
    assert ThreadOk(c, s, t, s.threads[t]);
  }

  lemma GivingFile(c: Config, s: State, t: nat, e: Env)
    requires ValidConfig(c) && Inv(c, s) && Runnable(c, s, t)
    requires s.threads[t].pc.FillUnlock?
    ensures Inv(c, FileStep(c, s, t, e))
  {
    GivingFileFacts(c, s, t, e);
    var th := s.threads[t];
    var x := th.todo[0];
    GlobalKeeps(c, s, t, th.(pc := FillPublish), None);
  }

  lemma PublishingFacts(c: Config, s: State, t: nat, e: Env)
    requires ValidConfig(c) && Runnable(c, s, t) && Threads(c, s)
    requires s.threads[t].pc.FillPublish?
    ensures var th := s.threads[t]; var x := th.todo[0];
            Owns(s, t, x, 1) && Locked(s, t, x) && (th.ok ==> BlockReady(c, s, x))
            && ThreadOk(c, Publish(s, t, th.(pc := FillWake), x, if th.ok then 2 else 3), t, th.(pc := FillWake))
  {
    assert ThreadOk(c, s, t, s.threads[t]);
  }

  lemma Publishing(c: Config, s: State, t: nat, e: Env)
    requires ValidConfig(c) && Inv(c, s) && Runnable(c, s, t)
    requires s.threads[t].pc.FillPublish?
    ensures Inv(c, SlotStep(c, s, t))
  {
    PublishingFacts(c, s, t, e);
    var th := s.threads[t];
    var x := th.todo[0];
    PublishKeeps(c, s, t, th.(pc := FillWake), x);
  }

  lemma WakingFacts(c: Config, s: State, t: nat, e: Env)
    requires ValidConfig(c) && Runnable(c, s, t) && Threads(c, s)
    requires s.threads[t].pc.FillWake?
    ensures var th := s.threads[t]; var x := th.todo[0];
            Owns(s, t, x, s.st[x]) && s.st[x] != 1 && ThreadOk(c, s, t, th.(pc := FillLeave))
  {
    assert ThreadOk(c, s, t, s.threads[t]);
  }

  lemma Waking(c: Config, s: State, t: nat, e: Env)
    requires ValidConfig(c) && Inv(c, s) && Runnable(c, s, t)
    requires s.threads[t].pc.FillWake?
    ensures Inv(c, SlotStep(c, s, t))
  {
    WakingFacts(c, s, t, e);
    var th := s.threads[t];
    var x := th.todo[0];
    WakeKeeps(c, s, t, th.(pc := FillLeave), x);
  }

  lemma FillLeavingFacts(c: Config, s: State, t: nat, e: Env)
    requires ValidConfig(c) && Runnable(c, s, t) && Threads(c, s)
    requires s.threads[t].pc.FillLeave?
    ensures var th := s.threads[t]; var x := th.todo[0];
            Locked(s, t, x) && SameFill(th, AfterFill(th)) && ThreadOk(c, Release(s, t, AfterFill(th), x), t, AfterFill(th))
  {
    assert ThreadOk(c, s, t, s.threads[t]);
  }

  lemma FillLeaving(c: Config, s: State, t: nat, e: Env)
    requires ValidConfig(c) && Inv(c, s) && Runnable(c, s, t)
    requires s.threads[t].pc.FillLeave?
    ensures Inv(c, SlotStep(c, s, t))
  {
    FillLeavingFacts(c, s, t, e);
    var th := s.threads[t];
    var x := th.todo[0];
    ReleaseKeeps(c, s, t, AfterFill(th), x);
  }

  /** The seek and the read are paired: what lands in the slot is the slot's part of the file. */
  lemma StoredReady(c: Config, s: State, x: Slot)
    requires ValidConfig(c) && Shape(c, s) && IsSlot(c, x) && s.pos == Offset(c, x)
    ensures s.pos + Per(c, x) <= |c.file|
    ensures BlockReady(c, Store(c, s, x, c.file[s.pos .. s.pos + Per(c, x)]), x)
  {
    BlockFits(x.id, Per(c, x), c.tensors[x.name].count);
    WriteBlockReads(s.arena[x.name], x.id, Per(c, x), c.file[s.pos .. s.pos + Per(c, x)], x.id);
  }

  lemma ReadingFacts(c: Config, s: State, t: nat, s1: State, th': Thread, pos: nat, x: Slot)
    requires ValidConfig(c) && t < |s.threads| && s.threads[t].pc.FillRead? && Current(s.threads[t], x)
    requires ThreadOk(c, s1, t, s.threads[t]) && s1.threads == s.threads
    requires th' == s.threads[t].(pc := FillUnlock)
          || (th' == s.threads[t].(pc := FillCharge, ok := true) && BlockReady(c, s1, x))
    ensures s1.global == Some(t) && !s.threads[t].ok && ThreadOk(c, Move(s1, t, th', pos), t, th')
  {
  }

  lemma ReadStores(c: Config, s: State, t: nat, data: seq<byte>, th': Thread, pos: nat)
    requires ValidConfig(c) && Inv(c, s) && t < |s.threads| && s.threads[t].pc.FillRead? && s.threads[t].todo != []
    requires var x := s.threads[t].todo[0]; var s1 := Store(c, s, x, data);
             && s1.global == Some(t) && !s.threads[t].ok && ThreadOk(c, Move(s1, t, th', pos), t, th')
    requires th' == s.threads[t].(pc := FillUnlock) || th' == s.threads[t].(pc := FillCharge, ok := true)
    ensures Inv(c, Move(Store(c, s, s.threads[t].todo[0], data), t, th', pos))
  {
    StoreKeeps(c, s, t, s.threads[t].todo[0], data);
    MoveKeeps(c, Store(c, s, s.threads[t].todo[0], data), t, th', pos);
  }

  lemma ReadData(c: Config, s: State, t: nat, data: seq<byte>, th': Thread, pos: nat)
    requires ValidConfig(c) && Shape(c, s) && Threads(c, s) && t < |s.threads|
    requires s.threads[t].pc.FillRead? && s.threads[t].todo != [] && IsSlot(c, s.threads[t].todo[0])
    requires Delivers(c, s, t, data, th')
    ensures var s1 := Store(c, s, s.threads[t].todo[0], data);
            && s1.global == Some(t) && !s.threads[t].ok && ThreadOk(c, Move(s1, t, th', pos), t, th')
  {
    var x := s.threads[t].todo[0];
    ReaderFacts(c, s, t, x, data);
    AtOffset(c, s, t);
    if th'.ok && th'.pc.FillCharge? { StoredReady(c, s, x); }
    ReadingFacts(c, s, t, Store(c, s, x, data), th', pos, x);
  }

  /** What a read may do to its thread: fail, or deliver exactly the bytes at the handle's position. */
  ghost predicate Delivers(c: Config, s: State, t: nat, data: seq<byte>, th': Thread)
    requires t < |s.threads|
  {
    || th' == s.threads[t].(pc := FillUnlock)
    || (th' == s.threads[t].(pc := FillCharge, ok := true)
        && s.threads[t].todo != [] && IsSlot(c, s.threads[t].todo[0])
        && s.pos + Per(c, s.threads[t].todo[0]) <= |c.file|
        && data == c.file[s.pos .. s.pos + Per(c, s.threads[t].todo[0])])
  }

  lemma ReadLands(c: Config, s: State, t: nat, data: seq<byte>, th': Thread, pos: nat)
    requires ValidConfig(c) && Inv(c, s) && t < |s.threads| && s.threads[t].pc.FillRead?
    requires s.threads[t].todo != [] && IsSlot(c, s.threads[t].todo[0]) && Delivers(c, s, t, data, th')
    ensures Inv(c, Move(Store(c, s, s.threads[t].todo[0], data), t, th', pos))
  {
    ReadData(c, s, t, data, th', pos);
    ReadStores(c, s, t, data, th', pos);
  }

  lemma AtOffset(c: Config, s: State, t: nat)
    requires ValidConfig(c) && Threads(c, s) && t < |s.threads| && s.threads[t].pc.FillRead?
    ensures s.threads[t].todo != [] && IsSlot(c, s.threads[t].todo[0]) && s.pos == Offset(c, s.threads[t].todo[0])
  {
    assert ThreadOk(c, s, t, s.threads[t]);
  }

  /** Under the invariant every enabled thread really has a next step. */
  lemma EnabledRuns(c: Config, s: State, t: nat)
    requires ValidConfig(c) && Shape(c, s) && Threads(c, s) && Enabled(s, t)
    ensures Runnable(c, s, t)
  {
    assert ThreadOk(c, s, t, s.threads[t]);
  }

  lemma LookKeeps(c: Config, s: State, t: nat, e: Env)
    requires ValidConfig(c) && Inv(c, s) && Runnable(c, s, t)
    requires s.threads[t].pc.Lookup? || s.threads[t].pc.Load? || s.threads[t].pc.Cas?
    ensures Inv(c, LookStep(c, s, t))
  {
    if s.threads[t].pc.Lookup? { Looking(c, s, t, e); }
    else if s.threads[t].pc.Load? {
      if s.threads[t].todo == [] { LoadingNothing(c, s, t, e); } else { Loading(c, s, t, e); }
    } else if s.st[s.threads[t].todo[0]] == 0 { Claiming(c, s, t, e); } else { Losing(c, s, t, e); }
  }

  lemma WaitKeeps(c: Config, s: State, t: nat, e: Env)
    requires ValidConfig(c) && Inv(c, s) && Runnable(c, s, t) && Waiting(s.threads[t].pc)
    ensures Inv(c, WaitStep(c, s, t))
  {
    match s.threads[t].pc
    case WaitEnter => WaitEntering(c, s, t, e);
    case WaitCheck => WaitChecking(c, s, t, e);
    case WaitSleep => FallingAsleep(c, s, t, e);
    case Woken => Reentering(c, s, t, e);
    case WaitLeave => WaitLeaving(c, s, t, e);
  }

  lemma FileKeeps(c: Config, s: State, t: nat, e: Env)
    requires ValidConfig(c) && Inv(c, s) && Runnable(c, s, t)
    requires HoldsGlobal(s.threads[t].pc) && !s.threads[t].pc.FillRead?
    ensures Inv(c, FileStep(c, s, t, e))
  {
    match s.threads[t].pc
    case FillBudget => Budgeting(c, s, t, e);
    case FillCommit => Committing(c, s, t, e);
    case FillSeek => if e.ok { Seeking(c, s, t, e); } else { SeekFailing(c, s, t, e); }
    case FillCharge => Charging(c, s, t, e);
    case FillUnlock => GivingFile(c, s, t, e);
  }

  lemma ReadDelivers(c: Config, s: State, t: nat, e: Env)
    requires Runnable(c, s, t) && s.threads[t].pc.FillRead?
    ensures var r := ReadFile(c, s.pos, Per(c, s.threads[t].todo[0]), s.threads[t], e); Delivers(c, s, t, r.data, r.th)
  {
  }

  lemma ReadKeeps(c: Config, s: State, t: nat, e: Env)
    requires ValidConfig(c) && Inv(c, s) && Runnable(c, s, t) && s.threads[t].pc.FillRead?
    ensures Inv(c, Read(c, s, t, e))
  {
    var r := ReadFile(c, s.pos, Per(c, s.threads[t].todo[0]), s.threads[t], e);
    ReadDelivers(c, s, t, e);
    ReadLands(c, s, t, r.data, r.th, r.pos);
  }

  lemma SlotKeeps(c: Config, s: State, t: nat, e: Env)
    requires ValidConfig(c) && Inv(c, s) && Runnable(c, s, t) && Bracketing(s.threads[t].pc)
    ensures Inv(c, SlotStep(c, s, t))
  {
    match s.threads[t].pc
    case FillEnter => FillEntering(c, s, t, e);
    case FillLock => TakingFile(c, s, t, e);
    case FillPublish => Publishing(c, s, t, e);
    case FillWake => Waking(c, s, t, e);
    case FillLeave => FillLeaving(c, s, t, e);
  }

  lemma RunKeeps(c: Config, s: State, t: nat, e: Env)
    requires ValidConfig(c) && Inv(c, s) && Enabled(s, t)
    ensures Runnable(c, s, t) && Inv(c, Next(c, s, t, e))
  {
    EnabledRuns(c, s, t);
    if Waiting(s.threads[t].pc) { WaitKeeps(c, s, t, e); }
    else if s.threads[t].pc.FillRead? { ReadKeeps(c, s, t, e); }
    else if HoldsGlobal(s.threads[t].pc) { FileKeeps(c, s, t, e); }
    else if Bracketing(s.threads[t].pc) { SlotKeeps(c, s, t, e); }
    else { LookKeeps(c, s, t, e); }
  }

  lemma TimeoutFacts(c: Config, s: State, t: nat)
    requires ValidConfig(c) && Threads(c, s) && t < |s.threads| && s.threads[t].pc.Asleep?
    ensures var th := s.threads[t].(pc := Woken);
            SameRole(s.threads[t], th) && SameFill(s.threads[t], th) && ThreadOk(c, Set(s, t, th), t, th)
  {
    assert ThreadOk(c, s, t, s.threads[t]);
  }

  lemma TimeoutKeeps(c: Config, s: State, t: nat)
    requires ValidConfig(c) && Inv(c, s) && t < |s.threads| && s.threads[t].pc.Asleep?
    ensures Inv(c, Set(s, t, s.threads[t].(pc := Woken)))
  {
    TimeoutFacts(c, s, t);
    SetKeeps(c, s, t, s.threads[t].(pc := Woken));
  }

  lemma ActionKeeps(c: Config, s: State, a: Action)
    requires ValidConfig(c) && Inv(c, s) && Can(c, s, a)
    ensures Inv(c, After(c, s, a))
  {
    match a
    case Run(t, e) => RunKeeps(c, s, t, e);
    case Timeout(t) => TimeoutKeeps(c, s, t);
    case Scribble(t, junk) => if s.threads[t].todo != [] { StoreKeeps(c, s, t, s.threads[t].todo[0], junk); }
    case Call(th) => AppendKeeps(c, s, th);
  }

  lemma InitialInv(c: Config, s: State)
    requires ValidConfig(c) && Initial(c, s)
    ensures Inv(c, s)
  {
  }

  /** The invariant holds in every state of every schedule. */
  lemma {:induction false} ScheduleInv(c: Config, s: State, acts: seq<Action>)
    requires ValidConfig(c) && Inv(c, s) && Schedule(c, s, acts)
    ensures Inv(c, Exec(c, s, acts))
  {
    if acts != [] {
      var most := acts[..|acts| - 1];
      ScheduleInv(c, s, most);
      ActionKeeps(c, Exec(c, s, most), acts[|acts| - 1]);
    }
  }
}
