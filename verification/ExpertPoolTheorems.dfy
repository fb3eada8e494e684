/** What the pool promises over whole schedules. */
module ExpertPoolTheorems {
  import opened Common
  import opened ExpertPool
  import opened ExpertPoolSafety

  // ---- transparency -------------------------------------------------------------------

  /** The bytes found at the address a finished resolver call handed back. */
  ghost predicate Reads(c: Config, s: State, t: nat, data: seq<byte>)
    requires t < |s.threads| && s.threads[t].kind.Resolver? && ValidRequest(c, s.threads[t].kind.req)
  {
    var r := s.threads[t].kind.req;
    match s.threads[t].base
    case Original => data == c.file[r.data + r.id * r.nb02 .. r.data + r.id * r.nb02 + r.nb02]
    case Pooled =>
      && r.name in s.arena && r.id * r.nb02 + r.nb02 <= |s.arena[r.name]|
      && data == Block(s.arena[r.name], r.id, r.nb02)
  }

  lemma DoneReads(c: Config, s: State, t: nat)
    requires ValidConfig(c) && Inv(c, s) && t < |s.threads| && s.threads[t].kind.Resolver? && s.threads[t].pc.Done?
    ensures ValidRequest(c, s.threads[t].kind.req) && Reads(c, s, t, Wanted(c, s.threads[t].kind.req))
  {
    assert ThreadOk(c, s, t, s.threads[t]);
    if s.threads[t].base.Pooled? {
      var r := s.threads[t].kind.req;
      assert BlockReady(c, s, Slot(r.name, r.id));
    }
  }

  lemma OthersStayLook(c: Config, s: State, t: nat, u: nat)
    requires Runnable(c, s, t) && (s.threads[t].pc.Lookup? || s.threads[t].pc.Load? || s.threads[t].pc.Cas?)
    requires u < |s.threads| && u != t
    ensures |LookStep(c, s, t).threads| == |s.threads| && LookStep(c, s, t).threads[u] == s.threads[u]
  {
  }

  lemma OthersStayWait(c: Config, s: State, t: nat, u: nat)
    requires Runnable(c, s, t) && Waiting(s.threads[t].pc) && u < |s.threads| && u != t
    ensures |WaitStep(c, s, t).threads| == |s.threads| && WaitStep(c, s, t).threads[u] == s.threads[u]
  {
  }

  lemma OthersStayFile(c: Config, s: State, t: nat, e: Env, u: nat)
    requires Runnable(c, s, t) && HoldsGlobal(s.threads[t].pc) && !s.threads[t].pc.FillRead? && u < |s.threads| && u != t
    ensures |FileStep(c, s, t, e).threads| == |s.threads| && FileStep(c, s, t, e).threads[u] == s.threads[u]
  {
  }

  lemma OthersStaySlot(c: Config, s: State, t: nat, u: nat)
    requires Runnable(c, s, t) && Bracketing(s.threads[t].pc) && u < |s.threads| && u != t
    ensures |SlotStep(c, s, t).threads| == |s.threads|
    ensures SlotStep(c, s, t).threads[u] == s.threads[u]
         || (s.threads[u].pc.Asleep? && SlotStep(c, s, t).threads[u] == s.threads[u].(pc := Woken)
             && s.threads[t].pc.FillWake? && Current(s.threads[u], s.threads[t].todo[0]))
  {
  }

  /** A step of `t` leaves every other thread alone, or wakes it when it sleeps on the slot just published. */
  lemma OthersStay(c: Config, s: State, t: nat, e: Env, u: nat)
    requires Runnable(c, s, t) && u < |s.threads| && u != t
    ensures |Next(c, s, t, e).threads| == |s.threads|
    ensures Next(c, s, t, e).threads[u] == s.threads[u]
         || (s.threads[u].pc.Asleep? && Next(c, s, t, e).threads[u] == s.threads[u].(pc := Woken)
             && s.threads[t].pc.FillWake? && Current(s.threads[u], s.threads[t].todo[0]))
  {
    if Waiting(s.threads[t].pc) { OthersStayWait(c, s, t, u); }
    else if s.threads[t].pc.FillRead? { }
    else if HoldsGlobal(s.threads[t].pc) { OthersStayFile(c, s, t, e, u); }
    else if Bracketing(s.threads[t].pc) { OthersStaySlot(c, s, t, u); }
    else { OthersStayLook(c, s, t, u); }
  }

  lemma DoneStays(c: Config, s: State, a: Action, t: nat)
    requires Can(c, s, a) && t < |s.threads| && s.threads[t].pc.Done?
    ensures t < |After(c, s, a).threads| && After(c, s, a).threads[t] == s.threads[t]
  {
    if a.Run? && Runnable(c, s, a.t) { OthersStay(c, s, a.t, a.env, t); }
  }

  lemma {:induction false} DoneForEver(c: Config, s: State, acts: seq<Action>, i: nat, t: nat)
    requires i <= |acts| && Schedule(c, s, acts)
    requires t < |Exec(c, s, acts[..i]).threads| && Exec(c, s, acts[..i]).threads[t].pc.Done?
    ensures t < |Exec(c, s, acts).threads| && Exec(c, s, acts).threads[t] == Exec(c, s, acts[..i]).threads[t]
    decreases |acts|
  {
    if i == |acts| {
      assert acts[..i] == acts;
    } else {
      var most := acts[..|acts| - 1];
      assert most[..i] == acts[..i];
      DoneForEver(c, s, most, i, t);
      DoneStays(c, Exec(c, s, most), acts[|acts| - 1], t);
    }
  }

  /**
   The pool is transparent: whatever address a resolver call handed back by step `i`, the
   bytes there at any later moment are those the un-pooled engine reads from the file.
   */
  lemma ResolverTransparent(c: Config, s: State, acts: seq<Action>, i: nat, t: nat)
    requires ValidConfig(c) && Initial(c, s) && Schedule(c, s, acts) && i <= |acts|
    requires t < |Exec(c, s, acts[..i]).threads|
    requires Exec(c, s, acts[..i]).threads[t].pc.Done? && Exec(c, s, acts[..i]).threads[t].kind.Resolver?
    ensures var later := Exec(c, s, acts);
            && t < |later.threads| && later.threads[t] == Exec(c, s, acts[..i]).threads[t]
            && ValidRequest(c, later.threads[t].kind.req)
            && Reads(c, later, t, Wanted(c, later.threads[t].kind.req))
  {
    DoneForEver(c, s, acts, i, t);
    InitialInv(c, s);
    ScheduleInv(c, s, acts);
    DoneReads(c, Exec(c, s, acts), t);
  }

  // ---- slots only move forward, and are claimed once -----------------------------------

  predicate Forward(a: nat, b: nat) {
    a == b || (a == 0 && b == 1) || (a == 1 && (b == 2 || b == 3))
  }

  predicate Reaches(a: nat, b: nat) {
    a == b || a == 0 || (a == 1 && (b == 2 || b == 3))
  }

  lemma LookForward(c: Config, s: State, t: nat, x: Slot)
    requires Runnable(c, s, t) && (s.threads[t].pc.Lookup? || s.threads[t].pc.Load? || s.threads[t].pc.Cas?)
    requires x in s.st && (s.st[x] == 0 ==> x !in s.filler)
    ensures x in LookStep(c, s, t).st && Forward(s.st[x], LookStep(c, s, t).st[x])
    ensures x in s.filler ==> x in LookStep(c, s, t).filler && LookStep(c, s, t).filler[x] == s.filler[x]
  {
  }

  lemma RunForward(c: Config, s: State, t: nat, e: Env, x: Slot)
    requires ValidConfig(c) && Runnable(c, s, t) && ThreadOk(c, s, t, s.threads[t]) && x in s.st
    requires s.st[x] == 0 ==> x !in s.filler
    ensures x in Next(c, s, t, e).st && Forward(s.st[x], Next(c, s, t, e).st[x])
    ensures x in s.filler ==> x in Next(c, s, t, e).filler && Next(c, s, t, e).filler[x] == s.filler[x]
  {
    if Waiting(s.threads[t].pc) { }
    else if s.threads[t].pc.FillRead? { }
    else if HoldsGlobal(s.threads[t].pc) { FileForward(c, s, t, e); }
    else if Bracketing(s.threads[t].pc) { }
    else { LookForward(c, s, t, x); }
  }

  lemma FileForward(c: Config, s: State, t: nat, e: Env)
    requires Runnable(c, s, t) && HoldsGlobal(s.threads[t].pc) && !s.threads[t].pc.FillRead?
    ensures FileStep(c, s, t, e).st == s.st && FileStep(c, s, t, e).filler == s.filler
  {
  }

  /** One action moves a slot along one edge of 0 - 1 - 2|3, and never changes who claimed it. */
  lemma ActionForward(c: Config, s: State, a: Action, x: Slot)
    requires ValidConfig(c) && Inv(c, s) && Can(c, s, a) && x in s.st
    ensures x in After(c, s, a).st && Forward(s.st[x], After(c, s, a).st[x])
    ensures x in s.filler ==> x in After(c, s, a).filler && After(c, s, a).filler[x] == s.filler[x]
  {
    if a.Run? {
      EnabledRuns(c, s, a.t);
      assert ThreadOk(c, s, a.t, s.threads[a.t]);
      RunForward(c, s, a.t, a.env, x);
    }
  }

  lemma StepForward(c: Config, s: State, acts: seq<Action>, x: Slot)
    requires ValidConfig(c) && Inv(c, s) && Schedule(c, s, acts) && acts != [] && IsSlot(c, x)
    ensures var before, after := Exec(c, s, acts[..|acts| - 1]), Exec(c, s, acts);
            && x in before.st && x in after.st && Forward(before.st[x], after.st[x])
            && (x in before.filler ==> x in after.filler && after.filler[x] == before.filler[x])
  {
    ScheduleInv(c, s, acts[..|acts| - 1]);
    ActionForward(c, Exec(c, s, acts[..|acts| - 1]), acts[|acts| - 1], x);
  }

  /** Over any stretch of a run a slot only advances, and its one claimer stays the same. */
  lemma {:induction false} SlotsAdvance(c: Config, s: State, acts: seq<Action>, i: nat, x: Slot)
    requires ValidConfig(c) && Inv(c, s) && Schedule(c, s, acts) && i <= |acts| && IsSlot(c, x)
    ensures var before, after := Exec(c, s, acts[..i]), Exec(c, s, acts);
            && x in before.st && x in after.st && Reaches(before.st[x], after.st[x])
            && (x in before.filler ==> x in after.filler && after.filler[x] == before.filler[x])
    decreases |acts|
  {
    if i == |acts| {
      assert acts[..i] == acts;
      ScheduleInv(c, s, acts);
    } else {
      var most := acts[..|acts| - 1];
      assert most[..i] == acts[..i];
      SlotsAdvance(c, s, most, i, x);
      StepForward(c, s, acts, x);
    }
  }

  /** Every slot is claimed at most once in a whole run, so claims never outnumber slots. */
  lemma FillsBounded(c: Config, s: State, acts: seq<Action>)
    requires ValidConfig(c) && Initial(c, s) && Schedule(c, s, acts)
    ensures Exec(c, s, acts).fills <= |Slots(c)|
  {
    InitialInv(c, s);
    ScheduleInv(c, s, acts);
    var end := Exec(c, s, acts);
    assert end.filler.Keys <= Slots(c);
    SubsetSize(end.filler.Keys, Slots(c));
  }

  lemma SubsetSize<T>(a: set<T>, b: set<T>)
    requires a <= b
    ensures |a| <= |b|
  {
    assert b == a + (b - a);
  }

  // ---- the byte accounts --------------------------------------------------------------

  /**
   In every reachable state each region's byte count is the sum over the slots charged to it
   and stays under the cap; no slot is charged twice; a ready slot is charged, and a slot that
   is empty or refused is not.
   */
  lemma BudgetsExact(c: Config, s: State, acts: seq<Action>, r: nat)
    requires ValidConfig(c) && Initial(c, s) && Schedule(c, s, acts) && r < 2
    ensures var end := Exec(c, s, acts);
            && |end.bytes| == 2
            && end.bytes[r] == ChargedTo(c, end.charged, r) <= c.cap[r]
            && (forall i, j :: 0 <= i < j < |end.charged| ==> end.charged[i].0 != end.charged[j].0)
            && (forall x :: x in end.st && end.st[x] == 2 ==> exists i :: 0 <= i < |end.charged| && end.charged[i].0 == x)
            && (forall i :: 0 <= i < |end.charged| ==>
                  end.charged[i].0 in end.st && (end.st[end.charged[i].0] == 1 || end.st[end.charged[i].0] == 2))
  {
    InitialInv(c, s);
    ScheduleInv(c, s, acts);
    var end := Exec(c, s, acts);
    forall x | x in end.st && end.st[x] == 2 ensures exists i :: 0 <= i < |end.charged| && end.charged[i].0 == x {
      assert IsCharged(end, x);
    }
    forall i | 0 <= i < |end.charged|
      ensures end.charged[i].0 in end.st && (end.st[end.charged[i].0] == 1 || end.st[end.charged[i].0] == 2)
    {
      assert IsCharged(end, end.charged[i].0);
    }
  }

  // ---- no lost wake-up, no deadlock -----------------------------------------------------

  /** A thread asleep on a slot already 2 or 3 has the slot's filler right before the wake-up call. */
  lemma AsleepMeansFilling(c: Config, s: State, acts: seq<Action>, t: nat)
    requires ValidConfig(c) && Initial(c, s) && Schedule(c, s, acts)
    requires t < |Exec(c, s, acts).threads| && Exec(c, s, acts).threads[t].pc.Asleep?
    ensures var end := Exec(c, s, acts);
            && end.threads[t].todo != []
            && var x := end.threads[t].todo[0];
               && x in end.st && FillerAwake(end, x)
               && (end.st[x] == 2 || end.st[x] == 3 ==> end.threads[end.filler[x]].pc.FillWake?)
  {
    InitialInv(c, s);
    ScheduleInv(c, s, acts);
    var end := Exec(c, s, acts);
    SleeperFacts(c, end, t);
  }

  lemma SleeperFacts(c: Config, s: State, t: nat)
    requires ValidConfig(c) && Shape(c, s) && Threads(c, s) && NoLostWakeUp(s)
    requires t < |s.threads| && s.threads[t].pc.Asleep?
    ensures s.threads[t].todo != [] && IsSlot(c, s.threads[t].todo[0]) && FillerAwake(s, s.threads[t].todo[0])
    ensures var x := s.threads[t].todo[0];
            s.st[x] == 2 || s.st[x] == 3 ==> s.threads[s.filler[x]].pc.FillWake?
  {
    assert ThreadOk(c, s, t, s.threads[t]);
    var x := s.threads[t].todo[0];
    assert FillerAwake(s, x);
    assert ThreadOk(c, s, s.filler[x], s.threads[s.filler[x]]);
  }

  /** The owner of the file lock, and then the owner of any slot lock, can always go on. */
  lemma GlobalOwnerRuns(c: Config, s: State)
    requires ValidConfig(c) && Threads(c, s) && Owners(s) && s.global.Some?
    ensures Enabled(s, s.global.value)
  {
  }

  lemma LockOwnerRuns(c: Config, s: State, x: Slot)
    requires ValidConfig(c) && Threads(c, s) && Owners(s) && s.global.None? && x in s.lock
    ensures Enabled(s, s.lock[x])
  {
    assert ThreadOk(c, s, s.lock[x], s.threads[s.lock[x]]);
  }

  lemma FreeThreadRuns(c: Config, s: State, t: nat)
    requires ValidConfig(c) && Threads(c, s) && s.global.None? && s.lock == map[]
    requires t < |s.threads| && !s.threads[t].pc.Done? && !s.threads[t].pc.Asleep?
    ensures Enabled(s, t)
  {
    assert ThreadOk(c, s, t, s.threads[t]);
  }

  /** No deadlock, even if no sleep ever times out: while a call is open some thread can step. */
  lemma SomeThreadRuns(c: Config, s: State, t: nat) returns (u: nat)
    requires ValidConfig(c) && Inv(c, s) && t < |s.threads| && !s.threads[t].pc.Done?
    ensures Enabled(s, u)
  {
    if s.global.Some? {
      GlobalOwnerRuns(c, s);
      u := s.global.value;
    } else if s.lock != map[] {
      var x :| x in s.lock;
      LockOwnerRuns(c, s, x);
      u := s.lock[x];
    } else if s.threads[t].pc.Asleep? {
      SleeperFacts(c, s, t);
      u := s.filler[s.threads[t].todo[0]];
      FreeThreadRuns(c, s, u);
    } else {
      FreeThreadRuns(c, s, t);
      u := t;
    }
  }

  /** A run that cannot go on without a time-out or a new call has answered every call. */
  lemma StuckMeansDone(c: Config, s: State, acts: seq<Action>)
    requires ValidConfig(c) && Initial(c, s) && Schedule(c, s, acts)
    requires forall t :: !Enabled(Exec(c, s, acts), t)
    ensures forall t :: 0 <= t < |Exec(c, s, acts).threads| ==> Exec(c, s, acts).threads[t].pc.Done?
  {
    InitialInv(c, s);
    ScheduleInv(c, s, acts);
    var end := Exec(c, s, acts);
    forall t | 0 <= t < |end.threads| ensures end.threads[t].pc.Done? {
      if !end.threads[t].pc.Done? {
        var u := SomeThreadRuns(c, end, t);
      }
    }
  }
}
