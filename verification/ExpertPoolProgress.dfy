/**
 Every schedule of the pool is finite up to time-outs: each step brings its thread strictly
 closer to the end of its body, and only a time-out sets a thread back.
 */
module ExpertPoolProgress {
  import opened Common
  import opened ExpertPool
  import opened ExpertPoolSafety
  import opened ExpertPoolTheorems

  /** Steps left at a position, given the state of the current slot. */
  function Left(pc: Pc, st: nat): nat {
    match pc
    case Done => 0
    case Lookup => 60
    case Load => if st == 0 then 24 else if st == 1 then 8 else 1
    case Cas => if st == 0 then 23 else 11
    case FillEnter => 22
    case FillLock => 21
    case FillBudget => 20
    case FillCommit => 19
    case FillSeek => 18
    case FillRead => 17
    case FillCharge => 16
    case FillUnlock => 15
    case FillPublish => 14
    case FillWake => 13
    case FillLeave => 12
    case Woken => if st <= 1 then 10 else 3
    case WaitLeave => if st <= 1 then 9 else 2
    case WaitEnter => 7
    case WaitCheck => 6
    case WaitSleep => 5
    case Asleep => 4
  }

  function CurrentState(s: State, th: Thread): nat {
    if th.todo != [] && th.todo[0] in s.st then s.st[th.todo[0]] else 2
  }

  function Rank(s: State, th: Thread): nat {
    if th.pc.Done? then 0 else 30 * |th.todo| + Left(th.pc, CurrentState(s, th))
  }

  function Total(s: State, n: nat): nat requires n <= |s.threads| {
    if n == 0 then 0 else Total(s, n - 1) + Rank(s, s.threads[n - 1])
  }

  // ---- one step -------------------------------------------------------------------------

  lemma LookRank(c: Config, s: State, t: nat)
    requires Runnable(c, s, t) && (s.threads[t].pc.Lookup? || s.threads[t].pc.Load? || s.threads[t].pc.Cas?)
    requires s.threads[t].kind.Resolver? && s.threads[t].pc.Lookup? ==> s.threads[t].todo == []
    requires s.threads[t].pc.Cas? ==> s.threads[t].todo[0] in s.st
    ensures Rank(LookStep(c, s, t), LookStep(c, s, t).threads[t]) < Rank(s, s.threads[t])
  {
  }

  lemma WaitRank(c: Config, s: State, t: nat)
    requires Runnable(c, s, t) && Waiting(s.threads[t].pc) && s.st[s.threads[t].todo[0]] != 0
    ensures Rank(WaitStep(c, s, t), WaitStep(c, s, t).threads[t]) < Rank(s, s.threads[t])
  {
  }

  lemma FileMovesBefore(c: Config, s: State, t: nat, e: Env)
    requires Runnable(c, s, t) && (s.threads[t].pc.FillBudget? || s.threads[t].pc.FillCommit? || s.threads[t].pc.FillSeek?)
    ensures |FileStep(c, s, t, e).threads| == |s.threads| && FileStep(c, s, t, e).threads[t].todo == s.threads[t].todo
    ensures Left(FileStep(c, s, t, e).threads[t].pc, 2) < Left(s.threads[t].pc, 2)
    ensures Filling(FileStep(c, s, t, e).threads[t].pc)
  {
  }

  lemma FileMovesAfter(c: Config, s: State, t: nat, e: Env)
    requires Runnable(c, s, t) && (s.threads[t].pc.FillCharge? || s.threads[t].pc.FillUnlock?)
    ensures |FileStep(c, s, t, e).threads| == |s.threads| && FileStep(c, s, t, e).threads[t].todo == s.threads[t].todo
    ensures Left(FileStep(c, s, t, e).threads[t].pc, 2) < Left(s.threads[t].pc, 2)
    ensures Filling(FileStep(c, s, t, e).threads[t].pc)
  {
  }

  lemma FillLeft(pc: Pc, a: nat, b: nat)
    requires Filling(pc)
    ensures Left(pc, a) == Left(pc, b)
  {
  }

  lemma FileRank(c: Config, s: State, t: nat, e: Env)
    requires Runnable(c, s, t) && HoldsGlobal(s.threads[t].pc) && !s.threads[t].pc.FillRead?
    ensures Rank(FileStep(c, s, t, e), FileStep(c, s, t, e).threads[t]) < Rank(s, s.threads[t])
  {
    if s.threads[t].pc.FillCharge? || s.threads[t].pc.FillUnlock? {
      FileMovesAfter(c, s, t, e);
    } else {
      FileMovesBefore(c, s, t, e);
    }
    var s' := FileStep(c, s, t, e);
    FillLeft(s.threads[t].pc, 2, CurrentState(s, s.threads[t]));
    FillLeft(s'.threads[t].pc, 2, CurrentState(s', s'.threads[t]));
  }

  lemma ReadRank(c: Config, s: State, t: nat, e: Env)
    requires Runnable(c, s, t) && s.threads[t].pc.FillRead?
    ensures Rank(Read(c, s, t, e), Read(c, s, t, e).threads[t]) < Rank(s, s.threads[t])
  {
  }

  lemma SlotRank(c: Config, s: State, t: nat)
    requires Runnable(c, s, t) && Bracketing(s.threads[t].pc) && !s.threads[t].pc.FillLeave?
    ensures Rank(SlotStep(c, s, t), SlotStep(c, s, t).threads[t]) < Rank(s, s.threads[t])
  {
  }

  lemma LeaveRank(c: Config, s: State, t: nat)
    requires Runnable(c, s, t) && s.threads[t].pc.FillLeave?
    requires s.threads[t].kind.Resolver? ==> SlotStep(c, s, t).threads[t].pc.Done?
    ensures Rank(SlotStep(c, s, t), SlotStep(c, s, t).threads[t]) < Rank(s, s.threads[t])
  {
  }

  lemma WaitingOnClaimed(c: Config, s: State, t: nat)
    requires ValidConfig(c) && Shape(c, s) && Threads(c, s) && Enabled(s, t) && Waiting(s.threads[t].pc)
    ensures s.threads[t].todo != [] && s.threads[t].todo[0] in s.st && s.st[s.threads[t].todo[0]] != 0
  {
    assert ThreadOk(c, s, t, s.threads[t]);
  }

  /** A resolver call in front of the table lookup has no slot yet. */
  ghost predicate Looks(s: State) {
    forall t :: 0 <= t < |s.threads| && s.threads[t].kind.Resolver? && s.threads[t].pc.Lookup? ==> s.threads[t].todo == []
  }

  lemma RunRank(c: Config, s: State, t: nat, e: Env)
    requires ValidConfig(c) && Shape(c, s) && Threads(c, s) && Looks(s) && Enabled(s, t) && Runnable(c, s, t)
    ensures |Next(c, s, t, e).threads| == |s.threads|
    ensures Rank(Next(c, s, t, e), Next(c, s, t, e).threads[t]) < Rank(s, s.threads[t])
  {
    if Waiting(s.threads[t].pc) { WaitingOnClaimed(c, s, t); WaitRank(c, s, t); }
    else if s.threads[t].pc.FillRead? { ReadRank(c, s, t, e); }
    else if HoldsGlobal(s.threads[t].pc) { FileRank(c, s, t, e); }
    else if s.threads[t].pc.FillLeave? { LeaveRank(c, s, t); }
    else if Bracketing(s.threads[t].pc) { SlotRank(c, s, t); }
    else { LookRank(c, s, t); }
  }

  lemma LeftForward(pc: Pc, a: nat, b: nat)
    requires Forward(a, b)
    ensures Left(pc, b) <= Left(pc, a)
  {
  }

  lemma SameThreadRank(s: State, s': State, th: Thread)
    requires Forward(CurrentState(s, th), CurrentState(s', th))
    ensures Rank(s', th) <= Rank(s, th)
  {
    LeftForward(th.pc, CurrentState(s, th), CurrentState(s', th));
  }

  lemma WokenRank(s: State, s': State, th: Thread)
    requires Forward(CurrentState(s, th), CurrentState(s', th)) && CurrentState(s, th) >= 2 && th.pc.Asleep?
    ensures Rank(s', th.(pc := Woken)) <= Rank(s, th)
  {
  }

  /** The slot state another thread looks at only advances, and a woken thread's slot is published. */
  lemma OtherRank(c: Config, s: State, t: nat, e: Env, u: nat)
    requires ValidConfig(c) && Inv(c, s) && Enabled(s, t) && Runnable(c, s, t) && u < |s.threads| && u != t
    ensures |Next(c, s, t, e).threads| == |s.threads|
    ensures Rank(Next(c, s, t, e), Next(c, s, t, e).threads[u]) <= Rank(s, s.threads[u])
    ensures Next(c, s, t, e).threads[u].pc.Lookup? ==> Next(c, s, t, e).threads[u] == s.threads[u]
  {
    OthersStay(c, s, t, e, u);
    OtherSlot(c, s, t, e, s.threads[u]);
    if Next(c, s, t, e).threads[u] == s.threads[u] {
      SameThreadRank(s, Next(c, s, t, e), s.threads[u]);
    } else {
      WakerPublished(c, s, t);
      WokenRank(s, Next(c, s, t, e), s.threads[u]);
    }
  }

  lemma OtherSlot(c: Config, s: State, t: nat, e: Env, other: Thread)
    requires ValidConfig(c) && Inv(c, s) && Enabled(s, t) && Runnable(c, s, t)
    ensures Forward(CurrentState(s, other), CurrentState(Next(c, s, t, e), other))
  {
    RunKeeps(c, s, t, e);
    if other.todo != [] && other.todo[0] in s.st {
      ActionForward(c, s, Run(t, e), other.todo[0]);
    }
  }

  lemma WakerPublished(c: Config, s: State, t: nat)
    requires ValidConfig(c) && Threads(c, s) && t < |s.threads| && s.threads[t].pc.FillWake?
    ensures s.threads[t].todo != [] && s.threads[t].todo[0] in s.st && s.st[s.threads[t].todo[0]] >= 2
  {
    assert ThreadOk(c, s, t, s.threads[t]);
  }

  lemma {:induction false} TotalDrops(s: State, s': State, t: nat, drop: int, n: nat)
    requires n <= |s.threads| && n <= |s'.threads| && t < |s.threads| && t < |s'.threads|
    requires forall u :: 0 <= u < n && u != t ==> Rank(s', s'.threads[u]) <= Rank(s, s.threads[u])
    requires Rank(s', s'.threads[t]) + drop <= Rank(s, s.threads[t])
    ensures Total(s', n) + (if t < n then drop else 0) <= Total(s, n)
  {
    if n > 0 { TotalDrops(s, s', t, drop, n - 1); }
  }

  // ---- whole schedules ------------------------------------------------------------------

  lemma RunTotal(c: Config, s: State, t: nat, e: Env)
    requires ValidConfig(c) && Inv(c, s) && Looks(s) && Enabled(s, t) && Runnable(c, s, t)
    ensures var s' := Next(c, s, t, e);
            |s'.threads| == |s.threads| && Total(s', |s'.threads|) + 1 <= Total(s, |s.threads|)
  {
    var s' := Next(c, s, t, e);
    RunRank(c, s, t, e);
    forall u | 0 <= u < |s.threads| && u != t ensures Rank(s', s'.threads[u]) <= Rank(s, s.threads[u]) {
      OtherRank(c, s, t, e, u);
    }
    TotalDrops(s, s', t, 1, |s.threads|);
  }

  lemma NoNewLookup(c: Config, s: State, t: nat, e: Env)
    requires Runnable(c, s, t)
    ensures |Next(c, s, t, e).threads| == |s.threads| && !Next(c, s, t, e).threads[t].pc.Lookup?
  {
    if Waiting(s.threads[t].pc) { }
    else if s.threads[t].pc.FillRead? { }
    else if HoldsGlobal(s.threads[t].pc) { FileNoLookup(c, s, t, e); }
    else if Bracketing(s.threads[t].pc) { }
    else { }
  }

  lemma FileNoLookup(c: Config, s: State, t: nat, e: Env)
    requires Runnable(c, s, t) && HoldsGlobal(s.threads[t].pc) && !s.threads[t].pc.FillRead?
    ensures |FileStep(c, s, t, e).threads| == |s.threads| && !FileStep(c, s, t, e).threads[t].pc.Lookup?
  {
    if s.threads[t].pc.FillCharge? || s.threads[t].pc.FillUnlock? {
      FileMovesAfter(c, s, t, e);
    } else {
      FileMovesBefore(c, s, t, e);
    }
  }

  lemma RunLooks(c: Config, s: State, t: nat, e: Env)
    requires ValidConfig(c) && Inv(c, s) && Looks(s) && Enabled(s, t) && Runnable(c, s, t)
    ensures Looks(Next(c, s, t, e))
  {
    var s' := Next(c, s, t, e);
    NoNewLookup(c, s, t, e);
    forall u | 0 <= u < |s'.threads| && s'.threads[u].kind.Resolver? && s'.threads[u].pc.Lookup?
      ensures s'.threads[u].todo == []
    {
      OthersStay(c, s, t, e, u);
    }
  }

  lemma TimeoutTotal(s: State, t: nat)
    requires t < |s.threads| && s.threads[t].pc.Asleep?
    ensures var s' := Set(s, t, s.threads[t].(pc := Woken)); Total(s', |s.threads|) <= Total(s, |s.threads|) + 6
  {
    TotalDrops(s, Set(s, t, s.threads[t].(pc := Woken)), t, -6, |s.threads|);
  }

  lemma {:induction false} SameTotal(s: State, s': State, n: nat)
    requires n <= |s.threads| && n <= |s'.threads| && s'.st == s.st
    requires forall u :: 0 <= u < n ==> s'.threads[u] == s.threads[u]
    ensures Total(s', n) == Total(s, n)
  {
    if n > 0 { SameTotal(s, s', n - 1); }
  }

  /** Steps taken, sleeps timed out, and the work the calls brought in, over a schedule. */
  function Steps(acts: seq<Action>): nat {
    if acts == [] then 0 else Steps(acts[..|acts| - 1]) + if acts[|acts| - 1].Run? then 1 else 0
  }

  function Timeouts(acts: seq<Action>): nat {
    if acts == [] then 0 else Timeouts(acts[..|acts| - 1]) + if acts[|acts| - 1].Timeout? then 1 else 0
  }

  function Work(acts: seq<Action>): nat {
    if acts == [] then 0
    else Work(acts[..|acts| - 1]) + if acts[|acts| - 1].Call? then 30 * |acts[|acts| - 1].th.todo| + 60 else 0
  }

  function Cost(a: Action): int {
    match a
    case Run(_, _) => -1
    case Timeout(_) => 6
    case Scribble(_, _) => 0
    case Call(th) => 30 * |th.todo| + 60
  }

  lemma ActionTotal(c: Config, s: State, a: Action)
    requires ValidConfig(c) && Inv(c, s) && Looks(s) && Can(c, s, a)
    ensures Looks(After(c, s, a))
    ensures Total(After(c, s, a), |After(c, s, a).threads|) <= Total(s, |s.threads|) + Cost(a)
  {
    match a
    case Run(t, e) =>
      EnabledRuns(c, s, t);
      RunTotal(c, s, t, e);
      RunLooks(c, s, t, e);
    case Timeout(t) => TimeoutTotal(s, t);
    case Scribble(t, junk) => ScribbleTotal(c, s, t, junk);
    case Call(th) => CallTotal(s, th);
  }

  lemma ScribbleTotal(c: Config, s: State, t: nat, junk: seq<byte>)
    requires Looks(s)
    ensures var s' := After(c, s, Scribble(t, junk)); Looks(s') && Total(s', |s'.threads|) == Total(s, |s.threads|)
  {
    SameTotal(s, After(c, s, Scribble(t, junk)), |s.threads|);
  }

  lemma CallTotal(s: State, th: Thread)
    requires Looks(s) && th.pc.Lookup? && (th.kind.Resolver? ==> th.todo == [])
    ensures var s' := s.(threads := s.threads + [th]);
            Looks(s') && Total(s', |s'.threads|) == Total(s, |s.threads|) + 30 * |th.todo| + 60
  {
    SameTotal(s, s.(threads := s.threads + [th]), |s.threads|);
  }

  lemma {:induction false} TotalOverSchedule(c: Config, s: State, acts: seq<Action>)
    requires ValidConfig(c) && Inv(c, s) && Looks(s) && Schedule(c, s, acts)
    ensures var end := Exec(c, s, acts);
            Looks(end) && Total(end, |end.threads|) + Steps(acts) <= Total(s, |s.threads|) + 6 * Timeouts(acts) + Work(acts)
  {
    if acts != [] {
      var most := acts[..|acts| - 1];
      TotalOverSchedule(c, s, most);
      ScheduleInv(c, s, most);
      ActionTotal(c, Exec(c, s, most), acts[|acts| - 1]);
    }
  }

  /**
   Termination without fairness: from start-up, however threads are interleaved, the number of
   steps taken is bounded by the calls made and the sleeps that timed out.
   */
  lemma StepsBounded(c: Config, s: State, acts: seq<Action>)
    requires ValidConfig(c) && Initial(c, s) && Schedule(c, s, acts)
    ensures Steps(acts) <= 6 * Timeouts(acts) + Work(acts)
  {
    InitialInv(c, s);
    TotalOverSchedule(c, s, acts);
  }
}
