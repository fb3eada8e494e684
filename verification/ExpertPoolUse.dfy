/**
 That the pool pools: what a resolver call answers, when a slot is refused, and that nothing is refused where
 everything fits.
 */
module ExpertPoolUse {
  import opened Common
  import opened ExpertPool
  import opened ExpertPoolSafety
  import opened ExpertPoolTheorems

  // ---- what a call answers ------------------------------------------------------------------

  /** A finished call has a pooled address exactly when its slot is ready; otherwise its slot was refused. */
  ghost predicate AnswerOk(c: Config, s: State, th: Thread) {
    th.kind.Resolver? && th.pc.Done? ==>
      var r := th.kind.req;
      var x := Slot(r.name, r.id);
      && (InTable(c, r) ==> x in s.st && (s.st[x] == 2 || s.st[x] == 3))
      && (th.base.Pooled? <==> InTable(c, r) && x in s.st && s.st[x] == 2)
  }

  ghost predicate Answers(c: Config, s: State) {
    forall t :: 0 <= t < |s.threads| ==> AnswerOk(c, s, s.threads[t])
  }

  lemma LoadAnswer(c: Config, s: State, t: nat)
    requires ValidConfig(c) && Shape(c, s) && Runnable(c, s, t) && ThreadOk(c, s, t, s.threads[t]) && s.threads[t].pc.Load?
    ensures |LookStep(c, s, t).threads| == |s.threads| && AnswerOk(c, LookStep(c, s, t), LookStep(c, s, t).threads[t])
  {
  }

  lemma LookAnswer(c: Config, s: State, t: nat)
    requires ValidConfig(c) && Shape(c, s) && Runnable(c, s, t) && ThreadOk(c, s, t, s.threads[t])
    requires s.threads[t].pc.Lookup? || s.threads[t].pc.Load? || s.threads[t].pc.Cas?
    ensures |LookStep(c, s, t).threads| == |s.threads| && AnswerOk(c, LookStep(c, s, t), LookStep(c, s, t).threads[t])
  {
    if s.threads[t].pc.Load? { LoadAnswer(c, s, t); }
  }

  lemma WaitAnswer(c: Config, s: State, t: nat)
    requires Runnable(c, s, t) && Waiting(s.threads[t].pc)
    ensures |WaitStep(c, s, t).threads| == |s.threads| && !WaitStep(c, s, t).threads[t].pc.Done?
  {
  }

  lemma ReadAnswer(c: Config, s: State, t: nat, e: Env)
    requires Runnable(c, s, t) && s.threads[t].pc.FillRead?
    ensures |Read(c, s, t, e).threads| == |s.threads| && !Read(c, s, t, e).threads[t].pc.Done?
  {
  }

  lemma SlotAnswer(c: Config, s: State, t: nat)
    requires ValidConfig(c) && Runnable(c, s, t) && ThreadOk(c, s, t, s.threads[t]) && Bracketing(s.threads[t].pc)
    ensures |SlotStep(c, s, t).threads| == |s.threads| && AnswerOk(c, SlotStep(c, s, t), SlotStep(c, s, t).threads[t])
  {
  }

  lemma FileAnswer(c: Config, s: State, t: nat, e: Env)
    requires Runnable(c, s, t) && HoldsGlobal(s.threads[t].pc) && !s.threads[t].pc.FillRead?
    ensures |FileStep(c, s, t, e).threads| == |s.threads| && !FileStep(c, s, t, e).threads[t].pc.Done?
  {
  }

  lemma OwnAnswer(c: Config, s: State, t: nat, e: Env)
    requires ValidConfig(c) && Shape(c, s) && Runnable(c, s, t) && ThreadOk(c, s, t, s.threads[t])
    ensures |Next(c, s, t, e).threads| == |s.threads| && AnswerOk(c, Next(c, s, t, e), Next(c, s, t, e).threads[t])
  {
    if Waiting(s.threads[t].pc) { WaitAnswer(c, s, t); }
    else if s.threads[t].pc.FillRead? { ReadAnswer(c, s, t, e); }
    else if HoldsGlobal(s.threads[t].pc) { FileAnswer(c, s, t, e); }
    else if Bracketing(s.threads[t].pc) { SlotAnswer(c, s, t); }
    else { LookAnswer(c, s, t); }
  }

  /** Ready and refused slots stay what they are, so an answer stays right. */
  lemma AnswerStays(c: Config, s: State, a: Action, th: Thread)
    requires ValidConfig(c) && Inv(c, s) && Can(c, s, a) && AnswerOk(c, s, th)
    ensures AnswerOk(c, After(c, s, a), th)
  {
    if th.kind.Resolver? && th.pc.Done? && InTable(c, th.kind.req) {
      ActionForward(c, s, a, Slot(th.kind.req.name, th.kind.req.id));
    }
  }

  /** A woken thread is not a finished one. */
  lemma OtherAnswer(c: Config, s: State, t: nat, e: Env, u: nat)
    requires ValidConfig(c) && Inv(c, s) && Enabled(s, t) && Runnable(c, s, t) && u < |s.threads| && u != t
    requires AnswerOk(c, s, s.threads[u])
    ensures |Next(c, s, t, e).threads| == |s.threads| && AnswerOk(c, Next(c, s, t, e), Next(c, s, t, e).threads[u])
  {
    OthersStay(c, s, t, e, u);
    AnswerStays(c, s, Run(t, e), s.threads[u]);
  }

  lemma RunAnswers(c: Config, s: State, t: nat, e: Env)
    requires ValidConfig(c) && Inv(c, s) && Enabled(s, t) && Runnable(c, s, t) && Answers(c, s)
    ensures Answers(c, Next(c, s, t, e))
  {
    var s' := Next(c, s, t, e);
    assert ThreadOk(c, s, t, s.threads[t]);
    OwnAnswer(c, s, t, e);
    forall u | 0 <= u < |s'.threads| ensures AnswerOk(c, s', s'.threads[u]) {
      if u != t {
        OtherAnswer(c, s, t, e, u);
      }
    }
  }

  lemma QuietAnswers(c: Config, s: State, a: Action)
    requires !a.Run? && Can(c, s, a) && Answers(c, s)
    ensures Answers(c, After(c, s, a))
  {
    var s' := After(c, s, a);
    assert s'.st == s.st;
    forall u | 0 <= u < |s'.threads| ensures AnswerOk(c, s', s'.threads[u]) {
      assert u < |s.threads| ==> AnswerOk(c, s, s.threads[u]);
    }
  }

  lemma ActionAnswers(c: Config, s: State, a: Action)
    requires ValidConfig(c) && Inv(c, s) && Can(c, s, a) && Answers(c, s)
    ensures Answers(c, After(c, s, a))
  {
    if a.Run? {
      EnabledRuns(c, s, a.t);
      RunAnswers(c, s, a.t, a.env);
    } else {
      QuietAnswers(c, s, a);
    }
  }

  lemma {:induction false} ScheduleAnswers(c: Config, s: State, acts: seq<Action>)
    requires ValidConfig(c) && Inv(c, s) && Answers(c, s) && Schedule(c, s, acts)
    ensures Answers(c, Exec(c, s, acts))
  {
    if acts != [] {
      var most := acts[..|acts| - 1];
      ScheduleAnswers(c, s, most);
      ScheduleInv(c, s, most);
      ActionAnswers(c, Exec(c, s, most), acts[|acts| - 1]);
    }
  }

  /**
   In every schedule, whatever the file calls return: a finished call for a slot of the table finds it ready or
   refused, and the address is pooled exactly when the slot is ready.
   */
  lemma AnswerExactly(c: Config, s: State, acts: seq<Action>, t: nat)
    requires ValidConfig(c) && Initial(c, s) && Schedule(c, s, acts) && t < |Exec(c, s, acts).threads|
    requires Exec(c, s, acts).threads[t].kind.Resolver? && Exec(c, s, acts).threads[t].pc.Done?
    ensures var end := Exec(c, s, acts);
            var r := end.threads[t].kind.req;
            var x := Slot(r.name, r.id);
            && (InTable(c, r) ==> x in end.st && (end.st[x] == 2 || end.st[x] == 3))
            && (end.threads[t].base.Pooled? <==> InTable(c, r) && x in end.st && end.st[x] == 2)
  {
    InitialInv(c, s);
    ScheduleAnswers(c, s, acts);
    assert AnswerOk(c, Exec(c, s, acts), Exec(c, s, acts).threads[t]);
  }

  /** Once a slot is ready, every call for it that is not yet answered, or comes later, answers with its pages. */
  lemma ReadyAnswersPooled(c: Config, s: State, acts: seq<Action>, i: nat, t: nat)
    requires ValidConfig(c) && Initial(c, s) && Schedule(c, s, acts) && i <= |acts| && t < |Exec(c, s, acts).threads|
    requires Exec(c, s, acts).threads[t].kind.Resolver? && Exec(c, s, acts).threads[t].pc.Done?
    requires var r := Exec(c, s, acts).threads[t].kind.req;
             var x := Slot(r.name, r.id);
             InTable(c, r) && x in Exec(c, s, acts[..i]).st && Exec(c, s, acts[..i]).st[x] == 2
    ensures Exec(c, s, acts).threads[t].base.Pooled?
  {
    var r := Exec(c, s, acts).threads[t].kind.req;
    AnswerExactly(c, s, acts, t);
    InitialInv(c, s);
    ScheduleInv(c, s, acts);
    SlotsAdvance(c, s, acts, i, Slot(r.name, r.id));
  }

  // ---- when a slot is refused -----------------------------------------------------------------

  /** No file call of the schedule fails. */
  predicate FilesWork(acts: seq<Action>) {
    forall i :: 0 <= i < |acts| && acts[i].Run? ==> acts[i].env.ok
  }

  /** The bytes charged to the region leave no room for the slot. */
  ghost predicate NoRoom(c: Config, s: State, reg: nat, x: Slot) {
    |s.bytes| == |c.cap| == 2 && reg < 2 && IsSlot(c, x) && s.bytes[reg] + Per(c, x) > c.cap[reg]
  }

  /** A fill that gave up did so for want of room. */
  ghost predicate FillSure(c: Config, s: State, th: Thread) {
    (th.pc.FillUnlock? || th.pc.FillPublish?) && !th.ok ==> th.todo != [] && NoRoom(c, s, Region(th.kind), th.todo[0])
  }

  ghost predicate Sure(c: Config, s: State) {
    forall t :: 0 <= t < |s.threads| ==> FillSure(c, s, s.threads[t])
  }

  /** The accounts only grow. */
  ghost predicate Grown(s: State, s': State) {
    |s'.bytes| == |s.bytes| && forall r :: 0 <= r < |s.bytes| ==> s.bytes[r] <= s'.bytes[r]
  }

  lemma FileGrows(c: Config, s: State, t: nat, e: Env)
    requires Runnable(c, s, t) && HoldsGlobal(s.threads[t].pc) && !s.threads[t].pc.FillRead?
    ensures Grown(s, FileStep(c, s, t, e))
  {
  }

  lemma RunGrows(c: Config, s: State, t: nat, e: Env)
    requires Runnable(c, s, t)
    ensures Grown(s, Next(c, s, t, e))
  {
    if Waiting(s.threads[t].pc) { }
    else if s.threads[t].pc.FillRead? { }
    else if HoldsGlobal(s.threads[t].pc) { FileGrows(c, s, t, e); }
    else if Bracketing(s.threads[t].pc) { }
    else { }
  }

  /** The read of a slot's part of the file succeeds when the file calls do. */
  lemma ReadSure(c: Config, s: State, t: nat, e: Env)
    requires ValidConfig(c) && Runnable(c, s, t) && s.threads[t].pc.FillRead? && ThreadOk(c, s, t, s.threads[t]) && e.ok
    ensures |Next(c, s, t, e).threads| == |s.threads| && Next(c, s, t, e).threads[t].pc.FillCharge?
  {
    var x := s.threads[t].todo[0];
    BlockFits(x.id, Per(c, x), c.tensors[x.name].count);
  }

  lemma FileSure(c: Config, s: State, t: nat, e: Env)
    requires ValidConfig(c) && Runnable(c, s, t) && HoldsGlobal(s.threads[t].pc) && !s.threads[t].pc.FillRead? && e.ok
    requires ThreadOk(c, s, t, s.threads[t]) && FillSure(c, s, s.threads[t])
    ensures |FileStep(c, s, t, e).threads| == |s.threads| && FillSure(c, FileStep(c, s, t, e), FileStep(c, s, t, e).threads[t])
  {
  }

  lemma SlotSure(c: Config, s: State, t: nat)
    requires Runnable(c, s, t) && Bracketing(s.threads[t].pc) && FillSure(c, s, s.threads[t])
    ensures |SlotStep(c, s, t).threads| == |s.threads| && FillSure(c, SlotStep(c, s, t), SlotStep(c, s, t).threads[t])
  {
  }

  lemma LookSure(c: Config, s: State, t: nat)
    requires Runnable(c, s, t) && (s.threads[t].pc.Lookup? || s.threads[t].pc.Load? || s.threads[t].pc.Cas?)
    ensures |LookStep(c, s, t).threads| == |s.threads| && FillSure(c, LookStep(c, s, t), LookStep(c, s, t).threads[t])
  {
  }

  lemma WaitSure(c: Config, s: State, t: nat)
    requires Runnable(c, s, t) && Waiting(s.threads[t].pc)
    ensures |WaitStep(c, s, t).threads| == |s.threads| && FillSure(c, WaitStep(c, s, t), WaitStep(c, s, t).threads[t])
  {
  }

  lemma OwnSure(c: Config, s: State, t: nat, e: Env)
    requires ValidConfig(c) && Runnable(c, s, t) && e.ok && ThreadOk(c, s, t, s.threads[t]) && FillSure(c, s, s.threads[t])
    ensures |Next(c, s, t, e).threads| == |s.threads| && FillSure(c, Next(c, s, t, e), Next(c, s, t, e).threads[t])
  {
    if Waiting(s.threads[t].pc) { WaitSure(c, s, t); }
    else if s.threads[t].pc.FillRead? { ReadSure(c, s, t, e); }
    else if HoldsGlobal(s.threads[t].pc) { FileSure(c, s, t, e); }
    else if Bracketing(s.threads[t].pc) { SlotSure(c, s, t); }
    else { LookSure(c, s, t); }
  }

  lemma SureStays(c: Config, s: State, s': State, th: Thread)
    requires Grown(s, s') && FillSure(c, s, th)
    ensures FillSure(c, s', th)
  {
  }

  lemma RunSure(c: Config, s: State, t: nat, e: Env)
    requires ValidConfig(c) && Threads(c, s) && Runnable(c, s, t) && Sure(c, s) && e.ok
    ensures Sure(c, Next(c, s, t, e))
  {
    var s' := Next(c, s, t, e);
    assert ThreadOk(c, s, t, s.threads[t]);
    OwnSure(c, s, t, e);
    RunGrows(c, s, t, e);
    forall u | 0 <= u < |s'.threads| ensures FillSure(c, s', s'.threads[u]) {
      if u != t {
        OthersStay(c, s, t, e, u);
        SureStays(c, s, s', s.threads[u]);
      }
    }
  }

  lemma QuietSure(c: Config, s: State, a: Action)
    requires !a.Run? && Can(c, s, a) && Sure(c, s)
    ensures Sure(c, After(c, s, a))
  {
    var s' := After(c, s, a);
    assert s'.bytes == s.bytes;
    forall u | 0 <= u < |s'.threads| ensures FillSure(c, s', s'.threads[u]) {
      assert u < |s.threads| ==> FillSure(c, s, s.threads[u]);
    }
  }

  lemma ActionSure(c: Config, s: State, a: Action)
    requires ValidConfig(c) && Inv(c, s) && Can(c, s, a) && Sure(c, s) && (a.Run? ==> a.env.ok)
    ensures Sure(c, After(c, s, a))
  {
    if a.Run? {
      EnabledRuns(c, s, a.t);
      RunSure(c, s, a.t, a.env);
    } else {
      QuietSure(c, s, a);
    }
  }

  lemma {:induction false} ScheduleSure(c: Config, s: State, acts: seq<Action>)
    requires ValidConfig(c) && Inv(c, s) && Sure(c, s) && Schedule(c, s, acts) && FilesWork(acts)
    ensures Sure(c, Exec(c, s, acts))
  {
    if acts != [] {
      var most := acts[..|acts| - 1];
      assert FilesWork(most);
      ScheduleSure(c, s, most);
      ScheduleInv(c, s, most);
      ActionSure(c, Exec(c, s, most), acts[|acts| - 1]);
    }
  }

  /** The slot is being filled, and its filler's region has no room for it. */
  ghost predicate FullWhileFilled(c: Config, s: State, x: Slot) {
    && x in s.st && s.st[x] == 1 && x in s.filler && s.filler[x] < |s.threads|
    && NoRoom(c, s, Region(s.threads[s.filler[x]].kind), x)
  }

  lemma PublisherOnly(c: Config, s: State, t: nat, e: Env, x: Slot)
    requires Runnable(c, s, t) && x in s.st && s.st[x] == 1 && x in Next(c, s, t, e).st && Next(c, s, t, e).st[x] == 3
    ensures s.threads[t].pc.FillPublish? && !s.threads[t].ok && s.threads[t].todo != [] && s.threads[t].todo[0] == x
  {
    if Waiting(s.threads[t].pc) { }
    else if s.threads[t].pc.FillRead? { }
    else if HoldsGlobal(s.threads[t].pc) { FileForward(c, s, t, e); }
    else if Bracketing(s.threads[t].pc) { }
    else { }
  }

  /** A fill that gave up has not been charged. */
  ghost predicate GaveUp(s: State, x: Slot) {
    x in s.filler && s.filler[x] < |s.threads| && !s.threads[s.filler[x]].ok
  }

  lemma GiverFull(c: Config, s: State, t: nat, x: Slot)
    requires ValidConfig(c) && t < |s.threads| && ThreadOk(c, s, t, s.threads[t]) && FillSure(c, s, s.threads[t])
    requires s.threads[t].pc.FillPublish? && !s.threads[t].ok && s.threads[t].todo != [] && s.threads[t].todo[0] == x
    ensures FullWhileFilled(c, s, x) && GaveUp(s, x)
  {
  }

  /** Only a publication refuses a slot, and its filler had no room. */
  lemma RefusedNow(c: Config, s: State, a: Action, x: Slot)
    requires ValidConfig(c) && Inv(c, s) && Can(c, s, a) && Sure(c, s)
    requires x in s.st && s.st[x] != 3 && x in After(c, s, a).st && After(c, s, a).st[x] == 3
    ensures FullWhileFilled(c, s, x) && GaveUp(s, x)
  {
    ActionForward(c, s, a, x);
    if a.Run? {
      EnabledRuns(c, s, a.t);
      PublisherOnly(c, s, a.t, a.env, x);
      GiverFull(c, s, a.t, x);
    }
  }

  /** In the last step of a schedule. */
  lemma RefusedLast(c: Config, s: State, acts: seq<Action>, x: Slot)
    requires ValidConfig(c) && Initial(c, s) && Schedule(c, s, acts) && FilesWork(acts) && acts != []
    requires x in Exec(c, s, acts).st && Exec(c, s, acts).st[x] == 3
    ensures var before := Exec(c, s, acts[..|acts| - 1]);
            x in before.st && (before.st[x] != 3 ==> FullWhileFilled(c, before, x) && GaveUp(before, x)) && Inv(c, before)
  {
    var most := acts[..|acts| - 1];
    assert FilesWork(most);
    InitialInv(c, s);
    SlotOf(c, s, acts, x);
    StepForward(c, s, acts, x);
    ScheduleInv(c, s, most);
    ScheduleSure(c, s, most);
    if Exec(c, s, most).st[x] != 3 {
      RefusedNow(c, Exec(c, s, most), acts[|acts| - 1], x);
    }
  }

  /** Only slots have states. */
  lemma SlotOf(c: Config, s: State, acts: seq<Action>, x: Slot)
    requires ValidConfig(c) && Inv(c, s) && Schedule(c, s, acts) && x in Exec(c, s, acts).st
    ensures IsSlot(c, x)
  {
    ScheduleInv(c, s, acts);
  }

  /** At some moment before the end the slot was being filled without room for it. */
  ghost predicate EverFull(c: Config, s: State, acts: seq<Action>, x: Slot) {
    acts != [] &&
    var most := acts[..|acts| - 1];
    FullWhileFilled(c, Exec(c, s, most), x) || EverFull(c, s, most, x)
  }

  lemma {:induction false} RefusedEver(c: Config, s: State, acts: seq<Action>, x: Slot)
    requires ValidConfig(c) && Initial(c, s) && Schedule(c, s, acts) && FilesWork(acts)
    requires x in Exec(c, s, acts).st && Exec(c, s, acts).st[x] == 3
    ensures EverFull(c, s, acts, x)
  {
    if acts == [] {
      assert false;
    } else {
      var most := acts[..|acts| - 1];
      RefusedLast(c, s, acts, x);
      if Exec(c, s, most).st[x] == 3 {
        assert FilesWork(most);
        RefusedEver(c, s, most, x);
      }
    }
  }

  lemma {:induction false} EverFullAt(c: Config, s: State, acts: seq<Action>, x: Slot) returns (i: nat)
    requires EverFull(c, s, acts, x)
    ensures i < |acts| && FullWhileFilled(c, Exec(c, s, acts[..i]), x)
  {
    var most := acts[..|acts| - 1];
    if FullWhileFilled(c, Exec(c, s, most), x) {
      i := |acts| - 1;
    } else {
      i := EverFullAt(c, s, most, x);
      assert most[..i] == acts[..i];
    }
  }

  /**
   When no file call fails, every refused slot had no room: at some moment while it was being filled, the bytes
   charged to its filler's region and its own exceeded the cap.
   */
  lemma RefusedForRoom(c: Config, s: State, acts: seq<Action>, x: Slot) returns (i: nat)
    requires ValidConfig(c) && Initial(c, s) && Schedule(c, s, acts) && FilesWork(acts)
    requires x in Exec(c, s, acts).st && Exec(c, s, acts).st[x] == 3
    ensures i < |acts| && FullWhileFilled(c, Exec(c, s, acts[..i]), x)
  {
    RefusedEver(c, s, acts, x);
    i := EverFullAt(c, s, acts, x);
  }

  // ---- where everything fits -----------------------------------------------------------------

  function SizeOf(c: Config, xs: seq<Slot>): nat {
    if xs == [] then 0 else SizeOf(c, xs[..|xs| - 1]) + if IsSlot(c, xs[|xs| - 1]) then Per(c, xs[|xs| - 1]) else 0
  }

  /** `all` lists every slot, and their lengths together fit the cap of each region. */
  ghost predicate AllFit(c: Config, all: seq<Slot>) {
    && |c.cap| == 2 && (forall x :: IsSlot(c, x) ==> x in all)
    && SizeOf(c, all) <= c.cap[0] && SizeOf(c, all) <= c.cap[1]
  }

  lemma {:induction false} SizeWithout(c: Config, xs: seq<Slot>, k: nat)
    requires k < |xs| && IsSlot(c, xs[k])
    ensures SizeOf(c, xs) == SizeOf(c, xs[..k] + xs[k + 1..]) + Per(c, xs[k])
  {
    var n := |xs| - 1;
    if k == n {
      assert xs[..k] + xs[k + 1..] == xs[..n];
    } else {
      var less := xs[..k] + xs[k + 1..];
      assert less[..n - 1] == xs[..n][..k] + xs[..n][k + 1..] && less[n - 1] == xs[n];
      SizeWithout(c, xs[..n], k);
    }
  }

  /** Slots listed once are no longer than any list that has them all. */
  lemma {:induction false} SizeWithin(c: Config, xs: seq<Slot>, all: seq<Slot>)
    requires forall i, j :: 0 <= i < j < |xs| ==> xs[i] != xs[j]
    requires forall i :: 0 <= i < |xs| ==> IsSlot(c, xs[i]) && xs[i] in all
    ensures SizeOf(c, xs) <= SizeOf(c, all)
    decreases xs
  {
    if xs != [] {
      var n := |xs| - 1;
      var k :| 0 <= k < |all| && all[k] == xs[n];
      var others := all[..k] + all[k + 1..];
      forall i | 0 <= i < n ensures xs[i] in others {
        var j :| 0 <= j < |all| && all[j] == xs[i];
        assert others[if j < k then j else j - 1] == xs[i];
      }
      SizeWithin(c, xs[..n], others);
      SizeWithout(c, all, k);
    }
  }

  function ChargedSlots(log: seq<(Slot, nat)>): (xs: seq<Slot>)
    ensures |xs| == |log| && forall i :: 0 <= i < |log| ==> xs[i] == log[i].0
  {
    seq(|log|, i requires 0 <= i < |log| => log[i].0)
  }

  lemma {:induction false} ChargedWithin(c: Config, log: seq<(Slot, nat)>, reg: nat)
    ensures ChargedTo(c, log, reg) <= SizeOf(c, ChargedSlots(log))
  {
    if log != [] {
      ChargedWithin(c, log[..|log| - 1], reg);
      assert ChargedSlots(log)[..|log| - 1] == ChargedSlots(log[..|log| - 1]);
    }
  }

  /** Beside what is charged there is room for any slot that is not. */
  lemma RoomForOther(c: Config, s: State, all: seq<Slot>, reg: nat, x: Slot)
    requires ValidConfig(c) && |s.bytes| == 2 && Accounts(c, s) && AllFit(c, all) && reg < 2
    requires IsSlot(c, x) && !IsCharged(s, x)
    ensures !NoRoom(c, s, reg, x)
  {
    var xs := ChargedSlots(s.charged);
    forall i | 0 <= i < |xs| ensures IsSlot(c, xs[i]) && xs[i] in all && xs[i] != x {
      assert IsCharged(s, s.charged[i].0);
    }
    SizeWithin(c, xs + [x], all);
    assert (xs + [x])[..|xs|] == xs;
    ChargedWithin(c, s.charged, reg);
  }

  lemma FullCannotBe(c: Config, s: State, all: seq<Slot>, x: Slot)
    requires ValidConfig(c) && |s.bytes| == 2 && Accounts(c, s) && AllFit(c, all)
    ensures !(FullWhileFilled(c, s, x) && GaveUp(s, x))
  {
    if FullWhileFilled(c, s, x) && GaveUp(s, x) {
      RoomForOther(c, s, all, Region(s.threads[s.filler[x]].kind), x);
    }
  }

  /** Where everything fits and no file call fails, nothing is ever refused. */
  lemma {:induction false} NothingRefused(c: Config, s: State, acts: seq<Action>, all: seq<Slot>, x: Slot)
    requires ValidConfig(c) && Initial(c, s) && Schedule(c, s, acts) && FilesWork(acts) && AllFit(c, all)
    requires x in Exec(c, s, acts).st
    ensures Exec(c, s, acts).st[x] != 3
  {
    if Exec(c, s, acts).st[x] == 3 && acts != [] {
      var most := acts[..|acts| - 1];
      RefusedLast(c, s, acts, x);
      if Exec(c, s, most).st[x] == 3 {
        assert FilesWork(most);
        NothingRefused(c, s, most, all, x);
      } else {
        FullCannotBe(c, Exec(c, s, most), all, x);
      }
    }
  }

  /**
   Where all slots together fit the cap of each region and no file call fails, every finished call for a slot of
   the table answers with the pool's pages, and its slot is ready.
   */
  lemma EverythingPooled(c: Config, s: State, acts: seq<Action>, all: seq<Slot>, t: nat)
    requires ValidConfig(c) && Initial(c, s) && Schedule(c, s, acts) && FilesWork(acts) && AllFit(c, all)
    requires t < |Exec(c, s, acts).threads|
    requires var th := Exec(c, s, acts).threads[t]; th.kind.Resolver? && th.pc.Done? && InTable(c, th.kind.req)
    ensures var end := Exec(c, s, acts);
            var x := Slot(end.threads[t].kind.req.name, end.threads[t].kind.req.id);
            end.threads[t].base.Pooled? && x in end.st && end.st[x] == 2
  {
    var r := Exec(c, s, acts).threads[t].kind.req;
    AnswerExactly(c, s, acts, t);
    NothingRefused(c, s, acts, all, Slot(r.name, r.id));
  }

  // ---- prefill passes visit all their slots --------------------------------------------------------

  /** The slot is still on the pass's list, or was claimed by someone; a finished pass has nothing on its list. */
  ghost predicate Visits(s: State, th: Thread, x: Slot) {
    && th.kind.Prefill? && x in s.st && (x in th.todo || s.st[x] != 0)
    && (th.pc.Done? ==> th.todo == [])
  }

  lemma LookVisits(c: Config, s: State, t: nat, x: Slot)
    requires Runnable(c, s, t) && (s.threads[t].pc.Lookup? || s.threads[t].pc.Load? || s.threads[t].pc.Cas?)
    requires Visits(s, s.threads[t], x)
    ensures |LookStep(c, s, t).threads| == |s.threads| && Visits(LookStep(c, s, t), LookStep(c, s, t).threads[t], x)
  {
    var th := s.threads[t];
    if th.todo != [] { assert th.todo == [th.todo[0]] + th.todo[1..]; }
  }

  lemma SlotVisits(c: Config, s: State, t: nat, x: Slot)
    requires ValidConfig(c) && Runnable(c, s, t) && Bracketing(s.threads[t].pc) && ThreadOk(c, s, t, s.threads[t])
    requires Visits(s, s.threads[t], x)
    ensures |SlotStep(c, s, t).threads| == |s.threads| && Visits(SlotStep(c, s, t), SlotStep(c, s, t).threads[t], x)
  {
    var th := s.threads[t];
    assert th.todo == [th.todo[0]] + th.todo[1..];
  }

  lemma FileVisits(c: Config, s: State, t: nat, e: Env, x: Slot)
    requires Runnable(c, s, t) && HoldsGlobal(s.threads[t].pc) && !s.threads[t].pc.FillRead? && Visits(s, s.threads[t], x)
    ensures |FileStep(c, s, t, e).threads| == |s.threads| && Visits(FileStep(c, s, t, e), FileStep(c, s, t, e).threads[t], x)
  {
  }

  lemma ReadVisits(c: Config, s: State, t: nat, e: Env, x: Slot)
    requires Runnable(c, s, t) && s.threads[t].pc.FillRead? && Visits(s, s.threads[t], x)
    ensures |Read(c, s, t, e).threads| == |s.threads| && Visits(Read(c, s, t, e), Read(c, s, t, e).threads[t], x)
  {
  }

  lemma WaitVisits(c: Config, s: State, t: nat, x: Slot)
    requires Runnable(c, s, t) && Waiting(s.threads[t].pc) && Visits(s, s.threads[t], x)
    ensures |WaitStep(c, s, t).threads| == |s.threads| && Visits(WaitStep(c, s, t), WaitStep(c, s, t).threads[t], x)
  {
  }

  lemma OwnVisits(c: Config, s: State, t: nat, e: Env, x: Slot)
    requires ValidConfig(c) && Runnable(c, s, t) && ThreadOk(c, s, t, s.threads[t]) && Visits(s, s.threads[t], x)
    ensures |Next(c, s, t, e).threads| == |s.threads| && Visits(Next(c, s, t, e), Next(c, s, t, e).threads[t], x)
  {
    if Waiting(s.threads[t].pc) { WaitVisits(c, s, t, x); }
    else if s.threads[t].pc.FillRead? { ReadVisits(c, s, t, e, x); }
    else if HoldsGlobal(s.threads[t].pc) { FileVisits(c, s, t, e, x); }
    else if Bracketing(s.threads[t].pc) { SlotVisits(c, s, t, x); }
    else { LookVisits(c, s, t, x); }
  }

  lemma OtherVisits(c: Config, s: State, a: Action, t: nat, x: Slot)
    requires ValidConfig(c) && Inv(c, s) && Can(c, s, a) && t < |s.threads| && (a.Run? ==> a.t != t)
    requires Visits(s, s.threads[t], x)
    ensures t < |After(c, s, a).threads| && Visits(After(c, s, a), After(c, s, a).threads[t], x)
  {
    ActionForward(c, s, a, x);
    if a.Run? {
      EnabledRuns(c, s, a.t);
      OthersStay(c, s, a.t, a.env, t);
    }
  }

  lemma ActionVisits(c: Config, s: State, a: Action, t: nat, x: Slot)
    requires ValidConfig(c) && Inv(c, s) && Can(c, s, a) && t < |s.threads| && Visits(s, s.threads[t], x)
    ensures t < |After(c, s, a).threads| && Visits(After(c, s, a), After(c, s, a).threads[t], x)
  {
    if a.Run? && a.t == t {
      EnabledRuns(c, s, t);
      assert ThreadOk(c, s, t, s.threads[t]);
      OwnVisits(c, s, t, a.env, x);
    } else {
      OtherVisits(c, s, a, t, x);
    }
  }

  lemma {:induction false} ScheduleVisits(c: Config, s: State, acts: seq<Action>, t: nat, x: Slot)
    requires ValidConfig(c) && Inv(c, s) && Schedule(c, s, acts) && t < |s.threads| && Visits(s, s.threads[t], x)
    ensures t < |Exec(c, s, acts).threads| && Visits(Exec(c, s, acts), Exec(c, s, acts).threads[t], x)
  {
    if acts != [] {
      var most := acts[..|acts| - 1];
      ScheduleVisits(c, s, most, t, x);
      ScheduleInv(c, s, most);
      ActionVisits(c, Exec(c, s, most), acts[|acts| - 1], t, x);
    }
  }

  /** From any reachable state on: when a prefill pass that starts there is done, each of its slots has been claimed. */
  lemma PrefillVisits(c: Config, s: State, th: Thread, acts: seq<Action>, x: Slot)
    requires ValidConfig(c) && Inv(c, s) && Fresh(c, th) && th.kind.Prefill? && x in th.todo
    requires Schedule(c, After(c, s, Call(th)), acts)
    requires |s.threads| < |Exec(c, After(c, s, Call(th)), acts).threads|
    requires Exec(c, After(c, s, Call(th)), acts).threads[|s.threads|].pc.Done?
    ensures var end := Exec(c, After(c, s, Call(th)), acts); x in end.st && end.st[x] != 0
  {
    AppendKeeps(c, s, th);
    ScheduleVisits(c, After(c, s, Call(th)), acts, |s.threads|, x);
  }
}
