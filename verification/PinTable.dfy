/**
 The age-based pin table of windows/serve/prefetch.cc (`e0_pool_evict`, `e0_issue_pool`): two regions,
 0 hot and 1 observed, each with a byte account and a cap.
 */
module PinTable {
  import opened Common
  import opened PinRows
  import opened PinWalk
  import opened PinLoss
  import opened PinBlock
  import opened PinSingle

  // ---- the table ------------------------------------------------------------------------------------

  /** The first wanted ranges were looked up: those in the row when the turn began are touched. */
  ghost predicate MarksSoFar(before: Rows, after: Rows, reg: nat, c: nat, wants: seq<Range>, hit: seq<bool>) {
    && c < |before| && |hit| <= |wants|
    && after == before[c := MarkedRow(before[c], reg, wants[..|hit|])]
    && (forall j :: 0 <= j < |hit| ==> (hit[j] <==> Held(before[c], reg, wants[j].off)))
    && (forall j :: 0 <= j < |hit| && hit[j] ==> Fresh(after[c], reg, wants[j].off))
  }

  lemma MarksMore(before: Rows, was: Rows, now: Rows, reg: nat, c: nat, wants: seq<Range>, hit: seq<bool>, found: bool)
    requires MarksSoFar(before, was, reg, c, wants, hit) && |hit| < |wants| && Keeps(was, now)
    requires now == was[c := Touched(was[c], reg, wants[|hit|].off)]
    requires (found <==> Held(was[c], reg, wants[|hit|].off)) && (found ==> Fresh(now[c], reg, wants[|hit|].off))
    ensures MarksSoFar(before, now, reg, c, wants, hit + [found])
  {
    assert wants[..|hit| + 1][..|hit|] == wants[..|hit|];
    SameHeld(before[c], was[c], reg, wants[|hit|].off);
    assert forall j :: 0 <= j < |hit| ==> (hit + [found])[j] == hit[j];
  }

  /** The first `n` consumers' ranges are settled. */
  ghost predicate SettledUpTo(rows: Rows, cap: nat, reg: nat, want: seq<seq<Range>>, n: nat) {
    n <= |want| && n <= |rows| && forall c :: 0 <= c < n ==> AllSettled(rows, cap, c, reg, want[c], |want[c]|)
  }

  lemma SettledMore(was: Rows, now: Rows, cap: nat, reg: nat, want: seq<seq<Range>>, n: nat)
    requires SettledUpTo(was, cap, reg, want, n) && Keeps(was, now)
    ensures SettledUpTo(now, cap, reg, want, n)
  {
    forall c | 0 <= c < n ensures AllSettled(now, cap, c, reg, want[c], |want[c]|) {
      SettledStays(was, now, cap, c, reg, want[c], |want[c]|);
    }
  }

  /** What the first `n` consumers' turns did to a region. */
  ghost predicate IssueSoFar(a: Snapshot, b: Snapshot, reg: nat, cap: nat, want: seq<seq<Range>>, n: nat)
    requires reg < 2
  {
    && n <= |want| == |a.rows| && Keeps(a.rows, b.rows) && b.rows == Issued(a.rows, reg, cap, want, n)
    && (b.evicts > a.evicts <==> IssueEvicts(a.rows, reg, cap, want, n))
    && Gentle(cap, a, b, reg, DemandBytes(want[..n]))
    && (Positive(a.rows) && Wanted(want) ==> Positive(b.rows) && SettledUpTo(b.rows, cap, reg, want, n))
  }

  /** What one turn does. */
  ghost predicate TurnDone(b: Snapshot, d: Snapshot, reg: nat, cap: nat, c: nat, wants: seq<Range>)
    requires reg < 2
  {
    && c < |b.rows| && Keeps(b.rows, d.rows) && d.rows == Served(b.rows, reg, cap, c, wants)
    && (d.evicts > b.evicts <==> ServeEvicts(b.rows, reg, cap, c, wants))
    && Gentle(cap, b, d, reg, Lens(wants))
    && (Positive(b.rows) && AllPositive(wants) ==> Positive(d.rows) && AllSettled(d.rows, cap, c, reg, wants, |wants|))
  }

  lemma IssueMore(a: Snapshot, b: Snapshot, d: Snapshot, reg: nat, cap: nat, want: seq<seq<Range>>, n: nat)
    requires reg < 2 && n < |want| && IssueSoFar(a, b, reg, cap, want, n) && TurnDone(b, d, reg, cap, n, want[n])
    ensures IssueSoFar(a, d, reg, cap, want, n + 1)
  {
    KeepsBoth(a.rows, b.rows, d.rows);
    assert want[..n + 1][..n] == want[..n];
    GentleBoth(cap, a, b, d, reg, DemandBytes(want[..n]), Lens(want[n]));
    if Positive(a.rows) && Wanted(want) {
      SettledMore(b.rows, d.rows, cap, reg, want, n);
    }
  }

  class Table {
    const cap: seq<nat>
    var rows: Rows
    var regBytes: seq<nat>
    var poolHit: nat
    var poolTot: nat
    var lockFail: nat
    var evicts: nat
    var shrinks: nat

    /** Both accounts are exact and within their caps. */
    ghost predicate Valid()
      reads this
    {
      && |regBytes| == |cap| == 2
      && regBytes[0] == Bytes(rows, 0) <= cap[0]
      && regBytes[1] == Bytes(rows, 1) <= cap[1]
    }

    ghost function Now(): Snapshot
      reads this
    {
      Snapshot(rows, regBytes, evicts)
    }

    constructor (consumers: nat, hotCap: nat, obsCap: nat)
      ensures Valid() && cap == [hotCap, obsCap] && |rows| == consumers && Positive(rows)
      ensures evicts == 0 && forall c :: 0 <= c < |rows| ==> rows[c] == []
    {
      cap, regBytes := [hotCap, obsCap], [0, 0];
      rows := seq(consumers, c requires 0 <= c < consumers => []);
      poolHit, poolTot, lockFail, evicts, shrinks := 0, 0, 0, 0, 0;
      new;
      NoBytes(rows, 0);
      NoBytes(rows, 1);
    }

    /** The scan of `e0_pool_evict`: a later entry wins only if it is strictly older. */
    method FindOldest(reg: nat) returns (wc: int, wi: int)
      ensures wc < 0 ==> NoStale(rows, reg)
      ensures wc >= 0 ==> wi >= 0 && Oldest(rows, reg, wc, wi) && OldestOf(rows, reg) == Some((wc, wi))
    {
      wc, wi := -1, -1;
      var oldest := 0;
      for c := 0 to |rows|
        invariant wc < 0 ==> oldest == 0
        invariant wc >= 0 ==> 0 <= wc < c && 0 <= wi < |rows[wc]| && rows[wc][wi].reg == reg && rows[wc][wi].age == oldest > 0
        invariant forall i, j :: 0 <= i < c && 0 <= j < |rows[i]| && rows[i][j].reg == reg ==> rows[i][j].age <= oldest
        invariant wc >= 0 ==> forall i, j :: 0 <= i < |rows| && 0 <= j < |rows[i]| && rows[i][j].reg == reg && Earlier(i, j, wc, wi) ==>
                      rows[i][j].age < oldest
      {
        wc, wi, oldest := FindInRow(reg, c, wc, wi, oldest);
      }
      if wc >= 0 {
        OneOldest(rows, reg, wc, wi);
      }
    }

    method FindInRow(reg: nat, c: nat, wc0: int, wi0: int, oldest0: nat) returns (wc: int, wi: int, oldest: nat)
      requires c < |rows| && (wc0 < 0 ==> oldest0 == 0)
      requires wc0 >= 0 ==> 0 <= wc0 < c && 0 <= wi0 < |rows[wc0]| && rows[wc0][wi0].reg == reg
                            && rows[wc0][wi0].age == oldest0 > 0
      requires forall i, j :: 0 <= i < c && 0 <= j < |rows[i]| && rows[i][j].reg == reg ==> rows[i][j].age <= oldest0
      requires wc0 >= 0 ==> forall i, j :: 0 <= i < |rows| && 0 <= j < |rows[i]| && rows[i][j].reg == reg && Earlier(i, j, wc0, wi0) ==>
                  rows[i][j].age < oldest0
      ensures wc < 0 ==> oldest == 0
      ensures wc >= 0 ==> 0 <= wc <= c && 0 <= wi < |rows[wc]| && rows[wc][wi].reg == reg && rows[wc][wi].age == oldest > 0
      ensures forall i, j :: 0 <= i <= c && 0 <= j < |rows[i]| && rows[i][j].reg == reg ==> rows[i][j].age <= oldest
      ensures wc >= 0 ==> forall i, j :: 0 <= i < |rows| && 0 <= j < |rows[i]| && rows[i][j].reg == reg && Earlier(i, j, wc, wi) ==>
                rows[i][j].age < oldest
    {
      wc, wi, oldest := wc0, wi0, oldest0;
      for k := 0 to |rows[c]|
        invariant oldest >= oldest0 && (wc < 0 ==> oldest == 0)
        invariant (wc == wc0 && wi == wi0 && oldest == oldest0) || (wc == c && oldest > oldest0)
        invariant wc == c ==> 0 <= wi < k && rows[c][wi].reg == reg && rows[c][wi].age == oldest > 0
        invariant wc == c ==> forall j :: 0 <= j < wi && rows[c][j].reg == reg ==> rows[c][j].age < oldest
        invariant forall j :: 0 <= j < k && rows[c][j].reg == reg ==> rows[c][j].age <= oldest
      {
        var p := rows[c][k];
        if p.reg == reg && p.age > oldest {
          wc, wi, oldest := c, k, p.age;
        }
      }
    }

    /** `e0_pool_evict`: drop the oldest entry of the region that was not touched this step, if there is one. */
    method Evict(reg: nat) returns (wc: int, wi: int)
      requires Valid() && reg < 2
      modifies `rows, `regBytes, `evicts
      ensures Valid() && Keeps(old(rows), rows) && (Positive(old(rows)) ==> Positive(rows))
      ensures wc < 0 ==> NoStale(rows, reg) && rows == old(rows) && regBytes == old(regBytes) && evicts == old(evicts)
      ensures wc >= 0 ==> wi >= 0 && Oldest(old(rows), reg, wc, wi) && evicts == old(evicts) + 1
      ensures wc >= 0 ==> OldestOf(old(rows), reg) == Some((wc, wi))
      ensures wc >= 0 ==> rows == old(rows)[wc := Removed(old(rows)[wc], wi)]
      ensures wc >= 0 ==> regBytes[reg] + old(rows)[wc][wi].len == old(regBytes)[reg]
      ensures regBytes[1 - reg] == old(regBytes)[1 - reg]
    {
      wc, wi := FindOldest(reg);
      if wc >= 0 {
        Drop(reg, wc, wi);
      }
    }

    method Drop(reg: nat, c: nat, k: nat)
      requires Valid() && reg < 2 && c < |rows| && k < |rows[c]| && Stale(rows[c][k], reg)
      modifies `rows, `regBytes, `evicts
      ensures Valid() && Keeps(old(rows), rows) && (Positive(old(rows)) ==> Positive(rows))
      ensures rows == old(rows)[c := Removed(old(rows)[c], k)] && evicts == old(evicts) + 1
      ensures regBytes[reg] + old(rows)[c][k].len == old(regBytes)[reg] && regBytes[1 - reg] == old(regBytes)[1 - reg]
    {
      DropKeeps(rows, c, k, reg);
      DropBytes(rows, c, k);
      if Positive(rows) { DropPositive(rows, c, k); }
      regBytes := regBytes[reg := regBytes[reg] - rows[c][k].len];
      evicts := evicts + 1;
      rows := rows[c := Removed(rows[c], k)];
    }

    /** One turn of the eviction loop. */
    method EvictOnce(reg: nat, len: nat) returns (freed: bool, ghost ending: Ending)
      requires Valid() && reg < 2 && regBytes[reg] + len > cap[reg]
      modifies `rows, `regBytes, `evicts
      ensures Valid() && Keeps(old(rows), rows) && regBytes[1 - reg] == old(regBytes)[1 - reg]
      ensures freed ==> regBytes[reg] < old(regBytes)[reg]
      ensures freed ==> Made(old(rows), reg, cap[reg], len) == Made(rows, reg, cap[reg], len)
      ensures !freed ==> Made(old(rows), reg, cap[reg], len) == (rows, ending) && !ending.Room?
      ensures evicts == old(evicts) + if NoStale(old(rows), reg) then 0 else 1
      ensures NoStale(old(rows), reg) ==> rows == old(rows) && regBytes == old(regBytes)
    {
      var before := regBytes[reg];
      MadeNext(rows, reg, cap[reg], len);
      var wc, wi := Evict(reg);
      freed := regBytes[reg] != before;
      ending := if wc < 0 then NothingStale else FreedNothing;
    }

    /** The eviction loop before a pin: stops when the range fits, or when an eviction freed nothing. */
    method MakeRoom(reg: nat, len: nat) returns (ghost ending: Ending)
      requires Valid() && reg < 2
      modifies `rows, `regBytes, `evicts, `lockFail
      ensures Valid() && Keeps(old(rows), rows)
      ensures (rows, ending) == Made(old(rows), reg, cap[reg], len)
      ensures evicts > old(evicts) <==> Overflows(old(rows), reg, cap[reg], len)
      ensures evicts >= old(evicts) && regBytes[1 - reg] == old(regBytes)[1 - reg]
      ensures evicts == old(evicts) ==> rows == old(rows) && regBytes == old(regBytes)
      ensures lockFail == old(lockFail) + if ending.Room? then 0 else 1
      ensures ending.FreedNothing? <==> Blocked(old(rows), reg, Fit(cap[reg], len))
    {
      FreedNothingExactly(rows, reg, cap[reg], len);
      ending := Room;
      while regBytes[reg] + len > cap[reg]
        invariant Valid() && Keeps(old(rows), rows)
        invariant Made(rows, reg, cap[reg], len) == Made(old(rows), reg, cap[reg], len)
        invariant ending.Room? && lockFail == old(lockFail)
        invariant evicts >= old(evicts) && regBytes[1 - reg] == old(regBytes)[1 - reg]
        invariant evicts == old(evicts) ==> rows == old(rows) && regBytes == old(regBytes)
        invariant evicts > old(evicts) ==> Overflows(old(rows), reg, cap[reg], len)
        decreases regBytes[reg]
      {
        ghost var was := rows;
        var freed;
        freed, ending := EvictOnce(reg, len);
        KeepsBoth(old(rows), was, rows);
        if !freed {
          lockFail := lockFail + 1;
          break;
        }
        ending := Room;
      }
    }

    /** A range that fits goes to the end of its row. */
    method Push(c: nat, reg: nat, w: Range)
      requires Valid() && c < |rows| && reg < 2 && regBytes[reg] + w.len <= cap[reg]
      modifies `rows, `regBytes
      ensures Valid() && Keeps(old(rows), rows) && NothingLost(old(rows), rows)
      ensures rows == old(rows)[c := old(rows)[c] + [Pin(w.off, w.len, 0, reg)]] && Fresh(rows[c], reg, w.off)
      ensures Positive(old(rows)) && w.len > 0 ==> Positive(rows)
      ensures regBytes[reg] == old(regBytes)[reg] + w.len && regBytes[1 - reg] == old(regBytes)[1 - reg]
    {
      var p := Pin(w.off, w.len, 0, reg);
      PushKeeps(rows, c, p);
      PushLosesNothing(rows, c, p);
      rows := rows[c := rows[c] + [p]];
      regBytes := regBytes[reg := regBytes[reg] + w.len];
    }

    /** Pin a range that is not in the table yet, or refuse it. */
    method PinRange(c: nat, reg: nat, w: Range)
      requires Valid() && c < |rows| && reg < 2
      modifies `rows, `regBytes, `evicts, `lockFail
      ensures Valid() && Keeps(old(rows), rows) && rows == Pinned(old(rows), reg, cap[reg], c, w)
      ensures evicts > old(evicts) <==> Overflows(old(rows), reg, cap[reg], w.len)
      ensures Gentle(cap[reg], old(Now()), Now(), reg, w.len)
      ensures lockFail > old(lockFail) && !NoStale(rows, reg) <==> BlockedBeside(old(rows), reg, Fit(cap[reg], w.len))
    {
      RefusedBesideExactly(rows, reg, cap[reg], w.len);
      ghost var ending := MakeRoom(reg, w.len);
      if regBytes[reg] + w.len > cap[reg] {
        lockFail := lockFail + 1;
        return;
      }
      ghost var was := rows;
      Push(c, reg, w);
      KeepsBoth(old(rows), was, rows);
    }

    /** The first loop over a consumer's wanted ranges: touch those already in its row. */
    method MarkHits(c: nat, reg: nat, wants: seq<Range>) returns (hit: seq<bool>)
      requires Valid() && c < |rows| && reg < 2
      modifies `rows, `poolHit
      ensures Valid() && Keeps(old(rows), rows) && (Positive(old(rows)) ==> Positive(rows))
      ensures |hit| == |wants| && MarksSoFar(old(rows), rows, reg, c, wants, hit)
      ensures NothingLost(old(rows), rows) && rows == Marked(old(rows), reg, c, wants)
    {
      hit := [];
      assert wants[..0] == [];
      for i := 0 to |wants|
        invariant Valid() && Keeps(old(rows), rows) && (Positive(old(rows)) ==> Positive(rows)) && |hit| == i
        invariant MarksSoFar(old(rows), rows, reg, c, wants, hit) && NothingLost(old(rows), rows)
      {
        ghost var was := rows;
        var found := TouchFirst(c, reg, wants[i].off);
        KeepsBoth(old(rows), was, rows);
        LostBoth(old(rows), was, rows);
        MarksMore(old(rows), was, rows, reg, c, wants, hit, found);
        hit := hit + [found];
        poolHit := poolHit + if found && reg == 0 then 1 else 0;
      }
      assert wants[..|wants|] == wants;
    }

    method TouchFirst(c: nat, reg: nat, off: nat) returns (found: bool)
      requires Valid() && c < |rows|
      modifies `rows
      ensures Valid() && Keeps(old(rows), rows) && (Positive(old(rows)) ==> Positive(rows))
      ensures found ==> Fresh(rows[c], reg, off)
      ensures NothingLost(old(rows), rows)
      ensures rows == old(rows)[c := Touched(old(rows)[c], reg, off)] && (found <==> Held(old(rows)[c], reg, off))
      ensures !found ==> rows == old(rows) && forall k :: 0 <= k < |rows[c]| ==> !(rows[c][k].reg == reg && rows[c][k].off == off)
    {
      HeldAt(rows[c], reg, off);
      for k := 0 to |rows[c]|
        invariant rows == old(rows)
        invariant forall j :: 0 <= j < k ==> !(rows[c][j].reg == reg && rows[c][j].off == off)
      {
        if rows[c][k].reg == reg && rows[c][k].off == off {
          TouchKeeps(rows, c, k);
          TouchLosesNothing(rows, c, k);
          rows := rows[c := rows[c][k := rows[c][k].(age := 0)]];
          return true;
        }
      }
      found := false;
    }

    /** One consumer's turn in one region. */
    method Serve(c: nat, reg: nat, wants: seq<Range>)
      requires Valid() && c < |rows| && reg < 2
      modifies `rows, `regBytes, `evicts, `lockFail, `poolHit, `poolTot
      ensures Valid() && TurnDone(old(Now()), Now(), reg, cap[reg], c, wants)
    {
      ghost var first := Now();
      var hit := MarkHits(c, reg, wants);
      ghost var marked := Now();
      poolTot := poolTot + if reg == 0 then |wants| else 0;
      PinMissing(c, reg, wants, hit, old(rows)[c]);
      GentleBoth(cap[reg], first, marked, Now(), reg, 0, Lens(wants));
    }

    /** The second loop over a consumer's wanted ranges: pin those that were not in its row. */
    method PinMissing(c: nat, reg: nat, wants: seq<Range>, hit: seq<bool>, ghost row: seq<Pin>)
      requires Valid() && c < |rows| && reg < 2 && |hit| == |wants|
      requires forall i :: 0 <= i < |wants| ==> (hit[i] <==> Held(row, reg, wants[i].off))
      requires forall i :: 0 <= i < |wants| && hit[i] ==> Fresh(rows[c], reg, wants[i].off)
      modifies `rows, `regBytes, `evicts, `lockFail
      ensures Valid() && Keeps(old(rows), rows)
      ensures Positive(old(rows)) && AllPositive(wants) ==>
                Positive(rows) && AllSettled(rows, cap[reg], c, reg, wants, |wants|)
      ensures Gentle(cap[reg], old(Now()), Now(), reg, Lens(wants))
      ensures rows == Filled(old(rows), reg, cap[reg], c, wants, row, |wants|)
      ensures evicts > old(evicts) <==> FillEvicts(old(rows), reg, cap[reg], c, wants, row, |wants|)
    {
      for i := 0 to |wants|
        invariant Valid() && Keeps(old(rows), rows)
        invariant rows == Filled(old(rows), reg, cap[reg], c, wants, row, i)
        invariant evicts > old(evicts) <==> FillEvicts(old(rows), reg, cap[reg], c, wants, row, i)
        invariant Gentle(cap[reg], old(Now()), Now(), reg, Lens(wants[..i]))
        invariant Positive(old(rows)) && AllPositive(wants) ==>
                    Positive(rows) && AllSettled(rows, cap[reg], c, reg, wants, i)
      {
        ghost var was, now := rows, Now();
        assert wants[..i + 1][..i] == wants[..i];
        if !hit[i] {
          if Positive(rows) && wants[i].len > 0 {
            PinSettles(rows, reg, cap[reg], c, wants[i]);
          }
          PinRange(c, reg, wants[i]);
          KeepsBoth(old(rows), was, rows);
          SettledStays(was, rows, cap[reg], c, reg, wants, i);
        }
        GentleBoth(cap[reg], old(Now()), now, Now(), reg, Lens(wants[..i]), wants[i].len);
      }
      assert wants[..|wants|] == wants;
    }

    /** All consumers in order, in one region. */
    method IssueRegion(reg: nat, want: seq<seq<Range>>)
      requires Valid() && reg < 2 && |want| == |rows|
      modifies `rows, `regBytes, `evicts, `lockFail, `poolHit, `poolTot
      ensures Valid() && IssueSoFar(old(Now()), Now(), reg, cap[reg], want, |want|)
      ensures Gentle(cap[reg], old(Now()), Now(), reg, DemandBytes(want))
    {
      assert want[..0] == [];
      for c := 0 to |want|
        invariant Valid() && IssueSoFar(old(Now()), Now(), reg, cap[reg], want, c)
      {
        ghost var was := Now();
        Serve(c, reg, want[c]);
        IssueMore(old(Now()), was, Now(), reg, cap[reg], want, c);
      }
      assert want[..|want|] == want;
    }
  }

  // ---- a whole step --------------------------------------------------------------------------------

  /** One step's demand: the hot ranges, the observed ones, and whether memory is reported low afterwards. */
  datatype Demand = Demand(hot: seq<seq<Range>>, observed: seq<seq<Range>>, low: bool)

  /** The region is too large for low memory, and an entry not touched this step is there. */
  ghost predicate ShrinkEvicts(rows: Rows, reg: nat, cap: nat) {
    !Small(Bytes(rows, reg), reg, cap) && !NoStale(rows, reg)
  }

  /** The shrinking loop for low memory: hot down to three quarters of its cap, observed to nothing. */
  method Shrink(t: Table, reg: nat) returns (ghost ending: Ending)
    requires t.Valid() && reg < 2
    modifies t`rows, t`regBytes, t`evicts
    ensures t.Valid() && Keeps(old(t.rows), t.rows)
    ensures (t.rows, ending) == Shrunk(old(t.rows), reg, t.cap[reg])
    ensures t.evicts > old(t.evicts) <==> ShrinkEvicts(old(t.rows), reg, t.cap[reg])
    ensures t.evicts >= old(t.evicts)
    ensures ending.FreedNothing? <==> Blocked(old(t.rows), reg, Low(reg, t.cap[reg]))
    ensures !ending.Room? && !NoStale(t.rows, reg) <==> BlockedBeside(old(t.rows), reg, Low(reg, t.cap[reg]))
  {
    ending := Room;
    while t.regBytes[reg] != 0 && (reg != 0 || t.regBytes[reg] * 4 > t.cap[reg] * 3)
      invariant t.Valid() && Keeps(old(t.rows), t.rows) && ending.Room?
      invariant Shrunk(t.rows, reg, t.cap[reg]) == Shrunk(old(t.rows), reg, t.cap[reg])
      invariant t.evicts > old(t.evicts) ==> ShrinkEvicts(old(t.rows), reg, t.cap[reg])
      invariant t.evicts >= old(t.evicts) && (t.evicts == old(t.evicts) ==> t.rows == old(t.rows))
      decreases t.regBytes[reg]
    {
      var before := t.regBytes[reg];
      ghost var was := t.rows;
      ShrunkNext(was, reg, t.cap[reg]);
      var wc, wi := t.Evict(reg);
      KeepsBoth(old(t.rows), was, t.rows);
      if t.regBytes[reg] == before {
        ending := if wc < 0 then NothingStale else FreedNothing;
        break;
      }
    }
    ShrunkNothingExactly(old(t.rows), reg, t.cap[reg]);
    LeftTooLargeExactly(old(t.rows), reg, t.cap[reg]);
  }

  /** The table after the demand was walked. */
  ghost function Walked(rows: Rows, cap: seq<nat>, d: Demand, twoRegions: bool): (r: Rows)
    requires |cap| == 2 && |d.hot| == |d.observed| == |rows|
    ensures |r| == |rows|
  {
    var hot := Issued(Aged(rows), 0, cap[0], d.hot, |d.hot|);
    if twoRegions then Issued(hot, 1, cap[1], d.observed, |d.observed|) else hot
  }

  ghost function ShrunkAll(rows: Rows, cap: seq<nat>, twoRegions: bool): (r: Rows)
    requires |cap| == 2
    ensures |r| == |rows|
  {
    var hot := Shrunk(rows, 0, cap[0]).0;
    if twoRegions then Shrunk(hot, 1, cap[1]).0 else hot
  }

  /** The table after a step. */
  ghost function Stepped(rows: Rows, cap: seq<nat>, d: Demand, twoRegions: bool): (r: Rows)
    requires |cap| == 2 && |d.hot| == |d.observed| == |rows|
    ensures |r| == |rows|
  {
    var walked := Walked(rows, cap, d, twoRegions);
    if d.low then ShrunkAll(walked, cap, twoRegions) else walked
  }

  ghost predicate WalkEvicts(rows: Rows, cap: seq<nat>, d: Demand, twoRegions: bool)
    requires |cap| == 2 && |d.hot| == |d.observed| == |rows|
  {
    || IssueEvicts(Aged(rows), 0, cap[0], d.hot, |d.hot|)
    || (twoRegions && IssueEvicts(Issued(Aged(rows), 0, cap[0], d.hot, |d.hot|), 1, cap[1], d.observed, |d.observed|))
  }

  ghost predicate ShrinkAllEvicts(rows: Rows, cap: seq<nat>, twoRegions: bool)
    requires |cap| == 2
  {
    ShrinkEvicts(rows, 0, cap[0]) || (twoRegions && ShrinkEvicts(Shrunk(rows, 0, cap[0]).0, 1, cap[1]))
  }

  /** The walk evicts, or the shrink after it does. */
  ghost predicate StepEvicts(rows: Rows, cap: seq<nat>, d: Demand, twoRegions: bool)
    requires |cap| == 2 && |d.hot| == |d.observed| == |rows|
  {
    || WalkEvicts(rows, cap, d, twoRegions)
    || (d.low && ShrinkAllEvicts(Walked(rows, cap, d, twoRegions), cap, twoRegions))
  }

  /** A hot demand that is in the table evicts nothing from the hot region, even with the cap reached. */
  lemma SteadyHot(rows: Rows, cap: nat, hot: seq<seq<Range>>)
    requires |hot| == |rows| && Steady(rows, 0, hot)
    ensures !IssueEvicts(Aged(rows), 0, cap, hot, |hot|)
  {
    forall c, i | 0 <= c < |hot| && 0 <= i < |hot[c]| ensures Held(Aged(rows)[c], 0, hot[c][i].off) {
      AgesLoseNothing(rows[c], AgedRow(rows[c]), 0, hot[c][i].off);
    }
    SteadyStep(Aged(rows), 0, cap, hot, |hot|);
  }

  /** A held hot range is lost before its consumer's turn exactly when, on the walk up to there, it is squeezed out. */
  lemma HotLostExactly(rows: Rows, cap: nat, hot: seq<seq<Range>>, c: nat, off: nat)
    requires c < |hot| == |rows| && Held(rows[c], 0, off)
    ensures !Held(Issued(Aged(rows), 0, cap, hot, c)[c], 0, off) <==> IssueLoses(Aged(rows), 0, cap, hot, c, c, off)
  {
    AgesLoseNothing(rows[c], AgedRow(rows[c]), 0, off);
    LostExactly(Aged(rows), 0, cap, hot, c, off);
  }

  /** A step whose demand names no range twice in one turn keeps every row free of repeated ranges. */
  lemma StepSingle(rows: Rows, cap: seq<nat>, d: Demand, twoRegions: bool, r: nat)
    requires |cap| == 2 && |d.hot| == |d.observed| == |rows| && AllSingle(rows, r)
    requires forall i :: 0 <= i < |rows| ==> Distinct(d.hot[i]) && Distinct(d.observed[i])
    ensures AllSingle(Stepped(rows, cap, d, twoRegions), r)
  {
    var hot := Issued(Aged(rows), 0, cap[0], d.hot, |d.hot|);
    AgedSingle(rows, r);
    IssuedSingle(Aged(rows), 0, cap[0], d.hot, |d.hot|, r);
    IssuedSingle(hot, 1, cap[1], d.observed, |d.observed|, r);
    var walked := Walked(rows, cap, d, twoRegions);
    ShrunkSingle(walked, 0, cap[0], r);
    ShrunkSingle(Shrunk(walked, 0, cap[0]).0, 1, cap[1], r);
  }

  lemma ShrunkSingle(rows: Rows, reg: nat, cap: nat, r: nat)
    requires AllSingle(rows, r)
    ensures AllSingle(Shrunk(rows, reg, cap).0, r)
  {
    ShrunkSheds(rows, reg, cap, r);
    forall i | 0 <= i < |rows| ensures Single(Shrunk(rows, reg, cap).0[i], r) {
      assert Single(rows[i], r) && Sheds(rows[i], Shrunk(rows, reg, cap).0[i], r);
    }
  }

  /** Every entry of the table grows one step older. */
  method AgeAll(t: Table)
    requires t.Valid()
    modifies t`rows
    ensures t.Valid() && t.rows == Aged(old(t.rows)) && NothingLost(old(t.rows), t.rows)
  {
    AgedBytes(t.rows, 0);
    AgedBytes(t.rows, 1);
    AgingLosesNothing(t.rows);
    t.rows := Aged(t.rows);
  }

  /** What a step settles when no range has zero length: every wanted range of the regions in use. */
  ghost predicate StepSettled(before: Rows, after: Rows, cap: seq<nat>, d: Demand, twoRegions: bool) {
    && |cap| == 2 && |d.hot| == |d.observed| == |before| == |after|
    && (Positive(before) && Wanted(d.hot) && (twoRegions ==> Wanted(d.observed)) ==>
          && Positive(after) && RegionSettled(after, cap[0], 0, d.hot)
          && (twoRegions ==> RegionSettled(after, cap[1], 1, d.observed)))
  }

  /** The demand fits beside what is there, each range counted. */
  predicate DemandFits(bytes: seq<nat>, cap: seq<nat>, d: Demand, twoRegions: bool) {
    && |bytes| == |cap| == 2
    && bytes[0] + DemandBytes(d.hot) <= cap[0]
    && (twoRegions ==> bytes[1] + DemandBytes(d.observed) <= cap[1])
  }

  lemma AgedPositive(rows: Rows)
    ensures Positive(rows) ==> Positive(Aged(rows))
  {
    if Positive(rows) {
      forall c, k | 0 <= c < |rows| && 0 <= k < |rows[c]| ensures Aged(rows)[c][k].len > 0 {
        assert rows[c][k].len > 0;
      }
    }
  }

  /** Age every entry, then serve the hot demand and, in the two-region mode, the observed one. */
  method Walk(t: Table, d: Demand, twoRegions: bool)
    requires t.Valid() && |d.hot| == |d.observed| == |t.rows|
    modifies t`rows, t`regBytes, t`evicts, t`lockFail, t`poolHit, t`poolTot
    ensures t.Valid() && t.rows == Walked(old(t.rows), t.cap, d, twoRegions) && t.evicts >= old(t.evicts)
    ensures StepSettled(old(t.rows), t.rows, t.cap, d, twoRegions)
    ensures t.evicts > old(t.evicts) <==> WalkEvicts(old(t.rows), t.cap, d, twoRegions)
    ensures DemandFits(old(t.regBytes), t.cap, d, twoRegions) ==>
              t.evicts == old(t.evicts) && NothingLost(old(t.rows), t.rows)
  {
    AgedPositive(t.rows);
    AgeAll(t);
    t.IssueRegion(0, d.hot);
    ghost var was := t.rows;
    if twoRegions {
      t.IssueRegion(1, d.observed);
      RegionStays(was, t.rows, t.cap[0], 0, d.hot);
    }
  }

  /**
   `e0_issue_pool`: afterwards every wanted range is in the table and touched, or its region holds nothing but
   touched entries and has no room for it; both accounts are exact and within their caps. The table is what
   walking the demand, and shrinking when memory is low, makes of it; something is evicted exactly when some
   missing range overflows on that walk, or a region left too large for low memory still has a stale entry.
   */
  method IssuePool(t: Table, d: Demand, twoRegions: bool)
    requires t.Valid() && |d.hot| == |d.observed| == |t.rows|
    modifies t
    ensures t.Valid() && t.rows == Stepped(old(t.rows), t.cap, d, twoRegions)
    ensures StepSettled(old(t.rows), t.rows, t.cap, d, twoRegions)
    ensures t.evicts >= old(t.evicts)
    ensures t.evicts > old(t.evicts) <==> StepEvicts(old(t.rows), t.cap, d, twoRegions)
    ensures !d.low && DemandFits(old(t.regBytes), t.cap, d, twoRegions) ==>
              t.evicts == old(t.evicts) && NothingLost(old(t.rows), t.rows)
  {
    Walk(t, d, twoRegions);
    if d.low {
      ShrinkAll(t, d, twoRegions);
    }
  }

  /** Memory reported low: shrink every region in use; nothing settled is lost. */
  method ShrinkAll(t: Table, ghost d: Demand, twoRegions: bool)
    requires t.Valid() && |d.hot| == |d.observed| == |t.rows|
    modifies t
    ensures t.Valid() && |t.rows| == |old(t.rows)| && (Positive(old(t.rows)) ==> Positive(t.rows))
    ensures t.rows == ShrunkAll(old(t.rows), t.cap, twoRegions) && t.evicts >= old(t.evicts)
    ensures t.evicts > old(t.evicts) <==> ShrinkAllEvicts(old(t.rows), t.cap, twoRegions)
    ensures RegionSettled(old(t.rows), t.cap[0], 0, d.hot) ==> RegionSettled(t.rows, t.cap[0], 0, d.hot)
    ensures RegionSettled(old(t.rows), t.cap[1], 1, d.observed) ==> RegionSettled(t.rows, t.cap[1], 1, d.observed)
  {
    t.shrinks := t.shrinks + 1;
    ghost var was := t.rows;
    if Positive(t.rows) { PositiveShrinks(t.rows, 0, t.cap[0]); }
    ghost var ending := Shrink(t, 0);
    if twoRegions {
      ghost var middle := t.rows;
      if Positive(t.rows) { PositiveShrinks(t.rows, 1, t.cap[1]); }
      ending := Shrink(t, 1);
      KeepsBoth(was, middle, t.rows);
    }
    RegionStays(was, t.rows, t.cap[0], 0, d.hot);
    RegionStays(was, t.rows, t.cap[1], 1, d.observed);
  }

  // ---- where the guarantees stop -------------------------------------------------------------------

  lemma BytesOf(p: Pin, q: Pin, reg: nat)
    ensures RowBytes([], reg) == 0 && RowBytes([p], reg) == (if p.reg == reg then p.len else 0)
    ensures RowBytes([p, q], reg) == RowBytes([p], reg) + if q.reg == reg then q.len else 0
  {
    assert [p][..0] == [] && [p, q][..1] == [p];
  }

  lemma BytesOfRows(a: seq<Pin>, b: seq<Pin>, reg: nat)
    ensures Bytes([a], reg) == RowBytes(a, reg) && Bytes([a, b], reg) == RowBytes(a, reg) + RowBytes(b, reg)
  {
    assert [a][..0] == [] && [a, b][..1] == [a];
  }

  /** A range that fits is pinned at once. */
  lemma PinsAtOnce(rows: Rows, reg: nat, cap: nat, c: nat, w: Range)
    requires c < |rows| && Bytes(rows, reg) + w.len <= cap
    ensures Pinned(rows, reg, cap, c, w) == rows[c := rows[c] + [Pin(w.off, w.len, 0, reg)]]
  {
  }

  /** A consumer that wants one range its row does not hold. */
  lemma ServesOne(rows: Rows, reg: nat, cap: nat, c: nat, w: Range)
    requires c < |rows| && FirstAt(rows[c], reg, w.off, 0).None?
    ensures Served(rows, reg, cap, c, [w]) == Pinned(rows, reg, cap, c, w)
  {
    assert [w][..0] == [];
    assert MarkedRow(rows[c], reg, [w]) == rows[c];
    assert Marked(rows, reg, c, [w]) == rows;
    HeldAt(rows[c], reg, w.off);
    assert Filled(rows, reg, cap, c, [w], rows[c], 0) == rows;
  }

  lemma ServesNone(rows: Rows, reg: nat, cap: nat, c: nat)
    requires c < |rows|
    ensures Served(rows, reg, cap, c, []) == rows
  {
    assert Marked(rows, reg, c, []) == rows;
  }

  // Two consumers, a cap of 10 bytes: the second pins a range, and wants it again when the first wants another.

  const WANTED_AGAIN := Range(100, 10)
  const WANTED_FIRST := Range(0, 10)
  const QUIET := Demand([[], [WANTED_AGAIN]], [[], []], false)
  const BUSY := Demand([[WANTED_FIRST], [WANTED_AGAIN]], [[], []], false)
  const ONE_HELD: Rows := [[], [Pin(100, 10, 0, 0)]]

  lemma QuietStep()
    ensures Stepped([[], []], [10, 0], QUIET, false) == ONE_HELD
  {
    var rows: Rows := [[], []];
    assert Aged(rows) == rows;
    BytesOf(Pin(100, 10, 0, 0), Pin(100, 10, 0, 0), 0);
    BytesOfRows([], [], 0);
    ServesNone(rows, 0, 10, 0);
    assert Issued(rows, 0, 10, QUIET.hot, 1) == rows by {
      assert Issued(rows, 0, 10, QUIET.hot, 0) == rows;
    }
    ServesOne(rows, 0, 10, 1, WANTED_AGAIN);
    PinsAtOnce(rows, 0, 10, 1, WANTED_AGAIN);
    assert rows[1 := rows[1] + [Pin(100, 10, 0, 0)]] == ONE_HELD;
  }

  /** An entry that is the oldest of its region and frees enough. */
  lemma FreesEnough(rows: Rows, reg: nat, cap: nat, len: nat, c: nat, k: nat)
    requires Oldest(rows, reg, c, k) && rows[c][k].len > 0 && Bytes(rows, reg) + len > cap
    requires Bytes(rows[c := Removed(rows[c], k)], reg) + len <= cap
    ensures Made(rows, reg, cap, len) == (rows[c := Removed(rows[c], k)], Room)
  {
    OneOldest(rows, reg, c, k);
    assert Stale(rows[c][k], reg);
  }

  lemma BusyFirst()
    ensures Aged(ONE_HELD) == [[], [Pin(100, 10, 1, 0)]]
    ensures Served(Aged(ONE_HELD), 0, 10, 0, [WANTED_FIRST]) == [[Pin(0, 10, 0, 0)], []]
  {
    var old1 := Pin(100, 10, 1, 0);
    assert AgedRow([]) == [] && AgedRow([Pin(100, 10, 0, 0)]) == [old1];
    var rows := Aged(ONE_HELD);
    assert rows == [[], [old1]];
    assert Removed([old1], 0) == [] && rows[1 := []] == [[], []];
    BytesOf(old1, old1, 0);
    BytesOfRows([], [old1], 0);
    BytesOfRows([], [], 0);
    assert Oldest(rows, 0, 1, 0) by {
      assert Stale(rows[1][0], 0);
    }
    FreesEnough(rows, 0, 10, 10, 1, 0);
    ServesOne(rows, 0, 10, 0, WANTED_FIRST);
    var room: Rows := [[], []];
    assert [] + [Pin(0, 10, 0, 0)] == [Pin(0, 10, 0, 0)];
    assert room[0 := [Pin(0, 10, 0, 0)]] == [[Pin(0, 10, 0, 0)], []];
  }

  lemma Refuses(rows: Rows, reg: nat, cap: nat, c: nat, w: Range)
    requires c < |rows| && Bytes(rows, reg) + w.len > cap && NoStale(rows, reg)
    ensures Pinned(rows, reg, cap, c, w) == rows
  {
  }

  lemma BusySecond()
    ensures Served([[Pin(0, 10, 0, 0)], []], 0, 10, 1, [WANTED_AGAIN]) == [[Pin(0, 10, 0, 0)], []]
  {
    var rows: Rows, p := [[Pin(0, 10, 0, 0)], []], Pin(0, 10, 0, 0);
    BytesOf(p, p, 0);
    BytesOfRows([p], [], 0);
    assert NoStale(rows, 0) by {
      assert rows[0] == [p] && rows[1] == [];
    }
    ServesOne(rows, 0, 10, 1, WANTED_AGAIN);
    Refuses(rows, 0, 10, 1, WANTED_AGAIN);
  }

  lemma IssuedTwo(rows: Rows, reg: nat, cap: nat, want: seq<seq<Range>>)
    requires |rows| == |want| == 2
    ensures Issued(rows, reg, cap, want, 1) == Served(rows, reg, cap, 0, want[0])
    ensures Issued(rows, reg, cap, want, 2) == Served(Served(rows, reg, cap, 0, want[0]), reg, cap, 1, want[1])
  {
    assert Issued(rows, reg, cap, want, 0) == rows;
    assert Issued(rows, reg, cap, want, 1) == Served(rows, reg, cap, 0, want[0]);
  }

  lemma OneEvicts(rows: Rows, reg: nat, cap: nat, c: nat, w: Range)
    requires c < |rows| && FirstAt(rows[c], reg, w.off, 0).None? && Overflows(rows, reg, cap, w.len)
    ensures ServeEvicts(rows, reg, cap, c, [w])
  {
    assert [w][..0] == [];
    assert MarkedRow(rows[c], reg, [w]) == rows[c];
    assert Marked(rows, reg, c, [w]) == rows;
    HeldAt(rows[c], reg, w.off);
    assert Filled(rows, reg, cap, c, [w], rows[c], 0) == rows;
  }

  lemma BusyEvicts()
    ensures StepEvicts(ONE_HELD, [10, 0], BUSY, false)
  {
    BusyFirst();
    var rows, p := Aged(ONE_HELD), Pin(100, 10, 1, 0);
    BytesOf(p, p, 0);
    BytesOfRows([], [p], 0);
    assert Stale(rows[1][0], 0);
    OneEvicts(rows, 0, 10, 0, WANTED_FIRST);
    assert Issued(rows, 0, 10, BUSY.hot, 0) == rows;
    assert IssueEvicts(rows, 0, 10, BUSY.hot, 1);
  }

  /** The second consumer's range is in the table and wanted, and gone when its turn comes. */
  lemma BusyLoses()
    ensures Held(ONE_HELD[1], 0, 100) && WANTED_AGAIN in BUSY.hot[1]
    ensures !Held(Issued(Aged(ONE_HELD), 0, 10, BUSY.hot, 1)[1], 0, 100)
  {
    assert ONE_HELD[1][0] in ONE_HELD[1];
    BusyFirst();
    IssuedTwo(Aged(ONE_HELD), 0, 10, BUSY.hot);
  }

  lemma BusyStep()
    ensures Stepped(ONE_HELD, [10, 0], BUSY, false) == [[Pin(0, 10, 0, 0)], []]
  {
    BusyFirst();
    BusySecond();
    IssuedTwo(Aged(ONE_HELD), 0, 10, BUSY.hot);
  }

  method HoldOne() returns (t: Table)
    ensures fresh(t) && t.Valid() && t.cap == [10, 0] && t.rows == ONE_HELD
  {
    t := new Table(2, 10, 0);
    assert t.rows == [[], []];
    QuietStep();
    IssuePool(t, QUIET, false);
  }

  /**
   Every entry ages before any consumer's turn comes: making room for the first consumer evicts the very range
   the second one has in the table and wants again in the same step (`BusyLoses`), and is then refused.
   */
  method EvictedBeforeItsTurn() returns (t: Table, ghost before: nat)
    ensures t.Valid() && t.cap == [10, 0] && t.evicts > before
    ensures Held(ONE_HELD[1], 0, 100) && WANTED_AGAIN in BUSY.hot[1]
    ensures t.rows == Stepped(ONE_HELD, [10, 0], BUSY, false) == [[Pin(0, 10, 0, 0)], []]
  {
    t := HoldOne();
    before := t.evicts;
    BusyStep();
    BusyEvicts();
    BusyLoses();
    IssuePool(t, BUSY, false);
  }

  // One consumer, a cap of 10 bytes: first it wants a range of no length, then two others in turn.

  function Step(w: Range): Demand {
    Demand([[w]], [[]], false)
  }

  lemma IssuedOne(rows: Rows, cap: seq<nat>, w: Range)
    requires |rows| == 1 && |cap| == 2
    ensures Stepped(rows, cap, Step(w), false) == Served(Aged(rows), 0, cap[0], 0, [w])
  {
    assert Issued(Aged(rows), 0, cap[0], [[w]], 0) == Aged(rows);
  }

  const NO_LENGTH := Pin(0, 0, 1, 0)
  const WITH_LENGTH := Pin(100, 10, 0, 0)

  lemma EmptyPinned()
    ensures Stepped([[]], [10, 0], Step(Range(0, 0)), false) == [[Pin(0, 0, 0, 0)]]
  {
    var rows: Rows := [[]];
    assert Aged(rows) == rows;
    BytesOf(NO_LENGTH, NO_LENGTH, 0);
    BytesOfRows([], [], 0);
    IssuedOne(rows, [10, 0], Range(0, 0));
    ServesOne(rows, 0, 10, 0, Range(0, 0));
    PinsAtOnce(rows, 0, 10, 0, Range(0, 0));
  }

  lemma LengthPinned()
    ensures Stepped([[Pin(0, 0, 0, 0)]], [10, 0], Step(Range(100, 10)), false) == [[NO_LENGTH, WITH_LENGTH]]
  {
    var rows: Rows := [[NO_LENGTH]];
    assert AgedRow([Pin(0, 0, 0, 0)]) == [NO_LENGTH];
    assert Aged([[Pin(0, 0, 0, 0)]]) == rows;
    BytesOf(NO_LENGTH, NO_LENGTH, 0);
    BytesOfRows([NO_LENGTH], [], 0);
    IssuedOne([[Pin(0, 0, 0, 0)]], [10, 0], Range(100, 10));
    ServesOne(rows, 0, 10, 0, Range(100, 10));
    PinsAtOnce(rows, 0, 10, 0, Range(100, 10));
    assert [NO_LENGTH] + [WITH_LENGTH] == [NO_LENGTH, WITH_LENGTH];
    assert rows[0 := [NO_LENGTH, WITH_LENGTH]] == [[NO_LENGTH, WITH_LENGTH]];
  }

  const OLDER: Rows := [[Pin(0, 0, 2, 0), Pin(100, 10, 1, 0)]]

  lemma NothingMade()
    ensures Made(OLDER, 0, 10, 10) == ([[Pin(100, 10, 1, 0)]], FreedNothing)
  {
    var p, q := Pin(0, 0, 2, 0), Pin(100, 10, 1, 0);
    BytesOf(p, q, 0);
    BytesOfRows([p, q], [], 0);
    assert OLDER[0][0] == p && OLDER[0][1] == q;
    assert Oldest(OLDER, 0, 0, 0);
    OneOldest(OLDER, 0, 0, 0);
    assert Removed([p, q], 0) == [q] && OLDER[0 := [q]] == [[q]];
  }

  lemma LengthRefused()
    ensures Stepped([[NO_LENGTH, WITH_LENGTH]], [10, 0], Step(Range(200, 10)), false) == [[Pin(100, 10, 1, 0)]]
  {
    assert AgedRow([NO_LENGTH, WITH_LENGTH]) == OLDER[0];
    assert Aged([[NO_LENGTH, WITH_LENGTH]]) == OLDER;
    IssuedOne([[NO_LENGTH, WITH_LENGTH]], [10, 0], Range(200, 10));
    ServesOne(OLDER, 0, 10, 0, Range(200, 10));
    NothingMade();
  }

  /** The oldest entry has no length: evicting it frees nothing, so a range is refused beside a stale entry. */
  method NothingFreed() returns (t: Table)
    ensures t.Valid() && t.cap == [10, 0] && t.rows == [[Pin(100, 10, 1, 0)]]
    ensures !NoStale(t.rows, 0) && !Held(t.rows[0], 0, 200)
  {
    t := new Table(1, 10, 0);
    assert t.rows == [[]];
    EmptyPinned();
    IssuePool(t, Step(Range(0, 0)), false);
    LengthPinned();
    IssuePool(t, Step(Range(100, 10)), false);
    LengthRefused();
    IssuePool(t, Step(Range(200, 10)), false);
    StillStale();
  }

  lemma StillStale()
    ensures !NoStale([[Pin(100, 10, 1, 0)]], 0) && !Held([Pin(100, 10, 1, 0)], 0, 200)
  {
    var rows: Rows := [[Pin(100, 10, 1, 0)]];
    assert Stale(rows[0][0], 0);
  }
}
