/**
 When a range in the pin table is lost before its consumer's turn, computed from table and demand at the start
 of the step: for demands without repeated ranges, what guards the range and all the bytes the consumers before
 it want and do not hold in younger entries do not fit together.
 */
module PinForm {
  import opened Common
  import opened PinRows
  import opened PinWalk
  import opened PinLoss
  import opened PinSingle

  // ---- new bytes --------------------------------------------------------------------------------

  /** The row holds the range in an entry younger than `age`. */
  ghost predicate HeldYounger(row: seq<Pin>, reg: nat, off: nat, age: nat) {
    exists p {:trigger p in row} :: p in row && p.reg == reg && p.off == off && p.age < age
  }

  /** Bytes of the first `n` wanted ranges that the row does not hold at all. */
  ghost function Missing(row: seq<Pin>, reg: nat, wants: seq<Range>, n: nat): nat
    requires n <= |wants|
  {
    if n == 0 then 0
    else Missing(row, reg, wants, n - 1) + if Held(row, reg, wants[n - 1].off) then 0 else wants[n - 1].len
  }

  /** Bytes of the first `n` wanted ranges that the row holds, but in no entry younger than `age`. */
  ghost function Older(row: seq<Pin>, reg: nat, age: nat, wants: seq<Range>, n: nat): nat
    requires n <= |wants|
  {
    if n == 0 then 0
    else
      var off := wants[n - 1].off;
      Older(row, reg, age, wants, n - 1)
      + if Held(row, reg, off) && !HeldYounger(row, reg, off, age) then wants[n - 1].len else 0
  }

  /** Bytes of the first `n` wanted ranges that the row does not hold in an entry younger than `age`. */
  ghost function NewBytes(row: seq<Pin>, reg: nat, age: nat, wants: seq<Range>, n: nat): nat
    requires n <= |wants|
  {
    if n == 0 then 0
    else
      NewBytes(row, reg, age, wants, n - 1) + if HeldYounger(row, reg, wants[n - 1].off, age) then 0 else wants[n - 1].len
  }

  /** The same over the first `n` consumers. */
  ghost function NewBytesOf(rows: Rows, reg: nat, age: nat, want: seq<seq<Range>>, n: nat): nat
    requires n <= |want| == |rows|
  {
    if n == 0 then 0
    else NewBytesOf(rows, reg, age, want, n - 1) + NewBytes(rows[n - 1], reg, age, want[n - 1], |want[n - 1]|)
  }

  lemma {:induction false} NewIsBoth(row: seq<Pin>, reg: nat, age: nat, wants: seq<Range>, n: nat)
    requires n <= |wants|
    ensures NewBytes(row, reg, age, wants, n) == Older(row, reg, age, wants, n) + Missing(row, reg, wants, n)
  {
    if n > 0 {
      NewIsBoth(row, reg, age, wants, n - 1);
      if p :| p in row && p.reg == reg && p.off == wants[n - 1].off && p.age < age {
        assert Held(row, reg, wants[n - 1].off);
      }
    }
  }

  // ---- no repeated ranges -----------------------------------------------------------------------------

  /** A wanted range has the length it is held with. */
  predicate SameLengths(row: seq<Pin>, reg: nat, wants: seq<Range>) {
    forall k, i :: 0 <= k < |row| && 0 <= i < |wants| && Matches(row[k], reg, wants[i].off) ==> row[k].len == wants[i].len
  }

  // ---- touching ----------------------------------------------------------------------------------------

  /** Making an old entry young adds it to what stays. */
  lemma {:induction false} StaysYoung(row: seq<Pin>, reg: nat, age: nat, k: nat)
    requires k < |row| && row[k].reg == reg && age > 0
    ensures Stays(row[k := row[k].(age := 0)], reg, age, true) ==
            Stays(row, reg, age, true) + if row[k].age >= age then row[k].len else 0
  {
    var n := |row| - 1;
    var young := row[k := row[k].(age := 0)];
    if k == n {
      assert young[..n] == row[..n];
    } else {
      assert young[..n] == row[..n][k := row[k].(age := 0)];
      StaysYoung(row[..n], reg, age, k);
    }
  }

  /** Only wanted entries were touched. */
  ghost predicate TouchedOnly(row: seq<Pin>, marked: seq<Pin>, reg: nat, wants: seq<Range>, n: nat) {
    && n <= |wants| && |marked| == |row|
    && forall k :: 0 <= k < |row| ==>
         marked[k] == row[k] ||
         (marked[k] == row[k].(age := 0) && exists i :: 0 <= i < n && Matches(row[k], reg, wants[i].off))
  }

  lemma TouchNext(row: seq<Pin>, marked: seq<Pin>, reg: nat, wants: seq<Range>, n: nat)
    requires n < |wants| && TouchedOnly(row, marked, reg, wants, n)
    ensures TouchedOnly(row, Touched(marked, reg, wants[n].off), reg, wants, n + 1)
  {
    var after := Touched(marked, reg, wants[n].off);
    forall k | 0 <= k < |row| && after[k] != row[k]
      ensures after[k] == row[k].(age := 0) && exists i :: 0 <= i < n + 1 && Matches(row[k], reg, wants[i].off)
    {
      if marked[k] == row[k] {
        assert Matches(row[k], reg, wants[n].off);
      } else {
        var i :| 0 <= i < n && Matches(row[k], reg, wants[i].off);
      }
    }
  }

  lemma HeldPlace(row: seq<Pin>, reg: nat, off: nat, k: nat, age: nat)
    requires Single(row, reg) && k < |row| && Matches(row[k], reg, off)
    ensures Held(row, reg, off) && (HeldYounger(row, reg, off, age) <==> row[k].age < age)
  {
    assert row[k] in row;
    if p :| p in row && p.reg == reg && p.off == off && p.age < age {
      var j :| 0 <= j < |row| && row[j] == p;
      assert j == k;
    }
  }

  /** One more look-up: the entry, if any, is as it was, and becomes young. */
  lemma TouchGain(row: seq<Pin>, marked: seq<Pin>, reg: nat, age: nat, wants: seq<Range>, n: nat)
    requires n < |wants| && TouchedOnly(row, marked, reg, wants, n) && age > 0
    requires Single(row, reg) && Distinct(wants) && SameLengths(row, reg, wants)
    ensures var off := wants[n].off;
            Stays(Touched(marked, reg, off), reg, age, true) ==
            Stays(marked, reg, age, true) + if Held(row, reg, off) && !HeldYounger(row, reg, off, age) then wants[n].len else 0
  {
    var off := wants[n].off;
    SameHeld(row, marked, reg, off);
    HeldAt(marked, reg, off);
    match FirstAt(marked, reg, off, 0)
    case None =>
    case Some(k) =>
      assert marked[k] == row[k];
      HeldPlace(row, reg, off, k, age);
      StaysYoung(marked, reg, age, k);
  }

  lemma {:induction false} MarkedGain(row: seq<Pin>, reg: nat, age: nat, wants: seq<Range>, n: nat)
    requires n <= |wants| && Single(row, reg) && Distinct(wants) && SameLengths(row, reg, wants) && age > 0
    ensures TouchedOnly(row, MarkedRow(row, reg, wants[..n]), reg, wants, n)
    ensures Stays(MarkedRow(row, reg, wants[..n]), reg, age, true) ==
            Stays(row, reg, age, true) + Older(row, reg, age, wants, n)
  {
    if n == 0 {
      assert wants[..0] == [];
    } else {
      MarkedGain(row, reg, age, wants, n - 1);
      assert wants[..n][..n - 1] == wants[..n - 1] && wants[..n][n - 1] == wants[n - 1];
      TouchNext(row, MarkedRow(row, reg, wants[..n - 1]), reg, wants, n - 1);
      TouchGain(row, MarkedRow(row, reg, wants[..n - 1]), reg, age, wants, n - 1);
    }
  }

  // ---- evicting ----------------------------------------------------------------------------------------

  /** The row lost nothing but entries of the region at least `age` old. */
  ghost predicate Thinned(before: seq<Pin>, after: seq<Pin>, reg: nat, age: nat) {
    && (forall p :: p in after ==> p in before)
    && (forall p :: p in before && !(p.reg == reg && p.age >= age) ==> p in after)
    && (Single(before, reg) ==> Single(after, reg))
  }

  ghost predicate AllThinned(before: Rows, after: Rows, reg: nat, age: nat) {
    |after| == |before| && forall i :: 0 <= i < |before| ==> Thinned(before[i], after[i], reg, age)
  }

  lemma ThinnedBoth(a: Rows, b: Rows, d: Rows, reg: nat, age: nat)
    requires AllThinned(a, b, reg, age) && AllThinned(b, d, reg, age)
    ensures AllThinned(a, d, reg, age)
  {
    forall i | 0 <= i < |a| ensures Thinned(a[i], d[i], reg, age) {
      assert Thinned(a[i], b[i], reg, age) && Thinned(b[i], d[i], reg, age);
    }
  }

  lemma RemovedThins(row: seq<Pin>, reg: nat, age: nat, j: nat)
    requires j < |row| && row[j].reg == reg && row[j].age >= age
    ensures Thinned(row, Removed(row, j), reg, age)
  {
    var less := Removed(row, j);
    assert row == row[..j] + [row[j]] + row[j + 1..];
    assert forall k :: 0 <= k < |less| ==> less[k] == row[if k < j then k else k + 1];
  }

  lemma EvictionThins(rows: Rows, reg: nat, age: nat, i: nat, j: nat)
    requires i < |rows| && j < |rows[i]| && rows[i][j].reg == reg && rows[i][j].age >= age
    ensures AllThinned(rows, rows[i := Removed(rows[i], j)], reg, age)
  {
    RemovedThins(rows[i], reg, age, j);
  }

  /** The range is still in row `c`, as entry `k'`, guarded by `guard` bytes, and nothing without length goes before. */
  ghost predicate Stands(rows: Rows, reg: nat, off: nat, c: nat, k: nat, entry: Pin, guard: nat) {
    && Alive(rows, reg, off, c, k) && rows[c][k] == entry && Guard(rows, reg, c, k) == guard && Unblocked(rows, reg, c, k)
  }

  /** Where what guards the range leaves room, the eviction loop finds it and spares the range. */
  lemma {:induction false} MadeSpares(rows: Rows, reg: nat, cap: nat, len: nat, off: nat, c: nat, k: nat, entry: Pin, guard: nat)
    returns (k': nat)
    requires Stands(rows, reg, off, c, k, entry, guard) && guard + len <= cap
    ensures Made(rows, reg, cap, len).1.Room?
    ensures Stands(Made(rows, reg, cap, len).0, reg, off, c, k', entry, guard)
    ensures AllThinned(rows, Made(rows, reg, cap, len).0, reg, entry.age)
    decreases Bytes(rows, reg)
  {
    if Bytes(rows, reg) + len <= cap {
      k' := k;
    } else {
      assert Stale(rows[c][k], reg);
      var (i, j) := OldestOf(rows, reg).value;
      var less: Rows := rows[i := Removed(rows[i], j)];
      if (i, j) == (c, k) {
        OldestGuard(rows, reg, c, k);
        assert false;
      }
      EvictsOther(rows, reg, off, i, j, c, k);
      GuardStays(rows, reg, i, j, c, k);
      assert rows[i][j].len > 0;
      UnblockedWithout(rows, reg, i, j, c, k);
      EvictionThins(rows, reg, entry.age, i, j);
      DropBytes(rows, i, j);
      k' := MadeSpares(less, reg, cap, len, off, c, PlaceAfter(i, j, c, k), entry, guard);
      ThinnedBoth(rows, less, Made(less, reg, cap, len).0, reg, entry.age);
    }
  }

  // ---- one row of another consumer --------------------------------------------------------------------------

  lemma {:induction false} GuardRow(rows: Rows, reg: nat, age: nat, i: nat, row: seq<Pin>, c: nat, k: nat, n: nat)
    requires i < |rows| && i < c < |rows| && n <= |rows| && k <= |rows[c]|
    ensures GuardUpTo(rows[i := row], reg, age, c, k, n) + (if i < n then Stays(rows[i], reg, age, true) else 0) ==
            GuardUpTo(rows, reg, age, c, k, n) + if i < n then Stays(row, reg, age, true) else 0
  {
    if n > 0 {
      GuardRow(rows, reg, age, i, row, c, k, n - 1);
    }
  }

  /** Changing the row of an earlier consumer, no old entry of no length being new. */
  lemma RowChanges(rows: Rows, reg: nat, off: nat, c: nat, k: nat, entry: Pin, guard: nat, i: nat, row: seq<Pin>, more: nat)
    requires Stands(rows, reg, off, c, k, entry, guard) && i < c
    requires Stays(row, reg, entry.age, true) == Stays(rows[i], reg, entry.age, true) + more
    requires forall p :: p in row && p.reg == reg && p.age >= entry.age ==> p in rows[i]
    ensures Stands(rows[i := row], reg, off, c, k, entry, guard + more)
  {
    GuardRow(rows, reg, entry.age, i, row, c, k, |rows|);
    var after: Rows := rows[i := row];
    forall a, b | 0 <= a < |after| && 0 <= b < |after[a]| && after[a][b].reg == reg &&
                  Goes(after[a][b], entry.age, Earlier(a, b, c, k))
      ensures after[a][b].len > 0
    {
      if a == i {
        assert row[b] in row;
        var b0 :| 0 <= b0 < |rows[i]| && rows[i][b0] == row[b];
        assert Goes(rows[i][b0], entry.age, Earlier(i, b0, c, k));
      } else {
        assert rows[a][b].len > 0;
      }
    }
  }

  ghost predicate OthersThinned(before: Rows, after: Rows, reg: nat, age: nat, i: nat) {
    |after| == |before| && forall j :: 0 <= j < |before| && j != i ==> Thinned(before[j], after[j], reg, age)
  }

  /** After a pin or a turn of consumer `i`: the range guarded by `guard` bytes and everything within the cap, or lost. */
  ghost predicate Settles(before: Rows, after: Rows, reg: nat, cap: nat, off: nat, c: nat, k: nat, entry: Pin, guard: nat, i: nat) {
    && |after| == |before| && c < |before|
    && if guard <= cap then
         Stands(after, reg, off, c, k, entry, guard) && Bytes(after, reg) <= cap && OthersThinned(before, after, reg, entry.age, i)
       else !Held(after[c], reg, off)
  }

  lemma StaysAppend(row: seq<Pin>, p: Pin, reg: nat, age: nat)
    requires p.reg == reg && p.age < age
    ensures Stays(row + [p], reg, age, true) == Stays(row, reg, age, true) + p.len
  {
    assert (row + [p])[..|row|] == row;
  }

  /** One pin of an earlier consumer. */
  lemma PinSettles(rows: Rows, reg: nat, cap: nat, off: nat, c: nat, k: nat, entry: Pin, guard: nat, i: nat, w: Range)
    returns (k': nat)
    requires Stands(rows, reg, off, c, k, entry, guard) && i < c
    ensures Settles(rows, Pinned(rows, reg, cap, i, w), reg, cap, off, c, k', entry, guard + w.len, i)
  {
    var (room, ending) := Made(rows, reg, cap, w.len);
    if guard + w.len > cap {
      MadeLoses(rows, reg, cap, w.len, off, c, k);
      k' := 0;
    } else {
      k' := MadeSpares(rows, reg, cap, w.len, off, c, k, entry, guard);
      var p := Pin(w.off, w.len, 0, reg);
      StaysAppend(room[i], p, reg, entry.age);
      RowChanges(room, reg, off, c, k', entry, guard, i, room[i] + [p], w.len);
      PushKeeps(room, i, p);
    }
  }

  /** A lost range stays lost while others are pinned. */
  lemma PinStaysLost(rows: Rows, reg: nat, cap: nat, off: nat, c: nat, i: nat, w: Range)
    requires i < c < |rows| && !Held(rows[c], reg, off)
    ensures !Held(Pinned(rows, reg, cap, i, w)[c], reg, off)
  {
    MadeStaysLost(rows, reg, cap, w.len, c, off);
  }

  lemma SettlesBoth(a: Rows, b: Rows, d: Rows, reg: nat, cap: nat, off: nat, c: nat, k: nat, k': nat, entry: Pin,
                    guard: nat, guard': nat, i: nat)
    requires guard <= cap && Settles(a, b, reg, cap, off, c, k, entry, guard, i)
    requires Settles(b, d, reg, cap, off, c, k', entry, guard', i)
    ensures Settles(a, d, reg, cap, off, c, k', entry, guard', i)
  {
    if guard' <= cap {
      forall j | 0 <= j < |a| && j != i ensures Thinned(a[j], d[j], reg, entry.age) {
        assert Thinned(a[j], b[j], reg, entry.age) && Thinned(b[j], d[j], reg, entry.age);
      }
    }
  }

  lemma {:induction false} FillSettles(rows: Rows, reg: nat, cap: nat, off: nat, c: nat, k: nat, entry: Pin, guard: nat,
                                       i: nat, wants: seq<Range>, row: seq<Pin>, n: nat)
    returns (k': nat)
    requires Stands(rows, reg, off, c, k, entry, guard) && i < c && n <= |wants| && guard <= Bytes(rows, reg) <= cap
    ensures Settles(rows, Filled(rows, reg, cap, i, wants, row, n), reg, cap, off, c, k', entry,
                    guard + Missing(row, reg, wants, n), i)
    decreases n
  {
    if n == 0 {
      k' := k;
    } else {
      var now, before := Filled(rows, reg, cap, i, wants, row, n - 1), guard + Missing(row, reg, wants, n - 1);
      k' := FillSettles(rows, reg, cap, off, c, k, entry, guard, i, wants, row, n - 1);
      if !Held(row, reg, wants[n - 1].off) {
        if before > cap {
          PinStaysLost(now, reg, cap, off, c, i, wants[n - 1]);
        } else {
          var k1 := k';
          k' := PinSettles(now, reg, cap, off, c, k1, entry, before, i, wants[n - 1]);
          SettlesBoth(rows, now, Pinned(now, reg, cap, i, wants[n - 1]), reg, cap, off, c, k1, k', entry, before,
                      before + wants[n - 1].len, i);
        }
      }
    }
  }

  // ---- a turn, all turns ------------------------------------------------------------------------------

  lemma {:induction false} SameRowBytes(a: seq<Pin>, b: seq<Pin>, reg: nat)
    requires |a| == |b| && forall k :: 0 <= k < |a| ==> a[k].reg == b[k].reg && a[k].len == b[k].len
    ensures RowBytes(a, reg) == RowBytes(b, reg)
    decreases |a|
  {
    if a != [] {
      SameRowBytes(a[..|a| - 1], b[..|b| - 1], reg);
    }
  }

  lemma GuardWithin(rows: Rows, reg: nat, c: nat, k: nat)
    requires c < |rows| && k < |rows[c]|
    ensures Guard(rows, reg, c, k) <= Bytes(rows, reg)
  {
    GuardBytes(rows, reg, rows[c][k].age, c, k, |rows|);
    assert rows[..|rows|] == rows;
  }

  lemma MarkSettles(rows: Rows, reg: nat, off: nat, c: nat, k: nat, entry: Pin, guard: nat, i: nat, wants: seq<Range>)
    requires Stands(rows, reg, off, c, k, entry, guard) && i < c
    requires Single(rows[i], reg) && Distinct(wants) && SameLengths(rows[i], reg, wants)
    ensures var marked := Marked(rows, reg, i, wants);
            && Stands(marked, reg, off, c, k, entry, guard + Older(rows[i], reg, entry.age, wants, |wants|))
            && Bytes(marked, reg) == Bytes(rows, reg)
  {
    var row := MarkedRow(rows[i], reg, wants);
    MarkedGain(rows[i], reg, entry.age, wants, |wants|);
    assert wants[..|wants|] == wants;
    forall p | p in row && p.reg == reg && p.age >= entry.age ensures p in rows[i] {
      var j :| 0 <= j < |row| && row[j] == p;
      assert row[j] == rows[i][j];
    }
    RowChanges(rows, reg, off, c, k, entry, guard, i, row, Older(rows[i], reg, entry.age, wants, |wants|));
    SameRowBytes(row, rows[i], reg);
    BytesUpdate(rows, i, row, reg);
  }

  /** The turn of an earlier consumer. */
  lemma TurnSettles(rows: Rows, reg: nat, cap: nat, off: nat, c: nat, k: nat, entry: Pin, guard: nat, i: nat, wants: seq<Range>)
    returns (k': nat)
    requires Stands(rows, reg, off, c, k, entry, guard) && i < c && Bytes(rows, reg) <= cap
    requires Single(rows[i], reg) && Distinct(wants) && SameLengths(rows[i], reg, wants)
    ensures Settles(rows, Served(rows, reg, cap, i, wants), reg, cap, off, c, k', entry,
                    guard + NewBytes(rows[i], reg, entry.age, wants, |wants|), i)
  {
    var marked, more := Marked(rows, reg, i, wants), Older(rows[i], reg, entry.age, wants, |wants|);
    MarkSettles(rows, reg, off, c, k, entry, guard, i, wants);
    GuardWithin(marked, reg, c, k);
    k' := FillSettles(marked, reg, cap, off, c, k, entry, guard + more, i, wants, rows[i], |wants|);
    NewIsBoth(rows[i], reg, entry.age, wants, |wants|);
  }

  /** What the row lost was not younger, so the new bytes are the same. */
  lemma {:induction false} ThinnedNew(before: seq<Pin>, after: seq<Pin>, reg: nat, age: nat, wants: seq<Range>, n: nat)
    requires n <= |wants| && Thinned(before, after, reg, age)
    ensures NewBytes(after, reg, age, wants, n) == NewBytes(before, reg, age, wants, n)
  {
    if n > 0 {
      ThinnedNew(before, after, reg, age, wants, n - 1);
      var off := wants[n - 1].off;
      assert HeldYounger(after, reg, off, age) <==> HeldYounger(before, reg, off, age);
    }
  }

  lemma ThinnedLengths(before: seq<Pin>, after: seq<Pin>, reg: nat, age: nat, wants: seq<Range>)
    requires Thinned(before, after, reg, age) && SameLengths(before, reg, wants)
    ensures SameLengths(after, reg, wants)
  {
    forall k, i | 0 <= k < |after| && 0 <= i < |wants| && Matches(after[k], reg, wants[i].off)
      ensures after[k].len == wants[i].len
    {
      assert after[k] in before;
      var j :| 0 <= j < |before| && before[j] == after[k];
      assert Matches(before[j], reg, wants[i].off);
    }
  }

  /** No range repeated in the rows and wants of the consumers before `c`, and each wanted with the length it is held with. */
  ghost predicate Plain(rows: Rows, reg: nat, want: seq<seq<Range>>, c: nat)
    requires c <= |want| == |rows|
  {
    forall i :: 0 <= i < c ==> Single(rows[i], reg) && Distinct(want[i]) && SameLengths(rows[i], reg, want[i])
  }

  /** After the first `n` turns: the range guarded by `guard` bytes and the later rows only thinned, or lost. */
  ghost predicate Stage(rows: Rows, now: Rows, reg: nat, cap: nat, off: nat, c: nat, k: nat, entry: Pin, guard: nat, n: nat) {
    && |now| == |rows| && c < |rows|
    && if guard <= cap then
         && Stands(now, reg, off, c, k, entry, guard) && Bytes(now, reg) <= cap
         && forall j :: n <= j < |rows| ==> Thinned(rows[j], now[j], reg, entry.age)
       else !Held(now[c], reg, off)
  }

  lemma StageNext(rows: Rows, now: Rows, next: Rows, reg: nat, cap: nat, off: nat, c: nat, k: nat, k': nat, entry: Pin,
                  guard: nat, guard': nat, n: nat)
    requires guard <= cap && Stage(rows, now, reg, cap, off, c, k, entry, guard, n)
    requires Settles(now, next, reg, cap, off, c, k', entry, guard', n)
    ensures Stage(rows, next, reg, cap, off, c, k', entry, guard', n + 1)
  {
    if guard' <= cap {
      forall j | n + 1 <= j < |rows| ensures Thinned(rows[j], next[j], reg, entry.age) {
        assert Thinned(rows[j], now[j], reg, entry.age) && Thinned(now[j], next[j], reg, entry.age);
      }
    }
  }

  lemma {:induction false} IssueSettles(rows: Rows, reg: nat, cap: nat, want: seq<seq<Range>>, off: nat, c: nat, k: nat,
                                        entry: Pin, guard: nat, n: nat)
    returns (k': nat)
    requires n <= c < |want| == |rows| && Plain(rows, reg, want, c)
    requires Stands(rows, reg, off, c, k, entry, guard) && Bytes(rows, reg) <= cap
    ensures Stage(rows, Issued(rows, reg, cap, want, n), reg, cap, off, c, k', entry,
                  guard + NewBytesOf(rows, reg, entry.age, want, n), n)
    decreases n
  {
    if n == 0 {
      GuardWithin(rows, reg, c, k);
      k' := k;
    } else {
      var i, now := n - 1, Issued(rows, reg, cap, want, n - 1);
      var before := guard + NewBytesOf(rows, reg, entry.age, want, i);
      k' := IssueSettles(rows, reg, cap, want, off, c, k, entry, guard, i);
      if before > cap {
        ServeDecides(now, reg, cap, i, want[i], c, off);
      } else {
        var k1, more := k', NewBytes(rows[i], reg, entry.age, want[i], |want[i]|);
        assert Thinned(rows[i], now[i], reg, entry.age);
        ThinnedNew(rows[i], now[i], reg, entry.age, want[i], |want[i]|);
        ThinnedLengths(rows[i], now[i], reg, entry.age, want[i]);
        k' := TurnSettles(now, reg, cap, off, c, k1, entry, before, i, want[i]);
        StageNext(rows, now, Served(now, reg, cap, i, want[i]), reg, cap, off, c, k1, k', entry, before, before + more, i);
      }
    }
  }

  /** The bytes that must fit beside a range: what guards it, and what the consumers before it newly bring in. */
  ghost function Needed(rows: Rows, reg: nat, want: seq<seq<Range>>, c: nat, k: nat): nat
    requires c < |rows| == |want| && k < |rows[c]|
  {
    Guard(rows, reg, c, k) + NewBytesOf(rows, reg, rows[c][k].age, want, c)
  }

  /**
   Without repeated ranges, a range in the table is lost before its consumer's turn exactly when what guards it and
   the bytes the consumers before it want and do not hold younger, all at the start of the step, exceed the cap.
   */
  lemma LostInAdvance(rows: Rows, reg: nat, cap: nat, want: seq<seq<Range>>, c: nat, off: nat, k: nat)
    requires c < |want| == |rows| && Plain(rows, reg, want, c) && Bytes(rows, reg) <= cap
    requires Alive(rows, reg, off, c, k) && Unblocked(rows, reg, c, k)
    ensures !Held(Issued(rows, reg, cap, want, c)[c], reg, off) <==> Needed(rows, reg, want, c, k) > cap
  {
    var k' := IssueSettles(rows, reg, cap, want, off, c, k, rows[c][k], Guard(rows, reg, c, k), c);
    var now := Issued(rows, reg, cap, want, c);
    if Needed(rows, reg, want, c, k) <= cap {
      assert now[c][k'] in now[c];
    }
  }

  // ---- before the entries age ----------------------------------------------------------------------------

  lemma {:induction false} AgedStays(row: seq<Pin>, reg: nat, age: nat, tie: bool)
    ensures Stays(AgedRow(row), reg, age + 1, tie) == Stays(row, reg, age, tie)
  {
    if row != [] {
      AgedStays(row[..|row| - 1], reg, age, tie);
      assert AgedRow(row)[..|row| - 1] == AgedRow(row[..|row| - 1]);
    }
  }

  lemma AgedRowGuard(row: seq<Pin>, reg: nat, age: nat, i: nat, c: nat, k: nat)
    requires i == c ==> k <= |row|
    ensures RowGuard(AgedRow(row), reg, age + 1, i, c, k) == RowGuard(row, reg, age, i, c, k)
  {
    if i != c {
      AgedStays(row, reg, age, i < c);
    } else {
      assert AgedRow(row)[..k] == AgedRow(row[..k]) && AgedRow(row)[k..] == AgedRow(row[k..]);
      AgedStays(row[..k], reg, age, true);
      AgedStays(row[k..], reg, age, false);
    }
  }

  lemma {:induction false} AgedGuard(rows: Rows, reg: nat, age: nat, c: nat, k: nat, n: nat)
    requires n <= |rows| && (c < |rows| ==> k <= |rows[c]|)
    ensures GuardUpTo(Aged(rows), reg, age + 1, c, k, n) == GuardUpTo(rows, reg, age, c, k, n)
  {
    if n > 0 {
      AgedGuard(rows, reg, age, c, k, n - 1);
      AgedRowGuard(rows[n - 1], reg, age, n - 1, c, k);
    }
  }

  lemma AgedYounger(row: seq<Pin>, reg: nat, off: nat, age: nat)
    ensures HeldYounger(AgedRow(row), reg, off, age + 1) <==> HeldYounger(row, reg, off, age)
  {
    var aged := AgedRow(row);
    if p :| p in row && p.reg == reg && p.off == off && p.age < age {
      var j :| 0 <= j < |row| && row[j] == p;
      assert aged[j] in aged;
    }
    if p :| p in aged && p.reg == reg && p.off == off && p.age < age + 1 {
      var j :| 0 <= j < |aged| && aged[j] == p;
      assert row[j] in row;
    }
  }

  lemma {:induction false} AgedNew(row: seq<Pin>, reg: nat, age: nat, wants: seq<Range>, n: nat)
    requires n <= |wants|
    ensures NewBytes(AgedRow(row), reg, age + 1, wants, n) == NewBytes(row, reg, age, wants, n)
  {
    if n > 0 {
      AgedNew(row, reg, age, wants, n - 1);
      AgedYounger(row, reg, wants[n - 1].off, age);
    }
  }

  lemma {:induction false} AgedNewOf(rows: Rows, reg: nat, age: nat, want: seq<seq<Range>>, n: nat)
    requires n <= |want| == |rows|
    ensures NewBytesOf(Aged(rows), reg, age + 1, want, n) == NewBytesOf(rows, reg, age, want, n)
  {
    if n > 0 {
      AgedNewOf(rows, reg, age, want, n - 1);
      AgedNew(rows[n - 1], reg, age, want[n - 1], |want[n - 1]|);
    }
  }

  lemma AgedPlain(rows: Rows, reg: nat, want: seq<seq<Range>>, c: nat)
    requires c <= |want| == |rows| && Plain(rows, reg, want, c)
    ensures Plain(Aged(rows), reg, want, c)
  {
    forall i | 0 <= i < c ensures Single(AgedRow(rows[i]), reg) && SameLengths(AgedRow(rows[i]), reg, want[i]) {
      assert Single(rows[i], reg) && SameLengths(rows[i], reg, want[i]);
      forall k, j | 0 <= k < |rows[i]| && 0 <= j < |want[i]| && Matches(AgedRow(rows[i])[k], reg, want[i][j].off)
        ensures AgedRow(rows[i])[k].len == want[i][j].len
      {
        assert Matches(rows[i][k], reg, want[i][j].off);
      }
    }
  }

  lemma AgedAlive(rows: Rows, reg: nat, off: nat, c: nat, k: nat)
    requires c < |rows| && IsLast(rows[c], reg, off, k) && Unblocked(rows, reg, c, k)
    ensures Alive(Aged(rows), reg, off, c, k) && Unblocked(Aged(rows), reg, c, k)
  {
    var row := AgedRow(rows[c]);
    forall j | 0 <= j < |row| && j != k && Matches(row[j], reg, off) ensures Sooner(row, j, k) {
      assert Matches(rows[c][j], reg, off);
    }
    forall i, j | 0 <= i < |rows| && 0 <= j < |rows[i]| && Aged(rows)[i][j].reg == reg &&
                  Goes(Aged(rows)[i][j], Aged(rows)[c][k].age, Earlier(i, j, c, k))
      ensures Aged(rows)[i][j].len > 0
    {
      assert Goes(rows[i][j], rows[c][k].age, Earlier(i, j, c, k));
    }
  }

  lemma AgedNeeded(rows: Rows, reg: nat, want: seq<seq<Range>>, c: nat, k: nat)
    requires c < |rows| == |want| && k < |rows[c]|
    ensures Needed(Aged(rows), reg, want, c, k) == Needed(rows, reg, want, c, k)
  {
    AgedGuard(rows, reg, rows[c][k].age, c, k, |rows|);
    AgedNewOf(rows, reg, rows[c][k].age, want, c);
  }

  /** The same for the table before its entries age: everything is known before the step. */
  lemma HeldThenLost(rows: Rows, reg: nat, cap: nat, want: seq<seq<Range>>, c: nat, off: nat, k: nat)
    requires c < |want| == |rows| && Plain(rows, reg, want, c) && Bytes(rows, reg) <= cap
    requires IsLast(rows[c], reg, off, k) && Unblocked(rows, reg, c, k)
    ensures !Held(Issued(Aged(rows), reg, cap, want, c)[c], reg, off) <==> Needed(rows, reg, want, c, k) > cap
  {
    AgedPlain(rows, reg, want, c);
    AgedBytes(rows, reg);
    AgedAlive(rows, reg, off, c, k);
    LostInAdvance(Aged(rows), reg, cap, want, c, off, k);
    AgedNeeded(rows, reg, want, c, k);
  }
}
