/**
 A step whose demand names no range twice brings no range twice into the pin table.
 */
module PinSingle {
  import opened Common
  import opened PinRows
  import opened PinWalk

  /** At most one entry for each range of the region. */
  predicate Single(row: seq<Pin>, reg: nat) {
    forall i, j :: 0 <= i < j < |row| && row[i].reg == reg && row[j].reg == reg ==> row[i].off != row[j].off
  }

  predicate Distinct(wants: seq<Range>) {
    forall i, j :: 0 <= i < j < |wants| ==> wants[i].off != wants[j].off
  }

  ghost predicate AllSingle(rows: Rows, r: nat) {
    forall i :: 0 <= i < |rows| ==> Single(rows[i], r)
  }

  /** Nothing came into the row, and no range twice. */
  ghost predicate Sheds(before: seq<Pin>, after: seq<Pin>, r: nat) {
    (forall p :: p in after ==> p in before) && (Single(before, r) ==> Single(after, r))
  }

  ghost predicate AllShed(before: Rows, after: Rows, r: nat) {
    |after| == |before| && forall i :: 0 <= i < |before| ==> Sheds(before[i], after[i], r)
  }

  lemma ShedBoth(a: Rows, b: Rows, d: Rows, r: nat)
    requires AllShed(a, b, r) && AllShed(b, d, r)
    ensures AllShed(a, d, r)
  {
    forall i | 0 <= i < |a| ensures Sheds(a[i], d[i], r) {
      assert Sheds(a[i], b[i], r) && Sheds(b[i], d[i], r);
    }
  }

  lemma RemovedSheds(rows: Rows, r: nat, i: nat, j: nat)
    requires i < |rows| && j < |rows[i]|
    ensures AllShed(rows, rows[i := Removed(rows[i], j)], r)
  {
    var row := rows[i];
    assert row == row[..j] + [row[j]] + row[j + 1..];
    assert forall k :: 0 <= k < |row| - 1 ==> Removed(row, j)[k] == row[if k < j then k else k + 1];
  }

  lemma {:induction false} MadeSheds(rows: Rows, reg: nat, cap: nat, len: nat, r: nat)
    ensures AllShed(rows, Made(rows, reg, cap, len).0, r)
    decreases Bytes(rows, reg)
  {
    var at := OldestOf(rows, reg);
    if Bytes(rows, reg) + len > cap && at.Some? {
      var (i, j) := at.value;
      var less: Rows := rows[i := Removed(rows[i], j)];
      RemovedSheds(rows, r, i, j);
      DropBytes(rows, i, j);
      if rows[i][j].len > 0 {
        MadeSheds(less, reg, cap, len, r);
        ShedBoth(rows, less, Made(less, reg, cap, len).0, r);
      }
    }
  }

  lemma {:induction false} ShrunkSheds(rows: Rows, reg: nat, cap: nat, r: nat)
    ensures AllShed(rows, Shrunk(rows, reg, cap).0, r)
    decreases Bytes(rows, reg)
  {
    var at := OldestOf(rows, reg);
    if !Small(Bytes(rows, reg), reg, cap) && at.Some? {
      var (i, j) := at.value;
      var less: Rows := rows[i := Removed(rows[i], j)];
      RemovedSheds(rows, r, i, j);
      DropBytes(rows, i, j);
      if rows[i][j].len > 0 {
        ShrunkSheds(less, reg, cap, r);
        ShedBoth(rows, less, Shrunk(less, reg, cap).0, r);
      }
    }
  }

  /** Row `i` holds ranges of `row` and the first `n` wanted ones that `row` does not hold. */
  ghost predicate FromWants(now: seq<Pin>, row: seq<Pin>, reg: nat, wants: seq<Range>, n: nat) {
    n <= |wants| &&
    forall p :: p in now && p.reg == reg ==> Held(row, reg, p.off) || exists m :: 0 <= m < n && wants[m].off == p.off
  }

  lemma PushSingle(row: seq<Pin>, p: Pin, r: nat)
    requires Single(row, r) && (p.reg == r ==> !Held(row, r, p.off))
    ensures Single(row + [p], r)
  {
    forall i | 0 <= i < |row| && row[i].reg == r && p.reg == r ensures row[i].off != p.off {
      assert row[i] in row;
    }
  }

  lemma {:induction false} FilledSingle(rows: Rows, reg: nat, cap: nat, i: nat, wants: seq<Range>, row: seq<Pin>, n: nat, r: nat)
    requires i < |rows| && n <= |wants| && Distinct(wants) && AllSingle(rows, r) && FromWants(rows[i], row, reg, wants, 0)
    ensures AllSingle(Filled(rows, reg, cap, i, wants, row, n), r)
    ensures FromWants(Filled(rows, reg, cap, i, wants, row, n)[i], row, reg, wants, n)
    decreases n
  {
    if n > 0 {
      FilledSingle(rows, reg, cap, i, wants, row, n - 1, r);
      var now, w := Filled(rows, reg, cap, i, wants, row, n - 1), wants[n - 1];
      if !Held(row, reg, w.off) {
        PinSingle(now, reg, cap, i, wants, row, n - 1, r);
      }
    }
  }

  lemma PinSingle(now: Rows, reg: nat, cap: nat, i: nat, wants: seq<Range>, row: seq<Pin>, m: nat, r: nat)
    requires i < |now| && m < |wants| && Distinct(wants) && AllSingle(now, r) && FromWants(now[i], row, reg, wants, m)
    requires !Held(row, reg, wants[m].off)
    ensures AllSingle(Pinned(now, reg, cap, i, wants[m]), r)
    ensures FromWants(Pinned(now, reg, cap, i, wants[m])[i], row, reg, wants, m + 1)
  {
    var w := wants[m];
    var room := Made(now, reg, cap, w.len).0;
    MadeSheds(now, reg, cap, w.len, r);
    assert Sheds(now[i], room[i], r) && forall j :: 0 <= j < |now| ==> Sheds(now[j], room[j], r);
    assert !Held(room[i], reg, w.off);
    PushSingle(room[i], Pin(w.off, w.len, 0, reg), r);
    assert wants[m].off == w.off;
  }

  lemma {:induction false} MarkedSame(row: seq<Pin>, reg: nat, wants: seq<Range>)
    ensures |MarkedRow(row, reg, wants)| == |row|
    ensures forall k :: 0 <= k < |row| ==>
              MarkedRow(row, reg, wants)[k].reg == row[k].reg && MarkedRow(row, reg, wants)[k].off == row[k].off
  {
  }

  /** A turn brings no range twice into the table. */
  lemma ServedSingle(rows: Rows, reg: nat, cap: nat, i: nat, wants: seq<Range>, r: nat)
    requires i < |rows| && Distinct(wants) && AllSingle(rows, r)
    ensures AllSingle(Served(rows, reg, cap, i, wants), r)
  {
    var marked := Marked(rows, reg, i, wants);
    MarkedSame(rows[i], reg, wants);
    assert Single(rows[i], r) && Single(marked[i], r);
    forall p: Pin | p in marked[i] && p.reg == reg ensures Held(rows[i], reg, p.off) {
      var k :| 0 <= k < |marked[i]| && marked[i][k] == p;
      assert rows[i][k] in rows[i];
    }
    FilledSingle(marked, reg, cap, i, wants, rows[i], |wants|, r);
  }

  /** Nor do all turns. */
  lemma {:induction false} IssuedSingle(rows: Rows, reg: nat, cap: nat, want: seq<seq<Range>>, n: nat, r: nat)
    requires n <= |want| == |rows| && AllSingle(rows, r) && forall i :: 0 <= i < |want| ==> Distinct(want[i])
    ensures AllSingle(Issued(rows, reg, cap, want, n), r)
  {
    if n > 0 {
      IssuedSingle(rows, reg, cap, want, n - 1, r);
      ServedSingle(Issued(rows, reg, cap, want, n - 1), reg, cap, n - 1, want[n - 1], r);
    }
  }

  lemma AgedSingle(rows: Rows, r: nat)
    requires AllSingle(rows, r)
    ensures AllSingle(Aged(rows), r)
  {
    forall i | 0 <= i < |rows| ensures Single(AgedRow(rows[i]), r) {
      assert Single(rows[i], r);
    }
  }
}
