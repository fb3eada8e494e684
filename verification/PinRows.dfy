/**
 The pin table of windows/serve/prefetch.cc as a value: rows of pinned ranges a consumer, two regions, 0 hot
 and 1 observed, ages in steps.
 */
module PinRows {
  datatype Pin = Pin(off: nat, len: nat, age: nat, reg: nat)

  /** A wanted byte range. */
  datatype Range = Range(off: nat, len: nat)

  /** One row of pins a consumer, in consumer order. */
  type Rows = seq<seq<Pin>>

  // ---- bytes ----------------------------------------------------------------------------------

  function RowBytes(row: seq<Pin>, reg: nat): nat {
    if row == [] then 0
    else RowBytes(row[..|row| - 1], reg) + if row[|row| - 1].reg == reg then row[|row| - 1].len else 0
  }

  function Bytes(rows: Rows, reg: nat): nat {
    if rows == [] then 0 else Bytes(rows[..|rows| - 1], reg) + RowBytes(rows[|rows| - 1], reg)
  }

  lemma {:induction false} BytesUpdate(rows: Rows, c: nat, row: seq<Pin>, reg: nat)
    requires c < |rows|
    ensures Bytes(rows[c := row], reg) + RowBytes(rows[c], reg) == Bytes(rows, reg) + RowBytes(row, reg)
  {
    var n := |rows| - 1;
    if c == n {
      assert rows[c := row][..n] == rows[..n];
    } else {
      assert rows[c := row][..n] == rows[..n][c := row];
      BytesUpdate(rows[..n], c, row, reg);
    }
  }

  lemma {:induction false} RowUpdate(row: seq<Pin>, k: nat, p: Pin, reg: nat)
    requires k < |row| && p.len == row[k].len && p.reg == row[k].reg
    ensures RowBytes(row[k := p], reg) == RowBytes(row, reg)
  {
    var n := |row| - 1;
    if k == n {
      assert row[k := p][..n] == row[..n];
    } else {
      assert row[k := p][..n] == row[..n][k := p];
      RowUpdate(row[..n], k, p, reg);
    }
  }

  function Removed<T>(s: seq<T>, k: nat): (r: seq<T>)
    requires k < |s|
    ensures |r| == |s| - 1
  {
    s[..k] + s[k + 1..]
  }

  lemma {:induction false} RowRemove(row: seq<Pin>, k: nat, reg: nat)
    requires k < |row|
    ensures RowBytes(Removed(row, k), reg) + (if row[k].reg == reg then row[k].len else 0) == RowBytes(row, reg)
  {
    var n := |row| - 1;
    if k == n {
      assert Removed(row, k) == row[..n];
    } else {
      assert Removed(row, k)[..n - 1] == Removed(row[..n], k);
      RowRemove(row[..n], k, reg);
    }
  }

  lemma RowAppend(row: seq<Pin>, p: Pin, reg: nat)
    ensures RowBytes(row + [p], reg) == RowBytes(row, reg) + if p.reg == reg then p.len else 0
  {
    assert (row + [p])[..|row|] == row;
  }

  // ---- age ------------------------------------------------------------------------------------------

  predicate Stale(p: Pin, reg: nat) {
    p.reg == reg && p.age > 0
  }

  /** Every entry of the region was touched this step. */
  ghost predicate NoStale(rows: Rows, reg: nat) {
    forall c, k :: 0 <= c < |rows| && 0 <= k < |rows[c]| ==> !Stale(rows[c][k], reg)
  }

  /** The row holds the range, touched this step. */
  ghost predicate Fresh(row: seq<Pin>, reg: nat, off: nat) {
    exists p :: p in row && p.reg == reg && p.off == off && p.age == 0
  }

  /** Place (i, j) comes before (c, k). */
  predicate Earlier(i: int, j: int, c: int, k: int) {
    i < c || (i == c && j < k)
  }

  /** The oldest stale entry of a region, first in consumer order among equals. */
  ghost predicate Oldest(rows: Rows, reg: nat, c: nat, k: nat) {
    && c < |rows| && k < |rows[c]| && Stale(rows[c][k], reg)
    && (forall i, j :: 0 <= i < |rows| && 0 <= j < |rows[i]| && rows[i][j].reg == reg ==>
          rows[i][j].age <= rows[c][k].age)
    && (forall i, j :: 0 <= i < |rows| && 0 <= j < |rows[i]| && rows[i][j].reg == reg && Earlier(i, j, c, k) ==>
          rows[i][j].age < rows[c][k].age)
  }

  /** No zero-length entry: dropping one would free nothing. */
  ghost predicate Positive(rows: Rows) {
    forall c, k :: 0 <= c < |rows| && 0 <= k < |rows[c]| ==> rows[c][k].len > 0
  }

  /** Nothing fresh is lost; a region without stale entries stays so and does not shrink. */
  ghost predicate Keeps(before: Rows, after: Rows) {
    && |after| == |before|
    && (forall c, reg, off :: 0 <= c < |before| && Fresh(before[c], reg, off) ==> Fresh(after[c], reg, off))
    && (forall reg :: NoStale(before, reg) ==> NoStale(after, reg) && Bytes(after, reg) >= Bytes(before, reg))
  }

  /** The row holds an entry for the range, of whatever age. */
  ghost predicate Held(row: seq<Pin>, reg: nat, off: nat) {
    exists p {:trigger p in row} :: p in row && p.reg == reg && p.off == off
  }

  /** Every range in the table before is in the table after. */
  ghost predicate NothingLost(before: Rows, after: Rows) {
    && |after| == |before|
    && forall c, reg, off :: 0 <= c < |before| && Held(before[c], reg, off) ==> Held(after[c], reg, off)
  }

  lemma LostBoth(a: Rows, b: Rows, c: Rows)
    requires NothingLost(a, b) && NothingLost(b, c)
    ensures NothingLost(a, c)
  {
  }

  lemma PushLosesNothing(rows: Rows, c: nat, p: Pin)
    requires c < |rows|
    ensures NothingLost(rows, rows[c := rows[c] + [p]])
  {
    forall reg, off | Held(rows[c], reg, off) ensures Held(rows[c] + [p], reg, off) {
      var q :| q in rows[c] && q.reg == reg && q.off == off;
      assert q in rows[c] + [p];
    }
  }

  /** Changing ages loses nothing. */
  lemma AgesLoseNothing(row: seq<Pin>, row': seq<Pin>, reg: nat, off: nat)
    requires |row'| == |row| && forall k :: 0 <= k < |row| ==> row'[k].reg == row[k].reg && row'[k].off == row[k].off
    requires Held(row, reg, off)
    ensures Held(row', reg, off)
  {
    var q :| q in row && q.reg == reg && q.off == off;
    var k :| 0 <= k < |row| && row[k] == q;
    assert row'[k] in row';
  }

  lemma TouchLosesNothing(rows: Rows, c: nat, k: nat)
    requires c < |rows| && k < |rows[c]|
    ensures NothingLost(rows, rows[c := rows[c][k := rows[c][k].(age := 0)]])
  {
    forall reg, off | Held(rows[c], reg, off) ensures Held(rows[c][k := rows[c][k].(age := 0)], reg, off) {
      AgesLoseNothing(rows[c], rows[c][k := rows[c][k].(age := 0)], reg, off);
    }
  }

  lemma KeepsBoth(a: Rows, b: Rows, c: Rows)
    requires Keeps(a, b) && Keeps(b, c)
    ensures Keeps(a, c)
  {
  }

  /** Dropping a stale entry loses nothing fresh. */
  lemma DropKeeps(rows: Rows, c: nat, k: nat, reg: nat)
    requires c < |rows| && k < |rows[c]| && Stale(rows[c][k], reg)
    ensures Keeps(rows, rows[c := Removed(rows[c], k)])
  {
    var row, less := rows[c], Removed(rows[c], k);
    assert row == row[..k] + [row[k]] + row[k + 1..];
    forall r, off | Fresh(row, r, off) ensures Fresh(less, r, off) {
      var p :| p in row && p.reg == r && p.off == off && p.age == 0;
      assert p in less;
    }
    assert forall j :: 0 <= j < |less| ==> less[j] == row[if j < k then j else j + 1];
    forall r | NoStale(rows, r)
      ensures NoStale(rows[c := less], r) && Bytes(rows[c := less], r) >= Bytes(rows, r)
    {
      RowRemove(row, k, r);
      BytesUpdate(rows, c, less, r);
    }
  }

  lemma DropPositive(rows: Rows, c: nat, k: nat)
    requires c < |rows| && k < |rows[c]| && Positive(rows)
    ensures Positive(rows[c := Removed(rows[c], k)])
  {
    assert forall j :: 0 <= j < |rows[c]| - 1 ==> Removed(rows[c], k)[j] == rows[c][if j < k then j else j + 1];
  }

  /** A new fresh entry at the end of a row. */
  lemma PushKeeps(rows: Rows, c: nat, p: Pin)
    requires c < |rows| && p.age == 0
    ensures Keeps(rows, rows[c := rows[c] + [p]])
    ensures Fresh(rows[c] + [p], p.reg, p.off)
    ensures Positive(rows) && p.len > 0 ==> Positive(rows[c := rows[c] + [p]])
    ensures forall reg :: Bytes(rows[c := rows[c] + [p]], reg) == Bytes(rows, reg) + if p.reg == reg then p.len else 0
  {
    var more := rows[c] + [p];
    assert p in more;
    forall r, off | Fresh(rows[c], r, off) ensures Fresh(more, r, off) {
      var q :| q in rows[c] && q.reg == r && q.off == off && q.age == 0;
      assert q in more;
    }
    forall r ensures Bytes(rows[c := more], r) == Bytes(rows, r) + if p.reg == r then p.len else 0 {
      RowAppend(rows[c], p, r);
      BytesUpdate(rows, c, more, r);
    }
  }

  /** Touching an entry. */
  lemma TouchKeeps(rows: Rows, c: nat, k: nat)
    requires c < |rows| && k < |rows[c]|
    ensures var after := rows[c := rows[c][k := rows[c][k].(age := 0)]];
            && Keeps(rows, after) && (Positive(rows) ==> Positive(after))
            && (forall reg :: Bytes(after, reg) == Bytes(rows, reg))
            && Fresh(after[c], rows[c][k].reg, rows[c][k].off)
  {
    var p := rows[c][k].(age := 0);
    var touched := rows[c][k := p];
    assert touched[k] == p && p in touched;
    forall r, off | Fresh(rows[c], r, off) ensures Fresh(touched, r, off) {
      var q :| q in rows[c] && q.reg == r && q.off == off && q.age == 0;
      var j :| 0 <= j < |rows[c]| && rows[c][j] == q;
      assert touched[j].off == off && touched[j].reg == r && touched[j].age == 0 && touched[j] in touched;
    }
    forall r ensures Bytes(rows[c := touched], r) == Bytes(rows, r) {
      RowUpdate(rows[c], k, p, r);
      BytesUpdate(rows, c, touched, r);
    }
  }

  /** The table's entries, its two byte accounts, and how many entries were evicted so far. */
  datatype Snapshot = Snapshot(rows: Rows, bytes: seq<nat>, evicts: nat)

  /**
   From `a` to `b` only region `reg` was charged; without an eviction no range was lost; and where `room` more
   bytes fit, nothing was evicted.
   */
  ghost predicate Gentle(cap: nat, a: Snapshot, b: Snapshot, reg: nat, room: nat)
    requires reg < 2
  {
    && |a.bytes| == |b.bytes| == 2
    && b.evicts >= a.evicts && b.bytes[1 - reg] == a.bytes[1 - reg]
    && (b.evicts == a.evicts ==> NothingLost(a.rows, b.rows))
    && (a.bytes[reg] + room <= cap ==> b.evicts == a.evicts && b.bytes[reg] <= a.bytes[reg] + room)
  }

  lemma GentleBoth(cap: nat, a: Snapshot, b: Snapshot, c: Snapshot, reg: nat, m: nat, n: nat)
    requires reg < 2 && Gentle(cap, a, b, reg, m) && Gentle(cap, b, c, reg, n)
    ensures Gentle(cap, a, c, reg, m + n)
  {
    if c.evicts == a.evicts {
      LostBoth(a.rows, b.rows, c.rows);
    }
  }

  function Lens(wants: seq<Range>): nat {
    if wants == [] then 0 else Lens(wants[..|wants| - 1]) + wants[|wants| - 1].len
  }

  /** All the bytes a step asks for. */
  function DemandBytes(want: seq<seq<Range>>): nat {
    if want == [] then 0 else DemandBytes(want[..|want| - 1]) + Lens(want[|want| - 1])
  }

  // ---- a step older ---------------------------------------------------------------------------------

  function Aged(rows: Rows): (r: Rows)
    ensures |r| == |rows| && forall c :: 0 <= c < |rows| ==> |r[c]| == |rows[c]|
  {
    seq(|rows|, c requires 0 <= c < |rows| => AgedRow(rows[c]))
  }

  function AgedRow(row: seq<Pin>): (r: seq<Pin>)
    ensures |r| == |row|
  {
    seq(|row|, k requires 0 <= k < |row| => row[k].(age := row[k].age + 1))
  }

  lemma {:induction false} AgedRowBytes(row: seq<Pin>, reg: nat)
    ensures RowBytes(AgedRow(row), reg) == RowBytes(row, reg)
  {
    if row != [] {
      AgedRowBytes(row[..|row| - 1], reg);
      assert AgedRow(row)[..|row| - 1] == AgedRow(row[..|row| - 1]);
    }
  }

  lemma {:induction false} AgedBytes(rows: Rows, reg: nat)
    ensures Bytes(Aged(rows), reg) == Bytes(rows, reg)
  {
    if rows != [] {
      AgedBytes(rows[..|rows| - 1], reg);
      assert Aged(rows)[..|rows| - 1] == Aged(rows[..|rows| - 1]);
      AgedRowBytes(rows[|rows| - 1], reg);
    }
  }

  lemma AgingLosesNothing(rows: Rows)
    ensures NothingLost(rows, Aged(rows))
  {
    forall c, reg, off | 0 <= c < |rows| && Held(rows[c], reg, off) ensures Held(Aged(rows)[c], reg, off) {
      AgesLoseNothing(rows[c], AgedRow(rows[c]), reg, off);
    }
  }

  // ---- what a step settles ----------------------------------------------------------------------------

  /** The range is in its row, touched this step, or its region is too full of entries touched this step. */
  ghost predicate Settled(rows: Rows, cap: nat, c: nat, reg: nat, w: Range)
    requires c < |rows|
  {
    Fresh(rows[c], reg, w.off) || (NoStale(rows, reg) && Bytes(rows, reg) + w.len > cap)
  }

  ghost predicate AllSettled(rows: Rows, cap: nat, c: nat, reg: nat, wants: seq<Range>, n: nat)
    requires c < |rows| && n <= |wants|
  {
    forall i :: 0 <= i < n ==> Settled(rows, cap, c, reg, wants[i])
  }

  predicate AllPositive(wants: seq<Range>) {
    forall i :: 0 <= i < |wants| ==> wants[i].len > 0
  }

  predicate Wanted(want: seq<seq<Range>>) {
    forall c :: 0 <= c < |want| ==> AllPositive(want[c])
  }

  lemma SettledStays(before: Rows, after: Rows, cap: nat, c: nat, reg: nat, wants: seq<Range>, n: nat)
    requires c < |before| && n <= |wants| && Keeps(before, after)
    ensures AllSettled(before, cap, c, reg, wants, n) ==> AllSettled(after, cap, c, reg, wants, n)
  {
  }

  lemma {:induction false} NoBytes(rows: Rows, reg: nat)
    requires forall c :: 0 <= c < |rows| ==> rows[c] == []
    ensures Bytes(rows, reg) == 0
  {
    if rows != [] {
      NoBytes(rows[..|rows| - 1], reg);
    }
  }

  lemma DropBytes(rows: Rows, c: nat, k: nat)
    requires c < |rows| && k < |rows[c]|
    ensures forall reg :: Bytes(rows[c := Removed(rows[c], k)], reg) + (if rows[c][k].reg == reg then rows[c][k].len else 0)
                          == Bytes(rows, reg)
  {
    forall reg
      ensures Bytes(rows[c := Removed(rows[c], k)], reg) + (if rows[c][k].reg == reg then rows[c][k].len else 0)
              == Bytes(rows, reg)
    {
      RowRemove(rows[c], k, reg);
      BytesUpdate(rows, c, Removed(rows[c], k), reg);
    }
  }

  /** Every range wanted in a region is settled. */
  ghost predicate RegionSettled(rows: Rows, cap: nat, reg: nat, want: seq<seq<Range>>)
    requires |want| == |rows|
  {
    forall c :: 0 <= c < |want| ==> AllSettled(rows, cap, c, reg, want[c], |want[c]|)
  }

  lemma RegionStays(before: Rows, after: Rows, cap: nat, reg: nat, want: seq<seq<Range>>)
    requires |want| == |before| && Keeps(before, after)
    ensures RegionSettled(before, cap, reg, want) ==> RegionSettled(after, cap, reg, want)
  {
  }
}
