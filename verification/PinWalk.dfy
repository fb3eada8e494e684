/**
 What `e0_issue_pool` of windows/serve/prefetch.cc makes of the pin table, computed from the table and the
 demand: the eviction loop, one pin, one consumer's turn, all consumers in order. When anything is evicted,
 and when a range that is in the table is lost.
 */
module PinWalk {
  import opened Common
  import opened PinRows

  // ---- the next entry to go -----------------------------------------------------------------------

  /** The oldest stale entry of the region among the first `n` of a row, the first of several. */
  function OldestInRow(row: seq<Pin>, reg: nat, n: nat): (r: Option<nat>)
    requires n <= |row|
    ensures r.Some? ==> r.value < n && Stale(row[r.value], reg)
    ensures r.Some? ==> forall j :: 0 <= j < n && row[j].reg == reg ==> row[j].age <= row[r.value].age
    ensures r.Some? ==> forall j :: 0 <= j < r.value && row[j].reg == reg ==> row[j].age < row[r.value].age
    ensures r.None? ==> forall j :: 0 <= j < n ==> !Stale(row[j], reg)
  {
    if n == 0 then None
    else
      var before := OldestInRow(row, reg, n - 1);
      if Stale(row[n - 1], reg) && (before.None? || row[n - 1].age > row[before.value].age) then Some(n - 1) else before
  }

  /** The same over the first `n` rows. */
  function OldestAt(rows: Rows, reg: nat, n: nat): (r: Option<(nat, nat)>)
    requires n <= |rows|
    ensures r.Some? ==> r.value.0 < n && r.value.1 < |rows[r.value.0]| && Stale(rows[r.value.0][r.value.1], reg)
    ensures r.Some? ==> forall i, j :: 0 <= i < n && 0 <= j < |rows[i]| && rows[i][j].reg == reg ==>
              rows[i][j].age <= rows[r.value.0][r.value.1].age
    ensures r.Some? ==> forall i, j :: 0 <= i < n && 0 <= j < |rows[i]| && rows[i][j].reg == reg &&
                                       Earlier(i, j, r.value.0, r.value.1) ==>
              rows[i][j].age < rows[r.value.0][r.value.1].age
    ensures r.None? ==> forall i, j :: 0 <= i < n && 0 <= j < |rows[i]| ==> !Stale(rows[i][j], reg)
  {
    if n == 0 then None
    else
      var before, here := OldestAt(rows, reg, n - 1), OldestInRow(rows[n - 1], reg, |rows[n - 1]|);
      if here.None? then before
      else if before.Some? && rows[before.value.0][before.value.1].age >= rows[n - 1][here.value].age then before
      else Some((n - 1, here.value))
  }

  ghost function OldestOf(rows: Rows, reg: nat): (r: Option<(nat, nat)>)
    ensures r.Some? ==> Oldest(rows, reg, r.value.0, r.value.1)
    ensures r.None? <==> NoStale(rows, reg)
  {
    OldestAt(rows, reg, |rows|)
  }

  lemma OneOldest(rows: Rows, reg: nat, c: nat, k: nat)
    requires Oldest(rows, reg, c, k)
    ensures OldestOf(rows, reg) == Some((c, k))
  {
    assert Stale(rows[c][k], reg);
    var (i, j) := OldestOf(rows, reg).value;
    assert rows[i][j].age == rows[c][k].age;
  }

  // ---- making room, pinning -------------------------------------------------------------------------

  /** How the eviction loop ends. */
  datatype Ending = Room | NothingStale | FreedNothing

  /** The eviction loop before a pin of `len` bytes: what is left, and why it ended. */
  ghost function Made(rows: Rows, reg: nat, cap: nat, len: nat): (r: (Rows, Ending))
    ensures |r.0| == |rows|
    ensures r.1.Room? <==> Bytes(r.0, reg) + len <= cap
    ensures r.1.NothingStale? ==> NoStale(r.0, reg)
    decreases Bytes(rows, reg)
  {
    if Bytes(rows, reg) + len <= cap then (rows, Room)
    else
      match OldestOf(rows, reg)
      case None => (rows, NothingStale)
      case Some(at) =>
        var (c, k) := at;
        var less := rows[c := Removed(rows[c], k)];
        DropBytes(rows, c, k);
        if rows[c][k].len == 0 then (less, FreedNothing) else Made(less, reg, cap, len)
  }

  /** Without zero-length entries the loop never ends on one. */
  lemma {:induction false} PositiveMakes(rows: Rows, reg: nat, cap: nat, len: nat)
    requires Positive(rows)
    ensures Positive(Made(rows, reg, cap, len).0) && !Made(rows, reg, cap, len).1.FreedNothing?
    decreases Bytes(rows, reg)
  {
    var at := OldestOf(rows, reg);
    if Bytes(rows, reg) + len > cap && at.Some? {
      var (c, k) := at.value;
      DropBytes(rows, c, k);
      DropPositive(rows, c, k);
      PositiveMakes(rows[c := Removed(rows[c], k)], reg, cap, len);
    }
  }

  /** The shrinking loop for low memory: hot down to three quarters of its cap, observed to nothing. */
  ghost function Shrunk(rows: Rows, reg: nat, cap: nat): (r: (Rows, Ending))
    ensures |r.0| == |rows|
    ensures r.1.Room? <==> Small(Bytes(r.0, reg), reg, cap)
    ensures r.1.NothingStale? ==> NoStale(r.0, reg)
    decreases Bytes(rows, reg)
  {
    if Small(Bytes(rows, reg), reg, cap) then (rows, Room)
    else
      match OldestOf(rows, reg)
      case None => (rows, NothingStale)
      case Some(at) =>
        var (c, k) := at;
        var less := rows[c := Removed(rows[c], k)];
        DropBytes(rows, c, k);
        if rows[c][k].len == 0 then (less, FreedNothing) else Shrunk(less, reg, cap)
  }

  predicate Small(bytes: nat, reg: nat, cap: nat) {
    bytes == 0 || (reg == 0 && bytes * 4 <= cap * 3)
  }

  /** Without zero-length entries the shrinking loop never ends on one. */
  lemma {:induction false} PositiveShrinks(rows: Rows, reg: nat, cap: nat)
    requires Positive(rows)
    ensures Positive(Shrunk(rows, reg, cap).0) && !Shrunk(rows, reg, cap).1.FreedNothing?
    decreases Bytes(rows, reg)
  {
    var at := OldestOf(rows, reg);
    if !Small(Bytes(rows, reg), reg, cap) && at.Some? {
      var (c, k) := at.value;
      DropBytes(rows, c, k);
      DropPositive(rows, c, k);
      PositiveShrinks(rows[c := Removed(rows[c], k)], reg, cap);
    }
  }

  lemma ShrunkNext(rows: Rows, reg: nat, cap: nat)
    requires !Small(Bytes(rows, reg), reg, cap)
    ensures match OldestOf(rows, reg)
            case None => Shrunk(rows, reg, cap) == (rows, NothingStale)
            case Some((c, k)) =>
              var less := rows[c := Removed(rows[c], k)];
              Shrunk(rows, reg, cap) == if rows[c][k].len == 0 then (less, FreedNothing) else Shrunk(less, reg, cap)
  {
  }

  /** One turn of the loop. */
  lemma MadeNext(rows: Rows, reg: nat, cap: nat, len: nat)
    requires Bytes(rows, reg) + len > cap
    ensures match OldestOf(rows, reg)
            case None => Made(rows, reg, cap, len) == (rows, NothingStale)
            case Some((c, k)) =>
              var less := rows[c := Removed(rows[c], k)];
              Made(rows, reg, cap, len) == if rows[c][k].len == 0 then (less, FreedNothing) else Made(less, reg, cap, len)
  {
  }

  /** A pin: room is made, and the range goes to the end of its row if there is. */
  ghost function Pinned(rows: Rows, reg: nat, cap: nat, c: nat, w: Range): (r: Rows)
    requires c < |rows|
    ensures |r| == |rows|
  {
    var (room, ending) := Made(rows, reg, cap, w.len);
    if ending.Room? then room[c := room[c] + [Pin(w.off, w.len, 0, reg)]] else room
  }

  // ---- a consumer's turn ----------------------------------------------------------------------------

  /** Where the range first stands in a row from `from` on. */
  function FirstAt(row: seq<Pin>, reg: nat, off: nat, from: nat): (r: Option<nat>)
    requires from <= |row|
    ensures r.Some? ==> from <= r.value < |row| && row[r.value].reg == reg && row[r.value].off == off
    ensures r.Some? ==> forall k :: from <= k < r.value ==> !(row[k].reg == reg && row[k].off == off)
    ensures r.None? ==> forall k :: from <= k < |row| ==> !(row[k].reg == reg && row[k].off == off)
    decreases |row| - from
  {
    if from == |row| then None
    else if row[from].reg == reg && row[from].off == off then Some(from)
    else FirstAt(row, reg, off, from + 1)
  }

  function Touched(row: seq<Pin>, reg: nat, off: nat): (r: seq<Pin>)
    ensures |r| == |row|
    ensures forall k :: 0 <= k < |row| ==> r[k] == row[k] || r[k] == row[k].(age := 0)
  {
    match FirstAt(row, reg, off, 0) case None => row case Some(k) => row[k := row[k].(age := 0)]
  }

  /** A row after all wanted ranges found in it were touched. */
  function MarkedRow(row: seq<Pin>, reg: nat, wants: seq<Range>): (r: seq<Pin>)
    ensures |r| == |row|
    ensures forall k :: 0 <= k < |row| ==> r[k] == row[k] || r[k] == row[k].(age := 0)
  {
    if wants == [] then row else Touched(MarkedRow(row, reg, wants[..|wants| - 1]), reg, wants[|wants| - 1].off)
  }

  lemma HeldAt(row: seq<Pin>, reg: nat, off: nat)
    ensures Held(row, reg, off) <==> FirstAt(row, reg, off, 0).Some?
  {
    if p :| p in row && p.reg == reg && p.off == off {
      var k :| 0 <= k < |row| && row[k] == p;
    }
    var r := FirstAt(row, reg, off, 0);
    if r.Some? {
      assert row[r.value] in row;
    }
  }

  /** Touching neither adds nor loses a range. */
  lemma SameHeld(row: seq<Pin>, row': seq<Pin>, reg: nat, off: nat)
    requires |row'| == |row| && forall k :: 0 <= k < |row| ==> row'[k] == row[k] || row'[k] == row[k].(age := 0)
    ensures Held(row', reg, off) <==> Held(row, reg, off)
  {
    HeldAt(row, reg, off);
    HeldAt(row', reg, off);
  }

  /** The first `n` wanted ranges: those that were in the row when the turn began are left, the others pinned. */
  ghost function Filled(rows: Rows, reg: nat, cap: nat, c: nat, wants: seq<Range>, row: seq<Pin>, n: nat): (r: Rows)
    requires c < |rows| && n <= |wants|
    ensures |r| == |rows|
  {
    if n == 0 then rows
    else
      var before := Filled(rows, reg, cap, c, wants, row, n - 1);
      if Held(row, reg, wants[n - 1].off) then before else Pinned(before, reg, cap, c, wants[n - 1])
  }

  function Marked(rows: Rows, reg: nat, c: nat, wants: seq<Range>): (r: Rows)
    requires c < |rows|
    ensures |r| == |rows|
  {
    rows[c := MarkedRow(rows[c], reg, wants)]
  }

  /** The table after consumer `c`'s turn. */
  ghost function Served(rows: Rows, reg: nat, cap: nat, c: nat, wants: seq<Range>): (r: Rows)
    requires c < |rows|
    ensures |r| == |rows|
  {
    Filled(Marked(rows, reg, c, wants), reg, cap, c, wants, rows[c], |wants|)
  }

  /** The table after the first `n` consumers' turns. */
  ghost function Issued(rows: Rows, reg: nat, cap: nat, want: seq<seq<Range>>, n: nat): (r: Rows)
    requires n <= |want| == |rows|
    ensures |r| == |rows|
  {
    if n == 0 then rows else Served(Issued(rows, reg, cap, want, n - 1), reg, cap, n - 1, want[n - 1])
  }

  // ---- when anything is evicted ------------------------------------------------------------------------

  /** So many bytes do not fit beside the bytes held, and an entry not yet touched is there. */
  ghost predicate Overflows(rows: Rows, reg: nat, cap: nat, len: nat) {
    Bytes(rows, reg) + len > cap && !NoStale(rows, reg)
  }

  /** One of the first `n` wanted ranges was missing when the turn began and overflows when it is pinned. */
  ghost predicate FillEvicts(rows: Rows, reg: nat, cap: nat, c: nat, wants: seq<Range>, row: seq<Pin>, n: nat)
    requires c < |rows| && n <= |wants|
  {
    n > 0 &&
    (FillEvicts(rows, reg, cap, c, wants, row, n - 1) ||
     (!Held(row, reg, wants[n - 1].off) && Overflows(Filled(rows, reg, cap, c, wants, row, n - 1), reg, cap, wants[n - 1].len)))
  }

  ghost predicate ServeEvicts(rows: Rows, reg: nat, cap: nat, c: nat, wants: seq<Range>)
    requires c < |rows|
  {
    FillEvicts(Marked(rows, reg, c, wants), reg, cap, c, wants, rows[c], |wants|)
  }

  /** Walking the first `n` consumers in order, some missing range overflows. */
  ghost predicate IssueEvicts(rows: Rows, reg: nat, cap: nat, want: seq<seq<Range>>, n: nat)
    requires n <= |want| == |rows|
  {
    n > 0 &&
    (IssueEvicts(rows, reg, cap, want, n - 1) ||
     ServeEvicts(Issued(rows, reg, cap, want, n - 1), reg, cap, n - 1, want[n - 1]))
  }

  /** Every wanted range is in its row already. */
  ghost predicate Steady(rows: Rows, reg: nat, want: seq<seq<Range>>)
    requires |want| == |rows|
  {
    forall c, i :: 0 <= c < |want| && 0 <= i < |want[c]| ==> Held(rows[c], reg, want[c][i].off)
  }

  lemma {:induction false} SteadyFill(rows: Rows, reg: nat, cap: nat, c: nat, wants: seq<Range>, row: seq<Pin>, n: nat)
    requires c < |rows| && n <= |wants| && forall i :: 0 <= i < |wants| ==> Held(row, reg, wants[i].off)
    ensures Filled(rows, reg, cap, c, wants, row, n) == rows && !FillEvicts(rows, reg, cap, c, wants, row, n)
  {
    if n > 0 {
      SteadyFill(rows, reg, cap, c, wants, row, n - 1);
    }
  }

  /** A step that wants what the table holds evicts nothing, however close the table is to its cap. */
  lemma {:induction false} SteadyStep(rows: Rows, reg: nat, cap: nat, want: seq<seq<Range>>, n: nat)
    requires n <= |want| == |rows| && Steady(rows, reg, want)
    ensures !IssueEvicts(rows, reg, cap, want, n)
    ensures forall c :: n <= c < |rows| ==> Issued(rows, reg, cap, want, n)[c] == rows[c]
  {
    if n > 0 {
      SteadyStep(rows, reg, cap, want, n - 1);
      var now := Issued(rows, reg, cap, want, n - 1);
      assert now[n - 1] == rows[n - 1];
      SteadyFill(Marked(now, reg, n - 1, want[n - 1]), reg, cap, n - 1, want[n - 1], now[n - 1], |want[n - 1]|);
    }
  }

  // ---- what one pin settles ----------------------------------------------------------------------------

  lemma PinSettles(rows: Rows, reg: nat, cap: nat, c: nat, w: Range)
    requires c < |rows| && Positive(rows) && w.len > 0
    ensures Positive(Pinned(rows, reg, cap, c, w)) && Settled(Pinned(rows, reg, cap, c, w), cap, c, reg, w)
  {
    PositiveMakes(rows, reg, cap, w.len);
    var room := Made(rows, reg, cap, w.len).0;
    PushKeeps(room, c, Pin(w.off, w.len, 0, reg));
  }
}
