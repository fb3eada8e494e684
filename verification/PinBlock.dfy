/**
 When the eviction and the shrinking loop of the pin table end on an entry that freed nothing, and when they
 leave a stale entry behind it: a range is then refused although something could be evicted.
 */
module PinBlock {
  import opened Common
  import opened PinRows
  import opened PinWalk
  import opened PinLoss

  /** How much of a region a loop tolerates: `len` bytes less than the cap, or what low memory leaves. */
  datatype Limit = Fit(cap: nat, len: nat) | Low(reg: nat, cap: nat)

  predicate Over(limit: Limit, bytes: nat) {
    match limit
    case Fit(cap, len) => bytes + len > cap
    case Low(reg, cap) => !Small(bytes, reg, cap)
  }

  /**
   A stale entry of no length that the loop comes to: the bytes eviction takes no sooner are still too many, and
   no other entry without length is taken sooner.
   */
  ghost predicate Blocks(rows: Rows, reg: nat, limit: Limit, c: nat, k: nat) {
    && c < |rows| && k < |rows[c]| && Stale(rows[c][k], reg) && rows[c][k].len == 0
    && Over(limit, Guard(rows, reg, c, k)) && Unblocked(rows, reg, c, k)
  }

  ghost predicate Blocked(rows: Rows, reg: nat, limit: Limit) {
    exists c, k :: Blocks(rows, reg, limit, c, k)
  }

  /** The entry at (i, j) is stale and taken after entry `k` of row `c`. */
  ghost predicate Behind(rows: Rows, reg: nat, c: nat, k: nat, i: nat, j: nat) {
    && c < |rows| && k < |rows[c]| && i < |rows| && j < |rows[i]| && (i, j) != (c, k)
    && Stale(rows[i][j], reg) && !Goes(rows[i][j], rows[c][k].age, Earlier(i, j, c, k))
  }

  /** An entry blocks, and another stale one is behind it. */
  ghost predicate BlockedBeside(rows: Rows, reg: nat, limit: Limit) {
    exists c, k, i, j :: Blocks(rows, reg, limit, c, k) && Behind(rows, reg, c, k, i, j)
  }

  // ---- one eviction ---------------------------------------------------------------------------------

  lemma GuardAtMost(rows: Rows, reg: nat, c: nat, k: nat)
    requires c < |rows| && k < |rows[c]|
    ensures Guard(rows, reg, c, k) <= Bytes(rows, reg)
  {
    GuardBytes(rows, reg, rows[c][k].age, c, k, |rows|);
    assert rows[..|rows|] == rows;
  }

  lemma NothingBlocks(rows: Rows, reg: nat, limit: Limit)
    requires !Over(limit, Bytes(rows, reg)) || NoStale(rows, reg)
    ensures !Blocked(rows, reg, limit)
  {
    forall c: nat, k: nat | c < |rows| && k < |rows[c]| ensures !Blocks(rows, reg, limit, c, k) {
      GuardAtMost(rows, reg, c, k);
    }
  }

  /** The oldest entry, of no length, blocks, and it is the only one. */
  lemma OldestBlocks(rows: Rows, reg: nat, limit: Limit, c: nat, k: nat, i: nat, j: nat)
    requires Oldest(rows, reg, i, j) && rows[i][j].len == 0 && Over(limit, Bytes(rows, reg))
    ensures Blocks(rows, reg, limit, i, j)
    ensures Blocks(rows, reg, limit, c, k) ==> (c, k) == (i, j)
  {
    OldestGuard(rows, reg, i, j);
    if Blocks(rows, reg, limit, c, k) && (c, k) != (i, j) {
      GuardStays(rows, reg, i, j, c, k);
    }
  }

  /** Evicting an entry with a length changes nothing for any other. */
  lemma BlocksAfter(rows: Rows, reg: nat, limit: Limit, i: nat, j: nat, c: nat, k: nat)
    requires Oldest(rows, reg, i, j) && rows[i][j].len > 0
    requires c < |rows| && k < |rows[c]| && Stale(rows[c][k], reg) && (i, j) != (c, k)
    ensures Blocks(rows[i := Removed(rows[i], j)], reg, limit, c, PlaceAfter(i, j, c, k)) <==> Blocks(rows, reg, limit, c, k)
  {
    GuardStays(rows, reg, i, j, c, k);
    UnblockedWithout(rows, reg, i, j, c, k);
  }

  /** Every entry of the smaller table was one of the larger. */
  lemma PlaceWas(rows: Rows, i: nat, j: nat, c: nat, k: nat)
    requires i < |rows| && j < |rows[i]| && c < |rows| && k < |rows[i := Removed(rows[i], j)][c]|
    ensures var k0 := PlaceBefore(i, j, c, k);
            && k0 < |rows[c]| && (i, j) != (c, k0) && PlaceAfter(i, j, c, k0) == k
            && rows[i := Removed(rows[i], j)][c][k] == rows[c][k0]
  {
  }

  lemma BlockedAfter(rows: Rows, reg: nat, limit: Limit, i: nat, j: nat)
    requires Oldest(rows, reg, i, j) && rows[i][j].len > 0
    ensures Blocked(rows[i := Removed(rows[i], j)], reg, limit) <==> Blocked(rows, reg, limit)
  {
    var less: Rows := rows[i := Removed(rows[i], j)];
    if c: nat, k: nat :| Blocks(rows, reg, limit, c, k) {
      BlocksAfter(rows, reg, limit, i, j, c, k);
    }
    if c: nat, k: nat :| Blocks(less, reg, limit, c, k) {
      PlaceWas(rows, i, j, c, k);
      BlocksAfter(rows, reg, limit, i, j, c, PlaceBefore(i, j, c, k));
    }
  }

  lemma BehindAfter(rows: Rows, reg: nat, i: nat, j: nat, c: nat, k: nat, a: nat, b: nat)
    requires i < |rows| && j < |rows[i]| && c < |rows| && k < |rows[c]| && a < |rows| && b < |rows[a]|
    requires (i, j) != (c, k) && (i, j) != (a, b)
    ensures Behind(rows[i := Removed(rows[i], j)], reg, c, PlaceAfter(i, j, c, k), a, PlaceAfter(i, j, a, b)) <==>
            Behind(rows, reg, c, k, a, b)
  {
  }

  lemma BesideAfter(rows: Rows, reg: nat, limit: Limit, i: nat, j: nat)
    requires Oldest(rows, reg, i, j) && rows[i][j].len > 0
    ensures BlockedBeside(rows[i := Removed(rows[i], j)], reg, limit) <==> BlockedBeside(rows, reg, limit)
  {
    var less: Rows := rows[i := Removed(rows[i], j)];
    if c: nat, k: nat, a: nat, b: nat :| Blocks(rows, reg, limit, c, k) && Behind(rows, reg, c, k, a, b) {
      GuardStays(rows, reg, i, j, c, k);
      BlocksAfter(rows, reg, limit, i, j, c, k);
      BehindAfter(rows, reg, i, j, c, k, a, b);
    }
    if c: nat, k: nat, a: nat, b: nat :| Blocks(less, reg, limit, c, k) && Behind(less, reg, c, k, a, b) {
      var k0, b0 := PlaceBefore(i, j, c, k), PlaceBefore(i, j, a, b);
      PlaceWas(rows, i, j, c, k);
      PlaceWas(rows, i, j, a, b);
      BlocksAfter(rows, reg, limit, i, j, c, k0);
      BehindAfter(rows, reg, i, j, c, k0, a, b0);
    }
  }

  /** When the oldest entry blocks, what is behind it is every other stale entry. */
  lemma OldestBeside(rows: Rows, reg: nat, limit: Limit, i: nat, j: nat)
    requires Oldest(rows, reg, i, j) && rows[i][j].len == 0 && Over(limit, Bytes(rows, reg))
    ensures !NoStale(rows[i := Removed(rows[i], j)], reg) <==> BlockedBeside(rows, reg, limit)
  {
    var less: Rows := rows[i := Removed(rows[i], j)];
    OldestBlocks(rows, reg, limit, i, j, i, j);
    if a: nat, b: nat :| a < |less| && b < |less[a]| && Stale(less[a][b], reg) {
      PlaceWas(rows, i, j, a, b);
      assert Behind(rows, reg, i, j, a, PlaceBefore(i, j, a, b));
    }
    if c: nat, k: nat, a: nat, b: nat :| Blocks(rows, reg, limit, c, k) && Behind(rows, reg, c, k, a, b) {
      OldestBlocks(rows, reg, limit, c, k, i, j);
      assert less[a][PlaceAfter(i, j, a, b)] == rows[a][b];
    }
  }

  // ---- the two loops -----------------------------------------------------------------------------------

  /** The eviction loop ends on an entry that freed nothing exactly when a stale entry of no length blocks. */
  lemma {:induction false} FreedNothingExactly(rows: Rows, reg: nat, cap: nat, len: nat)
    ensures Made(rows, reg, cap, len).1.FreedNothing? <==> Blocked(rows, reg, Fit(cap, len))
    decreases Bytes(rows, reg)
  {
    var at, limit := OldestOf(rows, reg), Fit(cap, len);
    if Bytes(rows, reg) + len <= cap || at.None? {
      NothingBlocks(rows, reg, limit);
    } else {
      var (i, j) := at.value;
      DropBytes(rows, i, j);
      if rows[i][j].len == 0 {
        OldestBlocks(rows, reg, limit, i, j, i, j);
      } else {
        BlockedAfter(rows, reg, limit, i, j);
        FreedNothingExactly(rows[i := Removed(rows[i], j)], reg, cap, len);
      }
    }
  }

  /** The range is refused and a stale entry left. */
  ghost predicate RefusedBeside(rows: Rows, reg: nat, cap: nat, len: nat) {
    !Made(rows, reg, cap, len).1.Room? && !NoStale(Made(rows, reg, cap, len).0, reg)
  }

  /** A range is refused beside a stale entry exactly when one of no length blocks and another stale one is behind it. */
  lemma {:induction false} RefusedBesideExactly(rows: Rows, reg: nat, cap: nat, len: nat)
    ensures RefusedBeside(rows, reg, cap, len) <==> BlockedBeside(rows, reg, Fit(cap, len))
    decreases Bytes(rows, reg)
  {
    var at, limit := OldestOf(rows, reg), Fit(cap, len);
    if Bytes(rows, reg) + len <= cap || at.None? {
      NothingBlocks(rows, reg, limit);
    } else {
      var (i, j) := at.value;
      DropBytes(rows, i, j);
      if rows[i][j].len == 0 {
        OldestBeside(rows, reg, limit, i, j);
      } else {
        BesideAfter(rows, reg, limit, i, j);
        RefusedBesideExactly(rows[i := Removed(rows[i], j)], reg, cap, len);
      }
    }
  }

  /** So does the shrinking loop. */
  lemma {:induction false} ShrunkNothingExactly(rows: Rows, reg: nat, cap: nat)
    ensures Shrunk(rows, reg, cap).1.FreedNothing? <==> Blocked(rows, reg, Low(reg, cap))
    decreases Bytes(rows, reg)
  {
    var at, limit := OldestOf(rows, reg), Low(reg, cap);
    if Small(Bytes(rows, reg), reg, cap) || at.None? {
      NothingBlocks(rows, reg, limit);
    } else {
      var (i, j) := at.value;
      DropBytes(rows, i, j);
      if rows[i][j].len == 0 {
        OldestBlocks(rows, reg, limit, i, j, i, j);
      } else {
        BlockedAfter(rows, reg, limit, i, j);
        ShrunkNothingExactly(rows[i := Removed(rows[i], j)], reg, cap);
      }
    }
  }

  /** The region stays too large with a stale entry left exactly when one of no length blocks and another is behind it. */
  lemma {:induction false} LeftTooLargeExactly(rows: Rows, reg: nat, cap: nat)
    ensures !Shrunk(rows, reg, cap).1.Room? && !NoStale(Shrunk(rows, reg, cap).0, reg) <==>
            BlockedBeside(rows, reg, Low(reg, cap))
    decreases Bytes(rows, reg)
  {
    var at, limit := OldestOf(rows, reg), Low(reg, cap);
    if Small(Bytes(rows, reg), reg, cap) || at.None? {
      NothingBlocks(rows, reg, limit);
    } else {
      var (i, j) := at.value;
      DropBytes(rows, i, j);
      if rows[i][j].len == 0 {
        OldestBeside(rows, reg, limit, i, j);
      } else {
        BesideAfter(rows, reg, limit, i, j);
        LeftTooLargeExactly(rows[i := Removed(rows[i], j)], reg, cap);
      }
    }
  }
}
