/**
 When a range that is in the pin table is lost before its consumer's turn: exactly when a missing range of an
 earlier consumer does not fit beside it and all that eviction would take no sooner, and eviction gets as far.
 */
module PinLoss {
  import opened Common
  import opened PinRows
  import opened PinWalk

  predicate Matches(p: Pin, reg: nat, off: nat) {
    p.reg == reg && p.off == off
  }

  /** The entry of a range that eviction takes last, among the first `n` of a row: the youngest, the last of several. */
  function Last(row: seq<Pin>, reg: nat, off: nat, n: nat): (r: Option<nat>)
    requires n <= |row|
    ensures r.Some? ==> r.value < n && Matches(row[r.value], reg, off)
    ensures r.Some? ==> forall j :: 0 <= j < n && j != r.value && Matches(row[j], reg, off) ==> Sooner(row, j, r.value)
    ensures r.None? ==> forall j :: 0 <= j < n ==> !Matches(row[j], reg, off)
  {
    if n == 0 then None
    else
      var before := Last(row, reg, off, n - 1);
      if Matches(row[n - 1], reg, off) && (before.None? || row[n - 1].age <= row[before.value].age) then Some(n - 1)
      else before
  }

  /** In one row: older, or as old and first. */
  predicate Sooner(row: seq<Pin>, j: nat, k: nat)
    requires j < |row| && k < |row|
  {
    row[j].age > row[k].age || (row[j].age == row[k].age && j < k)
  }

  predicate IsLast(row: seq<Pin>, reg: nat, off: nat, k: nat) {
    && k < |row| && Matches(row[k], reg, off)
    && forall j :: 0 <= j < |row| && j != k && Matches(row[j], reg, off) ==> Sooner(row, j, k)
  }

  lemma OneLast(row: seq<Pin>, reg: nat, off: nat, k: nat)
    requires IsLast(row, reg, off, k)
    ensures Last(row, reg, off, |row|) == Some(k)
  {
    var r := Last(row, reg, off, |row|);
    assert Matches(row[k], reg, off);
  }

  lemma NoLast(row: seq<Pin>, reg: nat, off: nat)
    ensures Last(row, reg, off, |row|).None? <==> !Held(row, reg, off)
  {
    var r := Last(row, reg, off, |row|);
    if r.Some? {
      assert row[r.value] in row;
    }
    if p :| p in row && p.reg == reg && p.off == off {
      var k :| 0 <= k < |row| && row[k] == p;
      assert Matches(row[k], reg, off);
    }
  }

  // ---- what eviction takes no sooner -----------------------------------------------------------------

  /** Taken before an entry of age `age`: older, or as old where that counts as before. */
  predicate Goes(p: Pin, age: nat, tie: bool) {
    p.age > age || (p.age == age && tie)
  }

  /** Bytes of a row's entries in the region that do not go before an entry of that age. */
  function Stays(row: seq<Pin>, reg: nat, age: nat, tie: bool): nat {
    if row == [] then 0
    else
      var p := row[|row| - 1];
      Stays(row[..|row| - 1], reg, age, tie) + if p.reg == reg && !Goes(p, age, tie) then p.len else 0
  }

  /** The same for row `i`, against entry `k` of row `c`: ties go by place. */
  function RowGuard(row: seq<Pin>, reg: nat, age: nat, i: nat, c: nat, k: nat): nat
    requires i == c ==> k <= |row|
  {
    if i != c then Stays(row, reg, age, i < c)
    else Stays(row[..k], reg, age, true) + Stays(row[k..], reg, age, false)
  }

  function GuardUpTo(rows: Rows, reg: nat, age: nat, c: nat, k: nat, n: nat): nat
    requires n <= |rows| && (c < |rows| ==> k <= |rows[c]|)
  {
    if n == 0 then 0
    else GuardUpTo(rows, reg, age, c, k, n - 1) + RowGuard(rows[n - 1], reg, age, n - 1, c, k)
  }

  /** Bytes of the region that eviction takes no sooner than entry `k` of row `c`, itself included. */
  function Guard(rows: Rows, reg: nat, c: nat, k: nat): nat
    requires c < |rows| && k < |rows[c]|
  {
    GuardUpTo(rows, reg, rows[c][k].age, c, k, |rows|)
  }

  lemma {:induction false} StaysAtMost(row: seq<Pin>, reg: nat, age: nat, tie: bool)
    ensures Stays(row, reg, age, tie) <= RowBytes(row, reg)
    ensures (forall j :: 0 <= j < |row| && row[j].reg == reg ==> !Goes(row[j], age, tie)) ==>
              Stays(row, reg, age, tie) == RowBytes(row, reg)
  {
    if row != [] {
      StaysAtMost(row[..|row| - 1], reg, age, tie);
    }
  }

  lemma {:induction false} RowBytesSplit(row: seq<Pin>, reg: nat, k: nat)
    requires k <= |row|
    ensures RowBytes(row, reg) == RowBytes(row[..k], reg) + RowBytes(row[k..], reg)
  {
    if k == |row| {
      assert row[..k] == row && row[k..] == [];
    } else {
      var n := |row| - 1;
      RowBytesSplit(row[..n], reg, k);
      assert row[..n][..k] == row[..k] && row[..n][k..] == row[k..][..n - k];
    }
  }

  /** Nothing in row `i` goes before entry `k` of row `c`. */
  predicate NoneGoes(row: seq<Pin>, reg: nat, age: nat, i: nat, c: nat, k: nat) {
    forall j :: 0 <= j < |row| && row[j].reg == reg ==> !Goes(row[j], age, Earlier(i, j, c, k))
  }

  lemma RowGuardBytes(row: seq<Pin>, reg: nat, age: nat, i: nat, c: nat, k: nat)
    requires i == c ==> k <= |row|
    ensures RowGuard(row, reg, age, i, c, k) <= RowBytes(row, reg)
    ensures NoneGoes(row, reg, age, i, c, k) ==> RowGuard(row, reg, age, i, c, k) == RowBytes(row, reg)
  {
    if i != c {
      StaysAtMost(row, reg, age, i < c);
      if NoneGoes(row, reg, age, i, c, k) {
        assert forall j :: 0 <= j < |row| ==> Earlier(i, j, c, k) == (i < c);
      }
    } else {
      RowBytesSplit(row, reg, k);
      StaysAtMost(row[..k], reg, age, true);
      StaysAtMost(row[k..], reg, age, false);
      if NoneGoes(row, reg, age, i, c, k) {
        forall j | 0 <= j < k && row[..k][j].reg == reg ensures !Goes(row[..k][j], age, true) {
          assert row[j].reg == reg && Earlier(i, j, c, k);
        }
        forall j | 0 <= j < |row| - k && row[k..][j].reg == reg ensures !Goes(row[k..][j], age, false) {
          assert row[k + j].reg == reg && !Earlier(i, k + j, c, k);
        }
      }
    }
  }

  lemma {:induction false} GuardBytes(rows: Rows, reg: nat, age: nat, c: nat, k: nat, n: nat)
    requires n <= |rows| && (c < |rows| ==> k <= |rows[c]|)
    ensures GuardUpTo(rows, reg, age, c, k, n) <= Bytes(rows[..n], reg)
    ensures (forall i :: 0 <= i < n ==> NoneGoes(rows[i], reg, age, i, c, k)) ==>
              GuardUpTo(rows, reg, age, c, k, n) == Bytes(rows[..n], reg)
  {
    if n > 0 {
      GuardBytes(rows, reg, age, c, k, n - 1);
      RowGuardBytes(rows[n - 1], reg, age, n - 1, c, k);
      assert rows[..n][..n - 1] == rows[..n - 1];
    }
  }

  // ---- evicting another entry --------------------------------------------------------------------------

  lemma {:induction false} StaysWithout(row: seq<Pin>, reg: nat, age: nat, tie: bool, j: nat)
    requires j < |row| && Goes(row[j], age, tie)
    ensures Stays(Removed(row, j), reg, age, tie) == Stays(row, reg, age, tie)
  {
    var n := |row| - 1;
    if j == n {
      assert Removed(row, j) == row[..n];
    } else {
      assert Removed(row, j)[..n - 1] == Removed(row[..n], j);
      StaysWithout(row[..n], reg, age, tie, j);
    }
  }

  /** Where entry `k` of row `c` stands once entry `j` of row `i` is gone. */
  function PlaceAfter(i: nat, j: nat, c: nat, k: nat): nat {
    if i == c && j < k then k - 1 else k
  }

  lemma RowGuardWithout(row: seq<Pin>, reg: nat, age: nat, i: nat, j: nat, c: nat, k: nat)
    requires j < |row| && (i == c ==> k < |row| && j != k) && Goes(row[j], age, Earlier(i, j, c, k))
    ensures RowGuard(Removed(row, j), reg, age, i, c, PlaceAfter(i, j, c, k)) == RowGuard(row, reg, age, i, c, k)
  {
    var less := Removed(row, j);
    if i != c {
      StaysWithout(row, reg, age, i < c, j);
    } else if j < k {
      assert less[..k - 1] == Removed(row[..k], j) && less[k - 1..] == row[k..];
      StaysWithout(row[..k], reg, age, true, j);
    } else {
      assert less[..k] == row[..k] && less[k..] == Removed(row[k..], j - k);
      StaysWithout(row[k..], reg, age, false, j - k);
    }
  }

  lemma {:induction false} GuardChange(rows: Rows, reg: nat, age: nat, i: nat, row: seq<Pin>, c: nat, k: nat, k': nat, n: nat)
    requires i < |rows| && n <= |rows| && c < |rows| && k <= |rows[c]| && k' <= |rows[i := row][c]|
    requires i != c ==> k' == k
    requires RowGuard(row, reg, age, i, c, k') == RowGuard(rows[i], reg, age, i, c, k)
    ensures GuardUpTo(rows[i := row], reg, age, c, k', n) == GuardUpTo(rows, reg, age, c, k, n)
  {
    if n > 0 {
      GuardChange(rows, reg, age, i, row, c, k, k', n - 1);
    }
  }

  /** The last entry of a range, stale. */
  ghost predicate Alive(rows: Rows, reg: nat, off: nat, c: nat, k: nat) {
    c < |rows| && IsLast(rows[c], reg, off, k) && rows[c][k].age > 0
  }

  lemma LastWithout(row: seq<Pin>, reg: nat, off: nat, j: nat, k: nat)
    requires IsLast(row, reg, off, k) && j < |row| && j != k
    ensures var k' := if j < k then k - 1 else k;
            k' < |row| - 1 && Removed(row, j)[k'] == row[k] && IsLast(Removed(row, j), reg, off, k')
  {
    var less, k' := Removed(row, j), if j < k then k - 1 else k;
    forall m | 0 <= m < |less| && m != k' && Matches(less[m], reg, off) ensures Sooner(less, m, k') {
      var m0 := if m < j then m else m + 1;
      assert less[m] == row[m0] && Matches(row[m0], reg, off) && m0 != k;
    }
  }

  /** Evicting another entry that goes first leaves an entry, and what guards it, as they were. */
  lemma GuardStays(rows: Rows, reg: nat, i: nat, j: nat, c: nat, k: nat)
    requires c < |rows| && k < |rows[c]| && Stale(rows[c][k], reg) && Oldest(rows, reg, i, j) && (i, j) != (c, k)
    ensures var less, k' := rows[i := Removed(rows[i], j)], PlaceAfter(i, j, c, k);
            k' < |less[c]| && less[c][k'] == rows[c][k] && Guard(less, reg, c, k') == Guard(rows, reg, c, k)
    ensures Goes(rows[i][j], rows[c][k].age, Earlier(i, j, c, k))
  {
    var age := rows[c][k].age;
    assert rows[c][k].reg == reg;
    RowGuardWithout(rows[i], reg, age, i, j, c, k);
    GuardChange(rows, reg, age, i, Removed(rows[i], j), c, k, PlaceAfter(i, j, c, k), |rows|);
  }

  lemma EvictsOther(rows: Rows, reg: nat, off: nat, i: nat, j: nat, c: nat, k: nat)
    requires Alive(rows, reg, off, c, k) && Oldest(rows, reg, i, j) && (i, j) != (c, k)
    ensures var less, k' := rows[i := Removed(rows[i], j)], PlaceAfter(i, j, c, k);
            Alive(less, reg, off, c, k') && Guard(less, reg, c, k') == Guard(rows, reg, c, k)
  {
    GuardStays(rows, reg, i, j, c, k);
    if i == c {
      LastWithout(rows[c], reg, off, j, k);
    }
  }

  /** Nothing goes before the oldest. */
  lemma OldestGuard(rows: Rows, reg: nat, c: nat, k: nat)
    requires Oldest(rows, reg, c, k)
    ensures Guard(rows, reg, c, k) == Bytes(rows, reg)
  {
    forall i | 0 <= i < |rows| ensures NoneGoes(rows[i], reg, rows[c][k].age, i, c, k) {
    }
    GuardBytes(rows, reg, rows[c][k].age, c, k, |rows|);
    assert rows[..|rows|] == rows;
  }

  /** When it is the oldest itself, nothing goes first, and evicting it loses the range. */
  lemma EvictsIt(rows: Rows, reg: nat, off: nat, c: nat, k: nat)
    requires Alive(rows, reg, off, c, k) && Oldest(rows, reg, c, k)
    ensures Guard(rows, reg, c, k) == Bytes(rows, reg)
    ensures !Held(Removed(rows[c], k), reg, off)
  {
    OldestGuard(rows, reg, c, k);
    var less := Removed(rows[c], k);
    if p :| p in less && p.reg == reg && p.off == off {
      var m :| 0 <= m < |less| && less[m] == p;
      var m0 := if m < k then m else m + 1;
      assert rows[c][m0] == p && Matches(rows[c][m0], reg, off) && Sooner(rows[c], m0, k);
    }
  }

  // ---- the eviction loop, one pin, a turn ------------------------------------------------------------

  lemma FewerHeld(row: seq<Pin>, k: nat, reg: nat, off: nat)
    requires k < |row| && !Held(row, reg, off)
    ensures !Held(Removed(row, k), reg, off)
  {
    assert forall p :: p in Removed(row, k) ==> p in row;
  }

  /** The eviction loop never brings a range back. */
  lemma {:induction false} MadeStaysLost(rows: Rows, reg: nat, cap: nat, len: nat, c: nat, off: nat)
    requires c < |rows| && !Held(rows[c], reg, off)
    ensures !Held(Made(rows, reg, cap, len).0[c], reg, off)
    decreases Bytes(rows, reg)
  {
    var at := OldestOf(rows, reg);
    if Bytes(rows, reg) + len > cap && at.Some? {
      var (i, j) := at.value;
      DropBytes(rows, i, j);
      if i == c {
        FewerHeld(rows[c], j, reg, off);
      }
      if rows[i][j].len > 0 {
        MadeStaysLost(rows[i := Removed(rows[i], j)], reg, cap, len, c, off);
      }
    }
  }

  /** The range is in row `c`, and every entry for it is stale. */
  ghost predicate Here(rows: Rows, reg: nat, off: nat, c: nat) {
    exists k :: Alive(rows, reg, off, c, k)
  }

  /** No entry of zero length, which would end the eviction loop, is taken sooner. */
  ghost predicate Unblocked(rows: Rows, reg: nat, c: nat, k: nat)
    requires c < |rows| && k < |rows[c]|
  {
    forall i, j | 0 <= i < |rows| && 0 <= j < |rows[i]| && rows[i][j].reg == reg &&
                  Goes(rows[i][j], rows[c][k].age, Earlier(i, j, c, k)) :: rows[i][j].len > 0
  }

  /** Where entry `b` of row `a` was before entry `j` of row `i` went. */
  function PlaceBefore(i: nat, j: nat, a: nat, b: nat): nat {
    if i == a && b >= j then b + 1 else b
  }

  lemma UnblockedWithout(rows: Rows, reg: nat, i: nat, j: nat, c: nat, k: nat)
    requires i < |rows| && j < |rows[i]| && rows[i][j].len > 0 && c < |rows| && k < |rows[c]| && (i, j) != (c, k)
    ensures Unblocked(rows[i := Removed(rows[i], j)], reg, c, PlaceAfter(i, j, c, k)) <==> Unblocked(rows, reg, c, k)
  {
    var less: Rows, k' := rows[i := Removed(rows[i], j)], PlaceAfter(i, j, c, k);
    if Unblocked(rows, reg, c, k) {
      forall a, b | 0 <= a < |less| && 0 <= b < |less[a]| && less[a][b].reg == reg &&
                    Goes(less[a][b], less[c][k'].age, Earlier(a, b, c, k'))
        ensures less[a][b].len > 0
      {
        assert less[a][b] == rows[a][PlaceBefore(i, j, a, b)];
      }
    } else {
      var a, b :| 0 <= a < |rows| && 0 <= b < |rows[a]| && rows[a][b].reg == reg &&
                  Goes(rows[a][b], rows[c][k].age, Earlier(a, b, c, k)) && rows[a][b].len == 0;
      assert less[a][PlaceAfter(i, j, a, b)] == rows[a][b];
    }
  }

  lemma OldestUnblocked(rows: Rows, reg: nat, c: nat, k: nat)
    requires Oldest(rows, reg, c, k)
    ensures Unblocked(rows, reg, c, k)
  {
  }

  /** The range does not fit beside what guards it, and eviction gets as far. */
  ghost predicate GivesWay(rows: Rows, reg: nat, cap: nat, len: nat, c: nat, k: nat)
    requires c < |rows| && k < |rows[c]|
  {
    Guard(rows, reg, c, k) + len > cap && Unblocked(rows, reg, c, k)
  }

  /** The eviction loop loses the range exactly when it gives way. */
  lemma {:induction false} MadeLoses(rows: Rows, reg: nat, cap: nat, len: nat, off: nat, c: nat, k: nat)
    requires Alive(rows, reg, off, c, k)
    ensures !GivesWay(rows, reg, cap, len, c, k) ==> Here(Made(rows, reg, cap, len).0, reg, off, c)
    ensures GivesWay(rows, reg, cap, len, c, k) ==> !Held(Made(rows, reg, cap, len).0[c], reg, off)
    decreases Bytes(rows, reg)
  {
    if Bytes(rows, reg) + len <= cap {
      GuardBytes(rows, reg, rows[c][k].age, c, k, |rows|);
      assert rows[..|rows|] == rows;
    } else {
      assert Stale(rows[c][k], reg);
      var (i, j) := OldestOf(rows, reg).value;
      var less := rows[i := Removed(rows[i], j)];
      DropBytes(rows, i, j);
      if (i, j) == (c, k) {
        EvictsIt(rows, reg, off, c, k);
        OldestUnblocked(rows, reg, c, k);
        MadeStaysLost(less, reg, cap, len, c, off);
      } else {
        EvictsOther(rows, reg, off, i, j, c, k);
        if rows[i][j].len > 0 {
          UnblockedWithout(rows, reg, i, j, c, k);
          MadeLoses(less, reg, cap, len, off, c, PlaceAfter(i, j, c, k));
        } else {
          assert Goes(rows[i][j], rows[c][k].age, Earlier(i, j, c, k));
          assert Alive(less, reg, off, c, PlaceAfter(i, j, c, k));
        }
      }
    }
  }

  /**
   The range does not fit beside the held range `off` of consumer `c` and what eviction takes no sooner, and
   nothing ends the eviction loop before.
   */
  ghost predicate Squeezes(rows: Rows, reg: nat, cap: nat, w: Range, c: nat, off: nat) {
    c < |rows| &&
    match Last(rows[c], reg, off, |rows[c]|)
    case None => false
    case Some(k) => GivesWay(rows, reg, cap, w.len, c, k)
  }

  /** What is known of the range before and after: here, or lost for good. */
  ghost predicate Decided(before: Rows, after: Rows, reg: nat, off: nat, c: nat, loses: bool)
    requires c < |before| == |after|
  {
    && (!Held(before[c], reg, off) ==> !Held(after[c], reg, off) && !loses)
    && (Here(before, reg, off, c) ==> if loses then !Held(after[c], reg, off) else Here(after, reg, off, c))
  }

  lemma PinDecides(rows: Rows, reg: nat, cap: nat, i: nat, w: Range, c: nat, off: nat)
    requires i < |rows| && c < |rows| && i != c
    requires Here(rows, reg, off, c) || !Held(rows[c], reg, off)
    ensures Decided(rows, Pinned(rows, reg, cap, i, w), reg, off, c, Squeezes(rows, reg, cap, w, c, off))
  {
    var (room, ending) := Made(rows, reg, cap, w.len);
    NoLast(rows[c], reg, off);
    if k :| Alive(rows, reg, off, c, k) {
      OneLast(rows[c], reg, off, k);
      MadeLoses(rows, reg, cap, w.len, off, c, k);
      if k' :| Alive(room, reg, off, c, k') {
        assert Alive(Pinned(rows, reg, cap, i, w), reg, off, c, k');
      }
    } else {
      MadeStaysLost(rows, reg, cap, w.len, c, off);
    }
  }

  lemma HereHeld(rows: Rows, reg: nat, off: nat, c: nat)
    requires Here(rows, reg, off, c)
    ensures c < |rows| && Held(rows[c], reg, off)
  {
    var k: nat :| Alive(rows, reg, off, c, k);
    assert rows[c][k] in rows[c];
  }

  lemma DecidedBoth(a: Rows, b: Rows, d: Rows, reg: nat, off: nat, c: nat, first: bool, second: bool)
    requires c < |a| == |b| == |d| && Decided(a, b, reg, off, c, first) && Decided(b, d, reg, off, c, second)
    ensures Decided(a, d, reg, off, c, first || second)
  {
  }

  // ---- over the demand -----------------------------------------------------------------------------------

  /** Among the first `n` wanted ranges of consumer `i`'s turn a missing one squeezes the range out. */
  ghost predicate FillLoses(rows: Rows, reg: nat, cap: nat, i: nat, wants: seq<Range>, row: seq<Pin>, n: nat, c: nat, off: nat)
    requires i < |rows| && n <= |wants|
  {
    n > 0 &&
    (FillLoses(rows, reg, cap, i, wants, row, n - 1, c, off) ||
     (!Held(row, reg, wants[n - 1].off) &&
      Squeezes(Filled(rows, reg, cap, i, wants, row, n - 1), reg, cap, wants[n - 1], c, off)))
  }

  ghost predicate ServeLoses(rows: Rows, reg: nat, cap: nat, i: nat, wants: seq<Range>, c: nat, off: nat)
    requires i < |rows|
  {
    FillLoses(Marked(rows, reg, i, wants), reg, cap, i, wants, rows[i], |wants|, c, off)
  }

  /** Walking the first `n` consumers in order, a missing range squeezes the range out. */
  ghost predicate IssueLoses(rows: Rows, reg: nat, cap: nat, want: seq<seq<Range>>, n: nat, c: nat, off: nat)
    requires n <= |want| == |rows|
  {
    n > 0 &&
    (IssueLoses(rows, reg, cap, want, n - 1, c, off) ||
     ServeLoses(Issued(rows, reg, cap, want, n - 1), reg, cap, n - 1, want[n - 1], c, off))
  }

  lemma DecidedNow(rows: Rows, reg: nat, off: nat, c: nat)
    requires c < |rows|
    ensures Decided(rows, rows, reg, off, c, false)
  {
  }

  lemma {:induction false} FillDecides(rows: Rows, reg: nat, cap: nat, i: nat, wants: seq<Range>, row: seq<Pin>, n: nat,
                                       c: nat, off: nat)
    requires i < |rows| && c < |rows| && i != c && n <= |wants|
    requires Here(rows, reg, off, c) || !Held(rows[c], reg, off)
    ensures Decided(rows, Filled(rows, reg, cap, i, wants, row, n), reg, off, c,
                    FillLoses(rows, reg, cap, i, wants, row, n, c, off))
  {
    if n == 0 {
      DecidedNow(rows, reg, off, c);
    } else {
      FillDecides(rows, reg, cap, i, wants, row, n - 1, c, off);
      var now := Filled(rows, reg, cap, i, wants, row, n - 1);
      if !Held(row, reg, wants[n - 1].off) {
        PinDecides(now, reg, cap, i, wants[n - 1], c, off);
        DecidedBoth(rows, now, Pinned(now, reg, cap, i, wants[n - 1]), reg, off, c,
                    FillLoses(rows, reg, cap, i, wants, row, n - 1, c, off),
                    Squeezes(now, reg, cap, wants[n - 1], c, off));
      }
    }
  }

  lemma MarkedDecides(rows: Rows, reg: nat, i: nat, wants: seq<Range>, c: nat, off: nat)
    requires i < |rows| && c < |rows| && i != c
    ensures Decided(rows, Marked(rows, reg, i, wants), reg, off, c, false)
  {
    var marked := Marked(rows, reg, i, wants);
    if k :| Alive(rows, reg, off, c, k) {
      assert Alive(marked, reg, off, c, k);
    }
  }

  lemma ServeDecides(rows: Rows, reg: nat, cap: nat, i: nat, wants: seq<Range>, c: nat, off: nat)
    requires i < |rows| && c < |rows| && i != c
    requires Here(rows, reg, off, c) || !Held(rows[c], reg, off)
    ensures Decided(rows, Served(rows, reg, cap, i, wants), reg, off, c, ServeLoses(rows, reg, cap, i, wants, c, off))
  {
    var marked := Marked(rows, reg, i, wants);
    MarkedDecides(rows, reg, i, wants, c, off);
    FillDecides(marked, reg, cap, i, wants, rows[i], |wants|, c, off);
    DecidedBoth(rows, marked, Served(rows, reg, cap, i, wants), reg, off, c, false,
                ServeLoses(rows, reg, cap, i, wants, c, off));
  }

  lemma IssueNext(rows: Rows, reg: nat, cap: nat, want: seq<seq<Range>>, n: nat, c: nat, off: nat)
    requires 0 < n <= |want| == |rows|
    ensures Issued(rows, reg, cap, want, n) == Served(Issued(rows, reg, cap, want, n - 1), reg, cap, n - 1, want[n - 1])
    ensures IssueLoses(rows, reg, cap, want, n, c, off) ==
            (IssueLoses(rows, reg, cap, want, n - 1, c, off) ||
             ServeLoses(Issued(rows, reg, cap, want, n - 1), reg, cap, n - 1, want[n - 1], c, off))
  {
  }

  /** One more turn, to `next`, after what is decided so far. */
  lemma TurnDecides(rows: Rows, now: Rows, next: Rows, reg: nat, cap: nat, i: nat, wants: seq<Range>, c: nat, off: nat,
                    first: bool, both: bool)
    requires i < |rows| == |now| && c < |rows| && i != c
    requires Here(rows, reg, off, c) || !Held(rows[c], reg, off)
    requires Decided(rows, now, reg, off, c, first)
    requires next == Served(now, reg, cap, i, wants) && both == (first || ServeLoses(now, reg, cap, i, wants, c, off))
    ensures Decided(rows, next, reg, off, c, both)
  {
    ServeDecides(now, reg, cap, i, wants, c, off);
    DecidedBoth(rows, now, next, reg, off, c, first, ServeLoses(now, reg, cap, i, wants, c, off));
  }

  /** What is decided after the first `n - 1` turns is decided after one more. */
  lemma IssueStep(rows: Rows, reg: nat, cap: nat, want: seq<seq<Range>>, n: nat, c: nat, off: nat)
    requires 0 < n <= c < |want| == |rows|
    requires Here(rows, reg, off, c) || !Held(rows[c], reg, off)
    requires Decided(rows, Issued(rows, reg, cap, want, n - 1), reg, off, c, IssueLoses(rows, reg, cap, want, n - 1, c, off))
    ensures Decided(rows, Issued(rows, reg, cap, want, n), reg, off, c, IssueLoses(rows, reg, cap, want, n, c, off))
  {
    IssueNext(rows, reg, cap, want, n, c, off);
    TurnDecides(rows, Issued(rows, reg, cap, want, n - 1), Issued(rows, reg, cap, want, n), reg, cap, n - 1, want[n - 1],
                c, off, IssueLoses(rows, reg, cap, want, n - 1, c, off), IssueLoses(rows, reg, cap, want, n, c, off));
  }

  lemma {:induction false} IssueDecides(rows: Rows, reg: nat, cap: nat, want: seq<seq<Range>>, n: nat, c: nat, off: nat)
    requires n <= c < |want| == |rows|
    requires Here(rows, reg, off, c) || !Held(rows[c], reg, off)
    ensures Decided(rows, Issued(rows, reg, cap, want, n), reg, off, c, IssueLoses(rows, reg, cap, want, n, c, off))
  {
    if n == 0 {
      DecidedNow(rows, reg, off, c);
    } else {
      IssueDecides(rows, reg, cap, want, n - 1, c, off);
      IssueStep(rows, reg, cap, want, n, c, off);
    }
  }

  lemma LastHere(rows: Rows, reg: nat, off: nat, c: nat)
    requires c < |rows| && Held(rows[c], reg, off)
    requires forall k :: 0 <= k < |rows[c]| ==> rows[c][k].age > 0
    ensures Here(rows, reg, off, c)
  {
    NoLast(rows[c], reg, off);
    var k := Last(rows[c], reg, off, |rows[c]|).value;
    assert IsLast(rows[c], reg, off, k);
    assert Alive(rows, reg, off, c, k);
  }

  /**
   A range in the table is lost before its consumer's turn exactly when, walking the consumers before it in
   order, some missing range does not fit beside it and the entries eviction takes no sooner, and no entry of
   zero length ends the eviction before.
   */
  lemma LostExactly(rows: Rows, reg: nat, cap: nat, want: seq<seq<Range>>, c: nat, off: nat)
    requires c < |want| == |rows| && Held(rows[c], reg, off)
    requires forall k :: 0 <= k < |rows[c]| ==> rows[c][k].age > 0
    ensures !Held(Issued(rows, reg, cap, want, c)[c], reg, off) <==> IssueLoses(rows, reg, cap, want, c, c, off)
  {
    LastHere(rows, reg, off, c);
    IssueDecides(rows, reg, cap, want, c, c, off);
    if !IssueLoses(rows, reg, cap, want, c, c, off) {
      HereHeld(Issued(rows, reg, cap, want, c), reg, off, c);
    }
  }
}
