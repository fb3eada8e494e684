/** Lists of keys by recency of use, and what bounding their length does to them. */
module Recency {
  /** `order.removeAll { $0 == key }` */
  function Without<T(==)>(s: seq<T>, x: T): seq<T> {
    if s == [] then []
    else if s[|s| - 1] == x then Without(s[..|s| - 1], x)
    else Without(s[..|s| - 1], x) + [s[|s| - 1]]
  }

  /** Every key used, once, in the order of last use. */
  function Recent<T(==)>(uses: seq<T>): seq<T> {
    if uses == [] then []
    else Without(Recent(uses[..|uses| - 1]), uses[|uses| - 1]) + [uses[|uses| - 1]]
  }

  function Members<T(==)>(s: seq<T>): set<T> {
    set x | x in s
  }

  predicate Distinct<T(==)>(s: seq<T>) {
    s == [] || (s[|s| - 1] !in s[..|s| - 1] && Distinct(s[..|s| - 1]))
  }

  lemma {:induction false} DistinctAt<T>(s: seq<T>, i: nat, j: nat)
    requires Distinct(s) && i < j < |s|
    ensures s[i] != s[j]
  {
    if j < |s| - 1 {
      DistinctAt(s[..|s| - 1], i, j);
    } else {
      assert s[i] in s[..|s| - 1];
    }
  }

  /** Where `x` was last used. */
  function LastUse<T(==)>(uses: seq<T>, x: T): (r: nat)
    requires x in uses
    ensures r < |uses| && uses[r] == x
    ensures forall i :: r < i < |uses| ==> uses[i] != x
  {
    if uses[|uses| - 1] == x then |uses| - 1 else LastUse(uses[..|uses| - 1], x)
  }

  lemma {:induction false} WithoutIs<T>(s: seq<T>, x: T)
    requires Distinct(s)
    ensures Distinct(Without(s, x))
    ensures forall y :: y in Without(s, x) <==> y in s && y != x
    ensures x !in s ==> Without(s, x) == s
  {
    if s != [] {
      var front, last := s[..|s| - 1], s[|s| - 1];
      WithoutIs(front, x);
      assert s == front + [last];
      var kept := Without(front, x);
      assert last !in kept;
      assert (kept + [last])[..|kept|] == kept;
    }
  }

  lemma {:induction false} WithoutAt<T>(s: seq<T>, i: nat)
    requires Distinct(s) && i < |s|
    ensures Without(s, s[i]) == s[..i] + s[i + 1..]
  {
    var front, last := s[..|s| - 1], s[|s| - 1];
    if i == |s| - 1 {
      WithoutIs(front, s[i]);
    } else {
      DistinctAt(s, i, |s| - 1);
      WithoutAt(front, i);
      assert front[..i] + front[i + 1..] + [last] == s[..i] + s[i + 1..];
    }
  }

  /** Removing a key keeps the others in order. */
  lemma KeptPlaces<T>(s: seq<T>, x: T, i: nat, j: nat) returns (a: nat, b: nat)
    requires Distinct(s) && i < j < |Without(s, x)|
    ensures a < b < |s| && s[a] == Without(s, x)[i] && s[b] == Without(s, x)[j]
  {
    WithoutIs(s, x);
    if x in s {
      var p :| 0 <= p < |s| && s[p] == x;
      WithoutAt(s, p);
      var rest := s[..p] + s[p + 1..];
      a, b := if i < p then i else i + 1, if j < p then j else j + 1;
      assert s[a] == rest[i];
      assert s[b] == rest[j];
    } else {
      a, b := i, j;
    }
  }

  /** `Recent` lists exactly the keys used, once each. */
  lemma {:induction false} RecentMembers<T>(uses: seq<T>)
    ensures Distinct(Recent(uses))
    ensures forall y :: y in Recent(uses) <==> y in uses
  {
    if uses != [] {
      var front, last := uses[..|uses| - 1], uses[|uses| - 1];
      RecentMembers(front);
      WithoutIs(Recent(front), last);
      var kept := Without(Recent(front), last);
      assert (kept + [last])[..|kept|] == kept;
      assert uses == front + [last];
    }
  }

  /** `Recent` lists keys by ascending last use. */
  lemma {:induction false} RecentAscends<T>(uses: seq<T>, i: nat, j: nat)
    requires i < j < |Recent(uses)|
    ensures Recent(uses)[i] in uses && Recent(uses)[j] in uses
    ensures LastUse(uses, Recent(uses)[i]) < LastUse(uses, Recent(uses)[j])
  {
    var n := |uses| - 1;
    var front, last := uses[..n], uses[n];
    RecentMembers(uses);
    RecentMembers(front);
    var x, y := Recent(uses)[i], Recent(uses)[j];
    var kept := Without(Recent(front), last);
    assert Recent(uses) == kept + [last] && x == kept[i];
    assert x in Recent(uses) && y in Recent(uses);
    WithoutIs(Recent(front), last);
    assert x in kept;
    if j < |kept| {
      var a, b := KeptPlaces(Recent(front), last, i, j);
      RecentAscends(front, a, b);
      assert y == kept[j] && y in kept;
    } else {
      assert y == last && LastUse(uses, x) == LastUse(front, x);
    }
  }

  // ---- bounding the list ---------------------------------------------------------------------

  /** `kept` is the newest part of `dropped + kept` that a bound of `capacity` leaves. */
  predicate Bounded<T(==)>(dropped: seq<T>, kept: seq<T>, capacity: nat) {
    |kept| <= capacity && (dropped == [] || |kept| == capacity)
  }

  lemma {:induction false} WithoutJoined<T>(a: seq<T>, b: seq<T>, x: T)
    ensures Without(a + b, x) == Without(a, x) + Without(b, x)
  {
    if b == [] {
      assert a + b == a;
    } else {
      var front := b[..|b| - 1];
      WithoutJoined(a, front, x);
      assert (a + b)[..|a + b| - 1] == a + front;
    }
  }

  lemma {:induction false} WithoutAbsent<T>(s: seq<T>, x: T)
    requires x !in s
    ensures Without(s, x) == s
  {
    if s != [] {
      WithoutAbsent(s[..|s| - 1], x);
      assert s == s[..|s| - 1] + [s[|s| - 1]];
    }
  }

  lemma {:induction false} DistinctParts<T>(a: seq<T>, b: seq<T>)
    requires Distinct(a + b)
    ensures Distinct(a) && Distinct(b) && forall x :: x in a ==> x !in b
  {
    if b == [] {
      assert a + b == a;
    } else {
      var front, last := b[..|b| - 1], b[|b| - 1];
      assert (a + b)[..|a + b| - 1] == a + front;
      DistinctParts(a, front);
      assert b == front + [last];
    }
  }

  lemma RecentNext<T>(uses: seq<T>, key: T, dropped: seq<T>, kept: seq<T>)
    requires Recent(uses) == dropped + kept
    ensures Recent(uses + [key]) == Without(dropped, key) + (Without(kept, key) + [key])
    ensures Distinct(kept) && forall x :: x in dropped ==> x !in kept
  {
    assert (uses + [key])[..|uses|] == uses;
    WithoutJoined(dropped, kept, key);
    RecentMembers(uses);
    DistinctParts(dropped, kept);
    assert (Without(dropped, key) + Without(kept, key)) + [key] == Without(dropped, key) + (Without(kept, key) + [key]);
  }

  lemma MembersJoined<T>(a: seq<T>, b: seq<T>)
    ensures Members(a + b) == Members(a) + Members(b)
  {
  }

  lemma {:induction false} WithoutOne<T>(s: seq<T>, x: T)
    requires Distinct(s) && x in s
    ensures |Without(s, x)| + 1 == |s|
  {
    var front, last := s[..|s| - 1], s[|s| - 1];
    assert s == front + [last];
    if last == x {
      WithoutAbsent(front, x);
    } else {
      WithoutOne(front, x);
    }
  }

  lemma MovedToEnd<T>(s: seq<T>, x: T)
    requires Distinct(s)
    ensures Members(Without(s, x) + [x]) == Members(s) + {x}
  {
    WithoutIs(s, x);
    MembersJoined(Without(s, x), [x]);
    assert Members(Without(s, x)) == Members(s) - {x} && Members([x]) == {x};
  }

  lemma WithoutWhereAbsent<T>(dropped: seq<T>, kept: seq<T>, x: T)
    requires x in kept && forall y :: y in dropped ==> y !in kept
    ensures Without(dropped, x) == dropped
  {
    WithoutAbsent(dropped, x);
  }

  /** Using a kept key drops nothing. */
  lemma UseKept<T>(uses: seq<T>, key: T, dropped: seq<T>, kept: seq<T>, capacity: nat)
    requires Recent(uses) == dropped + kept && Bounded(dropped, kept, capacity) && key in kept
    ensures Recent(uses + [key]) == dropped + (Without(kept, key) + [key])
    ensures Bounded(dropped, Without(kept, key) + [key], capacity)
    ensures Members(Without(kept, key) + [key]) == Members(kept)
  {
    RecentNext(uses, key, dropped, kept);
    WithoutWhereAbsent(dropped, kept, key);
    WithoutOne(kept, key);
    MovedToEnd(kept, key);
    assert Members(kept) + {key} == Members(kept);
  }

  /** What a bound of `capacity` makes of a list one key too long, or of one that fits. */
  function Trimmed<T>(list: seq<T>, capacity: nat): seq<T> {
    if |list| > capacity then list[1..] else list
  }

  function TrimmedOff<T>(older: seq<T>, list: seq<T>, capacity: nat): seq<T>
    requires |list| > 0
  {
    if |list| > capacity then older + [list[0]] else older
  }

  lemma TrimSplits<T>(older: seq<T>, list: seq<T>, capacity: nat)
    requires |list| > 0
    ensures older + list == TrimmedOff(older, list, capacity) + Trimmed(list, capacity)
  {
  }

  lemma TrimMembers<T>(list: seq<T>, capacity: nat)
    requires Distinct(list) && |list| > 0
    ensures Members(Trimmed(list, capacity)) == Members(list) - if |list| > capacity then {list[0]} else {}
  {
    if |list| > capacity {
      assert list == [list[0]] + list[1..];
      DistinctParts([list[0]], list[1..]);
      MembersJoined([list[0]], list[1..]);
      assert Members([list[0]]) == {list[0]};
      assert list[0] in [list[0]];
    }
  }

  /** Using another key adds it at the end, and drops the oldest kept key if that is one too many. */
  lemma UseOther<T>(uses: seq<T>, key: T, dropped: seq<T>, kept: seq<T>, capacity: nat)
    requires Recent(uses) == dropped + kept && Bounded(dropped, kept, capacity) && key !in kept && capacity > 0
    ensures Without(kept, key) + [key] == kept + [key] && Distinct(kept + [key])
    ensures var off := TrimmedOff(Without(dropped, key), kept + [key], capacity);
            var rest := Trimmed(kept + [key], capacity);
            Recent(uses + [key]) == off + rest && Bounded(off, rest, capacity)
    ensures Members(kept + [key]) == Members(kept) + {key}
  {
    RecentNext(uses, key, dropped, kept);
    WithoutAbsent(kept, key);
    assert (kept + [key])[..|kept|] == kept;
    TrimSplits(Without(dropped, key), kept + [key], capacity);
    MembersJoined(kept, [key]);
    assert Members([key]) == {key};
  }

  /** A key is kept exactly when fewer than `capacity` keys stand behind it in the list. */
  lemma KeptPlace<T>(uses: seq<T>, dropped: seq<T>, kept: seq<T>, capacity: nat, i: nat)
    requires Recent(uses) == dropped + kept && Bounded(dropped, kept, capacity) && i < |Recent(uses)|
    ensures Recent(uses)[i] in kept <==> |Recent(uses)| - 1 - i < capacity
  {
    RecentMembers(uses);
    DistinctParts(dropped, kept);
    var x := Recent(uses)[i];
    if i < |dropped| {
      assert x == dropped[i];
    } else {
      assert x == kept[i - |dropped|];
    }
  }

  /** The last `capacity` distinct keys used. */
  function Kept<T(==)>(uses: seq<T>, capacity: nat): seq<T> {
    var all := Recent(uses);
    if |all| <= capacity then all else all[|all| - capacity..]
  }

  lemma BoundedIsKept<T>(uses: seq<T>, dropped: seq<T>, kept: seq<T>, capacity: nat)
    requires Recent(uses) == dropped + kept && Bounded(dropped, kept, capacity)
    ensures kept == Kept(uses, capacity)
  {
  }

  lemma {:induction false} DistinctSize<T>(s: seq<T>)
    requires Distinct(s)
    ensures |Members(s)| == |s|
  {
    if s != [] {
      var front := s[..|s| - 1];
      DistinctSize(front);
      assert s == front + [s[|s| - 1]];
      assert Members(s) == Members(front) + {s[|s| - 1]};
    }
  }

  /** The distinct keys used after the last use of `key`. */
  function UsedSince<T(==)>(uses: seq<T>, key: T): set<T>
    requires key in uses
  {
    Members(uses[LastUse(uses, key) + 1..])
  }

  lemma UsedLater<T>(uses: seq<T>, key: T, x: T)
    requires key in uses
    ensures x in UsedSince(uses, key) <==> x in uses && LastUse(uses, key) < LastUse(uses, x)
  {
    var l := LastUse(uses, key);
    if x in uses[l + 1..] {
      var i :| 0 <= i < |uses| - l - 1 && uses[l + 1..][i] == x;
      assert uses[l + 1 + i] == x;
    }
    if x in uses && l < LastUse(uses, x) {
      assert uses[l + 1..][LastUse(uses, x) - l - 1] == x;
    }
  }

  lemma RecentMember<T>(uses: seq<T>, x: T)
    requires x in Recent(uses)
    ensures x in uses
  {
    RecentMembers(uses);
  }

  lemma RecentUsed<T>(uses: seq<T>, i: nat)
    requires i < |Recent(uses)|
    ensures Recent(uses)[i] in uses
  {
    RecentMember(uses, Recent(uses)[i]);
  }

  lemma PlaceIsUse<T>(uses: seq<T>, i: nat, j: nat)
    requires i < |Recent(uses)| && j < |Recent(uses)|
    ensures Recent(uses)[i] in uses && Recent(uses)[j] in uses
    ensures i < j <==> LastUse(uses, Recent(uses)[i]) < LastUse(uses, Recent(uses)[j])
  {
    RecentUsed(uses, i);
    RecentUsed(uses, j);
    if i < j {
      RecentAscends(uses, i, j);
    }
    if j < i {
      RecentAscends(uses, j, i);
    }
  }

  lemma InTail<T>(s: seq<T>, n: nat, x: T)
    requires n <= |s|
    ensures x in s[n..] <==> exists j :: n <= j < |s| && s[j] == x
  {
    if x in s[n..] {
      var j :| 0 <= j < |s| - n && s[n..][j] == x;
      assert s[n + j] == x;
    }
    if j :| n <= j < |s| && s[j] == x {
      assert s[n..][j - n] == x;
    }
  }

  /** A key stands behind another in the list exactly when it was used after the other's last use. */
  lemma BehindIsSince<T>(uses: seq<T>, i: nat, x: T)
    requires i < |Recent(uses)|
    ensures Recent(uses)[i] in uses
    ensures x in UsedSince(uses, Recent(uses)[i]) <==> x in Recent(uses)[i + 1..]
  {
    var all := Recent(uses);
    RecentUsed(uses, i);
    RecentMembers(uses);
    UsedLater(uses, all[i], x);
    InTail(all, i + 1, x);
    if x in all {
      var j :| 0 <= j < |all| && all[j] == x;
      PlaceIsUse(uses, i, j);
      if k :| i + 1 <= k < |all| && all[k] == x {
        PlaceIsUse(uses, i, k);
      }
    }
  }

  /** As many keys were used since the last use of a key as stand behind it in the list. */
  lemma SinceSize<T>(uses: seq<T>, i: nat)
    requires i < |Recent(uses)|
    ensures Recent(uses)[i] in uses
    ensures |UsedSince(uses, Recent(uses)[i])| == |Recent(uses)| - 1 - i
  {
    var all := Recent(uses);
    RecentUsed(uses, i);
    RecentMembers(uses);
    var back := all[i + 1..];
    assert all == all[..i + 1] + back;
    DistinctParts(all[..i + 1], back);
    DistinctSize(back);
    forall x ensures x in UsedSince(uses, all[i]) <==> x in back {
      BehindIsSince(uses, i, x);
    }
    assert UsedSince(uses, all[i]) == Members(back);
  }

  /** A key is kept exactly when fewer than `capacity` other keys were used since its own last use. */
  lemma KeptExactly<T>(uses: seq<T>, capacity: nat, key: T)
    requires key in uses
    ensures key in Kept(uses, capacity) <==> |UsedSince(uses, key)| < capacity
    ensures key !in UsedSince(uses, key)
  {
    var all := Recent(uses);
    RecentMembers(uses);
    var i :| 0 <= i < |all| && all[i] == key;
    UsedLater(uses, key, key);
    SinceSize(uses, i);
    KeptAtPlace(uses, capacity, i);
  }

  lemma KeptAtPlace<T>(uses: seq<T>, capacity: nat, i: nat)
    requires i < |Recent(uses)|
    ensures Recent(uses)[i] in Kept(uses, capacity) <==> |Recent(uses)| - 1 - i < capacity
  {
    var all := Recent(uses);
    var n := if |all| <= capacity then 0 else |all| - capacity;
    assert all == all[..n] + all[n..];
    KeptPlace(uses, all[..n], all[n..], capacity, i);
  }

  /** The larger of two bounds keeps all that the smaller keeps. */
  lemma KeptGrows<T>(uses: seq<T>, capacity: nat, capacity': nat, key: T)
    requires capacity <= capacity' && key in Kept(uses, capacity)
    ensures key in Kept(uses, capacity')
  {
    var all := Recent(uses);
    if |all| > capacity' {
      assert all[|all| - capacity..] == all[|all| - capacity'..][capacity' - capacity..];
    }
  }
}
