/**
 The 35B expert loader: `load`, `stack`, `loadFullLayer`, `stackedPart` of
 ios/Sources/Edge0MLX/Edge035B/ExpertLoader.swift, and the union map of `moe` in
 ios/Sources/Edge0MLX/Edge035B/Edge0Model35B.swift that says which row of the loaded pool each routed
 pair reads.
 */
module ExpertLoader {
  import opened Common
  import opened Indexing
  import opened ExpertFiles

  // ---- which row a pair reads -----------------------------------------------------------------

  predicate Unique(s: seq<nat>) {
    forall i, j :: 0 <= i < j < |s| ==> s[i] != s[j]
  }

  /** Distinct ids in the order they first appear. */
  function FirstSeen(ids: seq<nat>): (r: seq<nat>)
    ensures forall id :: id in r <==> id in ids
    ensures Unique(r)
  {
    if ids == [] then []
    else
      var front, last := FirstSeen(ids[..|ids| - 1]), ids[|ids| - 1];
      assert ids == ids[..|ids| - 1] + [last];
      if last in front then front else front + [last]
  }

  /** `rowOf` and `union` of `moe`, and the row of every pair. */
  method UnionRows(ids: seq<nat>) returns (union: seq<nat>, rows: seq<nat>)
    ensures union == FirstSeen(ids) && |rows| == |ids|
    ensures forall i :: 0 <= i < |ids| ==> rows[i] < |union| && union[rows[i]] == ids[i]
  {
    var rowOf: map<nat, nat> := map[];
    union := [];
    for i := 0 to |ids|
      invariant union == FirstSeen(ids[..i])
      invariant forall id :: id in rowOf <==> id in union
      invariant forall id :: id in rowOf ==> rowOf[id] < |union| && union[rowOf[id]] == id
    {
      assert ids[..i + 1][..i] == ids[..i];
      if ids[i] !in rowOf {
        rowOf := rowOf[ids[i] := |union|];
        union := union + [ids[i]];
      }
    }
    assert ids[..|ids|] == ids;
    assert forall i :: 0 <= i < |ids| ==> ids[i] in union;
    rows := seq(|ids|, i requires 0 <= i < |ids| => rowOf[ids[i]]);
  }

  lemma {:induction false} FirstSeenUnique(ids: seq<nat>)
    requires Unique(ids)
    ensures FirstSeen(ids) == ids
  {
    if ids != [] {
      var front := ids[..|ids| - 1];
      FirstSeenUnique(front);
      assert ids == front + [ids[|ids| - 1]];
    }
  }

  /** For distinct ids, one token's, the rows are 0, 1, 2, ... in order. */
  lemma RowsInOrder(ids: seq<nat>, union: seq<nat>, rows: seq<nat>, i: nat)
    requires Unique(ids) && union == FirstSeen(ids) && |rows| == |ids| && i < |ids|
    requires forall j :: 0 <= j < |ids| ==> rows[j] < |union| && union[rows[j]] == ids[j]
    ensures rows[i] == i
  {
    FirstSeenUnique(ids);
    assert ids[rows[i]] == ids[i];
  }

  // ---- the loader -----------------------------------------------------------------------------------

  /** One tensor of the pool: a row of bytes for each loaded expert. */
  type Rows = seq<Bytes>

  /** Row `i` of every tensor is that part of the `i`th chosen expert. */
  ghost predicate PoolOf(pool: seq<Rows>, t: Stacked, chosen: seq<nat>)
    requires ValidStacked(t)
  {
    && |pool| == PARTS
    && (forall p :: 0 <= p < PARTS ==> |pool[p]| == |chosen|)
    && (forall i :: 0 <= i < |chosen| ==> chosen[i] < EXPERTS)
    && (forall p, i :: 0 <= p < PARTS && 0 <= i < |chosen| ==> pool[p][i] == Slice(t, p, chosen[i]))
  }

  lemma CutOff(file: Bytes, whole: Bytes, at: nat, n: nat)
    requires file <= whole && at + n <= |file|
    ensures file[at..at + n] == whole[at..at + n]
  {
  }

  /** The expert's block is in the file, and the reads deliver it. */
  ghost predicate Readable(file: Bytes, expert: nat, answers: Answers) {
    expert * BLOCK + BLOCK <= |file| && Delivers(answers, BLOCK)
  }

  ghost predicate AllReadable(file: Bytes, chosen: seq<nat>, answers: nat -> Answers, n: nat)
    requires n <= |chosen|
  {
    forall i :: 0 <= i < n ==> Readable(file, chosen[i], answers(i))
  }

  /** What a load needs: some experts but no more than slots, all of the layer, all readable. */
  ghost predicate Loadable(slots: nat, file: Bytes, chosen: seq<nat>, answers: nat -> Answers) {
    && 0 < |chosen| <= slots && (forall i :: 0 <= i < |chosen| ==> chosen[i] < EXPERTS)
    && AllReadable(file, chosen, answers, |chosen|)
  }

  class Loader {
    const slots: nat

    /** Block-sized staging buffers, as many as any load has needed so far. */
    var buffers: seq<array<byte>>

    constructor (slots: nat)
      ensures this.slots == slots && buffers == [] && Valid()
    {
      this.slots, buffers := slots, [];
    }

    ghost predicate Valid()
      reads this
    {
      && |buffers| <= slots
      && (forall i :: 0 <= i < |buffers| ==> buffers[i].Length == BLOCK)
      && (forall i, j :: 0 <= i < j < |buffers| ==> buffers[i] != buffers[j])
    }

    ghost function Staging(): set<object>
      reads this
    {
      set i | 0 <= i < |buffers| :: buffers[i]
    }

    /** Grow the buffers to `count`; those there already stay. */
    method Reserve(count: nat)
      requires Valid() && count <= slots
      modifies this
      ensures Valid() && |buffers| >= count && fresh(Staging() - old(Staging()))
      ensures |buffers| >= |old(buffers)| && buffers[..|old(buffers)|] == old(buffers)
    {
      while |buffers| < count
        invariant Valid() && |buffers| >= |old(buffers)| && buffers[..|old(buffers)|] == old(buffers)
        invariant fresh(Staging() - old(Staging()))
      {
        var buffer := new byte[BLOCK](i => 0);
        buffers := buffers + [buffer];
      }
    }

    /** Read the block of one expert into one buffer, leaving the other buffers alone. */
    method ReadBlock(file: Bytes, expert: nat, slot: nat, answers: Answers) returns (ok: bool)
      requires Valid() && slot < |buffers|
      modifies buffers[slot]
      ensures ok ==> expert * BLOCK + BLOCK <= |file|
      ensures ok ==> buffers[slot][..] == file[expert * BLOCK..expert * BLOCK + BLOCK]
      ensures ok <==> Readable(file, expert, answers)
    {
      ok := ReadFully(file, expert * BLOCK, BLOCK, buffers[slot], answers);
    }

    /** The buffers `0..n` hold the blocks of the first `n` chosen experts. */
    ghost predicate Filled(file: Bytes, chosen: seq<nat>, n: nat)
      requires Valid() && n <= |chosen| <= |buffers|
      reads this, Staging()
    {
      forall i :: 0 <= i < n ==>
        chosen[i] * BLOCK + BLOCK <= |file| &&
        buffers[i][..] == file[chosen[i] * BLOCK..chosen[i] * BLOCK + BLOCK]
    }

    /** All reads of a load; which buffer is read when does not matter, no two being the same. */
    method ReadAll(file: Bytes, chosen: seq<nat>, answers: nat -> Answers) returns (ok: bool)
      requires Valid() && |chosen| <= |buffers|
      modifies Staging()
      ensures ok ==> Filled(file, chosen, |chosen|)
      ensures ok <==> AllReadable(file, chosen, answers, |chosen|)
    {
      ok := true;
      for slot := 0 to |chosen|
        invariant ok ==> Filled(file, chosen, slot)
        invariant ok <==> AllReadable(file, chosen, answers, slot)
      {
        var read := ReadBlock(file, chosen[slot], slot, answers(slot));
        ok := ok && read;
      }
    }

    /** `stack`: one part of every staged block. */
    method StackPart(file: Bytes, chosen: seq<nat>, p: nat) returns (rows: Rows)
      requires Valid() && |chosen| <= |buffers| && p < PARTS && Filled(file, chosen, |chosen|)
      ensures |rows| == |chosen|
      ensures PartOffset(p) + PartBytes(p) <= BLOCK
      ensures forall i :: 0 <= i < |chosen| ==>
                var at := chosen[i] * BLOCK + PartOffset(p);
                at + PartBytes(p) <= |file| && rows[i] == file[at..at + PartBytes(p)]
    {
      BlockIsParts();
      PartsFit(p, PARTS);
      rows := [];
      for i := 0 to |chosen|
        invariant |rows| == i
        invariant forall k :: 0 <= k < i ==>
                    var at := chosen[k] * BLOCK + PartOffset(p);
                    at + PartBytes(p) <= |file| && rows[k] == file[at..at + PartBytes(p)]
      {
        Inside(file, chosen[i] * BLOCK, BLOCK, PartOffset(p), PartBytes(p));
        assert buffers[i][PartOffset(p)..PartOffset(p) + PartBytes(p)] ==
               buffers[i][..][PartOffset(p)..PartOffset(p) + PartBytes(p)];
        rows := rows + [buffers[i][PartOffset(p)..PartOffset(p) + PartBytes(p)]];
      }
    }

    /** The nine stacked tensors, once every block is staged. */
    method BuildPool(t: Stacked, file: Bytes, chosen: seq<nat>) returns (pool: seq<Rows>)
      requires Valid() && |chosen| <= |buffers| && Filled(file, chosen, |chosen|)
      requires ValidStacked(t) && file <= Layer(t, EXPERTS) && forall i :: 0 <= i < |chosen| ==> chosen[i] < EXPERTS
      ensures PoolOf(pool, t, chosen)
    {
      pool := [];
      for p := 0 to PARTS
        invariant |pool| == p
        invariant forall q :: 0 <= q < p ==> |pool[q]| == |chosen|
        invariant forall q, i :: 0 <= q < p && 0 <= i < |chosen| ==> pool[q][i] == Slice(t, q, chosen[i])
      {
        var rows := StackPart(file, chosen, p);
        forall i | 0 <= i < |chosen| ensures rows[i] == Slice(t, p, chosen[i]) {
          PartAt(t, chosen[i], p);
          CutOff(file, Layer(t, EXPERTS), chosen[i] * BLOCK + PartOffset(p), PartBytes(p));
        }
        pool := pool + [rows];
      }
    }

    /** `load`: the nine tensors of the chosen experts from a layer file cut off anywhere, or an error. */
    method Load(t: Stacked, file: Bytes, chosen: seq<nat>, answers: nat -> Answers) returns (pool: Option<seq<Rows>>)
      requires Valid() && ValidStacked(t) && file <= Layer(t, EXPERTS)
      modifies this, Staging()
      ensures Valid() && |buffers| >= |old(buffers)|
      ensures pool.Some? <==> Loadable(slots, file, chosen, answers)
      ensures pool.Some? ==> PoolOf(pool.value, t, chosen)
    {
      if chosen == [] || |chosen| > slots { return None; }
      if exists i :: 0 <= i < |chosen| && chosen[i] >= EXPERTS { return None; }
      Reserve(|chosen|);
      var ok := ReadAll(file, chosen, answers);
      if !ok { return None; }
      var tensors := BuildPool(t, file, chosen);
      pool := Some(tensors);
    }
  }

  /** From a whole layer file and reads without errors every choice the slots allow loads. */
  lemma WholeFileLoads(t: Stacked, slots: nat, chosen: seq<nat>, answers: nat -> Answers)
    requires ValidStacked(t) && 0 < |chosen| <= slots && forall i :: 0 <= i < |chosen| ==> chosen[i] < EXPERTS
    requires forall slot: nat, k: nat :: answers(slot)(k) > 0
    ensures Loadable(slots, Layer(t, EXPERTS), chosen, answers)
  {
    forall i | 0 <= i < |chosen| ensures Readable(Layer(t, EXPERTS), chosen[i], answers(i)) {
      Within(chosen[i], EXPERTS, BLOCK);
      AlwaysDelivers(answers(i), BLOCK);
    }
  }

  // ---- the whole layer ----------------------------------------------------------------------------------

  /** `copyMemory` */
  method CopyMemory(to: array<byte>, at: nat, from: array<byte>, start: nat, n: nat)
    requires to != from && at + n <= to.Length && start + n <= from.Length
    modifies to
    ensures to[at..at + n] == from[start..start + n]
    ensures to[..at] == old(to[..at])
  {
    forall i | 0 <= i < n {
      to[at + i] := from[start + i];
    }
  }

  /** The rows of a packed tensor. */
  function RowsOf(packed: Bytes, n: nat, bytes: nat): (r: Rows)
    requires |packed| == n * bytes
    ensures |r| == n
  {
    seq(n, e requires 0 <= e < n => RowOf(packed, n, bytes, e))
  }

  function RowOf(packed: Bytes, n: nat, bytes: nat, e: nat): (r: Bytes)
    requires |packed| == n * bytes && e < n
    ensures |r| == bytes
  {
    Within(e, n, bytes);
    Product(e, bytes);
    packed[e * bytes..e * bytes + bytes]
  }

  /** The first `n` experts' part `p`, back to back. */
  function Gathered(t: Stacked, p: nat, n: nat): (r: Bytes)
    requires ValidStacked(t) && p < PARTS && n <= EXPERTS
    ensures |r| == n * PartBytes(p)
  {
    if n == 0 then [] else Gathered(t, p, n - 1) + Slice(t, p, n - 1)
  }

  /** One expert's copy into the packed tensor. */
  method CopyPart(t: Stacked, file: array<byte>, packed: array<byte>, p: nat, e: nat, at: nat, bytes: nat)
    requires ValidStacked(t) && p < PARTS && e < EXPERTS && file != packed && file[..] == Layer(t, EXPERTS)
    requires bytes == PartBytes(p) && at + bytes <= packed.Length && packed[..at] == Gathered(t, p, e)
    modifies packed
    ensures packed[..at + bytes] == Gathered(t, p, e + 1)
  {
    PartAt(t, e, p);
    var from := e * BLOCK + PartOffset(p);
    CopyMemory(packed, at, file, from, bytes);
    assert file[from..from + bytes] == file[..][from..from + bytes];
    assert packed[..at + bytes] == packed[..at] + packed[at..at + bytes];
  }

  /** `stackedPart`: part `p` out of every block of the whole file, in expert order. */
  method StackedPart(t: Stacked, file: array<byte>, p: nat) returns (rows: Rows)
    requires ValidStacked(t) && p < PARTS && file[..] == Layer(t, EXPERTS)
    ensures rows == RowsOf(Gathered(t, p, EXPERTS), EXPERTS, PartBytes(p))
  {
    var bytes := PartBytes(p);
    var packed := new byte[EXPERTS * bytes](i => 0);
    for e := 0 to EXPERTS
      invariant packed[..e * bytes] == Gathered(t, p, e) && file[..] == Layer(t, EXPERTS)
    {
      Within(e, EXPERTS, bytes);
      Product(e, bytes);
      CopyPart(t, file, packed, p, e, e * bytes, bytes);
      assert (e + 1) * bytes == e * bytes + bytes;
    }
    assert packed[..] == packed[..EXPERTS * bytes];
    rows := RowsOf(packed[..], EXPERTS, bytes);
  }

  lemma {:induction false} GatheredAt(t: Stacked, p: nat, n: nat, e: nat)
    requires ValidStacked(t) && p < PARTS && e < n <= EXPERTS
    ensures RowOf(Gathered(t, p, n), n, PartBytes(p), e) == Slice(t, p, e)
  {
    var bytes := PartBytes(p);
    Within(e, n, bytes);
    if e < n - 1 {
      GatheredAt(t, p, n - 1, e);
      Within(e, n - 1, bytes);
      Before(Gathered(t, p, n - 1), Slice(t, p, n - 1), e * bytes, bytes);
    } else {
      After(Gathered(t, p, e), Slice(t, p, e));
    }
  }

  /** `loadFullLayer`: from a layer file cut off anywhere an error, or tensors whose row `e` is expert `e`. */
  method LoadFullLayer(t: Stacked, disk: Bytes, answers: Answers) returns (pool: Option<seq<Rows>>)
    requires ValidStacked(t) && disk <= Layer(t, EXPERTS)
    ensures pool.Some? <==> EXPERTS * BLOCK <= |disk| && Delivers(answers, EXPERTS * BLOCK)
    ensures pool.Some? ==> |pool.value| == PARTS
    ensures pool.Some? ==> forall p :: 0 <= p < PARTS ==> |pool.value[p]| == EXPERTS
    ensures pool.Some? ==> forall p, e :: 0 <= p < PARTS && 0 <= e < EXPERTS ==> pool.value[p][e] == Slice(t, p, e)
  {
    var file := new byte[EXPERTS * BLOCK](i => 0);
    var ok := ReadFully(disk, 0, EXPERTS * BLOCK, file, answers);
    if !ok { return None; }
    assert disk[0..EXPERTS * BLOCK] == disk == Layer(t, EXPERTS);
    var tensors: seq<Rows> := [];
    for p := 0 to PARTS
      invariant file[..] == Layer(t, EXPERTS)
      invariant |tensors| == p && forall q :: 0 <= q < p ==> |tensors[q]| == EXPERTS
      invariant forall q, e :: 0 <= q < p && 0 <= e < EXPERTS ==> tensors[q][e] == Slice(t, q, e)
    {
      var rows := StackedPart(t, file, p);
      forall e | 0 <= e < EXPERTS ensures rows[e] == Slice(t, p, e) {
        GatheredAt(t, p, EXPERTS, e);
      }
      tensors := tensors + [rows];
    }
    pool := Some(tensors);
  }

  /**
   The row the union map gives a pair holds, in every tensor, the part of the very expert the router named,
   which is also row `ids[i]` of the full-layer stack.
   */
  lemma PairReadsItsExpert(t: Stacked, ids: seq<nat>, union: seq<nat>, rows: seq<nat>, pool: seq<Rows>, full: seq<Rows>,
                           p: nat, i: nat)
    requires ValidStacked(t) && PoolOf(pool, t, union) && p < PARTS && i < |ids| == |rows|
    requires forall j :: 0 <= j < |ids| ==> rows[j] < |union| && union[rows[j]] == ids[j]
    requires |full| == PARTS && forall q :: 0 <= q < PARTS ==> |full[q]| == EXPERTS
    requires forall q, e :: 0 <= q < PARTS && 0 <= e < EXPERTS ==> full[q][e] == Slice(t, q, e)
    ensures ids[i] < EXPERTS
    ensures pool[p][rows[i]] == Slice(t, p, ids[i]) == full[p][ids[i]]
  {
    assert union[rows[i]] == ids[i];
  }

  /** What a routed pair finds: the nine parts of its own expert, from the pool and from the full-layer stack alike. */
  ghost predicate PairsRight(t: Stacked, ids: seq<nat>, rows: seq<nat>, pool: seq<Rows>, full: seq<Rows>)
    requires ValidStacked(t)
  {
    && |rows| == |ids| && |pool| == |full| == PARTS
    && forall p, i :: 0 <= p < PARTS && 0 <= i < |ids| ==>
         && ids[i] < EXPERTS && rows[i] < |pool[p]| && ids[i] < |full[p]|
         && pool[p][rows[i]] == Slice(t, p, ids[i]) == full[p][ids[i]]
  }

  /** Union map, load and full-layer load of one list of routed ids, one after the other. */
  method Route(loader: Loader, t: Stacked, file: Bytes, ids: seq<nat>, answers: nat -> Answers, sweep: Answers)
    returns (rows: seq<nat>, pool: Option<seq<Rows>>, full: Option<seq<Rows>>)
    requires loader.Valid() && ValidStacked(t) && file <= Layer(t, EXPERTS)
    modifies loader, loader.Staging()
    ensures loader.Valid()
    ensures pool.Some? <==> Loadable(loader.slots, file, FirstSeen(ids), answers)
    ensures full.Some? <==> EXPERTS * BLOCK <= |file| && Delivers(sweep, EXPERTS * BLOCK)
    ensures pool.Some? && full.Some? ==> PairsRight(t, ids, rows, pool.value, full.value)
  {
    var union;
    union, rows := UnionRows(ids);
    pool := loader.Load(t, file, union, answers);
    full := LoadFullLayer(t, file, sweep);
    if pool.Some? && full.Some? {
      forall p, i | 0 <= p < PARTS && 0 <= i < |ids|
        ensures ids[i] < EXPERTS && pool.value[p][rows[i]] == Slice(t, p, ids[i]) == full.value[p][ids[i]]
      {
        PairReadsItsExpert(t, ids, union, rows, pool.value, full.value, p, i);
      }
    }
  }
}
