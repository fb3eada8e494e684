/**
 The gated delta rule: one row of the recurrent state over time, and the kernel of
 ios/Sources/Edge0MLX/OfficialGatedDelta.swift that runs it split over 32 lanes.
 */
module GatedDelta {
  import opened Indexing
  import opened Vectors

  /** What one token feeds to one row of the state. */
  datatype Feed = Feed(q: Row, k: Row, g: Row, v: real, beta: real)

  predicate Fits(f: Feed, width: nat) {
    |f.q| == width && |f.k| == width && |f.g| == width
  }

  predicate AllFit(fs: seq<Feed>, width: nat) {
    forall t :: 0 <= t < |fs| ==> Fits(fs[t], width)
  }

  // ---- the recurrence, one token -----------------------------------------------------------

  function Delta(s: Row, f: Feed): real
    requires Fits(f, |s|)
  {
    (f.v - Dot(Times(s, f.g), f.k)) * f.beta
  }

  /** Decay, then write the correction along the key. */
  function RowState(s: Row, f: Feed): (r: Row)
    requires Fits(f, |s|)
    ensures |r| == |s|
  {
    seq(|s|, i requires 0 <= i < |s| => s[i] * f.g[i] + f.k[i] * Delta(s, f))
  }

  function RowOutput(s: Row, f: Feed): real
    requires Fits(f, |s|)
  {
    Dot(RowState(s, f), f.q)
  }

  /** What the decayed row, read along the key, remembers is taken from the value; beta scales the rest. */
  lemma DeltaIs(s: Row, f: Feed, kept: Row, remembered: Row)
    requires Fits(f, |s|) && |kept| == |remembered| == |s|
    requires forall i :: 0 <= i < |s| ==> kept[i] == s[i] * f.g[i]
    requires forall i :: 0 <= i < |s| ==> remembered[i] == kept[i] * f.k[i]
    ensures Delta(s, f) == (f.v - Total(remembered)) * f.beta
  {
    TimesIs(s, f.g, kept);
    DotIsTotal(kept, f.k, remembered);
  }

  lemma RowStateAt(s: Row, f: Feed, i: nat, kept: real, k: real, delta: real)
    requires Fits(f, |s|) && i < |s| && kept == s[i] * f.g[i] && k == f.k[i] && delta == Delta(s, f)
    ensures RowState(s, f)[i] == kept + k * delta
  {
  }

  lemma RowStateIs(s: Row, f: Feed, kept: Row, delta: real, next: Row)
    requires Fits(f, |s|) && |kept| == |next| == |s| && delta == Delta(s, f)
    requires forall i :: 0 <= i < |s| ==> kept[i] == s[i] * f.g[i]
    requires forall i :: 0 <= i < |s| ==> next[i] == kept[i] + f.k[i] * delta
    ensures RowState(s, f) == next
  {
    forall i | 0 <= i < |s| ensures RowState(s, f)[i] == next[i] {
      RowStateAt(s, f, i, kept[i], f.k[i], delta);
    }
  }

  /** One step of the rule in sums: decay, then write the delta along the key. */
  lemma RuleIs(s: Row, f: Feed, kept: Row, remembered: Row, delta: real, next: Row)
    requires Fits(f, |s|) && |kept| == |remembered| == |next| == |s|
    requires forall i :: 0 <= i < |s| ==> kept[i] == s[i] * f.g[i]
    requires forall i :: 0 <= i < |s| ==> remembered[i] == kept[i] * f.k[i]
    requires delta == (f.v - Total(remembered)) * f.beta
    requires forall i :: 0 <= i < |s| ==> next[i] == kept[i] + f.k[i] * delta
    ensures RowState(s, f) == next
  {
    DeltaIs(s, f, kept, remembered);
    RowStateIs(s, f, kept, delta, next);
  }

  /** The output reads the new row along the query. */
  lemma OutputIs(s: Row, f: Feed, read: Row)
    requires Fits(f, |s|) && |read| == |s|
    requires forall i :: 0 <= i < |s| ==> read[i] == RowState(s, f)[i] * f.q[i]
    ensures RowOutput(s, f) == Total(read)
  {
    DotIsTotal(RowState(s, f), f.q, read);
  }

  // ---- the recurrence over time ----------------------------------------------------------------

  function RunState(s: Row, fs: seq<Feed>): (r: Row)
    requires AllFit(fs, |s|)
    ensures |r| == |s|
  {
    if fs == [] then s else RowState(RunState(s, fs[..|fs| - 1]), fs[|fs| - 1])
  }

  function RunOutput(s: Row, fs: seq<Feed>, t: nat): real
    requires AllFit(fs, |s|) && t < |fs|
  {
    RowOutput(RunState(s, fs[..t]), fs[t])
  }

  // ---- flat tensors ---------------------------------------------------------------------------

  /** Shapes [B,T,Hk,Dk] for q and k, [B,T,Hv,Dk] for g, [B,T,Hv,Dv] for v, [B,T,Hv] for beta. */
  datatype Tensors = Tensors(B: nat, T: nat, Hk: nat, Hv: nat, Dk: nat, Dv: nat,
                             q: Row, k: Row, g: Row, v: Row, beta: Row, state: Row)

  predicate Shaped(x: Tensors) {
    && x.Hk > 0 && x.Hv % x.Hk == 0 && x.Dk > 0 && x.Dk % 32 == 0
    && |x.q| == x.B * x.T * x.Hk * x.Dk && |x.k| == |x.q|
    && |x.g| == x.B * x.T * x.Hv * x.Dk
    && |x.v| == x.B * x.T * x.Hv * x.Dv
    && |x.beta| == x.B * x.T * x.Hv
    && |x.state| == x.B * x.Hv * x.Dv * x.Dk
  }

  /** Position of entry `c` in row `b` of a table with rows of `width` entries. */
  function At(b: nat, c: nat, rows: nat, width: nat): (r: nat)
    requires b < rows && c < width
    ensures r < rows * width
  {
    Within(b, rows, width);
    Product(b, width);
    b * width + c
  }

  function Slice(s: Row, i: nat, n: nat, width: nat): (r: Row)
    requires i < n && |s| == n * width
    ensures |r| == width
  {
    Within(i, n, width);
    Product(i, width);
    s[i * width .. i * width + width]
  }

  function KeyAt(x: Tensors, b: nat, hv: nat, t: nat): (r: nat)
    requires Shaped(x) && b < x.B && hv < x.Hv && t < x.T
    ensures r < x.B * x.T * x.Hk
    ensures r == (b * x.T + t) * x.Hk + KeyHead(x, hv)
  {
    At(At(b, t, x.B, x.T), KeyHead(x, hv), x.B * x.T, x.Hk)
  }

  function ValueAt(x: Tensors, b: nat, hv: nat, t: nat): (r: nat)
    requires Shaped(x) && b < x.B && hv < x.Hv && t < x.T
    ensures r < x.B * x.T * x.Hv
    ensures r == (b * x.T + t) * x.Hv + hv
  {
    At(At(b, t, x.B, x.T), hv, x.B * x.T, x.Hv)
  }

  /** What token `t` feeds to state row `dv` of value head `hv` of batch entry `b`. */
  function FeedAt(x: Tensors, b: nat, hv: nat, dv: nat, t: nat): (f: Feed)
    requires Shaped(x) && b < x.B && hv < x.Hv && dv < x.Dv && t < x.T
    ensures Fits(f, x.Dk)
  {
    var key, value := KeyAt(x, b, hv, t), ValueAt(x, b, hv, t);
    Feed(Slice(x.q, key, x.B * x.T * x.Hk, x.Dk), Slice(x.k, key, x.B * x.T * x.Hk, x.Dk),
         Slice(x.g, value, x.B * x.T * x.Hv, x.Dk), x.v[At(value, dv, x.B * x.T * x.Hv, x.Dv)], x.beta[value])
  }

  /** Key heads are shared by runs of Hv / Hk value heads. */
  function KeyHead(x: Tensors, hv: nat): (hk: nat)
    requires Shaped(x) && hv < x.Hv
    ensures hk < x.Hk
  {
    var group := x.Hv / x.Hk;
    assert x.Hv == group * x.Hk;
    assert group > 0;
    var hk := hv / group;
    assert hk < x.Hk;
    hk
  }

  function Feeds(x: Tensors, b: nat, hv: nat, dv: nat, n: nat): (fs: seq<Feed>)
    requires Shaped(x) && b < x.B && hv < x.Hv && dv < x.Dv && n <= x.T
    ensures |fs| == n && AllFit(fs, x.Dk)
  {
    seq(n, t requires 0 <= t < n => FeedAt(x, b, hv, dv, t))
  }

  // ---- the kernel body for one cell of the grid ------------------------------------------------------

  /** Where the kernel's moving pointers stand: q and k, g, v and y, beta. */
  datatype Pointers = Pointers(q: int, g: int, v: int, beta: int)

  /** The pointers that `FeedAt` reads from. */
  function Positions(x: Tensors, b: nat, hv: nat, t: nat): Pointers
    requires Shaped(x) && hv < x.Hv
  {
    var key, value := (b * x.T + t) * x.Hk + KeyHead(x, hv), (b * x.T + t) * x.Hv + hv;
    Pointers(key * x.Dk, value * x.Dk, value * x.Dv, value - hv)
  }

  lemma StartAt(b: nat, T: nat, heads: nat, head: nat, width: nat)
    ensures (b * T * heads + head) * width == b * T * heads * width + head * width
  {
  }

  lemma NextAt(token: nat, heads: nat, head: nat, width: nat)
    ensures (token + 1) * heads + head == token * heads + head + heads
    ensures ((token + 1) * heads + head) * width == (token * heads + head) * width + heads * width
  {
    var at := token * heads + head;
    assert (token + 1) * heads + head == at + heads;
    assert (at + heads) * width == at * width + heads * width;
  }

  lemma Start(x: Tensors, b: nat, hv: nat)
    requires Shaped(x) && hv < x.Hv
    ensures Positions(x, b, hv, 0) ==
            Pointers(b * x.T * x.Hk * x.Dk + KeyHead(x, hv) * x.Dk, b * x.T * x.Hv * x.Dk + hv * x.Dk,
                     b * x.T * x.Hv * x.Dv + hv * x.Dv, b * x.T * x.Hv)
  {
    StartAt(b, x.T, x.Hk, KeyHead(x, hv), x.Dk);
    StartAt(b, x.T, x.Hv, hv, x.Dk);
    StartAt(b, x.T, x.Hv, hv, x.Dv);
  }

  lemma Next(x: Tensors, b: nat, hv: nat, t: nat)
    requires Shaped(x) && hv < x.Hv
    ensures var p := Positions(x, b, hv, t);
            Positions(x, b, hv, t + 1) ==
            Pointers(p.q + x.Hk * x.Dk, p.g + x.Hv * x.Dk, p.v + x.Hv * x.Dv, p.beta + x.Hv)
  {
    Product(b, x.T);
    NextAt(b * x.T + t, x.Hk, KeyHead(x, hv), x.Dk);
    NextAt(b * x.T + t, x.Hv, hv, x.Dk);
    NextAt(b * x.T + t, x.Hv, hv, x.Dv);
  }

  lemma Lane(perLane: nat, lane: nat)
    requires lane < 32
    ensures perLane * lane + perLane == perLane * (lane + 1) <= perLane * 32
  {
    assert perLane * 32 == perLane * (lane + 1) + perLane * (31 - lane);
  }

  /** One lane of the first half: decay its own elements and sum its part of the memory. */
  method DecayLane(state: array<real>, lo: nat, n: nat, g: Row, gp: nat, k: Row, kp: nat, ghost goal: Row)
    returns (part: real)
    requires lo + n <= state.Length == |goal| && gp + state.Length <= |g| && kp + state.Length <= |k|
    requires forall j :: lo <= j < lo + n ==> goal[j] == state[j] * g[gp + j]
    modifies state
    ensures forall j :: 0 <= j < state.Length ==> state[j] == if lo <= j < lo + n then goal[j] else old(state[j])
    ensures var term := DotTerm(goal, k[kp..kp + state.Length]); Sum(lo, term) + part == Sum(lo + n, term)
  {
    ghost var term := DotTerm(goal, k[kp..kp + state.Length]);
    part := 0.0;
    for i := 0 to n
      invariant Sum(lo, term) + part == Sum(lo + i, term)
      invariant forall j :: 0 <= j < state.Length ==> state[j] == if lo <= j < lo + i then goal[j] else old(state[j])
    {
      var idx := lo + i;
      state[idx] := state[idx] * g[gp + idx];
      part := part + state[idx] * k[kp + idx];
    }
  }

  /** First half of a kernel step: every lane decays its part, then `simd_sum` adds the lanes up. */
  method Decay(state: array<real>, g: Row, gp: nat, k: Row, kp: nat) returns (memory: real)
    requires state.Length % 32 == 0 && gp + state.Length <= |g| && kp + state.Length <= |k|
    modifies state
    ensures state[..] == Times(old(state[..]), g[gp..gp + state.Length])
    ensures memory == Dot(state[..], k[kp..kp + state.Length])
  {
    var perLane, lo := state.Length / 32, 0;
    ghost var was := state[..];
    ghost var goal := Times(was, g[gp..gp + state.Length]);
    memory := 0.0;
    for lane := 0 to 32
      invariant lo == perLane * lane
      invariant memory == Sum(lo, DotTerm(goal, k[kp..kp + state.Length]))
      invariant forall j :: 0 <= j < state.Length ==> state[j] == if j < lo then goal[j] else was[j]
    {
      Lane(perLane, lane);
      var part := DecayLane(state, lo, perLane, g, gp, k, kp, goal);
      memory := memory + part;
      lo := lo + perLane;
    }
    assert state[..] == goal;
  }

  /** One lane of the second half: correct its own elements along the key, sum its part of the output. */
  method CorrectLane(state: array<real>, lo: nat, n: nat, k: Row, kp: nat, delta: real, q: Row, qp: nat, ghost goal: Row)
    returns (part: real)
    requires lo + n <= state.Length == |goal| && kp + state.Length <= |k| && qp + state.Length <= |q|
    requires forall j :: lo <= j < lo + n ==> goal[j] == state[j] + k[kp + j] * delta
    modifies state
    ensures forall j :: 0 <= j < state.Length ==> state[j] == if lo <= j < lo + n then goal[j] else old(state[j])
    ensures var term := DotTerm(goal, q[qp..qp + state.Length]); Sum(lo, term) + part == Sum(lo + n, term)
  {
    ghost var term := DotTerm(goal, q[qp..qp + state.Length]);
    part := 0.0;
    for i := 0 to n
      invariant Sum(lo, term) + part == Sum(lo + i, term)
      invariant forall j :: 0 <= j < state.Length ==> state[j] == if lo <= j < lo + i then goal[j] else old(state[j])
    {
      var idx := lo + i;
      state[idx] := state[idx] + k[kp + idx] * delta;
      part := part + state[idx] * q[qp + idx];
    }
  }

  function Corrected(s: Row, k: Row, delta: real): (r: Row)
    requires |s| == |k|
  {
    seq(|s|, i requires 0 <= i < |s| => s[i] + k[i] * delta)
  }

  /** Second half of a kernel step. */
  method Correct(state: array<real>, k: Row, kp: nat, delta: real, q: Row, qp: nat) returns (out: real)
    requires state.Length % 32 == 0 && kp + state.Length <= |k| && qp + state.Length <= |q|
    modifies state
    ensures state[..] == Corrected(old(state[..]), k[kp..kp + state.Length], delta)
    ensures out == Dot(state[..], q[qp..qp + state.Length])
  {
    var perLane, lo := state.Length / 32, 0;
    ghost var was := state[..];
    ghost var goal := Corrected(was, k[kp..kp + state.Length], delta);
    out := 0.0;
    for lane := 0 to 32
      invariant lo == perLane * lane
      invariant out == Sum(lo, DotTerm(goal, q[qp..qp + state.Length]))
      invariant forall j :: 0 <= j < state.Length ==> state[j] == if j < lo then goal[j] else was[j]
    {
      Lane(perLane, lane);
      var part := CorrectLane(state, lo, perLane, k, kp, delta, q, qp, goal);
      out := out + part;
      lo := lo + perLane;
    }
    assert state[..] == goal;
  }

  lemma StepInHalves(s: Row, f: Feed)
    requires Fits(f, |s|)
    ensures RowState(s, f) == Corrected(Times(s, f.g), f.k, Delta(s, f))
  {
  }

  /** The kernel body of grid cell (dv, n): its column of the output and its row of the new state. */
  method KernelCell(x: Tensors, b: nat, hv: nat, dv: nat) returns (y: seq<real>, stateOut: Row)
    requires Shaped(x) && b < x.B && hv < x.Hv && dv < x.Dv
    ensures var s, fs := StateRow(x, b, hv, dv), Feeds(x, b, hv, dv, x.T);
            && stateOut == RunState(s, fs)
            && |y| == x.T && forall t :: 0 <= t < x.T ==> y[t] == RunOutput(s, fs, t)
  {
    var hk := hv / (x.Hv / x.Hk);
    var p := Pointers(b * x.T * x.Hk * x.Dk + hk * x.Dk, b * x.T * x.Hv * x.Dk + hv * x.Dk,
                      b * x.T * x.Hv * x.Dv + hv * x.Dv, b * x.T * x.Hv);
    Start(x, b, hv);
    var keyStride, gateStride, valueStride := x.Hk * x.Dk, x.Hv * x.Dk, x.Hv * x.Dv;
    var s := StateRow(x, b, hv, dv);
    var state := new real[x.Dk](i requires 0 <= i < x.Dk => s[i]);
    assert state[..] == s;
    y := [];
    for t := 0 to x.T
      invariant |y| == t && p == Positions(x, b, hv, t)
      invariant state[..] == RunState(s, Feeds(x, b, hv, dv, t))
      invariant forall i :: 0 <= i < t ==> y[i] == RunOutput(s, Feeds(x, b, hv, dv, x.T), i)
    {
      var out := KernelStep(x, b, hv, dv, t, state, p);
      y := y + [out];
      RunOne(s, x, b, hv, dv, t);
      Next(x, b, hv, t);
      p := Pointers(p.q + keyStride, p.g + gateStride, p.v + valueStride, p.beta + x.Hv);
    }
    stateOut := state[..];
  }

  function StateRow(x: Tensors, b: nat, hv: nat, dv: nat): (r: Row)
    requires Shaped(x) && b < x.B && hv < x.Hv && dv < x.Dv
    ensures |r| == x.Dk
  {
    Slice(x.state, At(At(b, hv, x.B, x.Hv), dv, x.B * x.Hv, x.Dv), x.B * x.Hv * x.Dv, x.Dk)
  }

  lemma RunOne(s: Row, x: Tensors, b: nat, hv: nat, dv: nat, t: nat)
    requires Shaped(x) && b < x.B && hv < x.Hv && dv < x.Dv && t < x.T && |s| == x.Dk
    ensures var before := RunState(s, Feeds(x, b, hv, dv, t));
            && RunState(s, Feeds(x, b, hv, dv, t + 1)) == RowState(before, FeedAt(x, b, hv, dv, t))
            && RunOutput(s, Feeds(x, b, hv, dv, x.T), t) == RowOutput(before, FeedAt(x, b, hv, dv, t))
  {
    assert Feeds(x, b, hv, dv, t + 1)[..t] == Feeds(x, b, hv, dv, t);
    assert Feeds(x, b, hv, dv, x.T)[..t] == Feeds(x, b, hv, dv, t);
  }

  /** One turn of the time loop, with the pointers as the kernel has advanced them. */
  method KernelStep(x: Tensors, b: nat, hv: nat, dv: nat, t: nat, state: array<real>, p: Pointers)
    returns (out: real)
    requires Shaped(x) && b < x.B && hv < x.Hv && dv < x.Dv && t < x.T && state.Length == x.Dk
    requires p == Positions(x, b, hv, t)
    modifies state
    ensures state[..] == RowState(old(state[..]), FeedAt(x, b, hv, dv, t))
    ensures out == RowOutput(old(state[..]), FeedAt(x, b, hv, dv, t))
  {
    MeetKey(x, b, hv, dv, t, p.q);
    MeetGate(x, b, hv, dv, t, p.g);
    MeetValue(x, b, hv, dv, t, p);
    out := StepAt(state, x.q, x.k, p.q, x.g, p.g, x.v[p.v + dv], x.beta[p.beta + hv]);
  }

  method StepAt(state: array<real>, q: Row, k: Row, qp: nat, g: Row, gp: nat, v: real, beta: real) returns (out: real)
    requires state.Length % 32 == 0 && qp + state.Length <= |q| == |k| && gp + state.Length <= |g|
    modifies state
    ensures var n := state.Length;
            var f := Feed(q[qp..qp + n], k[qp..qp + n], g[gp..gp + n], v, beta);
            state[..] == RowState(old(state[..]), f) && out == RowOutput(old(state[..]), f)
  {
    ghost var n := state.Length;
    ghost var was, f := state[..], Feed(q[qp..qp + n], k[qp..qp + n], g[gp..gp + n], v, beta);
    var memory := Decay(state, g, gp, k, qp);
    var delta := (v - memory) * beta;
    assert delta == Delta(was, f);
    out := Correct(state, k, qp, delta, q, qp);
    StepInHalves(was, f);
  }

  lemma SliceAt(s: Row, i: nat, n: nat, width: nat, at: int)
    requires i < n && |s| == n * width && at == i * width
    ensures 0 <= at <= at + width <= |s| && Slice(s, i, n, width) == s[at..at + width]
  {
    Within(i, n, width);
    Product(i, width);
  }

  lemma PositionsAre(x: Tensors, b: nat, hv: nat, t: nat)
    requires Shaped(x) && b < x.B && hv < x.Hv && t < x.T
    ensures var key, value := KeyAt(x, b, hv, t), ValueAt(x, b, hv, t);
            Positions(x, b, hv, t) == Pointers(key * x.Dk, value * x.Dk, value * x.Dv, value - hv)
  {
  }

  lemma MeetKey(x: Tensors, b: nat, hv: nat, dv: nat, t: nat, at: int)
    requires Shaped(x) && b < x.B && hv < x.Hv && dv < x.Dv && t < x.T && at == Positions(x, b, hv, t).q
    ensures 0 <= at <= at + x.Dk <= |x.q| == |x.k|
    ensures FeedAt(x, b, hv, dv, t).q == x.q[at..at + x.Dk] && FeedAt(x, b, hv, dv, t).k == x.k[at..at + x.Dk]
  {
    PositionsAre(x, b, hv, t);
    SliceAt(x.q, KeyAt(x, b, hv, t), x.B * x.T * x.Hk, x.Dk, at);
    SliceAt(x.k, KeyAt(x, b, hv, t), x.B * x.T * x.Hk, x.Dk, at);
  }

  lemma MeetGate(x: Tensors, b: nat, hv: nat, dv: nat, t: nat, at: int)
    requires Shaped(x) && b < x.B && hv < x.Hv && dv < x.Dv && t < x.T && at == Positions(x, b, hv, t).g
    ensures 0 <= at <= at + x.Dk <= |x.g| && FeedAt(x, b, hv, dv, t).g == x.g[at..at + x.Dk]
  {
    PositionsAre(x, b, hv, t);
    SliceAt(x.g, ValueAt(x, b, hv, t), x.B * x.T * x.Hv, x.Dk, at);
  }

  lemma MeetValue(x: Tensors, b: nat, hv: nat, dv: nat, t: nat, p: Pointers)
    requires Shaped(x) && b < x.B && hv < x.Hv && dv < x.Dv && t < x.T && p == Positions(x, b, hv, t)
    ensures 0 <= p.v + dv < |x.v| && 0 <= p.beta + hv < |x.beta|
    ensures FeedAt(x, b, hv, dv, t).v == x.v[p.v + dv] && FeedAt(x, b, hv, dv, t).beta == x.beta[p.beta + hv]
  {
    PositionsAre(x, b, hv, t);
    assert At(ValueAt(x, b, hv, t), dv, x.B * x.T * x.Hv, x.Dv) == p.v + dv;
  }
}
