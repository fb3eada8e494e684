/** State machines that turn a row of inputs into a row of outputs, one at a time. */
module Machines {
  type Machine<!S, !X, !Y> = (S, X) -> (S, Y)

  function Run<S, X, Y>(step: Machine<S, X, Y>, s: S, xs: seq<X>): (r: (S, seq<Y>))
    ensures |r.1| == |xs|
  {
    if xs == [] then (s, [])
    else
      var front := Run(step, s, xs[..|xs| - 1]);
      var last := step(front.0, xs[|xs| - 1]);
      (last.0, front.1 + [last.1])
  }

  lemma RunLast<S, X, Y>(step: Machine<S, X, Y>, s: S, xs: seq<X>, x: X)
    ensures var front := Run(step, s, xs);
            var last := step(front.0, x);
            Run(step, s, xs + [x]) == (last.0, front.1 + [last.1])
  {
    assert (xs + [x])[..|xs|] == xs;
  }

  /** Cutting the inputs anywhere changes nothing. */
  lemma {:induction false} RunSplit<S, X, Y>(step: Machine<S, X, Y>, s: S, xs: seq<X>, ys: seq<X>)
    ensures var first := Run(step, s, xs);
            var second := Run(step, first.0, ys);
            Run(step, s, xs + ys) == (second.0, first.1 + second.1)
  {
    if ys == [] {
      assert xs + ys == xs;
      assert Run(step, s, xs).1 + [] == Run(step, s, xs).1;
    } else {
      var front, y := ys[..|ys| - 1], ys[|ys| - 1];
      RunSplit(step, s, xs, front);
      assert ys == front + [y] && xs + ys == (xs + front) + [y];
      RunLast(step, s, xs + front, y);
      RunLast(step, Run(step, s, xs).0, front, y);
      var a, b := Run(step, s, xs).1, Run(step, Run(step, s, xs).0, front).1;
      var last := step(Run(step, Run(step, s, xs).0, front).0, y);
      assert (a + b) + [last.1] == a + (b + [last.1]);
    }
  }

  /** Output `t` is made from the state the inputs before it left. */
  lemma {:induction false} OutputAt<S, X, Y>(step: Machine<S, X, Y>, s: S, xs: seq<X>, t: nat)
    requires t < |xs|
    ensures Run(step, s, xs).1[t] == step(Run(step, s, xs[..t]).0, xs[t]).1
  {
    var n := |xs| - 1;
    if t < n {
      OutputAt(step, s, xs[..n], t);
      assert xs[..n][..t] == xs[..t];
    }
  }

  /** The inputs cut into chunks, one run after the other. */
  function RunEach<S, X, Y>(step: Machine<S, X, Y>, s: S, chunks: seq<seq<X>>): (S, seq<Y>) {
    if chunks == [] then (s, [])
    else
      var first := Run(step, s, chunks[0]);
      var rest := RunEach(step, first.0, chunks[1..]);
      (rest.0, first.1 + rest.1)
  }

  function Joined<X>(chunks: seq<seq<X>>): seq<X> {
    if chunks == [] then [] else chunks[0] + Joined(chunks[1..])
  }

  /** Any cutting into chunks gives the run of the whole. */
  lemma {:induction false} AnyChunking<S, X, Y>(step: Machine<S, X, Y>, s: S, chunks: seq<seq<X>>)
    ensures RunEach(step, s, chunks) == Run(step, s, Joined(chunks))
  {
    if chunks != [] {
      RunSplit(step, s, chunks[0], Joined(chunks[1..]));
      AnyChunking(step, Run(step, s, chunks[0]).0, chunks[1..]);
    }
  }

  /** A run is known once every state on the way and every output is. */
  lemma {:induction false} RunTraced<S, X, Y>(step: Machine<S, X, Y>, xs: seq<X>, states: seq<S>, outs: seq<Y>)
    requires |states| == |xs| + 1 && |outs| == |xs|
    requires forall n :: 0 <= n < |xs| ==> step(states[n], xs[n]) == (states[n + 1], outs[n])
    ensures Run(step, states[0], xs) == (states[|xs|], outs)
  {
    if xs != [] {
      var n := |xs| - 1;
      RunTraced(step, xs[..n], states[..n + 1], outs[..n]);
      assert outs == outs[..n] + [outs[n]];
    }
  }

  // ---- around a machine -------------------------------------------------------------------------

  /** The machine with its input prepared and its output finished, both one token at a time. */
  function Around<S, X, Y, Z, W>(before: X -> Z, step: Machine<S, Z, W>, after: (X, W) -> Y): Machine<S, X, Y> {
    (s: S, x: X) => (step(s, before(x)).0, after(x, step(s, before(x)).1))
  }

  lemma AroundIs<S, X, Y, Z, W>(before: X -> Z, step: Machine<S, Z, W>, after: (X, W) -> Y, s: S, x: X, next: S, w: W)
    requires (next, w) == step(s, before(x))
    ensures Around(before, step, after)(s, x) == (next, after(x, w))
  {
  }

  function Mapped<X, Z>(f: X -> Z, xs: seq<X>): (r: seq<Z>)
    ensures |r| == |xs|
  {
    seq(|xs|, t requires 0 <= t < |xs| => f(xs[t]))
  }

  function Zipped<X, W, Y>(f: (X, W) -> Y, xs: seq<X>, ws: seq<W>): (r: seq<Y>)
    requires |xs| == |ws|
    ensures |r| == |xs|
  {
    seq(|xs|, t requires 0 <= t < |xs| => f(xs[t], ws[t]))
  }

  lemma {:induction false} RunAround<S, X, Y, Z, W>(before: X -> Z, step: Machine<S, Z, W>, after: (X, W) -> Y,
                                                    s: S, xs: seq<X>)
    ensures var inner := Run(step, s, Mapped(before, xs));
            Run(Around(before, step, after), s, xs) == (inner.0, Zipped(after, xs, inner.1))
  {
    if xs == [] {
      assert Mapped(before, xs) == [] && Zipped(after, xs, []) == [];
    } else {
      var n := |xs| - 1;
      RunAround(before, step, after, s, xs[..n]);
      RunLast(step, s, Mapped(before, xs[..n]), before(xs[n]));
      assert Mapped(before, xs) == Mapped(before, xs[..n]) + [before(xs[n])];
      var ws := Run(step, s, Mapped(before, xs)).1;
      assert ws[..n] == Run(step, s, Mapped(before, xs[..n])).1;
      assert Zipped(after, xs, ws) == Zipped(after, xs[..n], ws[..n]) + [after(xs[n], ws[n])];
    }
  }

  // ---- stacks of machines -------------------------------------------------------------------------

  /** One input through every machine of the stack. */
  function Through<S, X>(stack: seq<Machine<S, X, X>>, states: seq<S>, x: X): (r: (seq<S>, X))
    requires |states| == |stack|
    ensures |r.0| == |stack|
  {
    if stack == [] then ([], x)
    else
      var n := |stack| - 1;
      var front := Through(stack[..n], states[..n], x);
      var last := stack[n](states[n], front.1);
      (front.0 + [last.0], last.1)
  }

  /** An input rises as a chain: each machine moves its own state and takes what the one below put out. */
  lemma {:induction false} ThroughTraced<S, X>(stack: seq<Machine<S, X, X>>, states: seq<S>, after: seq<S>, rows: seq<X>)
    requires |states| == |after| == |stack| && |rows| == |stack| + 1
    requires forall k :: 0 <= k < |stack| ==> stack[k](states[k], rows[k]) == (after[k], rows[k + 1])
    ensures Through(stack, states, rows[0]) == (after, rows[|stack|])
  {
    if stack != [] {
      var n := |stack| - 1;
      ThroughTraced(stack[..n], states[..n], after[..n], rows[..n + 1]);
      assert after == after[..n] + [after[n]];
    }
  }

  /** The stack as one machine: inputs outside, machines inside. */
  function Stack<S, X>(stack: seq<Machine<S, X, X>>): Machine<seq<S>, X, X> {
    (states: seq<S>, x: X) => if |states| == |stack| then Through(stack, states, x) else (states, x)
  }

  /** Machines outside, inputs inside: each machine takes the whole row its predecessor left. */
  function Swept<S, X>(stack: seq<Machine<S, X, X>>, states: seq<S>, xs: seq<X>): (r: (seq<S>, seq<X>))
    requires |states| == |stack|
    ensures |r.0| == |stack| && |r.1| == |xs|
  {
    if stack == [] then ([], xs)
    else
      var n := |stack| - 1;
      var front := Swept(stack[..n], states[..n], xs);
      var last := Run(stack[n], states[n], front.1);
      (front.0 + [last.0], last.1)
  }

  lemma ThroughNext<S, X>(stack: seq<Machine<S, X, X>>, states: seq<S>, x: X, k: nat)
    requires |states| == |stack| && k < |stack|
    ensures var front := Through(stack[..k], states[..k], x);
            var last := stack[k](states[k], front.1);
            Through(stack[..k + 1], states[..k + 1], x) == (front.0 + [last.0], last.1)
  {
    assert stack[..k + 1][..k] == stack[..k] && states[..k + 1][..k] == states[..k];
  }

  lemma SweptNext<S, X>(stack: seq<Machine<S, X, X>>, states: seq<S>, xs: seq<X>, k: nat)
    requires |states| == |stack| && k < |stack|
    ensures var front := Swept(stack[..k], states[..k], xs);
            var last := Run(stack[k], states[k], front.1);
            Swept(stack[..k + 1], states[..k + 1], xs) == (front.0 + [last.0], last.1)
  {
    assert stack[..k + 1][..k] == stack[..k] && states[..k + 1][..k] == states[..k];
  }

  lemma {:induction false} SweptNone<S, X>(stack: seq<Machine<S, X, X>>, states: seq<S>)
    requires |states| == |stack|
    ensures Swept(stack, states, []) == (states, [])
  {
    if stack != [] {
      var n := |stack| - 1;
      SweptNone(stack[..n], states[..n]);
      assert states == states[..n] + [states[n]];
    }
  }

  lemma {:induction false} SweptLast<S, X>(stack: seq<Machine<S, X, X>>, states: seq<S>, xs: seq<X>, x: X)
    requires |states| == |stack|
    ensures var front := Swept(stack, states, xs);
            var last := Through(stack, front.0, x);
            Swept(stack, states, xs + [x]) == (last.0, front.1 + [last.1])
  {
    if stack != [] {
      var n := |stack| - 1;
      SweptLast(stack[..n], states[..n], xs, x);
      var below := Swept(stack[..n], states[..n], xs);
      var all := Swept(stack, states, xs);
      assert all.0[..n] == below.0 && all.0[n] == Run(stack[n], states[n], below.1).0;
      RunLast(stack[n], states[n], below.1, Through(stack[..n], below.0, x).1);
    }
  }

  /** The two loop orders end in the same states and the same outputs. */
  lemma {:induction false} Interchange<S, X>(stack: seq<Machine<S, X, X>>, states: seq<S>, xs: seq<X>)
    requires |states| == |stack|
    ensures Run(Stack(stack), states, xs) == Swept(stack, states, xs)
  {
    if xs == [] {
      SweptNone(stack, states);
    } else {
      var n := |xs| - 1;
      Interchange(stack, states, xs[..n]);
      SweptLast(stack, states, xs[..n], xs[n]);
      assert xs == xs[..n] + [xs[n]];
    }
  }
}
