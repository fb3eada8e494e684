/**
 The 35B chat engine over a persisted prefix state: `Edge0Model35B.State`, its `snapshot`, and
 `reply`, `restore`, `reset`, `cancelled` of
 ios/Sources/Edge0MLX/Edge035B/Edge0ChatEngine35B.swift, with the real gate routing every layer.
 The forward pass of a batch is a parameter; that a batch may be cut in two is a hypothesis about it.
 */
module PrefixEngine {
  import opened Common
  import opened Vectors
  import opened Machines

  type Token = int

  /** The four tables of a decode state and how many tokens produced them. */
  datatype Contents = Contents(convolution: map<nat, Row>, recurrent: map<nat, Row>,
                               keys: map<nat, Row>, values: map<nat, Row>, offset: nat)

  const EMPTY: Contents := Contents(map[], map[], map[], map[], 0)

  /** The model: a batch of tokens moves the state on and gives the last one's logits; `greedy` picks from them. */
  datatype Model = Model(batch: (Contents, seq<Token>) -> (Contents, Row), greedy: Row -> Token)

  /** One token at a time. */
  function Single(m: Model): Machine<Contents, Token, Row> {
    (s: Contents, t: Token) => m.batch(s, [t])
  }

  /** A batch cut in two is the one part after the other. */
  ghost predicate Splits(m: Model) {
    forall s, a, b :: a != [] && b != [] ==> m.batch(s, a + b) == m.batch(m.batch(s, a).0, b)
  }

  ghost predicate ValidModel(m: Model) {
    Splits(m) && forall s, t :: m.batch(s, [t]).0.offset == s.offset + 1
  }

  /** What a batch leaves, and its logits, are those of its tokens one at a time. */
  lemma {:induction false} BatchIsRun(m: Model, s: Contents, slice: seq<Token>)
    requires Splits(m) && slice != []
    ensures m.batch(s, slice) == (Run(Single(m), s, slice).0, Run(Single(m), s, slice).1[|slice| - 1])
  {
    var front, last := slice[..|slice| - 1], slice[|slice| - 1];
    if front == [] {
      assert slice == [last];
    } else {
      BatchIsRun(m, s, front);
      assert slice == front + [last];
      assert m.batch(s, front + [last]) == m.batch(m.batch(s, front).0, [last]);
    }
  }

  /** The state after a run of tokens from nothing. */
  function After(m: Model, tokens: seq<Token>): Contents {
    Run(Single(m), EMPTY, tokens).0
  }

  /** The greedy choice after a run of tokens. */
  function Choice(m: Model, tokens: seq<Token>): Token
    requires tokens != []
  {
    m.greedy(Run(Single(m), EMPTY, tokens).1[|tokens| - 1])
  }

  /** Both are what one batch of all the tokens gives. */
  lemma OneBatch(m: Model, tokens: seq<Token>)
    requires Splits(m) && tokens != []
    ensures After(m, tokens) == m.batch(EMPTY, tokens).0 && Choice(m, tokens) == m.greedy(m.batch(EMPTY, tokens).1)
  {
    BatchIsRun(m, EMPTY, tokens);
  }

  lemma {:induction false} OffsetGrows(m: Model, s: Contents, tokens: seq<Token>)
    requires ValidModel(m)
    ensures Run(Single(m), s, tokens).0.offset == s.offset + |tokens|
  {
    if tokens != [] {
      var front, last := tokens[..|tokens| - 1], tokens[|tokens| - 1];
      OffsetGrows(m, s, front);
      RunLast(Single(m), s, front, last);
      assert tokens == front + [last];
      OneMore(m, Run(Single(m), s, front).0, last);
    }
  }

  lemma OneMore(m: Model, s: Contents, t: Token)
    requires ValidModel(m)
    ensures Single(m)(s, t).0.offset == s.offset + 1
  {
  }

  lemma AfterMore(m: Model, done: seq<Token>, slice: seq<Token>)
    requires slice != []
    ensures After(m, done + slice) == Run(Single(m), After(m, done), slice).0
    ensures Choice(m, done + slice) == m.greedy(Run(Single(m), After(m, done), slice).1[|slice| - 1])
  {
    RunSplit(Single(m), EMPTY, done, slice);
  }

  // ---- the mutable state --------------------------------------------------------------------------

  class State {
    var convolution: map<nat, Row>
    var recurrent: map<nat, Row>
    var keys: map<nat, Row>
    var values: map<nat, Row>
    var offset: nat

    function Value(): Contents reads this {
      Contents(convolution, recurrent, keys, values, offset)
    }

    constructor ()
      ensures Value() == EMPTY
    {
      convolution, recurrent, keys, values, offset := map[], map[], map[], map[], 0;
    }

    /** `reset` */
    method Reset()
      modifies this
      ensures Value() == EMPTY
    {
      convolution, recurrent, keys, values, offset := map[], map[], map[], map[], 0;
    }

    /** `snapshot`: a new state with the same contents. */
    method Snapshot() returns (copy: State)
      ensures fresh(copy) && copy.Value() == Value()
    {
      copy := new State();
      copy.convolution := convolution;
      copy.recurrent := recurrent;
      copy.keys := keys;
      copy.values := values;
      copy.offset := offset;
    }

    /** `step` over a batch: every table entry reassigned, the offset moved by the batch. */
    method Step(m: Model, slice: seq<Token>) returns (logits: Row)
      requires slice != [] && ValidModel(m)
      modifies this
      ensures (Value(), logits) == m.batch(old(Value()), slice)
    {
      var next, row := m.batch(Value(), slice).0, m.batch(Value(), slice).1;
      BatchIsRun(m, Value(), slice);
      OffsetGrows(m, Value(), slice);
      convolution, recurrent := next.convolution, next.recurrent;
      keys, values := next.keys, next.values;
      offset := offset + |slice|;
      logits := row;
    }
  }

  // ---- the cached prefix -------------------------------------------------------------------------

  datatype PrefixCache = PrefixCache(tokens: seq<Token>, state: State)

  /** `matches`: the prompt begins with the tokens and goes on. */
  predicate Matches(tokens: seq<Token>, ids: seq<Token>) {
    tokens != [] && |ids| > |tokens| && ids[..|tokens|] == tokens
  }

  /**
   What greedy decoding says after a prompt: each token is the choice after the prompt and the tokens before it,
   none ends the turn, and it stops short of the limit only where an end token would come next.
   */
  ghost predicate Spoken(m: Model, prompt: seq<Token>, ends: set<Token>, limit: nat, said: seq<Token>) {
    && prompt != [] && |said| <= limit
    && (forall i :: 0 <= i < |said| ==> said[i] == Choice(m, prompt + said[..i]) && said[i] !in ends)
    && (|said| < limit ==> Choice(m, prompt + said) in ends)
  }

  lemma {:induction false} SamePrefix(m: Model, prompt: seq<Token>, ends: set<Token>, limit: nat, a: seq<Token>, b: seq<Token>, n: nat)
    requires Spoken(m, prompt, ends, limit, a) && Spoken(m, prompt, ends, limit, b) && n <= |a| && n <= |b|
    ensures a[..n] == b[..n]
  {
    if n > 0 {
      SamePrefix(m, prompt, ends, limit, a, b, n - 1);
      assert a[n - 1] == b[n - 1];
    }
  }

  lemma ShortIsPrefix(m: Model, prompt: seq<Token>, ends: set<Token>, limit: nat, a: seq<Token>, b: seq<Token>)
    requires Spoken(m, prompt, ends, limit, a) && Spoken(m, prompt, ends, limit, b) && |a| <= |b|
    ensures a == b[..|a|]
  {
    SamePrefix(m, prompt, ends, limit, a, b, |a|);
    assert a[..|a|] == a;
  }

  lemma NotShorter(m: Model, prompt: seq<Token>, ends: set<Token>, limit: nat, a: seq<Token>, b: seq<Token>)
    requires Spoken(m, prompt, ends, limit, a) && Spoken(m, prompt, ends, limit, b)
    ensures |a| >= |b|
  {
    if |a| < |b| {
      ShortIsPrefix(m, prompt, ends, limit, a, b);
    }
  }

  /** There is one such reply. */
  lemma SpokenOnce(m: Model, prompt: seq<Token>, ends: set<Token>, limit: nat, a: seq<Token>, b: seq<Token>)
    requires Spoken(m, prompt, ends, limit, a) && Spoken(m, prompt, ends, limit, b)
    ensures a == b
  {
    NotShorter(m, prompt, ends, limit, a, b);
    NotShorter(m, prompt, ends, limit, b, a);
    ShortIsPrefix(m, prompt, ends, limit, a, b);
    assert b[..|b|] == b;
  }

  datatype Reply = Said(tokens: seq<Token>) | Cancelled

  class ChatEngine {
    const model: Model
    const systemPrefix: seq<Token>
    const maximumBatch: nat
    const ends: set<Token>
    const state: State
    var processed: seq<Token>
    var cachedPrefix: Option<PrefixCache>

    /** A cached prefix is the model run over its own tokens, in a state of its own. */
    ghost predicate Cached(c: Option<PrefixCache>)
      reads this, if c.Some? then {c.value.state} else {}
    {
      c.Some? ==> c.value.state != state && c.value.tokens != [] && c.value.state.Value() == After(model, c.value.tokens)
    }

    /** The live state is the model run from empty over `processed`. */
    ghost predicate Live()
      reads this, state
    {
      state.Value() == After(model, processed)
    }

    ghost predicate Valid()
      reads this, state, if cachedPrefix.Some? then {cachedPrefix.value.state} else {}
    {
      ValidModel(model) && maximumBatch > 0 && Live() && Cached(cachedPrefix)
    }

    constructor (model: Model, systemPrefix: seq<Token>, maximumBatch: nat, ends: set<Token>,
                 persisted: Option<PrefixCache>)
      requires ValidModel(model) && maximumBatch > 0
      requires persisted.Some? ==>
                 persisted.value.tokens != [] && persisted.value.state.Value() == After(model, persisted.value.tokens)
      ensures Valid() && processed == [] && this.model == model && this.systemPrefix == systemPrefix
      ensures cachedPrefix == persisted && fresh(state)
    {
      this.model, this.systemPrefix, this.maximumBatch, this.ends := model, systemPrefix, maximumBatch, ends;
      state := new State();
      processed, cachedPrefix := [], persisted;
    }

    /** `reset` */
    method Reset()
      requires Valid()
      modifies state, `processed
      ensures Valid() && processed == []
    {
      state.Reset();
      processed := [];
    }

    /** `restore` of the cached prefix into the live state. */
    method Restore(source: State)
      requires source != state
      modifies state
      ensures state.Value() == old(source.Value()) == source.Value()
    {
      var snapshot := source.Snapshot();
      state.convolution := snapshot.convolution;
      state.recurrent := snapshot.recurrent;
      state.keys := snapshot.keys;
      state.values := snapshot.values;
      state.offset := snapshot.offset;
    }

    /** Where a reply starts: after the kept conversation, after a matching cached prefix, or at nothing. */
    method Begin(ids: seq<Token>) returns (start: nat)
      requires Valid() && ids != []
      modifies state, `processed
      ensures Valid() && start < |ids|
      ensures old(processed) != [] ==> start == 0 && processed == old(processed)
      ensures old(processed) == [] ==> processed == ids[..start]
      ensures old(processed) == [] && cachedPrefix.None? ==> start == 0
      ensures old(processed) == [] && cachedPrefix.Some? ==>
                var tokens := cachedPrefix.value.tokens;
                start == if 0 < |tokens| < |ids| && ids[..|tokens|] == tokens then |tokens| else 0
    {
      start := 0;
      if processed == [] {
        state.Reset();
        if cachedPrefix.Some? && Matches(cachedPrefix.value.tokens, ids) {
          Restore(cachedPrefix.value.state);
          processed := cachedPrefix.value.tokens;
          start := |cachedPrefix.value.tokens|;
        }
      }
    }

    /** One batch of the prefill loop: the live state takes the slice. */
    method Feed(slice: seq<Token>) returns (next: Token)
      requires Valid() && slice != []
      modifies state, `processed
      ensures Valid() && processed == old(processed) + slice
      ensures next == Choice(model, processed)
    {
      AfterMore(model, processed, slice);
      BatchIsRun(model, state.Value(), slice);
      var logits := state.Step(model, slice);
      next := model.greedy(logits);
      processed := processed + slice;
    }

    /** Take a snapshot of the live state as the new cached prefix. */
    method Capture()
      requires Valid() && processed == systemPrefix != []
      modifies `cachedPrefix
      ensures Valid() && cachedPrefix.Some? && cachedPrefix.value.tokens == systemPrefix
    {
      var copy := state.Snapshot();
      cachedPrefix := Some(PrefixCache(systemPrefix, copy));
    }

    /** Up to where the first batches go so that the state after the system prefix can be captured. */
    function CapturePoint(continuing: bool, start: nat, ids: seq<Token>): Option<nat> {
      if !continuing && start < |systemPrefix| && |systemPrefix| <= |ids| && ids[..|systemPrefix|] == systemPrefix
      then Some(|systemPrefix|) else None
    }

    /** How far the batch at `index` goes. */
    function BatchEnd(ids: seq<Token>, index: nat, capture: Option<nat>): (end: nat)
      requires index < |ids| && maximumBatch > 0
      ensures index < end <= |ids| && end <= index + maximumBatch
      ensures capture.Some? && index < capture.value ==> end <= capture.value
    {
      var size := if maximumBatch < |ids| - index then maximumBatch else |ids| - index;
      if capture.Some? && index < capture.value && capture.value - index < size then capture.value
      else index + size
    }

    /** One turn of the prefill loop. */
    method PrefillTurn(ghost base: seq<Token>, ids: seq<Token>, index: nat, capture: Option<nat>)
      returns (next: Token, end: nat)
      requires Valid() && index < |ids| && processed == base + ids[..index]
      requires capture.Some? ==> base == [] && 0 < capture.value <= |ids| && ids[..capture.value] == systemPrefix
      modifies state, `processed, `cachedPrefix
      ensures Valid() && index < end <= |ids| && processed == base + ids[..end] && next == Choice(model, processed)
      ensures cachedPrefix == old(cachedPrefix) || (cachedPrefix.Some? && cachedPrefix.value.tokens == systemPrefix)
      ensures capture.Some? && end == capture.value ==> cachedPrefix.Some? && cachedPrefix.value.tokens == systemPrefix
      ensures capture.Some? && index < capture.value ==> end <= capture.value
    {
      end := BatchEnd(ids, index, capture);
      next := Feed(ids[index..end]);
      assert (base + ids[..index]) + ids[index..end] == base + ids[..end];
      if capture.Some? && end == capture.value {
        assert [] + ids[..end] == ids[..end];
        Capture();
      }
    }

    /** The prefill loop of `reply`; `goOn` answers the calls of `shouldContinue`. */
    method Prefill(ghost base: seq<Token>, ids: seq<Token>, start: nat, capture: Option<nat>, goOn: nat -> bool)
      returns (next: Option<Token>, calls: nat)
      requires Valid() && start < |ids| && processed == base + ids[..start]
      requires capture.Some? ==> base == [] && 0 < capture.value <= |ids| && ids[..capture.value] == systemPrefix
      modifies state, `processed, `cachedPrefix
      ensures Valid() && (next.None? ==> processed == [] && exists n :: !goOn(n))
      ensures next.Some? ==> processed == base + ids && next.value == Choice(model, processed)
      ensures next.Some? && capture.Some? && start < capture.value ==>
                cachedPrefix.Some? && cachedPrefix.value.tokens == systemPrefix
      ensures cachedPrefix == old(cachedPrefix) || (cachedPrefix.Some? && cachedPrefix.value.tokens == systemPrefix)
    {
      next, calls := None, 0;
      var index := start;
      while index < |ids|
        invariant index <= |ids| && Valid() && processed == base + ids[..index]
        invariant index > start ==> next == Some(Choice(model, processed))
        invariant cachedPrefix == old(cachedPrefix) || (cachedPrefix.Some? && cachedPrefix.value.tokens == systemPrefix)
        invariant capture.Some? && start < capture.value <= index ==>
                    cachedPrefix.Some? && cachedPrefix.value.tokens == systemPrefix
      {
        if !goOn(calls) {
          Reset();
          return None, calls + 1;
        }
        var token;
        token, index := PrefillTurn(base, ids, index, capture);
        next, calls := Some(token), calls + 1;
      }
      assert ids[..|ids|] == ids;
    }

    /** The decode loop of `reply`. */
    method Decode(first: Token, limit: nat, goOn: nat -> bool, calls: nat) returns (reply: Reply)
      requires Valid() && processed != [] && first == Choice(model, processed)
      modifies state, `processed
      ensures Valid()
      ensures reply.Cancelled? ==> processed == [] && exists n :: !goOn(n)
      ensures reply.Said? ==> Spoken(model, old(processed), ends, limit, reply.tokens)
                              && processed == old(processed) + reply.tokens
    {
      var next, said, asked := first, [], calls;
      while !(next in ends || |said| >= limit)
        invariant Valid() && processed == old(processed) + said && next == Choice(model, processed)
        invariant |said| <= limit
        invariant forall i :: 0 <= i < |said| ==> said[i] == Choice(model, old(processed) + said[..i]) && said[i] !in ends
        decreases limit - |said|
      {
        if !goOn(asked) {
          Reset();
          return Cancelled;
        }
        ghost var before := said;
        said := said + [next];
        assert said[..|before|] == before && forall i :: 0 <= i < |before| ==> said[..i] == before[..i];
        next := Feed([next]);
        asked := asked + 1;
      }
      reply := Said(said);
    }

    /**
     `reply`: `firstIds` encode the whole conversation so far, `nextIds` only the new turn. What is said is
     what the model says after the conversation and the prompt, whatever prefix was cached; the cached
     prefix stays, or becomes the system prefix.
     */
    method Answer(firstIds: seq<Token>, nextIds: seq<Token>, limit: nat, goOn: nat -> bool) returns (reply: Reply)
      requires Valid() && firstIds != [] && nextIds != []
      modifies state, `processed, `cachedPrefix
      ensures Valid()
      ensures reply.Cancelled? ==> processed == [] && exists n :: !goOn(n)
      ensures reply.Said? ==>
                var prompt := if old(processed) == [] then firstIds else old(processed) + nextIds;
                var r := reply.tokens;
                && processed == prompt + r && |r| <= limit
                && (forall i :: 0 <= i < |r| ==> r[i] == Choice(model, prompt + r[..i]) && r[i] !in ends)
                && (|r| < limit ==> Choice(model, prompt + r) in ends)
      ensures cachedPrefix == old(cachedPrefix) || (cachedPrefix.Some? && cachedPrefix.value.tokens == systemPrefix)
      ensures reply.Said? && old(processed) == [] && |systemPrefix| <= |firstIds| && firstIds[..|systemPrefix|] == systemPrefix
              && !(old(cachedPrefix.Some?) && |old(cachedPrefix).value.tokens| >= |systemPrefix|) && systemPrefix != [] ==>
                cachedPrefix.Some? && cachedPrefix.value.tokens == systemPrefix
    {
      var continuing := processed != [];
      var ids := if continuing then nextIds else firstIds;
      ghost var base := processed;
      var start := Begin(ids);
      assert ids[..0] == [] && base + [] == base && [] + ids[..start] == ids[..start];
      var next, calls := Prefill(base, ids, start, CapturePoint(continuing, start, ids), goOn);
      if next.None? { return Cancelled; }
      assert [] + ids == ids;
      reply := Decode(next.value, limit, goOn, calls);
    }
  }

  /** A reply begun from a cached prefix is the reply begun from nothing: both engines say the same. */
  method SameReply(warm: ChatEngine, cold: ChatEngine, ids: seq<Token>, limit: nat)
    returns (fromWarm: Reply, fromCold: Reply)
    requires warm.Valid() && cold.Valid() && warm.processed == [] == cold.processed && ids != []
    requires warm != cold && warm.state != cold.state && warm.model == cold.model && warm.ends == cold.ends
    requires warm.cachedPrefix.Some? && cold.cachedPrefix.None? && warm.cachedPrefix.value.state != cold.state
    modifies warm, cold, warm.state, cold.state
    ensures fromWarm.Said? && fromCold.Said? && fromWarm == fromCold && warm.processed == cold.processed
  {
    fromWarm := warm.Answer(ids, ids, limit, n => true);
    fromCold := cold.Answer(ids, ids, limit, n => true);
    SpokenOnce(warm.model, ids, warm.ends, limit, fromWarm.tokens, fromCold.tokens);
  }
}
