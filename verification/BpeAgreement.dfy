/** When the two merge loops end in the same tokens, and what each of them keeps. */
module BpeAgreement {
  import opened Common
  import opened Bpe

  function Concat(pieces: seq<string>): string {
    if pieces == [] then "" else pieces[0] + Concat(pieces[1..])
  }

  ghost predicate NonEmpty(pieces: seq<string>) {
    forall i :: 0 <= i < |pieces| ==> pieces[i] != ""
  }

  /** Every pair that uses a merged token ranks above every pair that makes it. */
  ghost predicate RankOrdered(ranks: Ranks<string>) {
    forall made, used :: made in ranks && used in ranks && (used.0 == made.0 + made.1 || used.1 == made.0 + made.1) ==>
      ranks[made] < ranks[used]
  }

  ghost predicate UniqueRanks(ranks: Ranks<string>) {
    forall p, q :: p in ranks && q in ranks && ranks[p] == ranks[q] ==> p == q
  }

  // ---- what a pass keeps ------------------------------------------------------------------

  lemma {:induction false} ConcatSplit(a: seq<string>, b: seq<string>)
    ensures Concat(a + b) == Concat(a) + Concat(b)
  {
    if a == [] {
      assert a + b == b;
    } else {
      assert (a + b)[1..] == a[1..] + b;
      ConcatSplit(a[1..], b);
    }
  }

  lemma {:induction false} PassKeeps(pieces: seq<string>, pair: (string, string))
    ensures Concat(Pass(pieces, pair)) == Concat(pieces)
    ensures NonEmpty(pieces) ==> NonEmpty(Pass(pieces, pair))
  {
    if |pieces| < 2 {
    } else if PairAt(pieces, 0) == pair {
      PassKeeps(pieces[2..], pair);
      assert pieces == [pieces[0], pieces[1]] + pieces[2..];
      ConcatSplit([pieces[0], pieces[1]], pieces[2..]);
      assert [pieces[0], pieces[1]][1..] == [pieces[1]];
      ConcatSplit([pair.0 + pair.1], Pass(pieces[2..], pair));
    } else {
      PassKeeps(pieces[1..], pair);
      ConcatSplit([pieces[0]], Pass(pieces[1..], pair));
    }
  }

  /** The 8B loop keeps the text, and stops only when no adjacent pair has a rank. */
  lemma {:induction false} MergeAllKeeps(pieces: seq<string>, ranks: Ranks<string>)
    ensures Concat(MergeAll(pieces, ranks)) == Concat(pieces)
    ensures var r := MergeAll(pieces, ranks); forall i :: 0 <= i && i + 1 < |r| ==> PairAt(r, i) !in ranks
    ensures NonEmpty(pieces) ==> NonEmpty(MergeAll(pieces, ranks))
    decreases |pieces|
  {
    match BestOf(pieces, ranks)
    case None =>
    case Some(i) =>
      PassKeeps(pieces, PairAt(pieces, i));
      MergeAllKeeps(Pass(pieces, PairAt(pieces, i)), ranks);
  }

  // ---- leftmost-only merging on texts -----------------------------------------------------

  function MergeFirst(pieces: seq<string>, ranks: Ranks<string>): seq<string>
    decreases |pieces|
  {
    match BestOf(pieces, ranks)
    case None => pieces
    case Some(i) => MergeFirst(Replaced(pieces, i, pieces[i] + pieces[i + 1]), ranks)
  }

  /**
   The front `done` has been swept: no pair in the row ranks below `pair`, and `pair` itself
   does not start inside `done`.
   */
  ghost predicate Swept(done: seq<string>, rest: seq<string>, pair: (string, string), ranks: Ranks<string>)
    requires pair in ranks
  {
    var row := done + rest;
    && NonEmpty(row)
    && (forall i :: 0 <= i && i + 1 < |row| && PairAt(row, i) in ranks ==> ranks[pair] <= ranks[PairAt(row, i)])
    && (forall i :: 0 <= i < |done| && i + 1 < |row| ==> PairAt(row, i) != pair)
  }

  lemma SweptMerges(done: seq<string>, rest: seq<string>, pair: (string, string), ranks: Ranks<string>)
    requires pair in ranks && Swept(done, rest, pair, ranks) && UniqueRanks(ranks)
    requires |rest| >= 2 && PairAt(rest, 0) == pair
    ensures BestOf(done + rest, ranks) == Some(|done|)
    ensures Replaced(done + rest, |done|, pair.0 + pair.1) == done + [pair.0 + pair.1] + rest[2..]
  {
    var row := done + rest;
    assert PairAt(row, |done|) == pair;
    var b := Best(row, ranks, |row| - 1);
    assert b.Some?;
    assert ranks[PairAt(row, b.value)] == ranks[pair];
  }

  lemma SweptAfterMerge(done: seq<string>, rest: seq<string>, pair: (string, string), ranks: Ranks<string>)
    requires pair in ranks && Swept(done, rest, pair, ranks) && RankOrdered(ranks)
    requires |rest| >= 2 && PairAt(rest, 0) == pair
    ensures Swept(done + [pair.0 + pair.1], rest[2..], pair, ranks)
  {
    var ab := pair.0 + pair.1;
    var row := done + rest;
    var row' := done + [ab] + rest[2..];
    assert row[|done|] == pair.0 && row[|done| + 1] == pair.1;
    forall i | 0 <= i < |row'| ensures row'[i] != "" {
      if i < |done| {
        assert row'[i] == row[i];
      } else if i > |done| {
        assert row'[i] == row[i + 1];
      }
    }
    forall i | 0 <= i && i + 1 < |row'|
      ensures PairAt(row', i) in ranks ==> ranks[pair] <= ranks[PairAt(row', i)]
      ensures i <= |done| ==> PairAt(row', i) != pair
    {
      if i + 1 < |done| {
        assert PairAt(row', i) == PairAt(row, i);
      } else if i + 1 == |done| {
        assert PairAt(row', i).1 == ab && |ab| > |pair.1|;
      } else if i == |done| {
        assert PairAt(row', i).0 == ab && |ab| > |pair.0|;
      } else {
        assert PairAt(row', i) == PairAt(row, i + 1);
      }
    }
  }

  lemma SweptAfterSkip(done: seq<string>, rest: seq<string>, pair: (string, string), ranks: Ranks<string>)
    requires pair in ranks && Swept(done, rest, pair, ranks)
    requires |rest| >= 1 && (|rest| >= 2 ==> PairAt(rest, 0) != pair)
    ensures done + rest == (done + [rest[0]]) + rest[1..]
    ensures Swept(done + [rest[0]], rest[1..], pair, ranks)
  {
    assert done + rest == (done + [rest[0]]) + rest[1..];
    if |rest| >= 2 {
      assert PairAt(done + rest, |done|) == PairAt(rest, 0);
    }
  }

  /** One round of the leftmost loop at the front of the unswept rest. */
  lemma SweptRound(done: seq<string>, rest: seq<string>, pair: (string, string), ranks: Ranks<string>)
    requires pair in ranks && Swept(done, rest, pair, ranks) && UniqueRanks(ranks)
    requires |rest| >= 2 && PairAt(rest, 0) == pair
    ensures MergeFirst(done + rest, ranks) == MergeFirst((done + [pair.0 + pair.1]) + rest[2..], ranks)
  {
    SweptMerges(done, rest, pair, ranks);
  }

  /** Merging leftmost-first from a swept row ends where the single pass over the rest leads. */
  lemma {:induction false} Sweep(done: seq<string>, rest: seq<string>, pair: (string, string), ranks: Ranks<string>)
    requires pair in ranks && Swept(done, rest, pair, ranks) && UniqueRanks(ranks) && RankOrdered(ranks)
    ensures MergeFirst(done + rest, ranks) == MergeFirst(done + Pass(rest, pair), ranks)
    decreases |rest|, 1
  {
    if |rest| < 2 {
    } else if PairAt(rest, 0) == pair {
      SweepMerge(done, rest, pair, ranks);
    } else {
      SweepSkip(done, rest, pair, ranks);
    }
  }

  lemma {:induction false} SweepMerge(done: seq<string>, rest: seq<string>, pair: (string, string), ranks: Ranks<string>)
    requires pair in ranks && Swept(done, rest, pair, ranks) && UniqueRanks(ranks) && RankOrdered(ranks)
    requires |rest| >= 2 && PairAt(rest, 0) == pair
    ensures MergeFirst(done + rest, ranks) == MergeFirst(done + Pass(rest, pair), ranks)
    decreases |rest|, 0
  {
    var done' := done + [pair.0 + pair.1];
    SweptRound(done, rest, pair, ranks);
    SweptAfterMerge(done, rest, pair, ranks);
    Sweep(done', rest[2..], pair, ranks);
    PassTakes(done, rest, pair);
  }

  lemma {:induction false} SweepSkip(done: seq<string>, rest: seq<string>, pair: (string, string), ranks: Ranks<string>)
    requires pair in ranks && Swept(done, rest, pair, ranks) && UniqueRanks(ranks) && RankOrdered(ranks)
    requires |rest| >= 2 && PairAt(rest, 0) != pair
    ensures MergeFirst(done + rest, ranks) == MergeFirst(done + Pass(rest, pair), ranks)
    decreases |rest|, 0
  {
    var done' := done + [rest[0]];
    SweptAfterSkip(done, rest, pair, ranks);
    Sweep(done', rest[1..], pair, ranks);
    PassTakes(done, rest, pair);
  }

  /** With unique, ordered ranks both ways of merging texts end in the same row. */
  lemma {:induction false} FirstIsAll(pieces: seq<string>, ranks: Ranks<string>)
    requires UniqueRanks(ranks) && RankOrdered(ranks) && NonEmpty(pieces)
    ensures MergeFirst(pieces, ranks) == MergeAll(pieces, ranks)
    decreases |pieces|
  {
    match BestOf(pieces, ranks)
    case None =>
    case Some(i) =>
      var pair := PairAt(pieces, i);
      assert [] + pieces == pieces && [] + Pass(pieces, pair) == Pass(pieces, pair);
      Sweep([], pieces, pair, ranks);
      PassKeeps(pieces, pair);
      FirstIsAll(Pass(pieces, pair), ranks);
  }

  // ---- ids against texts --------------------------------------------------------------------

  function Texts(v: Vocabulary, parts: seq<nat>): (r: seq<string>)
    requires Within(v, parts)
    ensures |r| == |parts|
  {
    seq(|parts|, i requires 0 <= i < |parts| => v.tokens[parts[i]])
  }

  /** The id-pair ranks are the text-pair ranks, and what they make has an id. */
  ghost predicate SameTable(v: Vocabulary, ranks: Ranks<string>) {
    && (forall a, b :: 0 <= a < |v.tokens| && 0 <= b < |v.tokens| ==>
          ((a, b) in v.ranks <==> (v.tokens[a], v.tokens[b]) in ranks))
    && (forall a, b :: 0 <= a < |v.tokens| && 0 <= b < |v.tokens| && (a, b) in v.ranks ==>
          v.ranks[(a, b)] == ranks[(v.tokens[a], v.tokens[b])])
    && (forall p :: p in ranks ==> p.0 + p.1 in v.ids)
  }

  /** Adjacent pair `i` has the same rank, or none, in both rows. */
  predicate PairMatches<S(==), T(==)>(p: seq<S>, pRanks: Ranks<S>, q: seq<T>, qRanks: Ranks<T>, i: nat)
    requires |p| == |q| && i + 1 < |p|
  {
    if PairAt(p, i) in pRanks then PairAt(q, i) in qRanks && pRanks[PairAt(p, i)] == qRanks[PairAt(q, i)]
    else PairAt(q, i) !in qRanks
  }

  lemma {:induction false} SameBest<S, T>(p: seq<S>, pRanks: Ranks<S>, q: seq<T>, qRanks: Ranks<T>, n: nat)
    requires |p| == |q| && (n == 0 || n < |p|)
    requires forall i :: 0 <= i && i + 1 < |p| ==> PairMatches(p, pRanks, q, qRanks, i)
    ensures Best(p, pRanks, n) == Best(q, qRanks, n)
  {
    if n > 0 {
      SameBest(p, pRanks, q, qRanks, n - 1);
      assert PairMatches(p, pRanks, q, qRanks, n - 1);
      var b := Best(p, pRanks, n - 1);
      if b.Some? {
        assert PairMatches(p, pRanks, q, qRanks, b.value);
      }
    }
  }

  lemma SamePair(v: Vocabulary, ranks: Ranks<string>, parts: seq<nat>, i: nat)
    requires Within(v, parts) && SameTable(v, ranks) && i + 1 < |parts|
    ensures PairMatches(parts, v.ranks, Texts(v, parts), ranks, i)
  {
    assert PairAt(Texts(v, parts), i) == (v.tokens[parts[i]], v.tokens[parts[i + 1]]);
  }

  lemma SamePairs(v: Vocabulary, ranks: Ranks<string>, parts: seq<nat>)
    requires Within(v, parts) && SameTable(v, ranks)
    ensures BestOf(parts, v.ranks) == BestOf(Texts(v, parts), ranks)
  {
    if |parts| >= 2 {
      forall i | 0 <= i && i + 1 < |parts| ensures PairMatches(parts, v.ranks, Texts(v, parts), ranks, i) {
        SamePair(v, ranks, parts, i);
      }
      SameBest(parts, v.ranks, Texts(v, parts), ranks, |parts| - 1);
    }
  }

  /** What the best pair makes has an id, and that id has the joined text. */
  lemma JoinedHasId(v: Vocabulary, ranks: Ranks<string>, parts: seq<nat>, i: nat)
    requires ValidVocabulary(v) && Within(v, parts) && SameTable(v, ranks)
    requires i + 1 < |parts| && PairAt(parts, i) in v.ranks
    ensures var merged := Joined(v, PairAt(parts, i));
            && merged == Texts(v, parts)[i] + Texts(v, parts)[i + 1]
            && merged in v.ids && v.ids[merged] < |v.tokens| && v.tokens[v.ids[merged]] == merged
  {
    assert (v.tokens[parts[i]], v.tokens[parts[i + 1]]) in ranks;
  }

  lemma ReplacedTexts(v: Vocabulary, parts: seq<nat>, i: nat, id: nat)
    requires Within(v, parts) && i + 1 < |parts| && id < |v.tokens|
    ensures Within(v, Replaced(parts, i, id))
    ensures Texts(v, Replaced(parts, i, id)) == Replaced(Texts(v, parts), i, v.tokens[id])
  {
    var next := Replaced(parts, i, id);
    assert forall k :: 0 <= k < |next| ==> next[k] == if k < i then parts[k] else if k == i then id else parts[k + 1];
  }

  lemma RoundFirst(pieces: seq<string>, ranks: Ranks<string>, i: nat)
    requires BestOf(pieces, ranks) == Some(i)
    ensures MergeFirst(pieces, ranks) == MergeFirst(Replaced(pieces, i, pieces[i] + pieces[i + 1]), ranks)
  {
  }

  lemma {:induction false} LeftmostTexts(v: Vocabulary, ranks: Ranks<string>, parts: seq<nat>)
    requires ValidVocabulary(v) && Within(v, parts) && SameTable(v, ranks)
    ensures Texts(v, MergeLeftmost(parts, v)) == MergeFirst(Texts(v, parts), ranks)
    decreases |parts|, 1
  {
    SamePairs(v, ranks, parts);
    match BestOf(parts, v.ranks)
    case None =>
    case Some(i) => LeftmostTextsRound(v, ranks, parts, i);
  }

  lemma {:induction false} LeftmostTextsRound(v: Vocabulary, ranks: Ranks<string>, parts: seq<nat>, i: nat)
    requires ValidVocabulary(v) && Within(v, parts) && SameTable(v, ranks)
    requires BestOf(parts, v.ranks) == Some(i) == BestOf(Texts(v, parts), ranks)
    ensures Texts(v, MergeLeftmost(parts, v)) == MergeFirst(Texts(v, parts), ranks)
    decreases |parts|, 0
  {
    JoinedHasId(v, ranks, parts, i);
    var id := v.ids[Joined(v, PairAt(parts, i))];
    RoundLeftmost(parts, v, i);
    ReplacedTexts(v, parts, i, id);
    RoundFirst(Texts(v, parts), ranks, i);
    LeftmostTexts(v, ranks, Replaced(parts, i, id));
  }

  /** Every character of the text has an id, as byte-level vocabularies promise. */
  ghost predicate Covered(text: string, v: Vocabulary) {
    forall i :: 0 <= i < |text| ==> [text[i]] in v.ids
  }

  /** A part is canonical when its text leads back to it. */
  ghost predicate Canonical(v: Vocabulary, parts: seq<nat>)
    requires Within(v, parts)
  {
    forall i :: 0 <= i < |parts| ==> v.tokens[parts[i]] in v.ids && v.ids[v.tokens[parts[i]]] == parts[i]
  }

  lemma {:induction false} CharIdsTexts(text: string, v: Vocabulary)
    requires ValidVocabulary(v) && Covered(text, v)
    ensures Texts(v, CharIds(text, v)) == Chars(text)
    ensures Canonical(v, CharIds(text, v))
  {
    if text != "" {
      assert text[..1] == [text[0]];
      assert Covered(text[1..], v) by {
        assert forall i :: 0 <= i < |text| - 1 ==> text[1..][i] == text[i + 1];
      }
      CharIdsTexts(text[1..], v);
      var first := v.ids[text[..1]];
      assert CharIds(text, v) == [first] + CharIds(text[1..], v);
      assert Chars(text) == [[text[0]]] + Chars(text[1..]);
      assert Texts(v, CharIds(text, v)) == [v.tokens[first]] + Texts(v, CharIds(text[1..], v));
    }
  }

  lemma ReplacedCanonical(v: Vocabulary, parts: seq<nat>, i: nat, id: nat)
    requires Within(v, parts) && Canonical(v, parts) && i + 1 < |parts|
    requires id < |v.tokens| && v.tokens[id] in v.ids && v.ids[v.tokens[id]] == id
    ensures Within(v, Replaced(parts, i, id)) && Canonical(v, Replaced(parts, i, id))
  {
    var next := Replaced(parts, i, id);
    assert forall k :: 0 <= k < |next| ==> next[k] == if k < i then parts[k] else if k == i then id else parts[k + 1];
  }

  lemma {:induction false} LeftmostCanonical(parts: seq<nat>, v: Vocabulary)
    requires ValidVocabulary(v) && Within(v, parts) && Canonical(v, parts)
    ensures Canonical(v, MergeLeftmost(parts, v))
    decreases |parts|
  {
    match BestOf(parts, v.ranks)
    case None =>
    case Some(i) =>
      var merged := Joined(v, PairAt(parts, i));
      if merged in v.ids {
        var id := v.ids[merged];
        assert v.tokens[id] == merged;
        RoundLeftmost(parts, v, i);
        ReplacedCanonical(v, parts, i, id);
        LeftmostCanonical(Replaced(parts, i, id), v);
      }
  }

  lemma {:induction false} ConcatChars(text: string)
    ensures Concat(Chars(text)) == text
  {
    if text != "" {
      assert Chars(text) == [[text[0]]] + Chars(text[1..]);
      assert Chars(text)[1..] == Chars(text[1..]);
      ConcatChars(text[1..]);
    }
  }

  // ---- the agreement --------------------------------------------------------------------------

  /** Off the whole-piece shortcut the two tokenizers give the same tokens, and the same ids. */
  lemma Agreement(text: string, v: Vocabulary, ranks: Ranks<string>)
    requires ValidVocabulary(v) && SameTable(v, ranks) && UniqueRanks(ranks) && RankOrdered(ranks)
    requires Covered(text, v) && text !in v.ids
    ensures var ids := Encoded35B(text, v);
            var pieces := MergeAll(Chars(text), ranks);
            && Within(v, ids) && Texts(v, ids) == pieces
            && forall i :: 0 <= i < |pieces| ==> pieces[i] in v.ids && v.ids[pieces[i]] == ids[i]
  {
    var start := CharIds(text, v);
    CharIdsTexts(text, v);
    LeftmostTexts(v, ranks, start);
    FirstIsAll(Chars(text), ranks);
    LeftmostCanonical(start, v);
    var ids := MergeLeftmost(start, v);
    assert forall i :: 0 <= i < |ids| ==> Texts(v, ids)[i] == v.tokens[ids[i]];
  }

  /** Shortcut included, they agree exactly when it is not taken or the merges build the whole piece. */
  lemma AgreementExactly(text: string, v: Vocabulary, ranks: Ranks<string>)
    requires ValidVocabulary(v) && SameTable(v, ranks) && UniqueRanks(ranks) && RankOrdered(ranks)
    requires Covered(text, v)
    ensures Within(v, Encoded35B(text, v))
    ensures Texts(v, Encoded35B(text, v)) == MergeAll(Chars(text), ranks) <==>
            text !in v.ids || |MergeAll(Chars(text), ranks)| == 1
  {
    var pieces := MergeAll(Chars(text), ranks);
    if text !in v.ids {
      Agreement(text, v, ranks);
    } else {
      MergeAllKeeps(Chars(text), ranks);
      ConcatChars(text);
      assert Texts(v, [v.ids[text]]) == [text];
      if |pieces| == 1 {
        assert pieces[1..] == [] && Concat(pieces) == pieces[0];
      }
    }
  }

  // ---- both tables come from one merge list ---------------------------------------------------

  /** The rank of a merge is its place in the list; a repeated merge keeps its last place. */
  function RanksOf<T(==)>(merges: seq<(T, T)>): Ranks<T> {
    if merges == [] then map[]
    else RanksOf(merges[..|merges| - 1])[merges[|merges| - 1] := |merges| - 1]
  }

  function IdPairs(merges: seq<(string, string)>, ids: map<string, nat>): seq<(nat, nat)>
    requires forall m :: m in merges ==> m.0 in ids && m.1 in ids
  {
    seq(|merges|, i requires 0 <= i < |merges| => (ids[merges[i].0], ids[merges[i].1]))
  }

  lemma {:induction false} RanksOfPlaces<T>(merges: seq<(T, T)>)
    ensures forall p :: p in RanksOf(merges) <==> p in merges
    ensures forall p :: p in RanksOf(merges) ==> RanksOf(merges)[p] < |merges| && merges[RanksOf(merges)[p]] == p
    ensures forall i :: 0 <= i < |merges| ==> i <= RanksOf(merges)[merges[i]]
  {
    if merges != [] {
      var front := merges[..|merges| - 1];
      RanksOfPlaces(front);
      assert merges == front + [merges[|merges| - 1]];
    }
  }

  /** Every id has its own text, and every id pair in `v` is the id form of the merge list. */
  ghost predicate BuiltFrom(v: Vocabulary, merges: seq<(string, string)>) {
    && (forall t :: 0 <= t < |v.tokens| ==> v.tokens[t] in v.ids && v.ids[v.tokens[t]] == t)
    && (forall m :: m in merges ==> m.0 in v.ids && m.1 in v.ids && m.0 + m.1 in v.ids)
    && v.ranks == RanksOf(IdPairs(merges, v.ids))
  }

  lemma OneMergeList(v: Vocabulary, merges: seq<(string, string)>)
    requires ValidVocabulary(v) && BuiltFrom(v, merges)
    ensures SameTable(v, RanksOf(merges)) && UniqueRanks(RanksOf(merges))
  {
    var texts, pairs := RanksOf(merges), IdPairs(merges, v.ids);
    RanksOfPlaces(merges);
    RanksOfPlaces(pairs);
    forall a, b | 0 <= a < |v.tokens| && 0 <= b < |v.tokens|
      ensures (a, b) in v.ranks <==> (v.tokens[a], v.tokens[b]) in texts
      ensures (a, b) in v.ranks ==> v.ranks[(a, b)] == texts[(v.tokens[a], v.tokens[b])]
    {
      var p, q := (a, b), (v.tokens[a], v.tokens[b]);
      if p in v.ranks {
        var i := v.ranks[p];
        assert pairs[i] == p && merges[i] == q;
        assert i <= texts[q] && merges[texts[q]] == q && pairs[texts[q]] == p;
      }
      if q in texts {
        assert pairs[texts[q]] == p;
      }
    }
  }

  // ---- where the hypotheses are needed -----------------------------------------------------------

  const UNORDERED: Ranks<string> := map[("ab", "a") := 0, ("a", "b") := 1]
  const SMALL := Vocabulary(["a", "b", "ab", "aba"], map["a" := 0, "b" := 1, "ab" := 2, "aba" := 3],
                            map[(2, 0) := 0, (0, 1) := 1])

  lemma BestIs<T>(parts: seq<T>, ranks: Ranks<T>, i: nat)
    requires i + 1 < |parts| && PairAt(parts, i) in ranks
    requires forall j :: 0 <= j && j + 1 < |parts| && j != i && PairAt(parts, j) in ranks ==>
               ranks[PairAt(parts, i)] < ranks[PairAt(parts, j)] ||
               (i < j && ranks[PairAt(parts, i)] == ranks[PairAt(parts, j)])
    ensures BestOf(parts, ranks) == Some(i)
  {
    var b := Best(parts, ranks, |parts| - 1);
    assert b.Some? && ranks[PairAt(parts, b.value)] <= ranks[PairAt(parts, i)];
  }

  lemma Joins()
    ensures "a" + "b" == "ab" && "ab" + "a" == "aba"
  {
  }

  lemma PairsFirst()
    ensures MergeAll(["a", "b", "a", "b"], UNORDERED) == ["ab", "ab"]
  {
    var row, two := ["a", "b", "a", "b"], ["a", "b"];
    Joins();
    assert PairAt(row, 0) == ("a", "b") && PairAt(row, 1) == ("b", "a") && PairAt(row, 2) == ("a", "b");
    BestIs(row, UNORDERED, 0);
    assert Pass(two, ("a", "b")) == ["ab"] by {
      assert PairAt(two, 0) == ("a", "b") && two[2..] == [];
    }
    assert row[2..] == two;
    assert Pass(row, ("a", "b")) == ["ab", "ab"];
    assert PairAt(["ab", "ab"], 0) == ("ab", "ab");
    assert BestOf(["ab", "ab"], UNORDERED) == None;
  }

  lemma LeftmostFirst()
    ensures MergeFirst(["a", "b", "a", "b"], UNORDERED) == ["aba", "b"]
  {
    var row, next := ["a", "b", "a", "b"], ["ab", "a", "b"];
    Joins();
    assert PairAt(row, 0) == ("a", "b") && PairAt(row, 1) == ("b", "a") && PairAt(row, 2) == ("a", "b");
    BestIs(row, UNORDERED, 0);
    assert Replaced(row, 0, "ab") == next;
    RoundFirst(row, UNORDERED, 0);
    LeftmostSecond();
  }

  lemma LeftmostSecond()
    ensures MergeFirst(["ab", "a", "b"], UNORDERED) == ["aba", "b"]
  {
    var next, last := ["ab", "a", "b"], ["aba", "b"];
    Joins();
    assert PairAt(next, 0) == ("ab", "a") && PairAt(next, 1) == ("a", "b");
    BestIs(next, UNORDERED, 0);
    assert Replaced(next, 0, "aba") == last;
    RoundFirst(next, UNORDERED, 0);
    assert PairAt(last, 0) == ("aba", "b");
    assert BestOf(last, UNORDERED) == None;
  }

  lemma SmallTables()
    ensures ValidVocabulary(SMALL) && SameTable(SMALL, UNORDERED)
  {
    Joins();
  }

  lemma SmallCovers()
    ensures UniqueRanks(UNORDERED) && Covered("abab", SMALL) && "abab" !in SMALL.ids
  {
    assert "a" in SMALL.ids && "b" in SMALL.ids;
  }

  lemma SmallUnordered()
    ensures !RankOrdered(UNORDERED)
  {
    Joins();
    var made, used := ("a", "b"), ("ab", "a");
    assert made in UNORDERED && used in UNORDERED && used.0 == made.0 + made.1;
  }

  /** With a use ranked below its making, the two tokenizers part on "abab". */
  lemma OrderMatters()
    ensures ValidVocabulary(SMALL) && SameTable(SMALL, UNORDERED) && UniqueRanks(UNORDERED) && !RankOrdered(UNORDERED)
    ensures Covered("abab", SMALL) && "abab" !in SMALL.ids
    ensures MergeAll(Chars("abab"), UNORDERED) == ["ab", "ab"]
    ensures Within(SMALL, Encoded35B("abab", SMALL)) && Texts(SMALL, Encoded35B("abab", SMALL)) == ["aba", "b"]
  {
    SmallTables();
    SmallCovers();
    SmallUnordered();
    assert Chars("abab") == ["a", "b", "a", "b"];
    PairsFirst();
    CharIdsTexts("abab", SMALL);
    var start := CharIds("abab", SMALL);
    LeftmostTexts(SMALL, UNORDERED, start);
    LeftmostFirst();
  }

  /** The whole-piece shortcut gives a token no merge makes. */
  lemma ShortcutMatters()
    ensures var v := Vocabulary(["a", "b", "ab"], map["a" := 0, "b" := 1, "ab" := 2], map[]);
            && ValidVocabulary(v) && SameTable(v, map[]) && Covered("ab", v)
            && Encoded35B("ab", v) == [2] && MergeAll(Chars("ab"), map[]) == ["a", "b"]
  {
    assert Chars("ab") == ["a", "b"];
  }
}
