/**
 The two byte-pair-encoding loops: `bpe` of ios/Sources/Edge0Core/Edge0Tokenizer8B.swift merges
 every occurrence of the best pair in one pass; `bpe` of
 ios/Sources/Edge0MLX/Edge035B/Tokenizer.swift replaces only the leftmost one, on token ids.
 */
module Bpe {
  import opened Common

  type Ranks<!T(==)> = map<(T, T), nat>

  const INT_MAX: nat := 0x7FFF_FFFF_FFFF_FFFF
  const INT32_MAX: nat := 0x7FFF_FFFF

  // ---- what one round looks for ---------------------------------------------------------

  function PairAt<T>(parts: seq<T>, i: nat): (T, T) requires i + 1 < |parts| {
    (parts[i], parts[i + 1])
  }

  /** Leftmost lowest-ranked adjacent pair among the first `n`. */
  function Best<T(==)>(parts: seq<T>, ranks: Ranks<T>, n: nat): (r: Option<nat>)
    requires n == 0 || n < |parts|
    ensures r.Some? ==> r.value < n && PairAt(parts, r.value) in ranks
    ensures r.None? <==> forall j :: 0 <= j < n ==> PairAt(parts, j) !in ranks
    ensures r.Some? ==> forall j :: 0 <= j < n && PairAt(parts, j) in ranks ==>
              ranks[PairAt(parts, r.value)] <= ranks[PairAt(parts, j)]
    ensures r.Some? ==> forall j :: 0 <= j < r.value && PairAt(parts, j) in ranks ==>
              ranks[PairAt(parts, r.value)] < ranks[PairAt(parts, j)]
  {
    if n == 0 then None
    else
      var b := Best(parts, ranks, n - 1);
      var key := PairAt(parts, n - 1);
      if key in ranks && (b.None? || ranks[key] < ranks[PairAt(parts, b.value)]) then Some(n - 1) else b
  }

  function BestOf<T(==)>(parts: seq<T>, ranks: Ranks<T>): Option<nat> {
    if |parts| < 2 then None else Best(parts, ranks, |parts| - 1)
  }

  // ---- 8B: all occurrences at once --------------------------------------------------------

  function Pass(pieces: seq<string>, pair: (string, string)): (r: seq<string>)
    ensures |r| <= |pieces|
    ensures (exists i :: 0 <= i && i + 1 < |pieces| && PairAt(pieces, i) == pair) ==> |r| < |pieces|
  {
    if |pieces| < 2 then pieces
    else if PairAt(pieces, 0) == pair then [pair.0 + pair.1] + Pass(pieces[2..], pair)
    else
      assert forall i :: 0 < i && i + 1 < |pieces| ==> PairAt(pieces, i) == PairAt(pieces[1..], i - 1);
      [pieces[0]] + Pass(pieces[1..], pair)
  }

  function MergeAll(pieces: seq<string>, ranks: Ranks<string>): seq<string>
    decreases |pieces|
  {
    match BestOf(pieces, ranks)
    case None => pieces
    case Some(i) => MergeAll(Pass(pieces, PairAt(pieces, i)), ranks)
  }

  function Chars(text: string): (r: seq<string>)
    ensures |r| == |text|
  {
    seq(|text|, i requires 0 <= i < |text| => [text[i]])
  }

  /** The scan of the 8B loop: the best pair itself, if any adjacent pair has a rank. */
  method Select8B(pieces: seq<string>, ranks: Ranks<string>) returns (selected: Option<(string, string)>)
    requires |pieces| > 1 && forall p :: p in ranks ==> ranks[p] < INT_MAX
    ensures selected == match BestOf(pieces, ranks) case None => None case Some(i) => Some(PairAt(pieces, i))
  {
    selected := None;
    var selectedRank := INT_MAX;
    for index := 0 to |pieces| - 1
      invariant match Best(pieces, ranks, index)
                case None => selected == None && selectedRank == INT_MAX
                case Some(i) => selected == Some(PairAt(pieces, i)) && selectedRank == ranks[PairAt(pieces, i)]
    {
      var pair := (pieces[index], pieces[index + 1]);
      if pair in ranks && ranks[pair] < selectedRank {
        selected := Some(pair);
        selectedRank := ranks[pair];
      }
    }
  }

  lemma PassTakes(done: seq<string>, rest: seq<string>, pair: (string, string))
    requires |rest| >= 2
    ensures done + Pass(rest, pair) ==
            if PairAt(rest, 0) == pair then (done + [pair.0 + pair.1]) + Pass(rest[2..], pair)
            else (done + [rest[0]]) + Pass(rest[1..], pair)
  {
    if PairAt(rest, 0) == pair {
      var tail := Pass(rest[2..], pair);
      assert done + ([pair.0 + pair.1] + tail) == (done + [pair.0 + pair.1]) + tail;
    } else {
      var tail := Pass(rest[1..], pair);
      assert done + ([rest[0]] + tail) == (done + [rest[0]]) + tail;
    }
  }

  /** The rebuilding of `pieces` with every occurrence of the pair merged, left to right. */
  method MergePass8B(pieces: seq<string>, pair: (string, string)) returns (merged: seq<string>)
    ensures merged == Pass(pieces, pair)
  {
    merged := [];
    var index := 0;
    while index < |pieces|
      invariant 0 <= index <= |pieces|
      invariant merged + Pass(pieces[index..], pair) == Pass(pieces, pair)
    {
      ghost var rest := pieces[index..];
      if index + 1 < |pieces| {
        PassTakes(merged, rest, pair);
      } else {
        assert rest == [pieces[index]] && rest[1..] == [];
      }
      if index + 1 < |pieces| && pieces[index] == pair.0 && pieces[index + 1] == pair.1 {
        assert rest[2..] == pieces[index + 2..];
        merged := merged + [pair.0 + pair.1];
        index := index + 2;
      } else {
        assert rest[1..] == pieces[index + 1..];
        merged := merged + [pieces[index]];
        index := index + 1;
      }
    }
  }

  /** `bpe` of the 8B tokenizer. */
  method Bpe8B(text: string, ranks: Ranks<string>) returns (pieces: seq<string>)
    requires forall p :: p in ranks ==> ranks[p] < INT_MAX
    ensures pieces == MergeAll(Chars(text), ranks)
  {
    pieces := Chars(text);
    while |pieces| > 1
      invariant MergeAll(pieces, ranks) == MergeAll(Chars(text), ranks)
      decreases |pieces|
    {
      var selected := Select8B(pieces, ranks);
      if selected.None? { return; }
      pieces := MergePass8B(pieces, selected.value);
    }
  }

  // ---- 35B: the leftmost occurrence only, on ids -------------------------------------------

  /** Token texts by id, ids by text, merge ranks by id pair. */
  datatype Vocabulary = Vocabulary(tokens: seq<string>, ids: map<string, nat>, ranks: Ranks<nat>)

  ghost predicate ValidVocabulary(v: Vocabulary) {
    && (forall s :: s in v.ids ==> v.ids[s] < |v.tokens| && v.tokens[v.ids[s]] == s)
    && (forall p :: p in v.ranks ==> v.ranks[p] < INT32_MAX)
  }

  predicate Within(v: Vocabulary, parts: seq<nat>) {
    forall i :: 0 <= i < |parts| ==> parts[i] < |v.tokens|
  }

  function Joined(v: Vocabulary, pair: (nat, nat)): string
    requires pair.0 < |v.tokens| && pair.1 < |v.tokens|
  {
    v.tokens[pair.0] + v.tokens[pair.1]
  }

  function Replaced<T>(parts: seq<T>, i: nat, x: T): seq<T> requires i + 1 < |parts| {
    parts[..i] + [x] + parts[i + 2..]
  }

  function MergeLeftmost(parts: seq<nat>, v: Vocabulary): (r: seq<nat>)
    requires ValidVocabulary(v) && Within(v, parts)
    ensures Within(v, r)
    decreases |parts|
  {
    match BestOf(parts, v.ranks)
    case None => parts
    case Some(i) =>
      var merged := Joined(v, PairAt(parts, i));
      if merged !in v.ids then parts else MergeLeftmost(Replaced(parts, i, v.ids[merged]), v)
  }

  /** The characters that have an id, in order. */
  function CharIds(text: string, v: Vocabulary): (r: seq<nat>)
    requires ValidVocabulary(v)
    ensures Within(v, r)
  {
    if text == "" then []
    else (if text[..1] in v.ids then [v.ids[text[..1]]] else []) + CharIds(text[1..], v)
  }

  function Encoded35B(text: string, v: Vocabulary): seq<nat>
    requires ValidVocabulary(v)
  {
    if text in v.ids then [v.ids[text]] else MergeLeftmost(CharIds(text, v), v)
  }

  lemma RoundLeftmost(parts: seq<nat>, v: Vocabulary, i: nat)
    requires ValidVocabulary(v) && Within(v, parts) && BestOf(parts, v.ranks) == Some(i)
    requires Joined(v, PairAt(parts, i)) in v.ids
    ensures var next := Replaced(parts, i, v.ids[Joined(v, PairAt(parts, i))]);
            Within(v, next) && MergeLeftmost(parts, v) == MergeLeftmost(next, v)
  {
  }

  /** The scan of the 35B loop: where the leftmost best pair starts, or -1. */
  method Select35B(parts: seq<nat>, ranks: Ranks<nat>) returns (bestIndex: int)
    requires |parts| > 1 && forall p :: p in ranks ==> ranks[p] < INT32_MAX
    ensures bestIndex == match BestOf(parts, ranks) case None => -1 case Some(i) => i
  {
    var bestRank := INT32_MAX;
    bestIndex := -1;
    for index := 0 to |parts| - 1
      invariant match Best(parts, ranks, index)
                case None => bestIndex == -1 && bestRank == INT32_MAX
                case Some(i) => bestIndex == i && bestRank == ranks[PairAt(parts, i)]
    {
      var key := (parts[index], parts[index + 1]);
      if key in ranks && ranks[key] < bestRank {
        bestRank := ranks[key];
        bestIndex := index;
      }
    }
  }

  /** `bpe` of the 35B tokenizer. */
  method Bpe35B(text: string, v: Vocabulary) returns (parts: seq<nat>)
    requires ValidVocabulary(v)
    ensures parts == Encoded35B(text, v)
  {
    if text in v.ids { return [v.ids[text]]; }
    parts := CharIds(text, v);
    ghost var answer := MergeLeftmost(parts, v);
    while |parts| > 1
      invariant Within(v, parts) && MergeLeftmost(parts, v) == answer
      decreases |parts|
    {
      var bestIndex := Select35B(parts, v.ranks);
      if bestIndex < 0 { return; }
      var merged := v.tokens[parts[bestIndex]] + v.tokens[parts[bestIndex + 1]];
      if merged !in v.ids { return; }
      RoundLeftmost(parts, v, bestIndex);
      parts := parts[..bestIndex] + [v.ids[merged]] + parts[bestIndex + 2..];
    }
  }
}
