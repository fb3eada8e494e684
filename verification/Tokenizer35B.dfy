/**
 Encoding and decoding of ios/Sources/Edge0MLX/Edge035B/Tokenizer.swift. Normalisation, the split pattern
 and UTF-8 are parameters: the pattern's matches partition a text.
 */
module Tokenizer35B {
  import opened Common
  import opened ByteLevel
  import opened Runs
  import Bpe
  import BpeAgreement

  datatype Tokenizer = Tokenizer(v: Bpe.Vocabulary, specials: map<string, nat>, specialTexts: map<int, string>,
                                 nfc: string -> string, split: string -> seq<string>, utf8: char -> Bytes)

  ghost predicate Valid(t: Tokenizer) {
    && Bpe.ValidVocabulary(t.v)
    && (forall text :: BpeAgreement.Concat(t.split(text)) == text)
  }

  // ---- the special tables ---------------------------------------------------------------------

  /** No two entries share an id. */
  predicate DistinctIds(entries: seq<(string, nat)>) {
    forall i, j :: 0 <= i < j < |entries| ==> entries[i].1 != entries[j].1
  }

  /** The two tables filled entry by entry; with distinct ids each special text is found again by its id. */
  method SpecialTables(entries: seq<(string, nat)>) returns (specials: map<string, nat>, specialTexts: map<int, string>)
    ensures forall s :: s in specials <==> exists i :: 0 <= i < |entries| && entries[i].0 == s
    ensures forall s :: s in specials ==> (s, specials[s]) in entries
    ensures forall id :: id in specialTexts <==> exists i :: 0 <= i < |entries| && entries[i].1 == id
    ensures DistinctIds(entries) ==> forall s :: s in specials ==> specialTexts[specials[s]] == s
  {
    specials, specialTexts := map[], map[];
    for index := 0 to |entries|
      invariant forall s :: s in specials <==> exists i :: 0 <= i < index && entries[i].0 == s
      invariant forall s :: s in specials ==> (s, specials[s]) in entries[..index]
      invariant forall id :: id in specialTexts <==> exists i :: 0 <= i < index && entries[i].1 == id
      invariant forall s :: s in specials ==> specials[s] in specialTexts
      invariant DistinctIds(entries) ==> forall s :: s in specials ==> specialTexts[specials[s]] == s
    {
      assert entries[..index + 1] == entries[..index] + [entries[index]];
      specials := specials[entries[index].0 := entries[index].1];
      specialTexts := specialTexts[entries[index].1 := entries[index].0];
    }
    assert entries[..|entries|] == entries;
  }

  // ---- splitting on special tokens --------------------------------------------------------------

  predicate OccursAt(text: string, token: string, i: nat) {
    i + |token| <= |text| && text[i..i + |token|] == token
  }

  /** `range(of:)`: where a token first occurs at or after `from`; the empty token occurs nowhere. */
  function Find(text: string, token: string, from: nat): (r: Option<nat>)
    ensures r.Some? ==> token != "" && from <= r.value && OccursAt(text, token, r.value)
    ensures r.Some? ==> forall i :: from <= i < r.value ==> !OccursAt(text, token, i)
    ensures r.None? && token != "" ==> forall i :: from <= i ==> !OccursAt(text, token, i)
    decreases |text| - from
  {
    if token == "" || from + |token| > |text| then None
    else if OccursAt(text, token, from) then Some(from)
    else Find(text, token, from + 1)
  }

  /** A stretch of ordinary text, or a special token; the text of the latter is kept here for the statements. */
  datatype Piece = Chunk(text: string) | Special(text: string, id: nat)

  function Spelled(pieces: seq<Piece>): string {
    if pieces == [] then "" else pieces[0].text + Spelled(pieces[1..])
  }

  /** No special token occurs inside the text. */
  ghost predicate Ordinary(specials: map<string, nat>, text: string) {
    forall s, i: nat :: s in specials && s != "" ==> !OccursAt(text, s, i)
  }

  ghost predicate PieceOk(specials: map<string, nat>, piece: Piece) {
    match piece
    case Chunk(text) => Ordinary(specials, text)
    case Special(text, id) => text != "" && text in specials && specials[text] == id
  }

  lemma {:induction false} SpelledJoined(a: seq<Piece>, b: seq<Piece>)
    ensures Spelled(a + b) == Spelled(a) + Spelled(b)
  {
    if a == [] {
      assert a + b == b;
    } else {
      assert (a + b)[1..] == a[1..] + b;
      SpelledJoined(a[1..], b);
    }
  }

  lemma SpelledPush(pieces: seq<Piece>, piece: Piece)
    ensures Spelled(pieces + [piece]) == Spelled(pieces) + piece.text
  {
    SpelledJoined(pieces, [piece]);
    assert [piece][1..] == [];
  }

  /** The token that starts earliest, whichever of several the dictionary brings up first. */
  method Earliest(specials: map<string, nat>, text: string) returns (best: Option<(nat, string)>)
    ensures best.Some? ==> best.value.1 in specials && Find(text, best.value.1, 0) == Some(best.value.0)
    ensures best.Some? ==> forall s :: s in specials && Find(text, s, 0).Some? ==> best.value.0 <= Find(text, s, 0).value
    ensures best.None? ==> forall s :: s in specials ==> Find(text, s, 0).None?
  {
    var left := specials.Keys;
    best := None;
    while left != {}
      invariant left <= specials.Keys
      invariant best.Some? ==> best.value.1 in specials && Find(text, best.value.1, 0) == Some(best.value.0)
      invariant best.Some? ==>
                  forall s :: s in specials.Keys - left && Find(text, s, 0).Some? ==> best.value.0 <= Find(text, s, 0).value
      invariant best.None? ==> forall s :: s in specials.Keys - left ==> Find(text, s, 0).None?
      decreases left
    {
      var token :| token in left;
      left := left - {token};
      var at := Find(text, token, 0);
      if at.Some? && (best.None? || at.value < best.value.0) {
        best := Some((at.value, token));
      }
    }
  }

  lemma AbsentInFront(text: string, n: nat, token: string, i: nat)
    requires n <= |text| && !OccursAt(text, token, i)
    ensures !OccursAt(text[..n], token, i)
  {
    if i + |token| <= n {
      assert text[..n][i..i + |token|] == text[i..i + |token|];
    }
  }

  /** Text before the earliest special token holds none. */
  lemma FrontOrdinary(specials: map<string, nat>, text: string, n: nat)
    requires n <= |text|
    requires forall s :: s in specials && Find(text, s, 0).Some? ==> n <= Find(text, s, 0).value
    ensures Ordinary(specials, text[..n])
  {
    forall s, i: nat | s in specials && s != "" && i + |s| <= n ensures !OccursAt(text[..n], s, i) {
      var at := Find(text, s, 0);
      assert at.Some? ==> i < at.value;
      AbsentInFront(text, n, s, i);
    }
  }

  /** The pieces after the token found at `at`: the text before it, if any, then the token. */
  function Taken(pieces: seq<Piece>, text: string, at: nat, token: string, id: nat): seq<Piece>
    requires at <= |text|
  {
    (if at > 0 then pieces + [Chunk(text[..at])] else pieces) + [Special(token, id)]
  }

  lemma TokenInside(before: string, text: string, at: nat, token: string)
    requires OccursAt(text, token, at)
    ensures before + text[..at] + token + text[at + |token|..] == before + text
  {
    assert text == text[..at] + token + text[at + |token|..];
  }

  lemma TokenTaken(pieces: seq<Piece>, text: string, at: nat, token: string, id: nat)
    requires OccursAt(text, token, at)
    ensures Spelled(Taken(pieces, text, at, token, id)) + text[at + |token|..] == Spelled(pieces) + text
  {
    var front, rest := text[..at], text[at + |token|..];
    TokenInside(Spelled(pieces), text, at, token);
    if at > 0 {
      SpelledPush(pieces, Chunk(front));
      SpelledPush(pieces + [Chunk(front)], Special(token, id));
    } else {
      SpelledPush(pieces, Special(token, id));
      assert Spelled(pieces) + front == Spelled(pieces);
    }
  }

  /** `splitOnSpecials`: the pieces spell the text, and no special token is left inside ordinary text. */
  method SplitOnSpecials(specials: map<string, nat>, text: string) returns (pieces: seq<Piece>)
    ensures Spelled(pieces) == text
    ensures forall p :: p in pieces ==> PieceOk(specials, p)
  {
    if specials == map[] {
      SpelledPush([], Chunk(text));
      assert [] + [Chunk(text)] == [Chunk(text)];
      return [Chunk(text)];
    }
    pieces := [];
    var remainder := text;
    while remainder != ""
      invariant Spelled(pieces) + remainder == text
      invariant forall p :: p in pieces ==> PieceOk(specials, p)
      decreases |remainder|
    {
      var earliest := Earliest(specials, remainder);
      if earliest.None? {
        FrontOrdinary(specials, remainder, |remainder|);
        assert remainder[..|remainder|] == remainder;
        break;
      }
      var (at, token) := earliest.value;
      FrontOrdinary(specials, remainder, at);
      TokenTaken(pieces, remainder, at, token, specials[token]);
      pieces := Taken(pieces, remainder, at, token, specials[token]);
      remainder := remainder[at + |token|..];
    }
    if remainder != "" {
      SpelledPush(pieces, Chunk(remainder));
      pieces := pieces + [Chunk(remainder)];
    }
  }

  // ---- decoding -----------------------------------------------------------------------------------

  /** The bytes of one id: a special text, else a byte-level token, else nothing. */
  function IdBytes(t: Tokenizer, id: int): Bytes {
    if id in t.specialTexts then Utf8(t.utf8, t.specialTexts[id])
    else if 0 <= id < |t.v.tokens| then Unmapped(t.v.tokens[id])
    else []
  }

  function Decoded(t: Tokenizer, ids: seq<int>): Bytes {
    if ids == [] then [] else IdBytes(t, ids[0]) + Decoded(t, ids[1..])
  }

  lemma FrontOf(a: seq<int>, b: seq<int>)
    requires a != []
    ensures (a + b)[0] == a[0] && (a + b)[1..] == a[1..] + b
  {
  }

  lemma Regrouped(x: Bytes, y: Bytes, z: Bytes)
    ensures x + (y + z) == (x + y) + z
  {
  }

  lemma {:induction false} DecodedJoined(t: Tokenizer, a: seq<int>, b: seq<int>)
    ensures Decoded(t, a + b) == Decoded(t, a) + Decoded(t, b)
  {
    if a == [] {
      assert a + b == b;
    } else {
      FrontOf(a, b);
      DecodedJoined(t, a[1..], b);
      Regrouped(IdBytes(t, a[0]), Decoded(t, a[1..]), Decoded(t, b));
    }
  }

  /** One turn of the loop of `decode`. */
  method AppendId(t: Tokenizer, ghost encoder: map<byte, char>, decoder: map<char, byte>, id: int, bytes: Bytes)
    returns (out: Bytes)
    requires MapsUpTo(encoder, decoder, 256)
    ensures out == bytes + IdBytes(t, id)
  {
    if id in t.specialTexts {
      out := bytes + Utf8(t.utf8, t.specialTexts[id]);
    } else if 0 <= id < |t.v.tokens| {
      out := AppendUnmapped(encoder, decoder, t.v.tokens[id], bytes);
    } else {
      out := bytes;
    }
  }

  lemma DecodedNext(t: Tokenizer, ids: seq<int>, i: nat, bytes: Bytes)
    requires i < |ids|
    ensures bytes + Decoded(t, ids[i..]) == (bytes + IdBytes(t, ids[i])) + Decoded(t, ids[i + 1..])
  {
    assert ids[i..][1..] == ids[i + 1..];
    Regrouped(bytes, IdBytes(t, ids[i]), Decoded(t, ids[i + 1..]));
  }

  method Decode(t: Tokenizer, ids: seq<int>) returns (bytes: Bytes)
    ensures bytes == Decoded(t, ids)
  {
    var encoder, decoder := MakeByteMaps();
    bytes := [];
    assert ids[0..] == ids;
    for i := 0 to |ids|
      invariant bytes + Decoded(t, ids[i..]) == Decoded(t, ids)
    {
      DecodedNext(t, ids, i, bytes);
      bytes := AppendId(t, encoder, decoder, ids[i], bytes);
    }
    assert ids[|ids|..] == [];
  }

  // ---- ordinary text ----------------------------------------------------------------------------------

  /** The characters of a text that have an id; the others are dropped. */
  function Kept(text: string, v: Bpe.Vocabulary): string {
    if text == "" then "" else (if text[..1] in v.ids then text[..1] else "") + Kept(text[1..], v)
  }

  lemma {:induction false} KeptAll(text: string, v: Bpe.Vocabulary)
    ensures |Kept(text, v)| <= |text|
    ensures Kept(text, v) == text <==> BpeAgreement.Covered(text, v)
  {
    if text != "" {
      KeptAll(text[1..], v);
      assert text == text[..1] + text[1..] && text[..1] == [text[0]];
      if BpeAgreement.Covered(text, v) {
        assert forall i :: 0 <= i < |text| - 1 ==> text[1..][i] == text[i + 1];
      } else if [text[0]] in v.ids {
        var i :| 0 <= i < |text| && [text[i]] !in v.ids;
        assert text[1..][i - 1] == text[i];
      }
    }
  }

  /** The joined text of a row of tokens. */
  function RowText(v: Bpe.Vocabulary, parts: seq<nat>): string
    requires Bpe.Within(v, parts)
  {
    if parts == [] then "" else v.tokens[parts[0]] + RowText(v, parts[1..])
  }

  lemma {:induction false} RowTextJoined(v: Bpe.Vocabulary, a: seq<nat>, b: seq<nat>)
    requires Bpe.Within(v, a) && Bpe.Within(v, b)
    ensures Bpe.Within(v, a + b) && RowText(v, a + b) == RowText(v, a) + RowText(v, b)
  {
    if a == [] {
      assert a + b == b;
    } else {
      assert (a + b)[1..] == a[1..] + b;
      RowTextJoined(v, a[1..], b);
    }
  }

  lemma RowTextPush(v: Bpe.Vocabulary, id: nat, rest: seq<nat>)
    requires Bpe.Within(v, rest) && id < |v.tokens|
    ensures Bpe.Within(v, [id] + rest) && RowText(v, [id] + rest) == v.tokens[id] + RowText(v, rest)
  {
    assert ([id] + rest)[1..] == rest;
  }

  lemma PairMergedText(v: Bpe.Vocabulary, front: seq<nat>, a: nat, b: nat, back: seq<nat>, id: nat)
    requires Bpe.Within(v, front) && Bpe.Within(v, back)
    requires a < |v.tokens| && b < |v.tokens| && id < |v.tokens| && v.tokens[id] == v.tokens[a] + v.tokens[b]
    ensures Bpe.Within(v, front + ([id] + back)) && Bpe.Within(v, front + ([a] + ([b] + back)))
    ensures RowText(v, front + ([id] + back)) == RowText(v, front + ([a] + ([b] + back)))
  {
    RowTextPush(v, b, back);
    RowTextPush(v, a, [b] + back);
    RowTextPush(v, id, back);
    RowTextJoined(v, front, [a] + ([b] + back));
    RowTextJoined(v, front, [id] + back);
  }

  lemma PairInside(parts: seq<nat>, i: nat, id: nat)
    requires i + 1 < |parts|
    ensures parts == parts[..i] + ([parts[i]] + ([parts[i + 1]] + parts[i + 2..]))
    ensures Bpe.Replaced(parts, i, id) == parts[..i] + ([id] + parts[i + 2..])
  {
  }

  lemma ReplacedRowText(v: Bpe.Vocabulary, parts: seq<nat>, i: nat, id: nat)
    requires Bpe.Within(v, parts) && i + 1 < |parts| && id < |v.tokens|
    requires v.tokens[id] == Bpe.Joined(v, Bpe.PairAt(parts, i))
    ensures Bpe.Within(v, Bpe.Replaced(parts, i, id))
    ensures RowText(v, Bpe.Replaced(parts, i, id)) == RowText(v, parts)
  {
    PairInside(parts, i, id);
    PairMergedText(v, parts[..i], parts[i], parts[i + 1], parts[i + 2..], id);
  }

  /** The leftmost loop keeps the text of its row. */
  lemma {:induction false} LeftmostKeeps(parts: seq<nat>, v: Bpe.Vocabulary)
    requires Bpe.ValidVocabulary(v) && Bpe.Within(v, parts)
    ensures RowText(v, Bpe.MergeLeftmost(parts, v)) == RowText(v, parts)
    decreases |parts|
  {
    match Bpe.BestOf(parts, v.ranks)
    case None =>
    case Some(i) =>
      var merged := Bpe.Joined(v, Bpe.PairAt(parts, i));
      if merged in v.ids {
        Bpe.RoundLeftmost(parts, v, i);
        ReplacedRowText(v, parts, i, v.ids[merged]);
        LeftmostKeeps(Bpe.Replaced(parts, i, v.ids[merged]), v);
      }
  }

  lemma {:induction false} CharIdsKept(text: string, v: Bpe.Vocabulary)
    requires Bpe.ValidVocabulary(v)
    ensures RowText(v, Bpe.CharIds(text, v)) == Kept(text, v)
    ensures BpeAgreement.Canonical(v, Bpe.CharIds(text, v))
  {
    if text != "" {
      CharIdsKept(text[1..], v);
      var rest := Bpe.CharIds(text[1..], v);
      if text[..1] in v.ids {
        var first := v.ids[text[..1]];
        assert Bpe.CharIds(text, v) == [first] + rest;
        RowTextPush(v, first, rest);
      } else {
        assert Bpe.CharIds(text, v) == rest;
      }
    }
  }

  /** What `bpe` returns spells its text exactly when the text is one token or every character has an id. */
  lemma BpeSpellsExactly(text: string, v: Bpe.Vocabulary)
    requires Bpe.ValidVocabulary(v)
    ensures var ids := Bpe.Encoded35B(text, v);
            && Bpe.Within(v, ids) && BpeAgreement.Canonical(v, ids)
            && (RowText(v, ids) == text <==> text in v.ids || BpeAgreement.Covered(text, v))
  {
    if text in v.ids {
      assert [v.ids[text]][1..] == [];
    } else {
      var start := Bpe.CharIds(text, v);
      CharIdsKept(text, v);
      KeptAll(text, v);
      LeftmostKeeps(start, v);
      BpeAgreement.LeftmostCanonical(start, v);
    }
  }

  /** Every byte's character has an id. */
  ghost predicate AllBytes(v: Bpe.Vocabulary) {
    forall b: byte :: [CharOf(b)] in v.ids
  }

  lemma {:induction false} AllCovered(bytes: Bytes, v: Bpe.Vocabulary)
    requires AllBytes(v)
    ensures BpeAgreement.Covered(Mapped(bytes), v)
  {
    if bytes != [] {
      AllCovered(bytes[1..], v);
      var s := Mapped(bytes);
      assert s == [CharOf(bytes[0])] + Mapped(bytes[1..]);
      assert forall i :: 1 <= i < |s| ==> s[i] == Mapped(bytes[1..])[i - 1];
    }
  }

  /**
   A special id hides no ordinary token: where a token that can be produced shares its id with a special
   one, both stand for the same bytes.
   */
  ghost predicate Unhidden(t: Tokenizer) {
    forall s :: s in t.v.ids && t.v.ids[s] in t.specialTexts ==>
      Utf8(t.utf8, t.specialTexts[t.v.ids[s]]) == Unmapped(s)
  }

  lemma {:induction false} RowDecodes(t: Tokenizer, parts: seq<nat>)
    requires Valid(t) && Unhidden(t) && Bpe.Within(t.v, parts) && BpeAgreement.Canonical(t.v, parts)
    ensures Decoded(t, parts) == Unmapped(RowText(t.v, parts))
  {
    if parts != [] {
      assert BpeAgreement.Canonical(t.v, parts[1..]);
      RowDecodes(t, parts[1..]);
      var token := t.v.tokens[parts[0]];
      assert t.v.ids[token] == parts[0];
      UnmappedJoined(token, RowText(t.v, parts[1..]));
    }
  }

  lemma MatchDecodes(t: Tokenizer, piece: string, ids: seq<nat>)
    requires Valid(t) && Unhidden(t) && AllBytes(t.v)
    requires ids == Bpe.Encoded35B(Mapped(Utf8(t.utf8, piece)), t.v)
    ensures Decoded(t, ids) == Utf8(t.utf8, piece)
  {
    var bytes := Utf8(t.utf8, piece);
    AllCovered(bytes, t.v);
    BpeSpellsExactly(Mapped(bytes), t.v);
    RowDecodes(t, ids);
    UnmappedMapped(bytes);
  }

  /** The runs of the first matches: what `bpe` gives for the byte-level match. */
  ghost predicate MatchRuns(t: Tokenizer, matches: seq<string>, runs: seq<seq<nat>>)
    requires Valid(t)
  {
    && |runs| <= |matches|
    && forall i :: 0 <= i < |runs| ==> runs[i] == Bpe.Encoded35B(Mapped(Utf8(t.utf8, matches[i])), t.v)
  }

  lemma MatchAppended(t: Tokenizer, matches: seq<string>, runs: seq<seq<nat>>, run: seq<nat>)
    requires Valid(t) && MatchRuns(t, matches, runs) && |runs| < |matches|
    requires run == Bpe.Encoded35B(Mapped(Utf8(t.utf8, matches[|runs|])), t.v)
    ensures MatchRuns(t, matches, runs + [run])
  {
  }

  /** Ordinary text's ids: match by match of the split of its normal form, the run of the match. */
  ghost predicate OrdinaryIds(t: Tokenizer, text: string, ids: seq<nat>)
    requires Valid(t)
  {
    var matches := t.split(t.nfc(text));
    exists runs, cuts :: LaidOut(ids, runs, cuts) && |runs| == |matches| && MatchRuns(t, matches, runs)
  }

  lemma {:induction false} ConcatPush(pieces: seq<string>, n: nat)
    requires n < |pieces|
    ensures BpeAgreement.Concat(pieces[..n + 1]) == BpeAgreement.Concat(pieces[..n]) + pieces[n]
  {
    assert pieces[..n + 1] == pieces[..n] + [pieces[n]];
    BpeAgreement.ConcatSplit(pieces[..n], [pieces[n]]);
    assert [pieces[n]][1..] == [];
  }

  lemma MatchesDecode(t: Tokenizer, matches: seq<string>, n: nat, output: seq<nat>, ids: seq<nat>)
    requires Valid(t) && Unhidden(t) && AllBytes(t.v) && n < |matches|
    requires Decoded(t, output) == Utf8(t.utf8, BpeAgreement.Concat(matches[..n]))
    requires ids == Bpe.Encoded35B(Mapped(Utf8(t.utf8, matches[n])), t.v)
    ensures Decoded(t, output + ids) == Utf8(t.utf8, BpeAgreement.Concat(matches[..n + 1]))
  {
    MatchDecodes(t, matches[n], ids);
    DecodedJoined(t, output, ids);
    ConcatPush(matches, n);
    Utf8Joined(t.utf8, BpeAgreement.Concat(matches[..n]), matches[n]);
  }

  /** `encodeOrdinary`: the merged tokens of each match in turn; decoding them gives the normal form's bytes back. */
  method EncodeOrdinary(t: Tokenizer, text: string) returns (output: seq<nat>)
    requires Valid(t)
    ensures OrdinaryIds(t, text, output)
    ensures Unhidden(t) && AllBytes(t.v) ==> Decoded(t, output) == Utf8(t.utf8, t.nfc(text))
  {
    var matches := t.split(t.nfc(text));
    ghost var runs: seq<seq<nat>>, cuts: seq<nat> := [], [0];
    output := [];
    for i := 0 to |matches|
      invariant |runs| == i && LaidOut(output, runs, cuts)
      invariant MatchRuns(t, matches, runs)
      invariant Unhidden(t) && AllBytes(t.v) ==>
                  Decoded(t, output) == Utf8(t.utf8, BpeAgreement.Concat(matches[..i]))
    {
      var ids := Bpe.Bpe35B(Mapped(Utf8(t.utf8, matches[i])), t.v);
      MatchAppended(t, matches, runs, ids);
      if Unhidden(t) && AllBytes(t.v) {
        MatchesDecode(t, matches, i, output, ids);
      }
      RunAppended(output, runs, cuts, ids);
      output, runs, cuts := output + ids, runs + [ids], cuts + [|output| + |ids|];
    }
    assert matches[..|matches|] == matches;
  }

  // ---- whole texts --------------------------------------------------------------------------------------

  /** Every stretch of the text is already normalised. */
  ghost predicate Normal(t: Tokenizer, text: string) {
    forall a, b :: 0 <= a <= b <= |text| ==> t.nfc(text[a..b]) == text[a..b]
  }

  /** Every special text is found again by its id, as far as its bytes go. */
  ghost predicate SpecialsFound(t: Tokenizer) {
    forall s :: s in t.specials ==> IdBytes(t, t.specials[s]) == Utf8(t.utf8, s)
  }

  /** What decoding relies on: every byte has a token, and no special id stands for other bytes. */
  ghost predicate Decodable(t: Tokenizer) {
    Unhidden(t) && AllBytes(t.v) && SpecialsFound(t)
  }

  lemma PieceInside(pieces: seq<Piece>, i: nat)
    requires i < |pieces|
    ensures var a, b := |Spelled(pieces[..i])|, |Spelled(pieces[..i + 1])|;
            && Spelled(pieces[..i + 1]) == Spelled(pieces[..i]) + pieces[i].text
            && a <= b <= |Spelled(pieces)| && Spelled(pieces)[a..b] == pieces[i].text
  {
    assert pieces[..i + 1] == pieces[..i] + [pieces[i]];
    SpelledPush(pieces[..i], pieces[i]);
    assert pieces == pieces[..i + 1] + pieces[i + 1..];
    SpelledJoined(pieces[..i + 1], pieces[i + 1..]);
  }

  lemma PiecesDecode(t: Tokenizer, pieces: seq<Piece>, n: nat, output: seq<nat>, ids: seq<nat>)
    requires n < |pieces| && Normal(t, Spelled(pieces))
    requires Decoded(t, output) == Utf8(t.utf8, Spelled(pieces[..n]))
    requires t.nfc(pieces[n].text) == pieces[n].text ==> Decoded(t, ids) == Utf8(t.utf8, pieces[n].text)
    ensures Decoded(t, output + ids) == Utf8(t.utf8, Spelled(pieces[..n + 1]))
  {
    PieceInside(pieces, n);
    Utf8Joined(t.utf8, Spelled(pieces[..n]), pieces[n].text);
    DecodedJoined(t, output, ids);
  }

  /** The ids of one piece: a special token's own id alone, ordinary text's merged tokens. */
  ghost predicate PieceIds(t: Tokenizer, piece: Piece, ids: seq<nat>)
    requires Valid(t)
  {
    match piece
    case Special(text, _) => text in t.specials && ids == [t.specials[text]]
    case Chunk(text) => OrdinaryIds(t, text, ids)
  }

  /** One turn of the loop of `encode`. */
  method EncodePiece(t: Tokenizer, piece: Piece) returns (ids: seq<nat>)
    requires Valid(t) && PieceOk(t.specials, piece)
    ensures PieceIds(t, piece, ids)
    ensures Decodable(t) && t.nfc(piece.text) == piece.text ==> Decoded(t, ids) == Utf8(t.utf8, piece.text)
  {
    match piece {
      case Special(_, id) =>
        ids := [id];
        assert ids[1..] == [];
      case Chunk(chunk) =>
        ids := EncodeOrdinary(t, chunk);
    }
  }

  /** The runs of the first pieces. */
  ghost predicate PieceRuns(t: Tokenizer, pieces: seq<Piece>, runs: seq<seq<nat>>)
    requires Valid(t)
  {
    |runs| <= |pieces| && forall i :: 0 <= i < |runs| ==> PieceIds(t, pieces[i], runs[i])
  }

  lemma PieceAppended(t: Tokenizer, pieces: seq<Piece>, runs: seq<seq<nat>>, run: seq<nat>)
    requires Valid(t) && PieceRuns(t, pieces, runs) && |runs| < |pieces| && PieceIds(t, pieces[|runs|], run)
    ensures PieceRuns(t, pieces, runs + [run])
  {
  }

  /**
   `encode`: piece by piece of a splitting that leaves no special token inside ordinary text, the piece's ids.
   Whichever special token wins a tie, decoding gives the bytes of the text back.
   */
  method Encode(t: Tokenizer, text: string) returns (output: seq<nat>, ghost pieces: seq<Piece>, ghost runs: seq<seq<nat>>)
    requires Valid(t)
    ensures Spelled(pieces) == text && |runs| == |pieces| && exists cuts :: LaidOut(output, runs, cuts)
    ensures forall i :: 0 <= i < |pieces| ==> PieceOk(t.specials, pieces[i]) && PieceIds(t, pieces[i], runs[i])
    ensures Decodable(t) && Normal(t, text) ==> Decoded(t, output) == Utf8(t.utf8, text)
  {
    var parts := SplitOnSpecials(t.specials, text);
    ghost var cuts: seq<nat> := [0];
    output, pieces, runs := [], parts, [];
    for i := 0 to |parts|
      invariant |runs| == i && LaidOut(output, runs, cuts)
      invariant PieceRuns(t, parts, runs)
      invariant Decodable(t) && Normal(t, text) ==>
                  Decoded(t, output) == Utf8(t.utf8, Spelled(parts[..i]))
    {
      var ids := EncodePiece(t, parts[i]);
      PieceAppended(t, parts, runs, ids);
      if Decodable(t) && Normal(t, text) {
        PiecesDecode(t, parts, i, output, ids);
      }
      RunAppended(output, runs, cuts, ids);
      output, runs, cuts := output + ids, runs + [ids], cuts + [|output| + |ids|];
    }
    assert parts[..|parts|] == parts;
  }
}
