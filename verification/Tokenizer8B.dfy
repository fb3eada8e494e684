/**
 Encoding and decoding of ios/Sources/Edge0Core/Edge0Tokenizer8B.swift, on text already normalised. The
 split pattern and UTF-8 are parameters: the pattern's matches partition a text.
 */
module Tokenizer8B {
  import opened Common
  import opened ByteLevel
  import opened Runs
  import Bpe
  import BpeAgreement

  datatype Tokenizer = Tokenizer(vocabulary: map<string, nat>, byId: map<nat, string>, ranks: Bpe.Ranks<string>,
                                 added: seq<(string, nat)>, split: string -> seq<string>, utf8: char -> Bytes)

  ghost predicate Valid(t: Tokenizer) {
    && (forall s :: s in t.vocabulary ==> t.vocabulary[s] in t.byId && t.byId[t.vocabulary[s]] == s)
    && (forall id :: id in t.byId ==> t.byId[id] in t.vocabulary && t.vocabulary[t.byId[id]] == id)
    && (forall p :: p in t.ranks ==> t.ranks[p] < Bpe.INT_MAX)
    && (forall text :: BpeAgreement.Concat(t.split(text)) == text)
    && (forall i :: 0 <= i < |t.added| ==> t.added[i].0 != "")
  }

  // ---- decoding -------------------------------------------------------------------------------

  function Behind<T>(front: seq<T>, rest: Option<seq<T>>): Option<seq<T>> {
    match rest case None => None case Some(s) => Some(front + s)
  }

  lemma BehindBoth<T>(a: seq<T>, b: seq<T>, rest: Option<seq<T>>)
    ensures Behind(a, Behind(b, rest)) == Behind(a + b, rest)
  {
    if rest.Some? {
      assert a + (b + rest.value) == (a + b) + rest.value;
    }
  }

  lemma BehindNothing<T>(rest: Option<seq<T>>)
    ensures Behind([], rest) == rest
  {
    if rest.Some? {
      assert [] + rest.value == rest.value;
    }
  }

  /** The text of an id: from the vocabulary, else of the first added token with that id. */
  function TextOf(t: Tokenizer, id: nat): Option<string> {
    if id in t.byId then Some(t.byId[id]) else AddedText(t.added, id)
  }

  function AddedText(added: seq<(string, nat)>, id: nat): Option<string> {
    if added == [] then None
    else if added[0].1 == id then Some(added[0].0)
    else AddedText(added[1..], id)
  }

  /** A character gives the byte it stands for, else its own UTF-8. */
  function CharBytes(t: Tokenizer, c: char): Bytes {
    match ByteOf(c) case Some(b) => [b] case None => t.utf8(c)
  }

  function TokenBytes(t: Tokenizer, token: string): Bytes {
    if token == "" then [] else CharBytes(t, token[0]) + TokenBytes(t, token[1..])
  }

  predicate IsAdded(t: Tokenizer, id: nat) {
    exists i :: 0 <= i < |t.added| && t.added[i].1 == id
  }

  /** `decode`: the bytes, or an error at an unknown id; added tokens can be skipped. */
  function Decoded(t: Tokenizer, ids: seq<nat>, skip: bool): Option<Bytes> {
    if ids == [] then Some([])
    else
      match TextOf(t, ids[0])
      case None => None
      case Some(token) =>
        match Decoded(t, ids[1..], skip)
        case None => None
        case Some(rest) => Some(Step(t, ids[0], token, skip) + rest)
  }

  method LookUp(t: Tokenizer, ghost encoder: map<byte, char>, decoder: map<char, byte>, c: char) returns (step: Bytes)
    requires MapsUpTo(encoder, decoder, 256)
    ensures step == CharBytes(t, c)
  {
    DecoderIs(encoder, decoder, c);
    step := if c in decoder then [decoder[c]] else t.utf8(c);
  }

  lemma TokenNext(t: Tokenizer, token: string, i: nat, out: Bytes)
    requires i < |token|
    ensures out + TokenBytes(t, token[i..]) == (out + CharBytes(t, token[i])) + TokenBytes(t, token[i + 1..])
  {
    assert token[i..][1..] == token[i + 1..];
  }

  /** The inner loop of `decode`, over the decoding table. */
  method AppendToken(t: Tokenizer, ghost encoder: map<byte, char>, decoder: map<char, byte>, token: string, bytes: Bytes)
    returns (out: Bytes)
    requires MapsUpTo(encoder, decoder, 256)
    ensures out == bytes + TokenBytes(t, token)
  {
    out := bytes;
    assert token[0..] == token;
    for i := 0 to |token|
      invariant out + TokenBytes(t, token[i..]) == bytes + TokenBytes(t, token)
    {
      TokenNext(t, token, i, out);
      var step := LookUp(t, encoder, decoder, token[i]);
      out := out + step;
    }
    assert token[|token|..] == "";
  }

  /** What one id adds: nothing for an added token that is skipped. */
  function Step(t: Tokenizer, id: nat, token: string, skip: bool): Bytes {
    if skip && IsAdded(t, id) then [] else TokenBytes(t, token)
  }

  lemma DecodedNext(t: Tokenizer, ids: seq<nat>, i: nat, skip: bool)
    requires i < |ids|
    ensures TextOf(t, ids[i]).None? ==> Decoded(t, ids[i..], skip) == None
    ensures TextOf(t, ids[i]).Some? ==>
              Decoded(t, ids[i..], skip) ==
              Behind(Step(t, ids[i], TextOf(t, ids[i]).value, skip), Decoded(t, ids[i + 1..], skip))
  {
    assert ids[i..][1..] == ids[i + 1..];
  }

  method Decode(t: Tokenizer, ids: seq<nat>, skip: bool) returns (bytes: Option<Bytes>)
    ensures bytes == Decoded(t, ids, skip)
  {
    var encoder, decoder := MakeByteMaps();
    var out: Bytes := [];
    assert ids[0..] == ids;
    BehindNothing(Decoded(t, ids, skip));
    for i := 0 to |ids|
      invariant Decoded(t, ids, skip) == Behind(out, Decoded(t, ids[i..], skip))
    {
      DecodedNext(t, ids, i, skip);
      var token := TextOf(t, ids[i]);
      if token.None? { return None; }
      BehindBoth(out, Step(t, ids[i], token.value, skip), Decoded(t, ids[i + 1..], skip));
      if skip && IsAdded(t, ids[i]) {
        assert out + [] == out;
      } else {
        out := AppendToken(t, encoder, decoder, token.value, out);
      }
    }
    assert ids[|ids|..] == [] && out + [] == out;
    bytes := Some(out);
  }

  lemma {:induction false} DecodedJoined(t: Tokenizer, a: seq<nat>, b: seq<nat>, x: Bytes, y: Bytes)
    requires Decoded(t, a, false) == Some(x) && Decoded(t, b, false) == Some(y)
    ensures Decoded(t, a + b, false) == Some(x + y)
  {
    if a == [] {
      assert a + b == b && x + y == y;
    } else {
      assert (a + b)[1..] == a[1..] + b;
      var token, rest := TokenBytes(t, TextOf(t, a[0]).value), Decoded(t, a[1..], false).value;
      DecodedJoined(t, a[1..], b, rest, y);
      assert token + (rest + y) == (token + rest) + y;
    }
  }

  /** The ids that are not those of added tokens. */
  function Unadded(t: Tokenizer, ids: seq<nat>): seq<nat> {
    if ids == [] then []
    else if exists i :: 0 <= i < |t.added| && t.added[i].1 == ids[0] then Unadded(t, ids[1..])
    else [ids[0]] + Unadded(t, ids[1..])
  }

  predicate AllKnown(t: Tokenizer, ids: seq<nat>) {
    forall i :: 0 <= i < |ids| ==> TextOf(t, ids[i]).Some?
  }

  lemma KnownNext(t: Tokenizer, ids: seq<nat>)
    requires ids != []
    ensures AllKnown(t, ids) <==> TextOf(t, ids[0]).Some? && AllKnown(t, ids[1..])
  {
    if TextOf(t, ids[0]).Some? && AllKnown(t, ids[1..]) {
      forall i | 0 <= i < |ids| ensures TextOf(t, ids[i]).Some? {
        assert i > 0 ==> ids[1..][i - 1] == ids[i];
      }
    }
  }

  /** Decoding fails exactly at an id no table knows, skipped or not. */
  lemma {:induction false} DecodesExactly(t: Tokenizer, ids: seq<nat>, skip: bool)
    ensures Decoded(t, ids, skip).Some? <==> AllKnown(t, ids)
  {
    if ids != [] {
      DecodesExactly(t, ids[1..], skip);
      KnownNext(t, ids);
    }
  }

  /** Skipping added tokens is decoding without them. */
  lemma {:induction false} SkippingDrops(t: Tokenizer, ids: seq<nat>)
    requires AllKnown(t, ids)
    ensures Decoded(t, ids, true) == Decoded(t, Unadded(t, ids), false)
  {
    if ids != [] {
      KnownNext(t, ids);
      SkippingDrops(t, ids[1..]);
      DecodesExactly(t, ids[1..], true);
      var rest, bytes := Unadded(t, ids[1..]), Decoded(t, ids[1..], true).value;
      if IsAdded(t, ids[0]) {
        assert [] + bytes == bytes;
      } else {
        assert ([ids[0]] + rest)[1..] == rest;
      }
    }
  }

  // ---- ordinary text ------------------------------------------------------------------------------

  /** Vocabulary lookups of the merged pieces; a missing one is an error. */
  function Ids(t: Tokenizer, pieces: seq<string>): Option<seq<nat>> {
    if pieces == [] then Some([])
    else if pieces[0] !in t.vocabulary then None
    else match Ids(t, pieces[1..]) case None => None case Some(rest) => Some([t.vocabulary[pieces[0]]] + rest)
  }

  /** The merged pieces of one match of the split. */
  function Merged(t: Tokenizer, piece: string): seq<string> {
    Bpe.MergeAll(Bpe.Chars(Mapped(Utf8(t.utf8, piece))), t.ranks)
  }

  /** One piece of the split: byte-level, merged, looked up. */
  function PieceIds(t: Tokenizer, piece: string): Option<seq<nat>> {
    Ids(t, Merged(t, piece))
  }

  function PiecesIds(t: Tokenizer, pieces: seq<string>): Option<seq<nat>> {
    if pieces == [] then Some([])
    else
      var first, rest := PieceIds(t, pieces[0]), PiecesIds(t, pieces[1..]);
      if first.None? || rest.None? then None else Some(first.value + rest.value)
  }

  /** `encodePlain` */
  function PlainIds(t: Tokenizer, text: string): Option<seq<nat>> {
    PiecesIds(t, t.split(text))
  }

  lemma {:induction false} IdsDecode(t: Tokenizer, pieces: seq<string>)
    requires Valid(t) && Ids(t, pieces).Some?
    ensures Decoded(t, Ids(t, pieces).value, false) == Some(TokenBytes(t, BpeAgreement.Concat(pieces)))
  {
    if pieces != [] {
      IdsDecode(t, pieces[1..]);
      var ids, rest := Ids(t, pieces).value, Ids(t, pieces[1..]).value;
      assert ids[1..] == rest && ids[0] == t.vocabulary[pieces[0]];
      TokenBytesJoined(t, pieces[0], BpeAgreement.Concat(pieces[1..]));
    }
  }

  lemma {:induction false} TokenBytesJoined(t: Tokenizer, a: string, b: string)
    ensures TokenBytes(t, a + b) == TokenBytes(t, a) + TokenBytes(t, b)
  {
    if a == "" {
      assert a + b == b;
    } else {
      assert (a + b)[1..] == a[1..] + b;
      TokenBytesJoined(t, a[1..], b);
    }
  }

  /** Byte-level text decodes to the bytes it was made of. */
  lemma {:induction false} TokenBytesMapped(t: Tokenizer, bytes: Bytes)
    ensures TokenBytes(t, Mapped(bytes)) == bytes
  {
    if bytes != [] {
      ByteOfChar(bytes[0]);
      TokenBytesMapped(t, bytes[1..]);
      assert Mapped(bytes)[1..] == Mapped(bytes[1..]);
    }
  }

  lemma PieceDecodes(t: Tokenizer, piece: string)
    requires Valid(t) && PieceIds(t, piece).Some?
    ensures Decoded(t, PieceIds(t, piece).value, false) == Some(Utf8(t.utf8, piece))
  {
    var byteLevel := Mapped(Utf8(t.utf8, piece));
    var pieces := Bpe.MergeAll(Bpe.Chars(byteLevel), t.ranks);
    BpeAgreement.MergeAllKeeps(Bpe.Chars(byteLevel), t.ranks);
    BpeAgreement.ConcatChars(byteLevel);
    IdsDecode(t, pieces);
    TokenBytesMapped(t, Utf8(t.utf8, piece));
  }

  lemma {:induction false} PiecesDecode(t: Tokenizer, pieces: seq<string>)
    requires Valid(t) && PiecesIds(t, pieces).Some?
    ensures Decoded(t, PiecesIds(t, pieces).value, false) == Some(Utf8(t.utf8, BpeAgreement.Concat(pieces)))
  {
    if pieces != [] {
      PieceDecodes(t, pieces[0]);
      PiecesDecode(t, pieces[1..]);
      Utf8Joined(t.utf8, pieces[0], BpeAgreement.Concat(pieces[1..]));
      DecodedJoined(t, PieceIds(t, pieces[0]).value, PiecesIds(t, pieces[1..]).value,
                    Utf8(t.utf8, pieces[0]), Utf8(t.utf8, BpeAgreement.Concat(pieces[1..])));
    }
  }

  /** Decoding the encoding of ordinary text gives its bytes back. */
  lemma PlainDecodes(t: Tokenizer, text: string)
    requires Valid(t) && PlainIds(t, text).Some?
    ensures Decoded(t, PlainIds(t, text).value, false) == Some(Utf8(t.utf8, text))
  {
    PiecesDecode(t, t.split(text));
  }

  // ---- when ordinary text can be encoded --------------------------------------------------------

  /** The 256 byte characters are in the vocabulary, and so is everything a merge makes. */
  ghost predicate Covers(t: Tokenizer) {
    && (forall b: byte :: [CharOf(b)] in t.vocabulary)
    && (forall p :: p in t.ranks ==> p.0 + p.1 in t.vocabulary)
  }

  ghost predicate AllIn(t: Tokenizer, pieces: seq<string>) {
    forall i :: 0 <= i < |pieces| ==> pieces[i] in t.vocabulary
  }

  lemma {:induction false} PassIn(t: Tokenizer, pieces: seq<string>, pair: (string, string))
    requires AllIn(t, pieces) && pair.0 + pair.1 in t.vocabulary
    ensures AllIn(t, Bpe.Pass(pieces, pair))
  {
    if |pieces| >= 2 {
      if Bpe.PairAt(pieces, 0) == pair {
        PassIn(t, pieces[2..], pair);
      } else {
        PassIn(t, pieces[1..], pair);
      }
    }
  }

  lemma {:induction false} MergedIn(t: Tokenizer, pieces: seq<string>)
    requires Covers(t) && AllIn(t, pieces)
    ensures AllIn(t, Bpe.MergeAll(pieces, t.ranks))
    decreases |pieces|
  {
    match Bpe.BestOf(pieces, t.ranks)
    case None =>
    case Some(i) =>
      PassIn(t, pieces, Bpe.PairAt(pieces, i));
      MergedIn(t, Bpe.Pass(pieces, Bpe.PairAt(pieces, i)));
  }

  lemma {:induction false} IdsFound(t: Tokenizer, pieces: seq<string>)
    requires AllIn(t, pieces)
    ensures Ids(t, pieces).Some?
  {
    if pieces != [] {
      assert AllIn(t, pieces[1..]);
      IdsFound(t, pieces[1..]);
    }
  }

  lemma {:induction false} MappedIn(t: Tokenizer, bytes: Bytes)
    requires Covers(t)
    ensures AllIn(t, Bpe.Chars(Mapped(bytes)))
  {
    if bytes != [] {
      MappedIn(t, bytes[1..]);
      var s := Mapped(bytes);
      forall i | 0 <= i < |s| ensures [s[i]] in t.vocabulary {
        if i > 0 {
          assert s[i] == Mapped(bytes[1..])[i - 1] && Bpe.Chars(Mapped(bytes[1..]))[i - 1] in t.vocabulary;
        }
      }
    }
  }

  lemma {:induction false} PiecesFound(t: Tokenizer, pieces: seq<string>)
    requires Covers(t)
    ensures PiecesIds(t, pieces).Some?
  {
    if pieces != [] {
      var chars := Bpe.Chars(Mapped(Utf8(t.utf8, pieces[0])));
      MappedIn(t, Utf8(t.utf8, pieces[0]));
      MergedIn(t, chars);
      IdsFound(t, Bpe.MergeAll(chars, t.ranks));
      PiecesFound(t, pieces[1..]);
    }
  }

  /** With the byte characters and all merges in the vocabulary every ordinary text can be encoded. */
  lemma PlainEncodes(t: Tokenizer, text: string)
    requires Covers(t)
    ensures PlainIds(t, text).Some?
  {
    PiecesFound(t, t.split(text));
  }

  // ---- the loops of `encodePlain` ---------------------------------------------------------------

  /** Piece by piece the id the vocabulary gives. */
  predicate LookedUp(t: Tokenizer, pieces: seq<string>, ids: seq<nat>) {
    |ids| == |pieces| && forall i :: 0 <= i < |ids| ==> pieces[i] in t.vocabulary && ids[i] == t.vocabulary[pieces[i]]
  }

  lemma {:induction false} IdsAre(t: Tokenizer, pieces: seq<string>, ids: seq<nat>)
    requires LookedUp(t, pieces, ids)
    ensures Ids(t, pieces) == Some(ids)
  {
    if pieces != [] {
      IdsAre(t, pieces[1..], ids[1..]);
      assert ids == [ids[0]] + ids[1..];
    }
  }

  lemma {:induction false} IdsMissing(t: Tokenizer, pieces: seq<string>, i: nat)
    requires i < |pieces| && pieces[i] !in t.vocabulary
    ensures Ids(t, pieces) == None
  {
    if i > 0 {
      IdsMissing(t, pieces[1..], i - 1);
    }
  }

  /** The inner loop: the ids of one match, or an error at a merged piece the vocabulary lacks. */
  method EncodeMatch(t: Tokenizer, piece: string) returns (ids: Option<seq<nat>>)
    requires Valid(t)
    ensures ids == PieceIds(t, piece)
    ensures ids.Some? ==> LookedUp(t, Merged(t, piece), ids.value)
    ensures ids.None? ==> !AllIn(t, Merged(t, piece))
  {
    var pieces := Bpe.Bpe8B(Mapped(Utf8(t.utf8, piece)), t.ranks);
    var out: seq<nat> := [];
    for i := 0 to |pieces|
      invariant LookedUp(t, pieces[..i], out)
    {
      if pieces[i] !in t.vocabulary {
        IdsMissing(t, pieces, i);
        return None;
      }
      out := out + [t.vocabulary[pieces[i]]];
    }
    assert pieces[..|pieces|] == pieces;
    IdsAre(t, pieces, out);
    ids := Some(out);
  }

  /** The runs of the first matches. */
  ghost predicate MatchRuns(t: Tokenizer, matches: seq<string>, runs: seq<seq<nat>>) {
    |runs| <= |matches| && forall i :: 0 <= i < |runs| ==> LookedUp(t, Merged(t, matches[i]), runs[i])
  }

  lemma MatchAppended(t: Tokenizer, matches: seq<string>, runs: seq<seq<nat>>, run: seq<nat>)
    requires MatchRuns(t, matches, runs) && |runs| < |matches| && LookedUp(t, Merged(t, matches[|runs|]), run)
    ensures MatchRuns(t, matches, runs + [run])
  {
  }

  lemma PiecesNext(t: Tokenizer, matches: seq<string>, i: nat)
    requires i < |matches|
    ensures PieceIds(t, matches[i]).None? ==> PiecesIds(t, matches[i..]) == None
    ensures PieceIds(t, matches[i]).Some? ==>
              PiecesIds(t, matches[i..]) == Behind(PieceIds(t, matches[i]).value, PiecesIds(t, matches[i + 1..]))
  {
    assert matches[i..][1..] == matches[i + 1..];
  }

  /** `encodePlain`: match by match of the split, the vocabulary's ids of its merged pieces; an error where one is missing. */
  method EncodePlain(t: Tokenizer, text: string) returns (ids: Option<seq<nat>>, ghost runs: seq<seq<nat>>)
    requires Valid(t)
    ensures ids == PlainIds(t, text)
    ensures MatchRuns(t, t.split(text), runs)
    ensures ids.Some? ==> |runs| == |t.split(text)| && exists cuts :: LaidOut(ids.value, runs, cuts)
    ensures ids.None? ==> |runs| < |t.split(text)| && !AllIn(t, Merged(t, t.split(text)[|runs|]))
  {
    var matches := t.split(text);
    var out: seq<nat> := [];
    ghost var cuts: seq<nat> := [0];
    runs := [];
    assert matches[0..] == matches;
    BehindNothing(PiecesIds(t, matches));
    for i := 0 to |matches|
      invariant |runs| == i && LaidOut(out, runs, cuts) && MatchRuns(t, matches, runs)
      invariant PlainIds(t, text) == Behind(out, PiecesIds(t, matches[i..]))
    {
      var run := EncodeMatch(t, matches[i]);
      PiecesNext(t, matches, i);
      if run.None? { return None, runs; }
      BehindBoth(out, run.value, PiecesIds(t, matches[i + 1..]));
      MatchAppended(t, matches, runs, run.value);
      RunAppended(out, runs, cuts, run.value);
      out, runs, cuts := out + run.value, runs + [run.value], cuts + [|out| + |run.value|];
    }
    assert matches[|matches|..] == [] && out + [] == out;
    ids := Some(out);
  }

  // ---- special texts --------------------------------------------------------------------------------

  /** ASCII is itself in UTF-8, and everything else longer than one byte. */
  ghost predicate Utf8Like(utf8: char -> Bytes) {
    forall c: char :: if c as int < 128 then utf8(c) == [c as int] else |utf8(c)| >= 2
  }

  /** Every character is ASCII, or stands for no byte. */
  predicate Readable(text: string) {
    forall i :: 0 <= i < |text| ==> text[i] as int < 128 || !StandsForByte(text[i])
  }

  lemma CharReads(t: Tokenizer, c: char)
    requires Utf8Like(t.utf8)
    ensures |CharBytes(t, c)| <= |t.utf8(c)|
    ensures c as int < 128 || !StandsForByte(c) ==> CharBytes(t, c) == t.utf8(c)
    ensures c as int >= 128 && StandsForByte(c) ==> |CharBytes(t, c)| < |t.utf8(c)|
  {
    ByteOfExactly(c);
    var r := ByteOf(c);
    if r.Some? && c as int < 128 {
      assert CharOf(r.value) == c;
      assert Printable(r.value);
    }
  }

  lemma {:induction false} ReadsShorter(t: Tokenizer, text: string)
    requires Utf8Like(t.utf8)
    ensures |TokenBytes(t, text)| <= |Utf8(t.utf8, text)|
    ensures Readable(text) ==> TokenBytes(t, text) == Utf8(t.utf8, text)
    ensures !Readable(text) ==> |TokenBytes(t, text)| < |Utf8(t.utf8, text)|
  {
    if text != "" {
      CharReads(t, text[0]);
      ReadsShorter(t, text[1..]);
      assert forall i :: 0 <= i < |text| - 1 ==> text[1..][i] == text[i + 1];
      if Readable(text[1..]) && !Readable(text) {
        var i :| 0 <= i < |text| && !(text[i] as int < 128 || !StandsForByte(text[i]));
        assert i > 0 ==> text[1..][i - 1] == text[i];
      }
    }
  }

  /**
   A special text decodes to its own bytes exactly when each of its characters is ASCII or none of the
   characters that stand for a byte: U+00A1 to U+00AC, U+00AE to U+0143.
   */
  lemma ReadableExactly(t: Tokenizer, text: string)
    requires Utf8Like(t.utf8)
    ensures TokenBytes(t, text) == Utf8(t.utf8, text) <==> Readable(text)
  {
    ReadsShorter(t, text);
  }

  /** An added token's id leads to its own text. */
  predicate IdsOwn(t: Tokenizer) {
    forall i :: 0 <= i < |t.added| ==> TextOf(t, t.added[i].1) == Some(t.added[i].0)
  }

  predicate HasPrefix(text: string, prefix: string) {
    |prefix| <= |text| && text[..|prefix|] == prefix
  }

  /** The first added token the text begins with. */
  function First(added: seq<(string, nat)>, text: string): (k: Option<nat>)
    ensures k.Some? ==> k.value < |added| && HasPrefix(text, added[k.value].0)
    ensures k.Some? ==> forall j :: 0 <= j < k.value ==> !HasPrefix(text, added[j].0)
    ensures k.None? ==> forall j :: 0 <= j < |added| ==> !HasPrefix(text, added[j].0)
  {
    if added == [] then None
    else if HasPrefix(text, added[0].0) then Some(0)
    else match First(added[1..], text) case None => None case Some(k) => Some(k + 1)
  }

  /** `addedTokens.first(where:)` */
  method FirstMatch(t: Tokenizer, suffix: string) returns (k: Option<nat>)
    ensures k == First(t.added, suffix)
  {
    for i := 0 to |t.added|
      invariant forall j :: 0 <= j < i ==> !HasPrefix(suffix, t.added[j].0)
    {
      if HasPrefix(suffix, t.added[i].0) { return Some(i); }
    }
    k := None;
  }

  // ---- whole texts ------------------------------------------------------------------------------------

  /** `flushPlain`: the ids of a pending ordinary run. */
  function Flushed(t: Tokenizer, plain: string): Option<seq<nat>> {
    if plain == "" then Some([]) else PlainIds(t, plain)
  }

  ghost predicate AddedGiven(t: Tokenizer) {
    forall i :: 0 <= i < |t.added| ==> t.added[i].0 != ""
  }

  /** `flushPlain` */
  method Flush(t: Tokenizer, plain: string) returns (ids: Option<seq<nat>>)
    requires Valid(t)
    ensures ids == Flushed(t, plain)
  {
    if plain == "" { return Some([]); }
    ghost var runs;
    ids, runs := EncodePlain(t, plain);
  }

  /** The ids of `plain` and what follows it: special tokens where they begin, ordinary runs between them. */
  ghost function EncodedFrom(t: Tokenizer, text: string, plain: string): Option<seq<nat>>
    requires AddedGiven(t)
    decreases |text|
  {
    if text == "" then Flushed(t, plain)
    else
      match First(t.added, text)
      case None => EncodedFrom(t, text[1..], plain + [text[0]])
      case Some(k) =>
        match Flushed(t, plain)
        case None => None
        case Some(front) =>
          match EncodedFrom(t, text[|t.added[k].0|..], "")
          case None => None
          case Some(rest) => Some(front + [t.added[k].1] + rest)
  }

  /** The special tokens met in a text, in order. */
  ghost function SpecialsIn(t: Tokenizer, text: string): (r: seq<nat>)
    requires AddedGiven(t)
    ensures forall i :: 0 <= i < |r| ==> r[i] < |t.added|
    decreases |text|
  {
    if text == "" then []
    else
      match First(t.added, text)
      case None => SpecialsIn(t, text[1..])
      case Some(k) => [k] + SpecialsIn(t, text[|t.added[k].0|..])
  }

  lemma SpecialNext(t: Tokenizer, text: string, plain: string, k: nat, front: seq<nat>)
    requires AddedGiven(t) && text != "" && First(t.added, text) == Some(k) && Flushed(t, plain) == Some(front)
    ensures EncodedFrom(t, text, plain) ==
            Behind(front + [t.added[k].1], EncodedFrom(t, text[|t.added[k].0|..], ""))
  {
  }

  lemma DropDrop(text: string, a: nat, b: nat)
    requires a + b <= |text|
    ensures text[a..][b..] == text[a + b..]
  {
  }

  /** `encode`, on text already normalised. */
  method Encode(t: Tokenizer, text: string) returns (result: Option<seq<nat>>)
    requires Valid(t)
    ensures result == EncodedFrom(t, text, "")
  {
    var ids: seq<nat>, plain, cursor := [], "", 0;
    assert text[0..] == text;
    BehindNothing(EncodedFrom(t, text, ""));
    while cursor < |text|
      invariant cursor <= |text|
      invariant EncodedFrom(t, text, "") == Behind(ids, EncodedFrom(t, text[cursor..], plain))
      decreases |text| - cursor
    {
      var k := FirstMatch(t, text[cursor..]);
      if k.Some? {
        var front := Flush(t, plain);
        if front.None? { return None; }
        var n := |t.added[k.value].0|;
        SpecialNext(t, text[cursor..], plain, k.value, front.value);
        DropDrop(text, cursor, n);
        BehindBoth(ids, front.value + [t.added[k.value].1], EncodedFrom(t, text[cursor + n..], ""));
        ids, plain, cursor := ids + (front.value + [t.added[k.value].1]), "", cursor + n;
      } else {
        DropDrop(text, cursor, 1);
        plain, cursor := plain + [text[cursor]], cursor + 1;
      }
    }
    assert text[|text|..] == "";
    var last := Flush(t, plain);
    result := Behind(ids, last);
  }

  /** With the byte characters and all merges in the vocabulary every text can be encoded. */
  lemma {:induction false} EncodesAll(t: Tokenizer, text: string, plain: string)
    requires AddedGiven(t) && Covers(t)
    ensures EncodedFrom(t, text, plain).Some?
    decreases |text|
  {
    PlainEncodes(t, plain);
    if text != "" {
      match First(t.added, text)
      case None => EncodesAll(t, text[1..], plain + [text[0]]);
      case Some(k) => EncodesAll(t, text[|t.added[k].0|..], "");
    }
  }

  ghost predicate AllReadable(t: Tokenizer, specials: seq<nat>) {
    forall i :: 0 <= i < |specials| && specials[i] < |t.added| ==> Readable(t.added[specials[i]].0)
  }

  /** What decoding gives for an encoding of `text`: never longer, and right exactly when `good`. */
  ghost predicate Comes(t: Tokenizer, ids: Option<seq<nat>>, text: string, good: bool) {
    ids.Some? ==>
      var bytes := Decoded(t, ids.value, false);
      && bytes.Some? && |bytes.value| <= |Utf8(t.utf8, text)|
      && (good ==> bytes.value == Utf8(t.utf8, text))
      && (!good ==> |bytes.value| < |Utf8(t.utf8, text)|)
  }

  lemma FlushedComes(t: Tokenizer, plain: string)
    requires Valid(t)
    ensures Comes(t, Flushed(t, plain), plain, true)
  {
    if plain != "" && PlainIds(t, plain).Some? {
      PlainDecodes(t, plain);
    }
  }

  lemma SpecialComes(t: Tokenizer, k: nat)
    requires Utf8Like(t.utf8) && IdsOwn(t) && k < |t.added|
    ensures Comes(t, Some([t.added[k].1]), t.added[k].0, Readable(t.added[k].0))
  {
    var id, content := t.added[k].1, t.added[k].0;
    assert [id][1..] == [] && TokenBytes(t, content) + [] == TokenBytes(t, content);
    assert Decoded(t, [id], false) == Some(TokenBytes(t, content));
    ReadsShorter(t, content);
  }

  lemma ComesBoth(t: Tokenizer, a: seq<nat>, b: seq<nat>, x: string, y: string, goodX: bool, goodY: bool)
    requires Comes(t, Some(a), x, goodX) && Comes(t, Some(b), y, goodY)
    ensures Comes(t, Some(a + b), x + y, goodX && goodY)
  {
    DecodedJoined(t, a, b, Decoded(t, a, false).value, Decoded(t, b, false).value);
    Utf8Joined(t.utf8, x, y);
  }

  lemma PrefixSplit(text: string, prefix: string)
    requires HasPrefix(text, prefix)
    ensures text == prefix + text[|prefix|..]
  {
  }

  lemma {:induction false} EncodingComes(t: Tokenizer, text: string, plain: string)
    requires Valid(t) && Utf8Like(t.utf8) && IdsOwn(t)
    ensures Comes(t, EncodedFrom(t, text, plain), plain + text, AllReadable(t, SpecialsIn(t, text)))
    decreases |text|, 1
  {
    if text == "" {
      FlushedComes(t, plain);
      assert plain + text == plain;
    } else {
      match First(t.added, text)
      case None =>
        EncodingComes(t, text[1..], plain + [text[0]]);
        assert (plain + [text[0]]) + text[1..] == plain + text;
      case Some(k) => SpecialEncodingComes(t, text, plain, k);
    }
  }

  lemma {:induction false} SpecialEncodingComes(t: Tokenizer, text: string, plain: string, k: nat)
    requires Valid(t) && Utf8Like(t.utf8) && IdsOwn(t) && text != "" && First(t.added, text) == Some(k)
    ensures Comes(t, EncodedFrom(t, text, plain), plain + text, AllReadable(t, SpecialsIn(t, text)))
    decreases |text|, 0
  {
    var content, rest := t.added[k].0, text[|t.added[k].0|..];
    EncodingComes(t, rest, "");
    assert "" + rest == rest;
    var more := EncodedFrom(t, rest, "");
    if Flushed(t, plain).Some? && more.Some? {
      var front := Flushed(t, plain).value;
      FlushedComes(t, plain);
      SpecialComes(t, k);
      ComesBoth(t, front, [t.added[k].1], plain, content, true, Readable(content));
      ComesBoth(t, front + [t.added[k].1], more.value, plain + content, rest,
                Readable(content), AllReadable(t, SpecialsIn(t, rest)));
      PrefixSplit(text, content);
      assert (plain + content) + rest == plain + text;
      ReadableNext(t, k, SpecialsIn(t, rest));
    }
  }

  lemma ReadableNext(t: Tokenizer, k: nat, rest: seq<nat>)
    requires k < |t.added|
    ensures AllReadable(t, [k] + rest) <==> Readable(t.added[k].0) && AllReadable(t, rest)
  {
    if AllReadable(t, [k] + rest) {
      assert ([k] + rest)[0] == k;
      assert forall i :: 0 <= i < |rest| ==> ([k] + rest)[i + 1] == rest[i];
    }
  }

  /**
   The round trip: decoding an encoding gives back the bytes of the text exactly when every special token met
   in it is readable, in whatever order the added tokens are tried.
   */
  lemma RoundTrip(t: Tokenizer, text: string)
    requires Valid(t) && Utf8Like(t.utf8) && IdsOwn(t) && EncodedFrom(t, text, "").Some?
    ensures Decoded(t, EncodedFrom(t, text, "").value, false) == Some(Utf8(t.utf8, text)) <==>
            AllReadable(t, SpecialsIn(t, text))
  {
    EncodingComes(t, text, "");
    assert "" + text == text;
  }

  // ---- a special token that does not come back ------------------------------------------------------

  /** UTF-8 (RFC 3629, section 3). */
  function Utf8Of(c: char): Bytes {
    var n := c as int;
    if n < 0x80 then [n]
    else if n < 0x800 then [0xC0 + n / 64, 0x80 + n % 64]
    else if n < 0x1_0000 then [0xE0 + n / 4096, 0x80 + n / 64 % 64, 0x80 + n % 64]
    else [0xF0 + n / 262_144, 0x80 + n / 4096 % 64, 0x80 + n / 64 % 64, 0x80 + n % 64]
  }

  function Whole(s: string): seq<string> {
    [s]
  }

  const E_ACUTE: string := [0xE9 as char]

  /** The added token no tokenizer can be made without. */
  const ROLE_END: string := "<|role_end|>"

  /** No vocabulary, and two added tokens, the longer first: that one and U+00E9. */
  const LATIN := Tokenizer(map[], map[], map[], [(ROLE_END, 1), (E_ACUTE, 0)], Whole, Utf8Of)

  lemma LatinIds()
    ensures LATIN.added[0] == (ROLE_END, 1) && LATIN.added[1] == (E_ACUTE, 0) && ROLE_END != ""
    ensures TextOf(LATIN, 0) == Some(E_ACUTE) && TextOf(LATIN, 1) == Some(ROLE_END)
  {
    var added := LATIN.added;
    assert |ROLE_END| == 12 && added == [(ROLE_END, 1), (E_ACUTE, 0)];
    assert added[1..] == [(E_ACUTE, 0)];
    assert AddedText(added[1..], 0) == Some(E_ACUTE);
  }

  lemma LatinValid()
    ensures Valid(LATIN) && Utf8Like(LATIN.utf8) && IdsOwn(LATIN)
  {
    forall s ensures BpeAgreement.Concat(LATIN.split(s)) == s {
      assert LATIN.split(s) == [s] && [s][1..] == [];
    }
    LatinIds();
  }

  lemma LatinBytes()
    ensures TokenBytes(LATIN, E_ACUTE) == [0xE9] && Utf8(LATIN.utf8, E_ACUTE) == [0xC3, 0xA9]
  {
    assert CharOf(0xE9) == 0xE9 as char;
    ByteOfChar(0xE9);
    assert E_ACUTE[1..] == "";
    assert Utf8Of(0xE9 as char) == [0xC3, 0xA9];
  }

  lemma LatinEncoded()
    ensures AddedGiven(LATIN) && EncodedFrom(LATIN, E_ACUTE, "") == Some([0])
  {
    assert LATIN.added[1].0 == E_ACUTE && HasPrefix(E_ACUTE, E_ACUTE);
    assert |ROLE_END| == 12 && !HasPrefix(E_ACUTE, ROLE_END);
    assert First(LATIN.added, E_ACUTE) == Some(1);
    assert E_ACUTE[|LATIN.added[1].0|..] == "";
    assert EncodedFrom(LATIN, "", "") == Some([]);
    assert [] + [0] + [] == [0];
  }

  /** The added token U+00E9 is encoded as itself and decoded as one byte, where its UTF-8 has two. */
  lemma LatinLost()
    ensures exists i :: 0 <= i < |LATIN.added| && LATIN.added[i].0 == ROLE_END
    ensures Valid(LATIN) && Utf8Like(LATIN.utf8) && IdsOwn(LATIN)
    ensures EncodedFrom(LATIN, E_ACUTE, "") == Some([0])
    ensures Decoded(LATIN, [0], false) == Some([0xE9]) && Utf8(LATIN.utf8, E_ACUTE) == [0xC3, 0xA9]
  {
    LatinValid();
    LatinBytes();
    LatinEncoded();
    assert LATIN.added[0].0 == ROLE_END;
    LatinIds();
    assert [0][1..] == [];
    assert [0xE9] + [] == [0xE9];
  }
}
