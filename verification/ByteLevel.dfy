/**
 Byte-level text: every byte as one printable character, as `makeByteMaps` of
 ios/Sources/Edge0Core/Edge0Tokenizer8B.swift and the tables of
 ios/Sources/Edge0MLX/Edge035B/Tokenizer.swift lay it down.
 */
module ByteLevel {
  import opened Common

  type Bytes = seq<byte>

  /** Bytes that stand for themselves. */
  predicate Printable(b: nat) {
    33 <= b <= 126 || 161 <= b <= 172 || 174 <= b <= 255
  }

  /** How many bytes below `b` do not stand for themselves. */
  function Others(b: nat): (n: nat)
    ensures n <= b
  {
    if b == 0 then 0 else Others(b - 1) + if Printable(b - 1) then 0 else 1
  }

  function CharOf(b: byte): char {
    if Printable(b) then b as char else (256 + Others(b)) as char
  }

  lemma {:induction false} OthersGrow(a: nat, b: nat)
    requires a < b && !Printable(a)
    ensures Others(a) < Others(b)
  {
    if a < b - 1 {
      OthersGrow(a, b - 1);
    }
  }

  /** No two bytes share a character. */
  lemma CharsApart(a: byte, b: byte)
    requires CharOf(a) == CharOf(b)
    ensures a == b
  {
    if !Printable(a) && !Printable(b) {
      if a < b {
        OthersGrow(a, b);
      } else if b < a {
        OthersGrow(b, a);
      }
    }
  }

  lemma AllCharsApart()
    ensures forall a: byte, b: byte :: CharOf(a) == CharOf(b) ==> a == b
  {
    forall a: byte, b: byte | CharOf(a) == CharOf(b) ensures a == b {
      CharsApart(a, b);
    }
  }

  /** The byte a character stands for, if any. */
  function ByteOf(c: char): (r: Option<byte>)
    ensures r.Some? ==> CharOf(r.value) == c
    ensures r.None? ==> forall b: byte :: CharOf(b) != c
  {
    if exists b: byte :: CharOf(b) == c then
      AllCharsApart();
      var b: byte :| CharOf(b) == c;
      Some(b)
    else None
  }

  lemma ByteOfChar(b: byte)
    ensures ByteOf(CharOf(b)) == Some(b)
  {
    var r := ByteOf(CharOf(b));
    if r.Some? {
      CharsApart(r.value, b);
    }
  }

  lemma {:induction false} OthersReach(n: nat, m: nat) returns (b: nat)
    requires n < Others(m)
    ensures b < m && !Printable(b) && Others(b) == n
  {
    if n < Others(m - 1) {
      b := OthersReach(n, m - 1);
    } else {
      b := m - 1;
    }
  }

  /** Runs of printable bytes add nothing, runs of others one each. */
  lemma {:induction false} OthersRun(a: nat, b: nat, printable: bool)
    requires a <= b && forall i :: a <= i < b ==> Printable(i) == printable
    ensures Others(b) == Others(a) + if printable then 0 else b - a
  {
    if a < b {
      OthersRun(a, b - 1, printable);
    }
  }

  lemma OthersInAll(all: nat)
    requires all == 256
    ensures Others(all) == 68
  {
    OthersRun(all - 256, all - 223, false);
    OthersRun(all - 223, all - 129, true);
    OthersRun(all - 129, all - 95, false);
    OthersRun(all - 95, all - 83, true);
    OthersRun(all - 83, all - 82, false);
    OthersRun(all - 82, all, true);
  }

  /** The characters that stand for a byte: the printable ones, and U+0100 to U+0143. */
  predicate StandsForByte(c: char) {
    33 <= c as int <= 126 || 161 <= c as int <= 172 || 174 <= c as int <= 255 || 256 <= c as int < 324
  }

  lemma ByteOfExactly(c: char)
    ensures ByteOf(c).Some? <==> StandsForByte(c)
  {
    var all: nat := 256;
    OthersInAll(all);
    var r := ByteOf(c);
    if r.Some? && !Printable(r.value) {
      OthersGrow(r.value, all);
    }
    if StandsForByte(c) {
      if c as int < 256 {
        assert CharOf(c as int) == c;
      } else {
        var b := OthersReach(c as int - 256, all);
        assert CharOf(b) == c;
      }
    }
  }

  /** Both tables agree on the first `n` bytes. */
  ghost predicate MapsUpTo(encoder: map<byte, char>, decoder: map<char, byte>, n: nat) {
    && (forall b: byte :: b in encoder <==> b < n)
    && (forall b: byte :: b in encoder ==> encoder[b] == CharOf(b) && CharOf(b) in decoder)
    && (forall c: char :: c in decoder ==> decoder[c] < n && CharOf(decoder[c]) == c)
  }

  /** The table loops: printable bytes stand for themselves, the others for 256 up, in order. */
  method MakeByteMaps() returns (encoder: map<byte, char>, decoder: map<char, byte>)
    ensures MapsUpTo(encoder, decoder, 256)
  {
    encoder, decoder := map[], map[];
    var extra := 0;
    for value := 0 to 256
      invariant extra == Others(value) && MapsUpTo(encoder, decoder, value)
    {
      var c := if Printable(value) then value as char else (256 + extra) as char;
      extra := extra + if Printable(value) then 0 else 1;
      encoder, decoder := encoder[value := c], decoder[c := value];
    }
  }

  /** The decoding table finds exactly the characters that stand for bytes. */
  lemma DecoderIs(encoder: map<byte, char>, decoder: map<char, byte>, c: char)
    requires MapsUpTo(encoder, decoder, 256)
    ensures ByteOf(c) == if c in decoder then Some(decoder[c]) else None
  {
    if c in decoder {
      ByteOfChar(decoder[c]);
    }
  }

  /** A piece of text byte by byte. */
  function Mapped(bytes: Bytes): (s: string)
    ensures |s| == |bytes|
  {
    if bytes == [] then "" else [CharOf(bytes[0])] + Mapped(bytes[1..])
  }

  /** The bytes of byte-level text; characters that stand for none are skipped. */
  function Unmapped(s: string): Bytes {
    if s == "" then []
    else (match ByteOf(s[0]) case Some(b) => [b] case None => []) + Unmapped(s[1..])
  }

  /** The inner loop of the 35B `decode`, over the decoding table. */
  method AppendUnmapped(ghost encoder: map<byte, char>, decoder: map<char, byte>, s: string, bytes: Bytes)
    returns (out: Bytes)
    requires MapsUpTo(encoder, decoder, 256)
    ensures out == bytes + Unmapped(s)
  {
    out := bytes;
    assert s[0..] == s;
    for i := 0 to |s|
      invariant out + Unmapped(s[i..]) == bytes + Unmapped(s)
    {
      DecoderIs(encoder, decoder, s[i]);
      assert s[i..][1..] == s[i + 1..];
      if s[i] in decoder {
        out := out + [decoder[s[i]]];
      }
    }
    assert s[|s|..] == "";
  }

  lemma {:induction false} UnmappedMapped(bytes: Bytes)
    ensures Unmapped(Mapped(bytes)) == bytes
  {
    if bytes != [] {
      ByteOfChar(bytes[0]);
      UnmappedMapped(bytes[1..]);
      assert Mapped(bytes)[1..] == Mapped(bytes[1..]);
    }
  }

  lemma {:induction false} UnmappedJoined(a: string, b: string)
    ensures Unmapped(a + b) == Unmapped(a) + Unmapped(b)
  {
    if a == "" {
      assert a + b == b;
    } else {
      assert (a + b)[1..] == a[1..] + b;
      UnmappedJoined(a[1..], b);
    }
  }

  /** The UTF-8 of a text, given that of its characters. */
  function Utf8(utf8: char -> Bytes, text: string): Bytes {
    if text == "" then [] else utf8(text[0]) + Utf8(utf8, text[1..])
  }

  lemma {:induction false} Utf8Joined(utf8: char -> Bytes, a: string, b: string)
    ensures Utf8(utf8, a + b) == Utf8(utf8, a) + Utf8(utf8, b)
  {
    if a == "" {
      assert a + b == b;
    } else {
      assert (a + b)[1..] == a[1..] + b;
      Utf8Joined(utf8, a[1..], b);
    }
  }
}
