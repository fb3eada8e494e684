/**
 The file a prefix cache is kept in: `flattened` and `read` of
 ios/Sources/Edge0MLX/Edge035B/PrefixCache.swift, a flat table of named arrays.
 */
module PrefixStore {
  import opened Common
  import opened Vectors
  import opened PrefixEngine

  datatype Array = Ids(ids: seq<Token>) | Tensor(row: Row)

  // ---- layer numbers as text ------------------------------------------------------------------

  predicate Digit(c: char) {
    '0' <= c <= '9'
  }

  function DigitOf(d: nat): (c: char)
    requires d < 10
    ensures Digit(c) && c as int == '0' as int + d
  {
    ('0' as int + d) as char
  }

  /** "\(layer)" */
  function Decimal(n: nat): (s: string)
    ensures s != "" && forall i :: 0 <= i < |s| ==> Digit(s[i])
  {
    if n < 10 then [DigitOf(n)] else Decimal(n / 10) + [DigitOf(n % 10)]
  }

  /** `Int(text)` for text of digits alone. */
  function ParseDigits(s: string): Option<nat> {
    if s == "" then None
    else if !Digit(s[|s| - 1]) then None
    else
      var last := s[|s| - 1] as int - '0' as int;
      if |s| == 1 then Some(last)
      else match ParseDigits(s[..|s| - 1]) case None => None case Some(front) => Some(10 * front + last)
  }

  lemma {:induction false} DecimalParses(n: nat)
    ensures ParseDigits(Decimal(n)) == Some(n)
  {
    if n >= 10 {
      DecimalParses(n / 10);
      var s := Decimal(n);
      assert s[..|s| - 1] == Decimal(n / 10);
    }
  }

  // ---- names ------------------------------------------------------------------------------------------

  datatype Kind = Conv | Rec | K | V

  function Prefix(kind: Kind): string {
    match kind case Conv => "conv" case Rec => "rec" case K => "k" case V => "v"
  }

  /** "conv.3", "rec.3", "k.3", "v.3" */
  function Name(kind: Kind, layer: nat): string {
    Prefix(kind) + "." + Decimal(layer)
  }

  /** The nonempty pieces between dots. */
  function Pieces(s: string, current: string): seq<string>
    decreases |s|
  {
    var done := if current == "" then [] else [current];
    if s == "" then done
    else if s[0] == '.' then done + Pieces(s[1..], "")
    else Pieces(s[1..], current + [s[0]])
  }

  /** What a stored name stands for: two pieces, a known prefix and a number. */
  function Meaning(name: string): Option<(Kind, nat)> {
    var parts := Pieces(name, "");
    if |parts| != 2 then None
    else
      match ParseDigits(parts[1])
      case None => None
      case Some(layer) =>
        if parts[0] == "conv" then Some((Conv, layer))
        else if parts[0] == "rec" then Some((Rec, layer))
        else if parts[0] == "k" then Some((K, layer))
        else if parts[0] == "v" then Some((V, layer))
        else None
  }

  predicate NoDot(s: string) {
    forall i :: 0 <= i < |s| ==> s[i] != '.'
  }

  lemma {:induction false} PiecesUndotted(s: string, rest: string, current: string)
    requires NoDot(s)
    ensures Pieces(s + rest, current) == Pieces(rest, current + s)
    decreases |s|
  {
    if s == "" {
      assert s + rest == rest && current + s == current;
    } else {
      assert (s + rest)[1..] == s[1..] + rest;
      PiecesUndotted(s[1..], rest, current + [s[0]]);
      assert current + [s[0]] + s[1..] == current + s;
    }
  }

  lemma PiecesOfTwo(a: string, b: string)
    requires NoDot(a) && NoDot(b) && a != "" && b != ""
    ensures Pieces(a + "." + b, "") == [a, b]
  {
    assert a + "." + b == a + ("." + b);
    PiecesUndotted(a, "." + b, "");
    assert "" + a == a && ("." + b)[1..] == b;
    PiecesUndotted(b, "", "");
    assert b + "" == b && "" + b == b;
  }

  lemma PrefixUndotted(kind: Kind)
    ensures NoDot(Prefix(kind)) && Prefix(kind) != ""
  {
  }

  /** A name leads back to its table and layer. */
  lemma NameMeans(kind: Kind, layer: nat)
    ensures Meaning(Name(kind, layer)) == Some((kind, layer))
  {
    PrefixUndotted(kind);
    PiecesOfTwo(Prefix(kind), Decimal(layer));
    DecimalParses(layer);
  }

  lemma TokensMeansNothing()
    ensures Meaning("tokens") == None
  {
    PiecesUndotted("tokens", "", "");
    assert "tokens" + "" == "tokens" && "" + "tokens" == "tokens";
  }

  // ---- the file -----------------------------------------------------------------------------------

  function Table(c: Contents, kind: Kind): map<nat, Row> {
    match kind case Conv => c.convolution case Rec => c.recurrent case K => c.keys case V => c.values
  }

  /** `state.<table>[layer] = row` */
  function Assigned(c: Contents, kind: Kind, layer: nat, row: Row): Contents {
    match kind
    case Conv => c.(convolution := c.convolution[layer := row])
    case Rec => c.(recurrent := c.recurrent[layer := row])
    case K => c.(keys := c.keys[layer := row])
    case V => c.(values := c.values[layer := row])
  }

  /** Exactly the entries of one table stand in the file under that table's names. */
  ghost predicate Holds(file: map<string, Array>, kind: Kind, table: map<nat, Row>) {
    && (forall layer :: layer in table ==> Name(kind, layer) in file && file[Name(kind, layer)] == Tensor(table[layer]))
    && (forall name :: name in file && Meaning(name).Some? && Meaning(name).value.0 == kind ==>
          Meaning(name).value.1 in table && name == Name(kind, Meaning(name).value.1))
  }

  /** The file holds the tokens and the four tables, and nothing that means anything else. */
  ghost predicate Represents(file: map<string, Array>, tokens: seq<Token>, c: Contents) {
    && "tokens" in file && file["tokens"] == Ids(tokens)
    && Holds(file, Conv, c.convolution) && Holds(file, Rec, c.recurrent)
    && Holds(file, K, c.keys) && Holds(file, V, c.values)
  }

  /** One of the four loops of `flattened`. */
  method AddTable(file: map<string, Array>, kind: Kind, table: map<nat, Row>) returns (out: map<string, Array>)
    requires "tokens" in file && forall name :: name in file && Meaning(name).Some? ==> Meaning(name).value.0 != kind
    ensures "tokens" in out && out["tokens"] == file["tokens"] && Holds(out, kind, table)
    ensures forall name :: name in out && Meaning(name).Some? && Meaning(name).value.0 != kind ==> name in file
    ensures forall other, t :: other != kind && Holds(file, other, t) ==> Holds(out, other, t)
  {
    out := file;
    var left := table.Keys;
    TokensMeansNothing();
    while left != {}
      invariant left <= table.Keys
      invariant forall name :: name in file ==> name in out && out[name] == file[name]
      invariant forall layer :: layer in table && layer !in left ==>
                  Name(kind, layer) in out && out[Name(kind, layer)] == Tensor(table[layer])
      invariant forall name :: name in out && name !in file ==>
                  Meaning(name).Some? && Meaning(name).value.0 == kind &&
                  Meaning(name).value.1 in table && name == Name(kind, Meaning(name).value.1)
      decreases left
    {
      var layer :| layer in left;
      NameMeans(kind, layer);
      forall l | l in table && l !in left ensures Name(kind, l) != Name(kind, layer) {
        NameMeans(kind, l);
      }
      out := out[Name(kind, layer) := Tensor(table[layer])];
      left := left - {layer};
    }
  }

  /** `flattened` */
  method Flattened(tokens: seq<Token>, c: Contents) returns (file: map<string, Array>)
    ensures Represents(file, tokens, c)
  {
    file := map["tokens" := Ids(tokens)];
    TokensMeansNothing();
    file := AddTable(file, Conv, c.convolution);
    file := AddTable(file, Rec, c.recurrent);
    file := AddTable(file, K, c.keys);
    file := AddTable(file, V, c.values);
  }

  /** The tables read so far are those of `c`, for every name already looked at. */
  ghost predicate ReadSoFar(r: Contents, c: Contents, left: set<string>) {
    forall kind, layer :: ReadAt(r, c, left, kind, layer)
  }

  predicate ReadAt(r: Contents, c: Contents, left: set<string>, kind: Kind, layer: nat) {
    && (layer in Table(r, kind) <==> layer in Table(c, kind) && Name(kind, layer) !in left)
    && (layer in Table(r, kind) ==> Table(r, kind)[layer] == Table(c, kind)[layer])
  }

  lemma AssignedTable(r: Contents, kind: Kind, layer: nat, row: Row, k: Kind)
    ensures Table(Assigned(r, kind, layer, row), k) ==
            if k == kind then Table(r, k)[layer := row] else Table(r, k)
  {
  }

  lemma HoldsTable(file: map<string, Array>, tokens: seq<Token>, c: Contents, name: string)
    requires Represents(file, tokens, c) && name in file && Meaning(name).Some?
    ensures var (kind, layer) := Meaning(name).value;
            layer in Table(c, kind) && name == Name(kind, layer) && file[name] == Tensor(Table(c, kind)[layer])
  {
  }

  lemma ReadOne(r: Contents, c: Contents, left: set<string>, kind: Kind, layer: nat)
    requires ReadSoFar(r, c, left) && layer in Table(c, kind) && Name(kind, layer) in left
    ensures ReadSoFar(Assigned(r, kind, layer, Table(c, kind)[layer]), c, left - {Name(kind, layer)})
  {
    var r' := Assigned(r, kind, layer, Table(c, kind)[layer]);
    NameMeans(kind, layer);
    forall k, l ensures ReadAt(r', c, left - {Name(kind, layer)}, k, l) {
      assert ReadAt(r, c, left, k, l);
      AssignedTable(r, kind, layer, Table(c, kind)[layer], k);
      NameMeans(k, l);
    }
  }

  lemma ReadNothing(r: Contents, c: Contents, left: set<string>, name: string)
    requires ReadSoFar(r, c, left) && Meaning(name).None?
    ensures ReadSoFar(r, c, left - {name})
  {
    forall k, l ensures ReadAt(r, c, left - {name}, k, l) {
      assert ReadAt(r, c, left, k, l);
      NameMeans(k, l);
    }
  }

  /** The loop of `read` over the arrays, in any order. */
  method ReadTables(file: map<string, Array>, ghost tokens: seq<Token>, ghost c: Contents) returns (r: Contents)
    ensures r.offset == 0
    ensures Represents(file, tokens, c) ==> ReadSoFar(r, c, {})
  {
    r := EMPTY;
    var left := file.Keys - {"tokens"};
    if Represents(file, tokens, c) {
      ReadStart(file, tokens, c);
    }
    while left != {}
      invariant left <= file.Keys && r.offset == 0
      invariant Represents(file, tokens, c) ==> ReadSoFar(r, c, left)
      decreases left
    {
      var name :| name in left;
      var meaning := Meaning(name);
      if meaning.Some? && file[name].Tensor? {
        if Represents(file, tokens, c) {
          HoldsTable(file, tokens, c, name);
          ReadOne(r, c, left, meaning.value.0, meaning.value.1);
        }
        r := Assigned(r, meaning.value.0, meaning.value.1, file[name].row);
      } else if Represents(file, tokens, c) {
        if meaning.Some? { HoldsTable(file, tokens, c, name); }
        ReadNothing(r, c, left, name);
      }
      left := left - {name};
    }
  }

  lemma ReadStart(file: map<string, Array>, tokens: seq<Token>, c: Contents)
    requires Represents(file, tokens, c)
    ensures ReadSoFar(EMPTY, c, file.Keys - {"tokens"})
  {
    TokensMeansNothing();
    forall kind, layer ensures ReadAt(EMPTY, c, file.Keys - {"tokens"}, kind, layer) {
      NameMeans(kind, layer);
    }
  }

  lemma SameTables(r: Contents, c: Contents)
    requires ReadSoFar(r, c, {})
    ensures r.convolution == c.convolution && r.recurrent == c.recurrent && r.keys == c.keys && r.values == c.values
  {
    SameTable(r, c, Conv);
    SameTable(r, c, Rec);
    SameTable(r, c, K);
    SameTable(r, c, V);
  }

  lemma SameTable(r: Contents, c: Contents, kind: Kind)
    requires ReadSoFar(r, c, {})
    ensures Table(r, kind) == Table(c, kind)
  {
    forall layer
      ensures layer in Table(r, kind) <==> layer in Table(c, kind)
      ensures layer in Table(r, kind) ==> Table(r, kind)[layer] == Table(c, kind)[layer]
    {
      assert ReadAt(r, c, {}, kind, layer);
    }
  }

  /** `read`: the tokens, and the state with the offset they account for. */
  method Read(file: map<string, Array>, ghost c: Contents) returns (cache: Option<(seq<Token>, Contents)>)
    ensures cache.Some? <==> "tokens" in file && file["tokens"].Ids? && file["tokens"].ids != []
    ensures cache.Some? ==> cache.value.0 == file["tokens"].ids && cache.value.1.offset == |cache.value.0|
    ensures cache.Some? && Represents(file, cache.value.0, c) ==>
              cache.value.1 == c.(offset := |cache.value.0|)
  {
    if "tokens" !in file || !file["tokens"].Ids? { return None; }
    var tokens := file["tokens"].ids;
    var r := ReadTables(file, tokens, c);
    if tokens == [] { return None; }
    if Represents(file, tokens, c) {
      SameTables(r, c);
    }
    cache := Some((tokens, r.(offset := |tokens|)));
  }

  /** What is written is read back: same tokens, same tables, same offset. */
  method RoundTrip(tokens: seq<Token>, c: Contents) returns (cache: Option<(seq<Token>, Contents)>)
    requires c.offset == |tokens|
    ensures cache == if tokens == [] then None else Some((tokens, c))
  {
    var file := Flattened(tokens, c);
    cache := Read(file, c);
  }
}
