/** Rows of exact reals and finite sums over them. */
module Vectors {
  type Row = seq<real>

  function Sum(n: nat, f: int -> real): real {
    if n == 0 then 0.0 else Sum(n - 1, f) + f(n - 1)
  }

  lemma {:induction false} SumSame(n: nat, f: int -> real, g: int -> real)
    requires forall i :: 0 <= i < n ==> f(i) == g(i)
    ensures Sum(n, f) == Sum(n, g)
  {
    if n > 0 {
      SumSame(n - 1, f, g);
    }
  }

  /** Terms past `n` that are zero add nothing. */
  lemma {:induction false} SumTail(n: nat, total: nat, f: int -> real, g: int -> real)
    requires n <= total
    requires forall i :: 0 <= i < n ==> f(i) == g(i)
    requires forall i :: n <= i < total ==> g(i) == 0.0
    ensures Sum(total, g) == Sum(n, f)
  {
    if total > n {
      SumTail(n, total - 1, f, g);
    } else {
      SumSame(n, f, g);
    }
  }

  /** The entries added up from the front. */
  function Total(terms: Row): real {
    if terms == [] then 0.0 else terms[0] + Total(terms[1..])
  }

  lemma {:induction false} TotalPush(terms: Row, x: real)
    ensures Total(terms + [x]) == Total(terms) + x
  {
    if terms == [] {
      assert terms + [x] == [x] && [x][1..] == [];
    } else {
      assert (terms + [x])[1..] == terms[1..] + [x];
      TotalPush(terms[1..], x);
    }
  }

  lemma {:induction false} SumIsTotal(f: int -> real, terms: Row)
    requires forall i :: 0 <= i < |terms| ==> terms[i] == f(i)
    ensures Sum(|terms|, f) == Total(terms)
  {
    if terms != [] {
      var front, last := terms[..|terms| - 1], terms[|terms| - 1];
      assert terms == front + [last];
      SumIsTotal(f, front);
      TotalPush(front, last);
    }
  }

  function DotTerm(a: Row, b: Row): int -> real
    requires |a| == |b|
  {
    i => if 0 <= i < |a| then a[i] * b[i] else 0.0
  }

  function Dot(a: Row, b: Row): real
    requires |a| == |b|
  {
    Sum(|a|, DotTerm(a, b))
  }

  lemma DotIsTotal(a: Row, b: Row, terms: Row)
    requires |a| == |b| == |terms| && forall i :: 0 <= i < |terms| ==> terms[i] == a[i] * b[i]
    ensures Dot(a, b) == Total(terms)
  {
    SumIsTotal(DotTerm(a, b), terms);
  }

  /** `r` is the sum of two rows of its width, element by element. */
  predicate Sums(a: Row, b: Row, r: Row) {
    |r| == |a| == |b| && forall i :: 0 <= i < |r| ==> r[i] == a[i] + b[i]
  }

  /** Elementwise sum of two rows of one width. */
  function Plus(a: Row, b: Row): (r: Row)
    ensures |r| == |a|
  {
    seq(|a|, i requires 0 <= i < |a| => if i < |b| then a[i] + b[i] else a[i])
  }

  function Times(a: Row, b: Row): Row
    requires |a| == |b|
  {
    seq(|a|, i requires 0 <= i < |a| => a[i] * b[i])
  }

  lemma TimesAt(a: Row, b: Row, i: nat, x: real, y: real)
    requires |a| == |b| && i < |a| && x == a[i] && y == b[i]
    ensures Times(a, b)[i] == x * y
  {
  }

  lemma TimesIs(a: Row, b: Row, r: Row)
    requires |a| == |b| == |r| && forall i :: 0 <= i < |r| ==> r[i] == a[i] * b[i]
    ensures Times(a, b) == r
  {
    forall i | 0 <= i < |r| ensures Times(a, b)[i] == r[i] {
      TimesAt(a, b, i, a[i], b[i]);
    }
  }
}
