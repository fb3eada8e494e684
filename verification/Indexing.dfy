/** Positions in flat tables: row `i` of `n` rows of `width` entries. */
module Indexing {
  lemma Product(a: nat, b: nat)
    ensures 0 <= a * b
  {
  }

  lemma Within(i: nat, n: nat, width: nat)
    requires i < n
    ensures i * width + width <= n * width
  {
    assert n * width == i * width + (n - i) * width;
    assert (n - i) * width >= width by {
      assert (n - i) * width == width + (n - i - 1) * width;
    }
  }

  lemma SmallMultiple(d: int, width: int)
    requires 0 < width && -width < d * width < width
    ensures d == 0
  {
    if d >= 1 {
      Within(0, d, width);
    }
  }

  lemma Split(t: nat, r: nat, width: nat)
    requires r < width
    ensures 0 <= t * width && (t * width + r) / width == t && (t * width + r) % width == r
  {
    Product(t, width);
    var i := t * width + r;
    var d := i / width - t;
    assert d * width == (i / width) * width - t * width;
    SmallMultiple(d, width);
  }

  lemma PrefixOfPrefix<T>(s: seq<T>, m: nat, n: nat)
    requires m <= n <= |s|
    ensures s[..n][..m] == s[..m]
  {
  }

  lemma WholePrefix<T>(s: seq<T>)
    ensures s[..|s|] == s
  {
  }
}
