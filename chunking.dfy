/**
 * `EcommerceCrawler.chunk_domains`: the slices `lst[i:i + size]` for
 * `i in range(0, len(lst), size)`, the units of work handed to the workers.
 */
module Chunking {
  import opened Sequences

  function Min(a: int, b: int): int {
    if a <= b then a else b
  }

  /**
   * The consecutive slices of `xs` of length `size`, the last one possibly shorter.
   * The chunks partition `xs`: together they give back `xs`, none is empty,
   * none is longer than `size`, and only the last may be shorter.
   */
  function Chunks<T>(xs: seq<T>, size: nat): (cs: seq<seq<T>>)
    requires size > 0
    ensures Flatten(cs) == xs
    ensures forall k :: 0 <= k < |cs| ==> 0 < |cs[k]| <= size
    ensures forall k :: 0 <= k < |cs| - 1 ==> |cs[k]| == size
    decreases |xs|
  {
    if xs == [] then []
    else
      var n := Min(size, |xs|);
      var rest := Chunks(xs[n..], size);
      var cs := [xs[..n]] + rest;
      assert cs[1..] == rest;
      assert xs == xs[..n] + xs[n..];
      cs
  }

  lemma MulMono(a: int, b: int, d: nat)
    requires a <= b
    ensures a * d <= b * d
  {
    assert b * d - a * d == (b - a) * d;
  }

  lemma MulSucc(a: int, d: int)
    ensures (a + 1) * d == a * d + d
  {
  }

  /** The quotient is pinned down by the two multiples of `d` around `m`. */
  lemma DivBetween(m: nat, d: nat, c: nat)
    requires d > 0 && c * d <= m < c * d + d
    ensures m / d == c
  {
    var q, r := m / d, m % d;
    assert m == q * d + r && 0 <= r < d;
    if q > c {
      MulMono(c + 1, q, d);
      MulSucc(c, d);
    } else if q < c {
      MulMono(q + 1, c, d);
      MulSucc(q, d);
    }
  }

  /** |xs| <= (number of chunks) * size < |xs| + size. */
  lemma {:induction false} ChunksBound<T>(xs: seq<T>, size: nat)
    requires size > 0
    ensures |xs| <= |Chunks(xs, size)| * size < |xs| + size
    decreases |xs|
  {
    if xs != [] && |xs| > size {
      var c := |Chunks(xs[size..], size)|;
      assert |Chunks(xs, size)| == c + 1;
      ChunksBound(xs[size..], size);
      MulSucc(c, size);
    } else if xs != [] {
      assert |Chunks(xs, size)| == 1;
    }
  }

  /** There are ceil(|xs| / size) chunks. */
  lemma ChunksCount<T>(xs: seq<T>, size: nat)
    requires size > 0
    ensures |Chunks(xs, size)| == (|xs| + size - 1) / size
  {
    ChunksBound(xs, size);
    DivBetween(|xs| + size - 1, size, |Chunks(xs, size)|);
  }
}
