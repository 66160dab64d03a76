/**
 * The sliding-window arithmetic behind `RAGSystem.chunk_text`: windows of `maxTokens`
 * tokens whose starts are `step = maxTokens - overlap` apart, the last one possibly
 * shorter. Tokens are abstract; the tokenizer itself is not part of this module.
 */
module Chunking {

  function Min(a: int, b: int): int { if a <= b then a else b }

  /** Python's `tokens[start:start + len]` for non-negative bounds (both ends clamp). */
  function Window<T>(tokens: seq<T>, start: nat, len: nat): (w: seq<T>)
    ensures start <= |tokens| ==> w == tokens[start..Min(start + len, |tokens|)]
    ensures start >= |tokens| ==> w == []
  {
    tokens[Min(start, |tokens|)..Min(start + len, |tokens|)]
  }

  /** How many values `range(0, n, step)` yields: the ceiling of `n / step`. */
  function RangeCount(n: nat, step: nat): nat
    requires step > 0
  {
    (n + step - 1) / step
  }

  /** The count of windows is the least `c` with `c * step >= n`. */
  lemma RangeCountIsCeiling(n: nat, step: nat, c: nat)
    requires step > 0
    requires c * step >= n
    requires c == 0 || (c - 1) * step < n
    ensures c == RangeCount(n, step)
  {
    var q := (n + step - 1) / step;
    var r := (n + step - 1) % step;
    assert n + step - 1 == q * step + r && 0 <= r < step;
    if c == 0 {
      assert n == 0;
    } else {
      assert (c - 1) * step == c * step - step;
      if q < c {
        assert q <= c - 1;
        MulMonotone(q, c - 1, step);
        assert false;
      } else if q > c {
        assert c + 1 <= q;
        assert (c + 1) * step == c * step + step;
        MulMonotone(c + 1, q, step);
        assert false;
      }
    }
  }

  lemma MulMonotone(a: nat, b: nat, step: nat)
    requires a <= b
    ensures a * step <= b * step
  {
    assert b * step == a * step + (b - a) * step;
  }

  /** Every window start lies inside the token sequence. */
  lemma StartInRange(n: nat, step: nat, k: nat)
    requires step > 0
    requires k < RangeCount(n, step)
    ensures k * step < n
  {
    var q := RangeCount(n, step);
    assert n + step - 1 == q * step + (n + step - 1) % step;
    MulMonotone(k + 1, q, step);
    assert (k + 1) * step == k * step + step;
  }

  /** No tokens, no chunks; some tokens, at least one chunk. */
  lemma RangeCountZero(n: nat, step: nat)
    requires step > 0
    ensures RangeCount(n, step) == 0 <==> n == 0
  {
    if n > 0 {
      assert n + step - 1 >= step;
    }
  }

  /** A window holds at most `len` tokens, exactly `len` unless it runs off the end, and starts with `tokens[start]`. */
  lemma WindowShape<T>(tokens: seq<T>, start: nat, len: nat)
    requires start < |tokens| && len > 0
    ensures |Window(tokens, start, len)| == Min(len, |tokens| - start)
    ensures Window(tokens, start, len)[0] == tokens[start]
    ensures forall o :: 0 <= o < |Window(tokens, start, len)| ==> Window(tokens, start, len)[o] == tokens[start + o]
  {
  }

  /** Token `j` lies in window number `j / step`, at offset `j % step`. */
  lemma Coverage<T>(tokens: seq<T>, maxTokens: nat, overlap: nat, j: nat)
    requires overlap < maxTokens && j < |tokens|
    ensures var step := maxTokens - overlap; var k := j / step;
            && k < RangeCount(|tokens|, step)
            && k * step <= j < k * step + maxTokens
            && j - k * step < |Window(tokens, k * step, maxTokens)|
            && Window(tokens, k * step, maxTokens)[j - k * step] == tokens[j]
  {
    var step := maxTokens - overlap;
    var k := j / step;
    DivPosition(|tokens|, step, j);
    WindowShape(tokens, k * step, maxTokens);
  }

  /** Position `j < n` falls in range step number `j / step`, which `range(0, n, step)` reaches. */
  lemma DivPosition(n: nat, step: nat, j: nat)
    requires step > 0 && j < n
    ensures j / step < RangeCount(n, step)
    ensures (j / step) * step <= j < (j / step) * step + step
  {
    var k := j / step;
    assert j == k * step + j % step && 0 <= j % step < step;
    var q := RangeCount(n, step);
    assert n + step - 1 == q * step + (n + step - 1) % step;
    if q <= k {
      MulMonotone(q, k, step);
      assert false;
    }
  }

  /**
   * Consecutive windows share exactly `overlap` tokens: when the window at `start` is full,
   * its last `overlap` tokens are the first `overlap` tokens of the window at `start + step`.
   */
  lemma Overlap<T>(tokens: seq<T>, start: nat, maxTokens: nat, overlap: nat)
    requires overlap < maxTokens
    requires start + maxTokens <= |tokens|
    ensures var step := maxTokens - overlap;
            |Window(tokens, start + step, maxTokens)| >= overlap
            && Window(tokens, start, maxTokens)[step..] == Window(tokens, start + step, maxTokens)[..overlap]
  {
    var step := maxTokens - overlap;
    assert Window(tokens, start, maxTokens)[step..] == tokens[start + step..start + maxTokens];
    assert Window(tokens, start + step, maxTokens)[..overlap] == tokens[start + step..start + maxTokens];
  }
}
