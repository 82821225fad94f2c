/**
 * The transaction Merkle root: pairs are hashed level by level and an odd trailing node is
 * carried up unchanged. `H` is the hash type and `pair` the hash of two concatenated nodes.
 */
module Merkle {

  /** The next level up: hash pairs, carry an odd trailing node. */
  function LevelUp<H>(level: seq<H>, pair: (H, H) -> H): (next: seq<H>)
    ensures |next| == (|level| + 1) / 2
  {
    if |level| < 2 then level
    else [pair(level[0], level[1])] + LevelUp(level[2..], pair)
  }

  /** `merkle_root`: the loop that rebuilds `level` computes the top-down tree. */
  method MerkleRoot<H>(hashes: seq<H>, zero: H, pair: (H, H) -> H) returns (root: H)
    ensures hashes == [] ==> root == zero
    ensures hashes != [] ==> root == TopDown(hashes, pair)
  {
    if hashes == [] { return zero; }
    var level := hashes;
    while |level| > 1
      invariant level != []
      invariant TopDown(level, pair) == TopDown(hashes, pair)
      decreases |level|
    {
      var next := NextLevel(level, pair);
      LevelUpKeepsRoot(level, pair);
      level := next;
    }
    root := level[0];
  }

  /** One pass of the inner loop over chunks of two. */
  method NextLevel<H>(level: seq<H>, pair: (H, H) -> H) returns (next: seq<H>)
    ensures next == LevelUp(level, pair)
  {
    next := [];
    var i := 0;
    while i + 1 < |level|
      invariant 0 <= i <= |level|
      invariant next + LevelUp(level[i..], pair) == LevelUp(level, pair)
    {
      var rest := level[i..];
      var parent := pair(level[i], level[i + 1]);
      assert rest[2..] == level[i + 2..];
      assert LevelUp(rest, pair) == [parent] + LevelUp(level[i + 2..], pair);
      assert next + ([parent] + LevelUp(level[i + 2..], pair)) ==
             (next + [parent]) + LevelUp(level[i + 2..], pair);
      next := next + [parent];
      i := i + 2;
    }
    next := next + level[i..];
  }

  // -- the shape of section 2.1 of RFC 6962 --------------------------------

  /** The largest power of two below `n`, searched from the power of two `p`. */
  function SplitFrom(n: nat, p: nat): (k: nat)
    requires 1 <= p < n
    ensures p <= k < n <= 2 * k
    decreases n - p
  {
    if 2 * p < n then SplitFrom(n, 2 * p) else p
  }

  function Split(n: nat): (k: nat)
    requires n >= 2
    ensures 1 <= k < n <= 2 * k
  {
    SplitFrom(n, 1)
  }

  ghost predicate PowerOfTwo(k: nat) {
    k == 1 || (k >= 2 && k % 2 == 0 && PowerOfTwo(k / 2))
  }

  /** Split at the largest power of two below the length, and hash the two roots. */
  function TopDown<H>(xs: seq<H>, pair: (H, H) -> H): H
    requires xs != []
    decreases |xs|
  {
    if |xs| == 1 then xs[0]
    else pair(TopDown(xs[..Split(|xs|)], pair), TopDown(xs[Split(|xs|)..], pair))
  }

  lemma {:induction false} SplitFromIsPowerOfTwo(n: nat, p: nat)
    requires 1 <= p < n && PowerOfTwo(p)
    ensures PowerOfTwo(SplitFrom(n, p))
    decreases n - p
  {
    if 2 * p < n {
      assert PowerOfTwo(2 * p);
      SplitFromIsPowerOfTwo(n, 2 * p);
    }
  }

  /** `Split` is THE power of two with `k < n <= 2k`. */
  lemma SplitIsLargestPowerOfTwo(n: nat, k: nat)
    requires n >= 2 && PowerOfTwo(k) && k < n
    ensures PowerOfTwo(Split(n)) && k <= Split(n)
  {
    SplitFromIsPowerOfTwo(n, 1);
    if k > Split(n) {
      PowersOfTwoApart(Split(n), k);
    }
  }

  lemma {:induction false} PowersOfTwoApart(j: nat, k: nat)
    requires PowerOfTwo(j) && PowerOfTwo(k) && j < k
    ensures 2 * j <= k
  {
    if j > 1 {
      PowersOfTwoApart(j / 2, k / 2);
    }
  }

  /** Halving the list halves the split point. */
  lemma {:induction false} SplitHalves(n: nat, p: nat)
    requires 1 <= p && 2 * p < n
    ensures p < (n + 1) / 2
    ensures SplitFrom(n, 2 * p) == 2 * SplitFrom((n + 1) / 2, p)
    decreases n - p
  {
    if 4 * p < n {
      SplitHalves(n, 2 * p);
    }
  }

  lemma LevelUpFirst<H>(xs: seq<H>, pair: (H, H) -> H)
    requires |xs| >= 2
    ensures LevelUp(xs, pair) == [pair(xs[0], xs[1])] + LevelUp(xs[2..], pair)
  {
  }

  lemma Reslice<H>(xs: seq<H>, k: nat)
    requires 2 <= 2 * k <= |xs|
    ensures xs[2..][..2 * (k - 1)] == xs[..2 * k][2..] && xs[2..][2 * (k - 1)..] == xs[2 * k..]
  {
  }

  lemma Regroup<H>(a: seq<H>, b: seq<H>, c: seq<H>)
    ensures a + (b + c) == (a + b) + c
  {
  }

  lemma {:induction false} LevelUpSplits<H>(xs: seq<H>, k: nat, pair: (H, H) -> H)
    requires 2 * k <= |xs|
    ensures LevelUp(xs, pair) == LevelUp(xs[..2 * k], pair) + LevelUp(xs[2 * k..], pair)
  {
    if k == 0 {
      assert xs[0..] == xs && xs[..0] == [];
    } else {
      LevelUpSplits(xs[2..], k - 1, pair);
      Reslice(xs, k);
      LevelUpFirst(xs, pair);
      LevelUpFirst(xs[..2 * k], pair);
      Regroup([pair(xs[0], xs[1])], LevelUp(xs[..2 * k][2..], pair), LevelUp(xs[2 * k..], pair));
    }
  }

  /** Hashing one level does not change the top-down root. */
  lemma {:induction false} LevelUpKeepsRoot<H>(xs: seq<H>, pair: (H, H) -> H)
    requires |xs| >= 2
    ensures TopDown(LevelUp(xs, pair), pair) == TopDown(xs, pair)
    decreases |xs|
  {
    var next := LevelUp(xs, pair);
    if |xs| == 2 {
      assert next == [pair(xs[0], xs[1])];
    } else {
      var half := Split(|next|);
      SplitHalves(|xs|, 1);
      var k := 2 * half;
      assert Split(|xs|) == k;
      LevelUpSplits(xs, half, pair);
      var left, right := xs[..k], xs[k..];
      assert next[..half] == LevelUp(left, pair) && next[half..] == LevelUp(right, pair);
      LevelUpKeepsRoot(left, pair);
      if |right| >= 2 {
        LevelUpKeepsRoot(right, pair);
      }
    }
  }

  // -- the root binds the list --------------------------------------------

  ghost predicate Collides<H>(pair: (H, H) -> H, a: H, b: H, c: H, d: H) {
    (a, b) != (c, d) && pair(a, b) == pair(c, d)
  }

  /**
   * Two different lists of one length with the same root exhibit a collision of the pair
   * hash. No assumption on the hash is made: the collision is found.
   */
  lemma {:induction false} EqualRootsGiveCollision<H>(xs: seq<H>, ys: seq<H>, pair: (H, H) -> H)
    returns (a: H, b: H, c: H, d: H)
    requires |xs| == |ys| && xs != [] && xs != ys
    requires TopDown(xs, pair) == TopDown(ys, pair)
    ensures Collides(pair, a, b, c, d)
    decreases |xs|
  {
    if |xs| == 1 {
      assert false;
    }
    var k := Split(|xs|);
    a, b := TopDown(xs[..k], pair), TopDown(xs[k..], pair);
    c, d := TopDown(ys[..k], pair), TopDown(ys[k..], pair);
    if a == c && b == d {
      if xs[..k] != ys[..k] {
        a, b, c, d := EqualRootsGiveCollision(xs[..k], ys[..k], pair);
      } else {
        assert xs == xs[..k] + xs[k..] && ys == ys[..k] + ys[k..];
        a, b, c, d := EqualRootsGiveCollision(xs[k..], ys[k..], pair);
      }
    }
  }

  /** With a collision-free pair hash, equal roots mean equal lists. */
  lemma RootIsInjective<H(!new)>(xs: seq<H>, ys: seq<H>, pair: (H, H) -> H)
    requires |xs| == |ys| && xs != []
    requires forall a, b, c, d :: pair(a, b) == pair(c, d) ==> a == c && b == d
    ensures TopDown(xs, pair) == TopDown(ys, pair) <==> xs == ys
  {
    if xs != ys && TopDown(xs, pair) == TopDown(ys, pair) {
      var a, b, c, d := EqualRootsGiveCollision(xs, ys, pair);
    }
  }
}
