/** evote/block.go: the Merkle root, built level by level, the last hash of an odd level taken twice. */
module Merkle {
  import opened Types
  import opened Crypto

  /** One pass of the inner loop over a level. */
  function PairUp(level: seq<Bytes>): (next: seq<Bytes>)
    ensures |next| == (|level| + 1) / 2
  {
    if level == [] then []
    else if |level| == 1 then [Hash(level[0] + level[0])]
    else [Hash(level[0] + level[1])] + PairUp(level[2..])
  }

  /** Levels are paired up until one hash is left. */
  function Root(level: seq<Bytes>): Bytes
    requires |level| > 0
    decreases |level|
  {
    if |level| == 1 then level[0] else Root(PairUp(level))
  }

  ghost predicate AllDigests(hashes: seq<Bytes>) {
    forall i :: 0 <= i < |hashes| ==> |hashes[i]| == HASH_SIZE
  }

  lemma {:induction false} PairUpDigests(level: seq<Bytes>)
    ensures AllDigests(PairUp(level))
  {
    if |level| > 1 {
      PairUpDigests(level[2..]);
    }
  }

  lemma {:induction false} PairUpAppend(left: seq<Bytes>, right: seq<Bytes>)
    requires |left| % 2 == 0
    ensures PairUp(left + right) == PairUp(left) + PairUp(right)
    decreases |left|
  {
    if left == [] {
      assert left + right == right;
    } else {
      assert (left + right)[2..] == left[2..] + right;
      PairUpAppend(left[2..], right);
    }
  }

  lemma {:induction false} PairUpStep(level: seq<Bytes>, i: nat)
    requires i % 2 == 0 && i + 1 < |level|
    ensures PairUp(level[..i + 2]) == PairUp(level[..i]) + [Hash(level[i] + level[i + 1])]
  {
    var pair := [level[i], level[i + 1]];
    assert level[..i] + pair == level[..i + 2];
    PairUpAppend(level[..i], pair);
    assert pair[2..] == [];
    assert PairUp(pair) == [Hash(level[i] + level[i + 1])];
  }

  method BuildMerkleTreeMutable(leaves: seq<Bytes>) returns (hash: Bytes)
    requires |leaves| > 0 && AllDigests(leaves)
    ensures hash == Root(leaves)
  {
    var hashes := leaves;
    while |hashes| != 1
      invariant |hashes| > 0 && AllDigests(hashes)
      invariant Root(hashes) == Root(leaves)
      decreases |hashes|
    {
      var nextHashes := [];
      ghost var level := hashes;
      if |hashes| % 2 != 0 {
        hashes := hashes + [hashes[|hashes| - 1]];
        OddLevelPadded(level);
      }
      var i := 0;
      while i < |hashes|
        invariant 0 <= i <= |hashes| && i % 2 == 0
        invariant nextHashes == PairUp(hashes[..i])
      {
        PairUpStep(hashes, i);
        nextHashes := nextHashes + [Hash(hashes[i] + hashes[i + 1])];
        i := i + 2;
      }
      assert hashes[..i] == hashes;
      PairUpDigests(hashes);
      hashes := nextHashes;
    }
    hash := hashes[0][..HASH_SIZE];
  }

  function TxHashes(txs: seq<Transaction>): (hashes: seq<Bytes>)
    ensures |hashes| == |txs|
    ensures forall i :: 0 <= i < |txs| ==> hashes[i] == txs[i].hash
  {
    if txs == [] then [] else TxHashes(txs[..|txs| - 1]) + [txs[|txs| - 1].hash]
  }

  function RootOfTxs(txs: seq<Transaction>): Bytes {
    if txs == [] then ZERO_HASH else Root(TxHashes(txs))
  }

  method BuildMerkleTreeTxs(txs: seq<Transaction>) returns (hash: Bytes)
    requires AllDigests(TxHashes(txs))
    ensures hash == RootOfTxs(txs)
  {
    var hashes: seq<Bytes> := [];
    if |txs| == 0 {
      hashes := hashes + [ZERO_HASH];
    }
    var i := 0;
    while i < |txs|
      invariant 0 <= i <= |txs|
      invariant txs != [] ==> hashes == TxHashes(txs[..i])
      invariant txs == [] ==> hashes == [ZERO_HASH]
    {
      assert txs[..i + 1][..i] == txs[..i];
      hashes := hashes + [txs[i].hash];
      i := i + 1;
    }
    assert txs[..|txs|] == txs;
    hash := BuildMerkleTreeMutable(hashes);
  }

  /** Taking the last hash of an odd level twice is the same as appending it. */
  lemma {:induction false} OddLevelPadded(level: seq<Bytes>)
    requires |level| % 2 == 1
    ensures PairUp(level + [level[|level| - 1]]) == PairUp(level)
    decreases |level|
  {
    if |level| > 1 {
      assert (level + [level[|level| - 1]])[2..] == level[2..] + [level[2..][|level[2..]| - 1]];
      OddLevelPadded(level[2..]);
    }
  }

  // The same root, defined top down.

  function Pow2(n: nat): nat {
    if n == 0 then 1 else 2 * Pow2(n - 1)
  }

  function Height(n: nat): (h: nat)
    requires n > 0
    ensures n <= Pow2(h)
    decreases n
  {
    if n == 1 then 0 else 1 + Height((n + 1) / 2)
  }

  /**
   The hash of a complete tree of the given height over the leaves, left to right. The left half is
   full; where no leaf is left for the right half, the left half stands in for it.
   */
  function Tree(leaves: seq<Bytes>, height: nat): Bytes
    requires 0 < |leaves| <= Pow2(height)
    decreases height
  {
    if height == 0 then leaves[0]
    else
      var half := Pow2(height - 1);
      if |leaves| <= half then Hash(Tree(leaves, height - 1) + Tree(leaves, height - 1))
      else Hash(Tree(leaves[..half], height - 1) + Tree(leaves[half..], height - 1))
  }

  lemma {:induction false} SplitSum(left: seq<Bytes>, right: seq<Bytes>)
    ensures (left + right)[..|left|] == left && (left + right)[|left|..] == right
  {}

  lemma {:induction false} TreeNode(left: seq<Bytes>, right: seq<Bytes>, height: nat)
    requires |left| == Pow2(height) && 0 < |right| <= Pow2(height)
    ensures Tree(left + right, height + 1) == Hash(Tree(left, height) + Tree(right, height))
  {
    SplitSum(left, right);
  }

  /** Pairing up does not cross the middle of a full left half. */
  lemma {:induction false} PairedHalves(left: seq<Bytes>, right: seq<Bytes>, half: nat)
    requires |left| == 2 * half && 0 < |right| <= 2 * half
    ensures PairUp(left + right) == PairUp(left) + PairUp(right)
    ensures |PairUp(left)| == half && 0 < |PairUp(right)| <= half
  {
    PairUpAppend(left, right);
  }

  lemma {:induction false} TreeOfPairedHalves(left: seq<Bytes>, right: seq<Bytes>, height: nat)
    requires |left| == Pow2(height + 1) && 0 < |right| <= Pow2(height + 1)
    requires |PairUp(left)| == Pow2(height) && 0 < |PairUp(right)| <= Pow2(height)
    requires Tree(left, height + 1) == Tree(PairUp(left), height)
    requires Tree(right, height + 1) == Tree(PairUp(right), height)
    ensures |left + right| <= Pow2(height + 2) && |PairUp(left) + PairUp(right)| <= Pow2(height + 1)
    ensures Tree(left + right, height + 2) == Tree(PairUp(left) + PairUp(right), height + 1)
  {
    var next := height + 1;
    TreeNode(left, right, next);
    TreeNode(PairUp(left), PairUp(right), height);
  }

  lemma {:induction false} TreeOfOneOrTwo(leaves: seq<Bytes>)
    requires 0 < |leaves| <= Pow2(1)
    ensures Tree(leaves, 1) == Tree(PairUp(leaves), 0)
  {
    assert Pow2(1) == 2 * Pow2(0) == 2;
    if |leaves| == 2 {
      TreeNode(leaves[..1], leaves[1..], 0);
      assert leaves[..1] + leaves[1..] == leaves;
    }
  }

  lemma {:induction false} TreeOfPairs(leaves: seq<Bytes>, height: nat)
    requires 0 < |leaves| <= Pow2(height + 1)
    ensures Tree(leaves, height + 1) == Tree(PairUp(leaves), height)
    decreases height
  {
    if height == 0 {
      TreeOfOneOrTwo(leaves);
    } else {
      var half, below := Pow2(height), height - 1;
      if |leaves| <= half {
        TreeOfPairs(leaves, below);
      } else {
        var left, right := leaves[..half], leaves[half..];
        assert left + right == leaves;
        TreeOfPairs(left, below);
        TreeOfPairs(right, below);
        PairedHalves(left, right, Pow2(below));
        TreeOfPairedHalves(left, right, below);
      }
    }
  }

  /** The level loop computes the top-down tree hash. */
  lemma {:induction false} RootIsTree(leaves: seq<Bytes>)
    requires |leaves| > 0
    ensures Root(leaves) == Tree(leaves, Height(|leaves|))
    decreases |leaves|
  {
    if |leaves| > 1 {
      var pairs := PairUp(leaves);
      RootIsTree(pairs);
      TreeOfPairs(leaves, Height(|pairs|));
    }
  }

  // What a root says about its leaves.

  /** The byte strings hashed while pairing up one level. */
  ghost function PairPreimages(level: seq<Bytes>): set<Bytes> {
    if level == [] then {}
    else if |level| == 1 then {level[0] + level[0]}
    else {level[0] + level[1]} + PairPreimages(level[2..])
  }

  /** The byte strings hashed while computing the root. */
  ghost function Preimages(level: seq<Bytes>): set<Bytes>
    decreases |level|
  {
    if |level| <= 1 then {} else PairPreimages(level) + Preimages(PairUp(level))
  }

  lemma {:induction false} PairUpBinding(xs: seq<Bytes>, ys: seq<Bytes>)
    requires |xs| == |ys| && AllDigests(xs) && AllDigests(ys)
    requires PairUp(xs) == PairUp(ys)
    requires !CollisionBetween(PairPreimages(xs), PairPreimages(ys))
    ensures xs == ys
    decreases |xs|
  {
    if |xs| == 1 {
      assert PairUp(xs)[0] == PairUp(ys)[0];
      assert (xs[0] + xs[0])[..HASH_SIZE] == xs[0] && (ys[0] + ys[0])[..HASH_SIZE] == ys[0];
    } else if |xs| > 1 {
      assert PairUp(xs)[0] == PairUp(ys)[0] && PairUp(xs)[1..] == PairUp(xs[2..]) && PairUp(ys)[1..] == PairUp(ys[2..]);
      assert (xs[0] + xs[1])[..HASH_SIZE] == xs[0] && (ys[0] + ys[1])[..HASH_SIZE] == ys[0];
      assert (xs[0] + xs[1])[HASH_SIZE..] == xs[1] && (ys[0] + ys[1])[HASH_SIZE..] == ys[1];
      PairUpBinding(xs[2..], ys[2..]);
      assert xs == xs[..2] + xs[2..] && ys == ys[..2] + ys[2..];
    }
  }

  /** Equal roots of equally long lists: the lists are equal, or two hashed strings collide. */
  lemma {:induction false} RootBinding(xs: seq<Bytes>, ys: seq<Bytes>)
    requires 0 < |xs| == |ys| && AllDigests(xs) && AllDigests(ys)
    requires Root(xs) == Root(ys)
    ensures xs == ys || CollisionBetween(Preimages(xs), Preimages(ys))
    decreases |xs|
  {
    if |xs| > 1 && !CollisionBetween(Preimages(xs), Preimages(ys)) {
      PairUpDigests(xs);
      PairUpDigests(ys);
      RootBinding(PairUp(xs), PairUp(ys));
      PairUpBinding(xs, ys);
    }
  }

  /** The lengths must be known: repeating the last hash of an odd level never changes the root. */
  lemma {:induction false} RootIgnoresPadding(leaves: seq<Bytes>)
    requires |leaves| % 2 == 1 && |leaves| > 1
    ensures Root(leaves + [leaves[|leaves| - 1]]) == Root(leaves)
  {
    OddLevelPadded(leaves);
  }
}
