/** evote/block.go: block headers, the header hash chain, and what a tip hash says about the chain. */
module Blocks {
  import opened Types
  import opened Crypto
  import opened Merkle

  /** The block that CreateBlock builds. */
  function BlockOf(txs: seq<Transaction>, prevHash: Bytes, timestamp: u64, proposerPkey: Bytes): Block {
    var header := BlockHeader(prevHash, RootOfTxs(txs), proposerPkey, timestamp);
    Block(header, txs, Hash(EncodeHeader(header)))
  }

  /** The zero hash for no transactions, and else the tree over their hashes. */
  lemma {:induction false} RootIsOfHashes(txs: seq<Transaction>)
    ensures txs == [] ==> |RootOfTxs(txs)| == HASH_SIZE && forall i :: 0 <= i < HASH_SIZE ==> RootOfTxs(txs)[i] == 0
    ensures txs != [] ==> RootOfTxs(txs) == Tree(TxHashes(txs), Height(|txs|))
  {
    if txs == [] {
      ZerosAreZero(HASH_SIZE);
    } else {
      RootIsTree(TxHashes(txs));
    }
  }

  /** The header is over just these fields, and the hash over the header. */
  ghost predicate HasFields(
    b: Block, txs: seq<Transaction>, prevHash: Bytes, timestamp: u64, proposerPkey: Bytes)
  {
    && b.transactions == txs
    && b.header.prevBlockHash == prevHash
    && b.header.timestamp == timestamp
    && b.header.proposerPkey == proposerPkey
    && (txs == [] ==>
          |b.header.merkleTree| == HASH_SIZE && forall i :: 0 <= i < HASH_SIZE ==> b.header.merkleTree[i] == 0)
    && (txs != [] ==> b.header.merkleTree == Tree(TxHashes(txs), Height(|txs|)))
    && b.hash == Hash(EncodeHeader(b.header))
  }

  lemma {:induction false} BlockOfHasFields(
    txs: seq<Transaction>, prevHash: Bytes, timestamp: u64, proposerPkey: Bytes)
    ensures HasFields(BlockOf(txs, prevHash, timestamp, proposerPkey), txs, prevHash, timestamp, proposerPkey)
  {
    RootIsOfHashes(txs);
  }

  method CreateBlock(txs: seq<Transaction>, prevHash: Bytes, timestamp: u64, proposerPkey: Bytes)
    returns (b: Block)
    requires AllDigests(TxHashes(txs))
    ensures b == BlockOf(txs, prevHash, timestamp, proposerPkey)
    ensures HasFields(b, txs, prevHash, timestamp, proposerPkey)
  {
    BlockOfHasFields(txs, prevHash, timestamp, proposerPkey);
    var merkleTree := BuildMerkleTreeTxs(txs);
    var header := BlockHeader(prevHash, merkleTree, proposerPkey, timestamp);
    b := Block(header, txs, Hash(EncodeHeader(header)));
  }

  /** Each transaction carries the hash of its body, as AppendTx checks. */
  ghost predicate HashedTxs(txs: seq<Transaction>) {
    forall i :: 0 <= i < |txs| ==> txs[i].hash == Hash(txs[i].txBody)
  }

  predicate CreatedAfter(b: Block, prevHash: Bytes) {
    b == BlockOf(b.transactions, prevHash, b.header.timestamp, b.header.proposerPkey)
  }

  function TipOf(chain: seq<Block>): Bytes {
    if chain == [] then [] else chain[|chain| - 1].hash
  }

  /** Blocks built by CreateBlock, each on the hash of the one before, the first on no hash. */
  ghost predicate CreatedChain(chain: seq<Block>) {
    chain == [] ||
    (var last := chain[|chain| - 1];
     && CreatedChain(chain[..|chain| - 1])
     && CreatedAfter(last, TipOf(chain[..|chain| - 1]))
     && HashedTxs(last.transactions))
  }

  lemma {:induction false} CreatedChainAt(chain: seq<Block>, i: nat)
    requires CreatedChain(chain) && i < |chain|
    ensures HashedTxs(chain[i].transactions)
    ensures CreatedAfter(chain[i], if i == 0 then [] else chain[i - 1].hash)
    ensures |chain[i].hash| == HASH_SIZE
  {
    if i < |chain| - 1 {
      CreatedChainAt(chain[..|chain| - 1], i);
    }
  }

  function Headers(chain: seq<Block>): (hs: seq<BlockHeader>)
    ensures |hs| == |chain|
    ensures forall i :: 0 <= i < |chain| ==> hs[i] == chain[i].header
  {
    if chain == [] then [] else Headers(chain[..|chain| - 1]) + [chain[|chain| - 1].header]
  }

  /** The header encodings hashed along a chain. */
  ghost function HeaderPreimages(chain: seq<Block>): set<Bytes> {
    if chain == [] then {}
    else {EncodeHeader(chain[|chain| - 1].header)} + HeaderPreimages(chain[..|chain| - 1])
  }

  /** One tip hash, one chain of headers: two created chains with the same tip agree, or headers collide. */
  lemma {:induction false} TipBindsHeaders(A: seq<Block>, B: seq<Block>)
    requires HeaderEncodingIsInjective()
    requires CreatedChain(A) && CreatedChain(B)
    requires TipOf(A) == TipOf(B)
    ensures Headers(A) == Headers(B) || CollisionBetween(HeaderPreimages(A), HeaderPreimages(B))
    decreases |A|
  {
    if A != [] && B != [] {
      var a, b := A[|A| - 1], B[|B| - 1];
      var restA, restB := A[..|A| - 1], B[..|B| - 1];
      if EncodeHeader(a.header) == EncodeHeader(b.header) {
        assert a.header == b.header;
        assert a.header.prevBlockHash == TipOf(restA) && b.header.prevBlockHash == TipOf(restB);
        TipBindsHeaders(restA, restB);
        if CollisionBetween(HeaderPreimages(restA), HeaderPreimages(restB)) {
          var x, y :| x in HeaderPreimages(restA) && y in HeaderPreimages(restB) && x != y && Hash(x) == Hash(y);
          assert x in HeaderPreimages(A) && y in HeaderPreimages(B);
        }
      } else {
        assert EncodeHeader(a.header) in HeaderPreimages(A) && EncodeHeader(b.header) in HeaderPreimages(B);
      }
    }
  }

  /** The bodies and Merkle nodes hashed for one block. */
  ghost function TxPreimages(txs: seq<Transaction>): set<Bytes> {
    Preimages(TxHashes(txs)) + set i | 0 <= i < |txs| :: txs[i].txBody
  }

  lemma {:induction false} RootBindsBodies(xs: seq<Transaction>, ys: seq<Transaction>, i: nat)
    requires HashedTxs(xs) && HashedTxs(ys)
    requires i < |xs| == |ys|
    requires RootOfTxs(xs) == RootOfTxs(ys)
    ensures xs[i].txBody == ys[i].txBody || CollisionBetween(TxPreimages(xs), TxPreimages(ys))
  {
    if CollisionBetween(Preimages(TxHashes(xs)), Preimages(TxHashes(ys))) {
      var a, b :| a in Preimages(TxHashes(xs)) && b in Preimages(TxHashes(ys)) && a != b && Hash(a) == Hash(b);
      assert a in TxPreimages(xs) && b in TxPreimages(ys);
    } else {
      RootBinding(TxHashes(xs), TxHashes(ys));
      assert TxHashes(xs)[i] == xs[i].hash && TxHashes(ys)[i] == ys[i].hash;
      assert xs[i].txBody in TxPreimages(xs) && ys[i].txBody in TxPreimages(ys);
    }
  }

  /**
   One tip hash, one history: two created chains with the same tip have equally many blocks, and
   where two blocks hold equally many transactions they hold the same bodies in the same order.
   Otherwise two of the strings hashed for them collide.
   */
  lemma {:induction false} TipBindsBodies(A: seq<Block>, B: seq<Block>, i: nat, k: nat)
    requires HeaderEncodingIsInjective()
    requires CreatedChain(A) && CreatedChain(B)
    requires TipOf(A) == TipOf(B)
    requires !CollisionBetween(HeaderPreimages(A), HeaderPreimages(B))
    requires i < |A|
    ensures |A| == |B|
    ensures k < |A[i].transactions| == |B[i].transactions| ==>
              || A[i].transactions[k].txBody == B[i].transactions[k].txBody
              || CollisionBetween(TxPreimages(A[i].transactions), TxPreimages(B[i].transactions))
  {
    TipBindsHeaders(A, B);
    assert |Headers(A)| == |A| && |Headers(B)| == |B|;
    if k < |A[i].transactions| == |B[i].transactions| {
      CreatedChainAt(A, i);
      CreatedChainAt(B, i);
      assert A[i].header == Headers(A)[i] == Headers(B)[i] == B[i].header;
      RootBindsBodies(A[i].transactions, B[i].transactions, k);
    }
  }
}
