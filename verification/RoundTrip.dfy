/** Saving and reading back: which blocks come back as they were saved. */
module RoundTrip {
  import opened Types
  import opened Crypto
  import opened LedgerSpec
  import opened WellFormed
  import opened Loading

  /** The record of transaction k of the block, as it is stored. */
  function StoredRecord(l: Ledger, b: Block, k: nat): TxRecord
    requires k < |b.transactions|
  {
    RecordOf(Applied(l, b, k).txs, b, |l.blocks|, k)
  }

  function ReadBack(l: Ledger, b: Block, n: nat): (txs: seq<Transaction>)
    requires n <= |b.transactions|
    ensures |txs| == n
    ensures forall k :: 0 <= k < n ==> txs[k] == StoredTx(StoredRecord(l, b, k))
  {
    if n == 0 then [] else ReadBack(l, b, n - 1) + [StoredTx(StoredRecord(l, b, n - 1))]
  }

  lemma {:induction false} TxsAtSnoc(txs: seq<TxRecord>, rec: TxRecord, height: nat)
    ensures TxsAt(txs + [rec], height)
         == if rec.height == height then TxsAt(txs, height) + [StoredTx(rec)] else TxsAt(txs, height)
  {
    assert (txs + [rec])[..|txs|] == txs;
  }

  lemma {:induction false} NoTxsAt(txs: seq<TxRecord>, height: nat)
    requires forall k :: 0 <= k < |txs| ==> txs[k].height < height
    ensures TxsAt(txs, height) == []
  {
    if txs != [] {
      var n := |txs| - 1;
      NoTxsAt(txs[..n], height);
    }
  }

  lemma {:induction false} AppliedTxsAt(l: Ledger, b: Block, n: nat, height: nat)
    requires HeightsInRange(l) && n <= |b.transactions| && height <= |l.blocks|
    ensures TxsAt(Applied(l, b, n).txs, height)
         == if height == |l.blocks| then ReadBack(l, b, n) else TxsAt(l.txs, height)
  {
    if n == 0 {
      NoTxsAt(l.txs, |l.blocks|);
    } else {
      AppliedTxsAt(l, b, n - 1, height);
      TxsAtSnoc(Applied(l, b, n - 1).txs, StoredRecord(l, b, n - 1), height);
    }
  }

  lemma {:induction false} LoadApplied(l: Ledger, b: Block, i: nat)
    requires HeightsInRange(l) && i <= |l.blocks|
    ensures LoadBlock(ApplyBlock(l, b), i)
         == if i < |l.blocks| then LoadBlock(l, i) else Block(b.header, ReadBack(l, b, |b.transactions|), b.hash)
  {
    AppliedTxsAt(l, b, |b.transactions|, i);
  }

  lemma {:induction false} HeightsFit(chain: seq<Block>)
    requires SavedChain(chain)
    ensures HeightsInRange(Replay(chain))
  {
    ReplayWF(chain);
  }

  lemma {:induction false} LoadNext(rest: seq<Block>, b: Block, i: nat)
    requires SavedChain(rest) && i < |rest|
    ensures |Replay(rest).blocks| == |rest| && |ApplyBlock(Replay(rest), b).blocks| == |rest| + 1
    ensures LoadBlock(ApplyBlock(Replay(rest), b), i) == LoadBlock(Replay(rest), i)
  {
    ReplayBlocks(rest);
    HeightsFit(rest);
    LoadApplied(Replay(rest), b, i);
  }

  lemma {:induction false} ReplayCount(chain: seq<Block>)
    ensures |Replay(chain).blocks| == |chain|
  {
    ReplayBlocks(chain);
  }

  lemma {:induction false} LoadPrefix(chain: seq<Block>, before: seq<Block>, i: nat)
    requires SavedChain(chain) && before <= chain && i < |before|
    ensures |Replay(before).blocks| == |before| && |Replay(chain).blocks| == |chain|
    ensures LoadBlock(Replay(chain), i) == LoadBlock(Replay(before), i)
  {
    ReplayCount(before);
    ReplayCount(chain);
    if |before| == |chain| {
      assert before == chain;
    } else {
      var n := |chain| - 1;
      LoadPrefix(chain[..n], before, i);
      LoadNext(chain[..n], chain[n], i);
    }
  }

  lemma {:induction false} LoadLast(chain: seq<Block>, rest: seq<Block>, last: Block)
    requires SavedChain(rest) && chain == rest + [last]
    ensures |Replay(chain).blocks| == |rest| + 1
    ensures LoadBlock(Replay(chain), |rest|)
         == Block(last.header, ReadBack(Replay(rest), last, |last.transactions|), last.hash)
  {
    assert chain[..|chain| - 1] == rest;
    ReplayBlocks(rest);
    ReplayWF(rest);
    LoadApplied(Replay(rest), last, |rest|);
  }

  /** What is read back of block i does not depend on what is saved after it. */
  lemma {:induction false} LoadSaved(chain: seq<Block>, i: nat)
    requires SavedChain(chain) && i < |chain|
    ensures |Replay(chain).blocks| == |chain|
    ensures LoadBlock(Replay(chain), i)
         == Block(chain[i].header, ReadBack(Replay(chain[..i]), chain[i], |chain[i].transactions|), chain[i].hash)
  {
    SavedPrefix(chain, chain[..i]);
    OneMoreBlock(chain, i);
    LoadPrefix(chain, chain[..i + 1], i);
    LoadLast(chain[..i + 1], chain[..i], chain[i]);
  }

  lemma {:induction false} SavedPrefix(chain: seq<Block>, before: seq<Block>)
    requires SavedChain(chain) && before <= chain
    ensures SavedChain(before)
  {
    if |before| == |chain| {
      assert before == chain;
    } else {
      SavedPrefix(chain[..|chain| - 1], before);
    }
  }

  lemma {:induction false} OneMoreBlock(chain: seq<Block>, n: nat)
    requires n < |chain|
    ensures chain[..n + 1] == chain[..n] + [chain[n]]
  {}

  /** The input names a transaction that has a row by then, be it its own. */
  predicate HasRow(txs: seq<TxRecord>, own: Bytes, p: Input) {
    p.prevTxHash == own || FindTx(txs, p.prevTxHash).Some?
  }

  lemma {:induction false} ResolvedShrinks(txs: seq<TxRecord>, own: Bytes, inputs: seq<Input>)
    ensures |Resolved(txs, own, inputs)| <= |inputs|
    ensures Resolved(txs, own, inputs) == inputs <==> forall k :: 0 <= k < |inputs| ==> HasRow(txs, own, inputs[k])
  {
    if inputs != [] {
      var n := |inputs| - 1;
      ResolvedShrinks(txs, own, inputs[..n]);
      assert inputs == inputs[..n] + [inputs[n]];
      if !HasRow(txs, own, inputs[n]) {
        assert |Resolved(txs, own, inputs)| <= n;
      }
    }
  }

  /** The body is in the serialized form that Marshal gives, and each input names a stored transaction. */
  ghost predicate ComesBack(l: Ledger, b: Block, k: nat)
    requires k < |b.transactions|
  {
    var tx := b.transactions[k];
    && tx.txBody == EncodeBody(Body(tx))
    && forall q :: 0 <= q < |Body(tx).inputs| ==> HasRow(Applied(l, b, k).txs, tx.hash, Body(tx).inputs[q])
  }

  lemma {:induction false} TxComesBack(l: Ledger, b: Block, k: nat)
    requires k < |b.transactions| && BodyRoundTrips()
    ensures StoredTx(StoredRecord(l, b, k)) == b.transactions[k] <==> ComesBack(l, b, k)
  {
    var tx := b.transactions[k];
    var rec := StoredRecord(l, b, k);
    ResolvedShrinks(Applied(l, b, k).txs, tx.hash, Body(tx).inputs);
    assert DecodeBody(EncodeBody(rec.body)) == Some(rec.body);
    assert DecodeBody(EncodeBody(Body(tx))) == Some(Body(tx));
    assert rec.body == Body(tx) <==> Resolved(Applied(l, b, k).txs, tx.hash, Body(tx).inputs) == Body(tx).inputs;
  }

  /**
   A saved block is read back unchanged, whatever was saved after it, if and only if the body of each
   of its transactions is in canonical form and each input names a transaction stored by then.
   */
  lemma {:induction false} SavedBlockComesBack(chain: seq<Block>, i: nat)
    requires SavedChain(chain) && i < |chain| && BodyRoundTrips()
    ensures |Replay(chain).blocks| == |chain| && FindBlock(Replay(chain).blocks, chain[i].hash) == Some(i)
    ensures LoadBlock(Replay(chain), i) == chain[i] <==>
            forall k :: 0 <= k < |chain[i].transactions| ==> ComesBack(Replay(chain[..i]), chain[i], k)
  {
    ReplayWF(chain);
    ReplayBlocks(chain);
    LinearAt(Replay(chain).blocks, i);
    LoadSaved(chain, i);
    var l, b := Replay(chain[..i]), chain[i];
    forall k | 0 <= k < |b.transactions|
      ensures ReadBack(l, b, |b.transactions|)[k] == b.transactions[k] <==> ComesBack(l, b, k)
    {
      TxComesBack(l, b, k);
    }
  }

  // Walking the chain.

  /** The block after the one with this hash; the first block after no hash. */
  function BlockAfter(l: Ledger, hash: Bytes): Option<Block> {
    if hash == [] then
      if l.blocks == [] then None else Some(LoadBlock(l, 0))
    else
      FindBlockSound(l.blocks, hash);
      match FindBlock(l.blocks, hash)
      case None => None
      case Some(i) => if i + 1 < |l.blocks| then Some(LoadBlock(l, i + 1)) else None
  }

  /** The first n blocks that a caller gets who starts from no hash and goes on from each block's hash. */
  function Walk(l: Ledger, n: nat): seq<Block> {
    if n == 0 then []
    else
      var before := Walk(l, n - 1);
      match BlockAfter(l, if before == [] then [] else before[|before| - 1].hash)
      case None => before
      case Some(b) => before + [b]
  }

  lemma {:induction false} AfterBlockAt(l: Ledger, i: nat)
    requires LinearBlocks(l.blocks) && i < |l.blocks| && l.blocks[i].hash != []
    ensures BlockAfter(l, l.blocks[i].hash) == if i + 1 < |l.blocks| then Some(LoadBlock(l, i + 1)) else None
  {
    LinearAt(l.blocks, i);
  }

  lemma {:induction false} WalkStep(l: Ledger, m: nat)
    requires LinearBlocks(l.blocks) && m < |l.blocks| && |Walk(l, m)| == m
    requires m > 0 ==> Walk(l, m)[m - 1] == LoadBlock(l, m - 1) && l.blocks[m - 1].hash != []
    ensures Walk(l, m + 1) == Walk(l, m) + [LoadBlock(l, m)]
  {
    if m > 0 {
      AfterBlockAt(l, m - 1);
    }
  }

  /** The first n blocks, in the order they were saved. */
  function FirstBlocks(l: Ledger, n: nat): (blocks: seq<Block>)
    requires n <= |l.blocks|
    ensures |blocks| == n
    ensures forall i :: 0 <= i < n ==> blocks[i] == LoadBlock(l, i)
  {
    if n == 0 then [] else FirstBlocks(l, n - 1) + [LoadBlock(l, n - 1)]
  }

  /** The walk visits the blocks in the order they were saved. */
  lemma {:induction false} WalkListsChain(l: Ledger, n: nat)
    requires LinearBlocks(l.blocks) && n <= |l.blocks|
    requires forall i :: 0 <= i < |l.blocks| ==> l.blocks[i].hash != []
    ensures Walk(l, n) == FirstBlocks(l, n)
  {
    if n > 0 {
      var m := n - 1;
      WalkListsChain(l, m);
      WalkStep(l, m);
    }
  }

  function WalkTip(l: Ledger, n: nat): Bytes {
    if Walk(l, n) == [] then [] else Walk(l, n)[|Walk(l, n)| - 1].hash
  }

  lemma {:induction false} WalkStops(l: Ledger)
    requires LinearBlocks(l.blocks)
    requires forall i :: 0 <= i < |l.blocks| ==> l.blocks[i].hash != []
    ensures BlockAfter(l, WalkTip(l, |l.blocks|)) == None
  {
    WalkListsChain(l, |l.blocks|);
    if l.blocks != [] {
      AfterBlockAt(l, |l.blocks| - 1);
    }
  }

  lemma {:induction false} WalkPauses(l: Ledger, n: nat)
    requires BlockAfter(l, WalkTip(l, n)) == None
    ensures Walk(l, n + 1) == Walk(l, n)
  {}

  /** However long the walk goes on, it ends with the last block. */
  lemma {:induction false} WalkEnds(l: Ledger, n: nat)
    requires LinearBlocks(l.blocks) && n >= |l.blocks|
    requires forall i :: 0 <= i < |l.blocks| ==> l.blocks[i].hash != []
    ensures Walk(l, n) == Walk(l, |l.blocks|)
  {
    if n > |l.blocks| {
      var m := n - 1;
      WalkEnds(l, m);
      assert WalkTip(l, m) == WalkTip(l, |l.blocks|);
      WalkStops(l);
      WalkPauses(l, m);
    }
  }
}
