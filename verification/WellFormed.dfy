/** What every chain of saved blocks keeps, whatever the blocks hold. */
module WellFormed {
  import opened Types
  import opened LedgerSpec

  ghost predicate DistinctTxs(txs: seq<TxRecord>) {
    txs == [] ||
    (DistinctTxs(txs[..|txs| - 1]) && FindTx(txs[..|txs| - 1], txs[|txs| - 1].hash) == None)
  }

  /** One root, each other block on its predecessor, no hash twice. */
  ghost predicate LinearBlocks(blocks: seq<BlockRecord>) {
    blocks == [] ||
    (var rest, last := blocks[..|blocks| - 1], blocks[|blocks| - 1];
     && LinearBlocks(rest)
     && FindBlock(rest, last.hash) == None
     && if rest == [] then last.header.prevBlockHash == []
        else last.header.prevBlockHash == rest[|rest| - 1].hash && rest[|rest| - 1].hash != [])
  }

  /** The coin is one of the outputs of a stored transaction. */
  ghost predicate Backed(l: Ledger, c: Coin) {
    var rec := FindTx(l.txs, c.utxo.txHash);
    && rec.Some?
    && rec.value.height < |l.blocks|
    && c.utxo.index < |rec.value.body.outputs|
    && c == CoinAt(rec.value, TimeOf(l, rec.value), c.utxo.index)
  }

  ghost predicate HeightsInRange(l: Ledger) {
    forall i :: 0 <= i < |l.txs| ==> l.txs[i].height < |l.blocks|
  }

  ghost predicate CoinsBacked(l: Ledger) {
    forall c :: c in l.coins ==> Backed(l, c)
  }

  ghost predicate WF(l: Ledger) {
    && LinearBlocks(l.blocks)
    && HeightsInRange(l)
    && DistinctTxs(l.txs)
    && Distinct(l.coins)
    && CoinsBacked(l)
  }

  lemma {:induction false} FindTxSnoc(txs: seq<TxRecord>, rec: TxRecord, hash: Bytes)
    ensures FindTx(txs + [rec], hash) == if rec.hash == hash then Some(rec) else FindTx(txs, hash)
  {
    assert (txs + [rec])[..|txs|] == txs;
  }

  lemma {:induction false} AddBlockKeepsWF(l: Ledger, b: Block)
    requires WF(l) && CanAddBlock(l, b)
    ensures WF(AddBlock(l, b))
  {
    var r := AddBlock(l, b);
    assert r.blocks[..|l.blocks|] == l.blocks;
    forall c | c in r.coins ensures Backed(r, c) {
      assert Backed(l, c);
    }
  }

  lemma {:induction false} NewCoinsFresh(l: Ledger, rec: TxRecord, c: Coin)
    requires CoinsBacked(l) && rec.height < |l.blocks| && FindTx(l.txs, rec.hash) == None
    requires c in CoinsOf(rec, TimeOf(l, rec), |rec.body.outputs|)
    ensures FindCoin(l.coins, Point(c)) == None
  {
    CoinsOfMember(rec, TimeOf(l, rec), |rec.body.outputs|, c);
    forall old_c | old_c in l.coins ensures Point(old_c) != Point(c) {
      assert Backed(l, old_c);
    }
    FindSound(l.coins, Point(c));
  }

  lemma {:induction false} ApplyTxDistinct(l: Ledger, rec: TxRecord)
    requires WF(l) && rec.height < |l.blocks| && FindTx(l.txs, rec.hash) == None
    ensures Distinct(ApplyTx(l, rec).coins)
  {
    var kept, made := Remaining(l.coins, rec.body.inputs), CoinsOf(rec, TimeOf(l, rec), |rec.body.outputs|);
    RemainingDistinct(l.coins, rec.body.inputs);
    CoinsOfDistinct(rec, TimeOf(l, rec), |rec.body.outputs|);
    forall c | c in made ensures FindCoin(kept, Point(c)) == None {
      NewCoinsFresh(l, rec, c);
      RemainingFind(l.coins, rec.body.inputs, Point(c));
    }
    DistinctAppend(kept, made);
  }

  lemma {:induction false} ApplyTxBacks(l: Ledger, rec: TxRecord, c: Coin)
    requires WF(l) && rec.height < |l.blocks| && FindTx(l.txs, rec.hash) == None && c in ApplyTx(l, rec).coins
    ensures Backed(ApplyTx(l, rec), c)
  {
    FindTxSnoc(l.txs, rec, c.utxo.txHash);
    if c in CoinsOf(rec, TimeOf(l, rec), |rec.body.outputs|) {
      CoinsOfMember(rec, TimeOf(l, rec), |rec.body.outputs|, c);
    } else {
      RemainingMember(l.coins, rec.body.inputs, c);
      assert Backed(l, c);
    }
  }

  lemma {:induction false} ApplyTxKeepsWF(l: Ledger, rec: TxRecord)
    requires WF(l) && rec.height < |l.blocks| && FindTx(l.txs, rec.hash) == None
    ensures WF(ApplyTx(l, rec))
  {
    var r := ApplyTx(l, rec);
    assert r.txs[..|l.txs|] == l.txs;
    ApplyTxDistinct(l, rec);
    forall c | c in r.coins ensures Backed(r, c) {
      ApplyTxBacks(l, rec, c);
    }
  }

  lemma {:induction false} CanApplyPart(l: Ledger, b: Block, n: nat, i: nat)
    requires i <= n <= |b.transactions| && CanApply(l, b, n)
    ensures CanApply(l, b, i)
    decreases n
  {
    if i < n {
      var m := n - 1;
      CanApplyPart(l, b, m, i);
    }
  }

  lemma {:induction false} CanApplyLess(l: Ledger, b: Block, n: nat, i: nat)
    requires i <= n <= |b.transactions| && CanApply(l, b, n)
    ensures CanApply(l, b, i)
    ensures i < n ==> Storable(b.transactions[i]) && FindTx(Applied(l, b, i).txs, b.transactions[i].hash) == None
  {
    if i < n {
      var next := i + 1;
      CanApplyPart(l, b, n, next);
    }
  }

  lemma {:induction false} AppliedKeepsWF(l: Ledger, b: Block, n: nat)
    requires WF(l) && CanAddBlock(l, b) && n <= |b.transactions| && CanApply(l, b, n)
    ensures WF(Applied(l, b, n))
  {
    if n == 0 {
      AddBlockKeepsWF(l, b);
    } else {
      AppliedKeepsWF(l, b, n - 1);
      ApplyTxKeepsWF(Applied(l, b, n - 1), RecordOf(Applied(l, b, n - 1).txs, b, |l.blocks|, n - 1));
    }
  }

  lemma {:induction false} BlockKeepsWF(l: Ledger, b: Block)
    requires WF(l) && CanSave(l, b)
    ensures WF(ApplyBlock(l, b))
  {
    AppliedKeepsWF(l, b, |b.transactions|);
  }

  lemma {:induction false} ReplayWF(chain: seq<Block>)
    requires SavedChain(chain)
    ensures WF(Replay(chain))
  {
    if chain != [] {
      var n := |chain| - 1;
      ReplayWF(chain[..n]);
      BlockKeepsWF(Replay(chain[..n]), chain[n]);
    }
  }

  // The chain as a list.

  function Records(chain: seq<Block>): (records: seq<BlockRecord>)
    ensures |records| == |chain|
    ensures forall i :: 0 <= i < |chain| ==> records[i] == BlockRecord(chain[i].hash, chain[i].header)
  {
    if chain == [] then []
    else Records(chain[..|chain| - 1]) + [BlockRecord(chain[|chain| - 1].hash, chain[|chain| - 1].header)]
  }

  lemma {:induction false} ReplayRecords(chain: seq<Block>)
    ensures Replay(chain).blocks == Records(chain)
  {
    if chain != [] {
      var n := |chain| - 1;
      ReplayRecords(chain[..n]);
    }
  }

  /** The saved blocks, in save order, are the ledger's blocks; block i sits at height i. */
  lemma {:induction false} ReplayBlocks(chain: seq<Block>)
    ensures |Replay(chain).blocks| == |chain|
    ensures forall i :: 0 <= i < |chain| ==> Replay(chain).blocks[i] == BlockRecord(chain[i].hash, chain[i].header)
  {
    ReplayRecords(chain);
  }

  /** Saved timestamps fit their signed column. */
  lemma {:induction false} TimesFit(chain: seq<Block>, i: nat)
    requires SavedChain(chain) && i < |chain|
    ensures chain[i].header.timestamp < TWO_TO_THE_63
  {
    var m := |chain| - 1;
    if i < m {
      TimesFit(chain[..m], i);
    } else {
      assert CanAddBlock(Replay(chain[..m]), chain[m]);
    }
  }

  lemma {:induction false} LinearAt(blocks: seq<BlockRecord>, i: nat)
    requires LinearBlocks(blocks) && i < |blocks|
    ensures if i == 0 then blocks[i].header.prevBlockHash == []
            else blocks[i].header.prevBlockHash == blocks[i - 1].hash && blocks[i - 1].hash != []
    ensures FindBlock(blocks, blocks[i].hash) == Some(i)
  {
    if i < |blocks| - 1 {
      LinearAt(blocks[..|blocks| - 1], i);
      FindBlockSound(blocks[..|blocks| - 1], blocks[|blocks| - 1].hash);
    }
  }

  lemma {:induction false} OneChildEach(blocks: seq<BlockRecord>, i: nat, j: nat)
    requires LinearBlocks(blocks) && i < j < |blocks|
    ensures blocks[i].header.prevBlockHash != blocks[j].header.prevBlockHash
  {
    LinearAt(blocks, i);
    LinearAt(blocks, j);
    LinearAt(blocks, j - 1);
    if i > 0 {
      var m := i - 1;
      LinearAt(blocks, m);
    }
  }

  /**
   Linear chain: one root, no two blocks with one parent or one hash, and every other block's parent
   is the block saved just before it.
   */
  lemma {:induction false} LinearChain(chain: seq<Block>, i: nat)
    requires SavedChain(chain) && i < |chain|
    ensures chain[i].header.prevBlockHash == [] <==> i == 0
    ensures i > 0 ==> chain[i].header.prevBlockHash == chain[i - 1].hash
    ensures forall j :: 0 <= j < |chain| && j != i ==>
              chain[i].header.prevBlockHash != chain[j].header.prevBlockHash && chain[i].hash != chain[j].hash
  {
    ReplayWF(chain);
    ReplayBlocks(chain);
    var blocks := Replay(chain).blocks;
    LinearAt(blocks, i);
    forall j | 0 <= j < |chain| && j != i
      ensures chain[i].header.prevBlockHash != chain[j].header.prevBlockHash && chain[i].hash != chain[j].hash
    {
      OneChildEach(blocks, if i < j then i else j, if i < j then j else i);
      LinearAt(blocks, j);
    }
  }

  // Prefixes of a chain.

  lemma {:induction false} ReplaySnoc(chain: seq<Block>, b: Block)
    ensures Replay(chain + [b]) == ApplyBlock(Replay(chain), b)
    ensures SavedChain(chain) && CanSave(Replay(chain), b) ==> SavedChain(chain + [b])
  {
    assert (chain + [b])[..|chain|] == chain;
  }

  lemma {:induction false} AppliedTxsNext(l: Ledger, b: Block, m: nat)
    requires m < |b.transactions|
    ensures Applied(l, b, m + 1).txs == Applied(l, b, m).txs + [RecordOf(Applied(l, b, m).txs, b, |l.blocks|, m)]
  {}

  lemma {:induction false} AppliedGrows(l: Ledger, b: Block, n: nat)
    requires n <= |b.transactions|
    ensures l.txs <= Applied(l, b, n).txs
  {
    if n > 0 {
      var m := n - 1;
      AppliedGrows(l, b, m);
      AppliedTxsNext(l, b, m);
    }
  }

  lemma {:induction false} TxsGrow(chain: seq<Block>)
    requires chain != []
    ensures Replay(chain[..|chain| - 1]).txs <= Replay(chain).txs
  {
    var last := chain[|chain| - 1];
    AppliedGrows(Replay(chain[..|chain| - 1]), last, |last.transactions|);
  }

  /** A block that is linked to stays linked to, whatever is saved later. */
  lemma {:induction false} LinkStays(chain: seq<Block>, before: seq<Block>, link: Bytes)
    requires before <= chain && FindLink(Replay(before).txs, link).Some?
    ensures FindLink(Replay(chain).txs, link) == FindLink(Replay(before).txs, link)
  {
    if |before| == |chain| {
      assert before == chain;
    } else {
      var n := |chain| - 1;
      LinkStays(chain[..n], before, link);
      TxsGrow(chain);
      FindLinkStays(Replay(chain[..n]).txs, Replay(chain).txs, link);
    }
  }

  lemma {:induction false} FindTxAt(txs: seq<TxRecord>, i: nat)
    requires DistinctTxs(txs) && i < |txs|
    ensures FindTx(txs, txs[i].hash) == Some(txs[i])
  {
    if i < |txs| - 1 {
      FindTxAt(txs[..|txs| - 1], i);
      FindTxSound(txs[..|txs| - 1], txs[|txs| - 1].hash);
    }
  }
}
