/**
 Chains of saved blocks whose inputs all name coins that were unspent before their block: what such
 a chain does to the coins, and that it never spends one again in a later block.
 */
module Sound {
  import opened Types
  import opened Crypto
  import opened LedgerSpec
  import opened WellFormed

  /** Every input of the block names a coin of the ledger before the block. */
  ghost predicate InputsUnspent(l: Ledger, b: Block) {
    forall i, k :: 0 <= i < |b.transactions| && 0 <= k < |Body(b.transactions[i]).inputs| ==>
      FindCoin(l.coins, Body(b.transactions[i]).inputs[k]).Some?
  }

  ghost predicate SoundBlock(l: Ledger, b: Block) {
    CanSave(l, b) && InputsUnspent(l, b)
  }

  ghost predicate SoundChain(chain: seq<Block>) {
    chain == [] ||
    (SoundChain(chain[..|chain| - 1]) && SoundBlock(Replay(chain[..|chain| - 1]), chain[|chain| - 1]))
  }

  lemma {:induction false} SoundIsSaved(chain: seq<Block>)
    requires SoundChain(chain)
    ensures SavedChain(chain)
  {
    if chain != [] {
      var n := |chain| - 1;
      SoundIsSaved(chain[..n]);
    }
  }

  lemma {:induction false} SoundPrefix(chain: seq<Block>, before: seq<Block>)
    requires SoundChain(chain) && before <= chain
    ensures SoundChain(before)
  {
    if |before| == |chain| {
      assert before == chain;
    } else {
      SoundPrefix(chain[..|chain| - 1], before);
    }
  }

  lemma {:induction false} OneMore(chain: seq<Block>, n: nat)
    requires n < |chain|
    ensures chain[..n + 1] == chain[..n] + [chain[n]]
  {}

  lemma {:induction false} SoundLast(chain: seq<Block>, rest: seq<Block>, last: Block)
    requires SoundChain(chain) && chain == rest + [last]
    ensures SoundChain(rest) && SoundBlock(Replay(rest), last)
  {
    assert chain[..|chain| - 1] == rest;
  }

  lemma {:induction false} SoundAt(chain: seq<Block>, n: nat)
    requires SoundChain(chain) && n < |chain|
    ensures SoundChain(chain[..n]) && SoundBlock(Replay(chain[..n]), chain[n])
  {
    SoundPrefix(chain, chain[..n + 1]);
    OneMore(chain, n);
    SoundLast(chain[..n + 1], chain[..n], chain[n]);
  }

  /** A chain is a shorter chain and one more block. */
  lemma {:induction false} LastBlock(chain: seq<Block>)
    requires SoundChain(chain) && chain != []
    ensures SoundChain(chain[..|chain| - 1])
    ensures WF(Replay(chain[..|chain| - 1])) && |Replay(chain[..|chain| - 1]).blocks| == |chain| - 1
    ensures SoundBlock(Replay(chain[..|chain| - 1]), chain[|chain| - 1])
  {
    SoundIsSaved(chain[..|chain| - 1]);
    ReplayWF(chain[..|chain| - 1]);
    ReplayBlocks(chain[..|chain| - 1]);
  }

  /** An input names an output of a transaction that is stored before the block. */
  lemma {:induction false} SoundInput(l: Ledger, b: Block, i: nat, k: nat)
    requires WF(l) && SoundBlock(l, b) && i < |b.transactions| && k < |Body(b.transactions[i]).inputs|
    ensures FindTx(l.txs, Body(b.transactions[i]).inputs[k].prevTxHash).Some?
    ensures Body(b.transactions[i]).inputs[k].outputIndex
          < |FindTx(l.txs, Body(b.transactions[i]).inputs[k].prevTxHash).value.body.outputs|
  {
    var p := Body(b.transactions[i]).inputs[k];
    FindSound(l.coins, p);
    assert Backed(l, FindCoin(l.coins, p).value);
  }

  // The record of a sound transaction is its whole body.

  function WholeRecord(b: Block, height: nat, i: nat): TxRecord
    requires i < |b.transactions|
  {
    TxRecord(b.transactions[i].hash, Body(b.transactions[i]), b.transactions[i].sig, height, i)
  }

  lemma {:induction false} ResolvedAll(txs: seq<TxRecord>, own: Bytes, inputs: seq<Input>)
    requires forall k :: 0 <= k < |inputs| ==> FindTx(txs, inputs[k].prevTxHash).Some?
    ensures Resolved(txs, own, inputs) == inputs
  {
    if inputs != [] {
      var n := |inputs| - 1;
      ResolvedAll(txs, own, inputs[..n]);
      assert inputs == inputs[..n] + [inputs[n]];
    }
  }

  /** Nothing stored before a block is lost or hidden while the block is applied. */
  lemma {:induction false} AppliedFinds(l: Ledger, b: Block, n: nat, hash: Bytes)
    requires n <= |b.transactions| && CanApply(l, b, n) && FindTx(l.txs, hash).Some?
    ensures FindTx(Applied(l, b, n).txs, hash) == FindTx(l.txs, hash)
  {
    if n > 0 {
      var m := n - 1;
      AppliedFinds(l, b, m, hash);
      var before := Applied(l, b, m);
      FindTxSnoc(before.txs, RecordOf(before.txs, b, |l.blocks|, m), hash);
    }
  }

  lemma {:induction false} SoundRecord(l: Ledger, b: Block, i: nat)
    requires WF(l) && SoundBlock(l, b) && i < |b.transactions|
    requires CanApply(l, b, i)
    ensures RecordOf(Applied(l, b, i).txs, b, |l.blocks|, i) == WholeRecord(b, |l.blocks|, i)
  {
    var inputs := Body(b.transactions[i]).inputs;
    forall k | 0 <= k < |inputs| ensures FindTx(Applied(l, b, i).txs, inputs[k].prevTxHash).Some? {
      SoundInput(l, b, i, k);
      AppliedFinds(l, b, i, inputs[k].prevTxHash);
    }
    ResolvedAll(Applied(l, b, i).txs, b.transactions[i].hash, inputs);
  }

  /** A transaction hash of the block is new to the ledger before the block. */
  lemma {:induction false} BlockHashFresh(l: Ledger, b: Block, i: nat)
    requires i < |b.transactions| && CanApply(l, b, |b.transactions|)
    ensures FindTx(l.txs, b.transactions[i].hash) == None
  {
    CanApplyLess(l, b, |b.transactions|, i);
    if FindTx(l.txs, b.transactions[i].hash).Some? {
      AppliedFinds(l, b, i, b.transactions[i].hash);
    }
  }

  // The effect of an accepted block in closed form.

  function BlockInputs(b: Block, n: nat): seq<Input>
    requires n <= |b.transactions|
  {
    if n == 0 then [] else BlockInputs(b, n - 1) + Body(b.transactions[n - 1]).inputs
  }

  function MadeBy(l: Ledger, b: Block, i: nat): seq<Coin>
    requires i < |b.transactions|
  {
    CoinsOf(WholeRecord(b, |l.blocks|, i), b.header.timestamp, |Body(b.transactions[i]).outputs|)
  }

  function NewCoins(l: Ledger, b: Block, n: nat): seq<Coin>
    requires n <= |b.transactions|
  {
    if n == 0 then [] else NewCoins(l, b, n - 1) + MadeBy(l, b, n - 1)
  }

  lemma {:induction false} NewCoinsMember(l: Ledger, b: Block, n: nat, c: Coin)
    requires n <= |b.transactions|
    ensures c in NewCoins(l, b, n) <==> exists i :: 0 <= i < n && c in MadeBy(l, b, i)
  {
    if n > 0 {
      var m := n - 1;
      NewCoinsMember(l, b, m, c);
    }
  }

  lemma {:induction false} MadeByMember(l: Ledger, b: Block, i: nat, c: Coin)
    requires i < |b.transactions| && c in MadeBy(l, b, i)
    ensures c.utxo.index < |Body(b.transactions[i]).outputs|
    ensures c == CoinAt(WholeRecord(b, |l.blocks|, i), b.header.timestamp, c.utxo.index)
  {
    CoinsOfMember(WholeRecord(b, |l.blocks|, i), b.header.timestamp, |Body(b.transactions[i]).outputs|, c);
  }

  lemma {:induction false} NewCoinsUnspent(l: Ledger, b: Block, n: nat)
    requires WF(l) && SoundBlock(l, b) && n < |b.transactions|
    ensures Remaining(NewCoins(l, b, n), Body(b.transactions[n]).inputs) == NewCoins(l, b, n)
  {
    var inputs := Body(b.transactions[n]).inputs;
    forall c | c in NewCoins(l, b, n) ensures Point(c) !in inputs {
      NewCoinsMember(l, b, n, c);
      var i :| 0 <= i < n && c in MadeBy(l, b, i);
      MadeByMember(l, b, i, c);
      BlockHashFresh(l, b, i);
      forall k | 0 <= k < |inputs| ensures inputs[k] != Point(c) {
        SoundInput(l, b, n, k);
      }
    }
    RemainingUntouched(NewCoins(l, b, n), inputs);
  }

  lemma {:induction false} RemainingMore(coins: seq<Coin>, made: seq<Coin>, spent: seq<Input>, inputs: seq<Input>)
    requires Remaining(made, inputs) == made
    ensures Remaining(Remaining(coins, spent) + made, inputs) == Remaining(coins, spent + inputs) + made
  {
    RemainingAppend(Remaining(coins, spent), made, inputs);
    RemainingTwice(coins, spent, inputs);
  }

  /** One more transaction, none of whose inputs names a coin the block made. */
  lemma {:induction false} ApplyTxCoins(
    before: Ledger, rec: TxRecord, coins: seq<Coin>, spent: seq<Input>, made: seq<Coin>)
    requires rec.height < |before.blocks|
    requires before.coins == Remaining(coins, spent) + made
    requires Remaining(made, rec.body.inputs) == made
    ensures ApplyTx(before, rec).coins
         == Remaining(coins, spent + rec.body.inputs) + (made + CoinsOf(rec, TimeOf(before, rec), |rec.body.outputs|))
  {
    var made' := CoinsOf(rec, TimeOf(before, rec), |rec.body.outputs|);
    assert ApplyTx(before, rec).coins == Remaining(before.coins, rec.body.inputs) + made';
    RemainingMore(coins, made, spent, rec.body.inputs);
  }

  lemma {:induction false} AppliedCoinsStep(l: Ledger, b: Block, m: nat, n: nat)
    requires n == m + 1 <= |b.transactions|
    requires Applied(l, b, m).coins == Remaining(l.coins, BlockInputs(b, m)) + NewCoins(l, b, m)
    requires RecordOf(Applied(l, b, m).txs, b, |l.blocks|, m) == WholeRecord(b, |l.blocks|, m)
    requires Remaining(NewCoins(l, b, m), Body(b.transactions[m]).inputs) == NewCoins(l, b, m)
    ensures Applied(l, b, n).coins == Remaining(l.coins, BlockInputs(b, n)) + NewCoins(l, b, n)
  {
    var before, rec := Applied(l, b, m), WholeRecord(b, |l.blocks|, m);
    assert Applied(l, b, n) == ApplyTx(before, rec) && TimeOf(before, rec) == b.header.timestamp;
    ApplyTxCoins(before, rec, l.coins, BlockInputs(b, m), NewCoins(l, b, m));
  }

  lemma {:induction false} AppliedCoinsPremises(l: Ledger, b: Block, n: nat)
    requires WF(l) && SoundBlock(l, b) && n < |b.transactions|
    ensures RecordOf(Applied(l, b, n).txs, b, |l.blocks|, n) == WholeRecord(b, |l.blocks|, n)
    ensures Remaining(NewCoins(l, b, n), Body(b.transactions[n]).inputs) == NewCoins(l, b, n)
  {
    CanApplyLess(l, b, |b.transactions|, n);
    SoundRecord(l, b, n);
    NewCoinsUnspent(l, b, n);
  }

  /** An accepted block removes every coin its inputs name and adds every output it makes. */
  lemma {:induction false} AppliedCoins(l: Ledger, b: Block, n: nat)
    requires WF(l) && SoundBlock(l, b) && n <= |b.transactions|
    ensures Applied(l, b, n).coins == Remaining(l.coins, BlockInputs(b, n)) + NewCoins(l, b, n)
  {
    if n == 0 {
      RemainingUntouched(l.coins, []);
    } else {
      var m := n - 1;
      AppliedCoins(l, b, m);
      AppliedCoinsPremises(l, b, m);
      AppliedCoinsStep(l, b, m, n);
    }
  }

  function WholeRecords(b: Block, height: nat, n: nat): (recs: seq<TxRecord>)
    requires n <= |b.transactions|
    ensures |recs| == n && forall i :: 0 <= i < n ==> recs[i] == WholeRecord(b, height, i)
  {
    if n == 0 then [] else WholeRecords(b, height, n - 1) + [WholeRecord(b, height, n - 1)]
  }

  lemma {:induction false} AppliedRecordNext(l: Ledger, b: Block, m: nat)
    requires WF(l) && SoundBlock(l, b) && m < |b.transactions|
    ensures Applied(l, b, m + 1).txs == Applied(l, b, m).txs + [WholeRecord(b, |l.blocks|, m)]
  {
    CanApplyLess(l, b, |b.transactions|, m);
    SoundRecord(l, b, m);
    AppliedTxsNext(l, b, m);
  }

  lemma {:induction false} AppliedRecords(l: Ledger, b: Block, n: nat)
    requires WF(l) && SoundBlock(l, b) && n <= |b.transactions|
    ensures Applied(l, b, n).txs == l.txs + WholeRecords(b, |l.blocks|, n)
  {
    if n > 0 {
      var m := n - 1;
      AppliedRecords(l, b, m);
      AppliedRecordNext(l, b, m);
    }
  }

  // Where the stored transactions of a run come from.

  ghost predicate FromChain(chain: seq<Block>, rec: TxRecord) {
    && rec.height < |chain|
    && rec.index < |chain[rec.height].transactions|
    && rec == WholeRecord(chain[rec.height], rec.height, rec.index)
  }

  lemma {:induction false} OldOrNew(older: seq<TxRecord>, all: seq<TxRecord>, rec: TxRecord) returns (i: nat)
    requires older <= all && rec in all
    ensures rec !in older ==> i < |all| - |older| && all[|older| + i] == rec
  {
    var k :| 0 <= k < |all| && all[k] == rec;
    if k < |older| {
      assert older[k] == rec;
      i := 0;
    } else {
      i := k - |older|;
    }
  }

  lemma {:induction false} RecordsOfBlock(l: Ledger, b: Block, rec: TxRecord)
    requires WF(l) && SoundBlock(l, b) && rec in ApplyBlock(l, b).txs
    ensures rec in l.txs
         || (rec.height == |l.blocks| && rec.index < |b.transactions| && rec == WholeRecord(b, |l.blocks|, rec.index))
  {
    AppliedRecords(l, b, |b.transactions|);
    var i := OldOrNew(l.txs, ApplyBlock(l, b).txs, rec);
    if rec !in l.txs {
      assert ApplyBlock(l, b).txs[|l.txs| + i] == WholeRecord(b, |l.blocks|, i);
    }
  }

  lemma {:induction false} RecordsFromChain(chain: seq<Block>, rec: TxRecord)
    requires SoundChain(chain) && rec in Replay(chain).txs
    ensures FromChain(chain, rec)
  {
    if chain != [] {
      var n := |chain| - 1;
      var rest := chain[..n];
      LastBlock(chain);
      RecordsOfBlock(Replay(rest), chain[|rest|], rec);
      if rec in Replay(rest).txs {
        RecordsFromChain(rest, rec);
      }
    }
  }

  lemma {:induction false} BlockKeepsDistinct(l: Ledger, b: Block)
    requires WF(l) && SoundBlock(l, b)
    ensures DistinctTxs(ApplyBlock(l, b).txs)
  {
    AppliedKeepsWF(l, b, |b.transactions|);
  }

  lemma {:induction false} BlockRecordAt(l: Ledger, b: Block, i: nat)
    requires WF(l) && SoundBlock(l, b) && i < |b.transactions|
    ensures |l.txs| + i < |ApplyBlock(l, b).txs|
    ensures ApplyBlock(l, b).txs[|l.txs| + i] == WholeRecord(b, |l.blocks|, i)
  {
    AppliedRecords(l, b, |b.transactions|);
  }

  lemma {:induction false} RecordedByBlock(l: Ledger, b: Block, i: nat)
    requires WF(l) && SoundBlock(l, b) && i < |b.transactions|
    ensures FindTx(ApplyBlock(l, b).txs, b.transactions[i].hash) == Some(WholeRecord(b, |l.blocks|, i))
  {
    BlockRecordAt(l, b, i);
    BlockKeepsDistinct(l, b);
    FindTxAt(ApplyBlock(l, b).txs, |l.txs| + i);
  }

  lemma {:induction false} ChainIsRecorded(chain: seq<Block>, n: nat, i: nat)
    requires SoundChain(chain) && n < |chain| && i < |chain[n].transactions|
    ensures FindTx(Replay(chain).txs, chain[n].transactions[i].hash) == Some(WholeRecord(chain[n], n, i))
  {
    var rest := chain[..|chain| - 1];
    LastBlock(chain);
    if n == |rest| {
      RecordedByBlock(Replay(rest), chain[n], i);
    } else {
      ChainIsRecorded(rest, n, i);
      AppliedFinds(Replay(rest), chain[|rest|], |chain[|rest|].transactions|, chain[n].transactions[i].hash);
    }
  }

  // What becomes of an output that was once made.

  lemma {:induction false} CoinAfterBlock(l: Ledger, b: Block, p: Input)
    requires WF(l) && SoundBlock(l, b) && FindTx(l.txs, p.prevTxHash).Some?
    ensures FindCoin(ApplyBlock(l, b).coins, p)
         == if p in BlockInputs(b, |b.transactions|) then None else FindCoin(l.coins, p)
  {
    var n := |b.transactions|;
    var made := NewCoins(l, b, n);
    forall c | c in made ensures Point(c) != p {
      NewCoinsMember(l, b, n, c);
      var i :| 0 <= i < n && c in MadeBy(l, b, i);
      MadeByMember(l, b, i, c);
      BlockHashFresh(l, b, i);
    }
    FindSound(made, p);
    AppliedCoins(l, b, n);
    FindAppend(Remaining(l.coins, BlockInputs(b, n)), made, p);
    RemainingFind(l.coins, BlockInputs(b, n), p);
  }

  lemma {:induction false} BlockInputsHold(b: Block, n: nat, i: nat, p: Input)
    requires i < n <= |b.transactions| && p in Body(b.transactions[i]).inputs
    ensures p in BlockInputs(b, n)
  {
    if i < n - 1 {
      BlockInputsHold(b, n - 1, i, p);
    }
  }

  ghost predicate Gone(l: Ledger, p: Input) {
    FindTx(l.txs, p.prevTxHash).Some? && FindCoin(l.coins, p) == None
  }

  lemma {:induction false} SpentByBlock(l: Ledger, b: Block, i: nat, k: nat)
    requires WF(l) && SoundBlock(l, b) && i < |b.transactions| && k < |Body(b.transactions[i]).inputs|
    ensures Gone(ApplyBlock(l, b), Body(b.transactions[i]).inputs[k])
  {
    var p := Body(b.transactions[i]).inputs[k];
    SoundInput(l, b, i, k);
    BlockInputsHold(b, |b.transactions|, i, p);
    CoinAfterBlock(l, b, p);
    AppliedFinds(l, b, |b.transactions|, p.prevTxHash);
  }

  lemma {:induction false} GoneForGood(l: Ledger, b: Block, p: Input)
    requires WF(l) && SoundBlock(l, b) && Gone(l, p)
    ensures Gone(ApplyBlock(l, b), p)
  {
    CoinAfterBlock(l, b, p);
    AppliedFinds(l, b, |b.transactions|, p.prevTxHash);
  }

  /** An output that block n spends is never unspent again. */
  lemma {:induction false} SpentForGood(chain: seq<Block>, n: nat, i: nat, k: nat)
    requires SoundChain(chain) && n < |chain| && i < |chain[n].transactions|
    requires k < |Body(chain[n].transactions[i]).inputs|
    ensures Gone(Replay(chain), Body(chain[n].transactions[i]).inputs[k])
  {
    var rest := chain[..|chain| - 1];
    LastBlock(chain);
    if n == |rest| {
      SpentByBlock(Replay(rest), chain[n], i, k);
    } else {
      SpentForGood(rest, n, i, k);
      GoneForGood(Replay(rest), chain[|rest|], Body(chain[n].transactions[i]).inputs[k]);
    }
  }

  /** No output is spent in two different blocks of a run. */
  lemma {:induction false} SpentInOneBlock(chain: seq<Block>, n: nat, i: nat, k: nat, m: nat, j: nat, q: nat)
    requires SoundChain(chain) && n < m < |chain|
    requires i < |chain[n].transactions| && k < |Body(chain[n].transactions[i]).inputs|
    requires j < |chain[m].transactions| && q < |Body(chain[m].transactions[j]).inputs|
    ensures Body(chain[n].transactions[i]).inputs[k] != Body(chain[m].transactions[j]).inputs[q]
  {
    SoundAt(chain, m);
    SpentForGood(chain[..m], n, i, k);
    assert FindCoin(Replay(chain[..m]).coins, Body(chain[m].transactions[j]).inputs[q]).Some?;
  }

  /** The transaction that funds an input sits in a strictly earlier block and has that output. */
  lemma {:induction false} FundedEarlier(chain: seq<Block>, n: nat, i: nat, k: nat)
    requires SoundChain(chain) && n < |chain| && i < |chain[n].transactions|
    requires k < |Body(chain[n].transactions[i]).inputs|
    ensures var p := Body(chain[n].transactions[i]).inputs[k];
      exists m, j :: 0 <= m < n && 0 <= j < |chain[m].transactions|
        && chain[m].transactions[j].hash == p.prevTxHash
        && p.outputIndex < |Body(chain[m].transactions[j]).outputs|
  {
    var p := Body(chain[n].transactions[i]).inputs[k];
    SoundAt(chain, n);
    SoundIsSaved(chain[..n]);
    ReplayWF(chain[..n]);
    SoundInput(Replay(chain[..n]), chain[n], i, k);
    FindTxSound(Replay(chain[..n]).txs, p.prevTxHash);
    var rec := FindTx(Replay(chain[..n]).txs, p.prevTxHash).value;
    RecordsFromChain(chain[..n], rec);
    assert chain[rec.height].transactions[rec.index].hash == p.prevTxHash;
  }
}
