/**
 Runs of accepted blocks: each block was built by CreateBlock on the tip, holds only transactions that
 AppendTx(false) accepted on the ledger before the block, and was saved.
 */
module Accepted {
  import opened Types
  import opened Crypto
  import opened Blocks
  import opened LedgerSpec
  import opened WellFormed
  import opened Sound
  import opened Verdicts

  /** AppendTx(false) accepts each of the transactions on the ledger. */
  ghost predicate AllAccepted(l: Ledger, txs: seq<Transaction>) {
    txs == [] || (AllAccepted(l, txs[..|txs| - 1]) && Accepts(l, txs[|txs| - 1]))
  }

  lemma {:induction false} AllAcceptedAt(l: Ledger, txs: seq<Transaction>, i: nat)
    requires AllAccepted(l, txs) && i < |txs|
    ensures Accepts(l, txs[i])
  {
    var n := |txs| - 1;
    if i < n {
      AllAcceptedAt(l, txs[..n], i);
    }
  }

  ghost predicate AcceptedBlock(l: Ledger, b: Block) {
    && CreatedAfter(b, TipHash(l))
    && CanSave(l, b)
    && AllAccepted(l, b.transactions)
  }

  ghost predicate AcceptedChain(chain: seq<Block>) {
    chain == [] ||
    (AcceptedChain(chain[..|chain| - 1]) && AcceptedBlock(Replay(chain[..|chain| - 1]), chain[|chain| - 1]))
  }

  // What an accepted transaction is.

  predicate IsCoinbase(body: TxBody) {
    body.inputs == []
  }

  lemma {:induction false} AcceptedForms(l: Ledger, tx: Transaction)
    requires Accepts(l, tx)
    ensures FormError(tx) == None
    ensures IsCoinbase(Body(tx)) ==> IsReward(l, Body(tx)) && WellSigned(tx, Body(tx).outputs[0].receiverSpendPkey)
    ensures !IsCoinbase(Body(tx)) ==>
              IsTransfer(l, Body(tx), Owner(l.coins, Body(tx))) && WellSigned(tx, Owner(l.coins, Body(tx)))
  {
    AcceptsExactly(l, tx);
    if !IsCoinbase(Body(tx)) {
      var owner :| IsTransfer(l, Body(tx), owner) && WellSigned(tx, owner);
      assert SpendsCoinOf(l.coins, Body(tx), 0, owner);
      assert owner == Owner(l.coins, Body(tx));
    }
  }

  lemma {:induction false} AcceptedBlockIsSound(l: Ledger, b: Block)
    requires AcceptedBlock(l, b)
    ensures SoundBlock(l, b)
  {
    forall i, k | 0 <= i < |b.transactions| && 0 <= k < |Body(b.transactions[i]).inputs|
      ensures FindCoin(l.coins, Body(b.transactions[i]).inputs[k]).Some?
    {
      AllAcceptedAt(l, b.transactions, i);
      AcceptedForms(l, b.transactions[i]);
      assert SpendsCoinOf(l.coins, Body(b.transactions[i]), k, Owner(l.coins, Body(b.transactions[i])));
    }
  }

  lemma {:induction false} AcceptedIsSound(chain: seq<Block>)
    requires AcceptedChain(chain)
    ensures SoundChain(chain) && SavedChain(chain)
  {
    if chain != [] {
      var n := |chain| - 1;
      AcceptedIsSound(chain[..n]);
      AcceptedBlockIsSound(Replay(chain[..n]), chain[n]);
    }
  }

  lemma {:induction false} AcceptedWF(chain: seq<Block>)
    requires AcceptedChain(chain)
    ensures WF(Replay(chain))
  {
    AcceptedIsSound(chain);
    ReplayWF(chain);
  }

  lemma {:induction false} TipsAgree(chain: seq<Block>)
    requires SavedChain(chain)
    ensures TipOf(chain) == TipHash(Replay(chain))
  {
    ReplayBlocks(chain);
  }

  lemma {:induction false} AcceptedAreHashed(l: Ledger, b: Block)
    requires AcceptedBlock(l, b)
    ensures HashedTxs(b.transactions)
  {
    forall i | 0 <= i < |b.transactions|
      ensures b.transactions[i].hash == Hash(b.transactions[i].txBody)
    {
      AllAcceptedAt(l, b.transactions, i);
    }
  }

  /** An accepted run is a created chain, so its tip binds its history. */
  lemma {:induction false} AcceptedIsCreated(chain: seq<Block>)
    requires AcceptedChain(chain)
    ensures CreatedChain(chain)
  {
    if chain != [] {
      var n := |chain| - 1;
      var rest, last := chain[..n], chain[n];
      AcceptedIsCreated(rest);
      AcceptedIsSound(rest);
      TipsAgree(rest);
      AcceptedAreHashed(Replay(rest), last);
    }
  }

  lemma {:induction false} AcceptedPrefix(chain: seq<Block>, before: seq<Block>)
    requires AcceptedChain(chain) && before <= chain
    ensures AcceptedChain(before)
  {
    if |before| == |chain| {
      assert before == chain;
    } else {
      AcceptedPrefix(chain[..|chain| - 1], before);
    }
  }

  lemma {:induction false} AcceptedLast(chain: seq<Block>, rest: seq<Block>, last: Block, i: nat)
    requires AcceptedChain(chain) && chain == rest + [last] && i < |last.transactions|
    ensures Accepts(Replay(rest), last.transactions[i])
  {
    assert chain[..|chain| - 1] == rest;
    AllAcceptedAt(Replay(rest), last.transactions, i);
  }

  /** Each transaction of a run was accepted on the ledger before its block. */
  lemma {:induction false} AcceptedTxAt(chain: seq<Block>, n: nat, i: nat)
    requires AcceptedChain(chain) && n < |chain| && i < |chain[n].transactions|
    ensures AcceptedChain(chain[..n])
    ensures Accepts(Replay(chain[..n]), chain[n].transactions[i])
  {
    AcceptedPrefix(chain, chain[..n]);
    AcceptedPrefix(chain, chain[..n + 1]);
    OneMore(chain, n);
    AcceptedLast(chain[..n + 1], chain[..n], chain[n], i);
  }

  lemma {:induction false} AcceptedSnoc(chain: seq<Block>, b: Block)
    requires AcceptedChain(chain) && AcceptedBlock(Replay(chain), b)
    ensures AcceptedChain(chain + [b])
  {
    assert (chain + [b])[..|chain|] == chain;
  }
}
