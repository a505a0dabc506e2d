/** What runs of accepted blocks never do: reward a block in two blocks, or accept a body again. */
module Spending {
  import opened Types
  import opened Crypto
  import opened LedgerSpec
  import opened WellFormed
  import opened Sound
  import opened Verdicts
  import opened Accepted

  lemma {:induction false} RewardIsFresh(l: Ledger, tx: Transaction, rec: TxRecord)
    requires Accepts(l, tx) && IsCoinbase(Body(tx)) && rec in l.txs
    ensures rec.body.hashLink != Body(tx).hashLink
  {
    AcceptedForms(l, tx);
  }

  lemma {:induction false} InputIsUnspent(l: Ledger, tx: Transaction)
    requires Accepts(l, tx) && !IsCoinbase(Body(tx))
    ensures FindCoin(l.coins, Body(tx).inputs[0]).Some?
  {
    AcceptedForms(l, tx);
    assert SpendsCoinOf(l.coins, Body(tx), 0, Owner(l.coins, Body(tx)));
  }

  lemma {:induction false} StoredInLedger(chain: seq<Block>, n: nat, i: nat)
    requires SoundChain(chain) && n < |chain| && i < |chain[n].transactions|
    ensures WholeRecord(chain[n], n, i) in Replay(chain).txs
  {
    ChainIsRecorded(chain, n, i);
    FindTxSound(Replay(chain).txs, chain[n].transactions[i].hash);
  }

  /** Of two blocks that pay a reward, each pays it for a different block. */
  lemma {:induction false} RewardedInOneBlock(chain: seq<Block>, n: nat, i: nat, m: nat, j: nat)
    requires AcceptedChain(chain) && n < m < |chain|
    requires i < |chain[n].transactions| && IsCoinbase(Body(chain[n].transactions[i]))
    requires j < |chain[m].transactions| && IsCoinbase(Body(chain[m].transactions[j]))
    ensures Body(chain[n].transactions[i]).hashLink != Body(chain[m].transactions[j]).hashLink
  {
    AcceptedTxAt(chain, m, j);
    AcceptedIsSound(chain[..m]);
    StoredInLedger(chain[..m], n, i);
    RewardIsFresh(Replay(chain[..m]), chain[m].transactions[j], WholeRecord(chain[n], n, i));
  }

  /** Once a stored transaction links to a block, no reward for that block is accepted ever after. */
  lemma {:induction false} RewardRefusedForGood(chain: seq<Block>, before: seq<Block>, tx: Transaction)
    requires before <= chain && IsCoinbase(Body(tx)) && FindLink(Replay(before).txs, Body(tx).hashLink).Some?
    ensures !Accepts(Replay(chain), tx)
  {
    LinkStays(chain, before, Body(tx).hashLink);
    FindLinkSound(Replay(chain).txs, Body(tx).hashLink);
    if Accepts(Replay(chain), tx) {
      RewardIsFresh(Replay(chain), tx, FindLink(Replay(chain).txs, Body(tx).hashLink).value);
    }
  }

  /** No later state of a run accepts a committed body again, in any encoding and under any signature. */
  lemma {:induction false} CommittedBodyRejected(chain: seq<Block>, n: nat, i: nat, again: Transaction)
    requires AcceptedChain(chain) && n < |chain| && i < |chain[n].transactions|
    requires Body(again) == Body(chain[n].transactions[i])
    ensures !Accepts(Replay(chain), again)
  {
    AcceptedIsSound(chain);
    if IsCoinbase(Body(again)) {
      StoredInLedger(chain, n, i);
      if Accepts(Replay(chain), again) {
        RewardIsFresh(Replay(chain), again, WholeRecord(chain[n], n, i));
      }
    } else {
      SpentForGood(chain, n, i, 0);
      if Accepts(Replay(chain), again) {
        InputIsUnspent(Replay(chain), again);
      }
    }
  }
}
