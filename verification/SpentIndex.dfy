/** The column isSpentByTx of an accepted run: an index of the input rows that is never wrong. */
module SpentIndex {
  import opened Types
  import opened LedgerSpec
  import opened WellFormed
  import opened Sound
  import opened Accepted
  import opened Tables
  import opened Refinement

  /** No transaction spends an output of its own. */
  ghost predicate NoSelfSpends(txs: seq<TxRecord>) {
    forall i :: 0 <= i < |txs| ==> forall p :: p in txs[i].body.inputs ==> p.prevTxHash != txs[i].hash
  }

  lemma {:induction false} GroupNamesOthers(group: seq<InputRow>, rows: seq<TxRow>, rec: TxRecord, r: InputRow)
    requires rows != [] && InputGroup(group, rows, rec.body.inputs) && r in group
    requires rows[|rows| - 1].txHash == rec.hash && forall p :: p in rec.body.inputs ==> p.prevTxHash != rec.hash
    ensures r.prevTxId != r.txId
  {
    var k :| 0 <= k < |group| && group[k] == r;
    assert rec.body.inputs[k] in rec.body.inputs;
  }

  lemma {:induction false} RowsNameOthers(
    inputs: seq<InputRow>, rows: seq<TxRow>, txs: seq<TxRecord>, blocks: seq<BlockRow>, r: InputRow)
    requires RepInputs(inputs, rows, txs) && RepTxs(rows, txs, blocks) && NoSelfSpends(txs) && r in inputs
    ensures r.prevTxId != r.txId
    decreases |txs|
  {
    var n, rest := |txs| - 1, |inputs| - |txs[|txs| - 1].body.inputs|;
    assert inputs == inputs[..rest] + inputs[rest..];
    if r in inputs[rest..] {
      GroupNamesOthers(inputs[rest..], rows, txs[n], r);
    } else {
      RowsNameOthers(inputs[..rest], rows[..n], txs[..n], blocks, r);
    }
  }

  lemma {:induction false} RecordNamesOthers(chain: seq<Block>, rec: TxRecord, p: Input)
    requires SoundChain(chain) && rec in Replay(chain).txs && p in rec.body.inputs
    ensures p.prevTxHash != rec.hash
  {
    RecordsFromChain(chain, rec);
    var n, i := rec.height, rec.index;
    var k :| 0 <= k < |rec.body.inputs| && rec.body.inputs[k] == p;
    SoundAt(chain, n);
    SoundIsSaved(chain[..n]);
    ReplayWF(chain[..n]);
    SoundInput(Replay(chain[..n]), chain[n], i, k);
    BlockHashFresh(Replay(chain[..n]), chain[n], i);
  }

  lemma {:induction false} AcceptedSpendsNoSelf(chain: seq<Block>)
    requires AcceptedChain(chain)
    ensures NoSelfSpends(Replay(chain).txs)
  {
    AcceptedIsSound(chain);
    var txs := Replay(chain).txs;
    forall i, p | 0 <= i < |txs| && p in txs[i].body.inputs ensures p.prevTxHash != txs[i].hash {
      RecordNamesOthers(chain, txs[i], p);
    }
  }

  /** In a represented accepted run an output is unmarked if and only if no input row names it. */
  lemma {:induction false} UnmarkedIsUnspent(s: Store, chain: seq<Block>, k: nat)
    requires AcceptedChain(chain) && Rep(s, Replay(chain)) && k < |s.outputs|
    ensures s.outputs[k].isSpentByTx == None <==>
            forall r :: r in s.inputs ==> r.prevTxId != s.outputs[k].txId || r.outputIndex != s.outputs[k].index
  {
    AcceptedSpendsNoSelf(chain);
    SpenderExists(s.inputs, s.outputs[k].txId, s.outputs[k].index);
    forall r | r in s.inputs ensures r.prevTxId != r.txId {
      RowsNameOthers(s.inputs, s.txs, Replay(chain).txs, s.blocks, r);
    }
  }
}
