/** The steps of SaveNextBlock on the ledger they represent: a transaction grows input by input, output by output. */
module Saving {
  import opened Types
  import opened Crypto
  import opened LedgerSpec
  import opened WellFormed
  import opened Tables
  import opened Refinement

  /** The transaction's record after its first k inputs and j outputs are inserted. */
  function PartialRecord(txs: seq<TxRecord>, tx: Transaction, height: nat, i: nat, k: nat, j: nat): TxRecord
    requires k <= |Body(tx).inputs| && j <= |Body(tx).outputs|
  {
    var body := Body(tx);
    TxRecord(
      tx.hash, body.(inputs := Resolved(txs, tx.hash, body.inputs[..k]), outputs := body.outputs[..j]),
      tx.sig, height, i)
  }

  function Partial(l: Ledger, tx: Transaction, i: nat, k: nat, j: nat): Ledger
    requires l.blocks != [] && k <= |Body(tx).inputs| && j <= |Body(tx).outputs|
  {
    ApplyTx(l, PartialRecord(l.txs, tx, |l.blocks| - 1, i, k, j))
  }

  lemma {:induction false} PartialStart(l: Ledger, tx: Transaction, i: nat)
    requires l.blocks != []
    ensures var rec := PartialRecord(l.txs, tx, |l.blocks| - 1, i, 0, 0);
      rec.body.inputs == [] && rec.body.outputs == [] && Partial(l, tx, i, 0, 0) == ApplyTx(l, rec)
  {}

  lemma {:induction false} ResolvedStep(txs: seq<TxRecord>, own: Bytes, inputs: seq<Input>, k: nat)
    requires k < |inputs|
    ensures Resolved(txs, own, inputs[..k + 1])
         == if inputs[k].prevTxHash == own || FindTx(txs, inputs[k].prevTxHash).Some?
            then Resolved(txs, own, inputs[..k]) + [inputs[k]]
            else Resolved(txs, own, inputs[..k])
  {
    assert inputs[..k + 1][..k] == inputs[..k];
  }

  /** A record that gets one more input. */
  lemma {:induction false} ApplyWithInput(l: Ledger, rec: TxRecord, p: Input)
    requires rec.height < |l.blocks| && rec.body.outputs == []
    ensures ApplyTx(l, rec.(body := rec.body.(inputs := rec.body.inputs + [p]))) == WithInput(ApplyTx(l, rec), p)
  {
    var before := ApplyTx(l, rec);
    assert before.txs[..|l.txs|] == l.txs;
    assert before.coins == Remaining(l.coins, rec.body.inputs);
    RemainingTwice(l.coins, rec.body.inputs, [p]);
  }

  lemma {:induction false} PartialInput(l: Ledger, tx: Transaction, i: nat, k: nat)
    requires l.blocks != [] && k < |Body(tx).inputs|
    ensures var before := Partial(l, tx, i, k, 0);
      Partial(l, tx, i, k + 1, 0) == if FindTx(before.txs, Body(tx).inputs[k].prevTxHash).Some?
                                     then WithInput(before, Body(tx).inputs[k]) else before
  {
    var p, rec := Body(tx).inputs[k], PartialRecord(l.txs, tx, |l.blocks| - 1, i, k, 0);
    ResolvedStep(l.txs, tx.hash, Body(tx).inputs, k);
    FindTxSnoc(l.txs, rec, p.prevTxHash);
    ApplyWithInput(l, rec, p);
  }

  lemma {:induction false} CoinsOfAgree(a: TxRecord, b: TxRecord, timestamp: u64, n: nat)
    requires n <= |a.body.outputs| && n <= |b.body.outputs| && a.body.outputs[..n] == b.body.outputs[..n]
    requires a.hash == b.hash && a.body.valueType == b.body.valueType && a.body.voteType == b.body.voteType
    ensures CoinsOf(a, timestamp, n) == CoinsOf(b, timestamp, n)
  {
    if n > 0 {
      var m := n - 1;
      assert a.body.outputs[m] == a.body.outputs[..n][m] == b.body.outputs[..n][m] == b.body.outputs[m];
      assert a.body.outputs[..m] == a.body.outputs[..n][..m] == b.body.outputs[..n][..m] == b.body.outputs[..m];
      CoinsOfAgree(a, b, timestamp, m);
    }
  }

  lemma {:induction false} PartialOutput(l: Ledger, tx: Transaction, i: nat, j: nat)
    requires l.blocks != [] && j < |Body(tx).outputs|
    ensures var before := Partial(l, tx, i, |Body(tx).inputs|, j);
      Partial(l, tx, i, |Body(tx).inputs|, j + 1) == WithOutput(before, Body(tx).outputs[j])
  {
    var n := |Body(tx).inputs|;
    var a := PartialRecord(l.txs, tx, |l.blocks| - 1, i, n, j);
    var b := PartialRecord(l.txs, tx, |l.blocks| - 1, i, n, j + 1);
    assert b.body.outputs == a.body.outputs + [Body(tx).outputs[j]];
    CoinsOfAgree(a, b, TimeOf(l, a), j);
    var before := Partial(l, tx, i, n, j);
    assert before.txs[..|l.txs|] == l.txs;
  }

  lemma {:induction false} PartialWhole(l: Ledger, b: Block, i: nat)
    requires l.blocks != [] && i < |b.transactions|
    ensures var body := Body(b.transactions[i]);
      Partial(l, b.transactions[i], i, |body.inputs|, |body.outputs|)
      == ApplyTx(l, RecordOf(l.txs, b, |l.blocks| - 1, i))
  {
    var body := Body(b.transactions[i]);
    assert body.inputs[..|body.inputs|] == body.inputs && body.outputs[..|body.outputs|] == body.outputs;
  }

  // The chain of block rows.

  lemma {:induction false} ChildRows(rows: seq<BlockRow>, blocks: seq<BlockRecord>, i: nat)
    requires RepBlocks(rows, blocks) && i < |rows|
    ensures CountByParent(rows, Some(rows[i].blockId)) == if i + 1 < |rows| then 1 else 0
    ensures BlockByParent(rows, Some(rows[i].blockId)) == if i + 1 < |rows| then Some(rows[i + 1]) else None
  {
    var n := |rows| - 1;
    if i < n {
      ChildRows(rows[..n], blocks[..n], i);
      RepBlockAt(rows[..n], blocks[..n], i);
      if i + 1 < n {
        RepBlockAt(rows[..n], blocks[..n], n - 1);
      }
    } else {
      NoChild(rows[..n], blocks[..n], rows[n].blockId);
      if n > 0 {
        var m := n - 1;
        RepBlockAt(rows[..n], blocks[..n], m);
      }
    }
  }

  lemma {:induction false} NoChild(rows: seq<BlockRow>, blocks: seq<BlockRecord>, id: nat)
    requires RepBlocks(rows, blocks) && BlockById(rows, id) == None
    ensures CountByParent(rows, Some(id)) == 0 && BlockByParent(rows, Some(id)) == None
  {
    if rows != [] {
      var n := |rows| - 1;
      NoChild(rows[..n], blocks[..n], id);
      if n > 0 {
        assert rows[..n][n - 1] == rows[n - 1];
      }
    }
  }

  lemma {:induction false} RootRow(rows: seq<BlockRow>, blocks: seq<BlockRecord>)
    requires RepBlocks(rows, blocks)
    ensures BlockByParent(rows, None) == if rows == [] then None else Some(rows[0])
  {
    if |rows| > 1 {
      RootRow(rows[..|rows| - 1], blocks[..|rows| - 1]);
    }
  }

  lemma {:induction false} RepFindBlock(rows: seq<BlockRow>, blocks: seq<BlockRecord>, hash: Bytes)
    requires RepBlocks(rows, blocks)
    ensures BlockByHash(rows, hash).Some? <==> FindBlock(blocks, hash).Some?
    ensures FindBlock(blocks, hash).Some? ==>
              FindBlock(blocks, hash).value < |rows|
              && BlockByHash(rows, hash) == Some(rows[FindBlock(blocks, hash).value])
  {
    if rows != [] {
      var n := |rows| - 1;
      RepFindBlock(rows[..n], blocks[..n], hash);
    }
  }

  /** The chain trigger lets exactly the extensions of the last block through. */
  lemma {:induction false} TriggerGuardsTip(rows: seq<BlockRow>, l: Ledger, row: BlockRow, prevHash: Bytes)
    requires RepBlocks(rows, l.blocks) && LinearBlocks(l.blocks)
    requires if prevHash == [] then row.prevBlockId == None
             else BlockByHash(rows, prevHash).Some?
                  && row.prevBlockId == Some(BlockByHash(rows, prevHash).value.blockId)
    ensures ExtendsTip(l, prevHash) <==>
            if row.prevBlockId.None? then |rows + [row]| == 1 else CountByParent(rows + [row], row.prevBlockId) <= 1
  {
    assert (rows + [row])[..|rows|] == rows;
    if prevHash != [] {
      RepFindBlock(rows, l.blocks, prevHash);
      var i := FindBlock(l.blocks, prevHash).value;
      FindBlockSound(l.blocks, prevHash);
      ChildRows(rows, l.blocks, i);
      LinearAt(l.blocks, |l.blocks| - 1);
    }
  }

  lemma {:induction false} UnknownParent(rows: seq<BlockRow>, l: Ledger, prevHash: Bytes)
    requires RepBlocks(rows, l.blocks) && prevHash != [] && BlockByHash(rows, prevHash).None?
    ensures !ExtendsTip(l, prevHash)
  {
    RepFindBlock(rows, l.blocks, prevHash);
    FindBlockSound(l.blocks, prevHash);
  }

  lemma {:induction false} TipRow(rows: seq<BlockRow>, l: Ledger, prevHash: Bytes)
    requires RepBlocks(rows, l.blocks) && LinearBlocks(l.blocks) && ExtendsTip(l, prevHash) && prevHash != []
    ensures rows != [] && BlockByHash(rows, prevHash) == Some(rows[|rows| - 1])
    ensures rows[|rows| - 1].height == |rows| - 1
  {
    RepFindBlock(rows, l.blocks, prevHash);
    LinearAt(l.blocks, |l.blocks| - 1);
    RepBlockAt(rows, l.blocks, |rows| - 1);
  }

  /** The row that is inserted after a parent row, if any. */
  function RowAfter(id: nat, parent: Option<BlockRow>, b: Block): BlockRow {
    BlockRow(
      id, if parent.Some? then parent.value.height + 1 else 0, b.hash,
      if parent.Some? then Some(parent.value.blockId) else None,
      b.header.merkleTree, b.header.proposerPkey, b.header.timestamp)
  }

  /** The block that the SELECT of the insert finds; the first block needs none. */
  function ParentOf(rows: seq<BlockRow>, prevHash: Bytes): Option<BlockRow> {
    if prevHash == [] then None else BlockByHash(rows, prevHash)
  }

  predicate TriggerPasses(rows: seq<BlockRow>, row: BlockRow) {
    if row.prevBlockId.None? then |rows| == 1 else CountByParent(rows, row.prevBlockId) <= 1
  }

  /** The insert goes through exactly for the blocks that the ledger can take next. */
  lemma {:induction false} InsertGuards(rows: seq<BlockRow>, l: Ledger, b: Block, id: nat)
    requires RepBlocks(rows, l.blocks) && LinearBlocks(l.blocks)
    requires b.header.prevBlockHash != [] ==> ParentOf(rows, b.header.prevBlockHash).Some?
    ensures var row := RowAfter(id, ParentOf(rows, b.header.prevBlockHash), b);
      CanAddBlock(l, b) <==>
      b.header.timestamp < TWO_TO_THE_63 && BlockByHash(rows, b.hash).None? && TriggerPasses(rows + [row], row)
  {
    RepFindBlock(rows, l.blocks, b.hash);
    TriggerGuardsTip(rows, l, RowAfter(id, ParentOf(rows, b.header.prevBlockHash), b), b.header.prevBlockHash);
  }

  // Transaction hashes as keys.

  lemma {:induction false} HashIsKey(rows: seq<TxRow>, txs: seq<TxRecord>, blocks: seq<BlockRow>, prev: TxRow)
    requires RepTxs(rows, txs, blocks) && DistinctTxs(txs) && prev in rows
    ensures forall r :: r in rows && r.txHash == prev.txHash ==> r == prev
    ensures TxById(rows, prev.txId) == Some(prev)
  {
    var i :| 0 <= i < |rows| && rows[i] == prev;
    RepTxAt(rows, txs, blocks, i);
    forall j | 0 <= j < |rows| && rows[j].txHash == prev.txHash ensures rows[j] == prev {
      RepTxAt(rows, txs, blocks, j);
      SameRecord(txs, i, j);
    }
  }

  lemma {:induction false} SameRecord(txs: seq<TxRecord>, i: nat, j: nat)
    requires DistinctTxs(txs) && i < |txs| && j < |txs| && txs[i].hash == txs[j].hash
    ensures i == j
  {
    var n := |txs| - 1;
    FindTxSound(txs[..n], txs[n].hash);
    forall q | 0 <= q < n ensures txs[q].hash != txs[n].hash {
      assert txs[q] == txs[..n][q];
    }
    if i < n && j < n {
      SameRecord(txs[..n], i, j);
    }
  }

  // The statements of SaveNextBlock, as functions of the tables.

  predicate BlockFits(s: Store, b: Block) {
    var row := RowAfter(s.nextBlockId, ParentOf(s.blocks, b.header.prevBlockHash), b);
    && (b.header.prevBlockHash != [] ==> ParentOf(s.blocks, b.header.prevBlockHash).Some?)
    && b.header.timestamp < TWO_TO_THE_63
    && BlockByHash(s.blocks, b.hash).None?
    && TriggerPasses(s.blocks + [row], row)
  }

  function WithBlock(s: Store, b: Block): Store {
    s.(blocks := s.blocks + [RowAfter(s.nextBlockId, ParentOf(s.blocks, b.header.prevBlockHash), b)],
       nextBlockId := s.nextBlockId + 1)
  }

  lemma {:induction false} BlockFitsExactly(s: Store, l: Ledger, b: Block)
    requires Rep(s, l) && WF(l)
    ensures BlockFits(s, b) <==> CanAddBlock(l, b)
  {
    var prevHash := b.header.prevBlockHash;
    if prevHash != [] && ParentOf(s.blocks, prevHash).None? {
      UnknownParent(s.blocks, l, prevHash);
    } else {
      InsertGuards(s.blocks, l, b, s.nextBlockId);
    }
  }

  lemma {:induction false} BlockStep(s: Store, l: Ledger, b: Block)
    requires Rep(s, l) && WF(l) && CanAddBlock(l, b)
    ensures Rep(WithBlock(s, b), AddBlock(l, b)) && WF(AddBlock(l, b))
  {
    if b.header.prevBlockHash != [] {
      TipRow(s.blocks, l, b.header.prevBlockHash);
    }
    RepAddBlock(s, l, b, RowAfter(s.nextBlockId, ParentOf(s.blocks, b.header.prevBlockHash), b));
    AddBlockKeepsWF(l, b);
  }

  function TxRowOf(txId: nat, blockId: nat, i: nat, tx: Transaction): TxRow {
    var body := Body(tx);
    TxRow(txId, blockId, i, tx.hash, body.hashLink, body.valueType, body.voteType, body.duration,
          body.senderEphemeralPkey, body.votersSumPkey, tx.sig)
  }

  function WithTx(s: Store, blockId: nat, i: nat, tx: Transaction): Store {
    s.(txs := s.txs + [TxRowOf(s.nextTxId, blockId, i, tx)], nextTxId := s.nextTxId + 1)
  }

  /** Block blockId is the last one and holds i transactions so far. */
  ghost predicate Filling(s: Store, blockId: nat, i: nat) {
    && s.blocks != [] && s.blocks[|s.blocks| - 1].blockId == blockId
    && forall r :: r in s.txs && r.blockId == blockId ==> r.index < i
  }

  lemma {:induction false} FillingNext(s: Store, blockId: nat, i: nat, tx: Transaction)
    requires Filling(s, blockId, i)
    ensures Filling(WithTx(s, blockId, i, tx), blockId, i + 1)
  {}

  lemma {:induction false} TxStep(s: Store, l: Ledger, blockId: nat, i: nat, tx: Transaction)
    requires Rep(s, l) && Filling(s, blockId, i)
    ensures l.blocks != [] && Rep(WithTx(s, blockId, i, tx), Partial(l, tx, i, 0, 0))
    ensures Filling(WithTx(s, blockId, i, tx), blockId, i + 1)
  {
    var rec := PartialRecord(l.txs, tx, |l.blocks| - 1, i, 0, 0);
    PartialStart(l, tx, i);
    assert s.blocks[|s.blocks| - 1] in s.blocks;
    FillingNext(s, blockId, i, tx);
    RepAddTx(s, l, TxRowOf(s.nextTxId, blockId, i, tx), rec);
  }

  /** INSERT INTO input SELECT ...: one row and the trigger, or nothing if the hash is unknown. */
  function InputInserted(s: Store, txId: nat, k: nat, p: Input): Store {
    match TxByHash(s.txs, p.prevTxHash)
    case None => s
    case Some(prev) =>
      s.(inputs := s.inputs + [InputRow(txId, k, prev.txId, p.outputIndex)],
         outputs := MarkSpent(s.outputs, prev.txId, p.outputIndex, txId))
  }

  /** The inputs inserted so far for the newest transaction, txId. */
  ghost predicate InputsBelow(s: Store, txId: nat, k: nat) {
    && s.txs != [] && s.txs[|s.txs| - 1].txId == txId && s.nextTxId == txId + 1
    && forall q :: q in s.inputs && q.txId == txId ==> q.index < k
  }

  lemma {:induction false} InputsBelowNext(s: Store, txId: nat, k: nat, p: Input)
    requires InputsBelow(s, txId, k)
    ensures InputsBelow(InputInserted(s, txId, k, p), txId, k + 1)
  {}

  lemma {:induction false} InputRefines(s: Store, l: Ledger, p: Input, k: nat, txId: nat)
    requires Rep(s, l) && DistinctTxs(l.txs) && InputsBelow(s, txId, k)
    requires l.txs != [] && l.txs[|l.txs| - 1].body.outputs == []
    ensures Rep(InputInserted(s, txId, k, p), if FindTx(l.txs, p.prevTxHash).Some? then WithInput(l, p) else l)
  {
    RepFind(s.txs, l.txs, s.blocks, p.prevTxHash);
    if TxByHash(s.txs, p.prevTxHash).Some? {
      var prev := TxByHash(s.txs, p.prevTxHash).value;
      HashIsKey(s.txs, l.txs, s.blocks, prev);
      RepAddInput(s, l, p, prev, k);
    }
  }

  lemma {:induction false} InputStep(s: Store, l: Ledger, tx: Transaction, i: nat, k: nat, txId: nat)
    requires l.blocks != [] && k < |Body(tx).inputs|
    requires Rep(s, Partial(l, tx, i, k, 0)) && DistinctTxs(Partial(l, tx, i, k, 0).txs) && InputsBelow(s, txId, k)
    ensures Rep(InputInserted(s, txId, k, Body(tx).inputs[k]), Partial(l, tx, i, k + 1, 0))
    ensures InputsBelow(InputInserted(s, txId, k, Body(tx).inputs[k]), txId, k + 1)
  {
    PartialInput(l, tx, i, k);
    InputRefines(s, Partial(l, tx, i, k, 0), Body(tx).inputs[k], k, txId);
    InputsBelowNext(s, txId, k, Body(tx).inputs[k]);
  }

  function OutputInserted(s: Store, txId: nat, j: nat, out: Output): Store {
    s.(outputs := s.outputs + [OutputRow(txId, j, out.value, out.receiverSpendPkey, out.receiverScanPkey, None)])
  }

  lemma {:induction false} OutputStep(s: Store, l: Ledger, tx: Transaction, i: nat, j: nat, txId: nat)
    requires l.blocks != [] && j < |Body(tx).outputs|
    requires Rep(s, Partial(l, tx, i, |Body(tx).inputs|, j))
    requires s.txs != [] && s.txs[|s.txs| - 1].txId == txId && s.nextTxId == txId + 1
    ensures Rep(OutputInserted(s, txId, j, Body(tx).outputs[j]), Partial(l, tx, i, |Body(tx).inputs|, j + 1))
  {
    var before := Partial(l, tx, i, |Body(tx).inputs|, j);
    PartialOutput(l, tx, i, j);
    assert before.txs[|before.txs| - 1].body.outputs == Body(tx).outputs[..j];
    RepAddOutput(s, before, Body(tx).outputs[j]);
  }

  lemma {:induction false} PartialDistinct(l: Ledger, tx: Transaction, i: nat, k: nat)
    requires DistinctTxs(l.txs) && l.blocks != [] && FindTx(l.txs, tx.hash) == None && k <= |Body(tx).inputs|
    ensures DistinctTxs(Partial(l, tx, i, k, 0).txs)
  {
    assert Partial(l, tx, i, k, 0).txs[..|l.txs|] == l.txs;
  }

  // The loops of SaveNextBlock.

  function AfterInputs(s: Store, txId: nat, inputs: seq<Input>, k: nat): Store
    requires k <= |inputs|
  {
    if k == 0 then s else InputInserted(AfterInputs(s, txId, inputs, k - 1), txId, k - 1, inputs[k - 1])
  }

  function AfterOutputs(s: Store, txId: nat, outputs: seq<Output>, j: nat): Store
    requires j <= |outputs|
  {
    if j == 0 then s else OutputInserted(AfterOutputs(s, txId, outputs, j - 1), txId, j - 1, outputs[j - 1])
  }

  function AfterTx(s: Store, blockId: nat, i: nat, tx: Transaction): Store {
    var body := Body(tx);
    var filled := AfterInputs(WithTx(s, blockId, i, tx), s.nextTxId, body.inputs, |body.inputs|);
    AfterOutputs(filled, s.nextTxId, body.outputs, |body.outputs|)
  }

  predicate TxFits(s: Store, tx: Transaction) {
    Storable(tx) && TxByHash(s.txs, tx.hash).None?
  }

  function AfterTxs(s: Store, blockId: nat, txs: seq<Transaction>, n: nat): Store
    requires n <= |txs|
  {
    if n == 0 then s else AfterTx(AfterTxs(s, blockId, txs, n - 1), blockId, n - 1, txs[n - 1])
  }

  predicate TxsFit(s: Store, blockId: nat, txs: seq<Transaction>, n: nat)
    requires n <= |txs|
  {
    n == 0 || (TxsFit(s, blockId, txs, n - 1) && TxFits(AfterTxs(s, blockId, txs, n - 1), txs[n - 1]))
  }

  lemma {:induction false} TxsFitLess(s: Store, blockId: nat, txs: seq<Transaction>, n: nat, i: nat)
    requires i <= n <= |txs| && TxsFit(s, blockId, txs, n)
    ensures TxsFit(s, blockId, txs, i)
    ensures i < n ==> TxFits(AfterTxs(s, blockId, txs, i), txs[i])
    decreases n
  {
    if i < n {
      TxsFitLess(s, blockId, txs, n - 1, i);
    }
  }

  lemma {:induction false} OneDoesNotFit(s: Store, blockId: nat, txs: seq<Transaction>, i: nat)
    requires i < |txs| && !TxFits(AfterTxs(s, blockId, txs, i), txs[i])
    ensures !TxsFit(s, blockId, txs, |txs|)
  {
    if TxsFit(s, blockId, txs, |txs|) {
      TxsFitLess(s, blockId, txs, |txs|, i);
    }
  }

  lemma {:induction false} AfterInputsKeeps(s: Store, txId: nat, inputs: seq<Input>, k: nat)
    requires k <= |inputs|
    ensures AfterInputs(s, txId, inputs, k).blocks == s.blocks && AfterInputs(s, txId, inputs, k).txs == s.txs
  {
    if k > 0 {
      var m := k - 1;
      AfterInputsKeeps(s, txId, inputs, m);
    }
  }

  lemma {:induction false} InputsStageStep(s: Store, l: Ledger, tx: Transaction, i: nat, k: nat, txId: nat)
    requires l.blocks != [] && k < |Body(tx).inputs|
    requires DistinctTxs(l.txs) && FindTx(l.txs, tx.hash) == None
    requires Rep(AfterInputs(s, txId, Body(tx).inputs, k), Partial(l, tx, i, k, 0))
    requires InputsBelow(AfterInputs(s, txId, Body(tx).inputs, k), txId, k)
    ensures Rep(AfterInputs(s, txId, Body(tx).inputs, k + 1), Partial(l, tx, i, k + 1, 0))
    ensures InputsBelow(AfterInputs(s, txId, Body(tx).inputs, k + 1), txId, k + 1)
  {
    PartialDistinct(l, tx, i, k);
    InputStep(AfterInputs(s, txId, Body(tx).inputs, k), l, tx, i, k, txId);
  }

  lemma {:induction false} InputsStage(s: Store, l: Ledger, tx: Transaction, i: nat, k: nat, txId: nat)
    requires l.blocks != [] && k <= |Body(tx).inputs|
    requires DistinctTxs(l.txs) && FindTx(l.txs, tx.hash) == None
    requires Rep(s, Partial(l, tx, i, 0, 0)) && InputsBelow(s, txId, 0)
    ensures Rep(AfterInputs(s, txId, Body(tx).inputs, k), Partial(l, tx, i, k, 0))
    ensures InputsBelow(AfterInputs(s, txId, Body(tx).inputs, k), txId, k)
  {
    if k > 0 {
      var j := k - 1;
      InputsStage(s, l, tx, i, j, txId);
      InputsStageStep(s, l, tx, i, j, txId);
    }
  }

  lemma {:induction false} AfterOutputsKeeps(s: Store, txId: nat, outputs: seq<Output>, j: nat)
    requires j <= |outputs|
    ensures AfterOutputs(s, txId, outputs, j).blocks == s.blocks
    ensures AfterOutputs(s, txId, outputs, j).txs == s.txs
    ensures AfterOutputs(s, txId, outputs, j).nextTxId == s.nextTxId
  {
    if j > 0 {
      var m := j - 1;
      AfterOutputsKeeps(s, txId, outputs, m);
    }
  }

  lemma {:induction false} OutputsStageStep(s: Store, l: Ledger, tx: Transaction, i: nat, j: nat, txId: nat)
    requires l.blocks != [] && j < |Body(tx).outputs|
    requires s.txs != [] && s.txs[|s.txs| - 1].txId == txId && s.nextTxId == txId + 1
    requires Rep(AfterOutputs(s, txId, Body(tx).outputs, j), Partial(l, tx, i, |Body(tx).inputs|, j))
    ensures Rep(AfterOutputs(s, txId, Body(tx).outputs, j + 1), Partial(l, tx, i, |Body(tx).inputs|, j + 1))
  {
    AfterOutputsKeeps(s, txId, Body(tx).outputs, j);
    OutputStep(AfterOutputs(s, txId, Body(tx).outputs, j), l, tx, i, j, txId);
  }

  lemma {:induction false} OutputsStage(s: Store, l: Ledger, tx: Transaction, i: nat, j: nat, txId: nat)
    requires l.blocks != [] && j <= |Body(tx).outputs|
    requires Rep(s, Partial(l, tx, i, |Body(tx).inputs|, 0))
    requires s.txs != [] && s.txs[|s.txs| - 1].txId == txId && s.nextTxId == txId + 1
    ensures Rep(AfterOutputs(s, txId, Body(tx).outputs, j), Partial(l, tx, i, |Body(tx).inputs|, j))
  {
    if j > 0 {
      var m := j - 1;
      OutputsStage(s, l, tx, i, m, txId);
      OutputsStageStep(s, l, tx, i, m, txId);
    }
  }

  lemma {:induction false} InputsStageOf(s: Store, l: Ledger, tx: Transaction, i: nat, txId: nat)
    requires l.blocks != [] && WF(l) && FindTx(l.txs, tx.hash) == None
    requires Rep(s, Partial(l, tx, i, 0, 0)) && InputsBelow(s, txId, 0)
    ensures Rep(AfterInputs(s, txId, Body(tx).inputs, |Body(tx).inputs|), Partial(l, tx, i, |Body(tx).inputs|, 0))
    ensures InputsBelow(AfterInputs(s, txId, Body(tx).inputs, |Body(tx).inputs|), txId, |Body(tx).inputs|)
  {
    InputsStage(s, l, tx, i, |Body(tx).inputs|, txId);
  }

  lemma {:induction false} FillingKept(s: Store, s': Store, blockId: nat, i: nat)
    requires Filling(s, blockId, i) && s'.blocks == s.blocks && s'.txs == s.txs
    ensures Filling(s', blockId, i)
  {}

  /** A transaction's statements take the represented ledger one transaction further. */
  lemma {:induction false} TxStage(s: Store, l: Ledger, blockId: nat, i: nat, tx: Transaction)
    requires Rep(s, l) && WF(l) && Filling(s, blockId, i) && FindTx(l.txs, tx.hash) == None
    ensures l.blocks != []
    ensures Rep(AfterTx(s, blockId, i, tx), Partial(l, tx, i, |Body(tx).inputs|, |Body(tx).outputs|))
    ensures Filling(AfterTx(s, blockId, i, tx), blockId, i + 1)
  {
    var body, begun := Body(tx), WithTx(s, blockId, i, tx);
    var filled := AfterInputs(begun, s.nextTxId, body.inputs, |body.inputs|);
    assert l.blocks != [] && Rep(begun, Partial(l, tx, i, 0, 0)) && Filling(begun, blockId, i + 1)
        && InputsBelow(begun, s.nextTxId, 0) by {
      TxStep(s, l, blockId, i, tx);
    }
    assert Rep(filled, Partial(l, tx, i, |body.inputs|, 0)) && InputsBelow(filled, s.nextTxId, |body.inputs|) by {
      InputsStageOf(begun, l, tx, i, s.nextTxId);
    }
    OutputsStage(filled, l, tx, i, |body.outputs|, s.nextTxId);
    AfterInputsKeeps(begun, s.nextTxId, body.inputs, |body.inputs|);
    AfterOutputsKeeps(filled, s.nextTxId, body.outputs, |body.outputs|);
    FillingKept(begun, AfterTx(s, blockId, i, tx), blockId, i + 1);
  }

  lemma {:induction false} TxFitsExactly(s: Store, l: Ledger, tx: Transaction)
    requires RepTxs(s.txs, l.txs, s.blocks)
    ensures TxFits(s, tx) <==> Storable(tx) && FindTx(l.txs, tx.hash) == None
  {
    RepFind(s.txs, l.txs, s.blocks, tx.hash);
  }

  lemma {:induction false} TxsStageStep(s: Store, l: Ledger, b: Block, blockId: nat, n: nat)
    requires Rep(s, l) && WF(l) && Filling(s, blockId, n)
    requires n < |b.transactions| && FindTx(l.txs, b.transactions[n].hash) == None
    ensures l.blocks != []
    ensures Rep(AfterTx(s, blockId, n, b.transactions[n]), ApplyTx(l, RecordOf(l.txs, b, |l.blocks| - 1, n)))
    ensures Filling(AfterTx(s, blockId, n, b.transactions[n]), blockId, n + 1)
  {
    TxStage(s, l, blockId, n, b.transactions[n]);
    PartialWhole(l, b, n);
  }

  /** Transaction m of the block can be applied after the ones before it. */
  ghost predicate Applicable(l: Ledger, b: Block, m: nat)
    requires m < |b.transactions|
  {
    var before := Applied(l, b, m);
    && WF(before) && FindTx(before.txs, b.transactions[m].hash) == None
    && Applied(l, b, m + 1) == ApplyTx(before, RecordOf(before.txs, b, |l.blocks|, m))
  }

  lemma {:induction false} AllApplicable(l: Ledger, b: Block, n: nat)
    requires WF(l) && CanAddBlock(l, b) && n <= |b.transactions| && CanApply(l, b, n)
    ensures forall m :: 0 <= m < n ==> Applicable(l, b, m)
  {
    forall m | 0 <= m < n ensures Applicable(l, b, m) {
      CanApplyLess(l, b, n, m);
      AppliedKeepsWF(l, b, m);
    }
  }

  lemma {:induction false} TxsStageNext(s: Store, l: Ledger, b: Block, blockId: nat, m: nat)
    requires m < |b.transactions| && Applicable(l, b, m)
    requires Rep(s, Applied(l, b, m)) && Filling(s, blockId, m)
    ensures Rep(AfterTx(s, blockId, m, b.transactions[m]), Applied(l, b, m + 1))
    ensures Filling(AfterTx(s, blockId, m, b.transactions[m]), blockId, m + 1)
  {
    TxsStageStep(s, Applied(l, b, m), b, blockId, m);
  }

  /** The transaction loop applies the block's transactions one by one. */
  lemma {:induction false} TxsStage(s: Store, l: Ledger, b: Block, blockId: nat, n: nat)
    requires n <= |b.transactions| && forall m :: 0 <= m < n ==> Applicable(l, b, m)
    requires Rep(s, AddBlock(l, b)) && Filling(s, blockId, 0)
    ensures Rep(AfterTxs(s, blockId, b.transactions, n), Applied(l, b, n))
    ensures Filling(AfterTxs(s, blockId, b.transactions, n), blockId, n)
  {
    if n > 0 {
      var m := n - 1;
      TxsStage(s, l, b, blockId, m);
      TxsStageNext(AfterTxs(s, blockId, b.transactions, m), l, b, blockId, m);
    }
  }

  lemma {:induction false} NextTxFits(s: Store, l: Ledger, b: Block, blockId: nat, n: nat)
    requires WF(l) && CanAddBlock(l, b) && n < |b.transactions| && CanApply(l, b, n)
    requires Rep(s, AddBlock(l, b)) && Filling(s, blockId, 0)
    ensures TxFits(AfterTxs(s, blockId, b.transactions, n), b.transactions[n]) <==>
            Storable(b.transactions[n]) && FindTx(Applied(l, b, n).txs, b.transactions[n].hash) == None
  {
    AllApplicable(l, b, n);
    TxsStage(s, l, b, blockId, n);
    TxFitsExactly(AfterTxs(s, blockId, b.transactions, n), Applied(l, b, n), b.transactions[n]);
  }

  /** One more transaction fits and can be applied, or neither, given that the ones before do both. */
  lemma {:induction false} FitsNext(s: Store, l: Ledger, b: Block, blockId: nat, m: nat)
    requires m < |b.transactions|
    requires CanApply(l, b, m) ==>
               (TxFits(AfterTxs(s, blockId, b.transactions, m), b.transactions[m]) <==>
                Storable(b.transactions[m]) && FindTx(Applied(l, b, m).txs, b.transactions[m].hash) == None)
    requires TxsFit(s, blockId, b.transactions, m) <==> CanApply(l, b, m)
    ensures TxsFit(s, blockId, b.transactions, m + 1) <==> CanApply(l, b, m + 1)
  {}

  lemma {:induction false} TxsFitExactly(s: Store, l: Ledger, b: Block, blockId: nat, n: nat)
    requires WF(l) && CanAddBlock(l, b) && n <= |b.transactions|
    requires Rep(s, AddBlock(l, b)) && Filling(s, blockId, 0)
    ensures TxsFit(s, blockId, b.transactions, n) <==> CanApply(l, b, n)
  {
    if n > 0 {
      var m := n - 1;
      TxsFitExactly(s, l, b, blockId, m);
      if CanApply(l, b, m) {
        NextTxFits(s, l, b, blockId, m);
      }
      FitsNext(s, l, b, blockId, m);
    }
  }

  // The whole of SaveNextBlock.

  predicate Fits(s: Store, b: Block) {
    BlockFits(s, b) && TxsFit(WithBlock(s, b), s.nextBlockId, b.transactions, |b.transactions|)
  }

  function AfterBlock(s: Store, b: Block): Store {
    AfterTxs(WithBlock(s, b), s.nextBlockId, b.transactions, |b.transactions|)
  }

  /** The statements go through exactly for blocks that can be saved, and then the ledger is the block's. */
  lemma {:induction false} SaveRefines(s: Store, l: Ledger, b: Block)
    requires Rep(s, l) && WF(l)
    ensures Fits(s, b) <==> CanSave(l, b)
    ensures Fits(s, b) ==> Rep(AfterBlock(s, b), ApplyBlock(l, b)) && WF(ApplyBlock(l, b))
  {
    BlockFitsExactly(s, l, b);
    if CanAddBlock(l, b) {
      BlockStep(s, l, b);
      NothingFilled(s, l, b);
      TxsFitExactly(WithBlock(s, b), l, b, s.nextBlockId, |b.transactions|);
      if CanSave(l, b) {
        AllApplicable(l, b, |b.transactions|);
        TxsStage(WithBlock(s, b), l, b, s.nextBlockId, |b.transactions|);
        AppliedKeepsWF(l, b, |b.transactions|);
      }
    }
  }

  lemma {:induction false} NothingFilled(s: Store, l: Ledger, b: Block)
    requires Rep(s, l)
    ensures Filling(WithBlock(s, b), s.nextBlockId, 0)
  {}

  /** Serial numbers that a rolled-back insert used up do not matter. */
  lemma {:induction false} LaterIds(s: Store, l: Ledger, nextBlockId: nat, nextTxId: nat)
    requires Rep(s, l) && nextBlockId >= s.nextBlockId && nextTxId >= s.nextTxId
    ensures Rep(s.(nextBlockId := nextBlockId, nextTxId := nextTxId), l)
  {}
}
