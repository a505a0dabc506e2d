/** evote/database.go: the store. Its tables represent a ledger; each operation is stated on that ledger. */
module Storage {
  import opened Types
  import opened Crypto
  import opened LedgerSpec
  import opened WellFormed
  import opened Tables
  import opened Refinement
  import opened Saving
  import opened Loading
  import opened RoundTrip

  /** The row that the query of GetBlockAfter selects: the child of the block with this hash, or the root. */
  function RowAfterHash(rows: seq<BlockRow>, hash: Bytes): Option<BlockRow> {
    if |hash| != 0 then
      match BlockByHash(rows, hash)
      case None => None
      case Some(parent) => BlockByParent(rows, Some(parent.blockId))
    else BlockByParent(rows, None)
  }

  class Database {
    var blocks: seq<BlockRow>
    var txs: seq<TxRow>
    var inputs: seq<InputRow>
    var outputs: seq<OutputRow>
    // The serial columns. A rolled-back insert does not give its number back.
    var nextBlockId: nat
    var nextTxId: nat
    ghost var ledger: Ledger

    ghost function Snapshot(): Store
      reads this
    {
      Store(blocks, txs, inputs, outputs, nextBlockId, nextTxId)
    }

    ghost predicate Valid()
      reads this
    {
      Rep(Snapshot(), ledger) && WF(ledger)
    }

    constructor ()
      ensures Valid() && ledger == GENESIS
    {
      blocks, txs, inputs, outputs := [], [], [], [];
      nextBlockId, nextTxId := 1, 1;
      ledger := GENESIS;
    }

    // The statements. After one fails the tables may be half changed; the caller rolls back.

    method InsertBlock(block: Block) returns (ok: bool)
      modifies this
      ensures ok == BlockFits(old(Snapshot()), block)
      ensures ok ==> Snapshot() == WithBlock(old(Snapshot()), block)
      ensures nextBlockId >= old(nextBlockId) && nextTxId == old(nextTxId) && ledger == old(ledger)
    {
      var prevBlockHash := block.header.prevBlockHash;
      var parent: Option<BlockRow> := None;
      if |prevBlockHash| != 0 {
        parent := BlockByHash(blocks, prevBlockHash);
        if parent.None? {
          return false;
        }
      }
      var row := RowAfter(nextBlockId, parent, block);
      nextBlockId := nextBlockId + 1;
      if block.header.timestamp >= TWO_TO_THE_63 || BlockByHash(blocks, block.hash).Some? {
        return false;
      }
      blocks := blocks + [row];
      return TriggerPasses(blocks, row);
    }

    method InsertTransaction(blockId: nat, i: nat, tx: Transaction, body: TxBody) returns (ok: bool, txId: nat)
      requires body == Body(tx)
      modifies this
      ensures txId == old(nextTxId)
      ensures ok == (&& body.voteType < TWO_TO_THE_31 && body.duration < TWO_TO_THE_31
                     && TxByHash(old(txs), tx.hash).None?)
      ensures ok ==> Snapshot() == WithTx(old(Snapshot()), blockId, i, tx)
      ensures nextBlockId == old(nextBlockId) && nextTxId >= old(nextTxId) && ledger == old(ledger)
    {
      txId := nextTxId;
      nextTxId := nextTxId + 1;
      if body.voteType >= TWO_TO_THE_31 || body.duration >= TWO_TO_THE_31 || TxByHash(txs, tx.hash).Some? {
        return false, txId;
      }
      txs := txs + [TxRow(
        txId, blockId, i, tx.hash, body.hashLink, body.valueType, body.voteType, body.duration,
        body.senderEphemeralPkey, body.votersSumPkey, tx.sig)];
      ok := true;
    }

    method InsertInput(txId: nat, inputIndex: nat, input: Input) returns (ok: bool)
      modifies this
      ensures ok == (input.outputIndex < TWO_TO_THE_31)
      ensures ok ==> Snapshot() == InputInserted(old(Snapshot()), txId, inputIndex, input)
      ensures nextBlockId == old(nextBlockId) && nextTxId == old(nextTxId) && ledger == old(ledger)
    {
      if input.outputIndex >= TWO_TO_THE_31 {
        return false;
      }
      match TxByHash(txs, input.prevTxHash) {
        case None =>
        case Some(prev) =>
          inputs := inputs + [InputRow(txId, inputIndex, prev.txId, input.outputIndex)];
          outputs := MarkSpent(outputs, prev.txId, input.outputIndex, txId);
      }
      ok := true;
    }

    method InsertOutput(txId: nat, outputIndex: nat, output: Output) returns (ok: bool)
      modifies this
      ensures ok == (output.value < TWO_TO_THE_31)
      ensures ok ==> Snapshot() == OutputInserted(old(Snapshot()), txId, outputIndex, output)
      ensures nextBlockId == old(nextBlockId) && nextTxId == old(nextTxId) && ledger == old(ledger)
    {
      if output.value >= TWO_TO_THE_31 {
        return false;
      }
      outputs := outputs + [OutputRow(
        txId, outputIndex, output.value, output.receiverSpendPkey, output.receiverScanPkey, None)];
      ok := true;
    }

    /** One pass of the transaction loop. */
    method SaveTransaction(blockId: nat, i: nat, tx: Transaction) returns (ok: bool)
      modifies this
      ensures ok == TxFits(old(Snapshot()), tx)
      ensures ok ==> Snapshot() == AfterTx(old(Snapshot()), blockId, i, tx)
      ensures nextBlockId == old(nextBlockId) && nextTxId >= old(nextTxId) && ledger == old(ledger)
    {
      if DecodeBody(tx.txBody).None? {
        return false;
      }
      var body := DecodeBody(tx.txBody).value;
      var txId;
      ok, txId := InsertTransaction(blockId, i, tx, body);
      if !ok {
        return;
      }
      ok := SaveInputs(txId, body.inputs);
      if !ok {
        return;
      }
      ok := SaveOutputs(txId, body.outputs);
    }

    method SaveInputs(txId: nat, ins: seq<Input>) returns (ok: bool)
      modifies this
      ensures ok == forall k :: 0 <= k < |ins| ==> ins[k].outputIndex < TWO_TO_THE_31
      ensures ok ==> Snapshot() == AfterInputs(old(Snapshot()), txId, ins, |ins|)
      ensures nextBlockId == old(nextBlockId) && nextTxId == old(nextTxId) && ledger == old(ledger)
    {
      var k := 0;
      while k < |ins|
        invariant 0 <= k <= |ins|
        invariant Snapshot() == AfterInputs(old(Snapshot()), txId, ins, k)
        invariant forall j :: 0 <= j < k ==> ins[j].outputIndex < TWO_TO_THE_31
        invariant nextBlockId == old(nextBlockId) && nextTxId == old(nextTxId) && ledger == old(ledger)
      {
        ok := InsertInput(txId, k, ins[k]);
        if !ok {
          return;
        }
        k := k + 1;
      }
      ok := true;
    }

    method SaveOutputs(txId: nat, outs: seq<Output>) returns (ok: bool)
      modifies this
      ensures ok == forall k :: 0 <= k < |outs| ==> outs[k].value < TWO_TO_THE_31
      ensures ok ==> Snapshot() == AfterOutputs(old(Snapshot()), txId, outs, |outs|)
      ensures nextBlockId == old(nextBlockId) && nextTxId == old(nextTxId) && ledger == old(ledger)
    {
      var j := 0;
      while j < |outs|
        invariant 0 <= j <= |outs|
        invariant Snapshot() == AfterOutputs(old(Snapshot()), txId, outs, j)
        invariant forall q :: 0 <= q < j ==> outs[q].value < TWO_TO_THE_31
        invariant nextBlockId == old(nextBlockId) && nextTxId == old(nextTxId) && ledger == old(ledger)
      {
        ok := InsertOutput(txId, j, outs[j]);
        if !ok {
          return;
        }
        j := j + 1;
      }
      ok := true;
    }

    /** The transaction loop. */
    method SaveTransactions(blockId: nat, transactions: seq<Transaction>) returns (ok: bool)
      modifies this
      ensures ok == TxsFit(old(Snapshot()), blockId, transactions, |transactions|)
      ensures ok ==> Snapshot() == AfterTxs(old(Snapshot()), blockId, transactions, |transactions|)
      ensures nextBlockId == old(nextBlockId) && nextTxId >= old(nextTxId) && ledger == old(ledger)
    {
      ghost var s := Snapshot();
      var i := 0;
      while i < |transactions|
        invariant 0 <= i <= |transactions|
        invariant TxsFit(s, blockId, transactions, i)
        invariant Snapshot() == AfterTxs(s, blockId, transactions, i)
        invariant nextBlockId == old(nextBlockId) && nextTxId >= old(nextTxId) && ledger == old(ledger)
      {
        ok := SaveTransaction(blockId, i, transactions[i]);
        if !ok {
          OneDoesNotFit(s, blockId, transactions, i);
          return;
        }
        i := i + 1;
      }
      ok := true;
    }

    /** The statements between BEGIN and COMMIT. */
    method InsertAll(block: Block) returns (ok: bool)
      modifies this
      ensures ok == Fits(old(Snapshot()), block)
      ensures ok ==> Snapshot() == AfterBlock(old(Snapshot()), block)
      ensures nextBlockId >= old(nextBlockId) && nextTxId >= old(nextTxId) && ledger == old(ledger)
    {
      var blockId := nextBlockId;
      ok := InsertBlock(block);
      if ok {
        ok := SaveTransactions(blockId, block.transactions);
      }
    }

    /** InsertAll as the ledger sees it. */
    method TrySave(block: Block) returns (ok: bool)
      requires Valid()
      modifies this
      ensures ok == CanSave(ledger, block)
      ensures ok ==> Rep(Snapshot(), ApplyBlock(ledger, block)) && WF(ApplyBlock(ledger, block))
      ensures nextBlockId >= old(nextBlockId) && nextTxId >= old(nextTxId) && ledger == old(ledger)
    {
      SaveRefines(Snapshot(), ledger, block);
      ok := InsertAll(block);
    }

    method Rollback(
      savedBlocks: seq<BlockRow>, savedTxs: seq<TxRow>, savedInputs: seq<InputRow>, savedOutputs: seq<OutputRow>)
      requires Rep(Store(savedBlocks, savedTxs, savedInputs, savedOutputs, nextBlockId, nextTxId), ledger) && WF(ledger)
      modifies this
      ensures Valid() && ledger == old(ledger)
      ensures blocks == savedBlocks && txs == savedTxs && inputs == savedInputs && outputs == savedOutputs
    {
      blocks, txs, inputs, outputs := savedBlocks, savedTxs, savedInputs, savedOutputs;
    }

    ghost method Committed(saved: Ledger)
      requires Rep(Snapshot(), saved) && WF(saved)
      modifies `ledger
      ensures Valid() && ledger == saved
    {
      ledger := saved;
    }

    /** All or nothing: the block is saved whole, or no row is left of it. */
    method SaveNextBlock(block: Block) returns (ok: bool)
      requires Valid()
      modifies this
      ensures Valid()
      ensures ok == CanSave(old(ledger), block)
      ensures ledger == if ok then ApplyBlock(old(ledger), block) else old(ledger)
      ensures !ok ==> blocks == old(blocks) && txs == old(txs) && inputs == old(inputs) && outputs == old(outputs)
    {
      var savedBlocks, savedTxs, savedInputs, savedOutputs := blocks, txs, inputs, outputs;
      ok := TrySave(block);
      if ok {
        Committed(ApplyBlock(ledger, block));
      } else {
        LaterIds(old(Snapshot()), ledger, nextBlockId, nextTxId);
        Rollback(savedBlocks, savedTxs, savedInputs, savedOutputs);
      }
    }

    // The queries.

    method GetTxInputsAndOutputs(txId: nat) returns (ins: seq<Input>, outs: seq<Output>)
      ensures ins == JoinInputs(OrderBy(InputsOf(inputs, txId), InputIndex), txs)
      ensures outs == ReadOutputs(OrderBy(OutputsOf(outputs, txId), OutputIndex))
    {
      var inputRows := OrderBy(InputsOf(inputs, txId), InputIndex);
      ins := [];
      var i := 0;
      while i < |inputRows|
        invariant 0 <= i <= |inputRows|
        invariant ins == JoinInputs(inputRows[..i], txs)
      {
        assert inputRows[..i + 1][..i] == inputRows[..i];
        match TxById(txs, inputRows[i].prevTxId) {
          case None =>
          case Some(prev) => ins := ins + [Input(prev.txHash, inputRows[i].outputIndex)];
        }
        i := i + 1;
      }
      assert inputRows[..i] == inputRows;
      var outputRows := OrderBy(OutputsOf(outputs, txId), OutputIndex);
      outs := [];
      i := 0;
      while i < |outputRows|
        invariant 0 <= i <= |outputRows|
        invariant outs == ReadOutputs(outputRows[..i])
      {
        assert outputRows[..i + 1][..i] == outputRows[..i];
        outs := outs + [Output(outputRows[i].receiverSpendPkey, outputRows[i].receiverScanPkey, outputRows[i].value)];
        i := i + 1;
      }
      assert outputRows[..i] == outputRows;
    }

    method ScanTxs(rows: seq<TxRow>) returns (result: seq<Transaction>)
      ensures result == ReadTxs(Snapshot(), rows)
    {
      result := [];
      var i := 0;
      while i < |rows|
        invariant 0 <= i <= |rows|
        invariant result == ReadTxs(Snapshot(), rows[..i])
      {
        assert rows[..i + 1][..i] == rows[..i];
        var row := rows[i];
        var ins, outs := GetTxInputsAndOutputs(row.txId);
        var body := TxBody(
          ins, outs, row.hashLink, row.valueType, row.voteType, row.duration,
          row.senderEphemeralPkey, row.votersSumPkey);
        result := result + [Transaction(EncodeBody(body), row.txHash, row.signature)];
        i := i + 1;
      }
      assert rows[..i] == rows;
    }

    method ScanBlock(row: BlockRow) returns (block: Block)
      ensures block == ReadBlock(Snapshot(), row)
    {
      var header := BlockHeader(ParentHash(blocks, row), row.merkleTree, row.proposerPkey, row.timestamp);
      var transactions := ScanTxs(OrderBy(TxsOf(txs, row.blockId), TxIndex));
      block := Block(header, transactions, row.blockHash);
    }

    /** The blocks with these hashes. Without a hash the IN list is empty, which is no SQL. */
    method GetBlocksByHashes(hashes: seq<Bytes>) returns (result: Option<seq<Block>>)
      requires Valid()
      ensures result == if hashes == [] then None else Some(BlocksAmong(ledger, hashes, |ledger.blocks|))
    {
      if |hashes| == 0 {
        return None;
      }
      var found: seq<Block> := [];
      var i := 0;
      while i < |blocks|
        invariant 0 <= i <= |blocks| == |ledger.blocks|
        invariant found == BlocksAmong(ledger, hashes, i)
      {
        RepBlockAt(blocks, ledger.blocks, i);
        if blocks[i].blockHash in hashes {
          var block := ScanBlock(blocks[i]);
          BlockReadBack(Snapshot(), ledger, i);
          found := found + [block];
        }
        i := i + 1;
      }
      result := Some(found);
    }

    /** The panic about too many blocks is dead. */
    method GetBlockByHash(hash: Bytes) returns (block: Option<Block>)
      requires Valid()
      ensures FindBlock(ledger.blocks, hash).None? ==> block == None
      ensures FindBlock(ledger.blocks, hash).Some? ==>
                FindBlock(ledger.blocks, hash).value < |ledger.blocks|
                && block == Some(LoadBlock(ledger, FindBlock(ledger.blocks, hash).value))
    {
      OneBlockAmong(ledger, hash, |ledger.blocks|);
      var found := GetBlocksByHashes([hash]);
      if |found.value| < 1 {
        return None;
      } else if |found.value| == 1 {
        return Some(found.value[0]);
      }
      assert false;
    }

    method GetBlockAfter(hash: Bytes) returns (block: Option<Block>)
      requires Valid()
      ensures block == BlockAfter(ledger, hash)
    {
      var row := RowAfterHash(blocks, hash);
      NextBlock(Snapshot(), ledger, hash);
      if row.None? {
        return None;
      }
      var next := ScanBlock(row.value);
      return Some(next);
    }

    method GetTxsByHashes(hashes: seq<Bytes>) returns (result: Option<seq<Transaction>>)
      requires Valid()
      ensures result == if hashes == [] then None else Some(TxsAmong(ledger.txs, hashes))
    {
      if |hashes| == 0 {
        return None;
      }
      TxsAmongReadBack(Snapshot(), ledger, hashes);
      var found := ScanTxs(RowsAmong(txs, hashes));
      result := Some(found);
    }

    /** The panic about too many transactions is dead. */
    method GetTxByHash(hash: Bytes) returns (tx: Option<Transaction>)
      requires Valid()
      ensures tx == match FindTx(ledger.txs, hash)
                    case None => None
                    case Some(rec) => Some(StoredTx(rec))
    {
      OneTxAmong(ledger.txs, hash);
      var found := GetTxsByHashes([hash]);
      if |found.value| < 1 {
        return None;
      } else if |found.value| == 1 {
        return Some(found.value[0]);
      }
      assert false;
    }

    method GetTxAndTimeByHash(hash: Bytes) returns (tx: Option<Transaction>, timestamp: u64)
      requires Valid()
      ensures FindTx(ledger.txs, hash).None? ==> tx == None && timestamp == 0
      ensures FindTx(ledger.txs, hash).Some? ==>
                var rec := FindTx(ledger.txs, hash).value;
                rec.height < |ledger.blocks| && tx == Some(StoredTx(rec)) && timestamp == TimeOf(ledger, rec)
    {
      FoundTxReadBack(Snapshot(), ledger, hash);
      match TxByHash(txs, hash) {
        case None => tx, timestamp := None, 0;
        case Some(row) =>
          var found := ScanTxs([row]);
          tx, timestamp := Some(found[0]), BlockById(blocks, row.blockId).value.timestamp;
      }
    }

    method GetTxByHashLink(link: Bytes) returns (tx: Option<Transaction>)
      requires Valid()
      ensures tx == match FindLink(ledger.txs, link)
                    case None => None
                    case Some(rec) => Some(StoredTx(rec))
    {
      LinkedTxReadBack(Snapshot(), ledger, link);
      match TxByLink(txs, link) {
        case None => tx := None;
        case Some(row) =>
          var found := ScanTxs([row]);
          tx := Some(found[0]);
      }
    }

    /** The three UTXO queries: the coins of the ledger that the query selects. */
    method GetUTXOS(q: Query) returns (utxos: seq<Utxo>)
      requires Valid()
      ensures utxos == Answer(ledger.coins, q)
    {
      utxos := [];
      var k := 0;
      while k < |outputs|
        invariant 0 <= k <= |outputs|
        invariant utxos == ReadUtxos(Snapshot(), outputs[..k], q)
      {
        ReadUtxosStep(Snapshot(), k, q);
        var joined := Join(outputs[k], txs, blocks);
        if outputs[k].isSpentByTx.None? && joined.Some? && Selected(q, joined.value) {
          utxos := utxos + [joined.value.utxo];
        }
        k := k + 1;
      }
      assert outputs[..k] == outputs;
    }
  }

  lemma {:induction false} NextBlock(s: Store, l: Ledger, hash: Bytes)
    requires Rep(s, l) && LinearBlocks(l.blocks)
    ensures var row := RowAfterHash(s.blocks, hash);
      BlockAfter(l, hash) == if row.None? then None else Some(ReadBlock(s, row.value))
  {
    if hash == [] {
      RootRow(s.blocks, l.blocks);
      if l.blocks != [] {
        BlockReadBack(s, l, 0);
      }
    } else {
      RepFindBlock(s.blocks, l.blocks, hash);
      if BlockByHash(s.blocks, hash).Some? {
        var i := FindBlock(l.blocks, hash).value;
        ChildRows(s.blocks, l.blocks, i);
        if i + 1 < |l.blocks| {
          BlockReadBack(s, l, i + 1);
        }
      }
    }
  }
}
