/** database/initdb/init.sql: the four tables, the inserts with their triggers, and the look-ups, on values. */
module Tables {
  import opened Types

  datatype BlockRow = BlockRow(
    blockId: nat, height: nat, blockHash: Bytes, prevBlockId: Option<nat>,
    merkleTree: Bytes, proposerPkey: Bytes, timestamp: u64)

  datatype TxRow = TxRow(
    txId: nat, blockId: nat, index: nat, txHash: Bytes, hashLink: Bytes, valueType: Bytes,
    voteType: u32, duration: u32, senderEphemeralPkey: Bytes, votersSumPkey: Bytes, signature: Bytes)

  datatype InputRow = InputRow(txId: nat, index: nat, prevTxId: nat, outputIndex: nat)

  datatype OutputRow = OutputRow(
    txId: nat, index: nat, value: u32, receiverSpendPkey: Bytes, receiverScanPkey: Bytes, isSpentByTx: Option<nat>)

  // Look-ups by the unique columns.

  function BlockById(blocks: seq<BlockRow>, id: nat): Option<BlockRow> {
    if blocks == [] then None
    else if blocks[|blocks| - 1].blockId == id then Some(blocks[|blocks| - 1])
    else BlockById(blocks[..|blocks| - 1], id)
  }

  function BlockByHash(blocks: seq<BlockRow>, hash: Bytes): Option<BlockRow> {
    if blocks == [] then None
    else if blocks[|blocks| - 1].blockHash == hash then Some(blocks[|blocks| - 1])
    else BlockByHash(blocks[..|blocks| - 1], hash)
  }

  /** The first row with this parent. */
  function BlockByParent(blocks: seq<BlockRow>, parent: Option<nat>): Option<BlockRow> {
    if blocks == [] then None
    else
      var earlier := BlockByParent(blocks[..|blocks| - 1], parent);
      if earlier.Some? then earlier
      else if blocks[|blocks| - 1].prevBlockId == parent then Some(blocks[|blocks| - 1]) else None
  }

  function CountByParent(blocks: seq<BlockRow>, parent: Option<nat>): nat {
    if blocks == [] then 0
    else CountByParent(blocks[..|blocks| - 1], parent) + if blocks[|blocks| - 1].prevBlockId == parent then 1 else 0
  }

  function TxById(txs: seq<TxRow>, id: nat): Option<TxRow> {
    if txs == [] then None
    else if txs[|txs| - 1].txId == id then Some(txs[|txs| - 1])
    else TxById(txs[..|txs| - 1], id)
  }

  function TxByHash(txs: seq<TxRow>, hash: Bytes): Option<TxRow> {
    if txs == [] then None
    else if txs[|txs| - 1].txHash == hash then Some(txs[|txs| - 1])
    else TxByHash(txs[..|txs| - 1], hash)
  }

  /** The first row with this hash link. */
  function TxByLink(txs: seq<TxRow>, link: Bytes): Option<TxRow> {
    if txs == [] then None
    else
      var earlier := TxByLink(txs[..|txs| - 1], link);
      if earlier.Some? then earlier
      else if txs[|txs| - 1].hashLink == link then Some(txs[|txs| - 1]) else None
  }

  function InputsOf(inputs: seq<InputRow>, txId: nat): seq<InputRow> {
    if inputs == [] then []
    else
      var rest := InputsOf(inputs[..|inputs| - 1], txId);
      if inputs[|inputs| - 1].txId == txId then rest + [inputs[|inputs| - 1]] else rest
  }

  function OutputsOf(outputs: seq<OutputRow>, txId: nat): seq<OutputRow> {
    if outputs == [] then []
    else
      var rest := OutputsOf(outputs[..|outputs| - 1], txId);
      if outputs[|outputs| - 1].txId == txId then rest + [outputs[|outputs| - 1]] else rest
  }

  function TxsOf(txs: seq<TxRow>, blockId: nat): seq<TxRow> {
    if txs == [] then []
    else
      var rest := TxsOf(txs[..|txs| - 1], blockId);
      if txs[|txs| - 1].blockId == blockId then rest + [txs[|txs| - 1]] else rest
  }

  // ORDER BY index.

  function InsertByKey<T>(sorted: seq<T>, x: T, key: T -> int): seq<T> {
    if sorted == [] || key(sorted[|sorted| - 1]) <= key(x) then sorted + [x]
    else InsertByKey(sorted[..|sorted| - 1], x, key) + [sorted[|sorted| - 1]]
  }

  function OrderBy<T>(rows: seq<T>, key: T -> int): seq<T> {
    if rows == [] then [] else InsertByKey(OrderBy(rows[..|rows| - 1], key), rows[|rows| - 1], key)
  }

  ghost predicate InOrder<T>(rows: seq<T>, key: T -> int) {
    forall i, j :: 0 <= i < j < |rows| ==> key(rows[i]) < key(rows[j])
  }

  lemma {:induction false} InsertLast<T>(sorted: seq<T>, x: T, key: T -> int)
    requires sorted == [] || key(sorted[|sorted| - 1]) <= key(x)
    ensures InsertByKey(sorted, x, key) == sorted + [x]
  {}

  lemma {:induction false} OrderByInOrder<T>(rows: seq<T>, key: T -> int)
    requires InOrder(rows, key)
    ensures OrderBy(rows, key) == rows
  {
    if rows != [] {
      var n := |rows| - 1;
      var rest := rows[..n];
      OrderByInOrder(rest, key);
      assert rest == [] || key(rest[n - 1]) <= key(rows[n]);
      InsertLast(rest, rows[n], key);
      assert rows == rest + [rows[n]];
    }
  }

  function InputIndex(r: InputRow): int { r.index }

  function OutputIndex(r: OutputRow): int { r.index }

  function TxIndex(r: TxRow): int { r.index }

  // The trigger on input: an insert marks the output it names as spent.

  function MarkSpent(outputs: seq<OutputRow>, prevTxId: nat, outputIndex: nat, txId: nat): (r: seq<OutputRow>)
    ensures |r| == |outputs|
  {
    if outputs == [] then []
    else
      var last := outputs[|outputs| - 1];
      MarkSpent(outputs[..|outputs| - 1], prevTxId, outputIndex, txId)
        + [if last.txId == prevTxId && last.index == outputIndex then last.(isSpentByTx := Some(txId)) else last]
  }

  /** The transaction whose input, the last one from another transaction, names this output. */
  function LastSpender(inputs: seq<InputRow>, txId: nat, index: nat): Option<nat> {
    if inputs == [] then None
    else
      var last := inputs[|inputs| - 1];
      if last.prevTxId == txId && last.outputIndex == index && last.txId != txId then Some(last.txId)
      else LastSpender(inputs[..|inputs| - 1], txId, index)
  }

  /** isSpentByTx agrees with the input rows. */
  ghost predicate MarksExact(outputs: seq<OutputRow>, inputs: seq<InputRow>) {
    forall k :: 0 <= k < |outputs| ==> outputs[k].isSpentByTx == LastSpender(inputs, outputs[k].txId, outputs[k].index)
  }

  /** An output is marked exactly when some input row of another transaction names it. */
  lemma {:induction false} SpenderExists(inputs: seq<InputRow>, txId: nat, index: nat)
    ensures LastSpender(inputs, txId, index) == None <==>
            forall r :: r in inputs && r.prevTxId == txId && r.outputIndex == index ==> r.txId == txId
  {
    if inputs != [] {
      var n := |inputs| - 1;
      SpenderExists(inputs[..n], txId, index);
      assert inputs == inputs[..n] + [inputs[n]];
    }
  }

  lemma {:induction false} MarkSpentAt(outputs: seq<OutputRow>, prevTxId: nat, outputIndex: nat, txId: nat, k: nat)
    requires k < |outputs|
    ensures MarkSpent(outputs, prevTxId, outputIndex, txId)[k]
         == if outputs[k].txId == prevTxId && outputs[k].index == outputIndex
            then outputs[k].(isSpentByTx := Some(txId)) else outputs[k]
  {
    if k < |outputs| - 1 {
      MarkSpentAt(outputs[..|outputs| - 1], prevTxId, outputIndex, txId, k);
    }
  }

  /** The trigger keeps the marks exact while the spending transaction has no outputs yet. */
  lemma {:induction false} MarksAfterInput(outputs: seq<OutputRow>, inputs: seq<InputRow>, r: InputRow)
    requires MarksExact(outputs, inputs)
    requires forall k :: 0 <= k < |outputs| ==> outputs[k].txId != r.txId
    ensures MarksExact(MarkSpent(outputs, r.prevTxId, r.outputIndex, r.txId), inputs + [r])
  {
    assert (inputs + [r])[..|inputs|] == inputs;
    var marked := MarkSpent(outputs, r.prevTxId, r.outputIndex, r.txId);
    forall k | 0 <= k < |marked|
      ensures marked[k].isSpentByTx == LastSpender(inputs + [r], marked[k].txId, marked[k].index)
    {
      MarkSpentAt(outputs, r.prevTxId, r.outputIndex, r.txId, k);
    }
  }

  lemma {:induction false} MarksAfterOutput(outputs: seq<OutputRow>, inputs: seq<InputRow>, o: OutputRow)
    requires MarksExact(outputs, inputs) && o.isSpentByTx == None
    requires forall r :: r in inputs && r.prevTxId == o.txId ==> r.txId == o.txId
    ensures MarksExact(outputs + [o], inputs)
  {
    SpenderExists(inputs, o.txId, o.index);
  }

  // Rows that a look-up passes over.

  lemma {:induction false} TxByIdSnoc(txs: seq<TxRow>, row: TxRow, id: nat)
    ensures TxById(txs + [row], id) == if row.txId == id then Some(row) else TxById(txs, id)
  {
    assert (txs + [row])[..|txs|] == txs;
  }

  lemma {:induction false} BlockByIdSnoc(blocks: seq<BlockRow>, row: BlockRow, id: nat)
    ensures BlockById(blocks + [row], id) == if row.blockId == id then Some(row) else BlockById(blocks, id)
  {
    assert (blocks + [row])[..|blocks|] == blocks;
  }

  lemma {:induction false} TxByIdBelow(txs: seq<TxRow>, id: nat)
    ensures TxById(txs, id).Some? ==> TxById(txs, id).value in txs && TxById(txs, id).value.txId == id
    ensures TxById(txs, id).None? ==> forall r :: r in txs ==> r.txId != id
  {
    if txs != [] {
      var n := |txs| - 1;
      TxByIdBelow(txs[..n], id);
      assert txs == txs[..n] + [txs[n]];
    }
  }

  lemma {:induction false} InputsOfAppend(a: seq<InputRow>, b: seq<InputRow>, id: nat)
    ensures InputsOf(a + b, id) == InputsOf(a, id) + InputsOf(b, id)
    decreases |b|
  {
    if b == [] {
      assert a + b == a;
    } else {
      assert (a + b)[..|a + b| - 1] == a + b[..|b| - 1];
      InputsOfAppend(a, b[..|b| - 1], id);
    }
  }

  lemma {:induction false} InputsOfAll(rows: seq<InputRow>, id: nat)
    requires forall k :: 0 <= k < |rows| ==> rows[k].txId == id
    ensures InputsOf(rows, id) == rows
  {
    if rows != [] {
      var n := |rows| - 1;
      InputsOfAll(rows[..n], id);
      assert rows == rows[..n] + [rows[n]];
    }
  }

  lemma {:induction false} InputsOfNone(rows: seq<InputRow>, id: nat)
    requires forall k :: 0 <= k < |rows| ==> rows[k].txId != id
    ensures InputsOf(rows, id) == []
  {
    if rows != [] {
      var n := |rows| - 1;
      InputsOfNone(rows[..n], id);
    }
  }

  lemma {:induction false} OutputsOfAppend(a: seq<OutputRow>, b: seq<OutputRow>, id: nat)
    ensures OutputsOf(a + b, id) == OutputsOf(a, id) + OutputsOf(b, id)
    decreases |b|
  {
    if b == [] {
      assert a + b == a;
    } else {
      assert (a + b)[..|a + b| - 1] == a + b[..|b| - 1];
      OutputsOfAppend(a, b[..|b| - 1], id);
    }
  }

  lemma {:induction false} OutputsOfAll(rows: seq<OutputRow>, id: nat)
    requires forall k :: 0 <= k < |rows| ==> rows[k].txId == id
    ensures OutputsOf(rows, id) == rows
  {
    if rows != [] {
      var n := |rows| - 1;
      OutputsOfAll(rows[..n], id);
      assert rows == rows[..n] + [rows[n]];
    }
  }

  lemma {:induction false} OutputsOfNone(rows: seq<OutputRow>, id: nat)
    requires forall k :: 0 <= k < |rows| ==> rows[k].txId != id
    ensures OutputsOf(rows, id) == []
  {
    if rows != [] {
      var n := |rows| - 1;
      OutputsOfNone(rows[..n], id);
    }
  }
}
