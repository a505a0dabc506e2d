/** When the tables represent a ledger, and how each insert keeps the representation. */
module Refinement {
  import opened Types
  import opened LedgerSpec
  import opened Tables

  datatype Store = Store(
    blocks: seq<BlockRow>, txs: seq<TxRow>, inputs: seq<InputRow>, outputs: seq<OutputRow>,
    nextBlockId: nat, nextTxId: nat)

  // The parts of the representation. Each is recursive in the last row.

  ghost predicate RepBlocks(rows: seq<BlockRow>, blocks: seq<BlockRecord>) {
    |rows| == |blocks| &&
    (rows == [] ||
     (var n := |rows| - 1;
      && RepBlocks(rows[..n], blocks[..n])
      && BlockById(rows[..n], rows[n].blockId) == None
      && rows[n] == BlockRow(
           rows[n].blockId, n, blocks[n].hash, if n == 0 then None else Some(rows[n - 1].blockId),
           blocks[n].header.merkleTree, blocks[n].header.proposerPkey, blocks[n].header.timestamp)))
  }

  predicate RowMatches(row: TxRow, rec: TxRecord, blocks: seq<BlockRow>) {
    && rec.height < |blocks|
    && row == TxRow(
         row.txId, blocks[rec.height].blockId, rec.index, rec.hash, rec.body.hashLink, rec.body.valueType,
         rec.body.voteType, rec.body.duration, rec.body.senderEphemeralPkey, rec.body.votersSumPkey, rec.sig)
  }

  ghost predicate RepTxs(rows: seq<TxRow>, txs: seq<TxRecord>, blocks: seq<BlockRow>) {
    |rows| == |txs| &&
    (rows == [] ||
     (var n := |rows| - 1;
      && RepTxs(rows[..n], txs[..n], blocks)
      && TxById(rows[..n], rows[n].txId) == None
      && RowMatches(rows[n], txs[n], blocks)))
  }

  /** The input rows of the last transaction: in order, each joined to the transaction it names. */
  ghost predicate InputGroup(group: seq<InputRow>, rows: seq<TxRow>, inputs: seq<Input>)
    requires rows != []
  {
    && |group| == |inputs|
    && InOrder(group, InputIndex)
    && forall k :: 0 <= k < |group| ==>
         && group[k].txId == rows[|rows| - 1].txId
         && group[k].outputIndex == inputs[k].outputIndex
         && TxById(rows, group[k].prevTxId).Some?
         && TxById(rows, group[k].prevTxId).value.txHash == inputs[k].prevTxHash
  }

  ghost predicate RepInputs(inputs: seq<InputRow>, rows: seq<TxRow>, txs: seq<TxRecord>)
    decreases |txs|
  {
    |rows| == |txs| &&
    if txs == [] then inputs == []
    else
      var n, rest := |txs| - 1, |inputs| - |txs[|txs| - 1].body.inputs|;
      && rest >= 0
      && RepInputs(inputs[..rest], rows[..n], txs[..n])
      && InputGroup(inputs[rest..], rows, txs[n].body.inputs)
  }

  ghost predicate OutputGroup(group: seq<OutputRow>, txId: nat, outputs: seq<Output>) {
    && |group| == |outputs|
    && forall k :: 0 <= k < |group| ==>
         group[k] == OutputRow(
           txId, k, outputs[k].value, outputs[k].receiverSpendPkey, outputs[k].receiverScanPkey, group[k].isSpentByTx)
  }

  ghost predicate RepOutputs(outputs: seq<OutputRow>, rows: seq<TxRow>, txs: seq<TxRecord>)
    decreases |txs|
  {
    |rows| == |txs| &&
    if txs == [] then outputs == []
    else
      var n, rest := |txs| - 1, |outputs| - |txs[|txs| - 1].body.outputs|;
      && rest >= 0
      && RepOutputs(outputs[..rest], rows[..n], txs[..n])
      && OutputGroup(outputs[rest..], rows[n].txId, txs[n].body.outputs)
  }

  /** The joined row of the UTXO queries, before their WHERE. */
  function Join(o: OutputRow, txs: seq<TxRow>, blocks: seq<BlockRow>): Option<Coin> {
    match TxById(txs, o.txId)
    case None => None
    case Some(tx) =>
      match BlockById(blocks, tx.blockId)
      case None => None
      case Some(block) =>
        Some(Coin(
          Utxo(tx.txHash, if tx.voteType != 0 then tx.txHash else tx.valueType,
               o.index, o.value, o.receiverSpendPkey, o.receiverScanPkey, block.timestamp),
          tx.voteType))
  }

  function Unspent(outputs: seq<OutputRow>, txs: seq<TxRow>, blocks: seq<BlockRow>): seq<Coin> {
    if outputs == [] then []
    else
      var rest, last := Unspent(outputs[..|outputs| - 1], txs, blocks), outputs[|outputs| - 1];
      if last.isSpentByTx.None? && Join(last, txs, blocks).Some? then rest + [Join(last, txs, blocks).value] else rest
  }

  ghost predicate IdsBelow(s: Store) {
    && (forall r :: r in s.blocks ==> r.blockId < s.nextBlockId)
    && (forall r :: r in s.txs ==> r.txId < s.nextTxId && r.blockId < s.nextBlockId)
    && (forall r :: r in s.inputs ==> r.prevTxId <= r.txId < s.nextTxId)
    && (forall r :: r in s.outputs ==> r.txId < s.nextTxId)
  }

  /** Transactions of one block are stored in the order of their index. */
  ghost predicate TxsInOrder(rows: seq<TxRow>) {
    forall i, j :: 0 <= i < j < |rows| && rows[i].blockId == rows[j].blockId ==> rows[i].index < rows[j].index
  }

  ghost predicate Rep(s: Store, l: Ledger) {
    && RepBlocks(s.blocks, l.blocks)
    && RepTxs(s.txs, l.txs, s.blocks)
    && RepInputs(s.inputs, s.txs, l.txs)
    && RepOutputs(s.outputs, s.txs, l.txs)
    && Unspent(s.outputs, s.txs, s.blocks) == l.coins
    && MarksExact(s.outputs, s.inputs)
    && IdsBelow(s)
    && TxsInOrder(s.txs)
  }

  // Facts about represented rows.

  lemma {:induction false} RepBlockAt(rows: seq<BlockRow>, blocks: seq<BlockRecord>, i: nat)
    requires RepBlocks(rows, blocks) && i < |rows|
    ensures rows[i] == BlockRow(
              rows[i].blockId, i, blocks[i].hash, if i == 0 then None else Some(rows[i - 1].blockId),
              blocks[i].header.merkleTree, blocks[i].header.proposerPkey, blocks[i].header.timestamp)
    ensures BlockById(rows, rows[i].blockId) == Some(rows[i])
  {
    var n := |rows| - 1;
    if i < n {
      RepBlockAt(rows[..n], blocks[..n], i);
    }
  }

  lemma {:induction false} RepTxAt(rows: seq<TxRow>, txs: seq<TxRecord>, blocks: seq<BlockRow>, i: nat)
    requires RepTxs(rows, txs, blocks) && i < |rows|
    ensures RowMatches(rows[i], txs[i], blocks)
    ensures TxById(rows, rows[i].txId) == Some(rows[i])
  {
    var n := |rows| - 1;
    if i < n {
      RepTxAt(rows[..n], txs[..n], blocks, i);
    }
  }

  /** The hash index finds the same transaction in the table and in the ledger. */
  lemma {:induction false} RepFind(rows: seq<TxRow>, txs: seq<TxRecord>, blocks: seq<BlockRow>, hash: Bytes)
    requires RepTxs(rows, txs, blocks)
    ensures TxByHash(rows, hash).Some? <==> FindTx(txs, hash).Some?
    ensures TxByHash(rows, hash).Some? ==>
              exists i :: 0 <= i < |rows| && TxByHash(rows, hash) == Some(rows[i]) && FindTx(txs, hash) == Some(txs[i])
                && rows[i].txHash == hash
  {
    if rows != [] {
      var n := |rows| - 1;
      RepFind(rows[..n], txs[..n], blocks, hash);
      if txs[n].hash == hash {
        assert TxByHash(rows, hash) == Some(rows[n]) && FindTx(txs, hash) == Some(txs[n]);
      } else if TxByHash(rows[..n], hash).Some? {
        var i :| 0 <= i < n
          && TxByHash(rows[..n], hash) == Some(rows[..n][i]) && FindTx(txs[..n], hash) == Some(txs[..n][i])
          && rows[..n][i].txHash == hash;
        assert rows[i] == rows[..n][i];
      }
    }
  }

  lemma {:induction false} RepTxsGrowBlocks(rows: seq<TxRow>, txs: seq<TxRecord>, blocks: seq<BlockRow>, more: BlockRow)
    requires RepTxs(rows, txs, blocks)
    ensures RepTxs(rows, txs, blocks + [more])
  {
    if rows != [] {
      var n := |rows| - 1;
      RepTxsGrowBlocks(rows[..n], txs[..n], blocks, more);
    }
  }

  // The parts that a new row does not touch.

  lemma {:induction false} UnspentGrowTxs(outputs: seq<OutputRow>, txs: seq<TxRow>, blocks: seq<BlockRow>, row: TxRow)
    requires forall k :: 0 <= k < |outputs| ==> outputs[k].txId != row.txId
    ensures Unspent(outputs, txs + [row], blocks) == Unspent(outputs, txs, blocks)
  {
    if outputs != [] {
      var n := |outputs| - 1;
      UnspentGrowTxs(outputs[..n], txs, blocks, row);
      TxByIdSnoc(txs, row, outputs[n].txId);
    }
  }

  lemma {:induction false} UnspentGrowBlocks(
    outputs: seq<OutputRow>, txs: seq<TxRow>, blocks: seq<BlockRow>, row: BlockRow)
    requires forall r :: r in txs ==> r.blockId != row.blockId
    ensures Unspent(outputs, txs, blocks + [row]) == Unspent(outputs, txs, blocks)
  {
    if outputs != [] {
      var n := |outputs| - 1;
      UnspentGrowBlocks(outputs[..n], txs, blocks, row);
      var id := outputs[n].txId;
      TxByIdBelow(txs, id);
      if TxById(txs, id).Some? {
        BlockByIdSnoc(blocks, row, TxById(txs, id).value.blockId);
      }
    }
  }

  /** Marking the output that an input names removes its coin. */
  lemma {:induction false} UnspentMarked(
    outputs: seq<OutputRow>, txs: seq<TxRow>, blocks: seq<BlockRow>, prev: TxRow, index: nat, spender: nat)
    requires TxById(txs, prev.txId) == Some(prev)
    requires forall r :: r in txs && r.txHash == prev.txHash ==> r.txId == prev.txId
    ensures Unspent(MarkSpent(outputs, prev.txId, index, spender), txs, blocks)
         == Remaining(Unspent(outputs, txs, blocks), [Input(prev.txHash, index)])
  {
    if outputs != [] {
      var n := |outputs| - 1;
      var rest, last := outputs[..n], outputs[n];
      UnspentMarked(rest, txs, blocks, prev, index, spender);
      var p := Input(prev.txHash, index);
      TxByIdBelow(txs, last.txId);
      var marked := MarkSpent(outputs, prev.txId, index, spender);
      assert marked[..|rest|] == MarkSpent(rest, prev.txId, index, spender);
      if last.isSpentByTx.None? && Join(last, txs, blocks).Some? {
        var c := Join(last, txs, blocks).value;
        assert (Unspent(rest, txs, blocks) + [c])[..|Unspent(rest, txs, blocks)|] == Unspent(rest, txs, blocks);
        assert Point(c) == p <==> last.txId == prev.txId && last.index == index;
        assert Point(c) in [p] <==> Point(c) == p;
      }
    }
  }

  lemma {:induction false} GroupIgnoresMarks(
    outputs: seq<OutputRow>, prevTxId: nat, index: nat, spender: nat, rest: nat, txId: nat, group: seq<Output>)
    requires rest <= |outputs| && OutputGroup(outputs[rest..], txId, group)
    ensures OutputGroup(MarkSpent(outputs, prevTxId, index, spender)[rest..], txId, group)
  {
    var marked := MarkSpent(outputs, prevTxId, index, spender)[rest..];
    forall k | 0 <= k < |marked| ensures marked[k] == outputs[rest..][k].(isSpentByTx := marked[k].isSpentByTx) {
      MarkSpentAt(outputs, prevTxId, index, spender, rest + k);
    }
  }

  lemma {:induction false} RepOutputsIgnoresMarks(
    outputs: seq<OutputRow>, prevTxId: nat, index: nat, spender: nat, rows: seq<TxRow>, txs: seq<TxRecord>)
    requires RepOutputs(outputs, rows, txs)
    ensures RepOutputs(MarkSpent(outputs, prevTxId, index, spender), rows, txs)
    decreases |txs|
  {
    if txs != [] {
      var n, rest := |txs| - 1, |outputs| - |txs[|txs| - 1].body.outputs|;
      RepOutputsIgnoresMarks(outputs[..rest], prevTxId, index, spender, rows[..n], txs[..n]);
      MarkSpentPrefix(outputs, prevTxId, index, spender, rest);
      GroupIgnoresMarks(outputs, prevTxId, index, spender, rest, rows[n].txId, txs[n].body.outputs);
    }
  }

  lemma {:induction false} MarkSpentPrefix(outputs: seq<OutputRow>, prevTxId: nat, index: nat, spender: nat, n: nat)
    requires n <= |outputs|
    ensures MarkSpent(outputs, prevTxId, index, spender)[..n] == MarkSpent(outputs[..n], prevTxId, index, spender)
  {
    if n == |outputs| {
      assert outputs[..n] == outputs;
    } else {
      MarkSpentPrefix(outputs[..|outputs| - 1], prevTxId, index, spender, n);
      assert outputs[..|outputs| - 1][..n] == outputs[..n];
    }
  }

  lemma {:induction false} OutputIdsKnown(outputs: seq<OutputRow>, rows: seq<TxRow>, txs: seq<TxRecord>)
    requires RepOutputs(outputs, rows, txs)
    ensures forall k :: 0 <= k < |outputs| ==> TxById(rows, outputs[k].txId).Some?
    decreases |txs|
  {
    if txs != [] {
      var n, rest := |txs| - 1, |outputs| - |txs[|txs| - 1].body.outputs|;
      OutputIdsKnown(outputs[..rest], rows[..n], txs[..n]);
      forall k | 0 <= k < |outputs| ensures TxById(rows, outputs[k].txId).Some? {
        if k >= rest {
          assert outputs[k] == outputs[rest..][k - rest];
        } else {
          assert outputs[k] == outputs[..rest][k];
        }
      }
    }
  }

  lemma {:induction false} InputIdsKnown(inputs: seq<InputRow>, rows: seq<TxRow>, txs: seq<TxRecord>)
    requires RepInputs(inputs, rows, txs)
    ensures forall k :: 0 <= k < |inputs| ==> TxById(rows, inputs[k].txId).Some?
    decreases |txs|
  {
    if txs != [] {
      var n, rest := |txs| - 1, |inputs| - |txs[|txs| - 1].body.inputs|;
      InputIdsKnown(inputs[..rest], rows[..n], txs[..n]);
      forall k | 0 <= k < |inputs| ensures TxById(rows, inputs[k].txId).Some? {
        if k >= rest {
          assert inputs[k] == inputs[rest..][k - rest];
        } else {
          assert inputs[k] == inputs[..rest][k];
        }
      }
    }
  }

  // The inserts.

  /** The ledger after one more stored input of its last transaction. */
  function WithInput(l: Ledger, p: Input): Ledger
    requires l.txs != []
  {
    var n := |l.txs| - 1;
    var body := l.txs[n].body;
    l.(txs := l.txs[..n] + [l.txs[n].(body := body.(inputs := body.inputs + [p]))],
       coins := Remaining(l.coins, [p]))
  }

  /** The ledger after one more output of its last transaction. */
  function WithOutput(l: Ledger, out: Output): Ledger
    requires l.txs != [] && l.txs[|l.txs| - 1].height < |l.blocks|
  {
    var n := |l.txs| - 1;
    var body := l.txs[n].body;
    var rec := l.txs[n].(body := body.(outputs := body.outputs + [out]));
    l.(txs := l.txs[..n] + [rec],
       coins := l.coins + [CoinAt(rec, TimeOf(l, rec), |body.outputs|)])
  }

  lemma {:induction false} IdsAfterBlock(s: Store, row: BlockRow)
    requires IdsBelow(s) && row.blockId == s.nextBlockId
    ensures IdsBelow(s.(blocks := s.blocks + [row], nextBlockId := s.nextBlockId + 1))
  {}

  lemma {:induction false} RepAddBlock(s: Store, l: Ledger, b: Block, row: BlockRow)
    requires Rep(s, l) && row.blockId == s.nextBlockId
    requires row == BlockRow(
               row.blockId, |s.blocks|, b.hash, if s.blocks == [] then None else Some(s.blocks[|s.blocks| - 1].blockId),
               b.header.merkleTree, b.header.proposerPkey, b.header.timestamp)
    ensures Rep(s.(blocks := s.blocks + [row], nextBlockId := s.nextBlockId + 1), AddBlock(l, b))
  {
    var rows, blocks := s.blocks + [row], AddBlock(l, b).blocks;
    assert RepBlocks(rows, blocks) by {
      assert rows[..|s.blocks|] == s.blocks && blocks[..|l.blocks|] == l.blocks;
      BlockByIdBelow(s.blocks, row.blockId);
    }
    RepTxsGrowBlocks(s.txs, l.txs, s.blocks, row);
    UnspentGrowBlocks(s.outputs, s.txs, s.blocks, row);
    IdsAfterBlock(s, row);
  }

  lemma {:induction false} BlockByIdBelow(rows: seq<BlockRow>, id: nat)
    ensures BlockById(rows, id).Some? ==> BlockById(rows, id).value in rows && BlockById(rows, id).value.blockId == id
  {
    if rows != [] {
      var n := |rows| - 1;
      BlockByIdBelow(rows[..n], id);
    }
  }

  lemma {:induction false} RepTxsSnoc(
    rows: seq<TxRow>, txs: seq<TxRecord>, blocks: seq<BlockRow>, row: TxRow, rec: TxRecord)
    requires RepTxs(rows, txs, blocks) && RowMatches(row, rec, blocks)
    requires forall r :: r in rows ==> r.txId != row.txId
    ensures RepTxs(rows + [row], txs + [rec], blocks)
  {
    assert (rows + [row])[..|rows|] == rows && (txs + [rec])[..|txs|] == txs;
    TxByIdBelow(rows, row.txId);
  }

  lemma {:induction false} EmptyGroup(rows: seq<TxRow>)
    requires rows != []
    ensures InputGroup([], rows, [])
  {}

  lemma {:induction false} RepInputsNewTx(
    inputs: seq<InputRow>, rows: seq<TxRow>, txs: seq<TxRecord>, row: TxRow, rec: TxRecord)
    requires RepInputs(inputs, rows, txs) && rec.body.inputs == []
    ensures RepInputs(inputs, rows + [row], txs + [rec])
  {
    EmptyGroup(rows + [row]);
    assert (rows + [row])[..|rows|] == rows && (txs + [rec])[..|txs|] == txs;
    assert inputs[..|inputs|] == inputs && inputs[|inputs|..] == [];
  }

  lemma {:induction false} RepOutputsNewTx(
    outputs: seq<OutputRow>, rows: seq<TxRow>, txs: seq<TxRecord>, row: TxRow, rec: TxRecord)
    requires RepOutputs(outputs, rows, txs) && rec.body.outputs == []
    ensures RepOutputs(outputs, rows + [row], txs + [rec])
  {
    assert (rows + [row])[..|rows|] == rows && (txs + [rec])[..|txs|] == txs;
    assert outputs[..|outputs|] == outputs;
  }

  lemma {:induction false} ApplyBareTx(l: Ledger, rec: TxRecord)
    requires rec.height < |l.blocks| && rec.body.inputs == [] && rec.body.outputs == []
    ensures ApplyTx(l, rec) == l.(txs := l.txs + [rec])
  {
    RemainingUntouched(l.coins, []);
    assert l.coins + [] == l.coins;
  }

  lemma {:induction false} TxsInOrderSnoc(rows: seq<TxRow>, row: TxRow)
    requires TxsInOrder(rows)
    requires forall r :: r in rows && r.blockId == row.blockId ==> r.index < row.index
    ensures TxsInOrder(rows + [row])
  {}

  lemma {:induction false} IdsAfterTx(s: Store, row: TxRow)
    requires IdsBelow(s) && row.txId == s.nextTxId && row.blockId < s.nextBlockId
    ensures IdsBelow(s.(txs := s.txs + [row], nextTxId := s.nextTxId + 1))
  {}

  lemma {:induction false} RepAddTx(s: Store, l: Ledger, row: TxRow, rec: TxRecord)
    requires Rep(s, l) && row.txId == s.nextTxId && row.blockId < s.nextBlockId
    requires RowMatches(row, rec, s.blocks) && rec.body.inputs == [] && rec.body.outputs == []
    requires forall r :: r in s.txs && r.blockId == row.blockId ==> r.index < row.index
    ensures Rep(s.(txs := s.txs + [row], nextTxId := s.nextTxId + 1), ApplyTx(l, rec))
  {
    RepTxsSnoc(s.txs, l.txs, s.blocks, row, rec);
    RepInputsNewTx(s.inputs, s.txs, l.txs, row, rec);
    RepOutputsNewTx(s.outputs, s.txs, l.txs, row, rec);
    UnspentGrowTxs(s.outputs, s.txs, s.blocks, row);
    TxsInOrderSnoc(s.txs, row);
    IdsAfterTx(s, row);
    ApplyBareTx(l, rec);
  }

  lemma {:induction false} GroupSnoc(
    group: seq<InputRow>, rows: seq<TxRow>, inputs: seq<Input>, r: InputRow, p: Input)
    requires rows != [] && InputGroup(group, rows, inputs)
    requires r.txId == rows[|rows| - 1].txId && r.outputIndex == p.outputIndex
    requires TxById(rows, r.prevTxId).Some? && TxById(rows, r.prevTxId).value.txHash == p.prevTxHash
    requires forall k :: 0 <= k < |group| ==> group[k].index < r.index
    ensures InputGroup(group + [r], rows, inputs + [p])
  {}

  lemma {:induction false} RepInputsSnoc(inputs: seq<InputRow>, rows: seq<TxRow>, l: Ledger, r: InputRow, p: Input)
    requires l.txs != [] && RepInputs(inputs, rows, l.txs)
    requires r.txId == rows[|rows| - 1].txId && r.outputIndex == p.outputIndex
    requires TxById(rows, r.prevTxId).Some? && TxById(rows, r.prevTxId).value.txHash == p.prevTxHash
    requires forall q :: q in inputs && q.txId == r.txId ==> q.index < r.index
    ensures RepInputs(inputs + [r], rows, WithInput(l, p).txs)
  {
    var n, rest := |l.txs| - 1, |inputs| - |l.txs[|l.txs| - 1].body.inputs|;
    var txs := WithInput(l, p).txs;
    assert txs[..n] == l.txs[..n];
    var group := inputs[rest..];
    assert (inputs + [r])[..rest] == inputs[..rest] && (inputs + [r])[rest..] == group + [r];
    forall k | 0 <= k < |group| ensures group[k].index < r.index {
      assert group[k] == inputs[rest + k];
    }
    GroupSnoc(group, rows, l.txs[n].body.inputs, r, p);
  }

  lemma {:induction false} RepOutputsSameOutputs(outputs: seq<OutputRow>, rows: seq<TxRow>, l: Ledger, p: Input)
    requires l.txs != [] && RepOutputs(outputs, rows, l.txs)
    ensures RepOutputs(outputs, rows, WithInput(l, p).txs)
  {
    assert WithInput(l, p).txs[..|l.txs| - 1] == l.txs[..|l.txs| - 1];
  }

  lemma {:induction false} RepTxsSameRow(rows: seq<TxRow>, blocks: seq<BlockRow>, txs: seq<TxRecord>, rec: TxRecord)
    requires txs != [] && RepTxs(rows, txs, blocks)
    requires RowMatches(rows[|rows| - 1], rec, blocks)
    ensures RepTxs(rows, txs[..|txs| - 1] + [rec], blocks)
  {
    assert (txs[..|txs| - 1] + [rec])[..|txs| - 1] == txs[..|txs| - 1];
  }

  /** The last transaction has no output rows yet. */
  lemma {:induction false} NoOutputsYet(s: Store, l: Ledger)
    requires Rep(s, l) && l.txs != [] && l.txs[|l.txs| - 1].body.outputs == []
    ensures forall k :: 0 <= k < |s.outputs| ==> s.outputs[k].txId != s.txs[|s.txs| - 1].txId
  {
    var n := |l.txs| - 1;
    assert s.outputs[..|s.outputs|] == s.outputs;
    OutputIdsKnown(s.outputs, s.txs[..n], l.txs[..n]);
  }

  lemma {:induction false} IdsAfterInput(s: Store, r: InputRow)
    requires IdsBelow(s) && r.prevTxId <= r.txId < s.nextTxId
    ensures IdsBelow(s.(inputs := s.inputs + [r], outputs := MarkSpent(s.outputs, r.prevTxId, r.outputIndex, r.txId)))
  {
    IdsAfterMark(s.outputs, r.prevTxId, r.outputIndex, r.txId, s.nextTxId);
  }

  lemma {:induction false} RepsAddInput(s: Store, l: Ledger, p: Input, r: InputRow)
    requires RepTxs(s.txs, l.txs, s.blocks) && RepInputs(s.inputs, s.txs, l.txs) && RepOutputs(s.outputs, s.txs, l.txs)
    requires l.txs != [] && r.txId == s.txs[|s.txs| - 1].txId && r.outputIndex == p.outputIndex
    requires TxById(s.txs, r.prevTxId).Some? && TxById(s.txs, r.prevTxId).value.txHash == p.prevTxHash
    requires forall q :: q in s.inputs && q.txId == r.txId ==> q.index < r.index
    ensures var txs := WithInput(l, p).txs;
      && RepTxs(s.txs, txs, s.blocks) && RepInputs(s.inputs + [r], s.txs, txs)
      && RepOutputs(MarkSpent(s.outputs, r.prevTxId, r.outputIndex, r.txId), s.txs, txs)
  {
    var n := |s.txs| - 1;
    RepTxAt(s.txs, l.txs, s.blocks, n);
    RepTxsSameRow(s.txs, s.blocks, l.txs, WithInput(l, p).txs[n]);
    RepInputsSnoc(s.inputs, s.txs, l, r, p);
    RepOutputsIgnoresMarks(s.outputs, r.prevTxId, r.outputIndex, r.txId, s.txs, l.txs);
    RepOutputsSameOutputs(MarkSpent(s.outputs, r.prevTxId, r.outputIndex, r.txId), s.txs, l, p);
  }

  /** An input that names a stored transaction: a row is added and the trigger marks the output. */
  lemma {:induction false} RepAddInput(s: Store, l: Ledger, p: Input, prev: TxRow, k: nat)
    requires Rep(s, l) && l.txs != [] && l.txs[|l.txs| - 1].body.outputs == []
    requires TxById(s.txs, prev.txId) == Some(prev) && prev.txHash == p.prevTxHash
    requires prev.txId <= s.txs[|s.txs| - 1].txId
    requires forall r :: r in s.txs && r.txHash == prev.txHash ==> r.txId == prev.txId
    requires forall q :: q in s.inputs && q.txId == s.txs[|s.txs| - 1].txId ==> q.index < k
    ensures var txId := s.txs[|s.txs| - 1].txId;
      Rep(s.(inputs := s.inputs + [InputRow(txId, k, prev.txId, p.outputIndex)],
             outputs := MarkSpent(s.outputs, prev.txId, p.outputIndex, txId)),
          WithInput(l, p))
  {
    var n := |s.txs| - 1;
    var r := InputRow(s.txs[n].txId, k, prev.txId, p.outputIndex);
    RepsAddInput(s, l, p, r);
    UnspentMarked(s.outputs, s.txs, s.blocks, prev, p.outputIndex, r.txId);
    NoOutputsYet(s, l);
    MarksAfterInput(s.outputs, s.inputs, r);
    IdsAfterInput(s, r);
  }

  lemma {:induction false} IdsAfterMark(outputs: seq<OutputRow>, prevTxId: nat, index: nat, spender: nat, bound: nat)
    requires forall o :: o in outputs ==> o.txId < bound
    ensures forall o :: o in MarkSpent(outputs, prevTxId, index, spender) ==> o.txId < bound
  {
    forall k | 0 <= k < |outputs| ensures MarkSpent(outputs, prevTxId, index, spender)[k].txId < bound {
      MarkSpentAt(outputs, prevTxId, index, spender, k);
    }
  }

  lemma {:induction false} RepOutputsSnoc(
    outputs: seq<OutputRow>, rows: seq<TxRow>, txs: seq<TxRecord>, o: OutputRow, rec: TxRecord, out: Output)
    requires txs != [] && RepOutputs(outputs, rows, txs)
    requires rec == txs[|txs| - 1].(body := txs[|txs| - 1].body.(outputs := txs[|txs| - 1].body.outputs + [out]))
    requires o == OutputRow(
               rows[|rows| - 1].txId, |txs[|txs| - 1].body.outputs|,
               out.value, out.receiverSpendPkey, out.receiverScanPkey, None)
    ensures RepOutputs(outputs + [o], rows, txs[..|txs| - 1] + [rec])
  {
    var n, rest := |txs| - 1, |outputs| - |txs[|txs| - 1].body.outputs|;
    assert (txs[..n] + [rec])[..n] == txs[..n];
    assert (outputs + [o])[..rest] == outputs[..rest] && (outputs + [o])[rest..] == outputs[rest..] + [o];
  }

  lemma {:induction false} RepInputsSameInputs(
    inputs: seq<InputRow>, rows: seq<TxRow>, txs: seq<TxRecord>, rec: TxRecord)
    requires txs != [] && RepInputs(inputs, rows, txs) && rec.body.inputs == txs[|txs| - 1].body.inputs
    ensures RepInputs(inputs, rows, txs[..|txs| - 1] + [rec])
  {
    assert (txs[..|txs| - 1] + [rec])[..|txs| - 1] == txs[..|txs| - 1];
  }

  /** The row of the next output of the last transaction. */
  function NextOutputRow(s: Store, l: Ledger, out: Output): OutputRow
    requires s.txs != [] && l.txs != []
  {
    OutputRow(
      s.txs[|s.txs| - 1].txId, |l.txs[|l.txs| - 1].body.outputs|,
      out.value, out.receiverSpendPkey, out.receiverScanPkey, None)
  }

  lemma {:induction false} UnspentNewOutput(s: Store, l: Ledger, out: Output)
    requires RepBlocks(s.blocks, l.blocks) && RepTxs(s.txs, l.txs, s.blocks) && l.txs != []
    requires l.txs[|l.txs| - 1].height < |l.blocks| && Unspent(s.outputs, s.txs, s.blocks) == l.coins
    ensures Unspent(s.outputs + [NextOutputRow(s, l, out)], s.txs, s.blocks) == WithOutput(l, out).coins
  {
    var o := NextOutputRow(s, l, out);
    RepTxAt(s.txs, l.txs, s.blocks, |l.txs| - 1);
    RepBlockAt(s.blocks, l.blocks, l.txs[|l.txs| - 1].height);
    assert (s.outputs + [o])[..|s.outputs|] == s.outputs;
  }

  lemma {:induction false} RepsAddOutput(s: Store, l: Ledger, out: Output)
    requires RepTxs(s.txs, l.txs, s.blocks) && RepInputs(s.inputs, s.txs, l.txs) && RepOutputs(s.outputs, s.txs, l.txs)
    requires l.txs != [] && l.txs[|l.txs| - 1].height < |l.blocks|
    ensures var o, txs := NextOutputRow(s, l, out), WithOutput(l, out).txs;
      RepTxs(s.txs, txs, s.blocks) && RepInputs(s.inputs, s.txs, txs) && RepOutputs(s.outputs + [o], s.txs, txs)
  {
    var n := |s.txs| - 1;
    var rec := WithOutput(l, out).txs[n];
    RepTxAt(s.txs, l.txs, s.blocks, n);
    RepTxsSameRow(s.txs, s.blocks, l.txs, rec);
    RepInputsSameInputs(s.inputs, s.txs, l.txs, rec);
    RepOutputsSnoc(s.outputs, s.txs, l.txs, NextOutputRow(s, l, out), rec, out);
  }

  lemma {:induction false} RepAddOutput(s: Store, l: Ledger, out: Output)
    requires Rep(s, l) && l.txs != [] && l.txs[|l.txs| - 1].height < |l.blocks|
    requires forall r :: r in s.inputs && r.prevTxId == s.txs[|s.txs| - 1].txId ==> r.txId == s.txs[|s.txs| - 1].txId
    ensures Rep(s.(outputs := s.outputs + [NextOutputRow(s, l, out)]), WithOutput(l, out))
  {
    RepsAddOutput(s, l, out);
    UnspentNewOutput(s, l, out);
    MarksAfterOutput(s.outputs, s.inputs, NextOutputRow(s, l, out));
  }
}
