/** What the queries of the database read back from a represented ledger. */
module Loading {
  import opened Types
  import opened Crypto
  import opened LedgerSpec
  import opened WellFormed
  import opened Tables
  import opened Refinement

  // On the ledger.

  /** A stored transaction as it is read back: its body is serialized anew. */
  function StoredTx(rec: TxRecord): Transaction {
    Transaction(EncodeBody(rec.body), rec.hash, rec.sig)
  }

  function TxsAt(txs: seq<TxRecord>, height: nat): seq<Transaction> {
    if txs == [] then []
    else
      var rest := TxsAt(txs[..|txs| - 1], height);
      if txs[|txs| - 1].height == height then rest + [StoredTx(txs[|txs| - 1])] else rest
  }

  /** Block i as it is read back. */
  function LoadBlock(l: Ledger, i: nat): Block
    requires i < |l.blocks|
  {
    Block(l.blocks[i].header, TxsAt(l.txs, i), l.blocks[i].hash)
  }

  /** The WHERE clauses of the three UTXO queries. */
  datatype Query = ByPkey(pkey: Bytes) | ByTxHash(txHash: Bytes) | ByTypeValue(typeValue: Bytes)

  predicate Selected(q: Query, c: Coin) {
    match q
    case ByPkey(pkey) => c.utxo.receiverSpendPkey == pkey || c.utxo.receiverScanPkey == pkey
    case ByTxHash(txHash) => c.utxo.txHash == txHash
    case ByTypeValue(typeValue) => c.voteType == 0 && c.utxo.valueType == typeValue
  }

  function Answer(coins: seq<Coin>, q: Query): seq<Utxo> {
    if coins == [] then []
    else
      var rest := Answer(coins[..|coins| - 1], q);
      if Selected(q, coins[|coins| - 1]) then rest + [coins[|coins| - 1].utxo] else rest
  }

  lemma {:induction false} AnswerMember(coins: seq<Coin>, q: Query, u: Utxo)
    ensures u in Answer(coins, q) <==> exists c :: c in coins && c.utxo == u && Selected(q, c)
  {
    if coins != [] {
      var n := |coins| - 1;
      AnswerMember(coins[..n], q, u);
      assert coins == coins[..n] + [coins[n]];
    }
  }

  // On the tables.

  function JoinInputs(rows: seq<InputRow>, txs: seq<TxRow>): seq<Input> {
    if rows == [] then []
    else
      var rest, last := JoinInputs(rows[..|rows| - 1], txs), rows[|rows| - 1];
      match TxById(txs, last.prevTxId)
      case None => rest
      case Some(prev) => rest + [Input(prev.txHash, last.outputIndex)]
  }

  function ReadOutputs(rows: seq<OutputRow>): seq<Output> {
    if rows == [] then []
    else
      var last := rows[|rows| - 1];
      ReadOutputs(rows[..|rows| - 1]) + [Output(last.receiverSpendPkey, last.receiverScanPkey, last.value)]
  }

  function ReadBody(s: Store, row: TxRow): TxBody {
    TxBody(
      JoinInputs(OrderBy(InputsOf(s.inputs, row.txId), InputIndex), s.txs),
      ReadOutputs(OrderBy(OutputsOf(s.outputs, row.txId), OutputIndex)),
      row.hashLink, row.valueType, row.voteType, row.duration, row.senderEphemeralPkey, row.votersSumPkey)
  }

  function ReadTx(s: Store, row: TxRow): Transaction {
    Transaction(EncodeBody(ReadBody(s, row)), row.txHash, row.signature)
  }

  function ReadTxs(s: Store, rows: seq<TxRow>): seq<Transaction> {
    if rows == [] then [] else ReadTxs(s, rows[..|rows| - 1]) + [ReadTx(s, rows[|rows| - 1])]
  }

  // One transaction.

  lemma {:induction false} TxByIdLater(rows: seq<TxRow>, txs: seq<TxRecord>, blocks: seq<BlockRow>, m: nat, id: nat)
    requires RepTxs(rows, txs, blocks) && m <= |rows| && TxById(rows[..m], id).Some?
    ensures TxById(rows, id) == TxById(rows[..m], id)
  {
    if m == |rows| {
      assert rows[..m] == rows;
    } else {
      var n := |rows| - 1;
      assert rows[..n][..m] == rows[..m];
      TxByIdLater(rows[..n], txs[..n], blocks, m, id);
    }
  }

  lemma {:induction false} LastTxIsOther(rows: seq<TxRow>, txs: seq<TxRecord>, blocks: seq<BlockRow>, i: nat)
    requires RepTxs(rows, txs, blocks) && i < |rows| - 1
    ensures rows[i].txId != rows[|rows| - 1].txId
  {
    var n := |rows| - 1;
    RepTxAt(rows[..n], txs[..n], blocks, i);
  }

  lemma {:induction false} InputsOfLast(
    before: seq<InputRow>, group: seq<InputRow>, rows: seq<TxRow>, txs: seq<TxRecord>, id: nat)
    requires RepInputs(before, rows, txs) && TxById(rows, id) == None
    requires forall k :: 0 <= k < |group| ==> group[k].txId == id
    ensures InputsOf(before + group, id) == group
  {
    InputIdsKnown(before, rows, txs);
    InputsOfNone(before, id);
    InputsOfAll(group, id);
    InputsOfAppend(before, group, id);
  }

  lemma {:induction false} InputsOfEarlier(before: seq<InputRow>, group: seq<InputRow>, id: nat)
    requires forall k :: 0 <= k < |group| ==> group[k].txId != id
    ensures InputsOf(before + group, id) == InputsOf(before, id)
  {
    InputsOfNone(group, id);
    InputsOfAppend(before, group, id);
  }

  /** The rows of transaction i form its group, whatever comes before or after. */
  lemma {:induction false} InputsOfTx(
    inputs: seq<InputRow>, rows: seq<TxRow>, txs: seq<TxRecord>, blocks: seq<BlockRow>, i: nat)
    requires RepInputs(inputs, rows, txs) && RepTxs(rows, txs, blocks) && i < |txs|
    ensures InputGroup(InputsOf(inputs, rows[i].txId), rows[..i + 1], txs[i].body.inputs)
    decreases |txs|
  {
    var n, rest := |txs| - 1, |inputs| - |txs[|txs| - 1].body.inputs|;
    var before, group := inputs[..rest], inputs[rest..];
    assert inputs == before + group;
    if i == n {
      assert rows[..i + 1] == rows;
      InputsOfLast(before, group, rows[..n], txs[..n], rows[i].txId);
    } else {
      assert rows[..n][..i + 1] == rows[..i + 1];
      LastTxIsOther(rows, txs, blocks, i);
      InputsOfEarlier(before, group, rows[i].txId);
      InputsOfTx(before, rows[..n], txs[..n], blocks, i);
    }
  }

  lemma {:induction false} OutputsOfLast(
    before: seq<OutputRow>, group: seq<OutputRow>, rows: seq<TxRow>, txs: seq<TxRecord>, id: nat)
    requires RepOutputs(before, rows, txs) && TxById(rows, id) == None
    requires forall k :: 0 <= k < |group| ==> group[k].txId == id
    ensures OutputsOf(before + group, id) == group
  {
    OutputIdsKnown(before, rows, txs);
    OutputsOfNone(before, id);
    OutputsOfAll(group, id);
    OutputsOfAppend(before, group, id);
  }

  lemma {:induction false} OutputsOfEarlier(before: seq<OutputRow>, group: seq<OutputRow>, id: nat)
    requires forall k :: 0 <= k < |group| ==> group[k].txId != id
    ensures OutputsOf(before + group, id) == OutputsOf(before, id)
  {
    OutputsOfNone(group, id);
    OutputsOfAppend(before, group, id);
  }

  lemma {:induction false} OutputsOfTx(
    outputs: seq<OutputRow>, rows: seq<TxRow>, txs: seq<TxRecord>, blocks: seq<BlockRow>, i: nat)
    requires RepOutputs(outputs, rows, txs) && RepTxs(rows, txs, blocks) && i < |txs|
    ensures OutputGroup(OutputsOf(outputs, rows[i].txId), rows[i].txId, txs[i].body.outputs)
    decreases |txs|
  {
    var n, rest := |txs| - 1, |outputs| - |txs[|txs| - 1].body.outputs|;
    var before, group := outputs[..rest], outputs[rest..];
    assert outputs == before + group;
    if i == n {
      OutputsOfLast(before, group, rows[..n], txs[..n], rows[i].txId);
    } else {
      LastTxIsOther(rows, txs, blocks, i);
      OutputsOfEarlier(before, group, rows[i].txId);
      OutputsOfTx(before, rows[..n], txs[..n], blocks, i);
    }
  }

  lemma {:induction false} JoinExact(group: seq<InputRow>, rows: seq<TxRow>, inputs: seq<Input>)
    requires |group| == |inputs|
    requires forall k :: 0 <= k < |group| ==>
               && group[k].outputIndex == inputs[k].outputIndex
               && TxById(rows, group[k].prevTxId).Some?
               && TxById(rows, group[k].prevTxId).value.txHash == inputs[k].prevTxHash
    ensures JoinInputs(group, rows) == inputs
  {
    if group != [] {
      var n := |group| - 1;
      JoinExact(group[..n], rows, inputs[..n]);
      assert inputs == inputs[..n] + [inputs[n]];
    }
  }

  lemma {:induction false} ReadOutputsExact(group: seq<OutputRow>, txId: nat, outputs: seq<Output>)
    requires OutputGroup(group, txId, outputs)
    ensures ReadOutputs(group) == outputs
  {
    if group != [] {
      var n := |group| - 1;
      ReadOutputsExact(group[..n], txId, outputs[..n]);
      assert outputs == outputs[..n] + [outputs[n]];
    }
  }

  lemma {:induction false} InputsReadBack(s: Store, txs: seq<TxRecord>, i: nat)
    requires RepInputs(s.inputs, s.txs, txs) && RepTxs(s.txs, txs, s.blocks) && i < |txs|
    ensures JoinInputs(OrderBy(InputsOf(s.inputs, s.txs[i].txId), InputIndex), s.txs) == txs[i].body.inputs
  {
    var group := InputsOf(s.inputs, s.txs[i].txId);
    InputsOfTx(s.inputs, s.txs, txs, s.blocks, i);
    OrderByInOrder(group, InputIndex);
    forall k | 0 <= k < |group| ensures TxById(s.txs, group[k].prevTxId) == TxById(s.txs[..i + 1], group[k].prevTxId) {
      TxByIdLater(s.txs, txs, s.blocks, i + 1, group[k].prevTxId);
    }
    JoinExact(group, s.txs, txs[i].body.inputs);
  }

  lemma {:induction false} OutputsReadBack(s: Store, txs: seq<TxRecord>, i: nat)
    requires RepOutputs(s.outputs, s.txs, txs) && RepTxs(s.txs, txs, s.blocks) && i < |txs|
    ensures ReadOutputs(OrderBy(OutputsOf(s.outputs, s.txs[i].txId), OutputIndex)) == txs[i].body.outputs
  {
    var group := OutputsOf(s.outputs, s.txs[i].txId);
    OutputsOfTx(s.outputs, s.txs, txs, s.blocks, i);
    OrderByInOrder(group, OutputIndex);
    ReadOutputsExact(group, s.txs[i].txId, txs[i].body.outputs);
  }

  lemma {:induction false} TxReadBack(s: Store, l: Ledger, i: nat)
    requires Rep(s, l) && i < |l.txs|
    ensures i < |s.txs| && ReadTx(s, s.txs[i]) == StoredTx(l.txs[i])
  {
    RepTxAt(s.txs, l.txs, s.blocks, i);
    InputsReadBack(s, l.txs, i);
    OutputsReadBack(s, l.txs, i);
  }

  // One block.

  lemma {:induction false} TxsOfMember(rows: seq<TxRow>, blockId: nat, r: TxRow)
    ensures r in TxsOf(rows, blockId) ==> r in rows && r.blockId == blockId
  {
    if rows != [] {
      var n := |rows| - 1;
      TxsOfMember(rows[..n], blockId, r);
    }
  }

  lemma {:induction false} TxsOfInOrder(rows: seq<TxRow>, blockId: nat)
    requires TxsInOrder(rows)
    ensures InOrder(TxsOf(rows, blockId), TxIndex)
  {
    if rows != [] {
      var n := |rows| - 1;
      var rest := TxsOf(rows[..n], blockId);
      TxsOfInOrder(rows[..n], blockId);
      forall k | 0 <= k < |rest| && rows[n].blockId == blockId ensures rest[k].index < rows[n].index {
        TxsOfMember(rows[..n], blockId, rest[k]);
        var j :| 0 <= j < n && rows[..n][j] == rest[k];
        assert rows[j] == rest[k];
      }
    }
  }

  lemma {:induction false} SameBlockRow(rows: seq<BlockRow>, blocks: seq<BlockRecord>, i: nat, j: nat)
    requires RepBlocks(rows, blocks) && i < |rows| && j < |rows|
    ensures rows[i].blockId == rows[j].blockId <==> i == j
  {
    RepBlockAt(rows, blocks, i);
    RepBlockAt(rows, blocks, j);
  }

  lemma {:induction false} RowOfBlock(s: Store, l: Ledger, i: nat, m: nat)
    requires Rep(s, l) && i < |l.blocks| && m < |l.txs|
    ensures |s.blocks| == |l.blocks| && |s.txs| == |l.txs|
    ensures s.txs[m].blockId == s.blocks[i].blockId <==> l.txs[m].height == i
  {
    RepTxAt(s.txs, l.txs, s.blocks, m);
    SameBlockRow(s.blocks, l.blocks, l.txs[m].height, i);
  }

  /** Rows that are each read back as a record are selected and read back together. */
  lemma {:induction false} TxsReadBack(s: Store, rows: seq<TxRow>, blockId: nat, recs: seq<TxRecord>, height: nat)
    requires |rows| == |recs|
    requires forall m :: 0 <= m < |rows| ==>
               ReadTx(s, rows[m]) == StoredTx(recs[m]) && (rows[m].blockId == blockId <==> recs[m].height == height)
    ensures ReadTxs(s, TxsOf(rows, blockId)) == TxsAt(recs, height)
  {
    if rows != [] {
      var n := |rows| - 1;
      TxsReadBack(s, rows[..n], blockId, recs[..n], height);
      var found := TxsOf(rows[..n], blockId);
      assert (found + [rows[n]])[..|found|] == found;
    }
  }

  /** The hash of the parent that the LEFT JOIN gives; empty where it gives NULL. */
  function ParentHash(blocks: seq<BlockRow>, row: BlockRow): Bytes {
    match row.prevBlockId
    case None => []
    case Some(id) =>
      match BlockById(blocks, id)
      case None => []
      case Some(prev) => prev.blockHash
  }

  function ReadBlock(s: Store, row: BlockRow): Block {
    Block(
      BlockHeader(ParentHash(s.blocks, row), row.merkleTree, row.proposerPkey, row.timestamp),
      ReadTxs(s, OrderBy(TxsOf(s.txs, row.blockId), TxIndex)),
      row.blockHash)
  }

  lemma {:induction false} BlockReadBack(s: Store, l: Ledger, i: nat)
    requires Rep(s, l) && LinearBlocks(l.blocks) && i < |l.blocks|
    ensures i < |s.blocks| && ReadBlock(s, s.blocks[i]) == LoadBlock(l, i)
  {
    assert |s.blocks| == |l.blocks| && |s.txs| == |l.txs|;
    HeaderReadBack(s.blocks, l.blocks, i);
    TxsOfInOrder(s.txs, s.blocks[i].blockId);
    OrderByInOrder(TxsOf(s.txs, s.blocks[i].blockId), TxIndex);
    forall m | 0 <= m < |l.txs|
      ensures ReadTx(s, s.txs[m]) == StoredTx(l.txs[m])
      ensures s.txs[m].blockId == s.blocks[i].blockId <==> l.txs[m].height == i
    {
      TxReadBack(s, l, m);
      RowOfBlock(s, l, i, m);
    }
    TxsReadBack(s, s.txs, s.blocks[i].blockId, l.txs, i);
  }

  lemma {:induction false} HeaderReadBack(rows: seq<BlockRow>, blocks: seq<BlockRecord>, i: nat)
    requires RepBlocks(rows, blocks) && LinearBlocks(blocks) && i < |blocks|
    ensures rows[i].blockHash == blocks[i].hash
    ensures BlockHeader(ParentHash(rows, rows[i]), rows[i].merkleTree, rows[i].proposerPkey, rows[i].timestamp)
         == blocks[i].header
  {
    RepBlockAt(rows, blocks, i);
    LinearAt(blocks, i);
    if i > 0 {
      var m := i - 1;
      RepBlockAt(rows, blocks, m);
    }
  }

  // Several at once, by hash.

  /** Those of the first n blocks whose hash is asked for, in save order. */
  function BlocksAmong(l: Ledger, hashes: seq<Bytes>, n: nat): seq<Block>
    requires n <= |l.blocks|
  {
    if n == 0 then []
    else
      var rest := BlocksAmong(l, hashes, n - 1);
      if l.blocks[n - 1].hash in hashes then rest + [LoadBlock(l, n - 1)] else rest
  }

  /** One hash gives at most one block. */
  lemma {:induction false} OneBlockAmong(l: Ledger, hash: Bytes, n: nat)
    requires LinearBlocks(l.blocks) && n <= |l.blocks|
    ensures FindBlock(l.blocks, hash).Some? ==> FindBlock(l.blocks, hash).value < |l.blocks|
    ensures BlocksAmong(l, [hash], n)
         == match FindBlock(l.blocks, hash)
            case None => []
            case Some(i) => if i < n then [LoadBlock(l, i)] else []
  {
    FindBlockSound(l.blocks, hash);
    if n > 0 {
      var m := n - 1;
      OneBlockAmong(l, hash, m);
      LinearAt(l.blocks, m);
      assert l.blocks[m].hash in [hash] <==> l.blocks[m].hash == hash;
    }
  }

  function RowsAmong(rows: seq<TxRow>, hashes: seq<Bytes>): seq<TxRow> {
    if rows == [] then []
    else
      var rest := RowsAmong(rows[..|rows| - 1], hashes);
      if rows[|rows| - 1].txHash in hashes then rest + [rows[|rows| - 1]] else rest
  }

  /** The stored transactions whose hash is asked for, in save order. */
  function TxsAmong(txs: seq<TxRecord>, hashes: seq<Bytes>): seq<Transaction> {
    if txs == [] then []
    else
      var rest := TxsAmong(txs[..|txs| - 1], hashes);
      if txs[|txs| - 1].hash in hashes then rest + [StoredTx(txs[|txs| - 1])] else rest
  }

  lemma {:induction false} RowsAmongReadBack(s: Store, rows: seq<TxRow>, recs: seq<TxRecord>, hashes: seq<Bytes>)
    requires |rows| == |recs|
    requires forall m :: 0 <= m < |rows| ==> ReadTx(s, rows[m]) == StoredTx(recs[m]) && rows[m].txHash == recs[m].hash
    ensures ReadTxs(s, RowsAmong(rows, hashes)) == TxsAmong(recs, hashes)
  {
    if rows != [] {
      var n := |rows| - 1;
      RowsAmongReadBack(s, rows[..n], recs[..n], hashes);
      var found := RowsAmong(rows[..n], hashes);
      assert (found + [rows[n]])[..|found|] == found;
    }
  }

  lemma {:induction false} TxsAmongReadBack(s: Store, l: Ledger, hashes: seq<Bytes>)
    requires Rep(s, l)
    ensures ReadTxs(s, RowsAmong(s.txs, hashes)) == TxsAmong(l.txs, hashes)
  {
    assert |s.txs| == |l.txs|;
    forall m | 0 <= m < |l.txs| ensures ReadTx(s, s.txs[m]) == StoredTx(l.txs[m]) && s.txs[m].txHash == l.txs[m].hash {
      TxReadBack(s, l, m);
      RepTxAt(s.txs, l.txs, s.blocks, m);
    }
    RowsAmongReadBack(s, s.txs, l.txs, hashes);
  }

  /** One hash gives at most one transaction. */
  lemma {:induction false} OneTxAmong(txs: seq<TxRecord>, hash: Bytes)
    requires DistinctTxs(txs)
    ensures TxsAmong(txs, [hash])
         == match FindTx(txs, hash)
            case None => []
            case Some(rec) => [StoredTx(rec)]
  {
    if txs != [] {
      var n := |txs| - 1;
      OneTxAmong(txs[..n], hash);
      assert txs[n].hash in [hash] <==> txs[n].hash == hash;
    }
  }

  // UTXO queries.

  function ReadUtxos(s: Store, outputs: seq<OutputRow>, q: Query): seq<Utxo> {
    Answer(Unspent(outputs, s.txs, s.blocks), q)
  }

  lemma {:induction false} ReadUtxosStep(s: Store, k: nat, q: Query)
    requires k < |s.outputs|
    ensures var c := Join(s.outputs[k], s.txs, s.blocks);
      ReadUtxos(s, s.outputs[..k + 1], q)
      == if s.outputs[k].isSpentByTx.None? && c.Some? && Selected(q, c.value)
         then ReadUtxos(s, s.outputs[..k], q) + [c.value.utxo] else ReadUtxos(s, s.outputs[..k], q)
  {
    assert s.outputs[..k + 1][..k] == s.outputs[..k];
    var coins, c := Unspent(s.outputs[..k], s.txs, s.blocks), Join(s.outputs[k], s.txs, s.blocks);
    if s.outputs[k].isSpentByTx.None? && c.Some? {
      assert (coins + [c.value])[..|coins|] == coins;
    }
  }

  // The unique look-ups.

  /** The row that a hash finds is read back as the ledger's transaction with that hash. */
  lemma {:induction false} FoundTxReadBack(s: Store, l: Ledger, hash: Bytes)
    requires Rep(s, l)
    ensures TxByHash(s.txs, hash).Some? <==> FindTx(l.txs, hash).Some?
    ensures TxByHash(s.txs, hash).Some? ==>
              ReadTx(s, TxByHash(s.txs, hash).value) == StoredTx(FindTx(l.txs, hash).value)
    ensures TxByHash(s.txs, hash).Some? ==>
              FindTx(l.txs, hash).value.height < |l.blocks|
              && BlockById(s.blocks, TxByHash(s.txs, hash).value.blockId).Some?
              && BlockById(s.blocks, TxByHash(s.txs, hash).value.blockId).value.timestamp
                 == TimeOf(l, FindTx(l.txs, hash).value)
  {
    RepFind(s.txs, l.txs, s.blocks, hash);
    if TxByHash(s.txs, hash).Some? {
      var i :| 0 <= i < |s.txs| && TxByHash(s.txs, hash) == Some(s.txs[i]) && FindTx(l.txs, hash) == Some(l.txs[i])
        && s.txs[i].txHash == hash;
      TxReadBack(s, l, i);
      RepTxAt(s.txs, l.txs, s.blocks, i);
      RepBlockAt(s.blocks, l.blocks, l.txs[i].height);
    }
  }

  lemma {:induction false} RepFindLink(rows: seq<TxRow>, txs: seq<TxRecord>, blocks: seq<BlockRow>, link: Bytes)
    requires RepTxs(rows, txs, blocks)
    ensures TxByLink(rows, link).Some? <==> FindLink(txs, link).Some?
    ensures TxByLink(rows, link).Some? ==>
              exists i :: 0 <= i < |rows|
                && TxByLink(rows, link) == Some(rows[i]) && FindLink(txs, link) == Some(txs[i])
                && rows[i].hashLink == link
  {
    if rows != [] {
      var n := |rows| - 1;
      RepFindLink(rows[..n], txs[..n], blocks, link);
      if TxByLink(rows[..n], link).Some? {
        var i :| 0 <= i < n
          && TxByLink(rows[..n], link) == Some(rows[..n][i]) && FindLink(txs[..n], link) == Some(txs[..n][i])
          && rows[..n][i].hashLink == link;
        assert TxByLink(rows, link) == Some(rows[i]) && FindLink(txs, link) == Some(txs[i]) && rows[i].hashLink == link;
      } else if rows[n].hashLink == link {
        assert TxByLink(rows, link) == Some(rows[n]) && FindLink(txs, link) == Some(txs[n]) && rows[n].hashLink == link;
      }
    }
  }

  lemma {:induction false} LinkedTxReadBack(s: Store, l: Ledger, link: Bytes)
    requires Rep(s, l)
    ensures TxByLink(s.txs, link).Some? <==> FindLink(l.txs, link).Some?
    ensures TxByLink(s.txs, link).Some? ==>
              ReadTx(s, TxByLink(s.txs, link).value) == StoredTx(FindLink(l.txs, link).value)
  {
    RepFindLink(s.txs, l.txs, s.blocks, link);
    if TxByLink(s.txs, link).Some? {
      var i :| 0 <= i < |s.txs| && TxByLink(s.txs, link) == Some(s.txs[i]) && FindLink(l.txs, link) == Some(l.txs[i])
        && s.txs[i].hashLink == link;
      TxReadBack(s, l, i);
    }
  }
}
