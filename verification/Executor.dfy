/** evote/tx_executor.go: the pending block, and AppendTx as the code runs it. */
module Executor {
  import opened Types
  import opened Crypto
  import opened LedgerSpec
  import opened Loading
  import opened Storage
  import opened Verdicts
  import opened Checks

  /** The fields of a TxExecutor. processedTrans is None while the Go map is nil. */
  datatype ExecState = ExecState(
    transactions: seq<Transaction>, timestamp: u64, blockProposer: Bytes, processedTrans: Option<set<Bytes>>)

  /** time.Time{}.UnixNano(), which Go leaves undefined. */
  const ZERO_TIME: u64

  const NEW_STATE := ExecState([], ZERO_TIME, ZERO_PKEY, None)

  /** A state and the answer that goes with it. */
  datatype Step<+S> = Step(state: S, answer: Outcome<Code>)

  predicate WasProcessed(e: ExecState, hash: Bytes) {
    e.processedTrans.Some? && hash in e.processedTrans.value
  }

  /** The transaction is appended first; then the write into a nil map panics. */
  function Appended(e: ExecState, tx: Transaction): Step<ExecState> {
    var more := e.(transactions := e.transactions + [tx]);
    match e.processedTrans
    case None => Step(more, Panicked)
    case Some(processed) => Step(more.(processedTrans := Some(processed + {tx.hash})), Returned(CodeOk))
  }

  /** AppendTx on a transaction that parses. */
  function AppendedIfValid(l: Ledger, e: ExecState, tx: Transaction, ignoreDuplicates: bool): Step<ExecState> {
    if FormError(tx) == None && ignoreDuplicates && WasProcessed(e, tx.hash) then Step(e, Returned(CodeOk))
    else if Accepts(l, tx) then Appended(e, tx)
    else Step(e, TxVerdict(l, tx))
  }

  function AppendSpec(l: Ledger, e: ExecState, data: Bytes, ignoreDuplicates: bool): Step<ExecState> {
    match DecodeTransaction(data)
    case None => Step(e, Returned(CodeParseErr))
    case Some(tx) => AppendedIfValid(l, e, tx, ignoreDuplicates)
  }

  // The look-up of an input among the UTXOs of its transaction.

  function FirstUtxo(utxos: seq<Utxo>, index: nat): Option<Utxo> {
    if utxos == [] then None
    else
      var earlier := FirstUtxo(utxos[..|utxos| - 1], index);
      if earlier.Some? then earlier
      else if utxos[|utxos| - 1].index == index then Some(utxos[|utxos| - 1]) else None
  }

  lemma {:induction false} FirstUtxoSnoc(utxos: seq<Utxo>, u: Utxo, index: nat)
    ensures FirstUtxo(utxos + [u], index)
         == if FirstUtxo(utxos, index).Some? then FirstUtxo(utxos, index)
            else if u.index == index then Some(u) else None
  {
    assert (utxos + [u])[..|utxos|] == utxos;
  }

  lemma {:induction false} FirstUtxoIsCoin(coins: seq<Coin>, p: Input)
    requires Distinct(coins)
    ensures FirstUtxo(Answer(coins, ByTxHash(p.prevTxHash)), p.outputIndex)
         == match FindCoin(coins, p)
            case None => None
            case Some(c) => Some(c.utxo)
  {
    if coins != [] {
      var n := |coins| - 1;
      FirstUtxoIsCoin(coins[..n], p);
      FirstUtxoSnoc(Answer(coins[..n], ByTxHash(p.prevTxHash)), coins[n].utxo, p.outputIndex);
      assert Point(coins[n]) == p <==> coins[n].utxo.txHash == p.prevTxHash && coins[n].utxo.index == p.outputIndex;
    }
  }

  lemma {:induction false} FirstErrorStays(coins: seq<Coin>, body: TxBody, i: nat, n: nat)
    requires i <= n <= |body.inputs| && FirstError(coins, body, i).Some?
    ensures FirstError(coins, body, n) == FirstError(coins, body, i)
  {
    if i < n {
      var m := n - 1;
      FirstErrorStays(coins, body, i, m);
    }
  }

  /** Where the input loop stops, its error is that of all inputs. */
  lemma {:induction false} FirstErrorSettled(coins: seq<Coin>, body: TxBody, i: nat)
    requires i <= |body.inputs| && (i == |body.inputs| || FirstError(coins, body, i).Some?)
    ensures FirstError(coins, body, |body.inputs|) == FirstError(coins, body, i)
  {
    if i < |body.inputs| {
      FirstErrorStays(coins, body, i, |body.inputs|);
    }
  }

  /** The accumulators of the input loop after n inputs: the first error, or the wrapping sum and the owner's key. */
  ghost predicate Scanned(coins: seq<Coin>, body: TxBody, n: nat, error: Option<Code>, sum: u32, key: Bytes) {
    && n <= |body.inputs|
    && error == FirstError(coins, body, n)
    && (error.None? ==>
          && sum == InputTotal(coins, body.inputs[..n]) % TWO_TO_THE_32
          && key == if n == 0 then [] else Owner(coins, body))
  }

  lemma {:induction false} InputTotalStep(coins: seq<Coin>, inputs: seq<Input>, i: nat)
    requires i < |inputs|
    ensures InputTotal(coins, inputs[..i + 1]) == InputTotal(coins, inputs[..i]) + CoinValue(coins, inputs[i])
  {
    assert inputs[..i + 1][..i] == inputs[..i];
  }

  lemma {:induction false} InputSumStep(coins: seq<Coin>, inputs: seq<Input>, i: nat, value: u32)
    requires i < |inputs| && value == CoinValue(coins, inputs[i])
    ensures Add32(InputTotal(coins, inputs[..i]) % TWO_TO_THE_32, value)
         == InputTotal(coins, inputs[..i + 1]) % TWO_TO_THE_32
  {
    InputTotalStep(coins, inputs, i);
    Add32Total(InputTotal(coins, inputs[..i]), value);
  }

  lemma {:induction false} OutputStep(outputs: seq<Output>, i: nat)
    requires i < |outputs|
    ensures OutputTotal(outputs[..i + 1]) == OutputTotal(outputs[..i]) + outputs[i].value
    ensures ScanKeys(outputs[..i + 1]) == ScanKeys(outputs[..i]) + if |outputs[i].receiverScanPkey| != 0 then 1 else 0
  {
    assert outputs[..i + 1][..i] == outputs[..i];
  }

  lemma {:induction false} Add32Total(total: nat, more: u32)
    ensures Add32(total % TWO_TO_THE_32, more) == (total + more) % TWO_TO_THE_32
  {}

  class TxExecutor {
    var Transactions: seq<Transaction>
    var Timestamp: u64
    var BlockProposer: Bytes
    var processedTrans: Option<set<Bytes>>
    const db: Database

    function State(): ExecState
      reads this
    {
      ExecState(Transactions, Timestamp, BlockProposer, processedTrans)
    }

    constructor (db: Database)
      ensures this.db == db && State() == NEW_STATE
    {
      this.db := db;
      Transactions, Timestamp, BlockProposer, processedTrans := [], ZERO_TIME, ZERO_PKEY, None;
    }

    method Reset()
      modifies this
      ensures State() == old(State()).(transactions := [], blockProposer := ZERO_PKEY, processedTrans := Some({}))
    {
      Transactions, BlockProposer, processedTrans := [], ZERO_PKEY, Some({});
    }

    method BeginBlock(timestamp: u64, blockProposer: Bytes)
      modifies this
      ensures State() == old(State()).(timestamp := timestamp, blockProposer := blockProposer)
    {
      Timestamp, BlockProposer := timestamp, blockProposer;
    }

    method VerifySigAndAppend(tx: Transaction, pkey: Bytes) returns (r: Outcome<Code>)
      modifies this
      ensures Step(State(), r) == if CheckSignature(tx, pkey) == CodeOk then Appended(old(State()), tx)
                                  else Step(old(State()), Returned(CheckSignature(tx, pkey)))
      ensures Transactions == if Genuine(tx, pkey) then old(Transactions) + [tx] else old(Transactions)
    {
      if |tx.sig| != SIG_SIZE {
        return Returned(CodeInvalidSignatureLen);
      }
      if !VerifyData(tx.txBody, tx.sig, pkey) {
        return Returned(CodeInvalidSignature);
      }
      Transactions := Transactions + [tx];
      if processedTrans.None? {
        return Panicked;
      }
      processedTrans := Some(processedTrans.value + {tx.hash});
      return Returned(CodeOk);
    }

    /** The UTXO among the given ones that an input's index names. */
    method PickUtxo(utxos: seq<Utxo>, index: nat) returns (found: Option<Utxo>)
      ensures found == FirstUtxo(utxos, index)
    {
      var i := 0;
      while i < |utxos|
        invariant 0 <= i <= |utxos|
        invariant FirstUtxo(utxos[..i], index) == None
      {
        FirstUtxoSnoc(utxos[..i], utxos[i], index);
        assert utxos[..i] + [utxos[i]] == utxos[..i + 1];
        if utxos[i].index == index {
          FirstUtxoStays(utxos, i + 1, index);
          return Some(utxos[i]);
        }
        i := i + 1;
      }
      assert utxos[..i] == utxos;
      return None;
    }

    /** One pass of the input loop, `pkey` being the key of the inputs before. */
    method CheckInput(body: TxBody, i: nat, pkey: Bytes) returns (error: Option<Code>, utxo: Option<Utxo>)
      requires db.Valid() && i < |body.inputs|
      requires i > 0 ==> pkey == Owner(db.ledger.coins, body)
      ensures error == InputError(db.ledger.coins, body, i)
      ensures error.None? ==> utxo.Some? && utxo.value.value == CoinValue(db.ledger.coins, body.inputs[i])
      ensures error.None? && i == 0 ==> utxo.value.receiverSpendPkey == Owner(db.ledger.coins, body)
    {
      var input := body.inputs[i];
      var utxos := db.GetUTXOS(ByTxHash(input.prevTxHash));
      utxo := PickUtxo(utxos, input.outputIndex);
      FirstUtxoIsCoin(db.ledger.coins, input);
      if utxo.None? {
        return Some(CodeDoubleSpending), utxo;
      }
      if i != 0 && pkey != utxo.value.receiverSpendPkey {
        return Some(CodeInputNotOwn), utxo;
      }
      if |body.hashLink| == 0 && body.voteType == 0 && utxo.value.valueType != body.valueType {
        return Some(CodeMixingTypeValue), utxo;
      }
      if body.voteType != 0 && |utxo.value.valueType| != 0 {
        return Some(CodeVotesUsedAsFunding), utxo;
      }
      return None, utxo;
    }

    /** The pass with its effect on the accumulators: the wrapping sum, and the key that the first input sets. */
    method NextInput(body: TxBody, i: nat, sum: u32, key: Bytes)
      returns (error: Option<Code>, inputsSum: u32, pkey: Bytes)
      requires db.Valid() && i < |body.inputs| && Scanned(db.ledger.coins, body, i, None, sum, key)
      ensures Scanned(db.ledger.coins, body, i + 1, error, inputsSum, pkey)
    {
      var utxo;
      error, utxo := CheckInput(body, i, key);
      inputsSum, pkey := sum, key;
      if error.Some? {
        return;
      }
      if i == 0 {
        pkey := utxo.value.receiverSpendPkey;
      }
      InputSumStep(db.ledger.coins, body.inputs, i, utxo.value.value);
      inputsSum := Add32(inputsSum, utxo.value.value);
    }

    /** The input loop: where it stops, the error there, or the wrapping sum and the key of the spender. */
    method ScanInputs(body: TxBody) returns (stop: nat, error: Option<Code>, inputsSum: u32, pkey: Bytes)
      requires db.Valid()
      ensures Scanned(db.ledger.coins, body, stop, error, inputsSum, pkey)
      ensures error.None? ==> stop == |body.inputs|
    {
      stop, error, inputsSum, pkey := 0, None, 0, [];
      while stop < |body.inputs| && error.None?
        invariant Scanned(db.ledger.coins, body, stop, error, inputsSum, pkey)
      {
        error, inputsSum, pkey := NextInput(body, stop, inputsSum, pkey);
        stop := stop + 1;
      }
    }

    method CheckInputs(body: TxBody) returns (error: Option<Code>, inputsSum: u32, pkey: Bytes)
      requires db.Valid()
      ensures error == FirstError(db.ledger.coins, body, |body.inputs|)
      ensures error.None? ==> inputsSum == InputTotal(db.ledger.coins, body.inputs) % TWO_TO_THE_32
      ensures error.None? ==> pkey == Owner(db.ledger.coins, body)
    {
      var stop;
      stop, error, inputsSum, pkey := ScanInputs(body);
      FirstErrorSettled(db.ledger.coins, body, stop);
      assert error.None? ==> body.inputs[..stop] == body.inputs;
    }

    /** The output loop. */
    method SumOutputs(outputs: seq<Output>) returns (outputsSum: u32, outputsWithScanKey: nat)
      ensures outputsSum == OutputTotal(outputs) % TWO_TO_THE_32
      ensures outputsWithScanKey == ScanKeys(outputs)
    {
      outputsSum, outputsWithScanKey := 0, 0;
      var i := 0;
      while i < |outputs|
        invariant 0 <= i <= |outputs|
        invariant outputsSum == OutputTotal(outputs[..i]) % TWO_TO_THE_32
        invariant outputsWithScanKey == ScanKeys(outputs[..i])
      {
        OutputStep(outputs, i);
        Add32Total(OutputTotal(outputs[..i]), outputs[i].value);
        outputsSum := Add32(outputsSum, outputs[i].value);
        if |outputs[i].receiverScanPkey| != 0 {
          outputsWithScanKey := outputsWithScanKey + 1;
        }
        i := i + 1;
      }
      assert outputs[..i] == outputs;
    }

    method CheckCoinbase(body: TxBody) returns (v: Verdict)
      requires db.Valid() && |body.outputs| != 0
      ensures v == JudgeCoinbase(db.ledger, body)
    {
      if |body.hashLink| != HASH_SIZE {
        return Refuse(CodeHashLinkInvalidLen);
      }
      if |body.outputs| != 1 {
        return Refuse(CodeCoinbaseTxNoOutput);
      }
      if body.duration != 0 {
        return Refuse(CodeCoinbaseUnexpectedDuration);
      }
      if |body.senderEphemeralPkey| != 0 {
        return Refuse(CodeCoinbaseUnexpectedSenderEphemeralPkey);
      }
      if |body.votersSumPkey| != 0 {
        return Refuse(CodeCoinbaseUnexpectedVotersSumPkey);
      }
      var pkey := body.outputs[0].receiverSpendPkey;
      if |body.outputs[0].receiverScanPkey| != 0 {
        return Refuse(CodeUnexpectedScanKey);
      }
      var duplicate := db.GetTxByHashLink(body.hashLink);
      if duplicate.Some? {
        return Refuse(CodeDoubleCoinbaseForSameBlock);
      }
      var block := db.GetBlockByHash(body.hashLink);
      if block.None? {
        return Refuse(CodeCoinbaseNoBlock);
      }
      if block.value.header.proposerPkey != pkey {
        return Refuse(CodeCoinbaseProposerMismatch);
      }
      if body.outputs[0].value != REWARD_COINS {
        return Refuse(CodeCoinbaseIncorrectReward);
      }
      return SignedBy(pkey);
    }

    method CheckInitVote(body: TxBody, outputsWithScanKey: nat, pkey: Bytes) returns (v: Verdict)
      requires db.Valid() && outputsWithScanKey == ScanKeys(body.outputs)
      ensures v == JudgeInitVote(db.ledger, body, pkey)
    {
      if |body.senderEphemeralPkey| != PKEY_SIZE {
        return Refuse(CodeInvalidSenderEphemeralPkeyLen);
      }
      if |body.votersSumPkey| != PKEY_SIZE {
        return Refuse(CodeInvalidVotersSumPkeyLen);
      }
      if outputsWithScanKey != 0 {
        return Refuse(CodeInitVoteMustHaveNilScanPkeys);
      }
      var createVoteTx := db.GetTxByHash(body.valueType);
      if createVoteTx.None? {
        return Crash;
      }
      var createVoteBody := DecodeBody(createVoteTx.value.txBody);
      if createVoteBody.None? {
        return Refuse(CodeParseErr);
      }
      if createVoteBody.value.voteType == 0 {
        return Refuse(CodeValueTypeInvalid);
      }
      if |createVoteBody.value.outputs| != |body.outputs| {
        return Refuse(CodeInvalidVoteParticipantNumber);
      }
      return SignedBy(pkey);
    }

    /** The checks on a body, up to the signature. */
    method CheckBody(body: TxBody) returns (v: Verdict)
      requires db.Valid()
      ensures v == Judge(db.ledger, body)
    {
      if |body.outputs| == 0 {
        return Refuse(CodeNoOutputs);
      }
      if |body.hashLink| != 0 && body.voteType != 0 {
        return Refuse(CodeHashLinkAndTypeVoteTogether);
      }
      if |body.hashLink| != 0 && |body.inputs| == 0 {
        v := CheckCoinbase(body);
        return;
      }
      var error, inputsSum, pkey := CheckInputs(body);
      if error.Some? {
        return Refuse(error.value);
      }
      var outputsSum, outputsWithScanKey := SumOutputs(body.outputs);
      if |body.outputs| != outputsWithScanKey && outputsWithScanKey != 0 {
        return Refuse(CodeOutputsHaveBothNilAndNotNilScanKeys);
      }
      if outputsSum != inputsSum {
        return Refuse(CodeInputsNotMatchOutputs);
      }
      if body.voteType != 0 {
        if |body.senderEphemeralPkey| != 0 {
          return Refuse(CodeCreateVoteTxUnexpectedSenderEphemeralPkey);
        }
        if |body.votersSumPkey| != 0 {
          return Refuse(CodeCreateVoteTxUnexpectedVotersSumPkey);
        }
      } else if |body.hashLink| != 0 {
        return Refuse(CodeNotSupported);
      } else if |body.valueType| != 0 && |body.senderEphemeralPkey| != 0 && |body.votersSumPkey| != 0 {
        v := CheckInitVote(body, outputsWithScanKey, pkey);
        return;
      }
      return SignedBy(pkey);
    }

    /** AppendTx: the verdict depends on the committed ledger alone, and only an accepted transaction is kept. */
    method AppendTx(data: Bytes, ignoreDuplicates: bool) returns (r: Outcome<Code>)
      requires db.Valid()
      modifies this
      ensures Step(State(), r) == AppendSpec(db.ledger, old(State()), data, ignoreDuplicates)
    {
      var parsed := DecodeTransaction(data);
      if parsed.None? {
        return Returned(CodeParseErr);
      }
      var tx := parsed.value;
      if |tx.txBody| > MAX_TX_SIZE {
        return Returned(CodeTxTooLarge);
      }
      var body := DecodeBody(tx.txBody);
      if body.None? {
        return Returned(CodeParseErr);
      }
      if tx.hash != Hash(tx.txBody) {
        return Returned(CodeHashesDontMatch);
      }
      if ignoreDuplicates && processedTrans.Some? && tx.hash in processedTrans.value {
        return Returned(CodeOk);
      }
      var verdict := CheckBody(body.value);
      match verdict {
        case Refuse(code) => r := Returned(code);
        case Crash => r := Panicked;
        case SignedBy(pkey) => r := VerifySigAndAppend(tx, pkey);
      }
    }
  }

  lemma {:induction false} FirstUtxoStays(utxos: seq<Utxo>, i: nat, index: nat)
    requires i <= |utxos| && FirstUtxo(utxos[..i], index).Some?
    ensures FirstUtxo(utxos, index) == FirstUtxo(utxos[..i], index)
  {
    if i == |utxos| {
      assert utxos[..i] == utxos;
    } else {
      var n := |utxos| - 1;
      assert utxos[..n][..i] == utxos[..i];
      FirstUtxoStays(utxos[..n], i, index);
    }
  }
}
