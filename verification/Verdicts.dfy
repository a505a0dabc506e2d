/** evote/tx_executor.go: the verdict on a transaction, as a function of the committed ledger. */
module Verdicts {
  import opened Types
  import opened Crypto
  import opened LedgerSpec

  /** What AppendTx finds before it looks at the signature. */
  datatype Verdict = Refuse(code: Code) | Crash | SignedBy(pkey: Bytes)

  function OutputTotal(outputs: seq<Output>): nat {
    if outputs == [] then 0 else OutputTotal(outputs[..|outputs| - 1]) + outputs[|outputs| - 1].value
  }

  function ScanKeys(outputs: seq<Output>): (n: nat)
    ensures n <= |outputs|
  {
    if outputs == [] then 0
    else ScanKeys(outputs[..|outputs| - 1]) + if |outputs[|outputs| - 1].receiverScanPkey| != 0 then 1 else 0
  }

  function CoinValue(coins: seq<Coin>, p: Input): nat {
    match FindCoin(coins, p)
    case Some(c) => c.utxo.value
    case None => 0
  }

  /** The value the inputs name, each input counted. */
  function InputTotal(coins: seq<Coin>, inputs: seq<Input>): nat {
    if inputs == [] then 0
    else InputTotal(coins, inputs[..|inputs| - 1]) + CoinValue(coins, inputs[|inputs| - 1])
  }

  /** The spend key of the first input's coin; no key without inputs. */
  function Owner(coins: seq<Coin>, body: TxBody): Bytes {
    if body.inputs == [] then []
    else
      match FindCoin(coins, body.inputs[0])
      case Some(c) => c.utxo.receiverSpendPkey
      case None => []
  }

  /** The answers of the input loop. */
  predicate IsInputError(code: Code) {
    code in {CodeDoubleSpending, CodeInputNotOwn, CodeMixingTypeValue, CodeVotesUsedAsFunding}
  }

  /** What the input loop finds wrong with input k. */
  function InputError(coins: seq<Coin>, body: TxBody, k: nat): (error: Option<Code>)
    requires k < |body.inputs|
    ensures error.Some? ==> IsInputError(error.value)
  {
    match FindCoin(coins, body.inputs[k])
    case None => Some(CodeDoubleSpending)
    case Some(c) =>
      if k != 0 && c.utxo.receiverSpendPkey != Owner(coins, body) then Some(CodeInputNotOwn)
      else if |body.hashLink| == 0 && body.voteType == 0 && c.utxo.valueType != body.valueType then
        Some(CodeMixingTypeValue)
      else if body.voteType != 0 && |c.utxo.valueType| != 0 then Some(CodeVotesUsedAsFunding)
      else None
  }

  /** The first error among the first n inputs. */
  function FirstError(coins: seq<Coin>, body: TxBody, n: nat): (error: Option<Code>)
    requires n <= |body.inputs|
    ensures error.Some? ==> IsInputError(error.value)
  {
    if n == 0 then None
    else if FirstError(coins, body, n - 1).Some? then FirstError(coins, body, n - 1)
    else InputError(coins, body, n - 1)
  }

  function JudgeCoinbase(l: Ledger, body: TxBody): (v: Verdict)
    requires |body.outputs| != 0
    ensures v != Refuse(CodeOk)
  {
    if |body.hashLink| != HASH_SIZE then Refuse(CodeHashLinkInvalidLen)
    else if |body.outputs| != 1 then Refuse(CodeCoinbaseTxNoOutput)
    else if body.duration != 0 then Refuse(CodeCoinbaseUnexpectedDuration)
    else if |body.senderEphemeralPkey| != 0 then Refuse(CodeCoinbaseUnexpectedSenderEphemeralPkey)
    else if |body.votersSumPkey| != 0 then Refuse(CodeCoinbaseUnexpectedVotersSumPkey)
    else if |body.outputs[0].receiverScanPkey| != 0 then Refuse(CodeUnexpectedScanKey)
    else if FindLink(l.txs, body.hashLink).Some? then Refuse(CodeDoubleCoinbaseForSameBlock)
    else
      match FindBlock(l.blocks, body.hashLink)
      case None => Refuse(CodeCoinbaseNoBlock)
      case Some(i) =>
        FindBlockSound(l.blocks, body.hashLink);
        if l.blocks[i].header.proposerPkey != body.outputs[0].receiverSpendPkey then
          Refuse(CodeCoinbaseProposerMismatch)
        else if body.outputs[0].value != REWARD_COINS then Refuse(CodeCoinbaseIncorrectReward)
        else SignedBy(body.outputs[0].receiverSpendPkey)
  }

  /** A stored body as the code gets it: serialized for the answer of the query, then parsed. */
  function StoredBody(rec: TxRecord): Option<TxBody> {
    DecodeBody(EncodeBody(rec.body))
  }

  lemma {:induction false} StoredBodyIs(rec: TxRecord)
    requires BodyRoundTrips()
    ensures StoredBody(rec) == Some(rec.body)
  {
    assert DecodeBody(EncodeBody(rec.body)) == Some(rec.body);
  }

  /** The checks on an init-vote transaction. Looking up a voting that is not stored dereferences nil. */
  function JudgeInitVote(l: Ledger, body: TxBody, pkey: Bytes): (v: Verdict)
    ensures v != Refuse(CodeOk)
  {
    if |body.senderEphemeralPkey| != PKEY_SIZE then Refuse(CodeInvalidSenderEphemeralPkeyLen)
    else if |body.votersSumPkey| != PKEY_SIZE then Refuse(CodeInvalidVotersSumPkeyLen)
    else if ScanKeys(body.outputs) != 0 then Refuse(CodeInitVoteMustHaveNilScanPkeys)
    else
      match FindTx(l.txs, body.valueType)
      case None => Crash
      case Some(rec) =>
        match StoredBody(rec)
        case None => Refuse(CodeParseErr)
        case Some(createVoteBody) =>
          if createVoteBody.voteType == 0 then Refuse(CodeValueTypeInvalid)
          else if |createVoteBody.outputs| != |body.outputs| then Refuse(CodeInvalidVoteParticipantNumber)
          else SignedBy(pkey)
  }

  predicate IsInitVote(body: TxBody) {
    |body.valueType| != 0 && |body.senderEphemeralPkey| != 0 && |body.votersSumPkey| != 0
  }

  /** The checks after the input loop. */
  function JudgeOutputs(l: Ledger, body: TxBody): (v: Verdict)
    ensures v != Refuse(CodeOk)
  {
    var outputsWithScanKey := ScanKeys(body.outputs);
    if |body.outputs| != outputsWithScanKey && outputsWithScanKey != 0 then
      Refuse(CodeOutputsHaveBothNilAndNotNilScanKeys)
    else if OutputTotal(body.outputs) % TWO_TO_THE_32 != InputTotal(l.coins, body.inputs) % TWO_TO_THE_32 then
      Refuse(CodeInputsNotMatchOutputs)
    else if body.voteType != 0 then
      if |body.senderEphemeralPkey| != 0 then Refuse(CodeCreateVoteTxUnexpectedSenderEphemeralPkey)
      else if |body.votersSumPkey| != 0 then Refuse(CodeCreateVoteTxUnexpectedVotersSumPkey)
      else SignedBy(Owner(l.coins, body))
    else if |body.hashLink| != 0 then Refuse(CodeNotSupported)
    else if IsInitVote(body) then JudgeInitVote(l, body, Owner(l.coins, body))
    else SignedBy(Owner(l.coins, body))
  }

  function Judge(l: Ledger, body: TxBody): (v: Verdict)
    ensures v != Refuse(CodeOk)
  {
    if |body.outputs| == 0 then Refuse(CodeNoOutputs)
    else if |body.hashLink| != 0 && body.voteType != 0 then Refuse(CodeHashLinkAndTypeVoteTogether)
    else if |body.hashLink| != 0 && |body.inputs| == 0 then JudgeCoinbase(l, body)
    else
      match FirstError(l.coins, body, |body.inputs|)
      case Some(code) => Refuse(code)
      case None => JudgeOutputs(l, body)
  }

  /** verifySigAndAppend's answer. */
  function CheckSignature(tx: Transaction, pkey: Bytes): Code {
    if |tx.sig| != SIG_SIZE then CodeInvalidSignatureLen
    else if !VerifyData(tx.txBody, tx.sig, pkey) then CodeInvalidSignature
    else CodeOk
  }

  /** The checks that need no ledger: size, body, hash. */
  function FormError(tx: Transaction): Option<Code> {
    if |tx.txBody| > MAX_TX_SIZE then Some(CodeTxTooLarge)
    else if DecodeBody(tx.txBody).None? then Some(CodeParseErr)
    else if tx.hash != Hash(tx.txBody) then Some(CodeHashesDontMatch)
    else None
  }

  function TxVerdict(l: Ledger, tx: Transaction): Outcome<Code> {
    match FormError(tx)
    case Some(code) => Returned(code)
    case None =>
      match Judge(l, Body(tx))
      case Refuse(code) => Returned(code)
      case Crash => Panicked
      case SignedBy(pkey) => Returned(CheckSignature(tx, pkey))
  }

  predicate Accepts(l: Ledger, tx: Transaction) {
    TxVerdict(l, tx) == Returned(CodeOk)
  }

  // What acceptance means, without the order of the checks.

  predicate WellSigned(tx: Transaction, pkey: Bytes) {
    |tx.sig| == SIG_SIZE && VerifyData(tx.txBody, tx.sig, pkey)
  }

  /** A reward of the fixed amount to the proposer of a stored block that no stored transaction links to. */
  ghost predicate IsReward(l: Ledger, body: TxBody) {
    && body.inputs == []
    && |body.hashLink| == HASH_SIZE
    && body.voteType == 0 && body.duration == 0
    && body.senderEphemeralPkey == [] && body.votersSumPkey == []
    && |body.outputs| == 1
    && body.outputs[0].value == REWARD_COINS && body.outputs[0].receiverScanPkey == []
    && (forall t :: t in l.txs ==> t.body.hashLink != body.hashLink)
    && (var found := FindBlock(l.blocks, body.hashLink);
        found.Some? && found.value < |l.blocks|
        && l.blocks[found.value].header.proposerPkey == body.outputs[0].receiverSpendPkey)
  }

  /** The type of coin this kind of transaction may spend. */
  function InputType(body: TxBody): Bytes {
    if body.voteType != 0 then [] else body.valueType
  }

  /** Input k spends an unspent coin of this owner, of the type that this kind of transaction may spend. */
  predicate SpendsCoinOf(coins: seq<Coin>, body: TxBody, k: nat, owner: Bytes)
    requires k < |body.inputs|
  {
    var c := FindCoin(coins, body.inputs[k]);
    && c.Some?
    && c.value.utxo.receiverSpendPkey == owner
    && c.value.utxo.valueType == InputType(body)
  }

  /**
   Two public keys, no scan keys, and a value type that names a stored create-vote transaction with
   as many outputs.
   */
  predicate InitializesVoting(l: Ledger, body: TxBody) {
    && |body.senderEphemeralPkey| == PKEY_SIZE && |body.votersSumPkey| == PKEY_SIZE
    && ScanKeys(body.outputs) == 0
    && FindTx(l.txs, body.valueType).Some?
    && (var created := StoredBody(FindTx(l.txs, body.valueType).value);
        created.Some? && created.value.voteType != 0 && |created.value.outputs| == |body.outputs|)
  }

  /** The same of the stored transaction itself, as parsing undoes serializing. */
  lemma {:induction false} InitializesStoredVoting(l: Ledger, body: TxBody)
    requires BodyRoundTrips()
    ensures InitializesVoting(l, body) <==>
            && |body.senderEphemeralPkey| == PKEY_SIZE && |body.votersSumPkey| == PKEY_SIZE
            && ScanKeys(body.outputs) == 0
            && FindTx(l.txs, body.valueType).Some?
            && FindTx(l.txs, body.valueType).value.body.voteType != 0
            && |FindTx(l.txs, body.valueType).value.body.outputs| == |body.outputs|
  {
    if FindTx(l.txs, body.valueType).Some? {
      StoredBodyIs(FindTx(l.txs, body.valueType).value);
    }
  }

  /** Coins of one owner and one type, moved in equal amount modulo 2^32. */
  ghost predicate IsTransfer(l: Ledger, body: TxBody, owner: Bytes) {
    && body.inputs != [] && body.outputs != [] && body.hashLink == []
    && (forall k :: 0 <= k < |body.inputs| ==> SpendsCoinOf(l.coins, body, k, owner))
    && OutputTotal(body.outputs) % TWO_TO_THE_32 == InputTotal(l.coins, body.inputs) % TWO_TO_THE_32
    && (ScanKeys(body.outputs) == 0 || ScanKeys(body.outputs) == |body.outputs|)
    && (body.voteType != 0 ==> body.senderEphemeralPkey == [] && body.votersSumPkey == [])
    && (body.voteType == 0 && IsInitVote(body) ==> InitializesVoting(l, body))
  }

  lemma {:induction false} FirstErrorNone(coins: seq<Coin>, body: TxBody, n: nat)
    requires n <= |body.inputs|
    ensures FirstError(coins, body, n) == None <==> forall k :: 0 <= k < n ==> InputError(coins, body, k) == None
  {
    if n > 0 {
      var m := n - 1;
      FirstErrorNone(coins, body, m);
    }
  }

  lemma {:induction false} InputLoopPasses(l: Ledger, body: TxBody)
    requires body.hashLink == [] && body.inputs != []
    ensures FirstError(l.coins, body, |body.inputs|) == None
       <==> forall k :: 0 <= k < |body.inputs| ==> SpendsCoinOf(l.coins, body, k, Owner(l.coins, body))
  {
    FirstErrorNone(l.coins, body, |body.inputs|);
    forall k | 0 <= k < |body.inputs|
      ensures InputError(l.coins, body, k) == None <==> SpendsCoinOf(l.coins, body, k, Owner(l.coins, body))
    {}
  }

  lemma {:induction false} JudgeTransfer(l: Ledger, body: TxBody, pkey: Bytes)
    requires body.inputs != []
    ensures Judge(l, body) == SignedBy(pkey) <==> IsTransfer(l, body, pkey)
  {
    if |body.hashLink| == 0 {
      InputLoopPasses(l, body);
      if IsTransfer(l, body, pkey) {
        assert SpendsCoinOf(l.coins, body, 0, pkey);
      }
    }
  }

  lemma {:induction false} JudgeReward(l: Ledger, body: TxBody, pkey: Bytes)
    requires body.inputs == [] && body.hashLink != []
    ensures Judge(l, body) == SignedBy(pkey) <==> IsReward(l, body) && body.outputs[0].receiverSpendPkey == pkey
  {
    FindBlockSound(l.blocks, body.hashLink);
    FindLinkSound(l.txs, body.hashLink);
  }

  lemma {:induction false} JudgeUnfunded(l: Ledger, body: TxBody)
    requires body.inputs == [] && body.hashLink == [] && Judge(l, body).SignedBy?
    ensures Judge(l, body).pkey == []
  {}

  /**
   AppendTx(false) answers CodeOk exactly for a well-formed body under its own hash that is either a
   reward signed by the proposer or a transfer signed by the coins' owner.
   */
  lemma {:induction false} AcceptsExactly(l: Ledger, tx: Transaction)
    ensures Accepts(l, tx) <==>
            && FormError(tx) == None
            && (|| (IsReward(l, Body(tx)) && WellSigned(tx, Body(tx).outputs[0].receiverSpendPkey))
                || exists owner :: IsTransfer(l, Body(tx), owner) && WellSigned(tx, owner))
  {
    var body := Body(tx);
    if body.inputs != [] {
      if Accepts(l, tx) {
        var owner := Judge(l, body).pkey;
        JudgeTransfer(l, body, owner);
        assert IsTransfer(l, Body(tx), owner) && WellSigned(tx, owner);
      }
      forall owner | IsTransfer(l, Body(tx), owner) && WellSigned(tx, owner) && FormError(tx) == None
        ensures Accepts(l, tx)
      {
        JudgeTransfer(l, body, owner);
      }
    } else if body.hashLink != [] {
      if Judge(l, body).SignedBy? {
        JudgeReward(l, body, Judge(l, body).pkey);
      }
      if IsReward(l, body) {
        JudgeReward(l, body, body.outputs[0].receiverSpendPkey);
      }
    } else if Judge(l, body).SignedBy? {
      JudgeUnfunded(l, body);
    }
  }
}
