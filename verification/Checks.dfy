/**
 The checks of AppendTx as one list in the order of the source, each stated on the ledger's coins,
 transactions and blocks themselves: the answer is that of the first check that does not hold.
 */
module Checks {
  import opened Types
  import opened Crypto
  import opened LedgerSpec
  import opened WellFormed
  import opened Verdicts

  /** What must hold, how AppendTx ends otherwise, and the checks after it. */
  datatype Checks = Passed | Check(holds: bool, otherwise: Outcome<Code>, others: Checks)

  function FirstFailure(checks: Checks): Option<Outcome<Code>> {
    match checks
    case Passed => None
    case Check(holds, otherwise, others) => if holds then FirstFailure(others) else Some(otherwise)
  }

  function Then(checks: Checks, others: Checks): (all: Checks)
    ensures FirstFailure(all) == if FirstFailure(checks).Some? then FirstFailure(checks) else FirstFailure(others)
  {
    match checks
    case Passed => others
    case Check(holds, otherwise, more) => Check(holds, otherwise, Then(more, others))
  }

  function Require(holds: bool, otherwise: Outcome<Code>, others: Checks): (checks: Checks)
    ensures FirstFailure(checks) == if holds then FirstFailure(others) else Some(otherwise)
  {
    Check(holds, otherwise, others)
  }

  function Expect(holds: bool, code: Code, others: Checks): (checks: Checks)
    ensures FirstFailure(checks) == if holds then FirstFailure(others) else Some(Returned(code))
  {
    Check(holds, Returned(code), others)
  }

  /** The coin is the output that the input names. */
  predicate Names(p: Input, c: Coin) {
    c.utxo.txHash == p.prevTxHash && c.utxo.index == p.outputIndex
  }

  /** 65 bytes, the first 64 of which are a signature of the body's hash under this key. */
  predicate Genuine(tx: Transaction, owner: Bytes) {
    |tx.sig| == SIG_SIZE && owner != [] && VerifyDigest(owner, Hash(tx.txBody), tx.sig[..SIG_SIZE - 1])
  }

  ghost function SignatureChecks(tx: Transaction, genuine: bool): Checks {
    Expect(|tx.sig| == SIG_SIZE, CodeInvalidSignatureLen,
    Expect(genuine, CodeInvalidSignature, Passed))
  }

  /** For input k: it names an unspent output, of the first input's owner, and of the right type. */
  ghost function InputChecksAt(coins: seq<Coin>, body: TxBody, k: nat): Checks
    requires k < |body.inputs|
  {
    Expect(exists c :: c in coins && Names(body.inputs[k], c), CodeDoubleSpending,
    Expect(
      forall c, d :: c in coins && d in coins && Names(body.inputs[0], c) && Names(body.inputs[k], d) ==>
        c.utxo.receiverSpendPkey == d.utxo.receiverSpendPkey,
      CodeInputNotOwn,
    Expect(
      body.hashLink == [] && body.voteType == 0 ==>
        forall c :: c in coins && Names(body.inputs[k], c) ==> c.utxo.valueType == body.valueType,
      CodeMixingTypeValue,
    Expect(
      body.voteType != 0 ==> forall c :: c in coins && Names(body.inputs[k], c) ==> c.utxo.valueType == [],
      CodeVotesUsedAsFunding,
    Passed))))
  }

  ghost function InputChecks(coins: seq<Coin>, body: TxBody, n: nat): Checks
    requires n <= |body.inputs|
  {
    if n == 0 then Passed else Then(InputChecks(coins, body, n - 1), InputChecksAt(coins, body, n - 1))
  }

  ghost predicate NoScanKeys(outputs: seq<Output>) {
    forall o :: o in outputs ==> o.receiverScanPkey == []
  }

  ghost predicate OnlyScanKeys(outputs: seq<Output>) {
    forall o :: o in outputs ==> o.receiverScanPkey != []
  }

  /** The form of a reward. */
  ghost function RewardFormChecks(body: TxBody, others: Checks): Checks {
    Expect(|body.hashLink| == HASH_SIZE, CodeHashLinkInvalidLen,
    Expect(|body.outputs| == 1, CodeCoinbaseTxNoOutput,
    Expect(body.duration == 0, CodeCoinbaseUnexpectedDuration,
    Expect(body.senderEphemeralPkey == [], CodeCoinbaseUnexpectedSenderEphemeralPkey,
    Expect(body.votersSumPkey == [], CodeCoinbaseUnexpectedVotersSumPkey,
    Expect(NoScanKeys(body.outputs), CodeUnexpectedScanKey,
    others))))))
  }

  /** The reward is for a stored block that no stored transaction links to. */
  ghost function RewardChecks(l: Ledger, body: TxBody, others: Checks): Checks {
    Expect(forall t :: t in l.txs ==> t.body.hashLink != body.hashLink, CodeDoubleCoinbaseForSameBlock,
    Expect(exists b :: b in l.blocks && b.hash == body.hashLink, CodeCoinbaseNoBlock,
    others))
  }

  /** It goes to the proposer of that block, in full. */
  ghost function ProposerChecks(l: Ledger, body: TxBody, others: Checks): Checks {
    Expect(
      forall b, o :: b in l.blocks && b.hash == body.hashLink && o in body.outputs ==>
        b.header.proposerPkey == o.receiverSpendPkey,
      CodeCoinbaseProposerMismatch,
    Expect(forall o :: o in body.outputs ==> o.value == REWARD_COINS, CodeCoinbaseIncorrectReward,
    others))
  }

  /** The form of an init-vote: two keys and no scan keys. */
  ghost function InitVoteFormChecks(body: TxBody, others: Checks): Checks {
    Expect(|body.senderEphemeralPkey| == PKEY_SIZE, CodeInvalidSenderEphemeralPkeyLen,
    Expect(|body.votersSumPkey| == PKEY_SIZE, CodeInvalidVotersSumPkeyLen,
    Expect(NoScanKeys(body.outputs), CodeInitVoteMustHaveNilScanPkeys,
    others)))
  }

  /** Its value type names a stored create-vote transaction with as many outputs. */
  ghost function InitVoteChecks(l: Ledger, body: TxBody, others: Checks): Checks {
    Require(exists t :: t in l.txs && t.hash == body.valueType, Panicked,
    Expect(
      forall t :: t in l.txs && t.hash == body.valueType ==> DecodeBody(EncodeBody(t.body)).Some?, CodeParseErr,
    Expect(
      forall t :: t in l.txs && t.hash == body.valueType ==> CreatesVoting(DecodeBody(EncodeBody(t.body))),
      CodeValueTypeInvalid,
    Expect(
      forall t :: t in l.txs && t.hash == body.valueType ==>
        HasOutputs(DecodeBody(EncodeBody(t.body)), |body.outputs|),
      CodeInvalidVoteParticipantNumber,
    others))))
  }

  predicate CreatesVoting(parsed: Option<TxBody>) {
    parsed.Some? && parsed.value.voteType != 0
  }

  predicate HasOutputs(parsed: Option<TxBody>, n: nat) {
    parsed.Some? && |parsed.value.outputs| == n
  }

  /** What comes after the inputs, for the kind of transaction that the fields make it. */
  ghost function KindChecks(body: TxBody, ifInitVote: Checks, others: Checks): Checks {
    if body.voteType != 0 then
      Expect(body.senderEphemeralPkey == [], CodeCreateVoteTxUnexpectedSenderEphemeralPkey,
      Expect(body.votersSumPkey == [], CodeCreateVoteTxUnexpectedVotersSumPkey,
      others))
    else if body.hashLink != [] then Expect(false, CodeNotSupported, others)
    else if body.valueType != [] && body.senderEphemeralPkey != [] && body.votersSumPkey != [] then
      ifInitVote
    else others
  }

  ghost function OutputChecks(l: Ledger, body: TxBody, others: Checks): Checks {
    Expect(NoScanKeys(body.outputs) || OnlyScanKeys(body.outputs), CodeOutputsHaveBothNilAndNotNilScanKeys,
    Expect(
      OutputTotal(body.outputs) % TWO_TO_THE_32 == InputTotal(l.coins, body.inputs) % TWO_TO_THE_32,
      CodeInputsNotMatchOutputs,
    others))
  }

  /** The owner of the first input signed; without inputs nobody can. */
  ghost predicate OwnerSigned(l: Ledger, tx: Transaction, body: TxBody) {
    body.inputs != [] && forall c :: c in l.coins && Names(body.inputs[0], c) ==> Genuine(tx, c.utxo.receiverSpendPkey)
  }

  ghost predicate ReceiverSigned(tx: Transaction, body: TxBody) {
    forall o :: o in body.outputs ==> Genuine(tx, o.receiverSpendPkey)
  }

  ghost function CoinbaseChecks(l: Ledger, tx: Transaction, body: TxBody): Checks {
    var signature := SignatureChecks(tx, ReceiverSigned(tx, body));
    RewardFormChecks(body, RewardChecks(l, body, ProposerChecks(l, body, signature)))
  }

  ghost function TransferChecks(l: Ledger, tx: Transaction, body: TxBody): Checks {
    var signature := SignatureChecks(tx, OwnerSigned(l, tx, body));
    var ifInitVote := InitVoteFormChecks(body, InitVoteChecks(l, body, signature));
    Then(
      InputChecks(l.coins, body, |body.inputs|),
      OutputChecks(l, body, KindChecks(body, ifInitVote, signature)))
  }

  ghost function BodyChecks(body: TxBody, ifReward: Checks, ifTransfer: Checks): Checks {
    Expect(body.outputs != [], CodeNoOutputs,
    Expect(body.hashLink == [] || body.voteType == 0, CodeHashLinkAndTypeVoteTogether,
    if body.hashLink != [] && body.inputs == [] then ifReward else ifTransfer))
  }

  /** All the checks on a body that parses. */
  ghost function ParsedChecks(l: Ledger, tx: Transaction, body: TxBody): Checks {
    BodyChecks(body, CoinbaseChecks(l, tx, body), TransferChecks(l, tx, body))
  }

  ghost function FormChecks(tx: Transaction, others: Checks): Checks {
    Expect(|tx.txBody| <= MAX_TX_SIZE, CodeTxTooLarge,
    Expect(DecodeBody(tx.txBody).Some?, CodeParseErr,
    Expect(tx.hash == Hash(tx.txBody), CodeHashesDontMatch,
    others)))
  }

  /** All checks, in the order of the source. */
  ghost function ChecksOf(l: Ledger, tx: Transaction): Checks {
    match DecodeBody(tx.txBody)
    case None => FormChecks(tx, Passed)
    case Some(body) => FormChecks(tx, ParsedChecks(l, tx, body))
  }

  /** CodeOk if all checks hold, or the answer of the first that does not. */
  ghost function AnswerTo(l: Ledger, tx: Transaction): Outcome<Code> {
    match FirstFailure(ChecksOf(l, tx))
    case None => Returned(CodeOk)
    case Some(answer) => answer
  }

  // That this is the verdict.

  /** How a verdict ends once the signature is looked at. */
  function Settled(v: Verdict, tx: Transaction): Option<Outcome<Code>> {
    match v
    case Refuse(code) => Some(Returned(code))
    case Crash => Some(Panicked)
    case SignedBy(pkey) =>
      if CheckSignature(tx, pkey) == CodeOk then None else Some(Returned(CheckSignature(tx, pkey)))
  }

  lemma {:induction false} SignatureSettled(tx: Transaction, owner: Bytes, genuine: bool)
    requires genuine <==> Genuine(tx, owner)
    ensures FirstFailure(SignatureChecks(tx, genuine)) == Settled(SignedBy(owner), tx)
  {}

  lemma {:induction false} ScanKeysNone(outputs: seq<Output>)
    ensures ScanKeys(outputs) == 0 <==> NoScanKeys(outputs)
    ensures ScanKeys(outputs) == |outputs| <==> OnlyScanKeys(outputs)
  {
    if outputs != [] {
      var n := |outputs| - 1;
      ScanKeysNone(outputs[..n]);
      assert outputs == outputs[..n] + [outputs[n]];
    }
  }

  /** The one coin with a name. */
  lemma {:induction false} TheCoin(coins: seq<Coin>, p: Input)
    requires Distinct(coins)
    ensures FindCoin(coins, p).Some? <==> exists c :: c in coins && Names(p, c)
    ensures FindCoin(coins, p).Some? ==> FindCoin(coins, p).value in coins && Names(p, FindCoin(coins, p).value)
    ensures forall c :: c in coins && Names(p, c) ==> FindCoin(coins, p) == Some(c)
  {
    FindSound(coins, p);
    forall c | c in coins && Names(p, c) ensures FindCoin(coins, p) == Some(c) {
      assert Point(c) == p;
      FindDistinct(coins, c);
    }
  }

  lemma {:induction false} InputSettledAt(coins: seq<Coin>, body: TxBody, k: nat)
    requires Distinct(coins) && k < |body.inputs|
    requires k > 0 ==> FindCoin(coins, body.inputs[0]).Some?
    ensures FirstFailure(InputChecksAt(coins, body, k))
         == match InputError(coins, body, k)
            case None => None
            case Some(code) => Some(Returned(code))
  {
    TheCoin(coins, body.inputs[0]);
    TheCoin(coins, body.inputs[k]);
  }

  lemma {:induction false} InputsSettled(coins: seq<Coin>, body: TxBody, n: nat)
    requires Distinct(coins) && n <= |body.inputs|
    ensures FirstFailure(InputChecks(coins, body, n))
         == match FirstError(coins, body, n)
            case None => None
            case Some(code) => Some(Returned(code))
    ensures n > 0 && FirstError(coins, body, n) == None ==> FindCoin(coins, body.inputs[0]).Some?
  {
    if n > 0 {
      var m := n - 1;
      InputsSettled(coins, body, m);
      if FirstError(coins, body, m) == None {
        InputSettledAt(coins, body, m);
      }
    }
  }

  lemma {:induction false} TheBlock(blocks: seq<BlockRecord>, hash: Bytes)
    requires LinearBlocks(blocks)
    ensures FindBlock(blocks, hash).Some? <==> exists b :: b in blocks && b.hash == hash
    ensures FindBlock(blocks, hash).Some? ==> FindBlock(blocks, hash).value < |blocks|
    ensures forall b :: b in blocks && b.hash == hash ==>
              FindBlock(blocks, hash).Some? && blocks[FindBlock(blocks, hash).value] == b
  {
    FindBlockSound(blocks, hash);
    forall b | b in blocks && b.hash == hash
      ensures FindBlock(blocks, hash).Some? && blocks[FindBlock(blocks, hash).value] == b
    {
      var i :| 0 <= i < |blocks| && blocks[i] == b;
      LinearAt(blocks, i);
    }
    if FindBlock(blocks, hash).Some? {
      assert blocks[FindBlock(blocks, hash).value] in blocks;
    }
  }

  lemma {:induction false} TheTx(txs: seq<TxRecord>, hash: Bytes)
    requires DistinctTxs(txs)
    ensures FindTx(txs, hash).Some? <==> exists t :: t in txs && t.hash == hash
    ensures forall t :: t in txs && t.hash == hash ==> FindTx(txs, hash) == Some(t)
  {
    FindTxSound(txs, hash);
    forall t | t in txs && t.hash == hash ensures FindTx(txs, hash) == Some(t) {
      var i :| 0 <= i < |txs| && txs[i] == t;
      FindTxAt(txs, i);
    }
  }

  predicate HasRewardForm(body: TxBody) {
    && |body.hashLink| == HASH_SIZE && |body.outputs| == 1 && body.duration == 0
    && body.senderEphemeralPkey == [] && body.votersSumPkey == [] && body.outputs[0].receiverScanPkey == []
  }

  lemma {:induction false} ProposerSettled(l: Ledger, tx: Transaction, body: TxBody, others: Checks)
    requires LinearBlocks(l.blocks) && HasRewardForm(body)
    requires FindLink(l.txs, body.hashLink) == None && FindBlock(l.blocks, body.hashLink).Some?
    requires FirstFailure(others) == Settled(SignedBy(body.outputs[0].receiverSpendPkey), tx)
    ensures FirstFailure(ProposerChecks(l, body, others)) == Settled(JudgeCoinbase(l, body), tx)
  {
    TheBlock(l.blocks, body.hashLink);
    assert body.outputs == [body.outputs[0]];
    assert l.blocks[FindBlock(l.blocks, body.hashLink).value] in l.blocks;
  }

  lemma {:induction false} RewardSettled(l: Ledger, tx: Transaction, body: TxBody, others: Checks)
    requires LinearBlocks(l.blocks) && HasRewardForm(body)
    requires FindLink(l.txs, body.hashLink) == None && FindBlock(l.blocks, body.hashLink).Some? ==>
               FirstFailure(others) == Settled(JudgeCoinbase(l, body), tx)
    ensures FirstFailure(RewardChecks(l, body, others)) == Settled(JudgeCoinbase(l, body), tx)
  {
    FindLinkSound(l.txs, body.hashLink);
    TheBlock(l.blocks, body.hashLink);
  }

  lemma {:induction false} RewardFormSettled(l: Ledger, tx: Transaction, body: TxBody, others: Checks)
    requires body.outputs != []
    requires HasRewardForm(body) ==> FirstFailure(others) == Settled(JudgeCoinbase(l, body), tx)
    ensures FirstFailure(RewardFormChecks(body, others)) == Settled(JudgeCoinbase(l, body), tx)
  {
    if |body.outputs| == 1 {
      assert body.outputs == [body.outputs[0]];
    }
  }

  predicate HasInitVoteForm(body: TxBody) {
    |body.senderEphemeralPkey| == PKEY_SIZE && |body.votersSumPkey| == PKEY_SIZE && ScanKeys(body.outputs) == 0
  }

  lemma {:induction false} InitVoteSettled(l: Ledger, tx: Transaction, body: TxBody, pkey: Bytes, others: Checks)
    requires DistinctTxs(l.txs) && HasInitVoteForm(body)
    requires FirstFailure(others) == Settled(SignedBy(pkey), tx)
    ensures FirstFailure(InitVoteChecks(l, body, others)) == Settled(JudgeInitVote(l, body, pkey), tx)
  {
    TheTx(l.txs, body.valueType);
  }

  lemma {:induction false} InitVoteFormSettled(l: Ledger, tx: Transaction, body: TxBody, pkey: Bytes, others: Checks)
    requires HasInitVoteForm(body) ==> FirstFailure(others) == Settled(JudgeInitVote(l, body, pkey), tx)
    ensures FirstFailure(InitVoteFormChecks(body, others)) == Settled(JudgeInitVote(l, body, pkey), tx)
  {
    ScanKeysNone(body.outputs);
  }

  lemma {:induction false} OutputsSettled(
    l: Ledger, tx: Transaction, body: TxBody, ifInitVote: Checks, signature: Checks)
    requires FirstFailure(ifInitVote) == Settled(JudgeInitVote(l, body, Owner(l.coins, body)), tx)
    requires FirstFailure(signature) == Settled(SignedBy(Owner(l.coins, body)), tx)
    ensures FirstFailure(OutputChecks(l, body, KindChecks(body, ifInitVote, signature)))
         == Settled(JudgeOutputs(l, body), tx)
  {
    ScanKeysNone(body.outputs);
  }

  lemma {:induction false} OwnerIs(l: Ledger, tx: Transaction, body: TxBody)
    requires Distinct(l.coins) && (body.inputs != [] ==> FindCoin(l.coins, body.inputs[0]).Some?)
    ensures OwnerSigned(l, tx, body) <==> Genuine(tx, Owner(l.coins, body))
  {
    if body.inputs != [] {
      TheCoin(l.coins, body.inputs[0]);
    }
  }

  /** The verdict that the input loop and what follows it give. */
  function JudgeTransferred(l: Ledger, body: TxBody): Verdict {
    match FirstError(l.coins, body, |body.inputs|)
    case Some(code) => Refuse(code)
    case None => JudgeOutputs(l, body)
  }

  lemma {:induction false} AfterInputsSettled(l: Ledger, tx: Transaction, body: TxBody)
    requires WF(l) && (body.inputs != [] ==> FindCoin(l.coins, body.inputs[0]).Some?)
    ensures var signature := SignatureChecks(tx, OwnerSigned(l, tx, body));
      var ifInitVote := InitVoteFormChecks(body, InitVoteChecks(l, body, signature));
      FirstFailure(OutputChecks(l, body, KindChecks(body, ifInitVote, signature))) == Settled(JudgeOutputs(l, body), tx)
  {
    var owner, signature := Owner(l.coins, body), SignatureChecks(tx, OwnerSigned(l, tx, body));
    OwnerIs(l, tx, body);
    SignatureSettled(tx, owner, OwnerSigned(l, tx, body));
    if HasInitVoteForm(body) {
      InitVoteSettled(l, tx, body, owner, signature);
    }
    InitVoteFormSettled(l, tx, body, owner, InitVoteChecks(l, body, signature));
    OutputsSettled(l, tx, body, InitVoteFormChecks(body, InitVoteChecks(l, body, signature)), signature);
  }

  lemma {:induction false} TransferSettled(l: Ledger, tx: Transaction, body: TxBody)
    requires WF(l)
    ensures FirstFailure(TransferChecks(l, tx, body)) == Settled(JudgeTransferred(l, body), tx)
  {
    InputsSettled(l.coins, body, |body.inputs|);
    if FirstError(l.coins, body, |body.inputs|) == None {
      AfterInputsSettled(l, tx, body);
    }
  }

  lemma {:induction false} CoinbaseSettled(l: Ledger, tx: Transaction, body: TxBody)
    requires WF(l) && body.outputs != []
    ensures FirstFailure(CoinbaseChecks(l, tx, body)) == Settled(JudgeCoinbase(l, body), tx)
  {
    var signature := SignatureChecks(tx, ReceiverSigned(tx, body));
    if HasRewardForm(body) {
      assert body.outputs == [body.outputs[0]];
      SignatureSettled(tx, body.outputs[0].receiverSpendPkey, ReceiverSigned(tx, body));
      if FindLink(l.txs, body.hashLink) == None && FindBlock(l.blocks, body.hashLink).Some? {
        ProposerSettled(l, tx, body, signature);
      }
      RewardSettled(l, tx, body, ProposerChecks(l, body, signature));
    }
    RewardFormSettled(l, tx, body, RewardChecks(l, body, ProposerChecks(l, body, signature)));
  }

  lemma {:induction false} BodySettled(l: Ledger, tx: Transaction, body: TxBody, ifReward: Checks, ifTransfer: Checks)
    requires body.outputs != [] ==> FirstFailure(ifReward) == Settled(JudgeCoinbase(l, body), tx)
    requires FirstFailure(ifTransfer) == Settled(JudgeTransferred(l, body), tx)
    ensures FirstFailure(BodyChecks(body, ifReward, ifTransfer)) == Settled(Judge(l, body), tx)
  {}

  lemma {:induction false} ParsedSettled(l: Ledger, tx: Transaction, body: TxBody)
    requires WF(l)
    ensures FirstFailure(ParsedChecks(l, tx, body)) == Settled(Judge(l, body), tx)
  {
    if body.outputs != [] {
      CoinbaseSettled(l, tx, body);
    }
    TransferSettled(l, tx, body);
    BodySettled(l, tx, body, CoinbaseChecks(l, tx, body), TransferChecks(l, tx, body));
  }

  lemma {:induction false} FormSettled(l: Ledger, tx: Transaction, others: Checks)
    requires DecodeBody(tx.txBody).Some? ==> FirstFailure(others) == Settled(Judge(l, Body(tx)), tx)
    ensures TxVerdict(l, tx) == match FirstFailure(FormChecks(tx, others))
                                case None => Returned(CodeOk)
                                case Some(answer) => answer
  {}

  /** The verdict on a transaction is the answer of the first check that fails, and CodeOk if none does. */
  lemma {:induction false} VerdictIsFirstFailure(l: Ledger, tx: Transaction)
    requires WF(l)
    ensures TxVerdict(l, tx) == AnswerTo(l, tx)
  {
    if DecodeBody(tx.txBody).Some? {
      ParsedSettled(l, tx, Body(tx));
      FormSettled(l, tx, ParsedChecks(l, tx, Body(tx)));
    } else {
      FormSettled(l, tx, Passed);
    }
  }
}
