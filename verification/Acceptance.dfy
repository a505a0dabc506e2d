/** What acceptance takes, stated on the signature, the coins, the stored transactions and the blocks themselves. */
module Acceptance {
  import opened Types
  import opened Crypto
  import opened LedgerSpec
  import opened WellFormed
  import opened Verdicts
  import opened Checks

  /** Small enough, and parsed and hashed as it says. */
  ghost predicate HasForm(tx: Transaction, body: TxBody) {
    |tx.txBody| <= MAX_TX_SIZE && DecodeBody(tx.txBody) == Some(body) && tx.hash == Hash(tx.txBody)
  }

  /** The fixed reward to the proposer of a stored block that no stored transaction links to, signed by the proposer. */
  ghost predicate RewardsProposer(l: Ledger, tx: Transaction, body: TxBody) {
    && body.inputs == [] && |body.hashLink| == HASH_SIZE && |body.outputs| == 1
    && body.voteType == 0 && body.duration == 0
    && body.senderEphemeralPkey == [] && body.votersSumPkey == []
    && body.outputs[0].value == REWARD_COINS && body.outputs[0].receiverScanPkey == []
    && (forall t :: t in l.txs ==> t.body.hashLink != body.hashLink)
    && (exists b :: b in l.blocks && b.hash == body.hashLink
          && b.header.proposerPkey == body.outputs[0].receiverSpendPkey)
    && Genuine(tx, body.outputs[0].receiverSpendPkey)
  }

  /** Input k names an unspent coin of this owner: money for a new voting, and else of the body's own type. */
  ghost predicate Spends(coins: seq<Coin>, body: TxBody, k: nat, owner: Bytes)
    requires k < |body.inputs|
  {
    exists c :: c in coins && Names(body.inputs[k], c)
      && c.utxo.receiverSpendPkey == owner && c.utxo.valueType == if body.voteType != 0 then [] else body.valueType
  }

  /** The stored create-vote transaction that an init-vote initializes, with as many outputs. */
  ghost predicate Initializes(l: Ledger, body: TxBody) {
    && |body.senderEphemeralPkey| == PKEY_SIZE && |body.votersSumPkey| == PKEY_SIZE
    && NoScanKeys(body.outputs)
    && exists t :: t in l.txs && t.hash == body.valueType
         && CreatesVoting(DecodeBody(EncodeBody(t.body))) && HasOutputs(DecodeBody(EncodeBody(t.body)), |body.outputs|)
  }

  /** Unspent coins of one owner and type, moved in equal amount modulo 2^32, signed by their owner. */
  ghost predicate MovesCoins(l: Ledger, tx: Transaction, body: TxBody, owner: Bytes) {
    && body.inputs != [] && body.outputs != [] && body.hashLink == []
    && (forall k :: 0 <= k < |body.inputs| ==> Spends(l.coins, body, k, owner))
    && OutputTotal(body.outputs) % TWO_TO_THE_32 == InputTotal(l.coins, body.inputs) % TWO_TO_THE_32
    && (NoScanKeys(body.outputs) || OnlyScanKeys(body.outputs))
    && (body.voteType != 0 ==> body.senderEphemeralPkey == [] && body.votersSumPkey == [])
    && (body.voteType == 0 && body.valueType != [] && body.senderEphemeralPkey != [] && body.votersSumPkey != [] ==>
          Initializes(l, body))
    && Genuine(tx, owner)
  }

  lemma {:induction false} SpendsIs(coins: seq<Coin>, body: TxBody, k: nat, owner: Bytes)
    requires Distinct(coins) && k < |body.inputs|
    ensures SpendsCoinOf(coins, body, k, owner) <==> Spends(coins, body, k, owner)
  {
    TheCoin(coins, body.inputs[k]);
  }

  lemma {:induction false} InitializesIs(l: Ledger, body: TxBody)
    requires DistinctTxs(l.txs)
    ensures InitializesVoting(l, body) <==> Initializes(l, body)
  {
    TheTx(l.txs, body.valueType);
    ScanKeysNone(body.outputs);
  }

  lemma {:induction false} TransferIs(l: Ledger, tx: Transaction, body: TxBody, owner: Bytes)
    requires WF(l) && DecodeBody(tx.txBody) == Some(body)
    ensures IsTransfer(l, body, owner) && WellSigned(tx, owner) <==> MovesCoins(l, tx, body, owner)
  {
    forall k | 0 <= k < |body.inputs|
      ensures SpendsCoinOf(l.coins, body, k, owner) <==> Spends(l.coins, body, k, owner)
    {
      SpendsIs(l.coins, body, k, owner);
    }
    ScanKeysNone(body.outputs);
    InitializesIs(l, body);
  }

  lemma {:induction false} RewardIs(l: Ledger, tx: Transaction, body: TxBody)
    requires WF(l) && DecodeBody(tx.txBody) == Some(body)
    ensures IsReward(l, body) && WellSigned(tx, body.outputs[0].receiverSpendPkey) <==> RewardsProposer(l, tx, body)
  {
    TheBlock(l.blocks, body.hashLink);
  }

  /** Exactly such transactions are accepted. */
  lemma {:induction false} AcceptedExactly(l: Ledger, tx: Transaction)
    requires WF(l)
    ensures Accepts(l, tx) <==>
            exists body :: HasForm(tx, body)
              && (RewardsProposer(l, tx, body) || exists owner :: MovesCoins(l, tx, body, owner))
  {
    AcceptsExactly(l, tx);
    if DecodeBody(tx.txBody).Some? {
      var body := Body(tx);
      RewardIs(l, tx, body);
      forall owner
        ensures IsTransfer(l, body, owner) && WellSigned(tx, owner) <==> MovesCoins(l, tx, body, owner)
      {
        TransferIs(l, tx, body, owner);
      }
      assert FormError(tx) == None <==> HasForm(tx, body);
    }
  }

  /** The key that has to sign: the receiver of a reward, and else the owner of the first input. */
  function SignerOf(l: Ledger, body: TxBody): Option<Bytes> {
    if body.inputs == [] then
      if body.outputs == [] then None else Some(body.outputs[0].receiverSpendPkey)
    else
      match FindCoin(l.coins, body.inputs[0])
      case None => None
      case Some(c) => Some(c.utxo.receiverSpendPkey)
  }

  /**
   No forgery: whatever is accepted carries 65 bytes, the first 64 of which are a signature of the hash of
   the body under the signer's key.
   */
  lemma {:induction false} AcceptedIsSigned(l: Ledger, tx: Transaction)
    requires Accepts(l, tx)
    ensures |tx.sig| == SIG_SIZE && SignerOf(l, Body(tx)).Some?
    ensures var owner := SignerOf(l, Body(tx)).value;
      owner != [] && VerifyDigest(owner, Hash(tx.txBody), tx.sig[..SIG_SIZE - 1])
  {
    AcceptsExactly(l, tx);
    if !IsReward(l, Body(tx)) {
      var owner :| IsTransfer(l, Body(tx), owner) && WellSigned(tx, owner);
      assert SpendsCoinOf(l.coins, Body(tx), 0, owner);
    }
  }
}
