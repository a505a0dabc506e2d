/** What CreateTx owes its caller, stated on its arguments. */
module Payments {
  import opened Types
  import opened Crypto

  /** The requested total. */
  function RequestedTotal(outputs: seq<(Bytes, u32)>): nat {
    if outputs == [] then 0 else RequestedTotal(outputs[..|outputs| - 1]) + outputs[|outputs| - 1].1
  }

  /** The value at those of the picked positions that come before position i. */
  function PickedBelow(utxos: seq<Utxo>, picks: seq<nat>, i: nat): nat
    requires forall k :: 0 <= k < |picks| ==> picks[k] < |utxos|
  {
    if picks == [] then 0
    else
      var last := picks[|picks| - 1];
      PickedBelow(utxos, picks[..|picks| - 1], i) + if last < i then utxos[last].value else 0
  }

  /** Positions in rising order. */
  ghost predicate Positions(picks: seq<nat>, n: nat) {
    && (forall k :: 0 <= k < |picks| ==> picks[k] < n)
    && (forall j, k :: 0 <= j < k < |picks| ==> picks[j] < picks[k])
  }

  /** Picked are the UTXOs of the right type at which what is picked before does not yet cover the target. */
  ghost predicate PicksGreedily(
    utxos: seq<Utxo>, valueType: Bytes, ignoreTypeValue: bool, target: nat, picks: seq<nat>)
  {
    && Positions(picks, |utxos|)
    && forall i :: 0 <= i < |utxos| ==>
         (i in picks <==>
            && (ignoreTypeValue || utxos[i].valueType == valueType)
            && PickedBelow(utxos, picks, i) % TWO_TO_THE_32 < target)
  }

  /** The inputs name the picked UTXOs, in order. */
  ghost predicate SpendsPicked(body: TxBody, utxos: seq<Utxo>, picks: seq<nat>) {
    && |body.inputs| == |picks|
    && forall k :: 0 <= k < |picks| ==>
         picks[k] < |utxos| && body.inputs[k] == Input(utxos[picks[k]].txHash, utxos[picks[k]].index)
  }

  /** The outputs are the requested ones, and then the change to the first UTXO's owner, if there is any. */
  ghost predicate PaysRequested(body: TxBody, utxos: seq<Utxo>, outputs: seq<(Bytes, u32)>, change: int) {
    && utxos != []
    && |body.outputs| == |outputs| + (if change > 0 then 1 else 0)
    && (forall k :: 0 <= k < |outputs| ==> body.outputs[k] == Output(outputs[k].0, [], outputs[k].1))
    && (change > 0 ==>
          && body.outputs[|outputs|].receiverSpendPkey == utxos[0].receiverSpendPkey
          && body.outputs[|outputs|].receiverScanPkey == []
          && body.outputs[|outputs|].value == change)
  }

  /** Hashed and signed under these keys. */
  ghost predicate IsSigned(tx: Transaction, keys: Keys) {
    tx.hash == Hash(tx.txBody) && tx.sig == SignDigest(keys.privateKey, Hash(tx.txBody))
  }

  /** The body of such a payment. */
  ghost predicate IsPayment(
    body: TxBody, utxos: seq<Utxo>, outputs: seq<(Bytes, u32)>, valueType: Bytes, voteType: u32, duration: u32,
    picks: seq<nat>, change: int)
  {
    && SpendsPicked(body, utxos, picks)
    && PaysRequested(body, utxos, outputs, change)
    && body.valueType == valueType && body.voteType == voteType && body.duration == duration
    && body.hashLink == [] && body.senderEphemeralPkey == [] && body.votersSumPkey == []
  }

  /** What the picked UTXOs hold more than is requested, both modulo 2^32. */
  function Change(utxos: seq<Utxo>, outputs: seq<(Bytes, u32)>, picks: seq<nat>): int
    requires forall k :: 0 <= k < |picks| ==> picks[k] < |utxos|
  {
    PickedBelow(utxos, picks, |utxos|) % TWO_TO_THE_32 - RequestedTotal(outputs) % TWO_TO_THE_32
  }

  /**
   A transaction exactly if there are UTXOs and requested outputs and the picked UTXOs cover them. It is
   signed, and what its bytes parse to is the payment.
   */
  ghost predicate Created(
    tx: Option<Transaction>, utxos: seq<Utxo>, outputs: seq<(Bytes, u32)>, valueType: Bytes, keys: Keys,
    voteType: u32, duration: u32, picks: seq<nat>)
    requires forall k :: 0 <= k < |picks| ==> picks[k] < |utxos|
  {
    var change := Change(utxos, outputs, picks);
    && (tx.Some? <==> utxos != [] && outputs != [] && change >= 0)
    && (tx.Some? ==>
          && IsSigned(tx.value, keys)
          && (BodyRoundTrips() ==>
                && DecodeBody(tx.value.txBody).Some?
                && IsPayment(
                     DecodeBody(tx.value.txBody).value, utxos, outputs, valueType, voteType, duration, picks, change)))
  }
}
