/** Byte strings, fixed-width integers and the protobuf messages of proto/blockchain.proto. */
module Types {

  datatype Option<+T> = None | Some(value: T)

  type Byte = b: int | 0 <= b < 256
  /** A Go []byte. A nil slice and an empty one are not told apart, as `len(x) != 0` never does. */
  type Bytes = seq<Byte>

  const HASH_SIZE := 32
  const PKEY_SIZE := 33
  const TM_ADDR_SIZE := 20
  const SIG_SIZE := 65
  const MAX_TX_SIZE := 524288
  const REWARD_COINS := 1000
  const ONE_VOTE_TYPE := 1
  const PERCENT_VOTE_TYPE := 2

  /** A zeroed Go array of n bytes. */
  function Zeros(n: nat): (z: Bytes)
    ensures |z| == n
  {
    if n == 0 then [] else Zeros(n - 1) + [0]
  }

  type Digest = b: Bytes | |b| == HASH_SIZE witness Zeros(HASH_SIZE)
  const ZERO_HASH: Bytes := Zeros(HASH_SIZE)
  const ZERO_PKEY: Bytes := Zeros(PKEY_SIZE)

  const TWO_TO_THE_31 := 0x8000_0000
  const TWO_TO_THE_32 := 0x1_0000_0000
  const TWO_TO_THE_63 := 0x8000_0000_0000_0000
  const TWO_TO_THE_64 := 0x1_0000_0000_0000_0000

  type u32 = x: int | 0 <= x < TWO_TO_THE_32
  type u64 = x: int | 0 <= x < TWO_TO_THE_64

  /** Go's wrapping `a + b` on uint32. */
  function Add32(a: u32, b: u32): u32 {
    (a + b) % TWO_TO_THE_32
  }

  /** SliceToPkey: copy into a zeroed array of PKEY_SIZE bytes. */
  function SliceToPkey(v: Bytes): Bytes {
    if |v| >= PKEY_SIZE then v[..PKEY_SIZE] else v + Zeros(PKEY_SIZE - |v|)
  }

  /** The key under which getValidator looks a consensus address up. */
  function SliceToTmAddr(v: Bytes): Bytes {
    if |v| >= TM_ADDR_SIZE then v[..TM_ADDR_SIZE] else v + Zeros(TM_ADDR_SIZE - |v|)
  }

  /** The array of `size` bytes that Go's copy makes of a slice: cut where it is longer, zeros where it is shorter. */
  ghost predicate CopiedTo(v: Bytes, size: nat, copied: Bytes) {
    |copied| == size && forall i :: 0 <= i < size ==> copied[i] == if i < |v| then v[i] else 0
  }

  lemma {:induction false} ZerosAreZero(n: nat)
    ensures forall i :: 0 <= i < n ==> Zeros(n)[i] == 0
  {
    if n > 0 {
      var m := n - 1;
      ZerosAreZero(m);
    }
  }

  /** The key of a slice is its copy, and there is only one. */
  lemma {:induction false} SliceToPkeyCopies(v: Bytes, key: Bytes)
    ensures SliceToPkey(v) == key <==> CopiedTo(v, PKEY_SIZE, key)
  {
    if |v| < PKEY_SIZE {
      ZerosAreZero(PKEY_SIZE - |v|);
    }
    assert CopiedTo(v, PKEY_SIZE, SliceToPkey(v));
  }

  lemma {:induction false} SliceToTmAddrCopies(v: Bytes, address: Bytes)
    ensures SliceToTmAddr(v) == address <==> CopiedTo(v, TM_ADDR_SIZE, address)
  {
    if |v| < TM_ADDR_SIZE {
      ZerosAreZero(TM_ADDR_SIZE - |v|);
    }
    assert CopiedTo(v, TM_ADDR_SIZE, SliceToTmAddr(v));
  }

  /** A slice of the right length is copied whole. */
  lemma {:induction false} CopiedWhole(v: Bytes, copied: Bytes)
    ensures CopiedTo(v, |v|, copied) <==> v == copied
  {}

  /** An input names an output of an earlier transaction. Also used as the name of an output. */
  datatype Input = Input(prevTxHash: Bytes, outputIndex: nat)

  datatype Output = Output(receiverSpendPkey: Bytes, receiverScanPkey: Bytes, value: u32)

  datatype TxBody = TxBody(
    inputs: seq<Input>,
    outputs: seq<Output>,
    hashLink: Bytes,
    valueType: Bytes,
    voteType: u32,
    duration: u32,
    senderEphemeralPkey: Bytes,
    votersSumPkey: Bytes)

  const EMPTY_BODY := TxBody([], [], [], [], 0, 0, [], [])

  /** The body stays serialized, as in the message. */
  datatype Transaction = Transaction(txBody: Bytes, hash: Bytes, sig: Bytes)

  datatype Utxo = Utxo(
    txHash: Bytes,
    valueType: Bytes,
    index: nat,
    value: u32,
    receiverSpendPkey: Bytes,
    receiverScanPkey: Bytes,
    timestamp: u64)

  datatype BlockHeader = BlockHeader(prevBlockHash: Bytes, merkleTree: Bytes, proposerPkey: Bytes, timestamp: u64)

  datatype Block = Block(header: BlockHeader, transactions: seq<Transaction>, hash: Bytes)

  /** The answer codes of evote/constants.go that the modelled functions return. */
  datatype Code =
    | CodeOk
    | CodeParseErr
    | CodeNoOutputs
    | CodeHashLinkAndTypeVoteTogether
    | CodeDoubleSpending
    | CodeMixingTypeValue
    | CodeInputsNotMatchOutputs
    | CodeInvalidSignature
    | CodeInvalidSignatureLen
    | CodeCoinbaseTxNoOutput
    | CodeCoinbaseNoBlock
    | CodeCoinbaseProposerMismatch
    | CodeCoinbaseIncorrectReward
    | CodeDoubleCoinbaseForSameBlock
    | CodeInvalidDataLen
    | CodeHashesDontMatch
    | CodeTxTooLarge
    | CodeHashLinkInvalidLen
    | CodeUnexpectedScanKey
    | CodeCoinbaseUnexpectedDuration
    | CodeCoinbaseUnexpectedSenderEphemeralPkey
    | CodeCoinbaseUnexpectedVotersSumPkey
    | CodeInputNotOwn
    | CodeOutputsHaveBothNilAndNotNilScanKeys
    | CodeCreateVoteTxUnexpectedSenderEphemeralPkey
    | CodeCreateVoteTxUnexpectedVotersSumPkey
    | CodeVotesUsedAsFunding
    | CodeInvalidSenderEphemeralPkeyLen
    | CodeInvalidVotersSumPkeyLen
    | CodeInitVoteMustHaveNilScanPkeys
    | CodeNotSupported
    | CodeValueTypeInvalid
    | CodeInvalidVoteParticipantNumber

  /** How a Go call ends: with a value, or in a panic that takes the process down. */
  datatype Outcome<+T> = Returned(value: T) | Panicked
}
