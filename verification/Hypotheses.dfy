/**
 Why conservation has to assume fair blocks: for each of its three needs, blocks without it that the code
 accepts and that break conservation. Distinct links is not one of them: a block that pays two rewards for
 one block breaks only the bound of rewards by blocks, and of the supply by blocks with it. Each block
 here is any that can be saved and holds the transactions named.
 */
module Hypotheses {
  import opened Types
  import opened Crypto
  import opened Blocks
  import opened LedgerSpec
  import opened WellFormed
  import opened Sound
  import opened Verdicts
  import opened Accepted
  import opened Values
  import opened Conservation
  import opened Supply
  import opened Votings
  import opened Wallet

  // Blocks of one or two transactions.

  lemma {:induction false} OneTx(l: Ledger, b: Block, sel: Selector)
    requires |b.transactions| == 1 && (sel.Every? || sel.OfType?)
    ensures BlockInputs(b, 1) == Body(b.transactions[0]).inputs
    ensures Issued(b, 1, sel) == IssuedAt(b, 0, sel)
    ensures Rewards(b, 1, sel) == RewardAt(b, 0, sel) && Overflows(l, b, 1, sel) == OverflowAt(l, b, 0, sel)
  {
    assert BlockInputs(b, 0) == [];
    assert Issued(b, 0, sel) == 0 && Rewards(b, 0, sel) == 0 && Overflows(l, b, 0, sel) == 0;
  }

  lemma {:induction false} TwoTxs(l: Ledger, b: Block, sel: Selector)
    requires |b.transactions| == 2 && (sel.Every? || sel.OfType?)
    ensures BlockInputs(b, 2) == Body(b.transactions[0]).inputs + Body(b.transactions[1]).inputs
    ensures Issued(b, 2, sel) == IssuedAt(b, 0, sel) + IssuedAt(b, 1, sel)
    ensures Rewards(b, 2, sel) == RewardAt(b, 0, sel) + RewardAt(b, 1, sel)
    ensures Overflows(l, b, 2, sel) == OverflowAt(l, b, 0, sel) + OverflowAt(l, b, 1, sel)
  {
    assert BlockInputs(b, 0) == [];
    assert BlockInputs(b, 1) == BlockInputs(b, 0) + Body(b.transactions[0]).inputs;
    assert Issued(b, 0, sel) == 0 && Rewards(b, 0, sel) == 0 && Overflows(l, b, 0, sel) == 0;
    assert Issued(b, 1, sel) == IssuedAt(b, 0, sel) && Rewards(b, 1, sel) == RewardAt(b, 0, sel);
    assert Overflows(l, b, 1, sel) == OverflowAt(l, b, 0, sel);
  }

  lemma {:induction false} BlockOfOne(l: Ledger, b: Block, tx: Transaction)
    requires b.transactions == [tx] && Accepts(l, tx) && CreatedAfter(b, TipHash(l)) && CanSave(l, b)
    ensures AcceptedBlock(l, b)
  {
    assert b.transactions[..0] == [];
  }

  lemma {:induction false} BlockOfTwo(l: Ledger, b: Block, tx: Transaction, next: Transaction)
    requires b.transactions == [tx, next] && Accepts(l, tx) && Accepts(l, next)
    requires CreatedAfter(b, TipHash(l)) && CanSave(l, b)
    ensures AcceptedBlock(l, b)
  {
    assert b.transactions[..1] == [tx] && [tx][..0] == [];
  }

  // One coin handed on.

  /** A transfer of the whole coin. */
  function SpendWhole(c: Coin, outputs: seq<Output>): TxBody {
    TxBody([Point(c)], outputs, [], c.utxo.valueType, 0, 0, [], [])
  }

  /** The whole coin handed on to one receiver. */
  function Handover(c: Coin, receiver: Bytes): TxBody {
    SpendWhole(c, [Output(receiver, [], c.utxo.value)])
  }

  /** The coin handed on, and 2^32 more. */
  function WrappedHandover(c: Coin, receiver: Bytes): TxBody {
    var half := Output(receiver, [], TWO_TO_THE_31 - 1);
    SpendWhole(c, [half, half, Output(receiver, [], 2), Output(receiver, [], c.utxo.value)])
  }

  lemma {:induction false} OneOutput(out: Output)
    ensures OutputTotal([out]) == out.value
    ensures ScanKeys([out]) == if out.receiverScanPkey == [] then 0 else 1
  {
    assert [out][..0] == [];
  }

  lemma {:induction false} MoreOutputs(outputs: seq<Output>, out: Output)
    ensures OutputTotal(outputs + [out]) == OutputTotal(outputs) + out.value
    ensures ScanKeys(outputs + [out]) == ScanKeys(outputs) + if out.receiverScanPkey == [] then 0 else 1
  {
    assert (outputs + [out])[..|outputs|] == outputs;
  }

  lemma {:induction false} OneInput(coins: seq<Coin>, c: Coin)
    requires Distinct(coins) && c in coins
    ensures FindCoin(coins, Point(c)) == Some(c) && InputTotal(coins, [Point(c)]) == c.utxo.value
  {
    FindDistinct(coins, c);
    assert [Point(c)][..0] == [];
  }

  lemma {:induction false} SpendingAccepted(l: Ledger, keys: Keys, c: Coin, outputs: seq<Output>)
    requires WF(l) && IsKeyPair(keys) && BodyRoundTrips()
    requires c in l.coins && c.utxo.receiverSpendPkey == keys.pkey
    requires outputs != [] && ScanKeys(outputs) == 0
    requires OutputTotal(outputs) % TWO_TO_THE_32 == c.utxo.value % TWO_TO_THE_32
    requires |EncodeBody(SpendWhole(c, outputs))| <= MAX_TX_SIZE
    ensures Accepts(l, Signed(keys, SpendWhole(c, outputs)))
    ensures Body(Signed(keys, SpendWhole(c, outputs))) == SpendWhole(c, outputs)
  {
    var tx := Signed(keys, SpendWhole(c, outputs));
    SignedVerifies(keys, SpendWhole(c, outputs));
    OneInput(l.coins, c);
    AcceptsExactly(l, tx);
    assert IsTransfer(l, Body(tx), keys.pkey) && WellSigned(tx, keys.pkey);
  }

  lemma {:induction false} HandoverAccepted(l: Ledger, keys: Keys, c: Coin, receiver: Bytes)
    requires WF(l) && IsKeyPair(keys) && BodyRoundTrips()
    requires c in l.coins && c.utxo.receiverSpendPkey == keys.pkey
    requires |EncodeBody(Handover(c, receiver))| <= MAX_TX_SIZE
    ensures Accepts(l, Signed(keys, Handover(c, receiver)))
    ensures Body(Signed(keys, Handover(c, receiver))) == Handover(c, receiver)
  {
    OneOutput(Output(receiver, [], c.utxo.value));
    OneInput(l.coins, c);
    SpendingAccepted(l, keys, c, Handover(c, receiver).outputs);
  }

  lemma {:induction false} RepeatedTwice(coins: seq<Coin>, p: Input, sel: Selector)
    ensures Repeated(coins, [p, p], sel) == PointWorth(coins, p, sel)
  {
    assert [p, p][..1] == [p] && [p][..0] == [];
    assert Repeated(coins, [p], sel) == 0 && p in [p];
  }

  lemma {:induction false} RepeatedOnce(coins: seq<Coin>, p: Input, sel: Selector)
    ensures Repeated(coins, [p], sel) == 0
  {
    assert [p][..0] == [];
  }

  lemma {:induction false} HandoverMovesAll(l: Ledger, b: Block, i: nat, c: Coin, receiver: Bytes, sel: Selector)
    requires i < |b.transactions| && Body(b.transactions[i]) == Handover(c, receiver) && IsKind(sel)
    requires OutputTotal(Handover(c, receiver).outputs) == InputTotal(l.coins, Handover(c, receiver).inputs)
    ensures IssuedAt(b, i, sel) == 0 && RewardAt(b, i, sel) == 0 && OverflowAt(l, b, i, sel) == 0
  {}

  lemma {:induction false} TwoHandovers(l: Ledger, b: Block, c: Coin, x: Bytes, y: Bytes, sel: Selector)
    requires Distinct(l.coins) && c in l.coins && IsKind(sel) && Selects(sel, c)
    requires |b.transactions| == 2
    requires Body(b.transactions[0]) == Handover(c, x) && Body(b.transactions[1]) == Handover(c, y)
    ensures Issued(b, 2, sel) == 0 && Rewards(b, 2, sel) == 0 && Overflows(l, b, 2, sel) == 0
    ensures Repeated(l.coins, BlockInputs(b, 2), sel) == c.utxo.value
  {
    OneInput(l.coins, c);
    OneOutput(Output(x, [], c.utxo.value));
    OneOutput(Output(y, [], c.utxo.value));
    HandoverMovesAll(l, b, 0, c, x, sel);
    HandoverMovesAll(l, b, 1, c, y, sel);
    TwoTxs(l, b, sel);
    assert [Point(c)] + [Point(c)] == [Point(c), Point(c)];
    RepeatedTwice(l.coins, Point(c), sel);
  }

  /**
   Distinct spends: within one block the executor does not look for double spending. If the owner of a
   coin, be it money or votes, hands the whole of it to two receivers, there is more of its kind by the
   coin's value.
   */
  lemma {:induction false} DistinctSpendsNeeded(
    l: Ledger, keys: Keys, c: Coin, sel: Selector, x: Bytes, y: Bytes, b: Block)
    requires IsKind(sel) && Selects(sel, c)
    requires WF(l) && IsKeyPair(keys) && BodyRoundTrips()
    requires c in l.coins && c.utxo.receiverSpendPkey == keys.pkey
    requires |EncodeBody(Handover(c, x))| <= MAX_TX_SIZE && |EncodeBody(Handover(c, y))| <= MAX_TX_SIZE
    requires b.transactions == [Signed(keys, Handover(c, x)), Signed(keys, Handover(c, y))]
    requires CreatedAfter(b, TipHash(l)) && CanSave(l, b)
    ensures AcceptedBlock(l, b)
    ensures Worth(ApplyBlock(l, b).coins, sel) == Worth(l.coins, sel) + c.utxo.value
  {
    HandoverAccepted(l, keys, c, x);
    HandoverAccepted(l, keys, c, y);
    BlockOfTwo(l, b, b.transactions[0], b.transactions[1]);
    TwoHandovers(l, b, c, x, y, sel);
    BlockBalance(l, b, sel);
  }

  lemma {:induction false} WrappedTotal(c: Coin, receiver: Bytes)
    ensures OutputTotal(WrappedHandover(c, receiver).outputs) == TWO_TO_THE_32 + c.utxo.value
    ensures ScanKeys(WrappedHandover(c, receiver).outputs) == 0
  {
    var half, two := Output(receiver, [], TWO_TO_THE_31 - 1), Output(receiver, [], 2);
    var rest := Output(receiver, [], c.utxo.value);
    OneOutput(half);
    MoreOutputs([half], half);
    MoreOutputs([half, half], two);
    MoreOutputs([half, half, two], rest);
    assert [half] + [half] == [half, half] && [half, half] + [two] == [half, half, two];
    assert [half, half, two] + [rest] == [half, half, two, rest];
  }

  /**
   Output sums of 32 bits: the sums are compared modulo 2^32. If a coin, be it money or votes, is spent
   for outputs worth 2^32 more, each of which fits its column, there is more of its kind by that much.
   */
  lemma {:induction false} OutputsFitNeeded(
    l: Ledger, keys: Keys, c: Coin, sel: Selector, receiver: Bytes, b: Block)
    requires IsKind(sel) && Selects(sel, c)
    requires WF(l) && IsKeyPair(keys) && BodyRoundTrips()
    requires c in l.coins && c.utxo.receiverSpendPkey == keys.pkey
    requires |EncodeBody(WrappedHandover(c, receiver))| <= MAX_TX_SIZE
    requires b.transactions == [Signed(keys, WrappedHandover(c, receiver))]
    requires CreatedAfter(b, TipHash(l)) && CanSave(l, b)
    ensures AcceptedBlock(l, b)
    ensures Worth(ApplyBlock(l, b).coins, sel) == Worth(l.coins, sel) + TWO_TO_THE_32
  {
    WrappedTotal(c, receiver);
    SpendingAccepted(l, keys, c, WrappedHandover(c, receiver).outputs);
    BlockOfOne(l, b, b.transactions[0]);
    OneInput(l.coins, c);
    OneTx(l, b, sel);
    assert OverflowAt(l, b, 0, sel) == 1 && RewardAt(b, 0, sel) == 0 && IssuedAt(b, 0, sel) == 0;
    RepeatedOnce(l.coins, Point(c), sel);
    BlockBalance(l, b, sel);
  }

  // Rewards.

  /** The reward for a block with a value type that CreateMiningReward would not give it. */
  function TypedReward(pkey: Bytes, blockHash: Bytes, valueType: Bytes): TxBody {
    RewardBody(pkey, blockHash).(valueType := valueType)
  }

  /** Block i is stored, was proposed under these keys, and is not rewarded yet. */
  ghost predicate Rewardable(l: Ledger, keys: Keys, i: nat) {
    && WF(l) && IsKeyPair(keys) && BodyRoundTrips()
    && i < |l.blocks| && |l.blocks[i].hash| == HASH_SIZE
    && l.blocks[i].header.proposerPkey == keys.pkey
    && FindLink(l.txs, l.blocks[i].hash) == None
  }

  lemma {:induction false} TypedRewardAccepted(l: Ledger, keys: Keys, i: nat, valueType: Bytes)
    requires Rewardable(l, keys, i)
    requires |EncodeBody(TypedReward(keys.pkey, l.blocks[i].hash, valueType))| <= MAX_TX_SIZE
    ensures Accepts(l, Signed(keys, TypedReward(keys.pkey, l.blocks[i].hash, valueType)))
    ensures Body(Signed(keys, TypedReward(keys.pkey, l.blocks[i].hash, valueType)))
         == TypedReward(keys.pkey, l.blocks[i].hash, valueType)
  {
    RewardAccepted(l, keys, i, valueType);
    SignedVerifies(keys, TypedReward(keys.pkey, l.blocks[i].hash, valueType));
  }

  /**
   Untyped rewards: the executor does not look at a reward's value type. If a reward names a stored
   voting, that voting gets 1000 more votes.
   */
  lemma {:induction false} UntypedRewardsNeeded(l: Ledger, keys: Keys, i: nat, voting: Bytes, b: Block)
    requires Rewardable(l, keys, i) && voting != [] && FindTx(l.txs, voting).Some?
    requires |EncodeBody(TypedReward(keys.pkey, l.blocks[i].hash, voting))| <= MAX_TX_SIZE
    requires b.transactions == [Signed(keys, TypedReward(keys.pkey, l.blocks[i].hash, voting))]
    requires CreatedAfter(b, TipHash(l)) && CanSave(l, b)
    ensures AcceptedBlock(l, b)
    ensures Worth(ApplyBlock(l, b).coins, OfType(voting)) == Worth(l.coins, OfType(voting)) + REWARD_COINS
  {
    TypedRewardAccepted(l, keys, i, voting);
    BlockOfOne(l, b, b.transactions[0]);
    OneTx(l, b, OfType(voting));
    BlockBalance(l, b, OfType(voting));
  }

  /** A block of two rewards for one block. */
  lemma {:induction false} TwoRewards(l: Ledger, b: Block, link: Bytes)
    requires |b.transactions| == 2
    requires IsCoinbase(Body(b.transactions[0])) && Body(b.transactions[0]).hashLink == link
    requires IsCoinbase(Body(b.transactions[1])) && Body(b.transactions[1]).hashLink == link
    ensures !DistinctLinks(b) && BlockLinks(b, 2) == {link} && BlockInputs(b, 2) == []
    ensures Rewards(b, 2, Every) == 2 && Overflows(l, b, 2, Every) == 0
  {
    TwoTxs(l, b, Every);
    assert BlockLinks(b, 1) == BlockLinks(b, 0) + {link};
  }

  /**
   Distinct links: the executor looks for another reward of the same block only among the stored
   transactions. If a block holds two that differ in value type, both are paid. The supply is still 1000
   a reward; but there are then more rewards than rewarded blocks, which `RewardsAreFew` excludes.
   */
  lemma {:induction false} DistinctLinksNeeded(l: Ledger, keys: Keys, i: nat, x: Bytes, y: Bytes, b: Block)
    requires Rewardable(l, keys, i)
    requires |EncodeBody(TypedReward(keys.pkey, l.blocks[i].hash, x))| <= MAX_TX_SIZE
    requires |EncodeBody(TypedReward(keys.pkey, l.blocks[i].hash, y))| <= MAX_TX_SIZE
    requires b.transactions == [
               Signed(keys, TypedReward(keys.pkey, l.blocks[i].hash, x)),
               Signed(keys, TypedReward(keys.pkey, l.blocks[i].hash, y))]
    requires CreatedAfter(b, TipHash(l)) && CanSave(l, b)
    ensures AcceptedBlock(l, b) && !DistinctLinks(b)
    ensures Rewards(b, 2, Every) == 2 && BlockLinks(b, 2) == {l.blocks[i].hash}
    ensures Worth(ApplyBlock(l, b).coins, Every) == Worth(l.coins, Every) + 2 * REWARD_COINS
  {
    TypedRewardAccepted(l, keys, i, x);
    TypedRewardAccepted(l, keys, i, y);
    BlockOfTwo(l, b, b.transactions[0], b.transactions[1]);
    TwoRewards(l, b, l.blocks[i].hash);
    NothingIssued(b, 2, Every);
    BlockBalance(l, b, Every);
  }

  // What a typed reward leads to.

  /** An init-vote that spends a coin whose type names no stored transaction makes AppendTx panic. */
  lemma {:induction false} StrayCoinCrashes(l: Ledger, c: Coin, tx: Transaction)
    requires Distinct(l.coins) && c in l.coins && c.utxo.valueType != [] && FindTx(l.txs, c.utxo.valueType) == None
    requires FormError(tx) == None && Body(tx) == InitVoteOf(c)
    ensures TxVerdict(l, tx) == Panicked
  {
    InitVoteReachesLookUp(l, c);
    CrashesExactly(l, tx);
  }

  /** Such a coin comes from a reward whose value type names no stored transaction. */
  lemma {:induction false} TypedRewardStrays(l: Ledger, keys: Keys, i: nat, valueType: Bytes, b: Block)
    returns (c: Coin)
    requires Rewardable(l, keys, i) && valueType != [] && FindTx(ApplyBlock(l, b).txs, valueType) == None
    requires |EncodeBody(TypedReward(keys.pkey, l.blocks[i].hash, valueType))| <= MAX_TX_SIZE
    requires b.transactions == [Signed(keys, TypedReward(keys.pkey, l.blocks[i].hash, valueType))]
    requires CreatedAfter(b, TipHash(l)) && CanSave(l, b)
    ensures AcceptedBlock(l, b) && c in ApplyBlock(l, b).coins
    ensures forall tx :: FormError(tx) == None && Body(tx) == InitVoteOf(c) ==>
              TxVerdict(ApplyBlock(l, b), tx) == Panicked
  {
    TypedRewardAccepted(l, keys, i, valueType);
    BlockOfOne(l, b, b.transactions[0]);
    AcceptedForms(l, b.transactions[0]);
    c := RewardCoin(l, b, 0);
    AcceptedBlockIsSound(l, b);
    MadeIsUnspent(l, b, 0, c);
    BlockKeepsWF(l, b);
    forall tx | FormError(tx) == None && Body(tx) == InitVoteOf(c)
      ensures TxVerdict(ApplyBlock(l, b), tx) == Panicked
    {
      StrayCoinCrashes(ApplyBlock(l, b), c, tx);
    }
  }
}
