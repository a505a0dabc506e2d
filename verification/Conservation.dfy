/** How the value of each kind moves when an accepted block is applied, with no assumption on the block. */
module Conservation {
  import opened Types
  import opened Crypto
  import opened LedgerSpec
  import opened WellFormed
  import opened Sound
  import opened Verdicts
  import opened Accepted
  import opened Values

  function Gain(l: Ledger, b: Block, i: nat, sel: Selector): int
    requires i < |b.transactions|
  {
    Worth(MadeBy(l, b, i), sel) - Named(l.coins, Body(b.transactions[i]).inputs, sel)
  }

  function Gains(l: Ledger, b: Block, n: nat, sel: Selector): int
    requires n <= |b.transactions|
  {
    if n == 0 then 0 else Gains(l, b, n - 1, sel) + Gain(l, b, n - 1, sel)
  }

  lemma {:induction false} GainsSplit(l: Ledger, b: Block, n: nat, sel: Selector)
    requires n <= |b.transactions|
    ensures Gains(l, b, n, sel) == Worth(NewCoins(l, b, n), sel) - Named(l.coins, BlockInputs(b, n), sel)
  {
    if n > 0 {
      var m := n - 1;
      GainsSplit(l, b, m, sel);
      WorthAppend(NewCoins(l, b, m), MadeBy(l, b, m), sel);
      NamedAppend(l.coins, BlockInputs(b, m), Body(b.transactions[m]).inputs, sel);
    }
  }

  lemma {:induction false} BlockGain(l: Ledger, b: Block, sel: Selector)
    requires WF(l) && SoundBlock(l, b)
    ensures Worth(ApplyBlock(l, b).coins, sel)
         == Worth(l.coins, sel) + Gains(l, b, |b.transactions|, sel)
            + Repeated(l.coins, BlockInputs(b, |b.transactions|), sel)
  {
    var n := |b.transactions|;
    AppliedCoins(l, b, n);
    WorthAppend(Remaining(l.coins, BlockInputs(b, n)), NewCoins(l, b, n), sel);
    WorthRemaining(l.coins, BlockInputs(b, n), sel);
    GainsSplit(l, b, n, sel);
  }

  /** The transaction moves or makes coins of the selected kind, and no others. */
  predicate Moves(sel: Selector, body: TxBody)
    requires sel.Every? || sel.OfType?
  {
    sel.Every? || (body.voteType == 0 && body.valueType == sel.valueType)
  }

  /** How often the output sum wraps more than the input sum. */
  function Overflow(l: Ledger, body: TxBody): int {
    (OutputTotal(body.outputs) - InputTotal(l.coins, body.inputs)) / TWO_TO_THE_32
  }

  lemma {:induction false} EqualModulo(a: nat, b: nat)
    requires a % TWO_TO_THE_32 == b % TWO_TO_THE_32
    ensures a - b == TWO_TO_THE_32 * ((a - b) / TWO_TO_THE_32)
  {}

  lemma {:induction false} RewardMakes(rec: TxRecord, timestamp: u64, sel: Selector)
    requires |rec.body.outputs| == 1 && rec.body.outputs[0].value == REWARD_COINS && (sel.Every? || sel.OfType?)
    ensures Worth(CoinsOf(rec, timestamp, 1), sel)
         == if sel.Every? || sel.valueType == OutputType(rec.hash, rec.body) then REWARD_COINS else 0
  {
    WorthOfOutputs(rec, timestamp, 1, sel);
    OutputTotalLast(rec.body.outputs, 0);
  }

  lemma {:induction false} GainOfReward(l: Ledger, b: Block, i: nat, sel: Selector)
    requires i < |b.transactions| && IsReward(l, Body(b.transactions[i]))
    requires sel.Every? || sel.OfType?
    ensures Gain(l, b, i, sel) == if Moves(sel, Body(b.transactions[i])) then REWARD_COINS else 0
  {
    RewardMakes(WholeRecord(b, |l.blocks|, i), b.header.timestamp, sel);
    assert Named(l.coins, [], sel) == 0;
  }

  lemma {:induction false} GainOfTransfer(l: Ledger, b: Block, i: nat, sel: Selector)
    requires i < |b.transactions|
    requires IsTransfer(l, Body(b.transactions[i]), Owner(l.coins, Body(b.transactions[i])))
    requires sel.Every? || sel.OfType?
    ensures Gain(l, b, i, sel)
         == (if sel.Every? || sel.valueType == OutputType(b.transactions[i].hash, Body(b.transactions[i]))
             then OutputTotal(Body(b.transactions[i]).outputs) else 0)
            - (if sel.Every? || sel.valueType == InputType(Body(b.transactions[i]))
               then InputTotal(l.coins, Body(b.transactions[i]).inputs) else 0)
  {
    var body := Body(b.transactions[i]);
    WorthOfOutputs(WholeRecord(b, |l.blocks|, i), b.header.timestamp, |body.outputs|, sel);
    assert body.outputs[..|body.outputs|] == body.outputs;
    forall k | 0 <= k < |body.inputs|
      ensures FindCoin(l.coins, body.inputs[k]).Some?
      ensures FindCoin(l.coins, body.inputs[k]).value.utxo.valueType == InputType(body)
    {
      assert SpendsCoinOf(l.coins, body, k, Owner(l.coins, body));
    }
    NamedOfType(l.coins, body.inputs, InputType(body), sel);
  }

  /** All coins, or the votes of one voting. */
  predicate IsKind(sel: Selector) {
    sel.Every? || (sel.OfType? && sel.valueType != [])
  }

  /** The votes that a transaction creates, if they are of this kind. */
  function IssuedAt(b: Block, i: nat, sel: Selector): nat
    requires i < |b.transactions|
  {
    if sel.OfType? && Body(b.transactions[i]).voteType != 0 && b.transactions[i].hash == sel.valueType
    then OutputTotal(Body(b.transactions[i]).outputs) else 0
  }

  /** 1 for a reward of this kind. */
  function RewardAt(b: Block, i: nat, sel: Selector): nat
    requires i < |b.transactions| && (sel.Every? || sel.OfType?)
  {
    if Moves(sel, Body(b.transactions[i])) && IsCoinbase(Body(b.transactions[i])) then 1 else 0
  }

  function OverflowAt(l: Ledger, b: Block, i: nat, sel: Selector): int
    requires i < |b.transactions| && (sel.Every? || sel.OfType?)
  {
    var body := Body(b.transactions[i]);
    if Moves(sel, body) && !IsCoinbase(body) then Overflow(l, body) else 0
  }

  lemma {:induction false} GainExact(l: Ledger, b: Block, i: nat, sel: Selector)
    requires i < |b.transactions| && Accepts(l, b.transactions[i]) && IsKind(sel)
    ensures Gain(l, b, i, sel)
         == IssuedAt(b, i, sel) + REWARD_COINS * RewardAt(b, i, sel) + TWO_TO_THE_32 * OverflowAt(l, b, i, sel)
  {
    var body := Body(b.transactions[i]);
    AcceptedForms(l, b.transactions[i]);
    if IsCoinbase(body) {
      GainOfReward(l, b, i, sel);
    } else {
      GainOfTransfer(l, b, i, sel);
      EqualModulo(OutputTotal(body.outputs), InputTotal(l.coins, body.inputs));
    }
  }

  function Issued(b: Block, n: nat, sel: Selector): nat
    requires n <= |b.transactions|
  {
    if n == 0 then 0 else Issued(b, n - 1, sel) + IssuedAt(b, n - 1, sel)
  }

  function Rewards(b: Block, n: nat, sel: Selector): nat
    requires n <= |b.transactions| && (sel.Every? || sel.OfType?)
  {
    if n == 0 then 0 else Rewards(b, n - 1, sel) + RewardAt(b, n - 1, sel)
  }

  function Overflows(l: Ledger, b: Block, n: nat, sel: Selector): int
    requires n <= |b.transactions| && (sel.Every? || sel.OfType?)
  {
    if n == 0 then 0 else Overflows(l, b, n - 1, sel) + OverflowAt(l, b, n - 1, sel)
  }

  lemma {:induction false} GainsExact(l: Ledger, b: Block, n: nat, sel: Selector)
    requires n <= |b.transactions| && IsKind(sel)
    requires forall i :: 0 <= i < |b.transactions| ==>
               Gain(l, b, i, sel)
               == IssuedAt(b, i, sel) + REWARD_COINS * RewardAt(b, i, sel) + TWO_TO_THE_32 * OverflowAt(l, b, i, sel)
    ensures Gains(l, b, n, sel)
         == Issued(b, n, sel) + REWARD_COINS * Rewards(b, n, sel) + TWO_TO_THE_32 * Overflows(l, b, n, sel)
  {
    if n > 0 {
      var m := n - 1;
      GainsExact(l, b, m, sel);
    }
  }

  /**
   The exact balance of an accepted block, whatever it holds: what is unspent afterwards is what was
   unspent before, plus the votes that the block creates and the rewards it pays of that kind, plus 2^32
   for each wrapped output sum, plus the value that the block's inputs name more than once.
   */
  lemma {:induction false} BlockBalance(l: Ledger, b: Block, sel: Selector)
    requires WF(l) && AcceptedBlock(l, b) && IsKind(sel)
    ensures Worth(ApplyBlock(l, b).coins, sel)
         == Worth(l.coins, sel)
            + Issued(b, |b.transactions|, sel)
            + REWARD_COINS * Rewards(b, |b.transactions|, sel)
            + TWO_TO_THE_32 * Overflows(l, b, |b.transactions|, sel)
            + Repeated(l.coins, BlockInputs(b, |b.transactions|), sel)
  {
    AcceptedBlockIsSound(l, b);
    BlockGain(l, b, sel);
    forall i | 0 <= i < |b.transactions|
      ensures Gain(l, b, i, sel)
           == IssuedAt(b, i, sel) + REWARD_COINS * RewardAt(b, i, sel) + TWO_TO_THE_32 * OverflowAt(l, b, i, sel)
    {
      AllAcceptedAt(l, b.transactions, i);
      GainExact(l, b, i, sel);
    }
    GainsExact(l, b, |b.transactions|, sel);
  }

  /** Votes are created only by a create-vote transaction with that hash. */
  lemma {:induction false} NothingIssued(b: Block, n: nat, sel: Selector)
    requires n <= |b.transactions|
    requires sel.OfType? ==> forall i :: 0 <= i < n ==> b.transactions[i].hash != sel.valueType
    ensures Issued(b, n, sel) == 0
  {
    if n > 0 {
      var m := n - 1;
      NothingIssued(b, m, sel);
    }
  }

  // When exactly nothing but votes and rewards is added.

  /** No input sum of a transaction that moves this kind wraps. */
  ghost predicate InputsFitFor(l: Ledger, b: Block, sel: Selector)
    requires sel.Every? || sel.OfType?
  {
    forall i ::
      0 <= i < |b.transactions| && !IsCoinbase(Body(b.transactions[i])) && Moves(sel, Body(b.transactions[i])) ==>
      InputTotal(l.coins, Body(b.transactions[i]).inputs) < TWO_TO_THE_32
  }

  /** No output sum of the first n transactions that move this kind wraps. */
  ghost predicate OutputsFitFor(b: Block, n: nat, sel: Selector)
    requires n <= |b.transactions| && (sel.Every? || sel.OfType?)
  {
    forall i :: 0 <= i < n && !IsCoinbase(Body(b.transactions[i])) && Moves(sel, Body(b.transactions[i])) ==>
      OutputTotal(Body(b.transactions[i]).outputs) < TWO_TO_THE_32
  }

  /** No two inputs of the block name one coin of worth. */
  ghost predicate SpendsOnce(l: Ledger, b: Block, sel: Selector) {
    var inputs := BlockInputs(b, |b.transactions|);
    forall i, j :: 0 <= i < j < |inputs| && inputs[i] == inputs[j] ==> PointWorth(l.coins, inputs[j], sel) == 0
  }

  predicate WrapsUpOnly(l: Ledger, body: TxBody) {
    Overflow(l, body) >= 0 && (Overflow(l, body) == 0 <==> OutputTotal(body.outputs) < TWO_TO_THE_32)
  }

  lemma {:induction false} OverflowSign(l: Ledger, tx: Transaction)
    requires Accepts(l, tx) && !IsCoinbase(Body(tx)) && InputTotal(l.coins, Body(tx).inputs) < TWO_TO_THE_32
    ensures WrapsUpOnly(l, Body(tx))
  {
    AcceptedForms(l, tx);
    EqualModulo(OutputTotal(Body(tx).outputs), InputTotal(l.coins, Body(tx).inputs));
  }

  lemma {:induction false} OverflowsSum(l: Ledger, b: Block, n: nat, sel: Selector)
    requires n <= |b.transactions| && (sel.Every? || sel.OfType?)
    requires forall i :: 0 <= i < n && !IsCoinbase(Body(b.transactions[i])) && Moves(sel, Body(b.transactions[i])) ==>
               WrapsUpOnly(l, Body(b.transactions[i]))
    ensures Overflows(l, b, n, sel) >= 0
    ensures Overflows(l, b, n, sel) == 0 <==> OutputsFitFor(b, n, sel)
  {
    if n > 0 {
      var m := n - 1;
      OverflowsSum(l, b, m, sel);
    }
  }

  lemma {:induction false} OverflowsSign(l: Ledger, b: Block, sel: Selector)
    requires (sel.Every? || sel.OfType?) && InputsFitFor(l, b, sel)
    requires AllAccepted(l, b.transactions)
    ensures Overflows(l, b, |b.transactions|, sel) >= 0
    ensures Overflows(l, b, |b.transactions|, sel) == 0 <==> OutputsFitFor(b, |b.transactions|, sel)
  {
    forall i | 0 <= i < |b.transactions| && !IsCoinbase(Body(b.transactions[i])) && Moves(sel, Body(b.transactions[i]))
      ensures WrapsUpOnly(l, Body(b.transactions[i]))
    {
      AllAcceptedAt(l, b.transactions, i);
      OverflowSign(l, b.transactions[i]);
    }
    OverflowsSum(l, b, |b.transactions|, sel);
  }

  /**
   Where no input sum of a transaction moving these coins reaches 2^32, an accepted block adds exactly
   the votes it creates and its rewards if and only if no output sum of such a transaction reaches 2^32
   and no two of its inputs name one such coin.
   */
  lemma {:induction false} BalancedExactly(l: Ledger, b: Block, sel: Selector)
    requires WF(l) && AcceptedBlock(l, b) && IsKind(sel) && InputsFitFor(l, b, sel)
    ensures Worth(ApplyBlock(l, b).coins, sel)
         == Worth(l.coins, sel) + Issued(b, |b.transactions|, sel) + REWARD_COINS * Rewards(b, |b.transactions|, sel)
       <==> OutputsFitFor(b, |b.transactions|, sel) && SpendsOnce(l, b, sel)
  {
    BlockBalance(l, b, sel);
    OverflowsSign(l, b, sel);
    RepeatedNothing(l.coins, BlockInputs(b, |b.transactions|), sel);
  }

  // Why input sums do not wrap.

  lemma {:induction false} InputInBlock(b: Block, n: nat, i: nat, p: nat)
    requires i < n <= |b.transactions| && p < |Body(b.transactions[i]).inputs|
    ensures |BlockInputs(b, i)| + p < |BlockInputs(b, n)|
    ensures BlockInputs(b, n)[|BlockInputs(b, i)| + p] == Body(b.transactions[i]).inputs[p]
  {
    var m := n - 1;
    if i < m {
      InputInBlock(b, m, i, p);
    }
  }

  lemma {:induction false} TxSpendsOnce(l: Ledger, b: Block, i: nat, sel: Selector)
    requires SpendsOnce(l, b, sel) && i < |b.transactions|
    ensures Repeated(l.coins, Body(b.transactions[i]).inputs, sel) == 0
  {
    var inputs := Body(b.transactions[i]).inputs;
    forall p, q | 0 <= p < q < |inputs| && inputs[p] == inputs[q] ensures PointWorth(l.coins, inputs[q], sel) == 0 {
      InputInBlock(b, |b.transactions|, i, p);
      InputInBlock(b, |b.transactions|, i, q);
    }
    RepeatedNothing(l.coins, inputs, sel);
  }

  /** A transaction that moves these coins spends no other. */
  lemma {:induction false} MovedIsNamed(l: Ledger, tx: Transaction, sel: Selector)
    requires Accepts(l, tx) && !IsCoinbase(Body(tx)) && IsKind(sel) && Moves(sel, Body(tx))
    ensures InputTotal(l.coins, Body(tx).inputs) == Named(l.coins, Body(tx).inputs, sel)
  {
    var body := Body(tx);
    AcceptedForms(l, tx);
    forall k | 0 <= k < |body.inputs|
      ensures FindCoin(l.coins, body.inputs[k]).Some?
      ensures FindCoin(l.coins, body.inputs[k]).value.utxo.valueType == InputType(body)
    {
      assert SpendsCoinOf(l.coins, body, k, Owner(l.coins, body));
    }
    NamedOfType(l.coins, body.inputs, InputType(body), sel);
  }

  /** Where the coins of a kind are together worth less than 2^32 and none is named twice, no sum of them wraps. */
  lemma {:induction false} FewCoinsNeverWrap(l: Ledger, b: Block, sel: Selector)
    requires Distinct(l.coins) && AllAccepted(l, b.transactions) && IsKind(sel)
    requires SpendsOnce(l, b, sel) && Worth(l.coins, sel) < TWO_TO_THE_32
    ensures InputsFitFor(l, b, sel)
  {
    forall i | 0 <= i < |b.transactions| && !IsCoinbase(Body(b.transactions[i])) && Moves(sel, Body(b.transactions[i]))
      ensures InputTotal(l.coins, Body(b.transactions[i]).inputs) < TWO_TO_THE_32
    {
      AllAcceptedAt(l, b.transactions, i);
      MovedIsNamed(l, b.transactions[i], sel);
      TxSpendsOnce(l, b, i, sel);
      WorthRemaining(l.coins, Body(b.transactions[i]).inputs, sel);
    }
  }

  lemma {:induction false} NoRewards(b: Block, n: nat, sel: Selector)
    requires n <= |b.transactions| && (sel.Every? || sel.OfType?)
    ensures Rewards(b, n, sel) == 0 <==>
            forall i :: 0 <= i < n && IsCoinbase(Body(b.transactions[i])) ==> !Moves(sel, Body(b.transactions[i]))
  {
    if n > 0 {
      var m := n - 1;
      NoRewards(b, m, sel);
    }
  }

  /** No reward of the block has the type of this voting. */
  ghost predicate RewardsNoVotes(b: Block, voting: Bytes) {
    forall i :: 0 <= i < |b.transactions| && IsCoinbase(Body(b.transactions[i])) ==>
      !Moves(OfType(voting), Body(b.transactions[i]))
  }

  /**
   Where no input sum of a transfer of its votes reaches 2^32, an accepted block leaves the votes of an
   existing voting in number as they were if and only if no reward is issued in that voting's type, no
   output sum of such a transfer reaches 2^32, and no two inputs name one of its votes.
   */
  lemma {:induction false} VotesKeptExactly(l: Ledger, b: Block, voting: Bytes)
    requires WF(l) && AcceptedBlock(l, b) && InputsFitFor(l, b, OfType(voting))
    requires voting != [] && FindTx(l.txs, voting).Some?
    ensures Worth(ApplyBlock(l, b).coins, OfType(voting)) == Worth(l.coins, OfType(voting)) <==>
            && RewardsNoVotes(b, voting)
            && OutputsFitFor(b, |b.transactions|, OfType(voting))
            && SpendsOnce(l, b, OfType(voting))
  {
    forall i | 0 <= i < |b.transactions| ensures b.transactions[i].hash != voting {
      BlockHashFresh(l, b, i);
    }
    NothingIssued(b, |b.transactions|, OfType(voting));
    BlockBalance(l, b, OfType(voting));
    OverflowsSign(l, b, OfType(voting));
    RepeatedNothing(l.coins, BlockInputs(b, |b.transactions|), OfType(voting));
    NoRewards(b, |b.transactions|, OfType(voting));
  }
}
