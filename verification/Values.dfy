/** Sums over lists of coins, and how spending changes them. */
module Values {
  import opened Types
  import opened LedgerSpec
  import opened Verdicts

  /** A kind of coin. */
  datatype Selector =
    | Every
    | OfType(valueType: Bytes)
    /** Unspent outputs of the create-vote transaction itself. */
    | Ballots(voting: Bytes)
    /** Votes in blocks at or after the end time. */
    | Late(voting: Bytes, end: nat)
    /** Votes in time, held under one of the keys. */
    | HeldBy(voting: Bytes, end: nat, keys: set<Bytes>)
    /** Votes in time, held under any other key. */
    | HeldByOthers(voting: Bytes, end: nat, keys: set<Bytes>)

  /** The outputs GetUTXOSByTypeValue selects: of this type, not of a create-vote transaction. */
  predicate IsVote(c: Coin, voting: Bytes) {
    c.voteType == 0 && c.utxo.valueType == voting
  }

  predicate Selects(sel: Selector, c: Coin) {
    match sel
    case Every => true
    case OfType(v) => c.utxo.valueType == v
    case Ballots(v) => c.utxo.valueType == v && c.voteType != 0
    case Late(v, end) => IsVote(c, v) && c.utxo.timestamp >= end
    case HeldBy(v, end, keys) =>
      IsVote(c, v) && c.utxo.timestamp < end && SliceToPkey(c.utxo.receiverSpendPkey) in keys
    case HeldByOthers(v, end, keys) =>
      IsVote(c, v) && c.utxo.timestamp < end && SliceToPkey(c.utxo.receiverSpendPkey) !in keys
  }

  function CoinWorth(c: Coin, sel: Selector): nat {
    if Selects(sel, c) then c.utxo.value else 0
  }

  /** The value of the selected coins. */
  function Worth(coins: seq<Coin>, sel: Selector): nat {
    if coins == [] then 0 else Worth(coins[..|coins| - 1], sel) + CoinWorth(coins[|coins| - 1], sel)
  }

  function PointWorth(coins: seq<Coin>, p: Input, sel: Selector): nat {
    match FindCoin(coins, p)
    case Some(c) => CoinWorth(c, sel)
    case None => 0
  }

  /** The selected value that the inputs name, each input counted. */
  function Named(coins: seq<Coin>, inputs: seq<Input>, sel: Selector): nat {
    if inputs == [] then 0
    else Named(coins, inputs[..|inputs| - 1], sel) + PointWorth(coins, inputs[|inputs| - 1], sel)
  }

  /** The selected value that inputs name again after an earlier input named it. */
  function Repeated(coins: seq<Coin>, inputs: seq<Input>, sel: Selector): nat {
    if inputs == [] then 0
    else
      var rest, last := inputs[..|inputs| - 1], inputs[|inputs| - 1];
      Repeated(coins, rest, sel) + if last in rest then PointWorth(coins, last, sel) else 0
  }

  ghost predicate NoRepeats(inputs: seq<Input>) {
    forall i, j :: 0 <= i < j < |inputs| ==> inputs[i] != inputs[j]
  }

  lemma {:induction false} WorthAppend(a: seq<Coin>, b: seq<Coin>, sel: Selector)
    ensures Worth(a + b, sel) == Worth(a, sel) + Worth(b, sel)
    decreases |b|
  {
    if b == [] {
      assert a + b == a;
    } else {
      assert (a + b)[..|a + b| - 1] == a + b[..|b| - 1];
      WorthAppend(a, b[..|b| - 1], sel);
    }
  }

  lemma {:induction false} WorthRemoveOne(coins: seq<Coin>, p: Input, sel: Selector)
    requires Distinct(coins)
    ensures Worth(Remaining(coins, [p]), sel) == Worth(coins, sel) - PointWorth(coins, p, sel)
  {
    if coins != [] {
      var n := |coins| - 1;
      var rest, last := coins[..n], coins[n];
      WorthRemoveOne(rest, p, sel);
      WorthAppend(Remaining(rest, [p]), [last], sel);
      assert [last][..0] == [];
    }
  }

  /** Spending takes out what the inputs name, except that a coin named twice goes only once. */
  lemma {:induction false} WorthRemaining(coins: seq<Coin>, inputs: seq<Input>, sel: Selector)
    requires Distinct(coins)
    ensures Worth(Remaining(coins, inputs), sel)
         == Worth(coins, sel) - Named(coins, inputs, sel) + Repeated(coins, inputs, sel)
  {
    if inputs == [] {
      RemainingUntouched(coins, []);
    } else {
      var rest, last := inputs[..|inputs| - 1], inputs[|inputs| - 1];
      WorthRemaining(coins, rest, sel);
      RemainingTwice(coins, rest, [last]);
      assert rest + [last] == inputs;
      RemainingDistinct(coins, rest);
      WorthRemoveOne(Remaining(coins, rest), last, sel);
      RemainingFind(coins, rest, last);
    }
  }

  lemma {:induction false} NamedAppend(coins: seq<Coin>, a: seq<Input>, b: seq<Input>, sel: Selector)
    ensures Named(coins, a + b, sel) == Named(coins, a, sel) + Named(coins, b, sel)
    decreases |b|
  {
    if b == [] {
      assert a + b == a;
    } else {
      assert (a + b)[..|a + b| - 1] == a + b[..|b| - 1];
      NamedAppend(coins, a, b[..|b| - 1], sel);
    }
  }

  /** Nothing of worth is repeated exactly when no input names a coin of worth that an earlier one names. */
  lemma {:induction false} RepeatedNothing(coins: seq<Coin>, inputs: seq<Input>, sel: Selector)
    ensures Repeated(coins, inputs, sel) == 0 <==>
            forall i, j :: 0 <= i < j < |inputs| && inputs[i] == inputs[j] ==> PointWorth(coins, inputs[j], sel) == 0
  {
    if inputs != [] {
      var n := |inputs| - 1;
      var rest, last := inputs[..n], inputs[n];
      RepeatedNothing(coins, rest, sel);
      if last in rest {
        var i :| 0 <= i < |rest| && rest[i] == last;
        assert inputs[i] == inputs[n];
      }
      forall i, j | 0 <= i < j < |rest| ensures rest[i] == inputs[i] && rest[j] == inputs[j] {}
    }
  }

  lemma {:induction false} WorthNone(coins: seq<Coin>, sel: Selector)
    requires forall c :: c in coins ==> !Selects(sel, c)
    ensures Worth(coins, sel) == 0
  {
    if coins != [] {
      var n := |coins| - 1;
      assert coins == coins[..n] + [coins[n]];
      WorthNone(coins[..n], sel);
    }
  }

  lemma {:induction false} OutputTotalLast(outputs: seq<Output>, n: nat)
    requires n < |outputs|
    ensures OutputTotal(outputs[..n + 1]) == OutputTotal(outputs[..n]) + outputs[n].value
  {
    assert outputs[..n + 1][..n] == outputs[..n];
  }

  /** All outputs of a transaction make coins of one type. */
  lemma {:induction false} WorthOfOutputs(rec: TxRecord, timestamp: u64, n: nat, sel: Selector)
    requires n <= |rec.body.outputs| && (sel.Every? || sel.OfType?)
    ensures Worth(CoinsOf(rec, timestamp, n), sel)
         == if sel.Every? || sel.valueType == OutputType(rec.hash, rec.body) then OutputTotal(rec.body.outputs[..n])
            else 0
  {
    if n > 0 {
      var m := n - 1;
      WorthOfOutputs(rec, timestamp, m, sel);
      OutputTotalLast(rec.body.outputs, m);
    }
  }

  /** All inputs of a transfer name coins of one type. */
  lemma {:induction false} NamedOfType(coins: seq<Coin>, inputs: seq<Input>, valueType: Bytes, sel: Selector)
    requires sel.Every? || sel.OfType?
    requires forall k :: 0 <= k < |inputs| ==>
               FindCoin(coins, inputs[k]).Some? && FindCoin(coins, inputs[k]).value.utxo.valueType == valueType
    ensures Named(coins, inputs, sel)
         == if sel.Every? || sel.valueType == valueType then InputTotal(coins, inputs) else 0
  {
    if inputs != [] {
      var n := |inputs| - 1;
      forall k | 0 <= k < n ensures inputs[..n][k] == inputs[k] {}
      NamedOfType(coins, inputs[..n], valueType, sel);
    }
  }
}
