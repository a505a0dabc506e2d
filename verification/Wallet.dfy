/** evote/transaction.go: greedy coin selection, change and signing, and the reward transaction. */
module Wallet {
  import opened Types
  import opened Crypto
  import opened LedgerSpec
  import opened WellFormed
  import opened Verdicts
  import opened Payments

  /** The entries of the Go map `outputs`, in the order in which the loop happens to visit them. */
  function Requested(entries: seq<(Bytes, u32)>): (outputs: seq<Output>)
    ensures |outputs| == |entries|
  {
    if entries == [] then []
    else
      var last := entries[|entries| - 1];
      Requested(entries[..|entries| - 1]) + [Output(last.0, [], last.1)]
  }

  /** The requested total as the wrapping loop computes it. */
  function Target(entries: seq<(Bytes, u32)>): u32 {
    OutputTotal(Requested(entries)) % TWO_TO_THE_32
  }

  function Total(utxos: seq<Utxo>): nat {
    if utxos == [] then 0 else Total(utxos[..|utxos| - 1]) + utxos[|utxos| - 1].value
  }

  predicate Usable(u: Utxo, valueType: Bytes, ignoreTypeValue: bool) {
    ignoreTypeValue || u.valueType == valueType
  }

  /** The UTXOs that the selection loop takes from a list, while their wrapping sum is below the target. */
  function Picked(utxos: seq<Utxo>, valueType: Bytes, ignoreTypeValue: bool, target: u32): seq<Utxo> {
    if utxos == [] then []
    else
      var rest, last := utxos[..|utxos| - 1], utxos[|utxos| - 1];
      var picked := Picked(rest, valueType, ignoreTypeValue, target);
      if Usable(last, valueType, ignoreTypeValue) && Total(picked) % TWO_TO_THE_32 < target then picked + [last]
      else picked
  }

  function InputsFor(utxos: seq<Utxo>): (inputs: seq<Input>)
    ensures |inputs| == |utxos|
    ensures forall k :: 0 <= k < |utxos| ==> inputs[k] == Input(utxos[k].txHash, utxos[k].index)
  {
    if utxos == [] then []
    else
      var last := utxos[|utxos| - 1];
      InputsFor(utxos[..|utxos| - 1]) + [Input(last.txHash, last.index)]
  }

  datatype Request = Request(
    utxos: seq<Utxo>,
    entries: seq<(Bytes, u32)>,
    valueType: Bytes,
    voteType: u32,
    duration: u32,
    ignoreTypeValue: bool)
  {
    function Chosen(): seq<Utxo> {
      Picked(utxos, valueType, ignoreTypeValue, Target(entries))
    }

    function Sum(): u32 {
      Total(Chosen()) % TWO_TO_THE_32
    }

    /** Whether CreateTx gives a transaction rather than an error. */
    predicate Succeeds() {
      utxos != [] && entries != [] && Sum() >= Target(entries)
    }

    /** Change goes back to the owner of the first UTXO of the list. */
    function Change(): seq<Output>
      requires Succeeds()
    {
      if Sum() > Target(entries) then [Output(utxos[0].receiverSpendPkey, [], Sum() - Target(entries))] else []
    }

    function Body(): TxBody
      requires Succeeds()
    {
      TxBody(InputsFor(Chosen()), Requested(entries) + Change(), [], valueType, voteType, duration, [], [])
    }
  }

  function Signed(keys: Keys, body: TxBody): Transaction {
    var bytes := EncodeBody(body);
    Transaction(bytes, Hash(bytes), Sign(keys, bytes))
  }

  lemma {:induction false} AddWraps(a: nat, b: nat)
    ensures (a % TWO_TO_THE_32 + b) % TWO_TO_THE_32 == (a + b) % TWO_TO_THE_32
  {}

  lemma {:induction false} RequestedStep(entries: seq<(Bytes, u32)>, i: nat)
    requires i < |entries|
    ensures Requested(entries[..i + 1]) == Requested(entries[..i]) + [Output(entries[i].0, [], entries[i].1)]
    ensures OutputTotal(Requested(entries[..i + 1])) == OutputTotal(Requested(entries[..i])) + entries[i].1
  {
    assert entries[..i + 1][..i] == entries[..i];
  }

  lemma {:induction false} TakeStep(picked: seq<Utxo>, u: Utxo)
    ensures InputsFor(picked + [u]) == InputsFor(picked) + [Input(u.txHash, u.index)]
    ensures Total(picked + [u]) == Total(picked) + u.value
    ensures Total(picked + [u]) % TWO_TO_THE_32 == Add32(Total(picked) % TWO_TO_THE_32, u.value)
  {
    assert (picked + [u])[..|picked|] == picked;
    AddWraps(Total(picked), u.value);
  }

  lemma {:induction false} PickedStep(utxos: seq<Utxo>, i: nat, valueType: Bytes, ignoreTypeValue: bool, target: u32)
    requires i < |utxos|
    ensures Picked(utxos[..i + 1], valueType, ignoreTypeValue, target)
         == if Usable(utxos[i], valueType, ignoreTypeValue)
               && Total(Picked(utxos[..i], valueType, ignoreTypeValue, target)) % TWO_TO_THE_32 < target
            then Picked(utxos[..i], valueType, ignoreTypeValue, target) + [utxos[i]]
            else Picked(utxos[..i], valueType, ignoreTypeValue, target)
  {
    assert utxos[..i + 1][..i] == utxos[..i];
  }

  /** The first loop: the requested outputs and their wrapping sum. */
  method CollectOutputs(outputs: seq<(Bytes, u32)>) returns (outs: seq<Output>, maxValOutputs: u32)
    ensures outs == Requested(outputs) && maxValOutputs == Target(outputs)
  {
    outs, maxValOutputs := [], 0;
    var i := 0;
    while i < |outputs|
      invariant 0 <= i <= |outputs|
      invariant outs == Requested(outputs[..i])
      invariant maxValOutputs == OutputTotal(Requested(outputs[..i])) % TWO_TO_THE_32
    {
      RequestedStep(outputs, i);
      AddWraps(OutputTotal(Requested(outputs[..i])), outputs[i].1);
      outs := outs + [Output(outputs[i].0, [], outputs[i].1)];
      maxValOutputs := Add32(maxValOutputs, outputs[i].1);
      i := i + 1;
    }
    assert outputs[..i] == outputs;
  }

  /** The second loop: greedy selection. */
  method SelectInputs(utxos: seq<Utxo>, valueType: Bytes, ignoreTypeValue: bool, maxValOutputs: u32)
    returns (ins: seq<Input>, maxValInputs: u32)
    ensures var picked := Picked(utxos, valueType, ignoreTypeValue, maxValOutputs);
      ins == InputsFor(picked) && maxValInputs == Total(picked) % TWO_TO_THE_32
  {
    ins, maxValInputs := [], 0;
    ghost var picked: seq<Utxo> := [];
    var i := 0;
    while i < |utxos|
      invariant 0 <= i <= |utxos|
      invariant picked == Picked(utxos[..i], valueType, ignoreTypeValue, maxValOutputs)
      invariant ins == InputsFor(picked) && maxValInputs == Total(picked) % TWO_TO_THE_32
    {
      PickedStep(utxos, i, valueType, ignoreTypeValue, maxValOutputs);
      if (ignoreTypeValue || utxos[i].valueType == valueType) && maxValInputs < maxValOutputs {
        TakeStep(picked, utxos[i]);
        ins := ins + [Input(utxos[i].txHash, utxos[i].index)];
        maxValInputs := Add32(maxValInputs, utxos[i].value);
        picked := picked + [utxos[i]];
      }
      i := i + 1;
    }
    assert utxos[..i] == utxos;
  }

  method AddChange(outs: seq<Output>, owner: Bytes, maxValInputs: u32, maxValOutputs: u32) returns (all: seq<Output>)
    ensures all == outs + if maxValInputs > maxValOutputs then [Output(owner, [], maxValInputs - maxValOutputs)] else []
  {
    all := outs;
    if maxValInputs > maxValOutputs {
      all := all + [Output(owner, [], maxValInputs - maxValOutputs)];
    }
  }

  lemma {:induction false} BuiltBody(req: Request, ins: seq<Input>, outs: seq<Output>)
    requires req.Succeeds() && ins == InputsFor(req.Chosen()) && outs == Requested(req.entries) + req.Change()
    ensures TxBody(ins, outs, [], req.valueType, req.voteType, req.duration, [], []) == req.Body()
  {}

  /** The body, once there are inputs and outputs; none if the balance is insufficient. */
  method BuildBody(req: Request) returns (body: Option<TxBody>)
    requires req.utxos != [] && req.entries != []
    ensures body == if req.Succeeds() then Some(req.Body()) else None
  {
    var outs, maxValOutputs := CollectOutputs(req.entries);
    var ins, maxValInputs := SelectInputs(req.utxos, req.valueType, req.ignoreTypeValue, maxValOutputs);
    assert maxValOutputs == Target(req.entries) && maxValInputs == req.Sum();
    if maxValInputs < maxValOutputs {
      return None;
    }
    assert req.Succeeds();
    outs := AddChange(outs, req.utxos[0].receiverSpendPkey, maxValInputs, maxValOutputs);
    BuiltBody(req, ins, outs);
    return Some(TxBody(ins, outs, [], req.valueType, req.voteType, req.duration, [], []));
  }

  // The body against the arguments.

  lemma {:induction false} RequestedIs(entries: seq<(Bytes, u32)>)
    ensures OutputTotal(Requested(entries)) == RequestedTotal(entries)
    ensures forall k :: 0 <= k < |entries| ==> Requested(entries)[k] == Output(entries[k].0, [], entries[k].1)
  {
    if entries != [] {
      var n := |entries| - 1;
      RequestedIs(entries[..n]);
      assert Requested(entries)[..n] == Requested(entries[..n]);
    }
  }

  /** The positions of the picked UTXOs. */
  function PickedAt(utxos: seq<Utxo>, valueType: Bytes, ignoreTypeValue: bool, target: u32): seq<nat> {
    if utxos == [] then []
    else
      var n := |utxos| - 1;
      var picks := PickedAt(utxos[..n], valueType, ignoreTypeValue, target);
      var picked := Picked(utxos[..n], valueType, ignoreTypeValue, target);
      if Usable(utxos[n], valueType, ignoreTypeValue) && Total(picked) % TWO_TO_THE_32 < target then picks + [n]
      else picks
  }

  /** The positions are those of the picked UTXOs. */
  ghost predicate PositionsOf(utxos: seq<Utxo>, picks: seq<nat>, picked: seq<Utxo>) {
    && Positions(picks, |utxos|)
    && |picks| == |picked| && forall k :: 0 <= k < |picks| ==> picked[k] == utxos[picks[k]]
  }

  lemma {:induction false} PositionsOfNext(utxos: seq<Utxo>, picks: seq<nat>, picked: seq<Utxo>)
    requires utxos != [] && PositionsOf(utxos[..|utxos| - 1], picks, picked)
    ensures PositionsOf(utxos, picks, picked)
    ensures PositionsOf(utxos, picks + [|utxos| - 1], picked + [utxos[|utxos| - 1]])
  {}

  lemma {:induction false} PickedAtNames(utxos: seq<Utxo>, valueType: Bytes, ignoreTypeValue: bool, target: u32)
    ensures PositionsOf(
              utxos,
              PickedAt(utxos, valueType, ignoreTypeValue, target), Picked(utxos, valueType, ignoreTypeValue, target))
  {
    if utxos != [] {
      var n := |utxos| - 1;
      PickedAtNames(utxos[..n], valueType, ignoreTypeValue, target);
      PositionsOfNext(
        utxos,
        PickedAt(utxos[..n], valueType, ignoreTypeValue, target),
        Picked(utxos[..n], valueType, ignoreTypeValue, target));
    }
  }

  lemma {:induction false} PickedBelowPrefix(utxos: seq<Utxo>, n: nat, picks: seq<nat>, i: nat)
    requires n <= |utxos| && forall k :: 0 <= k < |picks| ==> picks[k] < n
    ensures PickedBelow(utxos[..n], picks, i) == PickedBelow(utxos, picks, i)
  {
    if picks != [] {
      var m := |picks| - 1;
      PickedBelowPrefix(utxos, n, picks[..m], i);
    }
  }

  lemma {:induction false} PickedBelowSnoc(utxos: seq<Utxo>, picks: seq<nat>, n: nat, i: nat)
    requires n < |utxos| && forall k :: 0 <= k < |picks| ==> picks[k] < |utxos|
    ensures PickedBelow(utxos, picks + [n], i) == PickedBelow(utxos, picks, i) + if n < i then utxos[n].value else 0
  {
    assert (picks + [n])[..|picks|] == picks;
  }

  lemma {:induction false} PickedBelowAll(utxos: seq<Utxo>, picks: seq<nat>, picked: seq<Utxo>, i: nat)
    requires i >= |utxos| && |picks| == |picked|
    requires forall k :: 0 <= k < |picks| ==> picks[k] < |utxos| && picked[k] == utxos[picks[k]]
    ensures PickedBelow(utxos, picks, i) == Total(picked)
  {
    if picks != [] {
      var m := |picks| - 1;
      PickedBelowAll(utxos, picks[..m], picked[..m], i);
    }
  }

  lemma {:induction false} PickedAtStep(
    utxos: seq<Utxo>, valueType: Bytes, ignoreTypeValue: bool, target: u32, i: nat)
    requires utxos != []
    ensures var n := |utxos| - 1;
      var picks, rest := PickedAt(utxos, valueType, ignoreTypeValue, target),
                         PickedAt(utxos[..n], valueType, ignoreTypeValue, target);
      && Positions(picks, |utxos|) && Positions(rest, n)
      && (i <= n ==> PickedBelow(utxos, picks, i) == PickedBelow(utxos[..n], rest, i))
      && (i == n ==> PickedBelow(utxos, picks, i) == Total(Picked(utxos[..n], valueType, ignoreTypeValue, target)))
  {
    var n := |utxos| - 1;
    var picks := PickedAt(utxos[..n], valueType, ignoreTypeValue, target);
    PickedAtNames(utxos, valueType, ignoreTypeValue, target);
    PickedAtNames(utxos[..n], valueType, ignoreTypeValue, target);
    PickedBelowPrefix(utxos, n, picks, i);
    PickedBelowSnoc(utxos, picks, n, i);
    if i == n {
      PickedBelowAll(utxos[..n], picks, Picked(utxos[..n], valueType, ignoreTypeValue, target), i);
    }
  }

  lemma {:induction false} PickedGreedily(
    utxos: seq<Utxo>, valueType: Bytes, ignoreTypeValue: bool, target: u32, i: nat)
    requires i < |utxos|
    ensures var picks := PickedAt(utxos, valueType, ignoreTypeValue, target);
      && Positions(picks, |utxos|)
      && (i in picks <==>
            && (ignoreTypeValue || utxos[i].valueType == valueType)
            && PickedBelow(utxos, picks, i) % TWO_TO_THE_32 < target)
  {
    var n := |utxos| - 1;
    PickedAtStep(utxos, valueType, ignoreTypeValue, target, i);
    if i < n {
      PickedGreedily(utxos[..n], valueType, ignoreTypeValue, target, i);
    }
  }

  lemma {:induction false} ChosenGreedily(req: Request)
    ensures var picks := PickedAt(req.utxos, req.valueType, req.ignoreTypeValue, Target(req.entries));
      && PicksGreedily(
           req.utxos, req.valueType, req.ignoreTypeValue, RequestedTotal(req.entries) % TWO_TO_THE_32, picks)
      && Change(req.utxos, req.entries, picks) == req.Sum() - Target(req.entries)
  {
    var target := Target(req.entries);
    var picks := PickedAt(req.utxos, req.valueType, req.ignoreTypeValue, target);
    RequestedIs(req.entries);
    PickedAtNames(req.utxos, req.valueType, req.ignoreTypeValue, target);
    PickedBelowAll(req.utxos, picks, req.Chosen(), |req.utxos|);
    forall i | 0 <= i < |req.utxos|
      ensures i in picks <==>
              && (req.ignoreTypeValue || req.utxos[i].valueType == req.valueType)
              && PickedBelow(req.utxos, picks, i) % TWO_TO_THE_32 < target
    {
      PickedGreedily(req.utxos, req.valueType, req.ignoreTypeValue, target, i);
    }
  }

  lemma {:induction false} BodyPays(req: Request, picks: seq<nat>)
    requires req.Succeeds()
    requires picks == PickedAt(req.utxos, req.valueType, req.ignoreTypeValue, Target(req.entries))
    ensures IsPayment(
              req.Body(), req.utxos, req.entries, req.valueType, req.voteType, req.duration, picks,
              req.Sum() - Target(req.entries))
  {
    RequestedIs(req.entries);
    PickedAtNames(req.utxos, req.valueType, req.ignoreTypeValue, Target(req.entries));
  }

  /** What CreateTx gives is what it owes. */
  lemma {:induction false} CreatesPayment(req: Request, keys: Keys) returns (picks: seq<nat>)
    ensures PicksGreedily(
              req.utxos, req.valueType, req.ignoreTypeValue, RequestedTotal(req.entries) % TWO_TO_THE_32, picks)
    ensures Created(
              if req.Succeeds() then Some(Signed(keys, req.Body())) else None,
              req.utxos, req.entries, req.valueType, keys, req.voteType, req.duration, picks)
  {
    picks := PickedAt(req.utxos, req.valueType, req.ignoreTypeValue, Target(req.entries));
    ChosenGreedily(req);
    if req.Succeeds() {
      BodyPays(req, picks);
      if BodyRoundTrips() {
        assert DecodeBody(EncodeBody(req.Body())) == Some(req.Body());
      }
    }
  }

  method CreateTx(
    inputs: seq<Utxo>, outputs: seq<(Bytes, u32)>, valueType: Bytes, keys: Keys,
    voteType: u32, duration: u32, ignoreTypeValue: bool)
    returns (tx: Option<Transaction>)
    ensures var req := Request(inputs, outputs, valueType, voteType, duration, ignoreTypeValue);
      tx == if req.Succeeds() then Some(Signed(keys, req.Body())) else None
    ensures exists picks ::
              && PicksGreedily(inputs, valueType, ignoreTypeValue, RequestedTotal(outputs) % TWO_TO_THE_32, picks)
              && Created(tx, inputs, outputs, valueType, keys, voteType, duration, picks)
  {
    ghost var req := Request(inputs, outputs, valueType, voteType, duration, ignoreTypeValue);
    ghost var picks := CreatesPayment(req, keys);
    if |inputs| == 0 || |outputs| == 0 {
      return None;
    }
    var body := BuildBody(Request(inputs, outputs, valueType, voteType, duration, ignoreTypeValue));
    if body.None? {
      return None;
    }
    return Some(Signed(keys, body.value));
  }

  // What the greedy loop picks.

  function Matching(utxos: seq<Utxo>, valueType: Bytes, ignoreTypeValue: bool): seq<Utxo> {
    if utxos == [] then []
    else
      var rest := Matching(utxos[..|utxos| - 1], valueType, ignoreTypeValue);
      if Usable(utxos[|utxos| - 1], valueType, ignoreTypeValue) then rest + [utxos[|utxos| - 1]] else rest
  }

  /** How many UTXOs from the front first cover the target: all of them if none does. */
  function CoverSize(utxos: seq<Utxo>, target: nat): (k: nat)
    ensures k <= |utxos|
  {
    if utxos == [] then 0
    else
      var rest := utxos[..|utxos| - 1];
      if Total(rest) < target then |utxos| else CoverSize(rest, target)
  }

  lemma {:induction false} CoverIsShortest(utxos: seq<Utxo>, target: nat)
    ensures var k := CoverSize(utxos, target);
      && (forall j :: 0 <= j < k ==> Total(utxos[..j]) < target)
      && (Total(utxos) >= target ==> Total(utxos[..k]) >= target)
  {
    if utxos != [] {
      var n := |utxos| - 1;
      var rest := utxos[..n];
      CoverIsShortest(rest, target);
      assert forall j :: 0 <= j <= |rest| ==> rest[..j] == utxos[..j];
      assert rest[..|rest|] == rest && utxos[..|utxos|] == utxos;
      TotalGrows(utxos);
    }
  }

  lemma {:induction false} TotalGrows(utxos: seq<Utxo>)
    ensures forall j, k :: 0 <= j <= k <= |utxos| ==> Total(utxos[..j]) <= Total(utxos[..k])
  {
    if utxos != [] {
      var n := |utxos| - 1;
      var rest := utxos[..n];
      TotalGrows(rest);
      assert forall j :: 0 <= j <= |rest| ==> rest[..j] == utxos[..j];
      assert utxos[..|utxos|] == utxos && rest[..|rest|] == rest;
    }
  }

  lemma {:induction false} CoverStep(m: seq<Utxo>, u: Utxo, target: nat)
    ensures CoverSize(m + [u], target) == if Total(m) < target then |m| + 1 else CoverSize(m, target)
    ensures forall j :: 0 <= j <= |m| ==> (m + [u])[..j] == m[..j]
    ensures Total(m + [u]) == Total(m) + u.value
  {
    assert (m + [u])[..|m|] == m;
  }

  /** The picked list is the shortest covering prefix of the usable UTXOs, or longer if that one wraps. */
  ghost predicate PickedWell(picked: seq<Utxo>, m: seq<Utxo>, target: u32) {
    var k := CoverSize(m, target);
    if k == |m| || Total(m[..k]) < TWO_TO_THE_32 then picked == m[..k] else |picked| > k
  }

  lemma {:induction false} PickedWellStep(picked: seq<Utxo>, m: seq<Utxo>, u: Utxo, target: u32)
    requires PickedWell(picked, m, target)
    ensures PickedWell(if Total(picked) % TWO_TO_THE_32 < target then picked + [u] else picked, m + [u], target)
  {
    var k := CoverSize(m, target);
    CoverIsShortest(m, target);
    CoverStep(m, u, target);
    assert m[..|m|] == m && (m + [u])[..|m| + 1] == m + [u];
    if Total(m) >= target && k == |m| > 0 {
      assert m[..|m| - 1] == m[..k - 1];
    }
  }

  lemma {:induction false} GreedyPicks(utxos: seq<Utxo>, valueType: Bytes, ignoreTypeValue: bool, target: u32)
    ensures PickedWell(
              Picked(utxos, valueType, ignoreTypeValue, target), Matching(utxos, valueType, ignoreTypeValue), target)
  {
    if utxos != [] {
      var n := |utxos| - 1;
      var rest := utxos[..n];
      GreedyPicks(rest, valueType, ignoreTypeValue, target);
      PickedWellStep(
        Picked(rest, valueType, ignoreTypeValue, target),
        Matching(rest, valueType, ignoreTypeValue),
        utxos[n],
        target);
    }
  }

  /** The shortest prefix of the usable UTXOs that covers the requested total. */
  function Cover(req: Request): seq<Utxo> {
    var m := Matching(req.utxos, req.valueType, req.ignoreTypeValue);
    m[..CoverSize(m, Target(req.entries))]
  }

  lemma {:induction false} CoverBelow(m: seq<Utxo>, target: u32)
    ensures var k := CoverSize(m, target); k > 0 ==> Total(m[..k]) < target + TWO_TO_THE_32
  {
    var k := CoverSize(m, target);
    CoverIsShortest(m, target);
    if k > 0 {
      assert m[..k][..k - 1] == m[..k - 1];
    }
  }

  lemma {:induction false} CoverPicked(picked: seq<Utxo>, m: seq<Utxo>, target: u32)
    requires PickedWell(picked, m, target)
    ensures var cover := m[..CoverSize(m, target)];
      Total(picked) % TWO_TO_THE_32 >= target && picked == cover <==> target <= Total(cover) < TWO_TO_THE_32
  {
    CoverBelow(m, target);
    assert |m[..CoverSize(m, target)]| == CoverSize(m, target);
    if CoverSize(m, target) == 0 {
      assert m[..0] == [];
    }
  }

  /**
   CreateTx succeeds with the shortest covering prefix of the usable UTXOs exactly when that prefix
   really covers the request and its sum stays below 2^32. A prefix that wraps is passed over.
   */
  lemma {:induction false} GreedyExactly(req: Request)
    requires req.utxos != [] && req.entries != []
    ensures req.Succeeds() && req.Chosen() == Cover(req) <==> Target(req.entries) <= Total(Cover(req)) < TWO_TO_THE_32
  {
    GreedyPicks(req.utxos, req.valueType, req.ignoreTypeValue, Target(req.entries));
    CoverPicked(req.Chosen(), Matching(req.utxos, req.valueType, req.ignoreTypeValue), Target(req.entries));
  }

  lemma {:induction false} CoverWithinTotal(m: seq<Utxo>, target: nat)
    ensures Total(m[..CoverSize(m, target)]) <= Total(m)
    ensures Total(m[..CoverSize(m, target)]) >= target <==> Total(m) >= target
  {
    CoverIsShortest(m, target);
    TotalGrows(m);
    assert m[..|m|] == m;
  }

  lemma {:induction false} PickedUnwrapped(picked: seq<Utxo>, m: seq<Utxo>, target: u32)
    requires PickedWell(picked, m, target) && Total(m) < TWO_TO_THE_32
    ensures picked == m[..CoverSize(m, target)]
    ensures Total(picked) % TWO_TO_THE_32 >= target <==> Total(m) >= target
  {
    CoverWithinTotal(m, target);
    var sum := Total(m[..CoverSize(m, target)]);
    assert sum % TWO_TO_THE_32 == sum;
  }

  /** While no sum wraps, CreateTx fails exactly when all usable UTXOs together are worth too little. */
  lemma {:induction false} FailsWhenShort(req: Request)
    requires req.utxos != [] && req.entries != []
    requires Total(Matching(req.utxos, req.valueType, req.ignoreTypeValue)) < TWO_TO_THE_32
    ensures req.Succeeds() <==> Target(req.entries) <= Total(Matching(req.utxos, req.valueType, req.ignoreTypeValue))
    ensures req.Chosen() == Cover(req)
  {
    GreedyPicks(req.utxos, req.valueType, req.ignoreTypeValue, Target(req.entries));
    PickedUnwrapped(req.Chosen(), Matching(req.utxos, req.valueType, req.ignoreTypeValue), Target(req.entries));
  }

  lemma {:induction false} OutputTotalAppend(a: seq<Output>, b: seq<Output>)
    ensures OutputTotal(a + b) == OutputTotal(a) + OutputTotal(b)
    decreases |b|
  {
    if b == [] {
      assert a + b == a;
    } else {
      assert (a + b)[..|a + b| - 1] == a + b[..|b| - 1];
      OutputTotalAppend(a, b[..|b| - 1]);
    }
  }

  lemma {:induction false} BuiltTotal(req: Request)
    requires req.Succeeds()
    ensures OutputTotal(req.Body().outputs) == OutputTotal(Requested(req.entries)) + (req.Sum() - Target(req.entries))
  {
    OutputTotalAppend(Requested(req.entries), req.Change());
    if req.Change() != [] {
      assert req.Change()[..0] == [];
    }
  }

  lemma {:induction false} Unwrapped(a: nat)
    requires a < TWO_TO_THE_32
    ensures a % TWO_TO_THE_32 == a
  {}

  /** While no sum wraps, the outputs with the change are worth exactly the chosen UTXOs. */
  lemma {:induction false} ChangeIsExact(req: Request)
    requires req.Succeeds()
    requires OutputTotal(Requested(req.entries)) < TWO_TO_THE_32 && Total(req.Chosen()) < TWO_TO_THE_32
    ensures OutputTotal(req.Body().outputs) == Total(req.Chosen())
  {
    Unwrapped(OutputTotal(Requested(req.entries)));
    Unwrapped(Total(req.Chosen()));
    BuiltTotal(req);
  }

  // What is built is accepted.

  lemma {:induction false} NoScanKeys(entries: seq<(Bytes, u32)>)
    ensures ScanKeys(Requested(entries)) == 0
  {
    if entries != [] {
      var n := |entries| - 1;
      NoScanKeys(entries[..n]);
    }
  }

  lemma {:induction false} BuiltHasNoScanKeys(req: Request)
    requires req.Succeeds()
    ensures ScanKeys(req.Body().outputs) == 0
  {
    NoScanKeys(req.entries);
    var outs := Requested(req.entries);
    if req.Change() == [] {
      assert outs + req.Change() == outs;
    } else {
      assert (outs + req.Change())[..|outs|] == outs;
    }
  }

  /** The wallet's UTXOs are unspent coins of the ledger, spendable by this key. */
  ghost predicate OwnCoins(l: Ledger, utxos: seq<Utxo>, pkey: Bytes) {
    forall k :: 0 <= k < |utxos| ==>
      utxos[k].receiverSpendPkey == pkey && exists c :: c in l.coins && c.utxo == utxos[k]
  }

  lemma {:induction false} PickedFrom(utxos: seq<Utxo>, valueType: Bytes, ignoreTypeValue: bool, target: u32, u: Utxo)
    requires u in Picked(utxos, valueType, ignoreTypeValue, target)
    ensures u in utxos && Usable(u, valueType, ignoreTypeValue)
  {
    if utxos != [] {
      var n := |utxos| - 1;
      var rest := utxos[..n];
      if u in Picked(rest, valueType, ignoreTypeValue, target) {
        PickedFrom(rest, valueType, ignoreTypeValue, target, u);
      }
    }
  }

  lemma {:induction false} ChosenCoin(l: Ledger, req: Request, pkey: Bytes, k: nat)
    requires WF(l) && OwnCoins(l, req.utxos, pkey) && k < |req.Chosen()|
    ensures var c := FindCoin(l.coins, InputsFor(req.Chosen())[k]);
      c.Some? && c.value.utxo == req.Chosen()[k] && c.value.utxo.receiverSpendPkey == pkey
  {
    var u := req.Chosen()[k];
    PickedFrom(req.utxos, req.valueType, req.ignoreTypeValue, Target(req.entries), u);
    var c :| c in l.coins && c.utxo == u;
    FindDistinct(l.coins, c);
  }

  lemma {:induction false} InputTotalOf(coins: seq<Coin>, utxos: seq<Utxo>)
    requires forall k :: 0 <= k < |utxos| ==>
               FindCoin(coins, InputsFor(utxos)[k]).Some? && FindCoin(coins, InputsFor(utxos)[k]).value.utxo == utxos[k]
    ensures InputTotal(coins, InputsFor(utxos)) == Total(utxos)
  {
    if utxos != [] {
      var n := |utxos| - 1;
      var rest := utxos[..n];
      assert InputsFor(utxos)[..|rest|] == InputsFor(rest);
      forall k | 0 <= k < |rest|
        ensures FindCoin(coins, InputsFor(rest)[k]).Some? && FindCoin(coins, InputsFor(rest)[k]).value.utxo == rest[k]
      {
        assert InputsFor(rest)[k] == InputsFor(utxos)[k];
      }
      InputTotalOf(coins, rest);
      assert FindCoin(coins, InputsFor(utxos)[|rest|]).value.utxo == utxos[|rest|];
    }
  }

  lemma {:induction false} ChosenTotal(l: Ledger, req: Request, pkey: Bytes)
    requires WF(l) && OwnCoins(l, req.utxos, pkey)
    ensures InputTotal(l.coins, InputsFor(req.Chosen())) == Total(req.Chosen())
  {
    forall k | 0 <= k < |req.Chosen()|
      ensures FindCoin(l.coins, InputsFor(req.Chosen())[k]).Some?
      ensures FindCoin(l.coins, InputsFor(req.Chosen())[k]).value.utxo == req.Chosen()[k]
    {
      ChosenCoin(l, req, pkey, k);
    }
    InputTotalOf(l.coins, req.Chosen());
  }

  lemma {:induction false} ChangeCompletes(requested: nat, chosen: nat)
    requires chosen % TWO_TO_THE_32 >= requested % TWO_TO_THE_32
    ensures (requested + (chosen % TWO_TO_THE_32 - requested % TWO_TO_THE_32)) % TWO_TO_THE_32 == chosen % TWO_TO_THE_32
  {
    AddWraps(requested, chosen % TWO_TO_THE_32 - requested % TWO_TO_THE_32);
  }

  lemma {:induction false} BuiltModulo(req: Request)
    requires req.Succeeds()
    ensures OutputTotal(req.Body().outputs) % TWO_TO_THE_32 == Total(req.Chosen()) % TWO_TO_THE_32
  {
    var requested, chosen := OutputTotal(Requested(req.entries)), Total(req.Chosen());
    assert OutputTotal(req.Body().outputs)
        == requested + (chosen % TWO_TO_THE_32 - requested % TWO_TO_THE_32) by {
      BuiltTotal(req);
    }
    assert chosen % TWO_TO_THE_32 >= requested % TWO_TO_THE_32;
    ChangeCompletes(requested, chosen);
  }

  lemma {:induction false} BuiltBalances(l: Ledger, req: Request, pkey: Bytes)
    requires WF(l) && OwnCoins(l, req.utxos, pkey) && req.Succeeds()
    ensures OutputTotal(req.Body().outputs) % TWO_TO_THE_32 == InputTotal(l.coins, req.Body().inputs) % TWO_TO_THE_32
  {
    ChosenTotal(l, req, pkey);
    BuiltModulo(req);
  }

  /** Every chosen UTXO has the value type that the verdict asks of the inputs. */
  ghost predicate ChosenFit(req: Request)
    requires req.Succeeds()
  {
    forall k :: 0 <= k < |req.Chosen()| ==> req.Chosen()[k].valueType == InputType(req.Body())
  }

  lemma {:induction false} BuiltSpends(l: Ledger, req: Request, pkey: Bytes)
    requires WF(l) && OwnCoins(l, req.utxos, pkey) && req.Succeeds()
    ensures (forall k :: 0 <= k < |req.Body().inputs| ==> SpendsCoinOf(l.coins, req.Body(), k, pkey))
       <==> ChosenFit(req)
  {
    var body := req.Body();
    forall k | 0 <= k < |body.inputs|
      ensures SpendsCoinOf(l.coins, body, k, pkey) <==> req.Chosen()[k].valueType == InputType(body)
    {
      ChosenCoin(l, req, pkey, k);
    }
  }

  lemma {:induction false} NothingPicked(utxos: seq<Utxo>, valueType: Bytes, ignoreTypeValue: bool)
    ensures Picked(utxos, valueType, ignoreTypeValue, 0) == []
  {
    if utxos != [] {
      var n := |utxos| - 1;
      NothingPicked(utxos[..n], valueType, ignoreTypeValue);
    }
  }

  /** Inputs are chosen exactly when something is requested. */
  lemma {:induction false} ChosenIffRequested(req: Request)
    requires req.Succeeds()
    ensures req.Chosen() != [] <==> Target(req.entries) > 0
  {
    if Target(req.entries) == 0 {
      NothingPicked(req.utxos, req.valueType, req.ignoreTypeValue);
    }
  }

  lemma {:induction false} BuiltTransfers(l: Ledger, req: Request, pkey: Bytes)
    requires WF(l) && OwnCoins(l, req.utxos, pkey) && req.Succeeds()
    ensures IsTransfer(l, req.Body(), pkey) <==> Target(req.entries) > 0 && ChosenFit(req)
  {
    BuiltBalances(l, req, pkey);
    BuiltHasNoScanKeys(req);
    BuiltSpends(l, req, pkey);
    ChosenIffRequested(req);
  }

  lemma {:induction false} SignedVerifies(keys: Keys, body: TxBody)
    requires IsKeyPair(keys) && BodyRoundTrips()
    ensures WellSigned(Signed(keys, body), keys.pkey)
    ensures Body(Signed(keys, body)) == body
    ensures FormError(Signed(keys, body)) == None <==> |EncodeBody(body)| <= MAX_TX_SIZE
  {
    var d := Hash(EncodeBody(body));
    assert VerifyDigest(keys.pkey, d, SignDigest(keys.privateKey, d)[..SIG_SIZE - 1]);
  }

  /**
   A transaction that CreateTx builds from the key's own unspent coins is accepted on the same ledger
   if and only if the requested total is positive, the body fits the size limit, and every chosen UTXO
   has the type asked of the inputs. Wrapping sums do not matter: both sides wrap alike.
   */
  lemma {:induction false} BuiltIsAccepted(l: Ledger, req: Request, keys: Keys)
    requires WF(l) && IsKeyPair(keys) && BodyRoundTrips()
    requires OwnCoins(l, req.utxos, keys.pkey) && req.Succeeds()
    ensures Accepts(l, Signed(keys, req.Body())) <==>
            Target(req.entries) > 0 && |EncodeBody(req.Body())| <= MAX_TX_SIZE && ChosenFit(req)
  {
    var body, tx := req.Body(), Signed(keys, req.Body());
    SignedVerifies(keys, body);
    BuiltTransfers(l, req, keys.pkey);
    AcceptsExactly(l, tx);
    if Accepts(l, tx) {
      var owner :| IsTransfer(l, Body(tx), owner) && WellSigned(tx, owner);
      ChosenCoin(l, req, keys.pkey, 0);
      assert SpendsCoinOf(l.coins, body, 0, owner);
      assert owner == keys.pkey;
    }
  }

  /**
   With ignoreTypeValue false, as every caller has it, the last condition is that no votes are offered
   to fund a new voting.
   */
  lemma {:induction false} TypedFit(req: Request)
    requires !req.ignoreTypeValue && req.Succeeds() && Target(req.entries) > 0
    ensures ChosenFit(req) <==> (req.voteType != 0 ==> req.valueType == [])
  {
    ChosenIffRequested(req);
    forall k | 0 <= k < |req.Chosen()| ensures req.Chosen()[k].valueType == req.valueType {
      PickedFrom(req.utxos, req.valueType, false, Target(req.entries), req.Chosen()[k]);
    }
    assert req.Chosen()[0].valueType == req.valueType;
  }

  // Rewards.

  function RewardBody(pkey: Bytes, rewardForBlock: Bytes): TxBody {
    TxBody([], [Output(pkey, [], REWARD_COINS)], rewardForBlock, [], 0, 0, [], [])
  }

  function CreateMiningReward(keys: Keys, rewardForBlock: Bytes): Transaction {
    Signed(keys, RewardBody(keys.pkey, rewardForBlock))
  }

  /**
   The executor does not look at a reward's value type: whatever type it carries, the reward that the
   proposer of a stored block signs is accepted exactly while no stored transaction links to that block.
   */
  lemma {:induction false} RewardAccepted(l: Ledger, keys: Keys, i: nat, valueType: Bytes)
    requires LinearBlocks(l.blocks) && IsKeyPair(keys) && BodyRoundTrips()
    requires i < |l.blocks| && |l.blocks[i].hash| == HASH_SIZE && l.blocks[i].header.proposerPkey == keys.pkey
    requires |EncodeBody(RewardBody(keys.pkey, l.blocks[i].hash).(valueType := valueType))| <= MAX_TX_SIZE
    ensures Accepts(l, Signed(keys, RewardBody(keys.pkey, l.blocks[i].hash).(valueType := valueType)))
       <==> FindLink(l.txs, l.blocks[i].hash) == None
  {
    var body := RewardBody(keys.pkey, l.blocks[i].hash).(valueType := valueType);
    SignedVerifies(keys, body);
    LinearAt(l.blocks, i);
    JudgeReward(l, body, keys.pkey);
    FindLinkSound(l.txs, l.blocks[i].hash);
    FindBlockSound(l.blocks, l.blocks[i].hash);
  }

  /** So the reward that CreateMiningReward builds is accepted exactly while nothing links to the block. */
  lemma {:induction false} RewardAcceptedOnce(l: Ledger, keys: Keys, i: nat)
    requires LinearBlocks(l.blocks) && IsKeyPair(keys) && BodyRoundTrips()
    requires i < |l.blocks| && |l.blocks[i].hash| == HASH_SIZE && l.blocks[i].header.proposerPkey == keys.pkey
    requires |EncodeBody(RewardBody(keys.pkey, l.blocks[i].hash))| <= MAX_TX_SIZE
    ensures Accepts(l, CreateMiningReward(keys, l.blocks[i].hash)) <==> FindLink(l.txs, l.blocks[i].hash) == None
  {
    var body := RewardBody(keys.pkey, l.blocks[i].hash);
    assert body.(valueType := []) == body;
    RewardAccepted(l, keys, i, []);
  }
}
