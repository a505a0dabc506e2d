/** The theorems about accepted runs, stated for the application: for every sequence of ABCI calls. */
module Runs {
  import opened Types
  import opened Crypto
  import opened LedgerSpec
  import opened WellFormed
  import opened Sound
  import opened Verdicts
  import opened Accepted
  import opened Spending
  import opened Votings
  import opened Wallet
  import opened Loading
  import Blocks
  import opened AppSpec

  // Where every call that returned left the application.

  lemma {:induction false} ReachableIsAccepted(validators: map<Bytes, Bytes>, calls: seq<Call>)
    requires Run(validators, calls).Some?
    ensures AcceptedChain(Run(validators, calls).value.chain)
    ensures PendingInv(Replay(Run(validators, calls).value.chain), Run(validators, calls).value.deliver)
  {
    RunKeepsInv(validators, calls);
  }

  ghost predicate HasChild(chain: seq<Block>, hash: Bytes) {
    exists j :: 0 <= j < |chain| && chain[j].header.prevBlockHash == hash
  }

  lemma {:induction false} TipIsChildless(chain: seq<Block>, j: nat)
    requires SavedChain(chain) && j < |chain| && chain[|chain| - 1].hash != []
    ensures chain[j].header.prevBlockHash != chain[|chain| - 1].hash
  {
    LinearChain(chain, j);
    if j > 0 {
      LinearChain(chain, j - 1);
    }
  }

  /** The tip is the one block without a child. */
  lemma {:induction false} OnlyTipIsChildless(chain: seq<Block>, i: nat)
    requires SavedChain(chain) && i < |chain| && chain[|chain| - 1].hash != []
    ensures HasChild(chain, chain[i].hash) <==> i < |chain| - 1
  {
    if i < |chain| - 1 {
      var next := i + 1;
      LinearChain(chain, next);
    } else if HasChild(chain, chain[i].hash) {
      var j :| 0 <= j < |chain| && chain[j].header.prevBlockHash == chain[i].hash;
      TipIsChildless(chain, j);
    }
  }

  lemma {:induction false} AfterCommit(validators: map<Bytes, Bytes>, calls: seq<Call>)
    requires Run(validators, calls).Some? && calls != [] && calls[|calls| - 1].Commit?
    ensures var s := Run(validators, calls).value;
      && s.check.transactions == [] && s.deliver.transactions == []
      && s.chain != [] && s.appBlockHash == s.chain[|s.chain| - 1].hash
  {
    assert Run(validators, calls[..|calls| - 1]).Some?;
  }

  /** After a Commit nothing is pending, and appBlockHash names the one stored block that has no child. */
  lemma {:induction false} BetweenBlocks(validators: map<Bytes, Bytes>, calls: seq<Call>, i: nat)
    requires Run(validators, calls).Some? && calls != [] && calls[|calls| - 1].Commit?
    requires i < |Run(validators, calls).value.chain|
    ensures var s := Run(validators, calls).value;
      && s.check.transactions == [] && s.deliver.transactions == []
      && s.appBlockHash == s.chain[|s.chain| - 1].hash
      && (HasChild(s.chain, s.chain[i].hash) <==> i < |s.chain| - 1)
  {
    var chain := Run(validators, calls).value.chain;
    AfterCommit(validators, calls);
    assert SavedChain(chain) && chain[|chain| - 1].hash != [] by {
      ReachableIsAccepted(validators, calls);
      AcceptedIsSound(chain);
      BlockIsStored(chain, |chain| - 1);
    }
    OnlyTipIsChildless(chain, i);
  }

  /** Whatever calls arrive: no output is spent in two blocks. Nothing is assumed about the blocks. */
  lemma {:induction false} EveryRunSpendsOnce(
    validators: map<Bytes, Bytes>, calls: seq<Call>, n: nat, i: nat, k: nat, m: nat, j: nat, q: nat)
    requires Run(validators, calls).Some?
    requires n < m < |Run(validators, calls).value.chain|
    requires i < |Run(validators, calls).value.chain[n].transactions|
    requires j < |Run(validators, calls).value.chain[m].transactions|
    requires k < |Body(Run(validators, calls).value.chain[n].transactions[i]).inputs|
    requires q < |Body(Run(validators, calls).value.chain[m].transactions[j]).inputs|
    ensures var chain := Run(validators, calls).value.chain;
      Body(chain[n].transactions[i]).inputs[k] != Body(chain[m].transactions[j]).inputs[q]
  {
    ReachableIsAccepted(validators, calls);
    AcceptedIsSound(Run(validators, calls).value.chain);
    SpentInOneBlock(Run(validators, calls).value.chain, n, i, k, m, j, q);
  }

  // What DeliverTx answers.

  /** DeliverTx answers the verdict on the committed ledger; the nil map is never written. */
  lemma {:induction false} DeliverAnswers(validators: map<Bytes, Bytes>, calls: seq<Call>, data: Bytes)
    requires Run(validators, calls).Some? && DecodeTransaction(data).Some?
    ensures var s := Run(validators, calls).value;
      AppStep(validators, s, DeliverTx(data)).answer == TxVerdict(Replay(s.chain), DecodeTransaction(data).value)
  {
    var s := Run(validators, calls).value;
    ReachableIsAccepted(validators, calls);
    AppendAnswers(Replay(s.chain), s.deliver, data);
  }

  /** A body once committed is never accepted again, under whatever signature or encoding it is delivered. */
  lemma {:induction false} CommittedIsRefused(
    validators: map<Bytes, Bytes>, calls: seq<Call>, n: nat, i: nat, data: Bytes)
    requires Run(validators, calls).Some? && DecodeTransaction(data).Some?
    requires n < |Run(validators, calls).value.chain| && i < |Run(validators, calls).value.chain[n].transactions|
    requires Body(DecodeTransaction(data).value) == Body(Run(validators, calls).value.chain[n].transactions[i])
    ensures AppStep(validators, Run(validators, calls).value, DeliverTx(data)).answer != Returned(CodeOk)
  {
    ReachableIsAccepted(validators, calls);
    DeliverAnswers(validators, calls, data);
    CommittedBodyRejected(Run(validators, calls).value.chain, n, i, DecodeTransaction(data).value);
  }

  /** In every reachable state DeliverTx panics exactly for the one form. */
  lemma {:induction false} DeliverPanicsExactly(validators: map<Bytes, Bytes>, calls: seq<Call>, data: Bytes)
    requires Run(validators, calls).Some? && DecodeTransaction(data).Some?
    ensures var s, tx := Run(validators, calls).value, DecodeTransaction(data).value;
      AppStep(validators, s, DeliverTx(data)).answer == Panicked <==>
      && FormError(tx) == None
      && ReachesLookUp(Replay(s.chain), Body(tx)) && FindTx(Replay(s.chain).txs, Body(tx).valueType) == None
  {
    DeliverAnswers(validators, calls, data);
    CrashesExactly(Replay(Run(validators, calls).value.chain), DecodeTransaction(data).value);
  }

  /** An init-vote without inputs, for a voting that is nowhere. */
  const STRAY_INIT_VOTE := TxBody([], [Output([], [], 0)], [], [0], 0, 0, ZERO_PKEY, ZERO_PKEY)

  /** Such a transaction takes the application down from the very first state on. */
  lemma {:induction false} FirstDeliveryCanPanic(validators: map<Bytes, Bytes>, data: Bytes)
    requires DecodeTransaction(data).Some? && FormError(DecodeTransaction(data).value) == None
    requires Body(DecodeTransaction(data).value) == STRAY_INIT_VOTE
    ensures AppStep(validators, INITIAL, DeliverTx(data)).answer == Panicked
    ensures AppStep(validators, INITIAL, CheckTx(data)).answer == Panicked
  {
    var outputs := [Output([], [], 0)];
    assert outputs[..0] == [];
    assert ReachesLookUp(GENESIS, STRAY_INIT_VOTE);
    CrashesExactly(GENESIS, DecodeTransaction(data).value);
    assert Replay([]) == GENESIS;
  }

  // The wallet against the application.

  lemma {:induction false} OwnAnswer(l: Ledger, pkey: Bytes)
    requires forall u :: u in Answer(l.coins, ByPkey(pkey)) ==> u.receiverSpendPkey == pkey
    ensures OwnCoins(l, Answer(l.coins, ByPkey(pkey)), pkey)
  {
    var utxos := Answer(l.coins, ByPkey(pkey));
    forall k | 0 <= k < |utxos|
      ensures utxos[k].receiverSpendPkey == pkey && exists c :: c in l.coins && c.utxo == utxos[k]
    {
      AnswerMember(l.coins, ByPkey(pkey), utxos[k]);
    }
  }

  /**
   What CreateTx builds from the answer of GetUTXOSByPkey in a reachable state, DeliverTx accepts in
   that state exactly if the total is positive, the body fits and every chosen UTXO has the right type.
   */
  lemma {:induction false} BuiltIsDelivered(
    validators: map<Bytes, Bytes>, calls: seq<Call>, req: Request, keys: Keys, data: Bytes)
    requires Run(validators, calls).Some? && IsKeyPair(keys) && BodyRoundTrips()
    requires req.utxos == Answer(Replay(Run(validators, calls).value.chain).coins, ByPkey(keys.pkey))
    requires forall u :: u in req.utxos ==> u.receiverSpendPkey == keys.pkey
    requires req.Succeeds()
    requires DecodeTransaction(data) == Some(Signed(keys, req.Body()))
    ensures AppStep(validators, Run(validators, calls).value, DeliverTx(data)).answer == Returned(CodeOk) <==>
            Target(req.entries) > 0 && |EncodeBody(req.Body())| <= MAX_TX_SIZE && ChosenFit(req)
  {
    var l := Replay(Run(validators, calls).value.chain);
    ReachableIsAccepted(validators, calls);
    AcceptedWF(Run(validators, calls).value.chain);
    OwnAnswer(l, keys.pkey);
    BuiltIsAccepted(l, req, keys);
    DeliverAnswers(validators, calls, data);
  }

  lemma {:induction false} RewardIsDelivered(
    validators: map<Bytes, Bytes>, calls: seq<Call>, keys: Keys, n: nat, data: Bytes)
    requires Run(validators, calls).Some? && IsKeyPair(keys) && BodyRoundTrips()
    requires n < |Run(validators, calls).value.chain|
    requires Run(validators, calls).value.chain[n].header.proposerPkey == keys.pkey
    requires |EncodeBody(RewardBody(keys.pkey, Run(validators, calls).value.chain[n].hash))| <= MAX_TX_SIZE
    requires DecodeTransaction(data) == Some(CreateMiningReward(keys, Run(validators, calls).value.chain[n].hash))
    ensures var s := Run(validators, calls).value;
      AppStep(validators, s, DeliverTx(data)).answer == Returned(CodeOk)
      <==> FindLink(Replay(s.chain).txs, s.chain[n].hash) == None
  {
    var chain := Run(validators, calls).value.chain;
    ReachableIsAccepted(validators, calls);
    BlockIsStored(chain, n);
    RewardAcceptedOnce(Replay(chain), keys, n);
    DeliverAnswers(validators, calls, data);
  }

  lemma {:induction false} LastCall(validators: map<Bytes, Bytes>, calls: seq<Call>)
    requires Run(validators, calls).Some? && calls != []
    ensures Run(validators, calls[..|calls| - 1]).Some?
    ensures Run(validators, calls[..|calls| - 1]).value.chain <= Run(validators, calls).value.chain
  {}

  /** The committed chain only grows. */
  lemma {:induction false} ChainGrows(validators: map<Bytes, Bytes>, calls: seq<Call>, earlier: seq<Call>)
    requires Run(validators, calls).Some? && earlier <= calls
    ensures Run(validators, earlier).Some?
    ensures Run(validators, earlier).value.chain <= Run(validators, calls).value.chain
  {
    if |earlier| == |calls| {
      assert earlier == calls;
    } else {
      LastCall(validators, calls);
      ChainGrows(validators, calls[..|calls| - 1], earlier);
    }
  }

  /** Once the application has committed a link to a block, DeliverTx refuses every reward for it ever after. */
  lemma {:induction false} RewardIsRefusedForGood(
    validators: map<Bytes, Bytes>, calls: seq<Call>, earlier: seq<Call>, data: Bytes)
    requires Run(validators, calls).Some? && earlier <= calls && Run(validators, earlier).Some?
    requires DecodeTransaction(data).Some? && IsCoinbase(Body(DecodeTransaction(data).value))
    requires FindLink(
               Replay(Run(validators, earlier).value.chain).txs,
               Body(DecodeTransaction(data).value).hashLink).Some?
    ensures AppStep(validators, Run(validators, calls).value, DeliverTx(data)).answer != Returned(CodeOk)
  {
    ChainGrows(validators, calls, earlier);
    DeliverAnswers(validators, calls, data);
    RewardRefusedForGood(
      Run(validators, calls).value.chain, Run(validators, earlier).value.chain, DecodeTransaction(data).value);
  }

  lemma {:induction false} BlockIsStored(chain: seq<Block>, n: nat)
    requires AcceptedChain(chain) && n < |chain|
    ensures LinearBlocks(Replay(chain).blocks) && n < |Replay(chain).blocks|
    ensures Replay(chain).blocks[n] == BlockRecord(chain[n].hash, chain[n].header) && |chain[n].hash| == HASH_SIZE
  {
    AcceptedIsSound(chain);
    ReplayBlocks(chain);
    AcceptedWF(chain);
    AcceptedIsCreated(chain);
    Blocks.CreatedChainAt(chain, n);
  }
}
