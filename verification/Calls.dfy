/** What each ABCI call does in every reachable state, stated on its arguments and on the committed blocks. */
module Calls {
  import opened Types
  import opened Crypto
  import opened Merkle
  import opened Blocks
  import opened LedgerSpec
  import opened WellFormed
  import opened Sound
  import opened Verdicts
  import opened Accepted
  import opened Checks
  import opened Acceptance
  import opened Executor
  import opened AppSpec
  import opened Runs

  // CheckTx and DeliverTx.

  /** A well-formed transaction whose hash one of the pending ones has. */
  ghost predicate IsPending(e: ExecState, tx: Transaction) {
    && (exists body :: HasForm(tx, body))
    && exists i :: 0 <= i < |e.transactions| && e.transactions[i].hash == tx.hash
  }

  /** The same executor with one more pending transaction. */
  ghost predicate Adds(e: ExecState, next: ExecState, tx: Transaction) {
    && next.transactions == e.transactions + [tx]
    && next.timestamp == e.timestamp && next.blockProposer == e.blockProposer
  }

  /** AppendTx: the answer of the first check that fails, and one more pending transaction exactly with CodeOk. */
  lemma {:induction false} AppendIs(l: Ledger, e: ExecState, tx: Transaction, ignoreDuplicates: bool)
    requires WF(l) && PendingInv(l, e)
    ensures var step := AppendedIfValid(l, e, tx, ignoreDuplicates);
      if ignoreDuplicates && IsPending(e, tx) then step == Step(e, Returned(CodeOk))
      else
        && step.answer == AnswerTo(l, tx)
        && (step.answer == Returned(CodeOk) ==> Adds(e, step.state, tx))
        && (step.answer != Returned(CodeOk) ==> step.state == e)
  {
    VerdictIsFirstFailure(l, tx);
    if Accepts(l, tx) {
      AppendedKeepsInv(l, e, tx);
    }
    WasProcessedIs(l, e, tx);
  }

  lemma {:induction false} WasProcessedIs(l: Ledger, e: ExecState, tx: Transaction)
    requires PendingInv(l, e)
    ensures FormError(tx) == None && WasProcessed(e, tx.hash) <==> IsPending(e, tx)
  {
    if DecodeBody(tx.txBody).Some? {
      assert FormError(tx) == None <==> HasForm(tx, Body(tx));
    }
    if WasProcessed(e, tx.hash) {
      assert tx.hash in HashesOf(e.transactions);
    }
  }

  /**
   CheckTx in every reachable state: CodeParseErr for bytes that do not parse, CodeOk and nothing new for
   a well-formed transaction with a pending hash, and else the answer of the first check that fails,
   with one more pending transaction exactly with CodeOk.
   */
  lemma {:induction false} CheckTxIs(validators: map<Bytes, Bytes>, calls: seq<Call>, data: Bytes)
    requires Run(validators, calls).Some?
    ensures var s := Run(validators, calls).value;
      var step := AppStep(validators, s, CheckTx(data));
      match DecodeTransaction(data)
      case None => step == Step(s, Returned(CodeParseErr))
      case Some(tx) =>
        if IsPending(s.check, tx) then step == Step(s, Returned(CodeOk))
        else
          && step.answer == AnswerTo(Replay(s.chain), tx)
          && step.state == s.(check := step.state.check)
          && (step.answer == Returned(CodeOk) ==> Adds(s.check, step.state.check, tx))
          && (step.answer != Returned(CodeOk) ==> step.state == s)
  {
    var s := Run(validators, calls).value;
    CheckedState(validators, calls);
    match DecodeTransaction(data)
    case None =>
    case Some(tx) => AppendIs(Replay(s.chain), s.check, tx, true);
  }

  lemma {:induction false} CheckedState(validators: map<Bytes, Bytes>, calls: seq<Call>)
    requires Run(validators, calls).Some?
    ensures var s := Run(validators, calls).value;
      && WF(Replay(s.chain))
      && PendingInv(Replay(s.chain), s.check) && PendingInv(Replay(s.chain), s.deliver)
  {
    RunKeepsInv(validators, calls);
    AcceptedWF(Run(validators, calls).value.chain);
  }

  /** DeliverTx likewise, except that it does not look for pending hashes. */
  lemma {:induction false} DeliverTxIs(validators: map<Bytes, Bytes>, calls: seq<Call>, data: Bytes)
    requires Run(validators, calls).Some?
    ensures var s := Run(validators, calls).value;
      var step := AppStep(validators, s, DeliverTx(data));
      match DecodeTransaction(data)
      case None => step == Step(s, Returned(CodeParseErr))
      case Some(tx) =>
        && step.answer == AnswerTo(Replay(s.chain), tx)
        && step.state == s.(deliver := step.state.deliver)
        && (step.answer == Returned(CodeOk) ==> Adds(s.deliver, step.state.deliver, tx))
        && (step.answer != Returned(CodeOk) ==> step.state == s)
  {
    var s := Run(validators, calls).value;
    CheckedState(validators, calls);
    match DecodeTransaction(data)
    case None =>
    case Some(tx) => AppendIs(Replay(s.chain), s.deliver, tx, false);
  }

  /** What DeliverTx answers CodeOk to, in every reachable state: exactly the signed rewards and transfers. */
  lemma {:induction false} DeliveredExactly(
    validators: map<Bytes, Bytes>, calls: seq<Call>, data: Bytes, tx: Transaction)
    requires Run(validators, calls).Some? && DecodeTransaction(data) == Some(tx)
    ensures var s := Run(validators, calls).value;
      var l := Replay(s.chain);
      AppStep(validators, s, DeliverTx(data)).answer == Returned(CodeOk) <==>
      exists body :: HasForm(tx, body)
        && (RewardsProposer(l, tx, body) || exists owner :: MovesCoins(l, tx, body, owner))
  {
    var l := Replay(Run(validators, calls).value.chain);
    CheckedState(validators, calls);
    DeliverTxIs(validators, calls, data);
    VerdictIsFirstFailure(l, tx);
    AcceptedExactly(l, tx);
  }

  /** No forged transaction is delivered: CodeOk takes a signature of the body's hash under the signer's key. */
  lemma {:induction false} DeliveredIsSigned(
    validators: map<Bytes, Bytes>, calls: seq<Call>, data: Bytes, tx: Transaction)
    requires Run(validators, calls).Some? && DecodeTransaction(data) == Some(tx)
    requires AppStep(validators, Run(validators, calls).value, DeliverTx(data)).answer == Returned(CodeOk)
    ensures |tx.sig| == SIG_SIZE
    ensures SignerOf(Replay(Run(validators, calls).value.chain), Body(tx)).Some?
    ensures var owner := SignerOf(Replay(Run(validators, calls).value.chain), Body(tx)).value;
      owner != [] && VerifyDigest(owner, Hash(tx.txBody), tx.sig[..SIG_SIZE - 1])
  {
    DeliverAnswers(validators, calls, data);
    AcceptedIsSigned(Replay(Run(validators, calls).value.chain), tx);
  }

  /** When CheckTx answers CodeOk, a pending transaction with that hash passes all checks on the same ledger. */
  lemma {:induction false} CheckedIsValidated(
    validators: map<Bytes, Bytes>, calls: seq<Call>, data: Bytes, tx: Transaction)
    requires Run(validators, calls).Some? && DecodeTransaction(data) == Some(tx)
    requires AppStep(validators, Run(validators, calls).value, CheckTx(data)).answer == Returned(CodeOk)
    ensures var s := Run(validators, calls).value;
      var pending := AppStep(validators, s, CheckTx(data)).state.check.transactions;
      exists i :: 0 <= i < |pending| && pending[i].hash == tx.hash
        && AnswerTo(Replay(s.chain), pending[i]) == Returned(CodeOk)
  {
    var s := Run(validators, calls).value;
    CheckedState(validators, calls);
    CheckTxIs(validators, calls, data);
    if IsPending(s.check, tx) {
      var i :| 0 <= i < |s.check.transactions| && s.check.transactions[i].hash == tx.hash;
      AllAcceptedAt(Replay(s.chain), s.check.transactions, i);
      VerdictIsFirstFailure(Replay(s.chain), s.check.transactions[i]);
    } else {
      var pending := AppStep(validators, s, CheckTx(data)).state.check.transactions;
      assert pending[|s.check.transactions|] == tx;
    }
  }

  // BeginBlock.

  /** BeginBlock takes time and the key of the validator with this address, and panics for an unknown one. */
  lemma {:induction false} BeginBlockIs(
    validators: map<Bytes, Bytes>, s: AppState, proposerAddress: Bytes, time: u64, address: Bytes)
    requires CopiedTo(proposerAddress, TM_ADDR_SIZE, address)
    ensures var step := AppStep(validators, s, BeginBlock(proposerAddress, time));
      && step.state == s.(deliver := step.state.deliver)
      && step.answer == (if address in validators then Returned(CodeOk) else Panicked)
      && step.state.deliver.transactions == s.deliver.transactions
      && (address !in validators ==> step.state == s)
      && (address in validators ==>
            step.state.deliver.timestamp == time && step.state.deliver.blockProposer == validators[address])
  {
    SliceToTmAddrCopies(proposerAddress, address);
  }

  // The block that is committed.

  ghost predicate OnlyTransactions(calls: seq<Call>) {
    forall i :: 0 <= i < |calls| ==> calls[i].CheckTx? || calls[i].DeliverTx?
  }

  /** The delivered transactions that pass all checks, in the order of their delivery. */
  ghost function Deliveries(l: Ledger, calls: seq<Call>): seq<Transaction> {
    if calls == [] then []
    else
      var rest, last := Deliveries(l, calls[..|calls| - 1]), calls[|calls| - 1];
      if last.DeliverTx? && DecodeTransaction(last.data).Some?
         && AnswerTo(l, DecodeTransaction(last.data).value) == Returned(CodeOk)
      then rest + [DecodeTransaction(last.data).value] else rest
  }

  /** All of the state but the check executor and what is delivered. */
  ghost predicate SameBlock(s: AppState, t: AppState) {
    && t.chain == s.chain && t.appBlockHash == s.appBlockHash
    && t.deliver.timestamp == s.deliver.timestamp && t.deliver.blockProposer == s.deliver.blockProposer
  }

  lemma {:induction false} RunBefore(validators: map<Bytes, Bytes>, before: seq<Call>, after: seq<Call>)
    requires Run(validators, before + after).Some?
    ensures Run(validators, before).Some?
  {
    ChainGrows(validators, before + after, before);
  }

  lemma {:induction false} LastStep(validators: map<Bytes, Bytes>, calls: seq<Call>, call: Call)
    requires Run(validators, calls + [call]).Some?
    ensures Run(validators, calls).Some?
    ensures AppStep(validators, Run(validators, calls).value, call).answer.Returned?
    ensures Run(validators, calls + [call]).value == AppStep(validators, Run(validators, calls).value, call).state
  {
    RunBefore(validators, calls, [call]);
    RunSnoc(validators, calls, call);
  }

  /** The same block, with these transactions more. */
  ghost predicate HasDelivered(s: AppState, t: AppState, txs: seq<Transaction>) {
    SameBlock(s, t) && t.deliver.transactions == s.deliver.transactions + txs
  }

  lemma {:induction false} HasDeliveredMore(
    s: AppState, t: AppState, u: AppState, txs: seq<Transaction>, more: seq<Transaction>)
    requires HasDelivered(s, t, txs) && HasDelivered(t, u, more)
    ensures HasDelivered(s, u, txs + more)
  {}

  lemma {:induction false} OneMoreDelivered(validators: map<Bytes, Bytes>, calls: seq<Call>, call: Call)
    requires Run(validators, calls + [call]).Some? && (call.CheckTx? || call.DeliverTx?)
    ensures Run(validators, calls).Some?
    ensures var s := Run(validators, calls).value;
      HasDelivered(s, Run(validators, calls + [call]).value, Deliveries(Replay(s.chain), [call]))
  {
    LastStep(validators, calls, call);
    assert [call][..0] == [];
    match call
    case CheckTx(data) => CheckTxIs(validators, calls, data);
    case DeliverTx(data) => DeliverTxIs(validators, calls, data);
    case _ =>
  }

  lemma {:induction false} DeliveriesSnoc(l: Ledger, calls: seq<Call>, call: Call)
    ensures Deliveries(l, calls + [call]) == Deliveries(l, calls) + Deliveries(l, [call])
  {
    assert (calls + [call])[..|calls|] == calls && [call][..0] == [];
  }

  lemma {:induction false} DeliveredNext(
    validators: map<Bytes, Bytes>, s: AppState, calls: seq<Call>, rest: seq<Call>, last: Call)
    requires Run(validators, calls + [last]).Some? && (last.CheckTx? || last.DeliverTx?)
    requires Run(validators, calls).Some?
    requires HasDelivered(s, Run(validators, calls).value, Deliveries(Replay(s.chain), rest))
    ensures HasDelivered(s, Run(validators, calls + [last]).value, Deliveries(Replay(s.chain), rest + [last]))
  {
    var l := Replay(s.chain);
    OneMoreDelivered(validators, calls, last);
    DeliveriesSnoc(l, rest, last);
    HasDeliveredMore(
      s, Run(validators, calls).value, Run(validators, calls + [last]).value,
      Deliveries(l, rest), Deliveries(l, [last]));
  }

  lemma {:induction false} LastCallApart(before: seq<Call>, calls: seq<Call>)
    requires calls != []
    ensures var rest, last := calls[..|calls| - 1], calls[|calls| - 1];
      before + calls == (before + rest) + [last] && calls == rest + [last]
  {}

  /** CheckTx and DeliverTx calls only add what is delivered. */
  lemma {:induction false} DeliveredBetween(validators: map<Bytes, Bytes>, before: seq<Call>, calls: seq<Call>)
    requires Run(validators, before + calls).Some? && OnlyTransactions(calls)
    ensures Run(validators, before).Some?
    ensures var s := Run(validators, before).value;
      HasDelivered(s, Run(validators, before + calls).value, Deliveries(Replay(s.chain), calls))
    decreases |calls|
  {
    if calls == [] {
      assert before + calls == before;
    } else {
      var rest, last := calls[..|calls| - 1], calls[|calls| - 1];
      LastCallApart(before, calls);
      RunBefore(validators, before + rest, [last]);
      DeliveredBetween(validators, before, rest);
      DeliveredNext(validators, Run(validators, before).value, before + rest, rest, last);
    }
  }

  /** One more block with just these fields, on the tip. */
  ghost predicate Appends(
    chain: seq<Block>, longer: seq<Block>, txs: seq<Transaction>, timestamp: u64, proposerPkey: Bytes)
  {
    && |longer| == |chain| + 1 && chain <= longer
    && HasFields(
         longer[|chain|], txs, if chain == [] then [] else chain[|chain| - 1].hash, timestamp, proposerPkey)
  }

  lemma {:induction false} TipIs(validators: map<Bytes, Bytes>, calls: seq<Call>)
    requires Run(validators, calls).Some?
    ensures var s := Run(validators, calls).value;
      s.appBlockHash == if s.chain == [] then [] else s.chain[|s.chain| - 1].hash
  {
    var s := Run(validators, calls).value;
    RunKeepsInv(validators, calls);
    AcceptedIsSound(s.chain);
    TipsAgree(s.chain);
  }

  lemma {:induction false} CommitAppends(validators: map<Bytes, Bytes>, calls: seq<Call>)
    requires Run(validators, calls + [Commit]).Some?
    ensures Run(validators, calls).Some?
    ensures var s, t := Run(validators, calls).value, Run(validators, calls + [Commit]).value;
      Appends(s.chain, t.chain, s.deliver.transactions, s.deliver.timestamp, s.deliver.blockProposer)
  {
    LastStep(validators, calls, Commit);
    var s := Run(validators, calls).value;
    CommitCall(validators, s);
    TipIs(validators, calls);
    BlockOfHasFields(s.deliver.transactions, s.appBlockHash, s.deliver.timestamp, s.deliver.blockProposer);
  }

  /**
   A Commit that returns appends one block on the tip: with what was pending before, then with what was
   delivered and passed all checks, in order, and with the time and proposer of the state before.
   */
  lemma {:induction false} CommittedBlock(validators: map<Bytes, Bytes>, before: seq<Call>, calls: seq<Call>)
    requires Run(validators, before + calls + [Commit]).Some? && OnlyTransactions(calls)
    ensures Run(validators, before).Some?
    ensures var s, t := Run(validators, before).value, Run(validators, before + calls + [Commit]).value;
      Appends(
        s.chain, t.chain, s.deliver.transactions + Deliveries(Replay(s.chain), calls),
        s.deliver.timestamp, s.deliver.blockProposer)
  {
    CommitAppends(validators, before + calls);
    DeliveredBetween(validators, before, calls);
  }

  /** After BeginBlock these are the time of that call and the key of the validator with that address. */
  lemma {:induction false} CommittedAsBegun(
    validators: map<Bytes, Bytes>, before: seq<Call>, proposerAddress: Bytes, time: u64, calls: seq<Call>,
    address: Bytes)
    requires CopiedTo(proposerAddress, TM_ADDR_SIZE, address)
    requires Run(validators, before + [BeginBlock(proposerAddress, time)] + calls + [Commit]).Some?
    requires OnlyTransactions(calls)
    ensures Run(validators, before).Some? && address in validators
    ensures var s := Run(validators, before).value;
      var t := Run(validators, before + [BeginBlock(proposerAddress, time)] + calls + [Commit]).value;
      Appends(
        s.chain, t.chain, s.deliver.transactions + Deliveries(Replay(s.chain), calls), time, validators[address])
  {
    var begun := before + [BeginBlock(proposerAddress, time)];
    CommittedBlock(validators, begun, calls);
    LastStep(validators, before, BeginBlock(proposerAddress, time));
    BeginBlockIs(validators, Run(validators, before).value, proposerAddress, time, address);
  }

  lemma {:induction false} ResetByCommit(validators: map<Bytes, Bytes>, calls: seq<Call>)
    requires Run(validators, calls + [Commit]).Some?
    ensures var t := Run(validators, calls + [Commit]).value;
      && t.chain != [] && t.deliver.transactions == []
      && t.deliver.timestamp == t.chain[|t.chain| - 1].header.timestamp
      && t.deliver.blockProposer == ZERO_PKEY
  {
    LastStep(validators, calls, Commit);
    CommitCall(validators, Run(validators, calls).value);
    CommitAppends(validators, calls);
  }

  /** After a Commit without a BeginBlock: just the deliveries since, no proposer, and the time of the block before. */
  lemma {:induction false} CommittedUnbegun(validators: map<Bytes, Bytes>, before: seq<Call>, calls: seq<Call>)
    requires Run(validators, before + [Commit] + calls + [Commit]).Some? && OnlyTransactions(calls)
    ensures Run(validators, before + [Commit]).Some?
    ensures var s := Run(validators, before + [Commit]).value;
      var t := Run(validators, before + [Commit] + calls + [Commit]).value;
      && s.chain != []
      && Appends(
           s.chain, t.chain, Deliveries(Replay(s.chain), calls),
           s.chain[|s.chain| - 1].header.timestamp, ZERO_PKEY)
  {
    CommittedBlock(validators, before + [Commit], calls);
    ResetByCommit(validators, before);
    var s := Run(validators, before + [Commit]).value;
    assert [] + Deliveries(Replay(s.chain), calls) == Deliveries(Replay(s.chain), calls);
  }

  // When Commit panics.

  /** A field of the body that its signed 32-bit column does not take. */
  ghost predicate OutOfRange(body: TxBody) {
    || body.voteType >= TWO_TO_THE_31 || body.duration >= TWO_TO_THE_31
    || (exists p :: p in body.inputs && p.outputIndex >= TWO_TO_THE_31)
    || (exists o :: o in body.outputs && o.value >= TWO_TO_THE_31)
  }

  /** Some committed transaction has this hash. */
  ghost predicate Committed(chain: seq<Block>, hash: Bytes) {
    exists n, i :: 0 <= n < |chain| && 0 <= i < |chain[n].transactions| && chain[n].transactions[i].hash == hash
  }

  lemma {:induction false} StoredIsCommitted(chain: seq<Block>, hash: Bytes)
    requires SoundChain(chain)
    ensures FindTx(Replay(chain).txs, hash).Some? <==> Committed(chain, hash)
  {
    FindTxSound(Replay(chain).txs, hash);
    if FindTx(Replay(chain).txs, hash).Some? {
      var rec := FindTx(Replay(chain).txs, hash).value;
      RecordsFromChain(chain, rec);
      assert chain[rec.height].transactions[rec.index].hash == hash;
    }
    if Committed(chain, hash) {
      var n, i :| 0 <= n < |chain| && 0 <= i < |chain[n].transactions| && chain[n].transactions[i].hash == hash;
      ChainIsRecorded(chain, n, i);
    }
  }

  lemma {:induction false} BlockIsCommitted(chain: seq<Block>, hash: Bytes)
    ensures FindBlock(Replay(chain).blocks, hash).Some? <==> exists n :: 0 <= n < |chain| && chain[n].hash == hash
  {
    ReplayBlocks(chain);
    FindBlockSound(Replay(chain).blocks, hash);
    if FindBlock(Replay(chain).blocks, hash).Some? {
      var n := FindBlock(Replay(chain).blocks, hash).value;
      assert chain[n].hash == Replay(chain).blocks[n].hash;
    }
    forall n | 0 <= n < |chain| && chain[n].hash == hash ensures FindBlock(Replay(chain).blocks, hash).Some? {
      assert Replay(chain).blocks[n].hash == hash;
    }
  }

  /** What the tables do not take: a value out of range, a hash that is committed, or one that is pending before. */
  ghost predicate Unstorable(chain: seq<Block>, txs: seq<Transaction>, i: nat)
    requires i < |txs|
  {
    || OutOfRange(Body(txs[i]))
    || Committed(chain, txs[i].hash)
    || exists j :: 0 <= j < i && txs[j].hash == txs[i].hash
  }

  lemma {:induction false} RangeIs(body: TxBody)
    ensures BodyInRange(body) <==> !OutOfRange(body)
  {
    if !BodyInRange(body) && body.voteType < TWO_TO_THE_31 && body.duration < TWO_TO_THE_31 {
      if i :| 0 <= i < |body.inputs| && body.inputs[i].outputIndex >= TWO_TO_THE_31 {
        assert body.inputs[i] in body.inputs;
      } else {
        var k :| 0 <= k < |body.outputs| && body.outputs[k].value >= TWO_TO_THE_31;
        assert body.outputs[k] in body.outputs;
      }
    }
  }

  lemma {:induction false} InsertableIs(chain: seq<Block>, b: Block, i: nat)
    requires SoundChain(chain) && i < |b.transactions| && DecodeBody(b.transactions[i].txBody).Some?
    ensures Insertable(Replay(chain), b, i) <==> !Unstorable(chain, b.transactions, i)
  {
    StoredIsCommitted(chain, b.transactions[i].hash);
    RangeIs(Body(b.transactions[i]));
  }

  /**
   Commit panics in a reachable state exactly for a time beyond 63 bits, a block hash that is committed,
   or a pending transaction that the tables do not take.
   */
  lemma {:induction false} CommitPanicsWhen(validators: map<Bytes, Bytes>, calls: seq<Call>, b: Block)
    requires Run(validators, calls).Some?
    requires var s := Run(validators, calls).value;
      HasFields(
        b, s.deliver.transactions, if s.chain == [] then [] else s.chain[|s.chain| - 1].hash,
        s.deliver.timestamp, s.deliver.blockProposer)
    ensures var s := Run(validators, calls).value;
      AppStep(validators, s, Commit).answer == Panicked <==>
      || s.deliver.timestamp >= TWO_TO_THE_63
      || (exists n :: 0 <= n < |s.chain| && s.chain[n].hash == b.hash)
      || exists i :: 0 <= i < |s.deliver.transactions| && Unstorable(s.chain, s.deliver.transactions, i)
  {
    var s := Run(validators, calls).value;
    RunKeepsInv(validators, calls);
    TipIs(validators, calls);
    SameFields(b, s);
    CommitCall(validators, s);
    CommitPanicsExactly(s);
    BlockIsCommitted(s.chain, b.hash);
    PendingStorable(s);
  }

  lemma {:induction false} SameFields(b: Block, s: AppState)
    requires HasFields(b, s.deliver.transactions, s.appBlockHash, s.deliver.timestamp, s.deliver.blockProposer)
    ensures PendingBlock(s).hash == b.hash
  {
    BlockOfHasFields(s.deliver.transactions, s.appBlockHash, s.deliver.timestamp, s.deliver.blockProposer);
    if s.deliver.transactions == [] {
      assert b.header.merkleTree == PendingBlock(s).header.merkleTree;
    }
  }

  lemma {:induction false} PendingStorable(s: AppState)
    requires AppInv(s)
    ensures forall i :: 0 <= i < |s.deliver.transactions| ==>
              (Insertable(Replay(s.chain), PendingBlock(s), i) <==>
               !Unstorable(s.chain, s.deliver.transactions, i))
  {
    AcceptedIsSound(s.chain);
    forall i | 0 <= i < |s.deliver.transactions|
      ensures Insertable(Replay(s.chain), PendingBlock(s), i) <==>
              !Unstorable(s.chain, s.deliver.transactions, i)
    {
      AllAcceptedAt(Replay(s.chain), s.deliver.transactions, i);
      AcceptedForms(Replay(s.chain), s.deliver.transactions[i]);
      InsertableIs(s.chain, PendingBlock(s), i);
    }
  }
}
