/** evote/abci_app.go as a state machine: one step for each ABCI call, and what every run keeps. */
module AppSpec {
  import opened Types
  import opened Crypto
  import opened Blocks
  import opened LedgerSpec
  import opened WellFormed
  import opened Verdicts
  import opened Accepted
  import opened Executor

  /** The committed chain and the fields of BlockchainApp. The database holds Replay(chain). */
  datatype AppState = AppState(
    chain: seq<Block>, appBlockHash: Bytes, appHeight: int, check: ExecState, deliver: ExecState)

  const INITIAL := AppState([], [], 0, NEW_STATE, NEW_STATE)

  datatype Call =
    | InitChain(initialHeight: int)
    | CheckTx(data: Bytes)
    | BeginBlock(proposerAddress: Bytes, time: u64)
    | DeliverTx(data: Bytes)
    | Commit

  function WasReset(e: ExecState): ExecState {
    e.(transactions := [], blockProposer := ZERO_PKEY, processedTrans := Some({}))
  }

  /** The block that Commit builds. */
  function PendingBlock(s: AppState): Block {
    BlockOf(s.deliver.transactions, s.appBlockHash, s.deliver.timestamp, s.deliver.blockProposer)
  }

  function CommitStep(s: AppState): Step<AppState> {
    var b := PendingBlock(s);
    if CanSave(Replay(s.chain), b) then
      Step(AppState(s.chain + [b], b.hash, s.appHeight + 1, WasReset(s.check), WasReset(s.deliver)), Returned(CodeOk))
    else
      Step(s, Panicked)
  }

  /** One ABCI call; `validators` maps consensus addresses to transaction keys. */
  function AppStep(validators: map<Bytes, Bytes>, s: AppState, call: Call): Step<AppState> {
    match call
    case InitChain(height) => Step(s.(appHeight := height), Returned(CodeOk))
    case CheckTx(data) =>
      var step := AppendSpec(Replay(s.chain), s.check, data, true);
      Step(s.(check := step.state), step.answer)
    case BeginBlock(address, time) =>
      if SliceToTmAddr(address) in validators then
        Step(
          s.(deliver := s.deliver.(timestamp := time, blockProposer := validators[SliceToTmAddr(address)])),
          Returned(CodeOk))
      else
        Step(s, Panicked)
    case DeliverTx(data) =>
      var step := AppendSpec(Replay(s.chain), s.deliver, data, false);
      Step(s.(deliver := step.state), step.answer)
    case Commit => CommitStep(s)
  }

  /** A run of calls none of which panics. */
  function Run(validators: map<Bytes, Bytes>, calls: seq<Call>): Option<AppState> {
    if calls == [] then Some(INITIAL)
    else
      match Run(validators, calls[..|calls| - 1])
      case None => None
      case Some(s) =>
        var step := AppStep(validators, s, calls[|calls| - 1]);
        if step.answer.Returned? then Some(step.state) else None
  }

  // What every run keeps.

  ghost function HashesOf(txs: seq<Transaction>): set<Bytes> {
    set i | 0 <= i < |txs| :: txs[i].hash
  }

  /** The pending transactions were all accepted on the committed ledger, and processedTrans holds their hashes. */
  ghost predicate PendingInv(l: Ledger, e: ExecState) {
    && AllAccepted(l, e.transactions)
    && (e.processedTrans.None? ==> l == GENESIS && e.transactions == [])
    && (e.processedTrans.Some? ==> e.processedTrans.value == HashesOf(e.transactions))
  }

  ghost predicate NoRepeatedHash(txs: seq<Transaction>) {
    forall i, j :: 0 <= i < j < |txs| ==> txs[i].hash != txs[j].hash
  }

  ghost predicate AppInv(s: AppState) {
    && AcceptedChain(s.chain)
    && s.appBlockHash == TipHash(Replay(s.chain))
    && PendingInv(Replay(s.chain), s.check)
    && PendingInv(Replay(s.chain), s.deliver)
    && NoRepeatedHash(s.check.transactions)
  }

  lemma {:induction false} NothingAcceptedAtFirst(tx: Transaction)
    ensures !Accepts(GENESIS, tx)
  {
    if !IsCoinbase(Body(tx)) {
      assert !SpendsCoinOf(GENESIS.coins, Body(tx), 0, Owner(GENESIS.coins, Body(tx)));
    }
    if Accepts(GENESIS, tx) {
      AcceptedForms(GENESIS, tx);
    }
  }

  lemma {:induction false} AppendedKeepsInv(l: Ledger, e: ExecState, tx: Transaction)
    requires PendingInv(l, e) && Accepts(l, tx)
    ensures Appended(e, tx).answer == Returned(CodeOk)
    ensures PendingInv(l, Appended(e, tx).state)
  {
    if l == GENESIS {
      NothingAcceptedAtFirst(tx);
    }
    var more := e.transactions + [tx];
    assert more[..|e.transactions|] == e.transactions;
    assert HashesOf(more) == HashesOf(e.transactions) + {tx.hash} by {
      assert forall i :: 0 <= i < |e.transactions| ==> more[i] == e.transactions[i];
      assert more[|e.transactions|] == tx;
    }
  }

  /** Without looking for duplicates AppendTx answers the verdict; the nil map is never written. */
  lemma {:induction false} AppendAnswers(l: Ledger, e: ExecState, data: Bytes)
    requires PendingInv(l, e) && DecodeTransaction(data).Some?
    ensures AppendSpec(l, e, data, false).answer == TxVerdict(l, DecodeTransaction(data).value)
  {
    if Accepts(l, DecodeTransaction(data).value) {
      AppendedKeepsInv(l, e, DecodeTransaction(data).value);
    }
  }

  /** AppendTx keeps the pending state sound and panics only where the validation itself does. */
  lemma {:induction false} AppendKeepsInv(l: Ledger, e: ExecState, data: Bytes, ignoreDuplicates: bool)
    requires PendingInv(l, e)
    ensures PendingInv(l, AppendSpec(l, e, data, ignoreDuplicates).state)
    ensures AppendSpec(l, e, data, ignoreDuplicates).answer == Panicked ==>
              DecodeTransaction(data).Some? && TxVerdict(l, DecodeTransaction(data).value) == Panicked
  {
    match DecodeTransaction(data)
    case None =>
    case Some(tx) =>
      if Accepts(l, tx) {
        AppendedKeepsInv(l, e, tx);
      }
  }

  /** With duplicates ignored, a hash enters the pending list once. */
  lemma {:induction false} CheckKeepsHashesApart(l: Ledger, e: ExecState, data: Bytes)
    requires PendingInv(l, e) && NoRepeatedHash(e.transactions)
    ensures NoRepeatedHash(AppendSpec(l, e, data, true).state.transactions)
  {
    match DecodeTransaction(data)
    case None =>
    case Some(tx) =>
      if Accepts(l, tx) && !WasProcessed(e, tx.hash) {
        AcceptedForms(l, tx);
        if e.processedTrans.Some? {
          forall i | 0 <= i < |e.transactions| ensures e.transactions[i].hash != tx.hash {
            assert e.transactions[i].hash in HashesOf(e.transactions);
          }
        }
      }
  }

  /** When CheckTx answers CodeOk, a transaction with that hash has passed full validation on the same ledger. */
  lemma {:induction false} CheckOkMeansValidated(l: Ledger, e: ExecState, data: Bytes)
    requires PendingInv(l, e) && AppendSpec(l, e, data, true).answer == Returned(CodeOk)
    ensures DecodeTransaction(data).Some?
    ensures exists i :: 0 <= i < |AppendSpec(l, e, data, true).state.transactions|
              && AppendSpec(l, e, data, true).state.transactions[i].hash == DecodeTransaction(data).value.hash
              && Accepts(l, AppendSpec(l, e, data, true).state.transactions[i])
  {
    var tx := DecodeTransaction(data).value;
    var after := AppendSpec(l, e, data, true).state.transactions;
    if FormError(tx) == None && WasProcessed(e, tx.hash) {
      var i :| 0 <= i < |e.transactions| && e.transactions[i].hash == tx.hash;
      AllAcceptedAt(l, e.transactions, i);
      assert after[i].hash == tx.hash && Accepts(l, after[i]);
    } else {
      assert after[|e.transactions|] == tx;
    }
  }

  /** Whether DeliverTx accepts depends on the committed ledger alone, not on what was delivered before. */
  lemma {:induction false} DeliveryOrderIrrelevant(l: Ledger, e: ExecState, e': ExecState, data: Bytes)
    requires PendingInv(l, e) && PendingInv(l, e')
    ensures AppendSpec(l, e, data, false).answer == AppendSpec(l, e', data, false).answer
  {
    match DecodeTransaction(data)
    case None =>
    case Some(tx) =>
      if Accepts(l, tx) {
        AppendedKeepsInv(l, e, tx);
        AppendedKeepsInv(l, e', tx);
      }
  }

  // Commit.

  lemma {:induction false} PendingIsAccepted(s: AppState)
    requires AppInv(s) && CanSave(Replay(s.chain), PendingBlock(s))
    ensures AcceptedBlock(Replay(s.chain), PendingBlock(s))
  {}

  lemma {:induction false} CommitKeepsInv(s: AppState)
    requires AppInv(s) && CommitStep(s).answer.Returned?
    ensures AppInv(CommitStep(s).state)
  {
    var b, next := PendingBlock(s), CommitStep(s).state;
    PendingIsAccepted(s);
    AcceptedSnoc(s.chain, b);
    ReplaySnoc(s.chain, b);
    assert HashesOf([]) == {};
  }

  /** One of the block's first n transactions has this hash. */
  ghost predicate HasHash(b: Block, n: nat, hash: Bytes)
    requires n <= |b.transactions|
  {
    exists i :: 0 <= i < n && b.transactions[i].hash == hash
  }

  lemma {:induction false} HasHashNext(b: Block, m: nat, hash: Bytes)
    requires m < |b.transactions|
    ensures HasHash(b, m + 1, hash) <==> HasHash(b, m, hash) || b.transactions[m].hash == hash
  {
    if HasHash(b, m, hash) {
      var i :| 0 <= i < m && b.transactions[i].hash == hash;
      assert 0 <= i < m + 1;
    }
  }

  /** A transaction is known when the block is applied so far: stored before, or earlier in the block. */
  lemma {:induction false} KnownWhenApplied(l: Ledger, b: Block, n: nat, hash: Bytes)
    requires n <= |b.transactions|
    ensures FindTx(Applied(l, b, n).txs, hash).Some? <==> FindTx(l.txs, hash).Some? || HasHash(b, n, hash)
  {
    if n > 0 {
      var m := n - 1;
      KnownWhenApplied(l, b, m, hash);
      HasHashNext(b, m, hash);
      var before := Applied(l, b, m);
      FindTxSnoc(before.txs, RecordOf(before.txs, b, |l.blocks|, m), hash);
    }
  }

  /** Transaction i can be stored: its fields fit the columns and its hash is new. */
  ghost predicate Insertable(l: Ledger, b: Block, i: nat)
    requires i < |b.transactions|
  {
    && Storable(b.transactions[i])
    && FindTx(l.txs, b.transactions[i].hash) == None
    && forall j :: 0 <= j < i ==> b.transactions[j].hash != b.transactions[i].hash
  }

  lemma {:induction false} CanApplyNext(l: Ledger, b: Block, m: nat)
    requires m < |b.transactions|
    ensures CanApply(l, b, m + 1) <==> CanApply(l, b, m) && Insertable(l, b, m)
  {
    KnownWhenApplied(l, b, m, b.transactions[m].hash);
  }

  ghost predicate AllInsertable(l: Ledger, b: Block, n: nat)
    requires n <= |b.transactions|
  {
    forall i :: 0 <= i < n ==> Insertable(l, b, i)
  }

  lemma {:induction false} AllInsertableNext(l: Ledger, b: Block, m: nat)
    requires m < |b.transactions|
    ensures AllInsertable(l, b, m + 1) <==> AllInsertable(l, b, m) && Insertable(l, b, m)
  {}

  lemma {:induction false} CanApplyExactly(l: Ledger, b: Block, n: nat)
    requires n <= |b.transactions|
    ensures CanApply(l, b, n) <==> AllInsertable(l, b, n)
  {
    if n > 0 {
      var m := n - 1;
      CanApplyExactly(l, b, m);
      CanApplyNext(l, b, m);
      AllInsertableNext(l, b, m);
    }
  }

  lemma {:induction false} TipIsNotEmpty(chain: seq<Block>)
    requires AcceptedChain(chain) && chain != []
    ensures TipHash(Replay(chain)) != []
  {
    AcceptedIsSound(chain);
    AcceptedIsCreated(chain);
    TipsAgree(chain);
    CreatedChainAt(chain, |chain| - 1);
  }

  lemma {:induction false} PendingExtendsTip(s: AppState)
    requires AppInv(s)
    ensures ExtendsTip(Replay(s.chain), PendingBlock(s).header.prevBlockHash)
  {
    if s.chain != [] {
      TipIsNotEmpty(s.chain);
    } else {
      assert Replay(s.chain).blocks == [];
    }
  }

  /**
   In every state that a run reaches, Commit panics only for a header or body value outside its column,
   a transaction hash that is stored or delivered twice, or a block hash that is stored. The chain
   trigger never fires.
   */
  lemma {:induction false} CommitPanicsExactly(s: AppState)
    requires AppInv(s)
    ensures CommitStep(s).answer == Panicked <==>
            || s.deliver.timestamp >= TWO_TO_THE_63
            || FindBlock(Replay(s.chain).blocks, PendingBlock(s).hash).Some?
            || exists i :: 0 <= i < |s.deliver.transactions| && !Insertable(Replay(s.chain), PendingBlock(s), i)
  {
    var l, b := Replay(s.chain), PendingBlock(s);
    PendingExtendsTip(s);
    CanApplyExactly(l, b, |b.transactions|);
  }

  lemma {:induction false} RepeatedHashPanics(s: AppState)
    requires AppInv(s)
    requires !NoRepeatedHash(s.deliver.transactions)
    ensures CommitStep(s).answer == Panicked
  {
    var txs := s.deliver.transactions;
    var i, j :| 0 <= i < j < |txs| && txs[i].hash == txs[j].hash;
    assert !Insertable(Replay(s.chain), PendingBlock(s), j);
    CommitPanicsExactly(s);
  }

  lemma {:induction false} Delivered(
    validators: map<Bytes, Bytes>, s: AppState, data: Bytes, tx: Transaction, next: AppState)
    requires AppInv(s) && DecodeTransaction(data) == Some(tx) && Accepts(Replay(s.chain), tx)
    requires next == AppStep(validators, s, DeliverTx(data)).state
    ensures AppStep(validators, s, DeliverTx(data)).answer == Returned(CodeOk)
    ensures AppInv(next) && next.chain == s.chain && next.deliver.transactions == s.deliver.transactions + [tx]
  {
    AppendedKeepsInv(Replay(s.chain), s.deliver, tx);
  }

  lemma {:induction false} CommitCall(validators: map<Bytes, Bytes>, s: AppState)
    ensures AppStep(validators, s, Commit) == CommitStep(s)
  {}

  lemma {:induction false} RepeatAtEnd(txs: seq<Transaction>, tx: Transaction)
    ensures !NoRepeatedHash(txs + [tx] + [tx])
  {
    var all, n := txs + [tx] + [tx], |txs|;
    assert all[n] == tx && all[n + 1] == tx;
  }

  lemma {:induction false} DeliveredTwice(
    validators: map<Bytes, Bytes>, s: AppState, data: Bytes, tx: Transaction, once: AppState, twice: AppState)
    requires AppInv(s) && DecodeTransaction(data) == Some(tx) && Accepts(Replay(s.chain), tx)
    requires once == AppStep(validators, s, DeliverTx(data)).state
    requires twice == AppStep(validators, once, DeliverTx(data)).state
    ensures AppStep(validators, s, DeliverTx(data)).answer == Returned(CodeOk)
    ensures AppStep(validators, once, DeliverTx(data)).answer == Returned(CodeOk)
    ensures AppInv(twice) && !NoRepeatedHash(twice.deliver.transactions)
  {
    Delivered(validators, s, data, tx, once);
    Delivered(validators, once, data, tx, twice);
    RepeatAtEnd(s.deliver.transactions, tx);
  }

  /** DeliverTx does not look for repeats: an accepted transaction that is delivered twice makes Commit panic. */
  lemma {:induction false} DeliveredTwicePanics(
    validators: map<Bytes, Bytes>, s: AppState, data: Bytes, tx: Transaction, once: AppState, twice: AppState)
    requires AppInv(s) && DecodeTransaction(data) == Some(tx) && Accepts(Replay(s.chain), tx)
    requires once == AppStep(validators, s, DeliverTx(data)).state
    requires twice == AppStep(validators, once, DeliverTx(data)).state
    ensures AppStep(validators, s, DeliverTx(data)).answer == Returned(CodeOk)
    ensures AppStep(validators, once, DeliverTx(data)).answer == Returned(CodeOk)
    ensures AppStep(validators, twice, Commit).answer == Panicked
  {
    DeliveredTwice(validators, s, data, tx, once, twice);
    RepeatedHashPanics(twice);
    CommitCall(validators, twice);
  }

  // Whole runs.

  lemma {:induction false} InitialInv()
    ensures AppInv(INITIAL)
  {
    assert Replay([]) == GENESIS;
  }

  /** Every call that returns keeps the invariant. */
  lemma {:induction false} StepKeepsInv(validators: map<Bytes, Bytes>, s: AppState, call: Call)
    requires AppInv(s) && AppStep(validators, s, call).answer.Returned?
    ensures AppInv(AppStep(validators, s, call).state)
  {
    match call
    case InitChain(_) =>
    case CheckTx(data) =>
      AppendKeepsInv(Replay(s.chain), s.check, data, true);
      CheckKeepsHashesApart(Replay(s.chain), s.check, data);
    case BeginBlock(_, _) =>
    case DeliverTx(data) =>
      AppendKeepsInv(Replay(s.chain), s.deliver, data, false);
    case Commit =>
      CommitKeepsInv(s);
  }

  /** Every reachable state satisfies the invariant: what is committed is an accepted run. */
  lemma {:induction false} RunKeepsInv(validators: map<Bytes, Bytes>, calls: seq<Call>)
    requires Run(validators, calls).Some?
    ensures AppInv(Run(validators, calls).value)
  {
    if calls == [] {
      InitialInv();
    } else {
      var n := |calls| - 1;
      RunKeepsInv(validators, calls[..n]);
      StepKeepsInv(validators, Run(validators, calls[..n]).value, calls[n]);
    }
  }

  /** Nothing is pending while nothing is committed, so the nil map is never written. */
  lemma {:induction false} NothingPendingAtFirst(s: AppState)
    requires AppInv(s) && s.chain == []
    ensures s.check.transactions == [] && s.deliver.transactions == []
  {
    if s.check.transactions != [] {
      AllAcceptedAt(GENESIS, s.check.transactions, 0);
      NothingAcceptedAtFirst(s.check.transactions[0]);
    }
    if s.deliver.transactions != [] {
      AllAcceptedAt(GENESIS, s.deliver.transactions, 0);
      NothingAcceptedAtFirst(s.deliver.transactions[0]);
    }
  }

  // Two replicas.

  /** What the consensus engine orders for all replicas; CheckTx is for one of them alone. */
  function WithoutChecks(calls: seq<Call>): seq<Call> {
    if calls == [] then []
    else
      var rest, last := WithoutChecks(calls[..|calls| - 1]), calls[|calls| - 1];
      if last.CheckTx? then rest else rest + [last]
  }

  /** All but the check executor. */
  ghost predicate SameReplica(s: AppState, t: AppState) {
    s.chain == t.chain && s.appBlockHash == t.appBlockHash && s.appHeight == t.appHeight && s.deliver == t.deliver
  }

  lemma {:induction false} StepAgrees(validators: map<Bytes, Bytes>, s: AppState, t: AppState, call: Call)
    requires SameReplica(s, t) && !call.CheckTx?
    ensures AppStep(validators, s, call).answer == AppStep(validators, t, call).answer
    ensures SameReplica(AppStep(validators, s, call).state, AppStep(validators, t, call).state)
  {
    assert PendingBlock(s) == PendingBlock(t);
  }

  lemma {:induction false} RunSnoc(validators: map<Bytes, Bytes>, calls: seq<Call>, call: Call)
    requires Run(validators, calls).Some?
    ensures var step := AppStep(validators, Run(validators, calls).value, call);
      Run(validators, calls + [call]) == if step.answer.Returned? then Some(step.state) else None
  {
    assert (calls + [call])[..|calls|] == calls;
  }

  lemma {:induction false} ChecksDoNotMatter(validators: map<Bytes, Bytes>, calls: seq<Call>)
    requires Run(validators, calls).Some?
    ensures Run(validators, WithoutChecks(calls)).Some?
    ensures SameReplica(Run(validators, calls).value, Run(validators, WithoutChecks(calls)).value)
  {
    if calls != [] {
      var n := |calls| - 1;
      var rest, last := calls[..n], calls[n];
      ChecksDoNotMatter(validators, rest);
      if !last.CheckTx? {
        StepAgrees(validators, Run(validators, rest).value, Run(validators, WithoutChecks(rest)).value, last);
        RunSnoc(validators, WithoutChecks(rest), last);
      }
    }
  }

  /** Replicas that get the same calls, each with CheckTx calls of its own, agree on all but the check executor. */
  lemma {:induction false} ReplicasAgree(validators: map<Bytes, Bytes>, calls: seq<Call>, others: seq<Call>)
    requires Run(validators, calls).Some? && Run(validators, others).Some?
    requires WithoutChecks(calls) == WithoutChecks(others)
    ensures SameReplica(Run(validators, calls).value, Run(validators, others).value)
  {
    ChecksDoNotMatter(validators, calls);
    ChecksDoNotMatter(validators, others);
  }

  ghost predicate InitOnlyFirst(calls: seq<Call>) {
    calls != [] && calls[0].InitChain? && forall i :: 0 < i < |calls| ==> !calls[i].InitChain?
  }

  /** Only Commit moves the committed chain, by one block, and the height counts the commits. */
  lemma {:induction false} HeightCountsCommits(validators: map<Bytes, Bytes>, calls: seq<Call>)
    requires InitOnlyFirst(calls) && Run(validators, calls).Some?
    ensures var s := Run(validators, calls).value;
      s.appHeight == calls[0].initialHeight + |s.chain|
  {
    var n := |calls| - 1;
    if n == 0 {
      assert calls[..0] == [];
    } else {
      HeightCountsCommits(validators, calls[..n]);
    }
  }
}
