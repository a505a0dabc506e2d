/** evote/abci_app.go: the application, one database and two executors over it. */
module App {
  import opened Types
  import opened Crypto
  import opened Merkle
  import opened Blocks
  import opened LedgerSpec
  import opened WellFormed
  import opened Verdicts
  import opened Accepted
  import opened Storage
  import opened Executor
  import opened AppSpec

  class BlockchainApp {
    const db: Database
    const validators: map<Bytes, Bytes>
    const checkTxState: TxExecutor
    const deliverTxState: TxExecutor
    var appBlockHash: Bytes
    var appHeight: int
    /** The blocks committed so far. */
    ghost var chain: seq<Block>

    ghost function State(): AppState
      reads this, checkTxState, deliverTxState
    {
      AppState(chain, appBlockHash, appHeight, checkTxState.State(), deliverTxState.State())
    }

    ghost predicate Valid()
      reads this, checkTxState, deliverTxState, db
    {
      && db.Valid() && db.ledger == Replay(chain)
      && checkTxState.db == db && deliverTxState.db == db && checkTxState != deliverTxState
      && AllDigests(TxHashes(deliverTxState.Transactions))
    }

    constructor (validators: map<Bytes, Bytes>)
      ensures Valid() && State() == INITIAL && this.validators == validators
      ensures chain == [] && appBlockHash == [] && appHeight == 0
      ensures checkTxState.Transactions == [] && deliverTxState.Transactions == []
      ensures fresh(db) && fresh(checkTxState) && fresh(deliverTxState)
    {
      this.validators := validators;
      var db := new Database();
      this.db := db;
      checkTxState := new TxExecutor(db);
      deliverTxState := new TxExecutor(db);
      appBlockHash, appHeight, chain := [], 0, [];
    }

    method InitChain(initialHeight: int)
      requires Valid()
      modifies this
      ensures Valid()
      ensures State() == AppStep(validators, old(State()), Call.InitChain(initialHeight)).state
    {
      appHeight := initialHeight;
    }

    method CheckTx(data: Bytes) returns (r: Outcome<Code>)
      requires Valid()
      modifies checkTxState
      ensures Valid()
      ensures Step(State(), r) == AppStep(validators, old(State()), Call.CheckTx(data))
    {
      r := checkTxState.AppendTx(data, true);
    }

    method BeginBlock(proposerAddress: Bytes, time: u64) returns (r: Outcome<Code>)
      requires Valid()
      modifies deliverTxState
      ensures Valid()
      ensures Step(State(), r) == AppStep(validators, old(State()), Call.BeginBlock(proposerAddress, time))
    {
      var address := SliceToTmAddr(proposerAddress);
      if address !in validators {
        return Panicked;
      }
      deliverTxState.BeginBlock(time, validators[address]);
      r := Returned(CodeOk);
    }

    method DeliverTx(data: Bytes) returns (r: Outcome<Code>)
      requires Valid()
      modifies deliverTxState
      ensures Valid()
      ensures Step(State(), r) == AppStep(validators, old(State()), Call.DeliverTx(data))
    {
      DeliveredHashes(db.ledger, deliverTxState.State(), data);
      r := deliverTxState.AppendTx(data, false);
    }

    /** Only Commit moves the committed chain. A failed save panics and leaves the database as it was. */
    method Commit() returns (r: Outcome<Code>)
      requires Valid()
      modifies this, db, checkTxState, deliverTxState
      ensures Valid()
      ensures Step(State(), r) == AppStep(validators, old(State()), Call.Commit)
    {
      ghost var s := State();
      ReplaySnoc(chain, PendingBlock(s));
      var b := CreateBlock(
        deliverTxState.Transactions, appBlockHash, deliverTxState.Timestamp, deliverTxState.BlockProposer);
      assert b == PendingBlock(s);
      var saved := db.SaveNextBlock(b);
      if !saved {
        assert State() == s;
        CommitFails(validators, s);
        return Panicked;
      }
      Advance(b.hash, s, chain + [b]);
      CommitWorks(validators, s);
      r := Returned(CodeOk);
    }

    method ResetStates()
      requires checkTxState != deliverTxState
      modifies checkTxState, deliverTxState
      ensures checkTxState.State() == WasReset(old(checkTxState.State()))
      ensures deliverTxState.State() == WasReset(old(deliverTxState.State()))
    {
      checkTxState.Reset();
      deliverTxState.Reset();
    }

    /** The second half of Commit, once the block is saved and the committed blocks are `next`. */
    method Advance(hash: Bytes, ghost s: AppState, ghost next: seq<Block>)
      requires s == State()
      requires db.Valid() && db.ledger == Replay(next)
      requires checkTxState.db == db && deliverTxState.db == db && checkTxState != deliverTxState
      modifies this, checkTxState, deliverTxState
      ensures Valid()
      ensures chain == next && appBlockHash == hash && appHeight == s.appHeight + 1
      ensures checkTxState.State() == WasReset(s.check) && deliverTxState.State() == WasReset(s.deliver)
    {
      ResetStates();
      appBlockHash := hash;
      appHeight := appHeight + 1;
      chain := next;
    }
  }

  lemma {:induction false} CommitFails(validators: map<Bytes, Bytes>, s: AppState)
    requires !CanSave(Replay(s.chain), PendingBlock(s))
    ensures AppStep(validators, s, Call.Commit) == Step(s, Panicked)
  {}

  lemma {:induction false} CommitWorks(validators: map<Bytes, Bytes>, s: AppState)
    requires CanSave(Replay(s.chain), PendingBlock(s))
    ensures AppStep(validators, s, Call.Commit)
         == Step(
              AppState(
                s.chain + [PendingBlock(s)], PendingBlock(s).hash, s.appHeight + 1,
                WasReset(s.check), WasReset(s.deliver)),
              Returned(CodeOk))
  {}

  /** What is delivered carries the hash of its body, so the Merkle loop never slices a short hash. */
  lemma {:induction false} DeliveredHashes(l: Ledger, e: ExecState, data: Bytes)
    requires AllDigests(TxHashes(e.transactions))
    ensures AllDigests(TxHashes(AppendSpec(l, e, data, false).state.transactions))
  {
    match DecodeTransaction(data)
    case None =>
    case Some(tx) =>
      if Accepts(l, tx) {
        assert (e.transactions + [tx])[..|e.transactions|] == e.transactions;
        AcceptedForms(l, tx);
      }
  }
}
