/** The votes of each voting: where they come from, and that their number never changes. */
module Votings {
  import opened Types
  import opened Crypto
  import opened LedgerSpec
  import opened WellFormed
  import opened Sound
  import opened Verdicts
  import opened Accepted
  import opened Values
  import opened Conservation
  import opened Balance
  import opened Supply

  // Provenance of value types.

  ghost predicate IsVoting(l: Ledger, hash: Bytes) {
    FindTx(l.txs, hash).Some? && FindTx(l.txs, hash).value.body.voteType != 0
  }

  /** Every coin is plain money or a vote of a stored create-vote transaction. */
  ghost predicate Provenance(l: Ledger) {
    forall c :: c in l.coins && c.utxo.valueType != [] ==> IsVoting(l, c.utxo.valueType)
  }

  /** A value type that an accepted transfer passes on is that of the coins it spends. */
  lemma {:induction false} PassedOnType(l: Ledger, tx: Transaction)
    requires Accepts(l, tx) && Provenance(l) && !IsCoinbase(Body(tx)) && Body(tx).voteType == 0
    ensures Body(tx).valueType != [] ==> IsVoting(l, Body(tx).valueType)
  {
    AcceptedForms(l, tx);
    assert SpendsCoinOf(l.coins, Body(tx), 0, Owner(l.coins, Body(tx)));
    FindSound(l.coins, Body(tx).inputs[0]);
  }

  lemma {:induction false} VotingStays(l: Ledger, b: Block, hash: Bytes)
    requires IsVoting(l, hash) && CanApply(l, b, |b.transactions|)
    ensures IsVoting(ApplyBlock(l, b), hash)
  {
    AppliedFinds(l, b, |b.transactions|, hash);
  }

  /** Each reward of the block carries no value type or that of a voting stored with the block. */
  ghost predicate RewardTypesStored(l: Ledger, b: Block) {
    forall i :: 0 <= i < |b.transactions| && IsCoinbase(Body(b.transactions[i])) ==>
      Body(b.transactions[i]).valueType == [] || IsVoting(ApplyBlock(l, b), Body(b.transactions[i]).valueType)
  }

  lemma {:induction false} NewCoinType(l: Ledger, b: Block, i: nat, c: Coin)
    requires WF(l) && AcceptedBlock(l, b) && RewardTypesStored(l, b) && Provenance(l)
    requires i < |b.transactions| && c in MadeBy(l, b, i) && c.utxo.valueType != []
    ensures IsVoting(ApplyBlock(l, b), c.utxo.valueType)
  {
    MadeByMember(l, b, i, c);
    if Body(b.transactions[i]).voteType != 0 {
      AcceptedBlockIsSound(l, b);
      RecordedByBlock(l, b, i);
    } else if !IsCoinbase(Body(b.transactions[i])) {
      AllAcceptedAt(l, b.transactions, i);
      PassedOnType(l, b.transactions[i]);
      VotingStays(l, b, c.utxo.valueType);
    }
  }

  lemma {:induction false} ProvenanceKept(l: Ledger, b: Block)
    requires WF(l) && AcceptedBlock(l, b) && RewardTypesStored(l, b) && Provenance(l)
    ensures Provenance(ApplyBlock(l, b))
  {
    var n := |b.transactions|;
    AcceptedBlockIsSound(l, b);
    AppliedCoins(l, b, n);
    forall c | c in ApplyBlock(l, b).coins && c.utxo.valueType != []
      ensures IsVoting(ApplyBlock(l, b), c.utxo.valueType)
    {
      if c in NewCoins(l, b, n) {
        NewCoinsMember(l, b, n, c);
        var i :| 0 <= i < n && c in MadeBy(l, b, i);
        NewCoinType(l, b, i, c);
      } else {
        RemainingMember(l.coins, BlockInputs(b, n), c);
        VotingStays(l, b, c.utxo.valueType);
      }
    }
  }

  /** A coin made by a block is unspent after it. */
  lemma {:induction false} MadeIsUnspent(l: Ledger, b: Block, i: nat, c: Coin)
    requires WF(l) && SoundBlock(l, b) && i < |b.transactions| && c in MadeBy(l, b, i)
    ensures c in ApplyBlock(l, b).coins
  {
    NewCoinsMember(l, b, |b.transactions|, c);
    AppliedCoins(l, b, |b.transactions|);
  }

  lemma {:induction false} RewardCoin(l: Ledger, b: Block, i: nat) returns (c: Coin)
    requires i < |b.transactions| && IsReward(l, Body(b.transactions[i]))
    ensures c in MadeBy(l, b, i) && c.utxo.valueType == Body(b.transactions[i]).valueType
  {
    var rec := WholeRecord(b, |l.blocks|, i);
    c := CoinAt(rec, b.header.timestamp, 0);
    CoinsOfMember(rec, b.header.timestamp, |rec.body.outputs|, c);
  }

  lemma {:induction false} RewardTypeStays(l: Ledger, b: Block, i: nat)
    requires WF(l) && AcceptedBlock(l, b) && i < |b.transactions| && IsCoinbase(Body(b.transactions[i]))
    requires Provenance(ApplyBlock(l, b))
    ensures Body(b.transactions[i]).valueType == [] || IsVoting(ApplyBlock(l, b), Body(b.transactions[i]).valueType)
  {
    AllAcceptedAt(l, b.transactions, i);
    AcceptedForms(l, b.transactions[i]);
    var c := RewardCoin(l, b, i);
    AcceptedBlockIsSound(l, b);
    MadeIsUnspent(l, b, i, c);
  }

  /** A block keeps provenance if and only if its rewards carry no type, or that of a stored voting. */
  lemma {:induction false} ProvenanceKeptExactly(l: Ledger, b: Block)
    requires WF(l) && AcceptedBlock(l, b) && Provenance(l)
    ensures Provenance(ApplyBlock(l, b)) <==> RewardTypesStored(l, b)
  {
    if RewardTypesStored(l, b) {
      ProvenanceKept(l, b);
    }
    if Provenance(ApplyBlock(l, b)) {
      forall i | 0 <= i < |b.transactions| && IsCoinbase(Body(b.transactions[i]))
        ensures Body(b.transactions[i]).valueType == [] || IsVoting(ApplyBlock(l, b), Body(b.transactions[i]).valueType)
      {
        RewardTypeStays(l, b, i);
      }
    }
  }

  /** Provenance after each block of the run. */
  ghost predicate ProvenanceThroughout(chain: seq<Block>) {
    chain == [] || (ProvenanceThroughout(chain[..|chain| - 1]) && Provenance(Replay(chain)))
  }

  ghost predicate RewardTypesStoredThroughout(chain: seq<Block>) {
    chain == [] ||
    (&& RewardTypesStoredThroughout(chain[..|chain| - 1])
     && RewardTypesStored(Replay(chain[..|chain| - 1]), chain[|chain| - 1]))
  }

  lemma {:induction false} ProvenanceBefore(chain: seq<Block>)
    requires ProvenanceThroughout(chain)
    ensures Provenance(Replay(chain))
  {
    if chain == [] {
      assert Replay(chain).coins == [];
    }
  }

  /**
   In every run, each non-empty value type is the hash of a stored voting after each block if and only
   if no reward carries a type of which no voting is stored.
   */
  lemma {:induction false} RunProvenance(chain: seq<Block>)
    requires AcceptedChain(chain)
    ensures ProvenanceThroughout(chain) <==> RewardTypesStoredThroughout(chain)
  {
    if chain != [] {
      var n := |chain| - 1;
      var rest, last := chain[..n], chain[n];
      RunProvenance(rest);
      if ProvenanceThroughout(rest) {
        ProvenanceBefore(rest);
        AcceptedWF(rest);
        ProvenanceKeptExactly(Replay(rest), last);
      }
    }
  }

  // The look-up of the voting of an init-vote transaction.

  /** The transaction passes every check of AppendTx on an init-vote up to the look-up of its voting. */
  ghost predicate ReachesLookUp(l: Ledger, body: TxBody) {
    && body.outputs != [] && body.hashLink == [] && body.voteType == 0 && body.valueType != []
    && |body.senderEphemeralPkey| == PKEY_SIZE && |body.votersSumPkey| == PKEY_SIZE
    && ScanKeys(body.outputs) == 0
    && OutputTotal(body.outputs) % TWO_TO_THE_32 == InputTotal(l.coins, body.inputs) % TWO_TO_THE_32
    && forall k :: 0 <= k < |body.inputs| ==> SpendsCoinOf(l.coins, body, k, Owner(l.coins, body))
  }

  lemma {:induction false} InputLoopExactly(l: Ledger, body: TxBody)
    requires body.hashLink == []
    ensures FirstError(l.coins, body, |body.inputs|) == None
       <==> forall k :: 0 <= k < |body.inputs| ==> SpendsCoinOf(l.coins, body, k, Owner(l.coins, body))
  {
    if body.inputs != [] {
      InputLoopPasses(l, body);
    }
  }

  /**
   AppendTx panics exactly for well-formed transactions that reach the look-up with a value type that
   names no stored transaction: the answer is nil, and is dereferenced. Whether they have inputs does
   not matter.
   */
  lemma {:induction false} CrashesExactly(l: Ledger, tx: Transaction)
    ensures TxVerdict(l, tx) == Panicked <==>
            && FormError(tx) == None
            && ReachesLookUp(l, Body(tx)) && FindTx(l.txs, Body(tx).valueType) == None
  {
    if Body(tx).hashLink == [] {
      InputLoopExactly(l, Body(tx));
    }
  }

  /** It answers CodeValueTypeInvalid exactly where the look-up finds a transaction that creates no voting. */
  lemma {:induction false} InvalidTypeExactly(l: Ledger, body: TxBody)
    requires BodyRoundTrips()
    ensures Judge(l, body) == Refuse(CodeValueTypeInvalid) <==>
            && ReachesLookUp(l, body)
            && FindTx(l.txs, body.valueType).Some? && FindTx(l.txs, body.valueType).value.body.voteType == 0
  {
    if body.hashLink == [] {
      InputLoopExactly(l, body);
    }
    if FindTx(l.txs, body.valueType).Some? {
      StoredBodyIs(FindTx(l.txs, body.valueType).value);
    }
  }

  /** The look-up never fails for a transaction with an input. */
  ghost predicate LookUpsSucceed(l: Ledger) {
    forall body: TxBody :: body.inputs != [] ==>
      Judge(l, body) != Crash && Judge(l, body) != Refuse(CodeValueTypeInvalid)
  }

  lemma {:induction false} CrashNeedsLookUp(l: Ledger, body: TxBody)
    requires Judge(l, body) == Crash
    ensures ReachesLookUp(l, body) && FindTx(l.txs, body.valueType) == None
  {
    if body.hashLink == [] {
      InputLoopExactly(l, body);
    }
  }

  lemma {:induction false} LookUpSucceeds(l: Ledger, body: TxBody)
    requires Provenance(l) && BodyRoundTrips() && body.inputs != []
    ensures Judge(l, body) != Crash && Judge(l, body) != Refuse(CodeValueTypeInvalid)
  {
    InvalidTypeExactly(l, body);
    if Judge(l, body) == Crash {
      CrashNeedsLookUp(l, body);
    }
    if ReachesLookUp(l, body) {
      assert SpendsCoinOf(l.coins, body, 0, Owner(l.coins, body));
      FindSound(l.coins, body.inputs[0]);
    }
  }

  /** An init-vote that spends one coin whole. */
  function InitVoteOf(c: Coin): TxBody {
    TxBody(
      [Point(c)], [Output(ZERO_PKEY, [], c.utxo.value)], [], c.utxo.valueType, 0, 0, ZERO_PKEY, ZERO_PKEY)
  }

  lemma {:induction false} InitVoteReachesLookUp(l: Ledger, c: Coin)
    requires Distinct(l.coins) && c in l.coins && c.utxo.valueType != []
    ensures ReachesLookUp(l, InitVoteOf(c))
  {
    FindDistinct(l.coins, c);
    var body := InitVoteOf(c);
    assert body.inputs[..0] == [] && body.outputs[..0] == [];
  }

  lemma {:induction false} TypeMustBeStored(l: Ledger, c: Coin)
    requires WF(l) && BodyRoundTrips() && LookUpsSucceed(l) && c in l.coins && c.utxo.valueType != []
    ensures IsVoting(l, c.utxo.valueType)
  {
    var body := InitVoteOf(c);
    InitVoteReachesLookUp(l, c);
    InputLoopExactly(l, body);
    InvalidTypeExactly(l, body);
    assert body.inputs != [];
  }

  /**
   For every transaction with an input the look-up finds a create-vote transaction, so the two answers
   about a wrong one are dead, if and only if each unspent coin is plain money or a vote of a stored voting.
   */
  lemma {:induction false} LookUpsSucceedExactly(l: Ledger)
    requires WF(l) && BodyRoundTrips()
    ensures LookUpsSucceed(l) <==> Provenance(l)
  {
    if Provenance(l) {
      forall body: TxBody | body.inputs != []
        ensures Judge(l, body) != Crash && Judge(l, body) != Refuse(CodeValueTypeInvalid)
      {
        LookUpSucceeds(l, body);
      }
    }
    if LookUpsSucceed(l) {
      forall c | c in l.coins && c.utxo.valueType != [] ensures IsVoting(l, c.utxo.valueType) {
        TypeMustBeStored(l, c);
      }
    }
  }

  // The votes of a new voting.

  /** Transaction i of the block creates the voting whose type is its hash. */
  ghost predicate Creates(b: Block, i: nat) {
    i < |b.transactions| && Body(b.transactions[i]).voteType != 0
  }

  lemma {:induction false} AppliedHolds(l: Ledger, b: Block, n: nat, i: nat)
    requires i < n <= |b.transactions|
    ensures FindTx(Applied(l, b, n).txs, b.transactions[i].hash).Some?
  {
    var before := Applied(l, b, n - 1);
    FindTxSnoc(before.txs, RecordOf(before.txs, b, |l.blocks|, n - 1), b.transactions[i].hash);
    if i < n - 1 {
      AppliedHolds(l, b, n - 1, i);
    }
  }

  lemma {:induction false} HashesDiffer(l: Ledger, b: Block, i: nat, j: nat)
    requires i < j < |b.transactions| && CanApply(l, b, |b.transactions|)
    ensures b.transactions[i].hash != b.transactions[j].hash
  {
    AppliedHolds(l, b, j, i);
    CanApplyLess(l, b, |b.transactions|, j);
  }

  /** The ledger holds no coin of this type. */
  ghost predicate NoVotes(l: Ledger, voting: Bytes) {
    forall c :: c in l.coins ==> c.utxo.valueType != voting
  }

  /** A voting is created once in its block, with the outputs of that transaction. */
  lemma {:induction false} IssuedInBlock(l: Ledger, b: Block, i: nat, n: nat)
    requires CanApply(l, b, |b.transactions|) && Creates(b, i) && n <= |b.transactions|
    ensures Issued(b, n, OfType(b.transactions[i].hash))
         == if i < n then OutputTotal(Body(b.transactions[i]).outputs) else 0
  {
    if n > 0 {
      var m := n - 1;
      IssuedInBlock(l, b, i, m);
      if m != i {
        HashesDiffer(l, b, if i < m then i else m, if i < m then m else i);
      }
    }
  }

  /** The exact balance of votes over the block that creates their voting, whatever else it holds. */
  lemma {:induction false} CreationBalance(l: Ledger, b: Block, i: nat)
    requires WF(l) && AcceptedBlock(l, b) && Creates(b, i)
    ensures var n, sel := |b.transactions|, OfType(b.transactions[i].hash);
      Worth(ApplyBlock(l, b).coins, sel)
      == Worth(l.coins, sel) + OutputTotal(Body(b.transactions[i]).outputs)
         + REWARD_COINS * Rewards(b, n, sel) + TWO_TO_THE_32 * Overflows(l, b, n, sel)
         + Repeated(l.coins, BlockInputs(b, n), sel)
  {
    AllAcceptedAt(l, b.transactions, i);
    AcceptedHash(l, b.transactions[i]);
    IssuedInBlock(l, b, i, |b.transactions|);
    BlockBalance(l, b, OfType(b.transactions[i].hash));
  }

  lemma {:induction false} NothingRepeated(coins: seq<Coin>, inputs: seq<Input>, sel: Selector)
    requires forall c :: c in coins ==> !Selects(sel, c)
    ensures Repeated(coins, inputs, sel) == 0
  {
    if inputs != [] {
      var n := |inputs| - 1;
      NothingRepeated(coins, inputs[..n], sel);
      FindSound(coins, inputs[n]);
    }
  }

  /** Where there is no vote, no transfer moves one. */
  lemma {:induction false} NothingMoves(l: Ledger, tx: Transaction, voting: Bytes)
    requires Accepts(l, tx) && NoVotes(l, voting) && !IsCoinbase(Body(tx))
    ensures !Moves(OfType(voting), Body(tx))
  {
    AcceptedForms(l, tx);
    assert SpendsCoinOf(l.coins, Body(tx), 0, Owner(l.coins, Body(tx)));
    FindSound(l.coins, Body(tx).inputs[0]);
  }

  lemma {:induction false} NothingOverflowsAt(l: Ledger, b: Block, i: nat, voting: Bytes)
    requires i < |b.transactions| && AllAccepted(l, b.transactions) && NoVotes(l, voting)
    ensures OverflowAt(l, b, i, OfType(voting)) == 0
  {
    AllAcceptedAt(l, b.transactions, i);
    if !IsCoinbase(Body(b.transactions[i])) {
      NothingMoves(l, b.transactions[i], voting);
    }
  }

  lemma {:induction false} NothingOverflows(l: Ledger, b: Block, n: nat, voting: Bytes)
    requires n <= |b.transactions| && AllAccepted(l, b.transactions) && NoVotes(l, voting)
    ensures Overflows(l, b, n, OfType(voting)) == 0
  {
    if n > 0 {
      var m := n - 1;
      NothingOverflows(l, b, m, voting);
      NothingOverflowsAt(l, b, m, voting);
    }
  }

  /**
   Where no coin has the voting's type yet, the block that creates the voting issues as many votes as
   the outputs say and the rewards of that type add; so exactly as the outputs say if and only if no
   reward of the block has that type.
   */
  lemma {:induction false} VotingBorn(l: Ledger, b: Block, i: nat)
    requires WF(l) && AcceptedBlock(l, b) && Creates(b, i) && NoVotes(l, b.transactions[i].hash)
    ensures var votes := Worth(ApplyBlock(l, b).coins, OfType(b.transactions[i].hash));
      && votes == OutputTotal(Body(b.transactions[i]).outputs)
                + REWARD_COINS * Rewards(b, |b.transactions|, OfType(b.transactions[i].hash))
      && (votes == OutputTotal(Body(b.transactions[i]).outputs) <==>
            forall j :: 0 <= j < |b.transactions| && IsCoinbase(Body(b.transactions[j])) ==>
              !Moves(OfType(b.transactions[i].hash), Body(b.transactions[j])))
  {
    var sel := OfType(b.transactions[i].hash);
    CreationBalance(l, b, i);
    WorthNone(l.coins, sel);
    NothingRepeated(l.coins, BlockInputs(b, |b.transactions|), sel);
    NothingOverflows(l, b, |b.transactions|, b.transactions[i].hash);
    NoRewards(b, |b.transactions|, sel);
  }

  // Whole runs.

  lemma {:induction false} AcceptedHash(l: Ledger, tx: Transaction)
    requires Accepts(l, tx)
    ensures |tx.hash| == HASH_SIZE
  {}

  lemma {:induction false} HashOfCommitted(chain: seq<Block>, n: nat, i: nat)
    requires AcceptedChain(chain) && n < |chain| && i < |chain[n].transactions|
    ensures |chain[n].transactions[i].hash| == HASH_SIZE
    ensures FindTx(Replay(chain).txs, chain[n].transactions[i].hash) == Some(WholeRecord(chain[n], n, i))
  {
    AcceptedIsSound(chain);
    ChainIsRecorded(chain, n, i);
    AcceptedTxAt(chain, n, i);
    AcceptedHash(Replay(chain[..n]), chain[n].transactions[i]);
  }

  /** No transaction of a run has a hash that is not stored. */
  lemma {:induction false} NotIssuedUnstored(chain: seq<Block>, voting: Bytes)
    requires SavedChain(chain) && FindTx(Replay(chain).txs, voting) == None
    ensures RunIssued(chain, OfType(voting)) == 0
  {
    if chain != [] {
      var n := |chain| - 1;
      var l, b := Replay(chain[..n]), chain[n];
      if FindTx(l.txs, voting).Some? {
        AppliedFinds(l, b, |b.transactions|, voting);
      }
      NotIssuedUnstored(chain[..n], voting);
      forall j | 0 <= j < |b.transactions| ensures b.transactions[j].hash != voting {
        AppliedHolds(l, b, |b.transactions|, j);
      }
      NothingIssued(b, |b.transactions|, OfType(voting));
    }
  }

  /** What the last block adds to a voting: its outputs if it creates it, and nothing if it is stored before. */
  lemma {:induction false} IssuedByLast(l: Ledger, b: Block, voting: Bytes)
    requires CanApply(l, b, |b.transactions|) && FindTx(l.txs, voting).Some?
    ensures Issued(b, |b.transactions|, OfType(voting)) == 0
  {
    forall j | 0 <= j < |b.transactions| ensures b.transactions[j].hash != voting {
      BlockHashFresh(l, b, j);
    }
    NothingIssued(b, |b.transactions|, OfType(voting));
  }

  /** Two facts about the chain before the last block. */
  lemma {:induction false} BeforeLast(chain: seq<Block>)
    requires AcceptedChain(chain) && chain != []
    ensures var rest, last := chain[..|chain| - 1], chain[|chain| - 1];
      && AcceptedChain(rest) && SavedChain(rest)
      && CanApply(Replay(rest), last, |last.transactions|)
  {
    AcceptedIsSound(chain[..|chain| - 1]);
  }

  lemma {:induction false} IssuedByItsBlock(rest: seq<Block>, last: Block, i: nat)
    requires SavedChain(rest) && CanApply(Replay(rest), last, |last.transactions|) && Creates(last, i)
    ensures RunIssued(rest, OfType(last.transactions[i].hash)) == 0
    ensures Issued(last, |last.transactions|, OfType(last.transactions[i].hash))
         == OutputTotal(Body(last.transactions[i]).outputs)
  {
    BlockHashFresh(Replay(rest), last, i);
    NotIssuedUnstored(rest, last.transactions[i].hash);
    IssuedInBlock(Replay(rest), last, i, |last.transactions|);
  }

  lemma {:induction false} IssuedBefore(rest: seq<Block>, last: Block, n: nat, i: nat)
    requires AcceptedChain(rest) && CanApply(Replay(rest), last, |last.transactions|)
    requires n < |rest| && i < |rest[n].transactions|
    ensures Issued(last, |last.transactions|, OfType(rest[n].transactions[i].hash)) == 0
  {
    HashOfCommitted(rest, n, i);
    IssuedByLast(Replay(rest), last, rest[n].transactions[i].hash);
  }

  /** A voting is created once in a run, with the outputs of that transaction. */
  lemma {:induction false} IssuedOnce(chain: seq<Block>, n: nat, i: nat)
    requires AcceptedChain(chain) && n < |chain| && Creates(chain[n], i)
    ensures RunIssued(chain, OfType(chain[n].transactions[i].hash))
         == OutputTotal(Body(chain[n].transactions[i]).outputs)
  {
    var m := |chain| - 1;
    BeforeLast(chain);
    if n == m {
      IssuedByItsBlock(chain[..m], chain[m], i);
    } else {
      IssuedOnce(chain[..m], n, i);
      IssuedBefore(chain[..m], chain[m], n, i);
    }
  }

  /**
   The votes of a voting with this body after a run: those it issued, the rewards of its type, its
   wrapped output sums and what was spent twice.
   */
  function VotesOfRun(chain: seq<Block>, voting: Bytes, body: TxBody): int
    requires voting != []
  {
    var sel := OfType(voting);
    OutputTotal(body.outputs) + REWARD_COINS * RunRewards(chain, sel)
    + TWO_TO_THE_32 * RunOverflows(chain, sel) + RunRepeated(chain, sel)
  }

  /** The votes of each voting after any accepted run are exactly that. */
  lemma {:induction false} VotingBalance(chain: seq<Block>, n: nat, i: nat)
    requires AcceptedChain(chain) && n < |chain| && Creates(chain[n], i)
    ensures chain[n].transactions[i].hash != []
    ensures Worth(Replay(chain).coins, OfType(chain[n].transactions[i].hash))
         == VotesOfRun(chain, chain[n].transactions[i].hash, Body(chain[n].transactions[i]))
  {
    HashOfCommitted(chain, n, i);
    IssuedOnce(chain, n, i);
    RunBalance(chain, OfType(chain[n].transactions[i].hash));
  }

  /** No reward of the run has the type of this voting. */
  ghost predicate RunRewardsNoVotes(chain: seq<Block>, voting: Bytes) {
    forall m :: 0 <= m < |chain| ==> RewardsNoVotes(chain[m], voting)
  }

  lemma {:induction false} RunRewardsNoVotesNext(chain: seq<Block>, voting: Bytes)
    requires chain != []
    ensures RunRewardsNoVotes(chain, voting)
       <==> RunRewardsNoVotes(chain[..|chain| - 1], voting) && RewardsNoVotes(chain[|chain| - 1], voting)
  {
    assert chain == chain[..|chain| - 1] + [chain[|chain| - 1]];
  }

  lemma {:induction false} NoVotesRewarded(chain: seq<Block>, voting: Bytes)
    requires voting != []
    ensures RunRewards(chain, OfType(voting)) == 0 <==> RunRewardsNoVotes(chain, voting)
  {
    if chain != [] {
      var n := |chain| - 1;
      NoVotesRewarded(chain[..n], voting);
      RunRewardsNoVotesNext(chain, voting);
      NoRewards(chain[n], |chain[n].transactions|, OfType(voting));
    }
  }

  /**
   Where no input sum of a transfer of its votes wraps, a voting has exactly the votes it issued if and
   only if no reward has its type, no block names one of its votes twice, and none wraps an output sum of
   such a transfer.
   */
  lemma {:induction false} VotingConservedExactly(chain: seq<Block>, n: nat, i: nat)
    requires AcceptedChain(chain) && n < |chain| && Creates(chain[n], i)
    ensures var sel := OfType(chain[n].transactions[i].hash);
      && IsKind(sel)
      && (RunInputsFit(chain, sel) ==>
            (Worth(Replay(chain).coins, sel) == OutputTotal(Body(chain[n].transactions[i]).outputs) <==>
             Moderate(chain, sel) && RunRewardsNoVotes(chain, chain[n].transactions[i].hash)))
  {
    var voting := chain[n].transactions[i].hash;
    VotingBalance(chain, n, i);
    NoVotesRewarded(chain, voting);
    if RunInputsFit(chain, OfType(voting)) {
      SurplusOfRun(chain, OfType(voting));
    }
  }

  /** A block that spends no output twice, wraps no output sum, and pays rewards without a value type. */
  ghost predicate FairBlock(b: Block) {
    DistinctSpends(b) && OutputsFit(b) && UntypedRewards(b)
  }

  ghost predicate FairRun(chain: seq<Block>) {
    AcceptedChain(chain) && forall n :: 0 <= n < |chain| ==> FairBlock(chain[n])
  }

  lemma {:induction false} FairPaysNoVotes(chain: seq<Block>, voting: Bytes)
    requires FairRun(chain) && voting != []
    ensures RunRewardsNoVotes(chain, voting) && Thrifty(chain)
  {
    forall m | 0 <= m < |chain|
      ensures RewardsNoVotes(chain[m], voting) && DistinctSpends(chain[m]) && OutputsFit(chain[m])
    {
      assert FairBlock(chain[m]);
    }
  }

  lemma {:induction false} FairIssue(chain: seq<Block>, n: nat, i: nat)
    requires FairRun(chain) && n < |chain| && Creates(chain[n], i)
    ensures OutputTotal(Body(chain[n].transactions[i]).outputs) < TWO_TO_THE_32
  {
    assert FairBlock(chain[n]);
  }

  /**
   Per-voting conservation: in a run of fair blocks the unspent votes of each voting are, from the block
   that creates it on and for ever, exactly the sum of its outputs.
   */
  lemma {:induction false} VotingConserved(chain: seq<Block>, n: nat, i: nat)
    requires FairRun(chain) && n < |chain| && Creates(chain[n], i)
    ensures Worth(Replay(chain).coins, OfType(chain[n].transactions[i].hash))
         == OutputTotal(Body(chain[n].transactions[i]).outputs) < TWO_TO_THE_32
  {
    var voting := chain[n].transactions[i].hash;
    HashOfCommitted(chain, n, i);
    FairPaysNoVotes(chain, voting);
    ThriftyIsModerate(chain, OfType(voting));
    NoVotesRewarded(chain, voting);
    IssuedOnce(chain, n, i);
    FairIssue(chain, n, i);
    ModerateBalance(chain, OfType(voting));
  }
}
