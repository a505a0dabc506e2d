/** What every sequence of ABCI calls leaves: the supply, the votes, their count, and the blocks in order. */
module Outcomes {
  import opened Types
  import opened Crypto
  import opened LedgerSpec
  import opened WellFormed
  import opened Verdicts
  import opened Accepted
  import opened Values
  import opened Conservation
  import opened Balance
  import opened Supply
  import opened Votings
  import opened Loading
  import opened Reads
  import opened RoundTrip
  import opened Tally
  import opened Accounting
  import opened AppSpec
  import opened Runs

  // Value.

  /** Whatever calls arrive: the exact balance of all coins, and of the votes of any type. */
  lemma {:induction false} EveryRunBalances(validators: map<Bytes, Bytes>, calls: seq<Call>, sel: Selector)
    requires Run(validators, calls).Some? && IsKind(sel)
    ensures var chain := Run(validators, calls).value.chain;
      Worth(Replay(chain).coins, sel)
      == RunIssued(chain, sel) + REWARD_COINS * RunRewards(chain, sel)
         + TWO_TO_THE_32 * RunOverflows(chain, sel) + RunRepeated(chain, sel)
  {
    ReachableIsAccepted(validators, calls);
    RunBalance(Run(validators, calls).value.chain, sel);
  }

  /**
   Whatever calls arrive: while no committed block spends anything twice or wraps an output sum and the
   rewards together fit 32 bits, the supply is the rewards.
   */
  lemma {:induction false} EveryRunSupply(validators: map<Bytes, Bytes>, calls: seq<Call>)
    requires Run(validators, calls).Some?
    requires Moderate(Run(validators, calls).value.chain, Every)
    requires REWARD_COINS * RewardCount(Run(validators, calls).value.chain) < TWO_TO_THE_32
    ensures var chain := Run(validators, calls).value.chain;
      Worth(Replay(chain).coins, Every) == REWARD_COINS * RewardCount(chain)
  {
    ReachableIsAccepted(validators, calls);
    SupplyIsRewards(Run(validators, calls).value.chain);
  }

  /** Whatever calls arrive: the exact number of votes of each voting. */
  lemma {:induction false} EveryRunVotes(validators: map<Bytes, Bytes>, calls: seq<Call>, n: nat, i: nat)
    requires Run(validators, calls).Some?
    requires n < |Run(validators, calls).value.chain| && Creates(Run(validators, calls).value.chain[n], i)
    ensures var chain := Run(validators, calls).value.chain;
      var voting := chain[n].transactions[i].hash;
      && voting != []
      && Worth(Replay(chain).coins, OfType(voting)) == VotesOfRun(chain, voting, Body(chain[n].transactions[i]))
  {
    ReachableIsAccepted(validators, calls);
    VotingBalance(Run(validators, calls).value.chain, n, i);
  }

  /**
   Whatever calls arrive: as long as the committed blocks are fair, each voting still has exactly the
   votes that its transaction issued.
   */
  lemma {:induction false} EveryRunKeepsVotes(validators: map<Bytes, Bytes>, calls: seq<Call>, n: nat, i: nat)
    requires Run(validators, calls).Some?
    requires forall m :: 0 <= m < |Run(validators, calls).value.chain| ==>
               FairBlock(Run(validators, calls).value.chain[m])
    requires n < |Run(validators, calls).value.chain| && Creates(Run(validators, calls).value.chain[n], i)
    ensures var chain := Run(validators, calls).value.chain;
      Worth(Replay(chain).coins, OfType(chain[n].transactions[i].hash))
      == OutputTotal(Body(chain[n].transactions[i]).outputs)
  {
    ReachableIsAccepted(validators, calls);
    VotingConserved(Run(validators, calls).value.chain, n, i);
  }

  /**
   Whatever calls arrive: what OnGetVoteResult answers, with the votes it does not list, adds up to all
   votes of the voting if and only if no count wraps, and to those it issued if the blocks are fair.
   */
  lemma {:induction false} EveryAnswerAccounted(
    validators: map<Bytes, Bytes>, calls: seq<Call>, n: nat, i: nat,
    rec: TxRecord, body: TxBody, end: nat, res: seq<(Bytes, u32)>)
    requires Run(validators, calls).Some? && BodyRoundTrips()
    requires n < |Run(validators, calls).value.chain| && Creates(Run(validators, calls).value.chain[n], i)
    requires body.voteType != ONE_VOTE_TYPE
    requires FindTx(
               Replay(Run(validators, calls).value.chain).txs,
               Run(validators, calls).value.chain[n].transactions[i].hash) == Some(rec)
    requires rec.height < |Replay(Run(validators, calls).value.chain).blocks| && StoredBody(rec) == Some(body)
    requires end == EndTime(TimeOf(Replay(Run(validators, calls).value.chain), rec), body.duration)
    requires IsResult(
               res, Replay(Run(validators, calls).value.chain).coins,
               Run(validators, calls).value.chain[n].transactions[i].hash, end, body)
    ensures var chain := Run(validators, calls).value.chain;
      var coins, voting := Replay(chain).coins, chain[n].transactions[i].hash;
      && voting != []
      && (Sum(res) + Unlisted(coins, voting, end, body) == VotesOfRun(chain, voting, body) <==>
          NoCountWraps(res, coins, voting, end))
      && (FairRun(chain) ==> OutputTotal(body.outputs) == Sum(res) + Unlisted(coins, voting, end, body))
      && end == chain[n].header.timestamp + NANOSECONDS_PER_SECOND * body.duration
  {
    ReachableIsAccepted(validators, calls);
    AnswerAccounted(Run(validators, calls).value.chain, n, i, rec, body, end, res);
  }

  // Reads.

  /**
   Whatever calls arrive: a UTXO is in the answer of a query exactly if it is an output of a committed
   transaction that no committed input names, and the query asks for its key, its transaction, or the
   votes of its type.
   */
  lemma {:induction false} EveryRunAnswers(validators: map<Bytes, Bytes>, calls: seq<Call>, q: Query, u: Utxo)
    requires Run(validators, calls).Some?
    ensures var chain := Run(validators, calls).value.chain;
      u in Answer(Replay(chain).coins, q) <==>
      exists c: Coin :: c.utxo == u && Made(chain, c) && !NamedInChain(chain, Point(c))
        && AskedFor(q, c)
  {
    ReachableIsAccepted(validators, calls);
    AcceptedIsSound(Run(validators, calls).value.chain);
    AnswerExactly(Run(validators, calls).value.chain, q, u);
  }

  /** Whatever calls arrive: each committed transaction is found under its hash, as body, hash and signature say. */
  lemma {:induction false} EveryRunFinds(validators: map<Bytes, Bytes>, calls: seq<Call>, n: nat, i: nat)
    requires Run(validators, calls).Some? && n < |Run(validators, calls).value.chain|
    requires i < |Run(validators, calls).value.chain[n].transactions|
    ensures var chain := Run(validators, calls).value.chain;
      var tx := chain[n].transactions[i];
      var found := FindTx(Replay(chain).txs, tx.hash);
      && found.Some? && found.value.height == n
      && StoredTx(found.value) == Transaction(EncodeBody(Body(tx)), tx.hash, tx.sig)
  {
    ReachableIsAccepted(validators, calls);
    AcceptedIsSound(Run(validators, calls).value.chain);
    FoundInChain(Run(validators, calls).value.chain, n, i);
  }

  // Blocks.

  lemma {:induction false} StoredHashes(chain: seq<Block>)
    requires AcceptedChain(chain)
    ensures var l := Replay(chain);
      && LinearBlocks(l.blocks) && |l.blocks| == |chain|
      && forall i :: 0 <= i < |l.blocks| ==> l.blocks[i].hash != []
  {
    ReplayBlocks(chain);
    AcceptedWF(chain);
    forall i | 0 <= i < |chain| ensures Replay(chain).blocks[i].hash != [] {
      BlockIsStored(chain, i);
    }
  }

  /**
   Whatever calls arrive: going on from no hash with GetBlockAfter lists the committed blocks in order,
   and then no more.
   */
  lemma {:induction false} EveryRunWalks(validators: map<Bytes, Bytes>, calls: seq<Call>, n: nat)
    requires Run(validators, calls).Some?
    ensures var chain := Run(validators, calls).value.chain;
      var blocks := Walk(Replay(chain), n);
      && |blocks| == (if n <= |chain| then n else |chain|)
      && forall i :: 0 <= i < |blocks| ==> blocks[i].hash == chain[i].hash && blocks[i].header == chain[i].header
  {
    var chain := Run(validators, calls).value.chain;
    var m := if n <= |chain| then n else |chain|;
    ReachableIsAccepted(validators, calls);
    StoredHashes(chain);
    WalkListsChain(Replay(chain), m);
    if n > m {
      WalkEnds(Replay(chain), n);
    }
    ReplayBlocks(chain);
  }
}
