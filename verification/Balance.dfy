/** The exact balance of whole runs, for all coins and for the votes of each voting, whatever the blocks. */
module Balance {
  import opened Types
  import opened LedgerSpec
  import opened Sound
  import opened Accepted
  import opened Values
  import opened Conservation

  /** The votes created over a run. */
  function RunIssued(chain: seq<Block>, sel: Selector): nat {
    if chain == [] then 0
    else
      var rest, last := chain[..|chain| - 1], chain[|chain| - 1];
      RunIssued(rest, sel) + Issued(last, |last.transactions|, sel)
  }

  function RunRewards(chain: seq<Block>, sel: Selector): nat
    requires IsKind(sel)
  {
    if chain == [] then 0
    else
      var rest, last := chain[..|chain| - 1], chain[|chain| - 1];
      RunRewards(rest, sel) + Rewards(last, |last.transactions|, sel)
  }

  /** What wrapped output sums add over a run, counted in 2^32. */
  function RunOverflows(chain: seq<Block>, sel: Selector): int
    requires IsKind(sel)
  {
    if chain == [] then 0
    else
      var rest, last := chain[..|chain| - 1], chain[|chain| - 1];
      RunOverflows(rest, sel) + Overflows(Replay(rest), last, |last.transactions|, sel)
  }

  /** What is spent more than once within a block, over a run. */
  function RunRepeated(chain: seq<Block>, sel: Selector): nat {
    if chain == [] then 0
    else
      var rest, last := chain[..|chain| - 1], chain[|chain| - 1];
      RunRepeated(rest, sel) + Repeated(Replay(rest).coins, BlockInputs(last, |last.transactions|), sel)
  }

  /**
   What is unspent of a kind after any accepted run: the votes it created, the rewards it paid, its
   wrapped output sums and what it spent twice.
   */
  lemma {:induction false} RunBalance(chain: seq<Block>, sel: Selector)
    requires AcceptedChain(chain) && IsKind(sel)
    ensures Worth(Replay(chain).coins, sel)
         == RunIssued(chain, sel) + REWARD_COINS * RunRewards(chain, sel)
            + TWO_TO_THE_32 * RunOverflows(chain, sel) + RunRepeated(chain, sel)
  {
    if chain != [] {
      var n := |chain| - 1;
      RunBalance(chain[..n], sel);
      AcceptedWF(chain[..n]);
      BlockBalance(Replay(chain[..n]), chain[n], sel);
    }
  }

  // When exactly nothing but votes and rewards is added.

  /** No block names a coin of the kind twice, and no output sum of a transaction moving the kind wraps. */
  ghost predicate Moderate(chain: seq<Block>, sel: Selector)
    requires IsKind(sel)
  {
    chain == [] ||
    (var rest, last := chain[..|chain| - 1], chain[|chain| - 1];
     && Moderate(rest, sel)
     && OutputsFitFor(last, |last.transactions|, sel)
     && SpendsOnce(Replay(rest), last, sel))
  }

  ghost predicate RunInputsFit(chain: seq<Block>, sel: Selector)
    requires IsKind(sel)
  {
    chain == [] ||
    (RunInputsFit(chain[..|chain| - 1], sel) && InputsFitFor(Replay(chain[..|chain| - 1]), chain[|chain| - 1], sel))
  }

  lemma {:induction false} SurplusOfBlock(l: Ledger, b: Block, sel: Selector)
    requires AcceptedBlock(l, b) && IsKind(sel) && InputsFitFor(l, b, sel)
    ensures Overflows(l, b, |b.transactions|, sel) >= 0
    ensures Overflows(l, b, |b.transactions|, sel) == 0 && Repeated(l.coins, BlockInputs(b, |b.transactions|), sel) == 0
       <==> OutputsFitFor(b, |b.transactions|, sel) && SpendsOnce(l, b, sel)
  {
    OverflowsSign(l, b, sel);
    RepeatedNothing(l.coins, BlockInputs(b, |b.transactions|), sel);
  }

  lemma {:induction false} SurplusOfRun(chain: seq<Block>, sel: Selector)
    requires AcceptedChain(chain) && IsKind(sel) && RunInputsFit(chain, sel)
    ensures RunOverflows(chain, sel) >= 0
    ensures RunOverflows(chain, sel) == 0 && RunRepeated(chain, sel) == 0 <==> Moderate(chain, sel)
  {
    if chain != [] {
      var n := |chain| - 1;
      SurplusOfRun(chain[..n], sel);
      SurplusOfBlock(Replay(chain[..n]), chain[n], sel);
    }
  }

  /**
   Where no input sum of a transaction moving the kind wraps, what is unspent is exactly the votes
   created and the rewards paid if and only if no block names a coin of the kind twice or wraps an output
   sum of a transaction moving it.
   */
  lemma {:induction false} RunBalancedExactly(chain: seq<Block>, sel: Selector)
    requires AcceptedChain(chain) && IsKind(sel) && RunInputsFit(chain, sel)
    ensures Worth(Replay(chain).coins, sel) == RunIssued(chain, sel) + REWARD_COINS * RunRewards(chain, sel)
       <==> Moderate(chain, sel)
  {
    RunBalance(chain, sel);
    SurplusOfRun(chain, sel);
  }

  /** In a moderate run input sums do fit as long as what was created and paid fits 32 bits. */
  lemma {:induction false} ModerateInputsFit(chain: seq<Block>, sel: Selector)
    requires AcceptedChain(chain) && IsKind(sel) && Moderate(chain, sel)
    requires RunIssued(chain, sel) + REWARD_COINS * RunRewards(chain, sel) < TWO_TO_THE_32
    ensures RunInputsFit(chain, sel)
  {
    if chain != [] {
      var n := |chain| - 1;
      ModerateInputsFit(chain[..n], sel);
      RunBalancedExactly(chain[..n], sel);
      AcceptedWF(chain[..n]);
      FewCoinsNeverWrap(Replay(chain[..n]), chain[n], sel);
    }
  }

  lemma {:induction false} ModerateBalance(chain: seq<Block>, sel: Selector)
    requires AcceptedChain(chain) && IsKind(sel) && Moderate(chain, sel)
    requires RunIssued(chain, sel) + REWARD_COINS * RunRewards(chain, sel) < TWO_TO_THE_32
    ensures Worth(Replay(chain).coins, sel) == RunIssued(chain, sel) + REWARD_COINS * RunRewards(chain, sel)
  {
    ModerateInputsFit(chain, sel);
    RunBalancedExactly(chain, sel);
  }
}
