/** The money supply of a run: one reward for each rewarded block, and no more. */
module Supply {
  import opened Types
  import opened Crypto
  import opened LedgerSpec
  import opened WellFormed
  import opened Sound
  import opened Verdicts
  import opened Accepted
  import opened Values
  import opened Conservation
  import opened Balance
  import opened Spending

  // What the executor does not check about a block, and the theorems below assume.

  /** No two inputs of the block name one output. */
  ghost predicate DistinctSpends(b: Block) {
    NoRepeats(BlockInputs(b, |b.transactions|))
  }

  /** No output sum wraps. */
  ghost predicate OutputsFit(b: Block) {
    forall i :: 0 <= i < |b.transactions| ==> OutputTotal(Body(b.transactions[i]).outputs) < TWO_TO_THE_32
  }

  /** No two rewards among the block's first n transactions are for one block. */
  ghost predicate DistinctLinksUpTo(b: Block, n: nat)
    requires n <= |b.transactions|
  {
    forall i, j :: 0 <= i < j < n && IsCoinbase(Body(b.transactions[i])) && IsCoinbase(Body(b.transactions[j])) ==>
      Body(b.transactions[i]).hashLink != Body(b.transactions[j]).hashLink
  }

  ghost predicate DistinctLinks(b: Block) {
    DistinctLinksUpTo(b, |b.transactions|)
  }

  /** Rewards carry no value type, as CreateMiningReward builds them. */
  ghost predicate UntypedRewards(b: Block) {
    forall i :: 0 <= i < |b.transactions| && IsCoinbase(Body(b.transactions[i])) ==>
      Body(b.transactions[i]).valueType == []
  }

  /** Each block spends no output twice and wraps no output sum. */
  ghost predicate Thrifty(chain: seq<Block>) {
    forall n :: 0 <= n < |chain| ==> DistinctSpends(chain[n]) && OutputsFit(chain[n])
  }

  lemma {:induction false} ThriftyIsModerate(chain: seq<Block>, sel: Selector)
    requires IsKind(sel) && Thrifty(chain)
    ensures Moderate(chain, sel)
  {
    if chain != [] {
      var n := |chain| - 1;
      ThriftyIsModerate(chain[..n], sel);
      assert DistinctSpends(chain[n]) && OutputsFit(chain[n]);
    }
  }

  // Counting rewards.

  function RewardCount(chain: seq<Block>): nat {
    RunRewards(chain, Every)
  }

  ghost function BlockLinks(b: Block, n: nat): set<Bytes>
    requires n <= |b.transactions|
  {
    if n == 0 then {}
    else
      var body := Body(b.transactions[n - 1]);
      BlockLinks(b, n - 1) + if IsCoinbase(body) then {body.hashLink} else {}
  }

  ghost function Links(chain: seq<Block>): set<Bytes> {
    if chain == [] then {}
    else Links(chain[..|chain| - 1]) + BlockLinks(chain[|chain| - 1], |chain[|chain| - 1].transactions|)
  }

  ghost function BlockHashes(chain: seq<Block>): (hashes: set<Bytes>)
    ensures |hashes| <= |chain|
    ensures forall i :: 0 <= i < |chain| ==> chain[i].hash in hashes
  {
    if chain == [] then {} else BlockHashes(chain[..|chain| - 1]) + {chain[|chain| - 1].hash}
  }

  lemma {:induction false} BlockLinksMember(b: Block, n: nat, link: Bytes)
    requires n <= |b.transactions|
    ensures link in BlockLinks(b, n) <==>
            exists i :: 0 <= i < n && IsCoinbase(Body(b.transactions[i])) && Body(b.transactions[i]).hashLink == link
  {
    if n > 0 {
      var m := n - 1;
      BlockLinksMember(b, m, link);
    }
  }

  lemma {:induction false} DistinctLinksNext(b: Block, m: nat)
    requires m < |b.transactions|
    ensures DistinctLinksUpTo(b, m + 1) <==>
            && DistinctLinksUpTo(b, m)
            && (IsCoinbase(Body(b.transactions[m])) ==> Body(b.transactions[m]).hashLink !in BlockLinks(b, m))
  {
    BlockLinksMember(b, m, Body(b.transactions[m]).hashLink);
  }

  lemma {:induction false} OneMoreLink(links: set<Bytes>, link: Bytes)
    ensures |links + {link}| == if link in links then |links| else |links| + 1
  {
    if link in links {
      assert links + {link} == links;
    }
  }

  lemma {:induction false} BlockLinksNext(b: Block, m: nat)
    requires m < |b.transactions|
    ensures |BlockLinks(b, m + 1)| - |BlockLinks(b, m)|
         == if IsCoinbase(Body(b.transactions[m])) && Body(b.transactions[m]).hashLink !in BlockLinks(b, m) then 1
            else 0
    ensures Rewards(b, m + 1, Every) - Rewards(b, m, Every) == if IsCoinbase(Body(b.transactions[m])) then 1 else 0
  {
    OneMoreLink(BlockLinks(b, m), Body(b.transactions[m]).hashLink);
    assert BlockLinks(b, m) + {} == BlockLinks(b, m);
  }

  /** A block has at most as many links as rewards, and as many exactly when no two rewards share one. */
  lemma {:induction false} BlockLinksCount(b: Block, n: nat)
    requires n <= |b.transactions|
    ensures |BlockLinks(b, n)| <= Rewards(b, n, Every)
    ensures |BlockLinks(b, n)| == Rewards(b, n, Every) <==> DistinctLinksUpTo(b, n)
  {
    if n == 0 {
      assert BlockLinks(b, 0) == {};
    } else {
      var m := n - 1;
      BlockLinksCount(b, m);
      DistinctLinksNext(b, m);
      BlockLinksNext(b, m);
    }
  }

  lemma {:induction false} LinksMember(chain: seq<Block>, link: Bytes)
    requires link in Links(chain)
    ensures exists n, i :: 0 <= n < |chain| && 0 <= i < |chain[n].transactions|
              && IsCoinbase(Body(chain[n].transactions[i])) && Body(chain[n].transactions[i]).hashLink == link
  {
    var rest, last := chain[..|chain| - 1], chain[|chain| - 1];
    if link in Links(rest) {
      LinksMember(rest, link);
      var n, i :| 0 <= n < |rest| && 0 <= i < |rest[n].transactions|
        && IsCoinbase(Body(rest[n].transactions[i])) && Body(rest[n].transactions[i]).hashLink == link;
      assert chain[n] == rest[n];
    } else {
      BlockLinksMember(last, |last.transactions|, link);
      var i :| 0 <= i < |last.transactions|
        && IsCoinbase(Body(last.transactions[i])) && Body(last.transactions[i]).hashLink == link;
      assert chain[|rest|] == last;
    }
  }

  /** A reward is for a block that is stored before. */
  lemma {:induction false} RewardsStoredBlock(chain: seq<Block>, tx: Transaction)
    requires SavedChain(chain) && Accepts(Replay(chain), tx) && IsCoinbase(Body(tx))
    ensures Body(tx).hashLink in BlockHashes(chain)
  {
    AcceptedForms(Replay(chain), tx);
    ReplayBlocks(chain);
    FindBlockSound(Replay(chain).blocks, Body(tx).hashLink);
    var i := FindBlock(Replay(chain).blocks, Body(tx).hashLink).value;
    assert chain[i].hash == Body(tx).hashLink;
  }

  lemma {:induction false} NewLinks(chain: seq<Block>, b: Block, link: Bytes)
    requires AcceptedChain(chain) && AcceptedBlock(Replay(chain), b)
    requires link in BlockLinks(b, |b.transactions|)
    ensures link in BlockHashes(chain) && link !in Links(chain)
  {
    BlockLinksMember(b, |b.transactions|, link);
    var j :| 0 <= j < |b.transactions|
      && IsCoinbase(Body(b.transactions[j])) && Body(b.transactions[j]).hashLink == link;
    AllAcceptedAt(Replay(chain), b.transactions, j);
    AcceptedIsSound(chain);
    RewardsStoredBlock(chain, b.transactions[j]);
    if link in Links(chain) {
      LinksMember(chain, link);
      var n, i :| 0 <= n < |chain| && 0 <= i < |chain[n].transactions|
        && IsCoinbase(Body(chain[n].transactions[i])) && Body(chain[n].transactions[i]).hashLink == link;
      StoredInLedger(chain, n, i);
      RewardIsFresh(Replay(chain), b.transactions[j], WholeRecord(chain[n], n, i));
    }
  }

  lemma {:induction false} SubsetSize(part: set<Bytes>, whole: set<Bytes>)
    requires part <= whole
    ensures |part| <= |whole|
  {
    assert whole == part + (whole - part);
  }

  lemma {:induction false} LinksOfLast(chain: seq<Block>)
    requires AcceptedChain(chain) && chain != []
    ensures BlockLinks(chain[|chain| - 1], |chain[|chain| - 1].transactions|) !! Links(chain[..|chain| - 1])
    ensures BlockLinks(chain[|chain| - 1], |chain[|chain| - 1].transactions|) <= BlockHashes(chain[..|chain| - 1])
  {
    var rest, last := chain[..|chain| - 1], chain[|chain| - 1];
    forall link | link in BlockLinks(last, |last.transactions|)
      ensures link in BlockHashes(rest) && link !in Links(rest)
    {
      NewLinks(rest, last, link);
    }
  }

  lemma {:induction false} LinksWithin(chain: seq<Block>)
    requires AcceptedChain(chain) && chain != []
    ensures Links(chain) <= BlockHashes(chain[..|chain| - 1])
  {
    var rest := chain[..|chain| - 1];
    LinksOfLast(chain);
    if rest == [] {
      assert Links(rest) == {};
    } else {
      LinksWithin(rest);
      assert BlockHashes(rest[..|rest| - 1]) <= BlockHashes(rest);
    }
  }

  /** No block of the run pays two rewards for one block. */
  ghost predicate NoDoubleRewards(chain: seq<Block>) {
    forall n :: 0 <= n < |chain| ==> DistinctLinks(chain[n])
  }

  lemma {:induction false} NoDoubleRewardsNext(chain: seq<Block>)
    requires chain != []
    ensures NoDoubleRewards(chain) <==> NoDoubleRewards(chain[..|chain| - 1]) && DistinctLinks(chain[|chain| - 1])
  {
    assert chain == chain[..|chain| - 1] + [chain[|chain| - 1]];
  }

  /** A run rewards at most as many blocks as it pays rewards, and as many exactly when no block rewards one twice. */
  lemma {:induction false} LinksCount(chain: seq<Block>)
    requires AcceptedChain(chain)
    ensures |Links(chain)| <= RewardCount(chain)
    ensures |Links(chain)| == RewardCount(chain) <==> NoDoubleRewards(chain)
  {
    if chain != [] {
      var n := |chain| - 1;
      LinksCount(chain[..n]);
      LinksNext(chain);
      NoDoubleRewardsNext(chain);
    }
  }

  lemma {:induction false} LinksNext(chain: seq<Block>)
    requires AcceptedChain(chain) && chain != []
    ensures var rest, last := chain[..|chain| - 1], chain[|chain| - 1];
      var added := BlockLinks(last, |last.transactions|);
      && |Links(chain)| == |Links(rest)| + |added|
      && |added| <= Rewards(last, |last.transactions|, Every)
      && (|added| == Rewards(last, |last.transactions|, Every) <==> DistinctLinks(last))
  {
    var last := chain[|chain| - 1];
    LinksOfLast(chain);
    BlockLinksCount(last, |last.transactions|);
  }

  /**
   The last block is not yet rewarded, and each other one in at most one block; so there are fewer
   rewards than blocks, unless some block pays for one block twice.
   */
  lemma {:induction false} RewardsAreFew(chain: seq<Block>)
    requires AcceptedChain(chain) && chain != []
    ensures |Links(chain)| <= |chain| - 1 && Links(chain) <= BlockHashes(chain[..|chain| - 1])
    ensures |Links(chain)| <= RewardCount(chain)
    ensures RewardCount(chain) == |Links(chain)| <==> NoDoubleRewards(chain)
  {
    LinksCount(chain);
    LinksWithin(chain);
    SubsetSize(Links(chain), BlockHashes(chain[..|chain| - 1]));
  }

  // The supply.

  lemma {:induction false} NoVotesAmongAll(chain: seq<Block>)
    ensures RunIssued(chain, Every) == 0
  {
    if chain != [] {
      var n := |chain| - 1;
      NoVotesAmongAll(chain[..n]);
      NothingIssued(chain[n], |chain[n].transactions|, Every);
    }
  }

  /**
   The supply: in a run whose blocks spend nothing twice and wrap no output sum, the unspent value is the
   reward times the number of rewards, as long as that fits 32 bits.
   */
  lemma {:induction false} SupplyIsRewards(chain: seq<Block>)
    requires AcceptedChain(chain) && Moderate(chain, Every)
    requires REWARD_COINS * RewardCount(chain) < TWO_TO_THE_32
    ensures Worth(Replay(chain).coins, Every) == REWARD_COINS * RewardCount(chain)
  {
    NoVotesAmongAll(chain);
    ModerateBalance(chain, Every);
  }

  /** 4294968 blocks: before the last one at most 4294967 rewards, which together fit 32 bits. */
  const MAX_BLOCKS := 4294968

  /**
   Rewards do fit in a run of so many blocks none of which pays for one block twice: there is at most one
   for each block but the last.
   */
  lemma {:induction false} SupplyOfShortRun(chain: seq<Block>)
    requires AcceptedChain(chain) && Moderate(chain, Every) && NoDoubleRewards(chain) && |chain| <= MAX_BLOCKS
    ensures RewardCount(chain) <= if chain == [] then 0 else |chain| - 1
    ensures Worth(Replay(chain).coins, Every) == REWARD_COINS * RewardCount(chain) < TWO_TO_THE_32
  {
    if chain != [] {
      RewardsAreFew(chain);
    }
    SupplyIsRewards(chain);
  }
}
