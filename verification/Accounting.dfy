/** What a tally adds up to, against the votes that were issued, and how it changes after closing. */
module Accounting {
  import opened Types
  import opened Crypto
  import opened LedgerSpec
  import opened WellFormed
  import opened Sound
  import opened Verdicts
  import opened Accepted
  import opened Values
  import opened Loading
  import opened Votings
  import opened HashLinks
  import opened Tally

  // Counts as values of coins.

  /** The votes counted for a key, on coins. */
  function KeyCount(coins: seq<Coin>, voting: Bytes, end: nat, key: Bytes, typeVote: u32): nat {
    Count(Answer(coins, ByTypeValue(voting)), voting, end, key, typeVote)
  }

  lemma {:induction false} KeyCountSnoc(coins: seq<Coin>, c: Coin, voting: Bytes, end: nat, key: Bytes, typeVote: u32)
    ensures KeyCount(coins + [c], voting, end, key, typeVote)
         == KeyCount(coins, voting, end, key, typeVote)
            + if c.voteType == 0 && CastFor(c.utxo, voting, end, key) then GetVoteValue(c.utxo.value, typeVote) else 0
  {
    assert (coins + [c])[..|coins|] == coins;
    var utxos := Answer(coins, ByTypeValue(voting));
    assert (utxos + [c.utxo])[..|utxos|] == utxos;
  }

  /** For every vote type but the one-vote type, a key's count is the value of its votes. */
  lemma {:induction false} CountIsWorth(coins: seq<Coin>, voting: Bytes, end: nat, key: Bytes, typeVote: u32)
    requires typeVote != ONE_VOTE_TYPE
    ensures KeyCount(coins, voting, end, key, typeVote) == Worth(coins, HeldBy(voting, end, {key}))
  {
    if coins != [] {
      var n := |coins| - 1;
      CountIsWorth(coins[..n], voting, end, key, typeVote);
      assert coins == coins[..n] + [coins[n]];
      KeyCountSnoc(coins[..n], coins[n], voting, end, key, typeVote);
    }
  }

  /** The votes of a voting are spread over four kinds. */
  lemma {:induction false} VotesSplit(coins: seq<Coin>, voting: Bytes, end: nat, keys: set<Bytes>)
    ensures Worth(coins, OfType(voting))
         == Worth(coins, HeldByOthers(voting, end, keys)) + Worth(coins, Ballots(voting))
            + Worth(coins, HeldBy(voting, end, keys)) + Worth(coins, Late(voting, end))
  {
    if coins != [] {
      var n := |coins| - 1;
      VotesSplit(coins[..n], voting, end, keys);
    }
  }

  lemma {:induction false} HeldByOneMore(coins: seq<Coin>, voting: Bytes, end: nat, keys: set<Bytes>, key: Bytes)
    requires key !in keys
    ensures Worth(coins, HeldBy(voting, end, keys + {key}))
         == Worth(coins, HeldBy(voting, end, keys)) + Worth(coins, HeldBy(voting, end, {key}))
  {
    if coins != [] {
      var n := |coins| - 1;
      HeldByOneMore(coins[..n], voting, end, keys, key);
    }
  }

  lemma {:induction false} SameSelection(coins: seq<Coin>, a: Selector, b: Selector)
    requires forall c :: c in coins ==> (Selects(a, c) <==> Selects(b, c))
    ensures Worth(coins, a) == Worth(coins, b)
  {
    if coins != [] {
      var n := |coins| - 1;
      assert forall c :: c in coins[..n] ==> c in coins;
      assert coins[n] in coins;
      SameSelection(coins[..n], a, b);
    }
  }

  // The sum of a result.

  function Sum(res: seq<(Bytes, u32)>): nat {
    if res == [] then 0 else Sum(res[..|res| - 1]) + res[|res| - 1].1
  }

  ghost function KeysOf(res: seq<(Bytes, u32)>): set<Bytes> {
    if res == [] then {} else KeysOf(res[..|res| - 1]) + {res[|res| - 1].0}
  }

  lemma {:induction false} KeysOfMember(res: seq<(Bytes, u32)>, key: Bytes)
    ensures key in KeysOf(res) <==> exists i :: 0 <= i < |res| && res[i].0 == key
  {
    if res != [] {
      var n := |res| - 1;
      KeysOfMember(res[..n], key);
    }
  }

  /** No key in the result holds 2^32 votes or more. */
  ghost predicate NoCountWraps(res: seq<(Bytes, u32)>, coins: seq<Coin>, voting: Bytes, end: nat) {
    forall i :: 0 <= i < |res| ==> Worth(coins, HeldBy(voting, end, {res[i].0})) < TWO_TO_THE_32
  }

  lemma {:induction false} NoCountWrapsNext(res: seq<(Bytes, u32)>, coins: seq<Coin>, voting: Bytes, end: nat)
    requires res != []
    ensures var n := |res| - 1;
      NoCountWraps(res, coins, voting, end) <==>
      NoCountWraps(res[..n], coins, voting, end) && Worth(coins, HeldBy(voting, end, {res[n].0})) < TWO_TO_THE_32
  {
    assert res == res[..|res| - 1] + [res[|res| - 1]];
  }

  lemma {:induction false} SumIsWorth(res: seq<(Bytes, u32)>, coins: seq<Coin>, voting: Bytes, end: nat)
    requires forall i, j :: 0 <= i < j < |res| ==> res[i].0 != res[j].0
    requires forall i :: 0 <= i < |res| ==>
               res[i].1 == Worth(coins, HeldBy(voting, end, {res[i].0})) % TWO_TO_THE_32
    ensures Sum(res) <= Worth(coins, HeldBy(voting, end, KeysOf(res)))
    ensures Sum(res) == Worth(coins, HeldBy(voting, end, KeysOf(res))) <==> NoCountWraps(res, coins, voting, end)
  {
    if res == [] {
      WorthNone(coins, HeldBy(voting, end, {}));
    } else {
      var n := |res| - 1;
      SumIsWorth(res[..n], coins, voting, end);
      NoCountWrapsNext(res, coins, voting, end);
      KeysOfMember(res[..n], res[n].0);
      HeldByOneMore(coins, voting, end, KeysOf(res[..n]), res[n].0);
    }
  }

  lemma {:induction false} AnswerIsVotes(coins: seq<Coin>, voting: Bytes, u: Utxo)
    ensures u in Answer(coins, ByTypeValue(voting)) <==> exists c :: c in coins && c.utxo == u && IsVote(c, voting)
  {
    AnswerMember(coins, ByTypeValue(voting), u);
    if u in Answer(coins, ByTypeValue(voting)) {
      var c :| c in coins && c.utxo == u && Selected(ByTypeValue(voting), c);
      assert IsVote(c, voting);
    }
    if exists c :: c in coins && c.utxo == u && IsVote(c, voting) {
      var c :| c in coins && c.utxo == u && IsVote(c, voting);
      assert Selected(ByTypeValue(voting), c);
    }
  }

  /** The keys voted for are those that hold a vote in time. */
  lemma {:induction false} CandidateHoldsVote(coins: seq<Coin>, voting: Bytes, end: nat, c: Coin)
    requires c in coins && IsVote(c, voting) && c.utxo.timestamp < end
    ensures SliceToPkey(c.utxo.receiverSpendPkey) in Candidates(Answer(coins, ByTypeValue(voting)), voting, end)
  {
    AnswerIsVotes(coins, voting, c.utxo);
    var utxos := Answer(coins, ByTypeValue(voting));
    var i :| 0 <= i < |utxos| && utxos[i] == c.utxo;
  }

  lemma {:induction false} KeysOfResult(res: seq<(Bytes, u32)>, coins: seq<Coin>, voting: Bytes, end: nat, body: TxBody)
    requires IsResult(res, coins, voting, end, body)
    ensures KeysOf(res) == Candidates(Answer(coins, ByTypeValue(voting)), voting, end) - Participants(body)
  {
    var keys := Candidates(Answer(coins, ByTypeValue(voting)), voting, end) - Participants(body);
    forall key ensures key in KeysOf(res) <==> key in keys {
      KeysOfMember(res, key);
    }
  }

  lemma {:induction false} ResultHoldsTheRest(
    res: seq<(Bytes, u32)>, coins: seq<Coin>, voting: Bytes, end: nat, body: TxBody)
    requires IsResult(res, coins, voting, end, body)
    ensures Worth(coins, HeldBy(voting, end, KeysOf(res)))
         == Worth(coins, HeldByOthers(voting, end, Participants(body)))
  {
    var a, b := HeldBy(voting, end, KeysOf(res)), HeldByOthers(voting, end, Participants(body));
    KeysOfResult(res, coins, voting, end, body);
    forall c | c in coins ensures Selects(a, c) <==> Selects(b, c) {
      if IsVote(c, voting) && c.utxo.timestamp < end {
        CandidateHoldsVote(coins, voting, end, c);
      }
    }
    SameSelection(coins, a, b);
  }

  /** The votes of a voting outside its result: ballots not used yet, votes with listed voters, and late votes. */
  ghost function Unlisted(coins: seq<Coin>, voting: Bytes, end: nat, body: TxBody): nat {
    Worth(coins, Ballots(voting)) + Worth(coins, HeldBy(voting, end, Participants(body)))
    + Worth(coins, Late(voting, end))
  }

  /**
   The accounting identity: the votes of a voting are those its result lists, the ballots not yet
   used, the votes that came to listed voters, and the votes cast too late, if and only if no listed
   count wraps; otherwise the result lists fewer. (One-vote counting, which counts outputs rather than
   values, is outside it.)
   */
  lemma {:induction false} VotesAddUp(res: seq<(Bytes, u32)>, coins: seq<Coin>, voting: Bytes, end: nat, body: TxBody)
    requires IsResult(res, coins, voting, end, body) && body.voteType != ONE_VOTE_TYPE
    ensures Sum(res) + Unlisted(coins, voting, end, body) <= Worth(coins, OfType(voting))
    ensures Sum(res) + Unlisted(coins, voting, end, body) == Worth(coins, OfType(voting))
       <==> NoCountWraps(res, coins, voting, end)
  {
    forall i | 0 <= i < |res|
      ensures res[i].1 == Worth(coins, HeldBy(voting, end, {res[i].0})) % TWO_TO_THE_32
    {
      CountIsWorth(coins, voting, end, res[i].0, body.voteType);
    }
    SumIsWorth(res, coins, voting, end);
    ResultHoldsTheRest(res, coins, voting, end, body);
    VotesSplit(coins, voting, end, Participants(body));
  }

  /**
   Over any accepted run: what a voting issued, with the rewards of its type, its wrapped output sums and
   what was spent twice, is what its tally lists and what it does not, if and only if no count wraps.
   */
  lemma {:induction false} RunVotesAccounted(chain: seq<Block>, n: nat, i: nat, end: nat, res: seq<(Bytes, u32)>)
    requires AcceptedChain(chain) && n < |chain| && Creates(chain[n], i)
    requires Body(chain[n].transactions[i]).voteType != ONE_VOTE_TYPE
    requires IsResult(res, Replay(chain).coins, chain[n].transactions[i].hash, end, Body(chain[n].transactions[i]))
    ensures var coins, voting := Replay(chain).coins, chain[n].transactions[i].hash;
      var body := Body(chain[n].transactions[i]);
      && voting != []
      && (Sum(res) + Unlisted(coins, voting, end, body) == VotesOfRun(chain, voting, body) <==>
          NoCountWraps(res, coins, voting, end))
  {
    VotingBalance(chain, n, i);
    VotesAddUp(res, Replay(chain).coins, chain[n].transactions[i].hash, end, Body(chain[n].transactions[i]));
  }

  lemma {:induction false} FewVotesNeverWrap(res: seq<(Bytes, u32)>, coins: seq<Coin>, voting: Bytes, end: nat)
    requires Worth(coins, OfType(voting)) < TWO_TO_THE_32
    ensures NoCountWraps(res, coins, voting, end)
  {
    forall i | 0 <= i < |res| ensures Worth(coins, HeldBy(voting, end, {res[i].0})) < TWO_TO_THE_32 {
      VotesSplit(coins, voting, end, {res[i].0});
    }
  }

  /**
   Over a whole fair run: what the voting issued is what its tally lists plus unused ballots, votes
   with voters and late votes. So the tally never lists more than was issued.
   */
  lemma {:induction false} IssuedVotesAccounted(chain: seq<Block>, n: nat, i: nat, end: nat, res: seq<(Bytes, u32)>)
    requires FairRun(chain) && n < |chain| && Creates(chain[n], i)
    requires Body(chain[n].transactions[i]).voteType != ONE_VOTE_TYPE
    requires IsResult(res, Replay(chain).coins, chain[n].transactions[i].hash, end, Body(chain[n].transactions[i]))
    ensures OutputTotal(Body(chain[n].transactions[i]).outputs)
         == Sum(res) + Unlisted(Replay(chain).coins, chain[n].transactions[i].hash, end, Body(chain[n].transactions[i]))
  {
    var coins, voting := Replay(chain).coins, chain[n].transactions[i].hash;
    VotingConserved(chain, n, i);
    FewVotesNeverWrap(res, coins, voting, end);
    VotesAddUp(res, coins, voting, end, Body(chain[n].transactions[i]));
  }

  lemma {:induction false} VotingFound(chain: seq<Block>, n: nat, i: nat)
    requires AcceptedChain(chain) && n < |chain| && i < |chain[n].transactions|
    ensures FindTx(Replay(chain).txs, chain[n].transactions[i].hash) == Some(WholeRecord(chain[n], n, i))
    ensures n < |Replay(chain).blocks| && Replay(chain).blocks[n].header == chain[n].header
    ensures chain[n].header.timestamp < TWO_TO_THE_63
  {
    HashOfCommitted(chain, n, i);
    AcceptedIsSound(chain);
    ReplayBlocks(chain);
    TimesFit(chain, n);
  }

  /** What OnGetVoteResult reads: the voting's own body, and the end of its time. */
  lemma {:induction false} VotingRead(chain: seq<Block>, n: nat, i: nat, rec: TxRecord, body: TxBody)
    requires AcceptedChain(chain) && BodyRoundTrips() && n < |chain| && i < |chain[n].transactions|
    requires FindTx(Replay(chain).txs, chain[n].transactions[i].hash) == Some(rec)
    requires rec.height < |Replay(chain).blocks|
    requires StoredBody(rec) == Some(body)
    ensures body == Body(chain[n].transactions[i])
    ensures EndTime(TimeOf(Replay(chain), rec), body.duration)
         == chain[n].header.timestamp + NANOSECONDS_PER_SECOND * body.duration
  {
    VotingFound(chain, n, i);
    StoredBodyIs(rec);
    EndTimeExact(chain[n].header.timestamp, body.duration);
  }

  /**
   Both for what OnGetVoteResult answers: `rec` is the stored transaction it finds, `body` what it parses,
   and voting ends `duration` seconds after the block that created it.
   */
  lemma {:induction false} AnswerAccounted(
    chain: seq<Block>, n: nat, i: nat, rec: TxRecord, body: TxBody, end: nat, res: seq<(Bytes, u32)>)
    requires AcceptedChain(chain) && BodyRoundTrips() && n < |chain| && Creates(chain[n], i)
    requires body.voteType != ONE_VOTE_TYPE
    requires FindTx(Replay(chain).txs, chain[n].transactions[i].hash) == Some(rec)
    requires rec.height < |Replay(chain).blocks|
    requires StoredBody(rec) == Some(body)
    requires end == EndTime(TimeOf(Replay(chain), rec), body.duration)
    requires IsResult(res, Replay(chain).coins, chain[n].transactions[i].hash, end, body)
    ensures var coins, voting := Replay(chain).coins, chain[n].transactions[i].hash;
      && voting != []
      && (Sum(res) + Unlisted(coins, voting, end, body) == VotesOfRun(chain, voting, body) <==>
          NoCountWraps(res, coins, voting, end))
    ensures FairRun(chain) ==>
              OutputTotal(body.outputs)
              == Sum(res) + Unlisted(Replay(chain).coins, chain[n].transactions[i].hash, end, body)
    ensures end == chain[n].header.timestamp + NANOSECONDS_PER_SECOND * body.duration
  {
    VotingRead(chain, n, i, rec, body);
    RunVotesAccounted(chain, n, i, end, res);
    if FairRun(chain) {
      IssuedVotesAccounted(chain, n, i, end, res);
    }
  }

  // After closing.

  lemma {:induction false} SpendingOneMore(
    coins: seq<Coin>, c: Coin, spent: seq<Input>, voting: Bytes, end: nat, key: Bytes, typeVote: u32)
    requires KeyCount(Remaining(coins, spent), voting, end, key, typeVote)
          <= KeyCount(coins, voting, end, key, typeVote)
    ensures KeyCount(Remaining(coins + [c], spent), voting, end, key, typeVote)
         <= KeyCount(coins + [c], voting, end, key, typeVote)
  {
    assert (coins + [c])[..|coins|] == coins;
    KeyCountSnoc(Remaining(coins, spent), c, voting, end, key, typeVote);
    KeyCountSnoc(coins, c, voting, end, key, typeVote);
  }

  lemma {:induction false} SpendingLowersCount(
    coins: seq<Coin>, spent: seq<Input>, voting: Bytes, end: nat, key: Bytes, typeVote: u32)
    ensures KeyCount(Remaining(coins, spent), voting, end, key, typeVote) <= KeyCount(coins, voting, end, key, typeVote)
  {
    if coins != [] {
      var n := |coins| - 1;
      assert coins == coins[..n] + [coins[n]];
      SpendingLowersCount(coins[..n], spent, voting, end, key, typeVote);
      SpendingOneMore(coins[..n], coins[n], spent, voting, end, key, typeVote);
    }
  }

  lemma {:induction false} LateCoinsDoNotCount(
    coins: seq<Coin>, rec: TxRecord, timestamp: u64, n: nat, voting: Bytes, end: nat, key: Bytes, typeVote: u32)
    requires n <= |rec.body.outputs| && timestamp >= end
    ensures KeyCount(coins + CoinsOf(rec, timestamp, n), voting, end, key, typeVote)
         == KeyCount(coins, voting, end, key, typeVote)
  {
    if n == 0 {
      assert coins + CoinsOf(rec, timestamp, 0) == coins;
    } else {
      var m := n - 1;
      var last := CoinAt(rec, timestamp, m);
      LateCoinsDoNotCount(coins, rec, timestamp, m, voting, end, key, typeVote);
      assert coins + CoinsOf(rec, timestamp, n) == (coins + CoinsOf(rec, timestamp, m)) + [last];
      KeyCountSnoc(coins + CoinsOf(rec, timestamp, m), last, voting, end, key, typeVote);
    }
  }

  lemma {:induction false} LateTxLowersCount(
    l: Ledger, rec: TxRecord, voting: Bytes, end: nat, key: Bytes, typeVote: u32)
    requires rec.height < |l.blocks| && TimeOf(l, rec) >= end
    ensures KeyCount(ApplyTx(l, rec).coins, voting, end, key, typeVote) <= KeyCount(l.coins, voting, end, key, typeVote)
  {
    SpendingLowersCount(l.coins, rec.body.inputs, voting, end, key, typeVote);
    LateCoinsDoNotCount(
      Remaining(l.coins, rec.body.inputs), rec, TimeOf(l, rec), |rec.body.outputs|, voting, end, key, typeVote);
  }

  lemma {:induction false} NextTxLowersCount(
    l: Ledger, b: Block, m: nat, voting: Bytes, end: nat, key: Bytes, typeVote: u32)
    requires m < |b.transactions| && b.header.timestamp >= end
    ensures KeyCount(Applied(l, b, m + 1).coins, voting, end, key, typeVote)
         <= KeyCount(Applied(l, b, m).coins, voting, end, key, typeVote)
  {
    var before := Applied(l, b, m);
    LateTxLowersCount(before, RecordOf(before.txs, b, |l.blocks|, m), voting, end, key, typeVote);
  }

  lemma {:induction false} LateBlockLowersCount(
    l: Ledger, b: Block, n: nat, voting: Bytes, end: nat, key: Bytes, typeVote: u32)
    requires n <= |b.transactions| && b.header.timestamp >= end
    ensures KeyCount(Applied(l, b, n).coins, voting, end, key, typeVote)
         <= KeyCount(l.coins, voting, end, key, typeVote)
  {
    if n > 0 {
      var m := n - 1;
      LateBlockLowersCount(l, b, m, voting, end, key, typeVote);
      NextTxLowersCount(l, b, m, voting, end, key, typeVote);
    }
  }

  /**
   After closing: once every new block is stamped at or past the end time, no key's count ever grows,
   whatever the new blocks hold.
   */
  lemma {:induction false} CountsOnlyFall(chain: seq<Block>, n: nat, voting: Bytes, end: nat, key: Bytes, typeVote: u32)
    requires n <= |chain| && forall m :: n <= m < |chain| ==> chain[m].header.timestamp >= end
    ensures KeyCount(Replay(chain).coins, voting, end, key, typeVote)
         <= KeyCount(Replay(chain[..n]).coins, voting, end, key, typeVote)
  {
    if n == |chain| {
      assert chain[..n] == chain;
    } else {
      var m := |chain| - 1;
      assert chain[..m][..n] == chain[..n];
      CountsOnlyFall(chain[..m], n, voting, end, key, typeVote);
      LateBlockLowersCount(Replay(chain[..m]), chain[m], |chain[m].transactions|, voting, end, key, typeVote);
    }
  }

  lemma {:induction false} ListedKeyCounts(
    res: seq<(Bytes, u32)>, coins: seq<Coin>, voting: Bytes, end: nat, body: TxBody, i: nat)
    requires IsResult(res, coins, voting, end, body) && i < |res|
    requires KeyCount(coins, voting, end, res[i].0, body.voteType) < TWO_TO_THE_32
    ensures res[i].1 == KeyCount(coins, voting, end, res[i].0, body.voteType)
  {}

  /** The same on results: a later result lists a key with at most the count an earlier one lists. */
  lemma {:induction false} ResultsOnlyFall(
    chain: seq<Block>, n: nat, voting: Bytes, end: nat, body: TxBody,
    early: seq<(Bytes, u32)>, late: seq<(Bytes, u32)>, i: nat, j: nat)
    requires n <= |chain| && forall m :: n <= m < |chain| ==> chain[m].header.timestamp >= end
    requires IsResult(early, Replay(chain[..n]).coins, voting, end, body)
    requires IsResult(late, Replay(chain).coins, voting, end, body)
    requires i < |early| && j < |late| && early[i].0 == late[j].0
    requires KeyCount(Replay(chain[..n]).coins, voting, end, early[i].0, body.voteType) < TWO_TO_THE_32
    ensures late[j].1 <= early[i].1
  {
    CountsOnlyFall(chain, n, voting, end, late[j].0, body.voteType);
    ListedKeyCounts(early, Replay(chain[..n]).coins, voting, end, body, i);
    ListedKeyCounts(late, Replay(chain).coins, voting, end, body, j);
  }

  // The hash links of a voting.

  lemma {:induction false} LinkedBlockStored(l: Ledger, tx: Transaction)
    requires Accepts(l, tx) && Body(tx).hashLink != []
    ensures exists m :: 0 <= m < |l.blocks| && l.blocks[m].hash == Body(tx).hashLink
  {
    AcceptedForms(l, tx);
    FindBlockSound(l.blocks, Body(tx).hashLink);
  }

  lemma {:induction false} LinkInPrefix(chain: seq<Block>, n: nat, tx: Transaction)
    requires n <= |chain| && SavedChain(chain[..n]) && Accepts(Replay(chain[..n]), tx) && Body(tx).hashLink != []
    ensures exists m :: 0 <= m < |chain| && chain[m].hash == Body(tx).hashLink
  {
    var before := chain[..n];
    var blocks := Replay(before).blocks;
    LinkedBlockStored(Replay(before), tx);
    ReplayBlocks(before);
    var m :| 0 <= m < |blocks| && blocks[m].hash == Body(tx).hashLink;
    assert blocks[m] == BlockRecord(before[m].hash, before[m].header);
    assert before[m] == chain[m];
  }

  lemma {:induction false} LinkOfBlock(chain: seq<Block>, n: nat, i: nat)
    requires AcceptedChain(chain) && n < |chain| && i < |chain[n].transactions|
    requires Body(chain[n].transactions[i]).hashLink != []
    ensures exists m :: 0 <= m < |chain| && chain[m].hash == Body(chain[n].transactions[i]).hashLink
  {
    AcceptedTxAt(chain, n, i);
    AcceptedIsSound(chain[..n]);
    LinkInPrefix(chain, n, chain[n].transactions[i]);
  }

  /** In an accepted run a transaction has a successor link only if a block has the transaction's hash. */
  lemma {:induction false} LinksNameBlocks(chain: seq<Block>, hash: Bytes)
    requires AcceptedChain(chain) && hash != [] && FindLink(Replay(chain).txs, hash).Some?
    ensures exists m :: 0 <= m < |chain| && chain[m].hash == hash
  {
    var rec := FindLink(Replay(chain).txs, hash).value;
    assert rec in Replay(chain).txs && rec.body.hashLink == hash by {
      FindLinkSound(Replay(chain).txs, hash);
    }
    assert FromChain(chain, rec) by {
      AcceptedIsSound(chain);
      RecordsFromChain(chain, rec);
    }
    LinkOfBlock(chain, rec.height, rec.index);
  }

  lemma {:induction false} NoLink(txs: seq<TxRecord>, hash: Bytes)
    requires FindLink(txs, hash) == None
    ensures LinkLength(txs, hash, 1) == 0 && !NeverEnds(txs, hash)
  {}

  /** So the tally's last loop ends after one round, unless a block has the hash of the voting. */
  lemma {:induction false} TallyEnds(chain: seq<Block>, hash: Bytes)
    requires AcceptedChain(chain) && hash != []
    requires forall m :: 0 <= m < |chain| ==> chain[m].hash != hash
    ensures LinkLength(Replay(chain).txs, hash, 1) == 0 && !NeverEnds(Replay(chain).txs, hash)
  {
    assert FindLink(Replay(chain).txs, hash) == None by {
      if FindLink(Replay(chain).txs, hash).Some? {
        LinksNameBlocks(chain, hash);
      }
    }
    NoLink(Replay(chain).txs, hash);
  }
}
