/** evote/client_request_handlers.go: counting the votes of a voting. */
module Tally {
  import opened Types
  import opened Crypto
  import opened LedgerSpec
  import opened Verdicts
  import opened Loading
  import opened Storage
  import opened HashLinks

  const NANOSECONDS_PER_SECOND := 1000000000

  /** endTime as the code computes it on uint64. */
  function EndTime(timeStart: u64, duration: u32): u64 {
    (timeStart + NANOSECONDS_PER_SECOND * duration % TWO_TO_THE_64) % TWO_TO_THE_64
  }

  /** A stored timestamp fits 63 bits, so the end time never wraps. */
  lemma {:induction false} EndTimeExact(timeStart: u64, duration: u32)
    requires timeStart < TWO_TO_THE_63
    ensures EndTime(timeStart, duration) == timeStart + NANOSECONDS_PER_SECOND * duration
  {
    assert NANOSECONDS_PER_SECOND * duration < TWO_TO_THE_63;
  }

  function GetVoteValue(value: u32, typeVote: u32): u32 {
    if typeVote == ONE_VOTE_TYPE then 1
    else if typeVote == PERCENT_VOTE_TYPE then value
    else value
  }

  predicate CastFor(u: Utxo, voting: Bytes, end: nat, key: Bytes) {
    u.valueType == voting && u.timestamp < end && SliceToPkey(u.receiverSpendPkey) == key
  }

  /** The votes that the given UTXOs cast for a key. */
  function Count(utxos: seq<Utxo>, voting: Bytes, end: nat, key: Bytes, typeVote: u32): nat {
    if utxos == [] then 0
    else
      var last := utxos[|utxos| - 1];
      Count(utxos[..|utxos| - 1], voting, end, key, typeVote)
        + if CastFor(last, voting, end, key) then GetVoteValue(last.value, typeVote) else 0
  }

  /** The keys that votes were cast for. */
  ghost function Candidates(utxos: seq<Utxo>, voting: Bytes, end: nat): set<Bytes> {
    set i | 0 <= i < |utxos| && utxos[i].valueType == voting && utxos[i].timestamp < end
      :: SliceToPkey(utxos[i].receiverSpendPkey)
  }

  ghost function Participants(body: TxBody): set<Bytes> {
    set i | 0 <= i < |body.outputs| :: SliceToPkey(body.outputs[i].receiverSpendPkey)
  }

  lemma {:induction false} CountStep(utxos: seq<Utxo>, i: nat, voting: Bytes, end: nat, key: Bytes, typeVote: u32)
    requires i < |utxos|
    ensures Count(utxos[..i + 1], voting, end, key, typeVote)
         == Count(utxos[..i], voting, end, key, typeVote)
            + if CastFor(utxos[i], voting, end, key) then GetVoteValue(utxos[i].value, typeVote) else 0
  {
    assert utxos[..i + 1][..i] == utxos[..i];
  }

  lemma {:induction false} CandidatesStep(utxos: seq<Utxo>, i: nat, voting: Bytes, end: nat)
    requires i < |utxos|
    ensures Candidates(utxos[..i + 1], voting, end)
         == Candidates(utxos[..i], voting, end)
            + if utxos[i].valueType == voting && utxos[i].timestamp < end
              then {SliceToPkey(utxos[i].receiverSpendPkey)} else {}
  {
    var more := utxos[..i + 1];
    assert forall j :: 0 <= j < i ==> more[j] == utxos[..i][j];
    assert more[i] == utxos[i];
  }

  lemma {:induction false} CountNone(utxos: seq<Utxo>, voting: Bytes, end: nat, key: Bytes, typeVote: u32)
    requires key !in Candidates(utxos, voting, end)
    ensures Count(utxos, voting, end, key, typeVote) == 0
  {
    if utxos != [] {
      var n := |utxos| - 1;
      CandidatesStep(utxos, n, voting, end);
      assert utxos[..n + 1] == utxos;
      CountNone(utxos[..n], voting, end, key, typeVote);
    }
  }

  /** The map after the first loop: for each key voted for, its votes modulo 2^32. */
  ghost predicate Counted(result: map<Bytes, u32>, utxos: seq<Utxo>, voting: Bytes, end: nat, typeVote: u32) {
    && result.Keys == Candidates(utxos, voting, end)
    && forall k :: k in result ==> result[k] == Count(utxos, voting, end, k, typeVote) % TWO_TO_THE_32
  }

  function AddVote(result: map<Bytes, u32>, key: Bytes, value: u32): map<Bytes, u32> {
    if key in result then result[key := Add32(result[key], value)] else result[key := value]
  }

  lemma {:induction false} AddVoteValue(result: map<Bytes, u32>, key: Bytes, value: u32, before: nat)
    requires if key in result then result[key] == before % TWO_TO_THE_32 else before == 0
    ensures AddVote(result, key, value)[key] == (before + value) % TWO_TO_THE_32
  {}

  lemma {:induction false} CountedSkip(
    result: map<Bytes, u32>, utxos: seq<Utxo>, i: nat, voting: Bytes, end: nat, typeVote: u32)
    requires i < |utxos| && Counted(result, utxos[..i], voting, end, typeVote)
    requires !(utxos[i].valueType == voting && utxos[i].timestamp < end)
    ensures Counted(result, utxos[..i + 1], voting, end, typeVote)
  {
    CandidatesStep(utxos, i, voting, end);
    forall k | k in result ensures result[k] == Count(utxos[..i + 1], voting, end, k, typeVote) % TWO_TO_THE_32 {
      CountStep(utxos, i, voting, end, k, typeVote);
    }
  }

  lemma {:induction false} CountAfterAdd(
    result: map<Bytes, u32>, utxos: seq<Utxo>, i: nat, voting: Bytes, end: nat, typeVote: u32, k: Bytes)
    requires i < |utxos| && Counted(result, utxos[..i], voting, end, typeVote)
    requires utxos[i].valueType == voting && utxos[i].timestamp < end
    requires k in result || k == SliceToPkey(utxos[i].receiverSpendPkey)
    ensures AddVote(result, SliceToPkey(utxos[i].receiverSpendPkey), GetVoteValue(utxos[i].value, typeVote))[k]
         == Count(utxos[..i + 1], voting, end, k, typeVote) % TWO_TO_THE_32
  {
    var before, value := Count(utxos[..i], voting, end, k, typeVote), GetVoteValue(utxos[i].value, typeVote);
    CountStep(utxos, i, voting, end, k, typeVote);
    if k == SliceToPkey(utxos[i].receiverSpendPkey) {
      if k !in result {
        CountNone(utxos[..i], voting, end, k, typeVote);
      }
      AddVoteValue(result, k, value, before);
    }
  }

  lemma {:induction false} CountedAdd(
    result: map<Bytes, u32>, utxos: seq<Utxo>, i: nat, voting: Bytes, end: nat, typeVote: u32)
    requires i < |utxos| && Counted(result, utxos[..i], voting, end, typeVote)
    requires utxos[i].valueType == voting && utxos[i].timestamp < end
    ensures Counted(
              AddVote(result, SliceToPkey(utxos[i].receiverSpendPkey), GetVoteValue(utxos[i].value, typeVote)),
              utxos[..i + 1], voting, end, typeVote)
  {
    var key, value := SliceToPkey(utxos[i].receiverSpendPkey), GetVoteValue(utxos[i].value, typeVote);
    var after := AddVote(result, key, value);
    CandidatesStep(utxos, i, voting, end);
    assert after.Keys == result.Keys + {key};
    forall k | k in after ensures after[k] == Count(utxos[..i + 1], voting, end, k, typeVote) % TWO_TO_THE_32 {
      CountAfterAdd(result, utxos, i, voting, end, typeVote, k);
    }
  }

  method CountVotes(utxos: seq<Utxo>, voting: Bytes, end: nat, typeVote: u32) returns (result: map<Bytes, u32>)
    ensures Counted(result, utxos, voting, end, typeVote)
  {
    result := map[];
    var i := 0;
    while i < |utxos|
      invariant 0 <= i <= |utxos|
      invariant Counted(result, utxos[..i], voting, end, typeVote)
    {
      var pkey := SliceToPkey(utxos[i].receiverSpendPkey);
      if utxos[i].valueType == voting && utxos[i].timestamp < end {
        CountedAdd(result, utxos, i, voting, end, typeVote);
        if pkey in result {
          result := result[pkey := Add32(result[pkey], GetVoteValue(utxos[i].value, typeVote))];
        } else {
          result := result[pkey := GetVoteValue(utxos[i].value, typeVote)];
        }
      } else {
        CountedSkip(result, utxos, i, voting, end, typeVote);
      }
      i := i + 1;
    }
    assert utxos[..i] == utxos;
  }

  /** The inner loop of the second part: the voters themselves are no candidates. */
  method RemoveParticipants(counts: map<Bytes, u32>, body: TxBody) returns (result: map<Bytes, u32>)
    ensures result == counts - Participants(body)
  {
    result := counts;
    var i := 0;
    while i < |body.outputs|
      invariant 0 <= i <= |body.outputs|
      invariant result == counts - set j | 0 <= j < i :: SliceToPkey(body.outputs[j].receiverSpendPkey)
    {
      result := result - {SliceToPkey(body.outputs[i].receiverSpendPkey)};
      i := i + 1;
    }
  }

  /** The map's entries in the order in which the last loop happens to visit them. */
  ghost predicate Lists(res: seq<(Bytes, u32)>, result: map<Bytes, u32>) {
    && (forall i, j :: 0 <= i < j < |res| ==> res[i].0 != res[j].0)
    && (forall i :: 0 <= i < |res| ==> res[i].0 in result && res[i].1 == result[res[i].0])
    && (forall k :: k in result ==> exists i :: 0 <= i < |res| && res[i].0 == k)
  }

  method ListEntries(result: map<Bytes, u32>) returns (res: seq<(Bytes, u32)>)
    ensures Lists(res, result)
  {
    res := [];
    var left := result.Keys;
    while left != {}
      invariant left <= result.Keys
      invariant forall i, j :: 0 <= i < j < |res| ==> res[i].0 != res[j].0
      invariant forall i :: 0 <= i < |res| ==> res[i].0 in result && res[i].0 !in left && res[i].1 == result[res[i].0]
      invariant forall k :: k in result && k !in left ==> exists i :: 0 <= i < |res| && res[i].0 == k
      decreases |left|
    {
      var k :| k in left;
      ghost var before := res;
      res := res + [(k, result[k])];
      left := left - {k};
      assert res[|before|].0 == k;
      forall q | q in result && q !in left ensures exists i :: 0 <= i < |res| && res[i].0 == q {
        if q != k {
          var i :| 0 <= i < |before| && before[i].0 == q;
          assert res[i].0 == q;
        }
      }
    }
  }

  datatype VoteAnswer = Refused(code: Code) | Crashed | Endless | VoteResult(res: seq<(Bytes, u32)>)

  /** What a voting's result must list: all keys voted for in time, without the voters, each with its votes. */
  ghost predicate IsResult(res: seq<(Bytes, u32)>, coins: seq<Coin>, voting: Bytes, end: nat, body: TxBody) {
    var utxos := Answer(coins, ByTypeValue(voting));
    && (forall i, j :: 0 <= i < j < |res| ==> res[i].0 != res[j].0)
    && (forall i :: 0 <= i < |res| ==>
          && res[i].0 in Candidates(utxos, voting, end) - Participants(body)
          && res[i].1 == Count(utxos, voting, end, res[i].0, body.voteType) % TWO_TO_THE_32)
    && (forall k :: k in Candidates(utxos, voting, end) - Participants(body) ==>
          exists i :: 0 <= i < |res| && res[i].0 == k)
  }

  lemma {:induction false} ListedResult(
    res: seq<(Bytes, u32)>, counts: map<Bytes, u32>, coins: seq<Coin>, voting: Bytes, end: nat, body: TxBody)
    requires Counted(counts, Answer(coins, ByTypeValue(voting)), voting, end, body.voteType)
    requires Lists(res, counts - Participants(body))
    ensures IsResult(res, coins, voting, end, body)
  {
    var result := counts - Participants(body);
    assert result.Keys == Candidates(Answer(coins, ByTypeValue(voting)), voting, end) - Participants(body);
  }

  // The result on the coins themselves.

  /** A vote of this voting in time, cast for the key: no ballot, and the 33 bytes of its receiver are the key. */
  ghost predicate VoteFor(c: Coin, voting: Bytes, end: nat, key: Bytes) {
    && c.voteType == 0 && c.utxo.valueType == voting && c.utxo.timestamp < end
    && CopiedTo(c.utxo.receiverSpendPkey, PKEY_SIZE, key)
  }

  /** What the key received: under the one-vote rule how many outputs, and else their value. */
  ghost function VotesFor(coins: seq<Coin>, voting: Bytes, end: nat, key: Bytes, oneVote: bool): nat {
    if coins == [] then 0
    else
      var last := coins[|coins| - 1];
      VotesFor(coins[..|coins| - 1], voting, end, key, oneVote)
        + if !VoteFor(last, voting, end, key) then 0 else if oneVote then 1 else last.utxo.value
  }

  /** The key is that of a listed voter: an output of the voting itself. */
  ghost predicate VoterKey(body: TxBody, key: Bytes) {
    exists o :: o in body.outputs && CopiedTo(o.receiverSpendPkey, PKEY_SIZE, key)
  }

  /** A key that votes in time were cast for, but no voter's. */
  ghost predicate IsCandidate(coins: seq<Coin>, voting: Bytes, end: nat, body: TxBody, key: Bytes) {
    (exists c :: c in coins && VoteFor(c, voting, end, key)) && !VoterKey(body, key)
  }

  /** All candidates, each once and with its votes modulo 2^32. */
  ghost predicate ListsVotes(res: seq<(Bytes, u32)>, coins: seq<Coin>, voting: Bytes, end: nat, body: TxBody) {
    && (forall i, j :: 0 <= i < j < |res| ==> res[i].0 != res[j].0)
    && (forall i :: 0 <= i < |res| ==>
          && IsCandidate(coins, voting, end, body, res[i].0)
          && res[i].1 == VotesFor(coins, voting, end, res[i].0, body.voteType == ONE_VOTE_TYPE) % TWO_TO_THE_32)
    && (forall key :: IsCandidate(coins, voting, end, body, key) ==> exists i :: 0 <= i < |res| && res[i].0 == key)
  }

  lemma {:induction false} CastIsVote(c: Coin, voting: Bytes, end: nat, key: Bytes)
    requires Selected(ByTypeValue(voting), c)
    ensures CastFor(c.utxo, voting, end, key) <==> VoteFor(c, voting, end, key)
  {
    SliceToPkeyCopies(c.utxo.receiverSpendPkey, key);
  }

  lemma {:induction false} CountIsVotes(coins: seq<Coin>, voting: Bytes, end: nat, key: Bytes, typeVote: u32)
    ensures Count(Answer(coins, ByTypeValue(voting)), voting, end, key, typeVote)
         == VotesFor(coins, voting, end, key, typeVote == ONE_VOTE_TYPE)
  {
    if coins != [] {
      var n := |coins| - 1;
      var utxos := Answer(coins[..n], ByTypeValue(voting));
      CountIsVotes(coins[..n], voting, end, key, typeVote);
      if Selected(ByTypeValue(voting), coins[n]) {
        assert (utxos + [coins[n].utxo])[..|utxos|] == utxos;
        CastIsVote(coins[n], voting, end, key);
      }
    }
  }

  lemma {:induction false} CandidateIsVotedFor(coins: seq<Coin>, voting: Bytes, end: nat, key: Bytes)
    ensures key in Candidates(Answer(coins, ByTypeValue(voting)), voting, end)
       <==> exists c :: c in coins && VoteFor(c, voting, end, key)
  {
    var utxos := Answer(coins, ByTypeValue(voting));
    if key in Candidates(utxos, voting, end) {
      var i :| 0 <= i < |utxos| && CastFor(utxos[i], voting, end, key);
      AnswerMember(coins, ByTypeValue(voting), utxos[i]);
      var c :| c in coins && c.utxo == utxos[i] && Selected(ByTypeValue(voting), c);
      CastIsVote(c, voting, end, key);
    }
    forall c | c in coins && VoteFor(c, voting, end, key) ensures key in Candidates(utxos, voting, end) {
      AnswerMember(coins, ByTypeValue(voting), c.utxo);
      CastIsVote(c, voting, end, key);
      var i :| 0 <= i < |utxos| && utxos[i] == c.utxo;
    }
  }

  lemma {:induction false} ParticipantIsVoter(body: TxBody, key: Bytes)
    ensures key in Participants(body) <==> VoterKey(body, key)
  {
    if key in Participants(body) {
      var i :| 0 <= i < |body.outputs| && SliceToPkey(body.outputs[i].receiverSpendPkey) == key;
      SliceToPkeyCopies(body.outputs[i].receiverSpendPkey, key);
      assert body.outputs[i] in body.outputs;
    }
    forall o | o in body.outputs && CopiedTo(o.receiverSpendPkey, PKEY_SIZE, key) ensures key in Participants(body) {
      SliceToPkeyCopies(o.receiverSpendPkey, key);
      var i :| 0 <= i < |body.outputs| && body.outputs[i] == o;
    }
  }

  lemma {:induction false} CandidateIs(coins: seq<Coin>, voting: Bytes, end: nat, body: TxBody, key: Bytes)
    ensures key in Candidates(Answer(coins, ByTypeValue(voting)), voting, end) - Participants(body)
       <==> IsCandidate(coins, voting, end, body, key)
  {
    CandidateIsVotedFor(coins, voting, end, key);
    ParticipantIsVoter(body, key);
  }

  lemma {:induction false} ResultListsVotes(
    res: seq<(Bytes, u32)>, coins: seq<Coin>, voting: Bytes, end: nat, body: TxBody)
    requires IsResult(res, coins, voting, end, body)
    ensures ListsVotes(res, coins, voting, end, body)
  {
    forall i | 0 <= i < |res|
      ensures IsCandidate(coins, voting, end, body, res[i].0)
      ensures res[i].1 == VotesFor(coins, voting, end, res[i].0, body.voteType == ONE_VOTE_TYPE) % TWO_TO_THE_32
    {
      CandidateIs(coins, voting, end, body, res[i].0);
      CountIsVotes(coins, voting, end, res[i].0, body.voteType);
    }
    forall key | IsCandidate(coins, voting, end, body, key) ensures exists i :: 0 <= i < |res| && res[i].0 == key {
      CandidateIs(coins, voting, end, body, key);
    }
  }

  /** The value of the votes in time whose receiver is the key itself. */
  function ReceivedBy(coins: seq<Coin>, voting: Bytes, end: nat, key: Bytes): nat {
    if coins == [] then 0
    else
      var last := coins[|coins| - 1];
      ReceivedBy(coins[..|coins| - 1], voting, end, key)
        + if last.voteType == 0 && last.utxo.valueType == voting && last.utxo.timestamp < end
             && last.utxo.receiverSpendPkey == key then last.utxo.value else 0
  }

  lemma {:induction false} WholeKeysReceive(coins: seq<Coin>, voting: Bytes, end: nat, key: Bytes)
    requires forall c :: c in coins && c.utxo.valueType == voting ==> |c.utxo.receiverSpendPkey| == PKEY_SIZE
    ensures VotesFor(coins, voting, end, key, false) == ReceivedBy(coins, voting, end, key)
  {
    if coins != [] {
      var n := |coins| - 1;
      assert coins[n] in coins;
      WholeKeysReceive(coins[..n], voting, end, key);
      if coins[n].utxo.valueType == voting {
        CopiedWhole(coins[n].utxo.receiverSpendPkey, key);
      }
    }
  }

  /**
   Where spend keys have their proper length and votes count by value: exactly the receivers of votes in
   time are listed that are no receiver of the voting's outputs, each with the value it received.
   */
  lemma {:induction false} WholeKeysAreListed(
    res: seq<(Bytes, u32)>, coins: seq<Coin>, voting: Bytes, end: nat, body: TxBody, key: Bytes)
    requires IsResult(res, coins, voting, end, body) && body.voteType != ONE_VOTE_TYPE
    requires forall c :: c in coins && c.utxo.valueType == voting ==> |c.utxo.receiverSpendPkey| == PKEY_SIZE
    requires forall o :: o in body.outputs ==> |o.receiverSpendPkey| == PKEY_SIZE
    ensures (exists i :: 0 <= i < |res| && res[i].0 == key) <==>
            && (exists c :: c in coins && c.voteType == 0 && c.utxo.valueType == voting && c.utxo.timestamp < end
                  && c.utxo.receiverSpendPkey == key)
            && (forall o :: o in body.outputs ==> o.receiverSpendPkey != key)
    ensures forall i :: 0 <= i < |res| && res[i].0 == key ==>
              res[i].1 == ReceivedBy(coins, voting, end, key) % TWO_TO_THE_32
  {
    ResultListsVotes(res, coins, voting, end, body);
    forall c | c in coins && c.utxo.valueType == voting
      ensures CopiedTo(c.utxo.receiverSpendPkey, PKEY_SIZE, key) <==> c.utxo.receiverSpendPkey == key
    {
      CopiedWhole(c.utxo.receiverSpendPkey, key);
    }
    forall o | o in body.outputs
      ensures CopiedTo(o.receiverSpendPkey, PKEY_SIZE, key) <==> o.receiverSpendPkey == key
    {
      CopiedWhole(o.receiverSpendPkey, key);
    }
    WholeKeysReceive(coins, voting, end, key);
    if exists c :: c in coins && c.voteType == 0 && c.utxo.valueType == voting && c.utxo.timestamp < end
         && c.utxo.receiverSpendPkey == key {
      var c :| c in coins && c.voteType == 0 && c.utxo.valueType == voting && c.utxo.timestamp < end
        && c.utxo.receiverSpendPkey == key;
      assert VoteFor(c, voting, end, key);
    }
    assert IsCandidate(coins, voting, end, body, key) <==>
      && (exists c :: c in coins && c.voteType == 0 && c.utxo.valueType == voting && c.utxo.timestamp < end
            && c.utxo.receiverSpendPkey == key)
      && (forall o :: o in body.outputs ==> o.receiverSpendPkey != key);
  }

  /**
   The tally. An unknown hash makes the code dereference nil. The last loop also follows hash links,
   deleting the same keys again each time round, and where that never ends there is no answer.
   */
  method OnGetVoteResult(db: Database, request: Option<Bytes>) returns (answer: VoteAnswer)
    requires db.Valid()
    ensures request.None? || |request.value| != HASH_SIZE ==> answer == Refused(CodeInvalidDataLen)
    ensures request.Some? && |request.value| == HASH_SIZE ==>
              match FindTx(db.ledger.txs, request.value)
              case None => answer == Crashed
              case Some(rec) =>
                match StoredBody(rec)
                case None => answer == Refused(CodeParseErr)
                case Some(body) =>
                  if NeverEnds(db.ledger.txs, request.value) then answer == Endless
                  else
                    && answer.VoteResult? && rec.height < |db.ledger.blocks|
                    && IsResult(
                         answer.res, db.ledger.coins, request.value,
                         EndTime(TimeOf(db.ledger, rec), body.duration), body)
                    && ListsVotes(
                         answer.res, db.ledger.coins, request.value,
                         EndTime(TimeOf(db.ledger, rec), body.duration), body)
  {
    if request.None? || |request.value| != HASH_SIZE {
      return Refused(CodeInvalidDataLen);
    }
    var voting := request.value;
    var t, timeStart := db.GetTxAndTimeByHash(voting);
    if t.None? {
      return Crashed;
    }
    var parsed := DecodeBody(t.value.txBody);
    if parsed.None? {
      return Refused(CodeParseErr);
    }
    var body := parsed.value;
    var endTime := EndTime(timeStart, body.duration);
    var utxos := db.GetUTXOS(ByTypeValue(voting));
    var counts := CountVotes(utxos, voting, endTime, body.voteType);
    var ends := LinksEnd(db, voting);
    if !ends {
      return Endless;
    }
    var result := RemoveVoters(db, counts, body, voting);
    var res := ListEntries(result);
    ListedResult(res, counts, db.ledger.coins, voting, endTime, body);
    ResultListsVotes(res, db.ledger.coins, voting, endTime, body);
    return VoteResult(res);
  }

  /**
   The outer loop of the second part: delete the voters, follow the hash link, until there is none.
   It has no bound of its own, and goes on for ever if following links never ends.
   */
  method RemoveVoters(db: Database, counts: map<Bytes, u32>, body: TxBody, hash: Bytes)
    returns (result: map<Bytes, u32>)
    requires db.Valid() && !NeverEnds(db.ledger.txs, hash)
    ensures result == counts - Participants(body)
  {
    ghost var txs := db.ledger.txs;
    ghost var k: nat :| LinkLength(txs, hash, k) != k;
    result := counts;
    var t := hash;
    while true
      invariant LinkLength(txs, t, k) < k
      invariant result - Participants(body) == counts - Participants(body)
      decreases k
    {
      result := RemoveParticipants(result, body);
      var next := db.GetTxByHashLink(t);
      if next.None? {
        return;
      }
      t := next.value.hash;
      k := k - 1;
    }
  }

  /** The links followed so far, and those that can still be followed from t, make up all of them. */
  ghost predicate LinksLeft(txs: seq<TxRecord>, hash: Bytes, t: Bytes, left: nat) {
    left <= |txs| + 1 && LinkLength(txs, hash, |txs| + 1) == (|txs| + 1 - left) + LinkLength(txs, t, left)
  }

  lemma {:induction false} LinkFollowed(txs: seq<TxRecord>, hash: Bytes, t: Bytes, left: nat)
    requires LinksLeft(txs, hash, t, left) && left > 0
    ensures FindLink(txs, t) == None ==> !NeverEnds(txs, hash)
    ensures FindLink(txs, t).Some? ==> LinksLeft(txs, hash, FindLink(txs, t).value.hash, left - 1)
  {
    NeverEndsExactly(txs, hash);
  }

  lemma {:induction false} NoneLeft(txs: seq<TxRecord>, hash: Bytes, t: Bytes)
    requires LinksLeft(txs, hash, t, 0)
    ensures NeverEnds(txs, hash)
  {
    NeverEndsExactly(txs, hash);
  }

  /** Not in the source: tells whether the loop of RemoveVoters would end, where the code just does not answer. */
  method LinksEnd(db: Database, hash: Bytes) returns (ends: bool)
    requires db.Valid()
    ensures ends == !NeverEnds(db.ledger.txs, hash)
  {
    LinksStart(db, hash);
    ghost var txs := db.ledger.txs;
    var t, left := hash, |db.txs| + 1;
    while left > 0
      invariant left >= 0 && LinksLeft(txs, hash, t, left)
    {
      var next := db.GetTxByHashLink(t);
      LinkFollowed(txs, hash, t, left);
      if next.None? {
        return true;
      }
      t, left := next.value.hash, left - 1;
    }
    NoneLeft(txs, hash, t);
    return false;
  }

  lemma {:induction false} LinksStart(db: Database, hash: Bytes)
    requires db.Valid()
    ensures LinksLeft(db.ledger.txs, hash, hash, |db.txs| + 1)
  {}
}
