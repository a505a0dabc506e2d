/** What the queries answer, stated on the rows of the ledger and on the committed blocks themselves. */
module Reads {
  import opened Types
  import opened Crypto
  import opened LedgerSpec
  import opened WellFormed
  import opened Sound
  import opened Loading
  import opened Payments

  // The unspent outputs of a chain.

  /** The coin is an output of transaction i of the block. */
  ghost predicate IsOutput(b: Block, i: nat, c: Coin)
    requires i < |b.transactions|
  {
    var tx, body, k := b.transactions[i], Body(b.transactions[i]), c.utxo.index;
    && k < |body.outputs|
    && c == Coin(
              Utxo(
                tx.hash, if body.voteType != 0 then tx.hash else body.valueType, k, body.outputs[k].value,
                body.outputs[k].receiverSpendPkey, body.outputs[k].receiverScanPkey, b.header.timestamp),
              body.voteType)
  }

  ghost predicate MadeInBlock(b: Block, c: Coin) {
    exists i :: 0 <= i < |b.transactions| && IsOutput(b, i, c)
  }

  ghost predicate NamedInBlock(b: Block, p: Input) {
    exists i :: 0 <= i < |b.transactions| && p in Body(b.transactions[i]).inputs
  }

  ghost predicate Made(chain: seq<Block>, c: Coin) {
    exists n :: 0 <= n < |chain| && MadeInBlock(chain[n], c)
  }

  ghost predicate NamedInChain(chain: seq<Block>, p: Input) {
    exists n :: 0 <= n < |chain| && NamedInBlock(chain[n], p)
  }

  lemma {:induction false} BlockMakes(l: Ledger, b: Block, c: Coin)
    ensures c in NewCoins(l, b, |b.transactions|) <==> MadeInBlock(b, c)
  {
    NewCoinsMember(l, b, |b.transactions|, c);
    forall i | 0 <= i < |b.transactions| ensures c in MadeBy(l, b, i) <==> IsOutput(b, i, c) {
      CoinsOfMember(WholeRecord(b, |l.blocks|, i), b.header.timestamp, |Body(b.transactions[i]).outputs|, c);
    }
  }

  lemma {:induction false} BlockNames(b: Block, n: nat, p: Input)
    requires n <= |b.transactions|
    ensures p in BlockInputs(b, n) <==> exists i :: 0 <= i < n && p in Body(b.transactions[i]).inputs
  {
    if n > 0 {
      var m := n - 1;
      BlockNames(b, m, p);
    }
  }

  /** After a block: the coins of before that it does not name, and its own outputs. */
  lemma {:induction false} UnspentAfterBlock(l: Ledger, b: Block, c: Coin)
    requires WF(l) && SoundBlock(l, b)
    ensures c in ApplyBlock(l, b).coins <==> (c in l.coins && !NamedInBlock(b, Point(c))) || MadeInBlock(b, c)
  {
    var n := |b.transactions|;
    AppliedCoins(l, b, n);
    RemainingMember(l.coins, BlockInputs(b, n), c);
    BlockNames(b, n, Point(c));
    BlockMakes(l, b, c);
  }

  /** An input of a chain names a stored transaction. */
  lemma {:induction false} NamedIsStored(chain: seq<Block>, p: Input)
    requires SoundChain(chain) && NamedInChain(chain, p)
    ensures FindTx(Replay(chain).txs, p.prevTxHash).Some?
  {
    var n :| 0 <= n < |chain| && NamedInBlock(chain[n], p);
    var i :| 0 <= i < |chain[n].transactions| && p in Body(chain[n].transactions[i]).inputs;
    var k :| 0 <= k < |Body(chain[n].transactions[i]).inputs| && Body(chain[n].transactions[i]).inputs[k] == p;
    SpentForGood(chain, n, i, k);
  }

  lemma {:induction false} NamedIsStoredBefore(l: Ledger, b: Block, p: Input)
    requires WF(l) && SoundBlock(l, b) && NamedInBlock(b, p)
    ensures FindTx(l.txs, p.prevTxHash).Some?
  {
    var i :| 0 <= i < |b.transactions| && p in Body(b.transactions[i]).inputs;
    var k :| 0 <= k < |Body(b.transactions[i]).inputs| && Body(b.transactions[i]).inputs[k] == p;
    SoundInput(l, b, i, k);
  }

  /** No input before or in a block names an output of it. */
  lemma {:induction false} FreshIsUnnamed(rest: seq<Block>, b: Block, c: Coin)
    requires SoundChain(rest) && WF(Replay(rest)) && SoundBlock(Replay(rest), b) && MadeInBlock(b, c)
    ensures !NamedInChain(rest, Point(c)) && !NamedInBlock(b, Point(c))
  {
    var i :| 0 <= i < |b.transactions| && IsOutput(b, i, c);
    BlockHashFresh(Replay(rest), b, i);
    if NamedInChain(rest, Point(c)) {
      NamedIsStored(rest, Point(c));
    }
    if NamedInBlock(b, Point(c)) {
      NamedIsStoredBefore(Replay(rest), b, Point(c));
    }
  }

  lemma {:induction false} MadeNext(chain: seq<Block>, c: Coin)
    requires chain != []
    ensures var rest, last := chain[..|chain| - 1], chain[|chain| - 1];
      && (Made(chain, c) <==> Made(rest, c) || MadeInBlock(last, c))
      && (NamedInChain(chain, Point(c)) <==> NamedInChain(rest, Point(c)) || NamedInBlock(last, Point(c)))
  {
    assert chain == chain[..|chain| - 1] + [chain[|chain| - 1]];
  }

  /** The coins of a run are the outputs of its blocks that none of its inputs names. */
  lemma {:induction false} UnspentExactly(chain: seq<Block>, c: Coin)
    requires SoundChain(chain)
    ensures c in Replay(chain).coins <==> Made(chain, c) && !NamedInChain(chain, Point(c))
  {
    if chain != [] {
      var n := |chain| - 1;
      UnspentExactly(chain[..n], c);
      LastBlock(chain);
      UnspentAfterBlock(Replay(chain[..n]), chain[n], c);
      MadeNext(chain, c);
      if MadeInBlock(chain[n], c) {
        FreshIsUnnamed(chain[..n], chain[n], c);
      }
    }
  }

  /** What the three queries ask for: a receiver's keys, a transaction's outputs, the votes of a type. */
  predicate AskedFor(q: Query, c: Coin) {
    match q
    case ByPkey(pkey) => pkey in {c.utxo.receiverSpendPkey, c.utxo.receiverScanPkey}
    case ByTxHash(txHash) => txHash == c.utxo.txHash
    case ByTypeValue(typeValue) => typeValue == c.utxo.valueType && c.voteType == 0
  }

  /** A query answers with the outputs of the chain that it asks for and that no input names. */
  lemma {:induction false} AnswerExactly(chain: seq<Block>, q: Query, u: Utxo)
    requires SoundChain(chain)
    ensures u in Answer(Replay(chain).coins, q) <==>
            exists c: Coin :: c.utxo == u && Made(chain, c) && !NamedInChain(chain, Point(c)) && AskedFor(q, c)
  {
    AnswerMember(Replay(chain).coins, q, u);
    forall c: Coin ensures c in Replay(chain).coins <==> Made(chain, c) && !NamedInChain(chain, Point(c)) {
      UnspentExactly(chain, c);
    }
  }

  // Answers of several rows: which, and in which order.

  /** The UTXOs of the coins that the query asks for, in the order of the ledger. */
  lemma {:induction false} AnswerSelects(coins: seq<Coin>, q: Query) returns (picks: seq<nat>)
    ensures Positions(picks, |coins|) && |Answer(coins, q)| == |picks|
    ensures forall k :: 0 <= k < |picks| ==> Answer(coins, q)[k] == coins[picks[k]].utxo
    ensures forall i :: 0 <= i < |coins| ==> (i in picks <==> AskedFor(q, coins[i]))
  {
    picks := [];
    if coins != [] {
      var n := |coins| - 1;
      picks := AnswerSelects(coins[..n], q);
      if Selected(q, coins[n]) {
        picks := picks + [n];
      }
    }
  }

  /** What a stored transaction is read back as. */
  predicate ReadAs(rec: TxRecord, tx: Transaction) {
    tx.txBody == EncodeBody(rec.body) && tx.hash == rec.hash && tx.sig == rec.sig
  }

  /** The answer holds the transactions at these positions. */
  ghost predicate ReadsPicked(txs: seq<TxRecord>, picks: seq<nat>, answer: seq<Transaction>) {
    && Positions(picks, |txs|) && |answer| == |picks|
    && forall k :: 0 <= k < |picks| ==> ReadAs(txs[picks[k]], answer[k])
  }

  lemma {:induction false} ReadsPickedNext(txs: seq<TxRecord>, picks: seq<nat>, answer: seq<Transaction>)
    requires txs != [] && ReadsPicked(txs[..|txs| - 1], picks, answer)
    ensures ReadsPicked(txs, picks, answer)
    ensures ReadsPicked(txs, picks + [|txs| - 1], answer + [StoredTx(txs[|txs| - 1])])
  {}

  /** Picked are the transactions with these hashes. */
  ghost predicate PicksHashes(txs: seq<TxRecord>, picks: seq<nat>, hashes: seq<Bytes>) {
    forall i :: 0 <= i < |txs| ==> (i in picks <==> txs[i].hash in hashes)
  }

  lemma {:induction false} PicksHashesNext(txs: seq<TxRecord>, picks: seq<nat>, hashes: seq<Bytes>)
    requires txs != [] && Positions(picks, |txs| - 1) && PicksHashes(txs[..|txs| - 1], picks, hashes)
    ensures txs[|txs| - 1].hash in hashes ==> PicksHashes(txs, picks + [|txs| - 1], hashes)
    ensures txs[|txs| - 1].hash !in hashes ==> PicksHashes(txs, picks, hashes)
  {
    var n := |txs| - 1;
    forall i | 0 <= i < n ensures i in picks <==> txs[i].hash in hashes {
      assert txs[..n][i] == txs[i];
    }
    assert n !in picks;
  }

  /** The transactions with these hashes, in save order. */
  lemma {:induction false} TxsSelected(txs: seq<TxRecord>, hashes: seq<Bytes>) returns (picks: seq<nat>)
    ensures ReadsPicked(txs, picks, TxsAmong(txs, hashes)) && PicksHashes(txs, picks, hashes)
  {
    picks := [];
    if txs != [] {
      var n := |txs| - 1;
      picks := TxsSelected(txs[..n], hashes);
      ReadsPickedNext(txs, picks, TxsAmong(txs[..n], hashes));
      PicksHashesNext(txs, picks, hashes);
      if txs[n].hash in hashes {
        picks := picks + [n];
      }
    }
  }

  /** Picked are the transactions of the block at this height. */
  ghost predicate PicksHeight(txs: seq<TxRecord>, picks: seq<nat>, height: nat) {
    forall i :: 0 <= i < |txs| ==> (i in picks <==> txs[i].height == height)
  }

  lemma {:induction false} PicksHeightNext(txs: seq<TxRecord>, picks: seq<nat>, height: nat)
    requires txs != [] && Positions(picks, |txs| - 1) && PicksHeight(txs[..|txs| - 1], picks, height)
    ensures txs[|txs| - 1].height == height ==> PicksHeight(txs, picks + [|txs| - 1], height)
    ensures txs[|txs| - 1].height != height ==> PicksHeight(txs, picks, height)
  {
    var n := |txs| - 1;
    forall i | 0 <= i < n ensures i in picks <==> txs[i].height == height {
      assert txs[..n][i] == txs[i];
    }
    assert n !in picks;
  }

  /** The transactions of one block, in save order. */
  lemma {:induction false} TxsOfBlock(txs: seq<TxRecord>, height: nat) returns (picks: seq<nat>)
    ensures ReadsPicked(txs, picks, TxsAt(txs, height)) && PicksHeight(txs, picks, height)
  {
    picks := [];
    if txs != [] {
      var n := |txs| - 1;
      picks := TxsOfBlock(txs[..n], height);
      ReadsPickedNext(txs, picks, TxsAt(txs[..n], height));
      PicksHeightNext(txs, picks, height);
      if txs[n].height == height {
        picks := picks + [n];
      }
    }
  }

  /** The blocks with these hashes, in save order, each with its own header. */
  lemma {:induction false} BlocksSelected(l: Ledger, hashes: seq<Bytes>, n: nat) returns (picks: seq<nat>)
    requires n <= |l.blocks|
    ensures Positions(picks, n) && |BlocksAmong(l, hashes, n)| == |picks|
    ensures forall k :: 0 <= k < |picks| ==>
              var b := BlocksAmong(l, hashes, n)[k];
              && b.hash == l.blocks[picks[k]].hash && b.header == l.blocks[picks[k]].header
              && b.transactions == TxsAt(l.txs, picks[k])
    ensures forall i :: 0 <= i < n ==> (i in picks <==> l.blocks[i].hash in hashes)
  {
    picks := [];
    if n > 0 {
      var m := n - 1;
      picks := BlocksSelected(l, hashes, m);
      if l.blocks[m].hash in hashes {
        picks := picks + [m];
      }
    }
  }

  /** The transaction that a link finds is the first stored one with it. */
  lemma {:induction false} FirstLinked(txs: seq<TxRecord>, link: Bytes)
    ensures FindLink(txs, link) == None <==> forall i :: 0 <= i < |txs| ==> txs[i].body.hashLink != link
    ensures FindLink(txs, link).Some? ==>
              exists i :: 0 <= i < |txs| && FindLink(txs, link) == Some(txs[i]) && txs[i].body.hashLink == link
                && forall j :: 0 <= j < i ==> txs[j].body.hashLink != link
  {
    if txs != [] {
      var n := |txs| - 1;
      FirstLinked(txs[..n], link);
      if FindLink(txs[..n], link).Some? {
        var i :| 0 <= i < n && FindLink(txs[..n], link) == Some(txs[..n][i]) && txs[..n][i].body.hashLink == link
          && forall j :: 0 <= j < i ==> txs[..n][j].body.hashLink != link;
        forall j | 0 <= j < i ensures txs[j].body.hashLink != link {
          assert txs[..n][j] == txs[j];
        }
        assert FindLink(txs, link) == Some(txs[i]);
      } else {
        forall j | 0 <= j < n ensures txs[j].body.hashLink != link {
          assert txs[..n][j] == txs[j];
        }
      }
    }
  }

  /** A committed transaction is found under its hash, as its body, hash and signature say. */
  lemma {:induction false} FoundInChain(chain: seq<Block>, n: nat, i: nat)
    requires SoundChain(chain) && n < |chain| && i < |chain[n].transactions|
    ensures var tx := chain[n].transactions[i];
      var found := FindTx(Replay(chain).txs, tx.hash);
      && found.Some?
      && StoredTx(found.value) == Transaction(EncodeBody(Body(tx)), tx.hash, tx.sig)
      && found.value.height == n
  {
    ChainIsRecorded(chain, n, i);
  }
}
