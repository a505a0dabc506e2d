/**
 The pure ledger: what a chain of saved blocks means, as a fold that adds outputs and removes spent
 ones. The tables of the database refine it, the executor judges against it.
 */
module LedgerSpec {
  import opened Types
  import opened Crypto

  /** A transaction as the tables hold it, with its block's height and its place in the block. */
  datatype TxRecord = TxRecord(hash: Bytes, body: TxBody, sig: Bytes, height: nat, index: nat)

  datatype BlockRecord = BlockRecord(hash: Bytes, header: BlockHeader)

  /** An unspent output as the UTXO queries give it, and the vote type of its transaction. */
  datatype Coin = Coin(utxo: Utxo, voteType: u32)

  datatype Ledger = Ledger(blocks: seq<BlockRecord>, txs: seq<TxRecord>, coins: seq<Coin>)

  const GENESIS := Ledger([], [], [])

  function TipHash(l: Ledger): Bytes {
    if l.blocks == [] then [] else l.blocks[|l.blocks| - 1].hash
  }

  // Coins.

  /** How an input names this coin. */
  function Point(c: Coin): Input {
    Input(c.utxo.txHash, c.utxo.index)
  }

  /** The coins that none of the inputs names. */
  function Remaining(coins: seq<Coin>, spent: seq<Input>): seq<Coin> {
    if coins == [] then []
    else
      var kept := Remaining(coins[..|coins| - 1], spent);
      if Point(coins[|coins| - 1]) in spent then kept else kept + [coins[|coins| - 1]]
  }

  function FindCoin(coins: seq<Coin>, p: Input): Option<Coin> {
    if coins == [] then None
    else
      var last := coins[|coins| - 1];
      if Point(last) == p then Some(last) else FindCoin(coins[..|coins| - 1], p)
  }

  /** No two coins have one name. */
  ghost predicate Distinct(coins: seq<Coin>) {
    coins == [] ||
    (Distinct(coins[..|coins| - 1]) && FindCoin(coins[..|coins| - 1], Point(coins[|coins| - 1])) == None)
  }

  /** The outputs of a create-vote transaction are votes of that voting. */
  function OutputType(hash: Bytes, body: TxBody): Bytes {
    if body.voteType != 0 then hash else body.valueType
  }

  function CoinAt(rec: TxRecord, timestamp: u64, k: nat): Coin
    requires k < |rec.body.outputs|
  {
    var out := rec.body.outputs[k];
    Coin(
      Utxo(
        rec.hash, OutputType(rec.hash, rec.body), k, out.value,
        out.receiverSpendPkey, out.receiverScanPkey, timestamp),
      rec.body.voteType)
  }

  /** The coins that the first n outputs of a transaction make. */
  function CoinsOf(rec: TxRecord, timestamp: u64, n: nat): seq<Coin>
    requires n <= |rec.body.outputs|
  {
    if n == 0 then [] else CoinsOf(rec, timestamp, n - 1) + [CoinAt(rec, timestamp, n - 1)]
  }

  // Transactions.

  function FindTx(txs: seq<TxRecord>, hash: Bytes): Option<TxRecord> {
    if txs == [] then None
    else
      var last := txs[|txs| - 1];
      if last.hash == hash then Some(last) else FindTx(txs[..|txs| - 1], hash)
  }

  /** The first stored transaction with this hash link. */
  function FindLink(txs: seq<TxRecord>, link: Bytes): Option<TxRecord> {
    if txs == [] then None
    else
      var earlier := FindLink(txs[..|txs| - 1], link);
      if earlier.Some? then earlier
      else if txs[|txs| - 1].body.hashLink == link then Some(txs[|txs| - 1]) else None
  }

  function FindBlock(blocks: seq<BlockRecord>, hash: Bytes): Option<nat> {
    if blocks == [] then None
    else if blocks[|blocks| - 1].hash == hash then Some(|blocks| - 1)
    else FindBlock(blocks[..|blocks| - 1], hash)
  }

  // The fold.

  function TimeOf(l: Ledger, rec: TxRecord): u64
    requires rec.height < |l.blocks|
  {
    l.blocks[rec.height].header.timestamp
  }

  function ApplyTx(l: Ledger, rec: TxRecord): Ledger
    requires rec.height < |l.blocks|
  {
    l.(txs := l.txs + [rec],
       coins := Remaining(l.coins, rec.body.inputs) + CoinsOf(rec, TimeOf(l, rec), |rec.body.outputs|))
  }

  /**
   The inputs that get a row: those naming a transaction that has one, be it the spending transaction
   itself. The insert of any other input selects no row, adds none, and is no error.
   */
  function Resolved(txs: seq<TxRecord>, own: Bytes, inputs: seq<Input>): seq<Input> {
    if inputs == [] then []
    else
      var last := inputs[|inputs| - 1];
      var rest := Resolved(txs, own, inputs[..|inputs| - 1]);
      if last.prevTxHash == own || FindTx(txs, last.prevTxHash).Some? then rest + [last] else rest
  }

  /** Transaction i of the block, stored after the transactions `txs`. */
  function RecordOf(txs: seq<TxRecord>, b: Block, height: nat, i: nat): TxRecord
    requires i < |b.transactions|
  {
    var tx := b.transactions[i];
    TxRecord(tx.hash, Body(tx).(inputs := Resolved(txs, tx.hash, Body(tx).inputs)), tx.sig, height, i)
  }

  function AddBlock(l: Ledger, b: Block): Ledger {
    l.(blocks := l.blocks + [BlockRecord(b.hash, b.header)])
  }

  /** The ledger after the block's first n transactions. */
  function Applied(l: Ledger, b: Block, n: nat): (r: Ledger)
    requires n <= |b.transactions|
    ensures r.blocks == AddBlock(l, b).blocks
  {
    if n == 0 then AddBlock(l, b)
    else
      var before := Applied(l, b, n - 1);
      ApplyTx(before, RecordOf(before.txs, b, |l.blocks|, n - 1))
  }

  function ApplyBlock(l: Ledger, b: Block): Ledger {
    Applied(l, b, |b.transactions|)
  }

  // When a block can be saved.

  /** The integer columns are signed 32-bit, the timestamp column signed 64-bit. */
  predicate BodyInRange(body: TxBody) {
    && body.voteType < TWO_TO_THE_31
    && body.duration < TWO_TO_THE_31
    && (forall i :: 0 <= i < |body.inputs| ==> body.inputs[i].outputIndex < TWO_TO_THE_31)
    && (forall i :: 0 <= i < |body.outputs| ==> body.outputs[i].value < TWO_TO_THE_31)
  }

  predicate Storable(tx: Transaction) {
    DecodeBody(tx.txBody).Some? && BodyInRange(Body(tx))
  }

  /** The only block a new block may follow is the last one. */
  predicate ExtendsTip(l: Ledger, prevHash: Bytes) {
    prevHash == TipHash(l) && (l.blocks != [] ==> prevHash != [])
  }

  /** The block's row can be inserted: column range, unique hash, chain trigger. */
  predicate CanAddBlock(l: Ledger, b: Block) {
    && ExtendsTip(l, b.header.prevBlockHash)
    && FindBlock(l.blocks, b.hash) == None
    && b.header.timestamp < TWO_TO_THE_63
  }

  /** The first n transactions can be inserted: they parse, fit the columns and have new hashes. */
  predicate CanApply(l: Ledger, b: Block, n: nat)
    requires n <= |b.transactions|
  {
    n == 0 ||
    (&& CanApply(l, b, n - 1)
     && Storable(b.transactions[n - 1])
     && FindTx(Applied(l, b, n - 1).txs, b.transactions[n - 1].hash) == None)
  }

  predicate CanSave(l: Ledger, b: Block) {
    CanAddBlock(l, b) && CanApply(l, b, |b.transactions|)
  }

  function Replay(chain: seq<Block>): Ledger {
    if chain == [] then GENESIS else ApplyBlock(Replay(chain[..|chain| - 1]), chain[|chain| - 1])
  }

  /** A sequence of blocks that were saved one after the other into the empty database. */
  ghost predicate SavedChain(chain: seq<Block>) {
    chain == [] ||
    (SavedChain(chain[..|chain| - 1]) && CanSave(Replay(chain[..|chain| - 1]), chain[|chain| - 1]))
  }

  // Lemmas about lists of coins and records.

  lemma {:induction false} RemainingAppend(a: seq<Coin>, b: seq<Coin>, spent: seq<Input>)
    ensures Remaining(a + b, spent) == Remaining(a, spent) + Remaining(b, spent)
    decreases |b|
  {
    if b == [] {
      assert a + b == a;
    } else {
      assert (a + b)[..|a + b| - 1] == a + b[..|b| - 1];
      RemainingAppend(a, b[..|b| - 1], spent);
    }
  }

  lemma {:induction false} RemainingTwice(coins: seq<Coin>, xs: seq<Input>, ys: seq<Input>)
    ensures Remaining(Remaining(coins, xs), ys) == Remaining(coins, xs + ys)
  {
    if coins != [] {
      var n := |coins| - 1;
      var rest, last := coins[..n], coins[n];
      RemainingTwice(rest, xs, ys);
      if Point(last) in xs {
        assert Remaining(coins, xs) == Remaining(rest, xs);
      } else {
        RemainingAppend(Remaining(rest, xs), [last], ys);
        assert [last][..0] == [];
      }
    }
  }

  lemma {:induction false} RemainingMember(coins: seq<Coin>, spent: seq<Input>, c: Coin)
    ensures c in Remaining(coins, spent) <==> c in coins && Point(c) !in spent
  {
    if coins != [] {
      var n := |coins| - 1;
      RemainingMember(coins[..n], spent, c);
      assert coins == coins[..n] + [coins[n]];
    }
  }

  lemma {:induction false} RemainingFind(coins: seq<Coin>, spent: seq<Input>, p: Input)
    ensures FindCoin(Remaining(coins, spent), p) == if p in spent then None else FindCoin(coins, p)
  {
    if coins != [] {
      var n := |coins| - 1;
      var rest, last := coins[..n], coins[n];
      RemainingFind(rest, spent, p);
      FindAppend(Remaining(rest, spent), [last], p);
    }
  }

  lemma {:induction false} FindAppend(a: seq<Coin>, b: seq<Coin>, p: Input)
    ensures FindCoin(a + b, p) == if FindCoin(b, p).Some? then FindCoin(b, p) else FindCoin(a, p)
    decreases |b|
  {
    if b == [] {
      assert a + b == a;
    } else {
      assert (a + b)[..|a + b| - 1] == a + b[..|b| - 1];
      FindAppend(a, b[..|b| - 1], p);
    }
  }

  lemma {:induction false} FindSound(coins: seq<Coin>, p: Input)
    ensures FindCoin(coins, p).Some? ==> FindCoin(coins, p).value in coins && Point(FindCoin(coins, p).value) == p
    ensures FindCoin(coins, p).None? ==> forall c :: c in coins ==> Point(c) != p
  {
    if coins != [] {
      var n := |coins| - 1;
      FindSound(coins[..n], p);
      assert coins == coins[..n] + [coins[n]];
    }
  }

  lemma {:induction false} FindDistinct(coins: seq<Coin>, c: Coin)
    requires Distinct(coins) && c in coins
    ensures FindCoin(coins, Point(c)) == Some(c)
  {
    var rest, last := coins[..|coins| - 1], coins[|coins| - 1];
    assert coins == rest + [last];
    if c != last {
      FindDistinct(rest, c);
    }
  }

  lemma {:induction false} RemainingDistinct(coins: seq<Coin>, spent: seq<Input>)
    requires Distinct(coins)
    ensures Distinct(Remaining(coins, spent))
  {
    if coins != [] {
      var n := |coins| - 1;
      var rest, last := coins[..n], coins[n];
      RemainingDistinct(rest, spent);
      RemainingFind(rest, spent, Point(last));
      assert (Remaining(rest, spent) + [last])[..|Remaining(rest, spent)|] == Remaining(rest, spent);
    }
  }

  lemma {:induction false} DistinctAppend(a: seq<Coin>, b: seq<Coin>)
    requires Distinct(a) && Distinct(b)
    requires forall c :: c in b ==> FindCoin(a, Point(c)) == None
    ensures Distinct(a + b)
    decreases |b|
  {
    if b == [] {
      assert a + b == a;
    } else {
      var rest, last := b[..|b| - 1], b[|b| - 1];
      assert (a + b)[..|a + b| - 1] == a + rest;
      DistinctAppend(a, rest);
      FindAppend(a, rest, Point(last));
    }
  }

  lemma {:induction false} RemainingUntouched(coins: seq<Coin>, spent: seq<Input>)
    requires forall c :: c in coins ==> Point(c) !in spent
    ensures Remaining(coins, spent) == coins
  {
    if coins != [] {
      var n := |coins| - 1;
      assert coins == coins[..n] + [coins[n]];
      RemainingUntouched(coins[..n], spent);
    }
  }

  lemma {:induction false} CoinsOfMember(rec: TxRecord, timestamp: u64, n: nat, c: Coin)
    requires n <= |rec.body.outputs|
    ensures c in CoinsOf(rec, timestamp, n) <==> c.utxo.index < n && c == CoinAt(rec, timestamp, c.utxo.index)
  {
    if n > 0 {
      var m := n - 1;
      CoinsOfMember(rec, timestamp, m, c);
    }
  }

  lemma {:induction false} CoinsOfDistinct(rec: TxRecord, timestamp: u64, n: nat)
    requires n <= |rec.body.outputs|
    ensures Distinct(CoinsOf(rec, timestamp, n))
  {
    if n > 0 {
      var m := n - 1;
      var rest := CoinsOf(rec, timestamp, m);
      CoinsOfDistinct(rec, timestamp, m);
      var p := Point(CoinAt(rec, timestamp, m));
      FindSound(rest, p);
      if FindCoin(rest, p).Some? {
        CoinsOfMember(rec, timestamp, m, FindCoin(rest, p).value);
      }
      assert (rest + [CoinAt(rec, timestamp, m)])[..|rest|] == rest;
    }
  }

  lemma {:induction false} FindTxSound(txs: seq<TxRecord>, hash: Bytes)
    ensures FindTx(txs, hash).Some? ==> FindTx(txs, hash).value in txs && FindTx(txs, hash).value.hash == hash
    ensures FindTx(txs, hash).None? ==> forall t :: t in txs ==> t.hash != hash
  {
    if txs != [] {
      var n := |txs| - 1;
      FindTxSound(txs[..n], hash);
      assert txs == txs[..n] + [txs[n]];
    }
  }

  lemma {:induction false} FindLinkSound(txs: seq<TxRecord>, link: Bytes)
    ensures FindLink(txs, link).Some? ==>
              FindLink(txs, link).value in txs && FindLink(txs, link).value.body.hashLink == link
    ensures FindLink(txs, link).None? ==> forall t :: t in txs ==> t.body.hashLink != link
  {
    if txs != [] {
      var n := |txs| - 1;
      FindLinkSound(txs[..n], link);
      assert txs == txs[..n] + [txs[n]];
    }
  }

  /** The first transaction with a link stays the first. */
  lemma {:induction false} FindLinkStays(older: seq<TxRecord>, txs: seq<TxRecord>, link: Bytes)
    requires older <= txs && FindLink(older, link).Some?
    ensures FindLink(txs, link) == FindLink(older, link)
  {
    if |older| == |txs| {
      assert older == txs;
    } else {
      var n := |txs| - 1;
      FindLinkStays(older, txs[..n], link);
    }
  }

  lemma {:induction false} FindBlockSound(blocks: seq<BlockRecord>, hash: Bytes)
    ensures var found := FindBlock(blocks, hash);
            found.Some? ==> found.value < |blocks| && blocks[found.value].hash == hash
    ensures FindBlock(blocks, hash).None? ==> forall i :: 0 <= i < |blocks| ==> blocks[i].hash != hash
  {
    if blocks != [] {
      var n := |blocks| - 1;
      FindBlockSound(blocks[..n], hash);
    }
  }
}
