/** The hash links that the tally follows: when following them never ends. */
module HashLinks {
  import opened Types
  import opened LedgerSpec

  /** How many hash links, at most `limit`, can be followed from a transaction. */
  function LinkLength(txs: seq<TxRecord>, hash: Bytes, limit: nat): (n: nat)
    ensures n <= limit
    decreases limit
  {
    if limit == 0 then 0
    else
      match FindLink(txs, hash)
      case None => 0
      case Some(rec) => LinkLength(txs, rec.hash, limit - 1) + 1
  }

  /** However many links have been followed, there is one more to follow. */
  ghost predicate NeverEnds(txs: seq<TxRecord>, hash: Bytes) {
    forall k: nat :: LinkLength(txs, hash, k) == k
  }

  lemma {:induction false} LongerIsLong(txs: seq<TxRecord>, hash: Bytes, k: nat, m: nat)
    requires m <= k && LinkLength(txs, hash, k) == k
    ensures LinkLength(txs, hash, m) == m
    decreases m
  {
    if m > 0 {
      var j := m - 1;
      LongerIsLong(txs, FindLink(txs, hash).value.hash, k - 1, j);
    }
  }

  // Among finitely many stored hashes, those with ever longer ways on become fewer until they stay the same.

  ghost function StoredHashes(txs: seq<TxRecord>): (hashes: set<Bytes>)
    ensures |hashes| <= |txs|
    ensures forall t :: t in txs ==> t.hash in hashes
  {
    if txs == [] then {}
    else
      var n := |txs| - 1;
      assert txs == txs[..n] + [txs[n]];
      StoredHashes(txs[..n]) + {txs[n].hash}
  }

  /** The stored hashes from which k links can be followed. */
  ghost function WithLinks(txs: seq<TxRecord>, k: nat): set<Bytes> {
    set h | h in StoredHashes(txs) && LinkLength(txs, h, k) == k
  }

  lemma {:induction false} FewerWithMore(txs: seq<TxRecord>, k: nat)
    ensures WithLinks(txs, k + 1) <= WithLinks(txs, k)
  {
    forall h | h in WithLinks(txs, k + 1) ensures h in WithLinks(txs, k) {
      LongerIsLong(txs, h, k + 1, k);
    }
  }

  lemma {:induction false} NextHasLinks(txs: seq<TxRecord>, hash: Bytes, k: nat)
    requires LinkLength(txs, hash, k + 1) == k + 1
    ensures FindLink(txs, hash).Some? && FindLink(txs, hash).value.hash in WithLinks(txs, k)
  {
    FindLinkSound(txs, hash);
  }

  /** Once the same for k and k + 1, the same for ever. */
  lemma {:induction false} StaysTheSame(txs: seq<TxRecord>, k: nat, m: nat)
    requires k <= m && WithLinks(txs, k) == WithLinks(txs, k + 1)
    ensures WithLinks(txs, m) == WithLinks(txs, m + 1)
    decreases m
  {
    if k < m {
      var j := m - 1;
      StaysTheSame(txs, k, j);
      FewerWithMore(txs, m);
      forall h | h in WithLinks(txs, m) ensures h in WithLinks(txs, m + 1) {
        NextHasLinks(txs, h, j);
      }
    }
  }

  lemma {:induction false} ShrinksOrStays(txs: seq<TxRecord>, k: nat)
    ensures |WithLinks(txs, k)| + k <= |txs| || WithLinks(txs, k) == WithLinks(txs, k + 1)
  {
    if k == 0 {
      assert WithLinks(txs, 0) == StoredHashes(txs);
    } else {
      var j := k - 1;
      ShrinksOrStays(txs, j);
      FewerWithMore(txs, j);
      if WithLinks(txs, j) == WithLinks(txs, k) {
        StaysTheSame(txs, j, k);
      } else {
        ProperSubsetSize(WithLinks(txs, k), WithLinks(txs, j));
      }
    }
  }

  lemma {:induction false} ProperSubsetSize(part: set<Bytes>, whole: set<Bytes>)
    requires part < whole
    ensures |part| < |whole|
  {
    assert whole == part + (whole - part);
    assert whole - part != {};
  }

  lemma {:induction false} SameSince(txs: seq<TxRecord>, k: nat, m: nat)
    requires k <= m && WithLinks(txs, k) == WithLinks(txs, k + 1)
    ensures WithLinks(txs, m) == WithLinks(txs, k)
    decreases m
  {
    if k < m {
      var j := m - 1;
      SameSince(txs, k, j);
      StaysTheSame(txs, k, j);
    }
  }

  /** A stored hash from which as many links can be followed as there are transactions lies on a way without end. */
  lemma {:induction false} ManyLinksNeverEnd(txs: seq<TxRecord>, hash: Bytes, m: nat)
    requires hash in WithLinks(txs, |txs|)
    ensures LinkLength(txs, hash, m) == m
  {
    ShrinksOrStays(txs, |txs|);
    assert |WithLinks(txs, |txs|)| > 0;
    if m <= |txs| {
      LongerIsLong(txs, hash, |txs|, m);
    } else {
      SameSince(txs, |txs|, m);
    }
  }

  /** Following links never ends exactly when more of them can be followed than there are transactions. */
  lemma {:induction false} NeverEndsExactly(txs: seq<TxRecord>, hash: Bytes)
    ensures NeverEnds(txs, hash) <==> LinkLength(txs, hash, |txs| + 1) == |txs| + 1
  {
    if LinkLength(txs, hash, |txs| + 1) == |txs| + 1 {
      NextHasLinks(txs, hash, |txs|);
      forall k: nat ensures LinkLength(txs, hash, k) == k {
        if k > 0 {
          ManyLinksNeverEnd(txs, FindLink(txs, hash).value.hash, k - 1);
        }
      }
    }
  }

  /** Each hash of the way is that of the first stored transaction that links to the one before. */
  ghost predicate FollowsLinks(txs: seq<TxRecord>, way: seq<Bytes>) {
    forall i :: 0 <= i < |way| - 1 ==> FindLink(txs, way[i]).Some? && FindLink(txs, way[i]).value.hash == way[i + 1]
  }

  lemma {:induction false} LongWay(txs: seq<TxRecord>, hash: Bytes, k: nat) returns (way: seq<Bytes>)
    requires LinkLength(txs, hash, k) == k
    ensures |way| == k + 1 && way[0] == hash && FollowsLinks(txs, way)
    decreases k
  {
    if k == 0 {
      way := [hash];
    } else {
      var rest := LongWay(txs, FindLink(txs, hash).value.hash, k - 1);
      way := [hash] + rest;
    }
  }

  lemma {:induction false} WayIsLong(txs: seq<TxRecord>, way: seq<Bytes>)
    requires way != [] && FollowsLinks(txs, way)
    ensures LinkLength(txs, way[0], |way| - 1) == |way| - 1
  {
    if |way| > 1 {
      WayIsLong(txs, way[1..]);
    }
  }

  /** Following links never ends exactly where some way along them is longer than there are transactions. */
  lemma {:induction false} NeverEndsOnWay(txs: seq<TxRecord>, hash: Bytes)
    ensures NeverEnds(txs, hash) <==>
            exists way: seq<Bytes> :: |way| == |txs| + 2 && way[0] == hash && FollowsLinks(txs, way)
  {
    NeverEndsExactly(txs, hash);
    if NeverEnds(txs, hash) {
      var way := LongWay(txs, hash, |txs| + 1);
    }
    forall way: seq<Bytes> | |way| == |txs| + 2 && way[0] == hash && FollowsLinks(txs, way)
      ensures NeverEnds(txs, hash)
    {
      WayIsLong(txs, way);
    }
  }
}
