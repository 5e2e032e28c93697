/** What the pieces of the address manager's operations keep. */
module AddrBookProof {
  import opened AddrBook

  lemma EmptyInv(secret: nat)
    ensures Inv(Empty(secret))
  {
    assert Untried(map[]) == {} && TriedKeys(map[]) == {};
  }

  // ---- Holders ----

  lemma HoldersAdd(buckets: seq<set<Key>>, b: nat, k: Key, j: Key)
    requires b < |buckets|
    ensures Holders(buckets[b := buckets[b] + {k}], j)
      == if j == k then Holders(buckets, j) + {b as int} else Holders(buckets, j)
  {
  }

  lemma HoldersDrop(buckets: seq<set<Key>>, b: nat, k: Key, j: Key)
    requires b < |buckets|
    ensures Holders(buckets[b := buckets[b] - {k}], j)
      == if j == k then Holders(buckets, j) - {b as int} else Holders(buckets, j)
  {
  }

  lemma HoldersWithout(buckets: seq<set<Key>>, k: Key, j: Key)
    ensures Holders(Without(buckets, k), j) == if j == k then {} else Holders(buckets, j)
  {
  }

  // ---- Counting ----

  /** How the two key sets change with one entry of the index. */
  lemma KeysAfter(index: map<Key, Known>, k: Key, ka: Known)
    ensures Untried(index[k := ka]) == if ka.tried then Untried(index) - {k} else Untried(index) + {k}
    ensures TriedKeys(index[k := ka]) == if ka.tried then TriedKeys(index) + {k} else TriedKeys(index) - {k}
  {
  }

  lemma KeysWithout(index: map<Key, Known>, k: Key)
    ensures Untried(index - {k}) == Untried(index) - {k}
    ensures TriedKeys(index - {k}) == TriedKeys(index) - {k}
  {
  }

  // ---- Sizes and keys ----

  lemma SizedAfter(buckets: seq<set<Key>>, tried: seq<seq<Key>>, b: nat, bucket: set<Key>)
    requires Sized(buckets, tried) && b < |buckets| && |bucket| <= NEW_BUCKET_SIZE + 1
    ensures Sized(buckets[b := bucket], tried)
  {
  }

  /** What one entry of the index does to the parts of the invariant that look at entries one by one. */
  lemma EntriesAfter(index: map<Key, Known>, k: Key, ka: Known)
    requires Keyed(index) && RefsBounded(index) && KeyOf(ka.na) == k && ka.refs <= NEW_BUCKETS_PER_ADDRESS
    ensures Keyed(index[k := ka]) && RefsBounded(index[k := ka])
    ensures Keyed(index - {k}) && RefsBounded(index - {k})
  {
  }

  /** Changing an entry without its flag changes neither set of keys. */
  lemma FlagKept(index: map<Key, Known>, k: Key, ka: Known)
    requires k in index && ka.tried == index[k].tried
    ensures Untried(index[k := ka]) == Untried(index) && TriedKeys(index[k := ka]) == TriedKeys(index)
  {
  }

  // ---- Operations on one address ----

  lemma AmendInv(bk: Book, adding: set<Key>, k: Key, ka: Known)
    requires InvBut(bk, adding) && k in bk.index && Amends(bk.index[k], ka)
    ensures InvBut(Amend(bk, k, ka), adding)
  {
    FlagKept(bk.index, k, ka);
    hide Listed, Sized, Holders, Untried, TriedKeys;
  }

  lemma LearnReferenced(index: map<Key, Known>, buckets: seq<set<Key>>, k: Key, ka: Known)
    requires Referenced(index, buckets, {}) && k !in index && !ka.tried && ka.refs == 0
    ensures Referenced(index[k := ka], buckets, {k})
  {
    assert Holders(buckets, k) == {};
  }

  lemma LearnKeys(index: map<Key, Known>, k: Key, ka: Known)
    requires k !in index && !ka.tried
    ensures |Untried(index[k := ka])| == |Untried(index)| + 1 && TriedKeys(index[k := ka]) == TriedKeys(index)
  {
    KeysAfter(index, k, ka);
    assert k !in Untried(index);
  }

  lemma LearnInv(bk: Book, na: NetAddress, src: NetAddress)
    requires Inv(bk) && KeyOf(na) !in bk.index
    ensures InvBut(Learn(bk, na, src), {KeyOf(na)})
  {
    var k := KeyOf(na);
    var ka := Learn(bk, na, src).index[k];
    hide Listed, Sized, Holders, Referenced, Untried, TriedKeys, Keyed, RefsBounded;
    LearnKeys(bk.index, k, ka);
    EntriesAfter(bk.index, k, ka);
    LearnReferenced(bk.index, bk.buckets, k, ka);
  }

  lemma KeyedAt(bk: Book, adding: set<Key>, k: Key)
    requires InvBut(bk, adding) && k in bk.index
    ensures KeyOf(bk.index[k].na) == k && bk.index[k].refs <= NEW_BUCKETS_PER_ADDRESS
    ensures forall b :: 0 <= b < |bk.buckets| ==> |bk.buckets[b]| <= NEW_BUCKET_SIZE + 1
  {
    hide Listed, Referenced;
  }

  lemma DropReferenced(index: map<Key, Known>, buckets: seq<set<Key>>, adding: set<Key>, b: nat, k: Key)
    requires Referenced(index, buckets, adding) && b < |buckets| && k in buckets[b] && k !in adding
    ensures k in index && !index[k].tried && index[k].refs >= 1
    ensures var rest := buckets[b := buckets[b] - {k}];
      if index[k].refs == 1 then Referenced(index - {k}, rest, adding)
      else Referenced(index[k := index[k].(refs := index[k].refs - 1)], rest, adding)
  {
    var rest := buckets[b := buckets[b] - {k}];
    forall j ensures Holders(rest, j) == if j == k then Holders(buckets, j) - {b as int} else Holders(buckets, j) {
      HoldersDrop(buckets, b, k, j);
    }
    assert b in Holders(buckets, k);
    if index[k].refs == 1 {
      assert |Holders(buckets, k) - {b as int}| == 0;
      assert Holders(rest, k) == {};
      assert forall c :: 0 <= c < |rest| && k in rest[c] ==> c in Holders(rest, k);
    }
  }

  lemma DropRefInv(bk: Book, adding: set<Key>, b: nat, k: Key)
    requires InvBut(bk, adding) && b < |bk.buckets| && k in bk.buckets[b] && k !in adding
    ensures k in bk.index && InvBut(DropRef(bk, b, k), adding)
  {
    hide Listed, Holders, Referenced, Sized, Keyed, RefsBounded;
    DropReferenced(bk.index, bk.buckets, adding, b, k);
    var ka := bk.index[k].(refs := bk.index[k].refs - 1);
    KeyedAt(bk, adding, k);
    SizedAfter(bk.buckets, bk.tried, b, bk.buckets[b] - {k});
    EntriesAfter(bk.index, k, ka);
    FlagKept(bk.index, k, ka);
    KeysWithout(bk.index, k);
    assert k in Untried(bk.index) && TriedKeys(bk.index - {k}) == TriedKeys(bk.index);
  }

  lemma AddReferenced(index: map<Key, Known>, buckets: seq<set<Key>>, adding: set<Key>, b: nat, k: Key)
    requires Referenced(index, buckets, adding) && b < |buckets| && k in index && !index[k].tried && k !in buckets[b]
    ensures Referenced(index[k := index[k].(refs := index[k].refs + 1)], buckets[b := buckets[b] + {k}], adding - {k})
  {
    var more := buckets[b := buckets[b] + {k}];
    forall j ensures Holders(more, j) == if j == k then Holders(buckets, j) + {b as int} else Holders(buckets, j) {
      HoldersAdd(buckets, b, k, j);
    }
    assert b !in Holders(buckets, k);
  }

  lemma AddRefInv(bk: Book, adding: set<Key>, b: nat, k: Key)
    requires InvBut(bk, adding) && b < |bk.buckets| && k in bk.index && !bk.index[k].tried && k !in bk.buckets[b]
    requires bk.index[k].refs < NEW_BUCKETS_PER_ADDRESS && |bk.buckets[b]| <= NEW_BUCKET_SIZE
    ensures InvBut(AddRef(bk, b, k), adding - {k})
  {
    hide Listed, Holders, Referenced, Sized, Keyed, RefsBounded, Untried, TriedKeys;
    AddReferenced(bk.index, bk.buckets, adding, b, k);
    var ka := bk.index[k].(refs := bk.index[k].refs + 1);
    KeyedAt(bk, adding, k);
    SizedAfter(bk.buckets, bk.tried, b, bk.buckets[b] + {k});
    EntriesAfter(bk.index, k, ka);
    FlagKept(bk.index, k, ka);
  }

  // ---- Moving to and from the tried lists ----

  lemma LeaveReferenced(index: map<Key, Known>, buckets: seq<set<Key>>, k: Key, ka: Known)
    requires Referenced(index, buckets, {}) && k in index && ka.tried && ka.refs == 0
    ensures Referenced(index[k := ka], Without(buckets, k), {})
  {
    forall j ensures Holders(Without(buckets, k), j) == if j == k then {} else Holders(buckets, j) {
      HoldersWithout(buckets, k, j);
    }
  }

  lemma ReturnReferenced(index: map<Key, Known>, buckets: seq<set<Key>>, b: nat, k: Key, ka: Known)
    requires Referenced(index, buckets, {}) && k in index && index[k].tried && b < |buckets|
    requires !ka.tried && ka.refs == index[k].refs + 1
    ensures Referenced(index[k := ka], buckets[b := buckets[b] + {k}], {})
  {
    var more := buckets[b := buckets[b] + {k}];
    forall j ensures Holders(more, j) == if j == k then Holders(buckets, j) + {b as int} else Holders(buckets, j) {
      HoldersAdd(buckets, b, k, j);
    }
    assert Holders(buckets, k) == {};
  }

  lemma PushListed(keys: set<Key>, tried: seq<seq<Key>>, t: nat, k: Key)
    requires Listed(keys, tried) && t < |tried| && k !in keys
    ensures Listed(keys + {k}, tried[t := tried[t] + [k]])
  {
    var after := tried[t := tried[t] + [k]];
    forall u, i, j ensures At(after, u, i, j) <==> At(tried, u, i, j) || (u == t && i == |tried[t]| && j == k) {
    }
    hide At;
    forall j | j in keys + {k} ensures exists u, m :: At(after, u, m, j) {
      if j == k {
        assert At(after, t, |tried[t]|, j);
      } else {
        var u, m :| At(tried, u, m, j);
        assert At(after, u, m, j);
      }
    }
  }

  lemma SwapListed(keys: set<Key>, tried: seq<seq<Key>>, t: nat, i: nat, k: Key)
    requires Listed(keys, tried) && t < |tried| && i < |tried[t]| && k !in keys
    ensures Listed(keys + {k} - {tried[t][i]}, tried[t := tried[t][i := k]])
  {
    var after, out := tried[t := tried[t][i := k]], tried[t][i];
    assert At(tried, t, i, out);
    forall u, m, j ensures At(after, u, m, j) <==> if u == t && m == i then j == k else At(tried, u, m, j) {
    }
    hide At;
    forall j | j in keys + {k} - {out} ensures exists u, m :: At(after, u, m, j) {
      if j == k {
        assert At(after, t, i, j);
      } else {
        var u, m :| At(tried, u, m, j);
        assert At(after, u, m, j);
      }
    }
  }

  lemma SizedWithout(buckets: seq<set<Key>>, tried: seq<seq<Key>>, k: Key)
    requires Sized(buckets, tried)
    ensures Sized(Without(buckets, k), tried)
    ensures forall b :: 0 <= b < |buckets| && k in buckets[b] ==> |Without(buckets, k)[b]| <= NEW_BUCKET_SIZE
  {
    forall b | 0 <= b < |buckets|
      ensures |Without(buckets, k)[b]| == |buckets[b]| - if k in buckets[b] then 1 else 0
    {
      if k !in buckets[b] {
        assert buckets[b] - {k} == buckets[b];
      }
    }
  }

  lemma WithoutAt(buckets: seq<set<Key>>, k: Key, b: nat)
    requires b < |buckets|
    ensures |Without(buckets, k)| == |buckets| && Without(buckets, k)[b] == buckets[b] - {k}
  {
  }

  /** How moving a key changes the two sets and so the two counts. */
  lemma MovedKeys(index: map<Key, Known>, k: Key, ka: Known)
    requires k in index && !index[k].tried && ka.tried
    ensures TriedKeys(index[k := ka]) == TriedKeys(index) + {k} && k !in TriedKeys(index)
    ensures |TriedKeys(index[k := ka])| == |TriedKeys(index)| + 1 && |Untried(index[k := ka])| == |Untried(index)| - 1
  {
    KeysAfter(index, k, ka);
    assert k in Untried(index);
  }

  lemma ReturnedKeys(index: map<Key, Known>, k: Key, ka: Known)
    requires k in index && index[k].tried && !ka.tried
    ensures TriedKeys(index[k := ka]) == TriedKeys(index) - {k}
    ensures |TriedKeys(index[k := ka])| == |TriedKeys(index)| - 1 && |Untried(index[k := ka])| == |Untried(index)| + 1
  {
    KeysAfter(index, k, ka);
    assert k in TriedKeys(index) && k !in Untried(index);
  }

  /** Into a tried list with room. */
  lemma PushInv(bk: Book, k: Key, t: nat)
    requires Inv(bk) && k in bk.index && !bk.index[k].tried && t < |bk.tried| && |bk.tried[t]| < TRIED_BUCKET_SIZE
    ensures Inv(PushTried(LeaveNew(bk, k), k, t))
  {
    hide Listed, Holders, Referenced, Keyed, RefsBounded, Untried, TriedKeys, Without, Sized;
    KeyedAt(bk, {}, k);
    var ka := bk.index[k].(refs := 0, tried := true);
    assert bk.index[k := bk.index[k].(refs := 0)][k := ka] == bk.index[k := ka];
    MovedKeys(bk.index, k, ka);
    EntriesAfter(bk.index, k, ka);
    LeaveReferenced(bk.index, bk.buckets, k, ka);
    PushListed(TriedKeys(bk.index), bk.tried, t, k);
    SizedWithout(bk.buckets, bk.tried, k);
    SizedPush(Without(bk.buckets, k), bk.tried, t, k);
  }

  /** Into a full tried list: the address that leaves it goes to a new bucket. */
  lemma SwapInv(bk: Book, k: Key, t: nat, i: nat, b: nat)
    requires Inv(bk) && k in bk.index && !bk.index[k].tried && t < |bk.tried| && i < |bk.tried[t]|
    requires b < |bk.buckets| && |(bk.buckets[b] - {k})| <= NEW_BUCKET_SIZE
    ensures bk.tried[t][i] in bk.index && bk.tried[t][i] != k
    ensures Inv(SwapTried(LeaveNew(bk, k), k, t, i, b))
  {
    hide Listed, Holders, Keyed, RefsBounded, Untried, TriedKeys, Sized, Without, Referenced;
    var out := bk.tried[t][i];
    TriedAt(bk, t, i);
    KeyedAt(bk, {}, k);
    KeyedAt(bk, {}, out);
    WithoutAt(bk.buckets, k, b);
    var ka := bk.index[k].(refs := 0, tried := true);
    var rm := bk.index[out].(tried := false, refs := bk.index[out].refs + 1);
    var mid := bk.index[k := ka];
    assert bk.index[k := bk.index[k].(refs := 0)][k := ka][out := rm] == mid[out := rm];
    MovedKeys(bk.index, k, ka);
    ReturnedKeys(mid, out, rm);
    EntriesAfter(bk.index, k, ka);
    EntriesAfter(mid, out, rm);
    LeaveReferenced(bk.index, bk.buckets, k, ka);
    ReturnReferenced(mid, Without(bk.buckets, k), b, out, rm);
    SwapListed(TriedKeys(bk.index), bk.tried, t, i, k);
    SizedWithout(bk.buckets, bk.tried, k);
    SizedAfter(Without(bk.buckets, k), bk.tried, b, Without(bk.buckets, k)[b] + {out});
    SizedSwap(Without(bk.buckets, k)[b := Without(bk.buckets, k)[b] + {out}], bk.tried, t, i, k);
  }

  /** What stands at a place of a tried list. */
  lemma TriedAt(bk: Book, t: nat, i: nat)
    requires Inv(bk) && t < |bk.tried| && i < |bk.tried[t]|
    ensures bk.tried[t][i] in bk.index && bk.index[bk.tried[t][i]].tried && bk.index[bk.tried[t][i]].refs == 0
  {
    hide Sized, Keyed, RefsBounded;
    var k := bk.tried[t][i];
    assert At(bk.tried, t, i, k);
    assert Holders(bk.buckets, k) == {};
  }

  lemma SizedPush(buckets: seq<set<Key>>, tried: seq<seq<Key>>, t: nat, k: Key)
    requires Sized(buckets, tried) && t < |tried| && |tried[t]| < TRIED_BUCKET_SIZE
    ensures Sized(buckets, tried[t := tried[t] + [k]])
  {
  }

  lemma SizedSwap(buckets: seq<set<Key>>, tried: seq<seq<Key>>, t: nat, i: nat, k: Key)
    requires Sized(buckets, tried) && t < |tried| && i < |tried[t]|
    ensures Sized(buckets, tried[t := tried[t][i := k]])
  {
  }
}
