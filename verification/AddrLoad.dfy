/** When a record that loads gives a consistent book. */
module AddrLoad {
  import opened Chain
  import opened AddrBook
  import opened AddrStore
  import opened AddrRoundTrip

  /** A record has an array of each kind of bucket; lists that are missing are read as empty. */
  predicate Shaped(rec: Record) {
    |rec.newBuckets| <= NEW_BUCKET_COUNT && |rec.triedBuckets| <= TRIED_BUCKET_COUNT
  }

  /** How often each key is listed. */
  ghost function Tally(lists: seq<seq<Key>>): multiset<Key> {
    if lists == [] then multiset{} else Tally(lists[..|lists| - 1]) + multiset(lists[|lists| - 1])
  }

  ghost predicate NoneTwice(list: seq<Key>) {
    forall i, j :: 0 <= i < j < |list| ==> list[i] != list[j]
  }

  /** No key is at two places of the lists. */
  ghost predicate OnePlace(lists: seq<seq<Key>>) {
    forall t, i, u, j, k :: At(lists, t, i, k) && At(lists, u, j, k) ==> t == u && i == j
  }

  ghost function Listing(lists: seq<seq<Key>>, k: Key): set<int> {
    set b | 0 <= b < |lists| && k in lists[b]
  }

  /** What a record must be like, beyond what the checks of loading ask: no key twice in a new bucket, in more than
      eight of them, or at two places of the tried lists, and no list too long. */
  ghost predicate Orderly(rec: Record) {
    && (forall b :: 0 <= b < |rec.newBuckets| ==>
          NoneTwice(rec.newBuckets[b]) && |rec.newBuckets[b]| <= NEW_BUCKET_SIZE + 1)
    && (forall k :: |Listing(rec.newBuckets, k)| <= NEW_BUCKETS_PER_ADDRESS)
    && OnePlace(rec.triedBuckets)
    && (forall t :: 0 <= t < |rec.triedBuckets| ==> |rec.triedBuckets[t]| <= TRIED_BUCKET_SIZE)
  }

  // ---- Counting listed keys ----

  lemma CountLast(list: seq<Key>)
    requires list != []
    ensures multiset(list) == multiset(list[..|list| - 1]) + multiset{list[|list| - 1]}
  {
    assert list == list[..|list| - 1] + [list[|list| - 1]];
  }

  lemma TwiceCounts(list: seq<Key>, i: nat, j: nat)
    requires i < j < |list|
    ensures list[i] == list[j] ==> multiset(list)[list[i]] >= 2
  {
    assert list == list[..j] + [list[j]] + list[j + 1..];
    assert list[..j][i] == list[i] && list[i] in multiset(list[..j]);
  }

  lemma {:induction false} OnceCounts(list: seq<Key>, k: Key)
    requires NoneTwice(list)
    ensures multiset(list)[k] <= 1
  {
    if list != [] {
      var front, last := list[..|list| - 1], list[|list| - 1];
      OnceCounts(front, k);
      CountLast(list);
      assert last !in front && last !in multiset(front);
    }
  }

  lemma NoneTwiceIff(list: seq<Key>)
    ensures NoneTwice(list) <==> forall k :: multiset(list)[k] <= 1
  {
    if NoneTwice(list) {
      forall k ensures multiset(list)[k] <= 1 {
        OnceCounts(list, k);
      }
    } else {
      var i, j :| 0 <= i < j < |list| && list[i] == list[j];
      TwiceCounts(list, i, j);
    }
  }

  lemma {:induction false} ElemsSize(list: seq<Key>)
    ensures |Elems(list)| <= |list| && (NoneTwice(list) ==> |Elems(list)| == |list|)
  {
    if list == [] {
      ElemsNone();
    } else {
      ElemsSize(list[..|list| - 1]);
      ElemsLast(list);
      if NoneTwice(list) {
        LastIsNew(list);
      }
    }
  }

  lemma ListingLast(lists: seq<seq<Key>>, k: Key)
    requires lists != []
    ensures var n := |lists| - 1;
      && Listing(lists, k) == (if k in lists[n] then Listing(lists[..n], k) + {n} else Listing(lists[..n], k))
      && n !in Listing(lists[..n], k) && (k in lists[n] <==> multiset(lists[n])[k] > 0)
  {
    assert k in lists[|lists| - 1] <==> k in multiset(lists[|lists| - 1]);
  }

  /** A key is listed at least once for each list it is in, and exactly once for each if it is nowhere twice. */
  lemma {:induction false} TallyOf(lists: seq<seq<Key>>, k: Key)
    ensures Tally(lists)[k] >= |Listing(lists, k)|
    ensures Tally(lists)[k] == |Listing(lists, k)| <==> forall b :: 0 <= b < |lists| ==> multiset(lists[b])[k] <= 1
  {
    if lists == [] {
      assert Listing(lists, k) == {};
    } else {
      var n := |lists| - 1;
      var front := lists[..n];
      TallyOf(front, k);
      ListingLast(lists, k);
      hide Listing;
      assert |Listing(lists, k)| == |Listing(front, k)| + if multiset(lists[n])[k] > 0 then 1 else 0;
      assert Tally(lists)[k] == Tally(front)[k] + multiset(lists[n])[k];
      hide Tally;
      assert forall b :: 0 <= b < n ==> front[b] == lists[b];
    }
  }

  lemma {:induction false} TallyKeys(lists: seq<seq<Key>>, k: Key)
    ensures k in Tally(lists) <==> k in KeysIn(lists)
  {
    if lists != [] {
      TallyKeys(lists[..|lists| - 1], k);
      assert k in lists[|lists| - 1] <==> k in multiset(lists[|lists| - 1]);
    }
  }

  /** Lists with no key at two places hold as many keys as their lengths say. */
  lemma {:induction false} OnePlaceCounts(lists: seq<seq<Key>>)
    requires OnePlace(lists)
    ensures |Tally(lists)| == |KeysIn(lists)|
  {
    if lists != [] {
      var n := |lists| - 1;
      var front, last := lists[..n], lists[n];
      assert forall t, i, k :: At(front, t, i, k) ==> At(lists, t, i, k);
      OnePlaceCounts(front);
      assert NoneTwice(last) by {
        forall i, j | 0 <= i < j < |last| ensures last[i] != last[j] {
          assert At(lists, n, i, last[i]) && At(lists, n, j, last[j]);
        }
      }
      ElemsSize(last);
      forall k | k in Elems(last) ensures k !in KeysIn(front) {
        var j :| 0 <= j < |last| && last[j] == k;
        assert At(lists, n, j, k);
        InSomeList(front, k);
      }
      assert KeysIn(front) !! Elems(last);
    }
  }

  // ---- The new buckets ----

  ghost predicate NewCounted(index: map<Key, Known>, bk: Book, tally: multiset<Key>) {
    && bk.index.Keys == index.Keys && bk.nNew == |Held(bk.index)|
    && forall k :: k in index ==> bk.index[k] == index[k].(refs := tally[k])
  }

  lemma NewKeyCounts(index: map<Key, Known>, bk: Book, tally: multiset<Key>, b: nat, k: Key)
    requires NewCounted(index, bk, tally) && k in bk.index && b < |bk.buckets|
    ensures var after := LoadNewKey(Loaded(bk, true), b, k).book;
      && NewCounted(index, after, tally + multiset{k}) && k in index
      && after == bk.(index := after.index, buckets := bk.buckets[b := bk.buckets[b] + {k}], nNew := after.nNew)
  {
    HeldAfter(bk.index, k);
    hide Held;
  }

  lemma AddedTwice(buckets: seq<set<Key>>, b: nat, list: seq<Key>)
    requires b < |buckets| && list != []
    ensures var mid := buckets[b := buckets[b] + Elems(list[..|list| - 1])];
      mid[b := mid[b] + {list[|list| - 1]}] == buckets[b := buckets[b] + Elems(list)]
  {
    ElemsLast(list);
    assert buckets[b] + Elems(list[..|list| - 1]) + {list[|list| - 1]} == buckets[b] + Elems(list);
  }

  lemma {:induction false} NewListCounts(index: map<Key, Known>, bk: Book, tally: multiset<Key>, b: nat, list: seq<Key>)
    requires NewCounted(index, bk, tally) && b < |bk.buckets| && LoadList(Loaded(bk, true), NewPhase, b, list).ok
    ensures var after := LoadList(Loaded(bk, true), NewPhase, b, list).book;
      && NewCounted(index, after, tally + multiset(list))
      && after == bk.(index := after.index, buckets := bk.buckets[b := bk.buckets[b] + Elems(list)], nNew := after.nNew)
    ensures Elems(list) <= index.Keys
  {
    hide NewCounted;
    if list == [] {
      ElemsNone();
      assert multiset(list) == multiset{} && bk.buckets[b] + {} == bk.buckets[b];
      assert tally + multiset(list) == tally;
    } else {
      var front, last := list[..|list| - 1], list[|list| - 1];
      hide Elems;
      NewListCounts(index, bk, tally, b, front);
      var mid := LoadList(Loaded(bk, true), NewPhase, b, front).book;
      NewKeyCounts(index, mid, tally + multiset(front), b, last);
      CountLast(list);
      ElemsLast(list);
      AddedTwice(bk.buckets, b, list);
      assert tally + multiset(front) + multiset{last} == tally + multiset(list);
    }
  }

  lemma {:induction false} NewListsCount(index: map<Key, Known>, bk: Book, lists: seq<seq<Key>>)
    requires NewCounted(index, bk, multiset{}) && |lists| <= |bk.buckets|
    requires forall b :: 0 <= b < |bk.buckets| ==> bk.buckets[b] == {}
    requires LoadLists(Loaded(bk, true), NewPhase, lists).ok
    ensures var after := LoadLists(Loaded(bk, true), NewPhase, lists).book;
      && NewCounted(index, after, Tally(lists)) && |after.buckets| == |bk.buckets|
      && after == bk.(index := after.index, buckets := after.buckets, nNew := after.nNew)
      && forall b :: 0 <= b < |bk.buckets| ==> after.buckets[b] == if b < |lists| then Elems(lists[b]) else {}
    ensures KeysIn(lists) <= index.Keys
  {
    if lists != [] {
      var n := |lists| - 1;
      hide NewCounted, Elems, LoadList;
      var mid := LoadLists(Loaded(bk, true), NewPhase, lists[..n]);
      assert mid.ok by { FailureStays(mid, NewPhase, n, lists[n]); }
      NewListsCount(index, bk, lists[..n]);
      NewListCounts(index, mid.book, Tally(lists[..n]), n, lists[n]);
    }
  }

  lemma {:induction false} FailureStays(l: Loaded, phase: Phase, b: nat, list: seq<Key>)
    requires LoadList(l, phase, b, list).ok
    ensures l.ok
  {
    if list != [] {
      FailureStays(l, phase, b, list[..|list| - 1]);
    }
  }

  // ---- The tried lists ----

  ghost predicate TriedCounted(index: map<Key, Known>, bk: Book, tally: multiset<Key>) {
    && bk.index.Keys == index.Keys && bk.nTried == |tally|
    && forall k :: k in index ==> bk.index[k] == index[k].(tried := k in tally)
  }

  lemma TriedKeyCounts(index: map<Key, Known>, bk: Book, tally: multiset<Key>, t: nat, k: Key)
    requires TriedCounted(index, bk, tally) && k in bk.index && t < |bk.tried|
    ensures var after := LoadTriedKey(Loaded(bk, true), t, k).book;
      && TriedCounted(index, after, tally + multiset{k}) && k in index
      && after == bk.(index := after.index, tried := bk.tried[t := bk.tried[t] + [k]], nTried := after.nTried)
  {
  }

  lemma ExtendedTwice(tried: seq<seq<Key>>, t: nat, list: seq<Key>)
    requires t < |tried| && list != []
    ensures var mid := tried[t := tried[t] + list[..|list| - 1]];
      mid[t := mid[t] + [list[|list| - 1]]] == tried[t := tried[t] + list]
  {
    assert tried[t] + list[..|list| - 1] + [list[|list| - 1]] == tried[t] + list;
  }

  lemma {:induction false} TriedListCounts(index: map<Key, Known>, bk: Book, tally: multiset<Key>, t: nat,
                                           list: seq<Key>)
    requires TriedCounted(index, bk, tally) && t < |bk.tried| && LoadList(Loaded(bk, true), TriedPhase, t, list).ok
    ensures var after := LoadList(Loaded(bk, true), TriedPhase, t, list).book;
      && TriedCounted(index, after, tally + multiset(list))
      && after == bk.(index := after.index, tried := bk.tried[t := bk.tried[t] + list], nTried := after.nTried)
    ensures Elems(list) <= index.Keys
  {
    if list == [] {
      ElemsNone();
      assert multiset(list) == multiset{};
      assert bk.tried[t] + list == bk.tried[t];
    } else {
      var front, last := list[..|list| - 1], list[|list| - 1];
      hide TriedCounted, Elems;
      TriedListCounts(index, bk, tally, t, front);
      var mid := LoadList(Loaded(bk, true), TriedPhase, t, front).book;
      TriedKeyCounts(index, mid, tally + multiset(front), t, last);
      CountLast(list);
      ElemsLast(list);
      assert tally + multiset(front) + multiset{last} == tally + multiset(list);
      ExtendedTwice(bk.tried, t, list);
    }
  }

  lemma {:induction false} TriedListsCount(index: map<Key, Known>, bk: Book, lists: seq<seq<Key>>)
    requires TriedCounted(index, bk, multiset{}) && |lists| <= |bk.tried|
    requires forall t :: 0 <= t < |bk.tried| ==> bk.tried[t] == []
    requires LoadLists(Loaded(bk, true), TriedPhase, lists).ok
    ensures var after := LoadLists(Loaded(bk, true), TriedPhase, lists).book;
      && TriedCounted(index, after, Tally(lists)) && |after.tried| == |bk.tried|
      && after == bk.(index := after.index, tried := after.tried, nTried := after.nTried)
      && forall t :: 0 <= t < |bk.tried| ==> after.tried[t] == if t < |lists| then lists[t] else []
    ensures KeysIn(lists) <= index.Keys
  {
    if lists != [] {
      var n := |lists| - 1;
      hide TriedCounted, Elems, LoadList;
      var mid := LoadLists(Loaded(bk, true), TriedPhase, lists[..n]);
      assert mid.ok by { FailureStays(mid, TriedPhase, n, lists[n]); }
      TriedListsCount(index, bk, lists[..n]);
      TriedListCounts(index, mid.book, Tally(lists[..n]), n, lists[n]);
    }
  }

  // ---- What loading gives ----

  /** The book that a record stands for. */
  ghost predicate LoadedFrom(rec: Record, bk: Book) {
    && Keyed(bk.index) && KeysIn(rec.newBuckets) <= bk.index.Keys && KeysIn(rec.triedBuckets) <= bk.index.Keys
    && (forall k :: k in bk.index ==> Sane(bk.index[k]) && bk.index[k].refs == Tally(rec.newBuckets)[k])
    && (forall k :: k in bk.index ==> (bk.index[k].tried <==> k in Tally(rec.triedBuckets)))
    && bk.nNew == |Held(bk.index)| && bk.nTried == |Tally(rec.triedBuckets)|
    && |bk.buckets| == NEW_BUCKET_COUNT && |bk.tried| == TRIED_BUCKET_COUNT
    && (forall b :: 0 <= b < |bk.buckets| ==>
          bk.buckets[b] == if b < |rec.newBuckets| then Elems(rec.newBuckets[b]) else {})
    && (forall t :: 0 <= t < |bk.tried| ==> bk.tried[t] == if t < |rec.triedBuckets| then rec.triedBuckets[t] else [])
  }

  lemma {:induction false} AddressesKeyed(parse: Parser, list: seq<Saved>)
    ensures var index := LoadAddresses(parse, list);
      index.Some? ==>
        && Keyed(index.value)
        && forall k :: k in index.value ==> index.value[k].refs == 0 && !index.value[k].tried
  {
    if list != [] {
      AddressesKeyed(parse, list[..|list| - 1]);
    }
  }

  lemma {:induction false} FailureStaysAll(l: Loaded, phase: Phase, lists: seq<seq<Key>>)
    requires LoadLists(l, phase, lists).ok
    ensures l.ok
  {
    hide LoadList;
    if lists != [] {
      var n := |lists| - 1;
      FailureStays(LoadLists(l, phase, lists[..n]), phase, n, lists[n]);
      FailureStaysAll(l, phase, lists[..n]);
    }
  }

  lemma StartCounted(index: map<Key, Known>, secret: nat)
    requires forall k :: k in index ==> index[k].refs == 0 && !index[k].tried
    ensures NewCounted(index, Empty(secret).(index := index), multiset{})
  {
    assert Held(index) == {};
  }

  lemma StartTriedCounted(index: map<Key, Known>, bk: Book, tally: multiset<Key>)
    requires NewCounted(index, bk, tally) && bk.nTried == 0 && forall k :: k in index ==> !index[k].tried
    ensures TriedCounted(bk.index, bk, multiset{})
  {
  }

  lemma BothCounted(rec: Record, index: map<Key, Known>, mid: Book, bk: Book)
    requires NewCounted(index, mid, Tally(rec.newBuckets)) && TriedCounted(mid.index, bk, Tally(rec.triedBuckets))
    requires Keyed(index) && bk.nNew == mid.nNew
    ensures Keyed(bk.index) && bk.nNew == |Held(bk.index)| && bk.nTried == |Tally(rec.triedBuckets)|
    ensures bk.index.Keys == index.Keys == mid.index.Keys
    ensures forall k :: k in bk.index ==> bk.index[k].refs == Tally(rec.newBuckets)[k]
    ensures forall k :: k in bk.index ==> (bk.index[k].tried <==> k in Tally(rec.triedBuckets))
  {
    hide Tally;
    assert Held(bk.index) == Held(mid.index);
  }

  lemma EmptyShape(secret: nat)
    ensures var bk := Empty(secret);
      && |bk.buckets| == NEW_BUCKET_COUNT && (forall b :: 0 <= b < |bk.buckets| ==> bk.buckets[b] == {})
      && |bk.tried| == TRIED_BUCKET_COUNT && (forall t :: 0 <= t < |bk.tried| ==> bk.tried[t] == [])
      && bk.nTried == 0
  {
  }

  /** The book after the new buckets. */
  ghost predicate NewFrom(rec: Record, index: map<Key, Known>, bk: Book) {
    && NewCounted(index, bk, Tally(rec.newBuckets)) && KeysIn(rec.newBuckets) <= index.Keys
    && |bk.buckets| == NEW_BUCKET_COUNT && |bk.tried| == TRIED_BUCKET_COUNT && bk.nTried == 0
    && (forall b :: 0 <= b < |bk.buckets| ==>
          bk.buckets[b] == if b < |rec.newBuckets| then Elems(rec.newBuckets[b]) else {})
    && (forall t :: 0 <= t < |bk.tried| ==> bk.tried[t] == [])
  }

  lemma NewGives(rec: Record, index: map<Key, Known>)
    requires Shaped(rec) && forall k :: k in index ==> index[k].refs == 0 && !index[k].tried
    requires LoadLists(Loaded(Empty(rec.secret).(index := index), true), NewPhase, rec.newBuckets).ok
    ensures var start := Loaded(Empty(rec.secret).(index := index), true);
      NewFrom(rec, index, LoadLists(start, NewPhase, rec.newBuckets).book)
  {
    StartCounted(index, rec.secret);
    EmptyShape(rec.secret);
    hide LoadLists, NewCounted, Tally, KeysIn, Elems, Empty;
    NewListsCount(index, Empty(rec.secret).(index := index), rec.newBuckets);
  }

  lemma TriedGives(rec: Record, index: map<Key, Known>, mid: Book)
    requires Shaped(rec) && NewFrom(rec, index, mid) && Keyed(index) && forall k :: k in index ==> !index[k].tried
    requires LoadLists(Loaded(mid, true), TriedPhase, rec.triedBuckets).ok
    requires var bk := LoadLists(Loaded(mid, true), TriedPhase, rec.triedBuckets).book;
      forall k :: k in bk.index ==> Sane(bk.index[k])
    ensures LoadedFrom(rec, LoadLists(Loaded(mid, true), TriedPhase, rec.triedBuckets).book)
  {
    hide LoadLists, NewCounted, TriedCounted, Keyed, Sane, Tally, KeysIn, Elems, Held;
    StartTriedCounted(index, mid, Tally(rec.newBuckets));
    TriedListsCount(mid.index, mid, rec.triedBuckets);
    BothCounted(rec, index, mid, LoadLists(Loaded(mid, true), TriedPhase, rec.triedBuckets).book);
  }

  lemma LoadGives(parse: Parser, rec: Record)
    requires Shaped(rec) && Load(parse, rec).ok
    ensures LoadedFrom(rec, Load(parse, rec).book)
  {
    var index := LoadAddresses(parse, rec.addresses).value;
    AddressesKeyed(parse, rec.addresses);
    hide LoadLists, LoadAddresses, NewFrom, LoadedFrom, Keyed, Sane, Empty;
    var news := LoadLists(Loaded(Empty(rec.secret).(index := index), true), NewPhase, rec.newBuckets);
    FailureStaysAll(news, TriedPhase, rec.triedBuckets);
    NewGives(rec, index);
    TriedGives(rec, index, news.book);
  }

  // ---- When it is consistent ----

  lemma HoldersAreListings(rec: Record, bk: Book, k: Key)
    requires LoadedFrom(rec, bk) && Shaped(rec)
    ensures Holders(bk.buckets, k) == Listing(rec.newBuckets, k)
  {
    hide Keyed, Sane, Tally, KeysIn, Held;
  }

  lemma SamePlaces(rec: Record, bk: Book, t: int, i: int, k: Key)
    requires LoadedFrom(rec, bk) && Shaped(rec)
    ensures At(bk.tried, t, i, k) <==> At(rec.triedBuckets, t, i, k)
  {
    hide Keyed, Sane, Tally, KeysIn, Held;
  }

  ghost predicate NoBucketTwice(rec: Record) {
    forall b :: 0 <= b < |rec.newBuckets| ==> NoneTwice(rec.newBuckets[b])
  }

  lemma ListedKeysKnown(rec: Record, bk: Book, b: nat, k: Key)
    requires LoadedFrom(rec, bk) && b < |rec.newBuckets|
    ensures k in rec.newBuckets[b] ==> k in KeysIn(rec.newBuckets) && k in bk.index
    ensures k !in bk.index ==> multiset(rec.newBuckets[b])[k] == 0 && Listing(rec.newBuckets, k) == {}
  {
    forall c | 0 <= c < |rec.newBuckets| ensures k in rec.newBuckets[c] ==> k in KeysIn(rec.newBuckets) {
      if k in rec.newBuckets[c] {
        var i :| 0 <= i < |rec.newBuckets[c]| && rec.newBuckets[c][i] == k;
        assert At(rec.newBuckets, c, i, k);
        InSomeList(rec.newBuckets, k);
      }
    }
    hide LoadedFrom, KeysIn;
    assert KeysIn(rec.newBuckets) <= bk.index.Keys by { KnownKeys(rec, bk); }
    assert k !in rec.newBuckets[b] ==> k !in multiset(rec.newBuckets[b]);
  }

  lemma KnownKeys(rec: Record, bk: Book)
    requires LoadedFrom(rec, bk)
    ensures KeysIn(rec.newBuckets) <= bk.index.Keys && KeysIn(rec.triedBuckets) <= bk.index.Keys
  {
    hide Keyed, Sane, Tally, Held, Elems;
  }

  /** What each entry's count says. */
  lemma RefsAre(rec: Record, bk: Book, k: Key)
    requires LoadedFrom(rec, bk) && Shaped(rec) && k in bk.index
    ensures bk.index[k].refs >= |Listing(rec.newBuckets, k)| && Holders(bk.buckets, k) == Listing(rec.newBuckets, k)
    ensures bk.index[k].refs == |Holders(bk.buckets, k)| <==>
      forall b :: 0 <= b < |rec.newBuckets| ==> multiset(rec.newBuckets[b])[k] <= 1
  {
    HoldersAreListings(rec, bk, k);
    TallyOf(rec.newBuckets, k);
    hide Keyed, Sane, Tally, KeysIn, Held, Listing, Holders, Elems;
  }

  /** Reference counts are exact iff no key is twice in a new bucket. */
  lemma RefsExactIff(rec: Record, bk: Book)
    requires LoadedFrom(rec, bk) && Shaped(rec)
    ensures (forall k :: k in bk.index ==> bk.index[k].refs == |Holders(bk.buckets, k)|) <==> NoBucketTwice(rec)
  {
    if NoBucketTwice(rec) {
      forall k | k in bk.index ensures bk.index[k].refs == |Holders(bk.buckets, k)| {
        RefsAre(rec, bk, k);
        forall b | 0 <= b < |rec.newBuckets| ensures multiset(rec.newBuckets[b])[k] <= 1 {
          NoneTwiceIff(rec.newBuckets[b]);
        }
      }
    }
    if forall k :: k in bk.index ==> bk.index[k].refs == |Holders(bk.buckets, k)| {
      forall b | 0 <= b < |rec.newBuckets| ensures NoneTwice(rec.newBuckets[b]) {
        forall k ensures multiset(rec.newBuckets[b])[k] <= 1 {
          ListedKeysKnown(rec, bk, b, k);
          if k in bk.index {
            RefsAre(rec, bk, k);
          }
        }
        NoneTwiceIff(rec.newBuckets[b]);
      }
    }
  }

  /** The rest of the rules on new buckets follow from the checks of loading. */
  lemma BucketsUntried(rec: Record, bk: Book)
    requires LoadedFrom(rec, bk) && Shaped(rec)
    ensures forall b, k :: 0 <= b < |bk.buckets| && k in bk.buckets[b] ==> k in bk.index && !bk.index[k].tried
    ensures forall k :: k in bk.index && !bk.index[k].tried ==> bk.index[k].refs >= 1
    ensures Held(bk.index) == Untried(bk.index)
  {
    forall b, k | 0 <= b < |bk.buckets| && k in bk.buckets[b] ensures k in bk.index && !bk.index[k].tried {
      ListedKeysKnown(rec, bk, b, k);
      TallyKeys(rec.newBuckets, k);
    }
    hide Keyed, Tally, KeysIn, Elems;
  }

  lemma TriedAreListed(rec: Record, bk: Book)
    requires LoadedFrom(rec, bk)
    ensures KeysIn(rec.triedBuckets) == TriedKeys(bk.index)
  {
    forall k ensures k in Tally(rec.triedBuckets) <==> k in KeysIn(rec.triedBuckets) {
      TallyKeys(rec.triedBuckets, k);
    }
    hide Keyed, Tally, KeysIn, Elems, Held, Sane;
  }

  /** The tried lists agree with the flags iff no key is at two places. */
  lemma ListedIff(rec: Record, bk: Book)
    requires LoadedFrom(rec, bk) && Shaped(rec)
    ensures Listed(TriedKeys(bk.index), bk.tried) <==> OnePlace(rec.triedBuckets)
    ensures OnePlace(rec.triedBuckets) ==> bk.nTried == |TriedKeys(bk.index)|
  {
    TriedAreListed(rec, bk);
    if OnePlace(rec.triedBuckets) {
      OnePlaceCounts(rec.triedBuckets);
    }
    forall t, i, k ensures At(bk.tried, t, i, k) <==> At(rec.triedBuckets, t, i, k) {
      SamePlaces(rec, bk, t, i, k);
    }
    forall k ensures k in TriedKeys(bk.index) <==> exists t, i :: At(bk.tried, t, i, k) {
      InSomeList(rec.triedBuckets, k);
    }
    assert bk.nTried == |Tally(rec.triedBuckets)|;
    hide LoadedFrom, At, TriedKeys, KeysIn, Tally;
  }

  /** If no key is twice in a bucket, the sizes and references are those of the lists. */
  lemma SizesIff(rec: Record, bk: Book)
    requires LoadedFrom(rec, bk) && Shaped(rec) && NoBucketTwice(rec)
    ensures Sized(bk.buckets, bk.tried) <==>
      && (forall b :: 0 <= b < |rec.newBuckets| ==> |rec.newBuckets[b]| <= NEW_BUCKET_SIZE + 1)
      && (forall t :: 0 <= t < |rec.triedBuckets| ==> |rec.triedBuckets[t]| <= TRIED_BUCKET_SIZE)
  {
    forall b | 0 <= b < |rec.newBuckets| ensures |bk.buckets[b]| == |rec.newBuckets[b]| {
      ElemsSize(rec.newBuckets[b]);
    }
    hide Keyed, Sane, Tally, KeysIn, Held, Elems, NoneTwice;
  }

  lemma BoundedIff(rec: Record, bk: Book)
    requires LoadedFrom(rec, bk) && Shaped(rec) && NoBucketTwice(rec)
    ensures RefsBounded(bk.index) <==> forall k :: |Listing(rec.newBuckets, k)| <= NEW_BUCKETS_PER_ADDRESS
  {
    RefsExactIff(rec, bk);
    forall k | k in bk.index ensures bk.index[k].refs == |Listing(rec.newBuckets, k)| {
      RefsAre(rec, bk, k);
    }
    forall k | k !in bk.index ensures |Listing(rec.newBuckets, k)| == 0 {
      if |rec.newBuckets| > 0 {
        ListedKeysKnown(rec, bk, 0, k);
      }
    }
    hide LoadedFrom, Listing;
  }

  /** A book that was loaded is consistent exactly if its record is orderly. */
  lemma LoadedInvIff(parse: Parser, rec: Record)
    requires Shaped(rec) && Load(parse, rec).ok
    ensures Inv(Load(parse, rec).book) <==> Orderly(rec)
  {
    var bk := Load(parse, rec).book;
    LoadGives(parse, rec);
    RefsExactIff(rec, bk);
    BucketsUntried(rec, bk);
    ListedIff(rec, bk);
    if NoBucketTwice(rec) {
      SizesIff(rec, bk);
      BoundedIff(rec, bk);
    }
    assert Keyed(bk.index) && bk.nNew == |Untried(bk.index)|;
    hide Load, LoadedFrom, Listed, OnePlace, Listing, Holders, Untried, TriedKeys, Sized, RefsBounded, Keyed, NoneTwice,
         Held;
  }

  /** A record that loads and leaves the count of tried addresses wrong. */
  lemma DoublyTried(parse: Parser, k: Key, secret: nat)
    requires parse(k).Some? && KeyOf(parse(k).value) == k
    ensures var rec := Record(SERIALISATION_VERSION, secret, [Saved(k, k, 0, 0, 0, 0)], [], [[k, k]]);
      Shaped(rec) && Load(parse, rec).ok && Load(parse, rec).book.nTried == 2 && !Inv(Load(parse, rec).book)
  {
    var rec := Record(SERIALISATION_VERSION, secret, [Saved(k, k, 0, 0, 0, 0)], [], [[k, k]]);
    var na := parse(k).value;
    var start := Loaded(Empty(secret).(index := map[k := Known(na, na, 0, 0, 0, false, 0)]), true);
    assert [Saved(k, k, 0, 0, 0, 0)][..0] == [];
    assert LoadAddresses(parse, rec.addresses) == Some(start.book.index);
    assert LoadLists(start, NewPhase, []) == start;
    ListOfTwo(start, k);
    LoadedInvIff(parse, rec);
    assert At(rec.triedBuckets, 0, 0, k) && At(rec.triedBuckets, 0, 1, k);
  }

  lemma ListOfTwo(l: Loaded, k: Key)
    requires l.ok && k in l.book.index && |l.book.tried| > 0
    ensures LoadLists(l, TriedPhase, [[k, k]]) == LoadTriedKey(LoadTriedKey(l, 0, k), 0, k)
  {
    assert [[k, k]][..0] == [] && [k, k][..1] == [k] && [k][..0] == [];
    assert LoadList(l, TriedPhase, 0, [k]) == LoadTriedKey(l, 0, k);
    assert LoadList(l, TriedPhase, 0, [k, k]) == LoadTriedKey(LoadTriedKey(l, 0, k), 0, k);
  }

  /** A saved book is in an orderly record, so what was saved can be loaded and run on. */
  lemma SavedIsOrderly(parse: Parser, saved: Book, rec: Record)
    requires Inv(saved) && Readable(parse, saved) && Saves(saved, rec)
    ensures Shaped(rec) && Orderly(rec)
  {
    RoundTrip(parse, saved, rec);
    assert Shaped(rec);
    LoadedInvIff(parse, rec);
  }
}
