/** The address manager as it runs: entries that are updated in place, and loops over the buckets. */
module AddrManager {
  import opened AddrBook
  import opened AddrBookProof
  import opened AddrOps
  import opened AddrAnswer

  class KnownAddress {
    var na: NetAddress
    var srcAddr: NetAddress
    var attempts: nat
    var lastAttempt: int
    var lastSuccess: int
    var tried: bool
    var refs: int

    constructor (na: NetAddress, srcAddr: NetAddress)
      ensures Contents() == Known(na, srcAddr, 0, ZERO_TIME, ZERO_TIME, false, 0)
    {
      this.na, this.srcAddr, attempts := na, srcAddr, 0;
      lastAttempt, lastSuccess, tried, refs := ZERO_TIME, ZERO_TIME, false, 0;
    }

    function Contents(): Known
      reads this
    {
      Known(na, srcAddr, attempts, lastAttempt, lastSuccess, tried, refs)
    }

    method Set(c: Known)
      modifies this
      ensures Contents() == c
    {
      na, srcAddr, attempts, lastAttempt := c.na, c.src, c.attempts, c.lastAttempt;
      lastSuccess, tried, refs := c.lastSuccess, c.tried, c.refs;
    }
  }

  /** The entry that a search holds so far. */
  datatype Choice = Nobody | One(key: Key)

  /** How far a search for what to expire has come, after the keys `seen`. */
  ghost predicate Scanning(bk: Book, b: nat, now: int, seen: set<Key>, gone: seq<Key>, oldest: Choice) {
    && b < |bk.buckets| && seen <= bk.buckets[b] && bk.buckets[b] <= bk.index.Keys
    && (forall i, j :: 0 <= i < j < |gone| ==> gone[i] != gone[j])
    && (forall i :: 0 <= i < |gone| ==> gone[i] in seen && IsBad(bk.index[gone[i]], now))
    && (forall k :: k in seen && IsBad(bk.index[k], now) ==> k in gone)
    && (oldest.Nobody? ==> forall k :: k in seen ==> IsBad(bk.index[k], now))
    && (oldest.One? ==> oldest.key in seen && !IsBad(bk.index[oldest.key], now))
    && (oldest.One? ==> forall k :: k in seen && !IsBad(bk.index[k], now) ==>
          bk.index[oldest.key].na.timestamp <= bk.index[k].na.timestamp)
  }

  lemma ScanStart(bk: Book, adding: set<Key>, b: nat, now: int)
    requires InvBut(bk, adding) && b < |bk.buckets|
    ensures Scanning(bk, b, now, {}, [], Nobody) && DropAll(bk, b, []) == bk
  {
    hide Sized, Keyed, RefsBounded, Listed, Counted, Holders;
  }

  lemma ScanDone(bk: Book, b: nat, now: int, gone: seq<Key>, oldest: Choice)
    requires b < |bk.buckets| && Scanning(bk, b, now, bk.buckets[b], gone, oldest)
    ensures Expires(bk, b, now, if oldest.One? then gone + [oldest.key] else gone)
  {
    hide IsBad;
    if oldest.One? {
      var all := gone + [oldest.key];
      assert oldest.key !in gone;
      assert forall k :: k in gone ==> k in all;
      assert IsOldest(bk, b, now, all[|all| - 1]);
    }
  }

  lemma GoneAreBad(v: Book, b: nat, now: int, seen: set<Key>, gone: seq<Key>, oldest: Choice, k: Key)
    requires Scanning(v, b, now, seen, gone, oldest) && ((k in v.buckets[b] && k !in seen) || oldest == One(k))
    ensures k !in gone && k in v.index
    ensures forall i :: 0 <= i < |gone| ==> gone[i] in v.buckets[b]
    ensures forall i, j :: 0 <= i < j < |gone| ==> gone[i] != gone[j]
  {
    hide IsBad;
  }

  lemma StillKnown(v: Book, adding: set<Key>, b: nat, now: int, seen: set<Key>, gone: seq<Key>, oldest: Choice, k: Key)
    requires InvBut(v, adding) && Scanning(v, b, now, seen, gone, oldest) && v.buckets[b] !! adding
    requires (k in v.buckets[b] && k !in seen) || oldest == One(k)
    ensures var after := DropAll(v, b, gone);
      && k in v.index && k in after.index && after.index[k] == v.index[k] && Keyed(after.index)
      && b < |after.buckets| && DropAll(v, b, gone + [k]) == DropRef(after, b, k)
  {
    GoneAreBad(v, b, now, seen, gone, oldest, k);
    hide Scanning, Keyed, Sized, RefsBounded, Referenced, Listed, Counted, DropRef;
    DropAllInv(v, adding, b, gone);
    assert (gone + [k])[..|gone|] == gone;
  }

  lemma RoomFor(v: Book, b: nat, k: Key, now: int, gone: seq<Key>)
    requires InvBut(v, {k}) && b < |v.buckets| && k !in v.buckets[b] && k in v.index && Expires(v, b, now, gone)
    ensures var room := DropAll(v, b, gone); b < |room.buckets| && k in room.index && Keyed(room.index)
  {
    GoneInBucket(v, b, now, gone);
    hide Expires, Keyed, Sized, RefsBounded, Referenced, Listed, Counted;
    DropAllInv(v, {k}, b, gone);
  }

  /** The buckets once a key has left the first `i` of them. */
  function Partly(buckets: seq<set<Key>>, k: Key, i: nat): seq<set<Key>> {
    seq(|buckets|, b requires 0 <= b < |buckets| => if b < i then buckets[b] - {k} else buckets[b])
  }

  lemma PartlyNext(buckets: seq<set<Key>>, k: Key, i: nat)
    requires i < |buckets|
    ensures |Partly(buckets, k, i)| == |buckets| && Partly(buckets, k, i)[i] == buckets[i]
    ensures k in buckets[i] ==> Partly(buckets, k, i + 1) == Partly(buckets, k, i)[i := buckets[i] - {k}]
    ensures k !in buckets[i] ==> Partly(buckets, k, i + 1) == Partly(buckets, k, i)
  {
    if k !in buckets[i] {
      assert buckets[i] - {k} == buckets[i];
    }
  }

  lemma PartlyAll(buckets: seq<set<Key>>, k: Key)
    ensures Partly(buckets, k, 0) == buckets && Partly(buckets, k, |buckets|) == Without(buckets, k)
    ensures |Holders(Without(buckets, k), k)| == 0
  {
    HoldersWithout(buckets, k, k);
  }

  /** How far a key has left the new buckets, `i` of them being done; `first` is the first one it was in. */
  ghost predicate Leaving(v: Book, k: Key, i: nat, buckets: seq<set<Key>>, index: map<Key, Known>, first: int) {
    && k in v.index && i <= |v.buckets| && buckets == Partly(v.buckets, k, i)
    && index == v.index[k := Referred(v.index[k], |Holders(buckets, k)|)]
    && FirstHolder(v.buckets, k, 0) == if first == -1 then FirstHolder(v.buckets, k, i) else first
  }

  lemma LeavingStart(v: Book, k: Key)
    requires k in v.index && v.index[k].refs == |Holders(v.buckets, k)|
    ensures Leaving(v, k, 0, v.buckets, v.index, -1)
  {
    PartlyAll(v.buckets, k);
    assert Referred(v.index[k], v.index[k].refs) == v.index[k];
  }

  lemma LeavingNext(v: Book, k: Key, i: nat, buckets: seq<set<Key>>, index: map<Key, Known>, first: int)
    requires Leaving(v, k, i, buckets, index, first) && i < |v.buckets|
    ensures k in index && |buckets| == |v.buckets| && buckets[i] == v.buckets[i]
    ensures k !in buckets[i] ==> Leaving(v, k, i + 1, buckets, index, first)
    ensures k in buckets[i] ==>
      Leaving(v, k, i + 1, buckets[i := buckets[i] - {k}], index[k := Referred(index[k], index[k].refs - 1)],
              if first == -1 then i else first)
  {
    PartlyNext(v.buckets, k, i);
    HoldersDrop(buckets, i, k, k);
    if k in buckets[i] {
      assert i as int in Holders(buckets, k);
    }
    hide Partly, Holders;
  }

  lemma LeavingDone(v: Book, k: Key, buckets: seq<set<Key>>, index: map<Key, Known>, first: int)
    requires Leaving(v, k, |v.buckets|, buckets, index, first)
    ensures first == FirstHolder(v.buckets, k, 0)
    ensures LeaveNew(v, k) == v.(buckets := buckets, index := index, nNew := v.nNew - 1)
  {
    PartlyAll(v.buckets, k);
  }

  /** What holds of the book on the way of a key to its tried list. */
  lemma MovingFacts(v: Book, o: Oracle, k: Key)
    requires Inv(v) && k in v.index && !v.index[k].tried
    ensures |v.tried| == TRIED_BUCKET_COUNT && |v.buckets| == NEW_BUCKET_COUNT
    ensures v.index[k].refs == |Holders(v.buckets, k)| && 0 <= FirstHolder(v.buckets, k, 0) < |v.buckets|
    ensures var left := LeaveNew(v, k);
      && left.tried == v.tried && left.secret == v.secret && |left.buckets| == |v.buckets|
      && left.index.Keys == v.index.Keys && left.index[k].na == v.index[k].na
    ensures forall t, i :: 0 <= t < |v.tried| && 0 <= i < |v.tried[t]| ==>
      v.tried[t][i] in v.index && v.tried[t][i] != k
  {
    HolderFound(v, k);
    forall t, i | 0 <= t < |v.tried| && 0 <= i < |v.tried[t]| ensures v.tried[t][i] in v.index && v.tried[t][i] != k {
      TriedAt(v, t, i);
    }
    hide Listed, Counted, Keyed, RefsBounded, FirstHolder, Holders;
  }

  /** Whether a key that is not bad takes the place of the oldest one so far. */
  predicate Takes(bk: Book, oldest: Choice, k: Key) {
    oldest.One? && oldest.key in bk.index && k in bk.index ==>
      bk.index[k].na.timestamp <= bk.index[oldest.key].na.timestamp
  }

  lemma ScanNext(bk: Book, b: nat, now: int, seen: set<Key>, gone: seq<Key>, oldest: Choice, k: Key)
    requires Scanning(bk, b, now, seen, gone, oldest) && k in bk.buckets[b] && k !in seen
    ensures IsBad(bk.index[k], now) ==> Scanning(bk, b, now, seen + {k}, gone + [k], oldest)
    ensures !IsBad(bk.index[k], now) ==>
      Scanning(bk, b, now, seen + {k}, gone, if Takes(bk, oldest, k) then One(k) else oldest)
  {
    hide IsBad;
    assert forall j :: j in gone ==> j in gone + [k];
    assert k in gone + [k];
  }

  const GET_ADDR_MAX: nat := 2500
  const GET_ADDR_PERCENT: nat := 23

  /** The keys of the entries worth telling: not bad, and reached at least once. */
  ghost function Eligible(index: map<Key, Known>, now: int): set<Key> {
    set k | k in index && !IsBad(index[k], now) && index[k].lastSuccess != ZERO_TIME
  }

  /** Addresses of distinct entries worth telling. */
  ghost predicate Drawn(index: map<Key, Known>, now: int, all: seq<NetAddress>) {
    && (forall i :: 0 <= i < |all| ==> KeyOf(all[i]) in Eligible(index, now) && index[KeyOf(all[i])].na == all[i])
    && (forall i, j :: 0 <= i < j < |all| ==> KeyOf(all[i]) != KeyOf(all[j]))
  }

  /** The addresses of all entries worth telling but those of the keys `todo`. */
  ghost predicate Collected(index: map<Key, Known>, now: int, todo: set<Key>, all: seq<NetAddress>) {
    && Drawn(index, now, all) && |all| == |Eligible(index, now) - todo|
    && forall i :: 0 <= i < |all| ==> KeyOf(all[i]) !in todo
  }

  lemma CollectEnds(index: map<Key, Known>, now: int)
    ensures Collected(index, now, index.Keys, [])
    ensures forall all :: Collected(index, now, {}, all) ==> Drawn(index, now, all) && |all| == |Eligible(index, now)|
  {
    assert Eligible(index, now) - index.Keys == {};
    assert Eligible(index, now) - {} == Eligible(index, now);
  }

  lemma CollectNext(index: map<Key, Known>, now: int, todo: set<Key>, all: seq<NetAddress>, k: Key)
    requires Keyed(index) && Collected(index, now, todo, all) && k in todo && k in index
    ensures !IsBad(index[k], now) && index[k].lastSuccess != ZERO_TIME ==>
      Collected(index, now, todo - {k}, all + [index[k].na])
    ensures IsBad(index[k], now) || index[k].lastSuccess == ZERO_TIME ==> Collected(index, now, todo - {k}, all)
  {
    hide IsBad;
    var before, after := Eligible(index, now) - todo, Eligible(index, now) - (todo - {k});
    if !IsBad(index[k], now) && index[k].lastSuccess != ZERO_TIME {
      assert after == before + {k};
    } else {
      assert after == before;
    }
  }

  /** How many of `n` addresses are told. */
  function Told(n: nat): (t: nat)
    ensures t <= n && t <= GET_ADDR_MAX && 100 * t <= 23 * n
    ensures t < GET_ADDR_MAX ==> 23 * n < 100 * (t + 1)
  {
    var share := n * GET_ADDR_PERCENT / 100;
    if share > GET_ADDR_MAX then GET_ADDR_MAX else share
  }

  /** The new buckets and the tried lists name their entries by key. */
  class AddrManager {
    const oracle: Oracle
    var key: nat
    var addrIndex: map<Key, KnownAddress>
    var addrNew: seq<set<Key>>
    var addrTried: seq<seq<Key>>
    var nNew: int
    var nTried: int
    var addrChanged: bool

    ghost function Index(): map<Key, Known>
      reads this`addrIndex, addrIndex.Values
    {
      map k | k in addrIndex :: addrIndex[k].Contents()
    }

    ghost function View(): Book
      reads this, addrIndex.Values
    {
      Book(key, Index(), addrNew, addrTried, nNew, nTried)
    }

    ghost predicate Valid()
      reads this, addrIndex.Values
    {
      Inv(View())
    }

    constructor (oracle: Oracle, secret: nat)
      ensures Valid() && View() == Empty(secret) && this.oracle == oracle && fresh(addrIndex.Values)
    {
      this.oracle, key, addrIndex, nNew, nTried, addrChanged := oracle, secret, map[], 0, 0, true;
      addrNew := seq(NEW_BUCKET_COUNT, _ => {});
      addrTried := seq(TRIED_BUCKET_COUNT, _ => []);
      new;
      EmptyInv(secret);
      assert Index() == map[];
      assert View() == Empty(secret);
    }

    lemma EntryOf(k: Key)
      requires Keyed(Index())
      ensures k in addrIndex <==> k in Index()
      ensures k in addrIndex ==> Index()[k] == addrIndex[k].Contents() && KeyOf(addrIndex[k].na) == k
    {
    }

    /** Writes one entry in place; no other entry changes with it, since no two keys share one. */
    method Write(k: Key, c: Known)
      requires Keyed(Index()) && k in addrIndex && KeyOf(c.na) == k
      modifies addrIndex[k]
      ensures Keyed(Index()) && Index() == old(Index())[k := c]
    {
      forall j | j in addrIndex ensures KeyOf(addrIndex[j].na) == j {
        EntryOf(j);
      }
      hide Keyed;
      addrIndex[k].Set(c);
      assert Index() == old(Index())[k := c];
      KeyedWith(old(Index()), k, c);
    }

    lemma KeyedWith(index: map<Key, Known>, k: Key, c: Known)
      requires Keyed(index) && KeyOf(c.na) == k
      ensures Keyed(index[k := c])
    {
    }

    method Forget(k: Key)
      requires Keyed(Index()) && k in addrIndex
      modifies this`addrIndex, this`nNew
      ensures Index() == old(Index()) - {k} && Keyed(Index()) && nNew == old(nNew) - 1
      ensures addrIndex == old(addrIndex) - {k}
    {
      nNew := nNew - 1;
      addrIndex := addrIndex - {k};
      assert Index() == old(Index()) - {k};
    }

    /** Takes a key out of a new bucket, and its entry out of the index when no bucket is left to it. */
    method DropRef(b: nat, k: Key)
      requires Keyed(Index()) && b < |addrNew| && k in addrIndex
      modifies this`addrNew, this`addrIndex, this`nNew, this`addrChanged, addrIndex[k]
      ensures View() == AddrBook.DropRef(old(View()), b, k) && Keyed(Index())
      ensures addrIndex.Values <= old(addrIndex.Values)
    {
      EntryOf(k);
      hide Keyed, Index;
      addrNew := addrNew[b := addrNew[b] - {k}];
      addrChanged := true;
      var c := addrIndex[k].Contents();
      Write(k, Referred(c, c.refs - 1));
      if c.refs == 1 {
        assert Index() - {k} == old(Index()) - {k};
        Forget(k);
      }
    }

    method AddRef(b: nat, k: Key)
      requires Keyed(Index()) && b < |addrNew| && k in addrIndex
      modifies this`addrNew, this`addrChanged, addrIndex[k]
      ensures View() == AddrBook.AddRef(old(View()), b, k) && Keyed(Index())
    {
      EntryOf(k);
      hide Keyed, Index;
      var c := addrIndex[k].Contents();
      Write(k, Referred(c, c.refs + 1));
      addrNew := addrNew[b := addrNew[b] + {k}];
      addrChanged := true;
    }

    method Learn(na: NetAddress, src: NetAddress)
      requires Keyed(Index()) && KeyOf(na) !in addrIndex
      modifies this`addrIndex, this`nNew, this`addrChanged
      ensures View() == AddrBook.Learn(old(View()), na, src) && Keyed(Index())
      ensures fresh(addrIndex.Values - old(addrIndex.Values))
    {
      KeyedWith(Index(), KeyOf(na), Known(na, src, 0, ZERO_TIME, ZERO_TIME, false, 0));
      hide Keyed;
      var ka := new KnownAddress(na, src);
      addrIndex := addrIndex[KeyOf(na) := ka];
      nNew := nNew + 1;
      addrChanged := true;
      assert Index() == old(Index())[KeyOf(na) := ka.Contents()];
    }

    /** Meets one key of a bucket that is expired: drops it if it is bad, or compares it with the oldest so far. */
    method ExpireKey(ghost v: Book, ghost adding: set<Key>, b: nat, now: int, ghost seen: set<Key>,
                     ghost before: seq<Key>, oldest: Choice, k: Key) returns (ghost gone: seq<Key>, next: Choice)
      requires InvBut(v, adding) && Scanning(v, b, now, seen, before, oldest) && v.buckets[b] !! adding
      requires View() == DropAll(v, b, before) && k in v.buckets[b] && k !in seen
      modifies this`addrNew, this`addrIndex, this`nNew, this`addrChanged, addrIndex.Values
      ensures Scanning(v, b, now, seen + {k}, gone, next) && View() == DropAll(v, b, gone)
      ensures addrIndex.Values <= old(addrIndex.Values)
    {
      hide InvBut, Scanning, DropAll, AddrBook.DropRef, Index, View, Keyed, IsBad;
      Meet(v, adding, b, now, seen, before, oldest, k);
      gone, next := before, oldest;
      if IsBad(addrIndex[k].Contents(), now) {
        DropRef(b, k);
        gone := gone + [k];
      } else if oldest.Nobody? || addrIndex[k].na.timestamp <= addrIndex[oldest.key].na.timestamp {
        next := One(k);
      }
    }

    /** Makes room in a new bucket, in whatever order its keys are met. */
    method ExpireNew(b: nat, now: int, ghost adding: set<Key>) returns (ghost gone: seq<Key>)
      requires InvBut(View(), adding) && b < |addrNew| && addrNew[b] !! adding
      modifies this`addrNew, this`addrIndex, this`nNew, this`addrChanged, addrIndex.Values
      ensures Expires(old(View()), b, now, gone) && View() == DropAll(old(View()), b, gone)
      ensures addrIndex.Values <= old(addrIndex.Values)
    {
      ghost var v := View();
      var todo, oldest := addrNew[b], Nobody;
      gone := [];
      ScanStart(v, adding, b, now);
      hide InvBut, Scanning, DropAll, AddrBook.DropRef, Expires, Index, View, Keyed;
      assert v.buckets[b] - todo == {};
      while todo != {}
        invariant todo <= v.buckets[b] && Scanning(v, b, now, v.buckets[b] - todo, gone, oldest)
        invariant View() == DropAll(v, b, gone) && addrIndex.Values <= old(addrIndex.Values)
      {
        var k :| k in todo;
        assert v.buckets[b] - todo + {k} == v.buckets[b] - (todo - {k});
        gone, oldest := ExpireKey(v, adding, b, now, v.buckets[b] - todo, gone, oldest, k);
        todo := todo - {k};
      }
      assert v.buckets[b] - todo == v.buckets[b];
      ScanDone(v, b, now, gone, oldest);
      if oldest.One? {
        StillThere(v, adding, b, now, v.buckets[b], gone, oldest, oldest.key);
        DropRef(b, oldest.key);
        gone := gone + [oldest.key];
      }
    }

    /** What the next key of the bucket does to the search, told from its entry in memory. */
    lemma Meet(v: Book, adding: set<Key>, b: nat, now: int, seen: set<Key>, gone: seq<Key>, oldest: Choice, k: Key)
      requires InvBut(v, adding) && Scanning(v, b, now, seen, gone, oldest) && v.buckets[b] !! adding
      requires View() == DropAll(v, b, gone) && k in v.buckets[b] && k !in seen
      ensures k in addrIndex && Keyed(Index()) && b < |addrNew| && (oldest.One? ==> oldest.key in addrIndex)
      ensures IsBad(addrIndex[k].Contents(), now) ==>
        && Scanning(v, b, now, seen + {k}, gone + [k], oldest)
        && DropAll(v, b, gone + [k]) == AddrBook.DropRef(View(), b, k)
      ensures !IsBad(addrIndex[k].Contents(), now) ==>
        Scanning(v, b, now, seen + {k}, gone,
                 if oldest.Nobody? || addrIndex[k].na.timestamp <= addrIndex[oldest.key].na.timestamp then One(k)
                 else oldest)
    {
      hide InvBut, Scanning, DropAll, AddrBook.DropRef, Index, View, Keyed, IsBad;
      StillThere(v, adding, b, now, seen, gone, oldest, k);
      ScanNext(v, b, now, seen, gone, oldest, k);
      if oldest.One? {
        StillThere(v, adding, b, now, seen, gone, oldest, oldest.key);
      }
    }

    /** A key of the bucket that has not been dropped still has the entry it had. */
    lemma StillThere(v: Book, adding: set<Key>, b: nat, now: int, seen: set<Key>, gone: seq<Key>, oldest: Choice,
                     k: Key)
      requires InvBut(v, adding) && Scanning(v, b, now, seen, gone, oldest) && v.buckets[b] !! adding
      requires View() == DropAll(v, b, gone) && ((k in v.buckets[b] && k !in seen) || oldest == One(k))
      ensures k in addrIndex && k in v.index && addrIndex[k].Contents() == v.index[k]
      ensures Keyed(Index()) && b < |addrNew|
      ensures DropAll(v, b, gone + [k]) == AddrBook.DropRef(View(), b, k)
    {
      StillKnown(v, adding, b, now, seen, gone, oldest, k);
      hide InvBut, IsBad, Scanning, DropAll, AddrBook.DropRef, Keyed;
      EntryOf(k);
    }

    // ---- Announcements ----

    method RefreshEntry(na: NetAddress)
      requires Valid() && KeyOf(na) in addrIndex
      modifies addrIndex.Values
      ensures View() == Refresh(old(View()), na) && Valid()
    {
      var k := KeyOf(na);
      RefreshInv(View(), na);
      EntryOf(k);
      hide InvBut, Index, Keyed;
      var c := addrIndex[k].Contents();
      if na.timestamp > c.na.timestamp || !Covers(c.na.services, na.services) {
        Write(k, Refreshed(c, na));
      } else {
        assert View().index[k := c] == View().index;
      }
    }

    /** Puts an entry into a new bucket, after making room there. */
    method Place(b: nat, k: Key, now: int) returns (ghost gone: seq<Key>)
      requires InvBut(View(), {k}) && k in addrIndex && b < |addrNew| && k !in addrNew[b]
      modifies this`addrNew, this`addrIndex, this`nNew, this`addrChanged, addrIndex.Values
      ensures |old(addrNew)[b]| > NEW_BUCKET_SIZE ==> Expires(old(View()), b, now, gone)
      ensures var room := if |old(addrNew)[b]| > NEW_BUCKET_SIZE then DropAll(old(View()), b, gone) else old(View());
        b < |room.buckets| && k in room.index && View() == AddrBook.AddRef(room, b, k)
      ensures addrIndex.Values <= old(addrIndex.Values)
    {
      ghost var v := View();
      gone := [];
      EntryOf(k);
      hide InvBut, Expires, DropAll, AddrBook.AddRef, Index, Keyed;
      if |addrNew[b]| > NEW_BUCKET_SIZE {
        gone := ExpireNew(b, now, {k});
        RoomFor(v, b, k, now, gone);
        EntryOf(k);
      }
      AddRef(b, k);
    }

    /** Refreshes a known address or starts an entry for an unknown one, and tells whether it goes on to a bucket. */
    method Announce(na: NetAddress, src: NetAddress, dice: nat) returns (stops: bool)
      requires Valid() && oracle.routable(na)
      modifies this`addrIndex, this`nNew, this`addrChanged, addrIndex.Values
      ensures stops == Stops(old(View()), oracle, na, dice)
      ensures View() == if stops then Refresh(old(View()), na) else Announced(old(View()), na, src)
      ensures fresh(addrIndex.Values - old(addrIndex.Values))
    {
      var k := KeyOf(na);
      EntryOf(k);
      hide InvBut, Index, Keyed, AddrBook.Learn;
      if k in addrIndex {
        stops := addrIndex[k].tried || addrIndex[k].refs == NEW_BUCKETS_PER_ADDRESS;
        if !stops {
          DrawIsPossible(View(), k);
          assert addrIndex[k].refs >= 1;
          stops := Int31n(dice, 2 * addrIndex[k].refs) != 0;
        }
        RefreshEntry(na);
      } else {
        stops := false;
        Learn(na, src);
      }
    }

    /** What an announcement does, in place; `dice` says which number below twice the reference count is drawn. */
    method UpdateAddress(na: NetAddress, src: NetAddress, dice: nat, now: int) returns (ghost gone: seq<Key>)
      requires Valid()
      modifies this`addrNew, this`addrIndex, this`nNew, this`addrChanged, addrIndex.Values
      ensures |old(View()).buckets| == NEW_BUCKET_COUNT && MayExpire(old(View()), oracle, na, src, dice, now, gone)
      ensures View() == AddrBook.UpdateAddress(old(View()), oracle, na, src, dice, gone) && Valid()
      ensures AnnounceRight(old(View()), oracle, na, src, dice, gone, View())
      ensures fresh(addrIndex.Values - old(addrIndex.Values))
    {
      ghost var v := View();
      var k := KeyOf(na);
      gone := [];
      KnownOrAbsent(v, k);
      hide InvBut, Index, Keyed, Refresh, AddrBook.Learn, DropAll, AddrBook.AddRef, Expires, Stops, Announced,
           AnnounceRight;
      if oracle.routable(na) {
        var stops := Announce(na, src, dice);
        if !stops {
          AnnouncedInv(v, oracle, na, src, dice);
          EntryOf(k);
          var b := NewBucket(oracle, key, na, src);
          if k !in addrNew[b] {
            gone := Place(b, k, now);
          }
        }
      }
      UpdateAddressInv(v, oracle, na, src, dice, now, gone);
      UpdateAnswers(v, oracle, na, src, dice, now, gone);
    }

    // ---- What is learnt about an address ----

    /** Writes an entry without touching what places it. */
    method Amended(k: Key, c: Known)
      requires Valid() && k in addrIndex && Amends(addrIndex[k].Contents(), c)
      modifies addrIndex[k]
      ensures Valid() && View() == Amend(old(View()), k, c)
    {
      EntryOf(k);
      AmendsInv(View(), k, c);
      hide InvBut, Index, Keyed;
      Write(k, c);
    }

    method Attempt(addr: NetAddress, now: int)
      requires Valid()
      modifies addrIndex.Values
      ensures Valid() && View() == AddrBook.Attempt(old(View()), addr, now)
      ensures AttemptRight(old(View()), addr, now, View())
    {
      AttemptAnswers(View(), addr, now);
      var k := KeyOf(addr);
      EntryOf(k);
      hide Inv, Index;
      if k in addrIndex {
        Amended(k, Attempted(addrIndex[k].Contents(), now));
      }
    }

    method Connected(addr: NetAddress, now: int)
      requires Valid()
      modifies addrIndex.Values
      ensures Valid() && View() == AddrBook.Connected(old(View()), addr, now)
      ensures ConnectedRight(old(View()), addr, now, View())
    {
      ConnectedAnswers(View(), addr, now);
      var k := KeyOf(addr);
      EntryOf(k);
      hide Inv, Index;
      if k in addrIndex && now > addrIndex[k].na.timestamp + 20 * 60 {
        var c := addrIndex[k].Contents();
        Amended(k, c.(na := c.na.(timestamp := now)));
      }
    }

    method SetServices(addr: NetAddress, services: bv64)
      requires Valid()
      modifies addrIndex.Values
      ensures Valid() && View() == AddrBook.SetServices(old(View()), addr, services)
      ensures ServicesRight(old(View()), addr, services, View())
    {
      SetServicesAnswers(View(), addr, services);
      var k := KeyOf(addr);
      EntryOf(k);
      hide Inv, Index;
      if k in addrIndex && addrIndex[k].na.services != services {
        var c := addrIndex[k].Contents();
        Amended(k, c.(na := c.na.(services := services)));
      }
    }

    // ---- The way to the tried lists ----

    /** The place of the first of the oldest entries of a tried list. */
    method PickTried(t: nat) returns (oldest: int)
      requires t < |addrTried| && addrTried[t] != [] && forall k :: k in addrTried[t] ==> k in addrIndex
      ensures oldest == OldestTried(View(), addrTried[t])
    {
      var list := addrTried[t];
      oldest := -1;
      for i := 0 to |list|
        invariant i == 0 ==> oldest == -1
        invariant i > 0 ==> oldest == OldestTried(View(), list[..i])
      {
        assert list[i] in list && list[..i + 1][..i] == list[..i];
        if oldest == -1 || addrIndex[list[oldest]].na.timestamp > addrIndex[list[i]].na.timestamp {
          oldest := i;
        }
      }
      assert list[..|list|] == list;
    }

    method LeaveBucket(b: nat, k: Key)
      requires Keyed(Index()) && b < |addrNew| && k in addrIndex
      modifies this`addrNew, this`addrChanged, addrIndex[k]
      ensures Keyed(Index()) && k in Index() && addrNew == old(addrNew)[b := old(addrNew)[b] - {k}]
      ensures k in old(Index()) && Index() == old(Index())[k := Referred(old(Index())[k], old(Index())[k].refs - 1)]
    {
      EntryOf(k);
      hide Keyed, Index;
      addrNew := addrNew[b := addrNew[b] - {k}];
      addrChanged := true;
      var c := addrIndex[k].Contents();
      Write(k, Referred(c, c.refs - 1));
    }

    /** Visits one new bucket on the way out of all of them. */
    method LeaveNext(ghost v: Book, k: Key, i: nat, before: int) returns (first: int)
      requires Keyed(Index()) && Leaving(v, k, i, addrNew, Index(), before) && i < |v.buckets| && k in addrIndex
      modifies this`addrNew, this`addrChanged, addrIndex[k]
      ensures Keyed(Index()) && Leaving(v, k, i + 1, addrNew, Index(), first)
    {
      hide Keyed, Index, Leaving, Referred;
      LeavingNext(v, k, i, addrNew, Index(), before);
      first := before;
      if k in addrNew[i] {
        LeaveBucket(i, k);
        if first == -1 {
          first := i;
        }
      }
    }

    /** Takes a key out of every new bucket, from the first on. */
    method LeaveBuckets(k: Key) returns (first: int)
      requires Keyed(Index()) && k in addrIndex && addrIndex[k].refs == |Holders(addrNew, k)|
      modifies this`addrNew, this`addrChanged, this`nNew, addrIndex[k]
      ensures first == FirstHolder(old(addrNew), k, 0)
      ensures View() == LeaveNew(old(View()), k) && Keyed(Index())
    {
      ghost var v := View();
      EntryOf(k);
      LeavingStart(v, k);
      hide Keyed, Index, Holders, Leaving, LeaveNew;
      first := -1;
      for i := 0 to |addrNew|
        invariant Keyed(Index()) && nNew == v.nNew && Leaving(v, k, i, addrNew, Index(), first)
      {
        first := LeaveNext(v, k, i, first);
      }
      LeavingDone(v, k, addrNew, Index(), first);
      nNew := nNew - 1;
    }

    /** Sets the flag of an entry and changes its reference count. */
    method Mark(k: Key, tried: bool, more: int)
      requires Keyed(Index()) && k in addrIndex
      modifies addrIndex[k]
      ensures Keyed(Index()) && k in old(Index())
      ensures Index() == old(Index())[k := Marked(old(Index())[k], tried, more)]
    {
      EntryOf(k);
      hide Keyed, Index;
      Write(k, Marked(addrIndex[k].Contents(), tried, more));
    }

    method PushTried(k: Key, t: nat)
      requires Keyed(Index()) && k in addrIndex && t < |addrTried|
      modifies this`addrTried, this`nTried, this`addrChanged, addrIndex[k]
      ensures View() == AddrBook.PushTried(old(View()), k, t)
    {
      EntryOf(k);
      hide Keyed, Index, Marked;
      Mark(k, true, 0);
      addrTried := addrTried[t := addrTried[t] + [k]];
      addrChanged := true;
      nTried := nTried + 1;
    }

    method Relist(tried: seq<seq<Key>>, buckets: seq<set<Key>>)
      modifies this`addrTried, this`addrNew, this`nNew
      ensures Index() == old(Index()) && addrTried == tried && addrNew == buckets && nNew == old(nNew) + 1
    {
      addrTried, addrNew, nNew := tried, buckets, nNew + 1;
    }

    method SwapTried(k: Key, t: nat, i: nat, b: nat)
      requires Keyed(Index()) && k in addrIndex && t < |addrTried| && i < |addrTried[t]| && b < |addrNew|
      requires addrTried[t][i] in addrIndex && addrTried[t][i] != k
      modifies this`addrTried, this`addrNew, this`nNew, addrIndex.Values
      ensures View() == AddrBook.SwapTried(old(View()), k, t, i, b)
    {
      var out := addrTried[t][i];
      EntryOf(k);
      EntryOf(out);
      hide Keyed, Index, Marked;
      Mark(k, true, 0);
      Mark(out, false, 1);
      Relist(addrTried[t := addrTried[t][i := k]], addrNew[b := addrNew[b] + {out}]);
    }

    /** Puts an entry into its tried list, swapping it for an old one if there is no room. */
    method EnterTried(k: Key, t: nat, first: nat)
      requires Keyed(Index()) && k in addrIndex && t < |addrTried| && |addrNew| == NEW_BUCKET_COUNT && first < |addrNew|
      requires forall i :: 0 <= i < |addrTried[t]| ==> addrTried[t][i] in addrIndex && addrTried[t][i] != k
      modifies this`addrNew, this`addrTried, this`addrChanged, this`nNew, this`nTried, addrIndex.Values
      ensures k in old(Index()) && View() == AddrBook.EnterTried(old(View()), oracle, k, t, first)
    {
      EntryOf(k);
      if |addrTried[t]| < TRIED_BUCKET_SIZE {
        hide Keyed, Index, AddrBook.PushTried;
        PushTried(k, t);
      } else {
        var i := PickTried(t);
        var out := addrTried[t][i];
        EntryOf(out);
        hide Keyed, Index, AddrBook.SwapTried, OldestTried;
        var b := NewBucket(oracle, key, addrIndex[out].na, addrIndex[out].srcAddr);
        SwapTried(k, t, i, if |addrNew[b]| >= NEW_BUCKET_SIZE then first else b);
      }
    }

    /** Moves an untried entry from its new buckets to its tried list. */
    method MoveToTried(k: Key)
      requires Valid() && k in addrIndex && !addrIndex[k].tried
      modifies this`addrNew, this`addrTried, this`addrChanged, this`nNew, this`nTried, addrIndex.Values
      ensures k in old(View()).index
      ensures |old(View()).tried| == TRIED_BUCKET_COUNT && |old(View()).buckets| == NEW_BUCKET_COUNT
      ensures View() == AddrBook.MoveToTried(old(View()), oracle, k)
    {
      ghost var v := View();
      EntryOf(k);
      MovingFacts(v, oracle, k);
      hide InvBut, Keyed, Index, LeaveNew, AddrBook.EnterTried, FirstHolder, Holders;
      var first := LeaveBuckets(k);
      EntryOf(k);
      EnterTried(k, TriedBucket(oracle, key, addrIndex[k].na), first);
    }

    method Good(addr: NetAddress, now: int)
      requires Valid()
      modifies this`addrNew, this`addrTried, this`addrChanged, this`nNew, this`nTried, addrIndex.Values
      ensures |old(View()).tried| == TRIED_BUCKET_COUNT && |old(View()).buckets| == NEW_BUCKET_COUNT
      ensures View() == AddrBook.Good(old(View()), oracle, addr, now) && Valid()
      ensures GoodRight(old(View()), oracle, addr, now, View())
    {
      var k := KeyOf(addr);
      EntryOf(k);
      KnownOrAbsent(View(), k);
      GoodInv(View(), oracle, addr, now);
      GoodAnswers(View(), oracle, addr, now);
      hide InvBut, Keyed, Index, AddrBook.MoveToTried, GoodRight;
      if k in addrIndex {
        Amended(k, Succeeded(addrIndex[k].Contents(), now));
        if !addrIndex[k].tried {
          MoveToTried(k);
        }
      }
    }

    // ---- What is told to others ----

    /** Lists the address of every entry worth telling, each once. */
    method Worthy(now: int) returns (all: seq<NetAddress>)
      requires Keyed(Index())
      ensures Drawn(Index(), now, all) && |all| == |Eligible(Index(), now)|
    {
      all := [];
      var todo := addrIndex.Keys;
      CollectEnds(Index(), now);
      assert Index().Keys == todo;
      hide Keyed, Index, Collected, Drawn, Eligible, IsBad;
      while todo != {}
        invariant todo <= addrIndex.Keys && Collected(Index(), now, todo, all)
      {
        var k :| k in todo;
        EntryOf(k);
        CollectNext(Index(), now, todo, all, k);
        todo := todo - {k};
        if !IsBad(addrIndex[k].Contents(), now) && addrIndex[k].lastSuccess != ZERO_TIME {
          all := all + [addrIndex[k].na];
        }
      }
    }

    /** A random part of the addresses worth telling: no address twice, none that is not worth it, and as many as the
        two limits allow. `draw` gives the random numbers. */
    method AddressCache(now: int, draw: nat -> nat) returns (cache: seq<NetAddress>)
      requires Valid()
      ensures Drawn(Index(), now, cache)
      ensures |cache| == Told(|Eligible(Index(), now)|)
    {
      EntryKeyed();
      var all := Worthy(now);
      hide InvBut, Index, Eligible;
      var n := Told(|all|);
      for i := 0 to n
        invariant Drawn(Index(), now, all) && |all| == |Eligible(Index(), now)|
      {
        var j := draw(i) % (|all| - i) + i;
        all := all[i := all[j]][j := all[i]];
      }
      return all[..n];
    }

    lemma EntryKeyed()
      requires Valid()
      ensures Keyed(Index())
    {
    }
  }
}
