/** What each operation of the address manager does to the book, told by its fields before and after. */
module AddrAnswer {
  import opened AddrBook
  import opened AddrBookProof
  import opened AddrOps

  // ---- Announcements ----

  ghost predicate Brings(have: bv64, told: bv64) {
    have & told != told
  }

  ghost function Both(have: bv64, told: bv64): bv64 {
    have | told
  }

  /** An announcement of a known address gives it the later time, the time told if it brings new services, and the
      services of both. */
  ghost predicate RefreshedRight(before: Known, na: NetAddress, after: Known) {
    && after == before.(na := after.na, refs := after.refs)
    && after.na.ip == before.na.ip && after.na.port == before.na.port
    && after.na.services == Both(before.na.services, na.services)
    && after.na.timestamp ==
         if na.timestamp > before.na.timestamp || Brings(before.na.services, na.services)
         then na.timestamp else before.na.timestamp
  }

  /** An address goes to its bucket if it is new, or if it is untried, has references to spare and the draw is zero. */
  ghost predicate GoesOn(bk: Book, k: Key, dice: nat) {
    k in bk.index ==> !bk.index[k].tried && 0 < bk.index[k].refs < 8 && dice % (2 * bk.index[k].refs) == 0
  }

  ghost predicate Enters(bk: Book, k: Key, b: nat, dice: nat)
    requires b < |bk.buckets|
  {
    GoesOn(bk, k, dice) && k !in bk.buckets[b]
  }

  ghost function Elems(gone: seq<Key>): set<Key> {
    set j | j in gone
  }

  /** What makes room for it, which is nothing unless the bucket is overfull. */
  ghost function Out(bk: Book, k: Key, b: nat, dice: nat, gone: seq<Key>): set<Key>
    requires b < |bk.buckets|
  {
    if Enters(bk, k, b, dice) && |bk.buckets[b]| > 64 then Elems(gone) else {}
  }

  ghost predicate BucketsRight(bk: Book, k: Key, b: nat, dice: nat, out: set<Key>, after: Book)
    requires b < |bk.buckets|
  {
    && |after.buckets| == |bk.buckets|
    && (forall c :: 0 <= c < |bk.buckets| && c != b ==> after.buckets[c] == bk.buckets[c])
    && after.buckets[b] == bk.buckets[b] - out + (if Enters(bk, k, b, dice) then {k} else {})
    && after.tried == bk.tried && after.nTried == bk.nTried && after.secret == bk.secret
  }

  /** Nobody else's entry changes but by the reference that is taken from it, with the last of which it goes. */
  ghost predicate OthersRight(bk: Book, k: Key, out: set<Key>, after: Book) {
    && (forall j :: j != k ==> (j in after.index <==> j in bk.index && !(j in out && bk.index[j].refs == 1)))
    && (forall j :: j != k && j in after.index && j in bk.index ==>
          after.index[j] == bk.index[j].(refs := if j in out then bk.index[j].refs - 1 else bk.index[j].refs))
  }

  ghost predicate EntryRight(bk: Book, na: NetAddress, src: NetAddress, enters: bool, after: Book) {
    var k := KeyOf(na);
    && k in after.index
    && if k in bk.index then
         && RefreshedRight(bk.index[k], na, after.index[k])
         && after.index[k].refs == bk.index[k].refs + if enters then 1 else 0
       else after.index[k] == Known(na, src, 0, ZERO_TIME, ZERO_TIME, false, 1)
  }

  ghost predicate AnnounceRight(bk: Book, o: Oracle, na: NetAddress, src: NetAddress, dice: nat, gone: seq<Key>,
                                after: Book)
    requires |bk.buckets| == NEW_BUCKET_COUNT
  {
    if !o.routable(na) then after == bk
    else
      var k, b := KeyOf(na), NewBucket(o, bk.secret, na, src);
      var out := Out(bk, k, b, dice, gone);
      && BucketsRight(bk, k, b, dice, out, after) && OthersRight(bk, k, out, after)
      && EntryRight(bk, na, src, Enters(bk, k, b, dice), after)
  }

  lemma ServicesMean(have: bv64, told: bv64)
    ensures Brings(have, told) <==> !Covers(have, told)
    ensures Both(have, told) == Joined(have, told)
  {
  }

  lemma RefreshIs(ka: Known, na: NetAddress)
    ensures RefreshedRight(ka, na, Refreshed(ka, na)) && Refreshed(ka, na).refs == ka.refs
  {
    hide Covers, Joined, Brings, Both;
    ServicesMean(ka.na.services, na.services);
    ServicesOnlyGrow(ka, na);
  }

  lemma StopsIff(bk: Book, o: Oracle, na: NetAddress, dice: nat)
    requires Inv(bk)
    ensures Stops(bk, o, na, dice) <==> !o.routable(na) || !GoesOn(bk, KeyOf(na), dice)
  {
    var k := KeyOf(na);
    KnownOrAbsent(bk, k);
    if k in bk.index && !bk.index[k].tried {
      DrawIsPossible(bk, k);
    }
    hide Inv;
  }

  lemma DropRefOthers(bk: Book, rest: Book, k: Key, out: set<Key>, b: nat, g: Key)
    requires OthersRight(bk, k, out, rest) && g !in out && g != k && g in bk.index && g in rest.index
    requires b < |rest.buckets|
    ensures OthersRight(bk, k, out + {g}, DropRef(rest, b, g))
    ensures var after := DropRef(rest, b, g);
      && (k in after.index <==> k in rest.index) && (k in rest.index ==> after.index[k] == rest.index[k])
      && after.buckets == rest.buckets[b := rest.buckets[b] - {g}]
      && after.tried == rest.tried && after.nTried == rest.nTried && after.secret == rest.secret
  {
  }

  /** Several keys out of one bucket. */
  lemma {:induction false} DropAllIs(bk: Book, k: Key, b: nat, gone: seq<Key>)
    requires b < |bk.buckets| && k !in gone
    requires forall i, j :: 0 <= i < j < |gone| ==> gone[i] != gone[j]
    requires forall i :: 0 <= i < |gone| ==> gone[i] in bk.index
    ensures var after, out := DropAll(bk, b, gone), Elems(gone);
      && after.buckets == bk.buckets[b := bk.buckets[b] - out] && OthersRight(bk, k, out, after)
      && (k in after.index <==> k in bk.index) && (k in bk.index ==> after.index[k] == bk.index[k])
      && after.tried == bk.tried && after.nTried == bk.nTried && after.secret == bk.secret
  {
    if gone == [] {
      assert Elems(gone) == {};
      assert bk.buckets[b] - {} == bk.buckets[b];
      assert bk.buckets[b := bk.buckets[b]] == bk.buckets;
    } else {
      var front, g := gone[..|gone| - 1], gone[|gone| - 1];
      DropAllIs(bk, k, b, front);
      var rest := DropAll(bk, b, front);
      assert g !in front && Elems(gone) == Elems(front) + {g};
      assert g in rest.index;
      hide DropRef, OthersRight, Elems;
      DropRefOthers(bk, rest, k, Elems(front), b, g);
      assert bk.buckets[b] - Elems(front) - {g} == bk.buckets[b] - (Elems(front) + {g});
    }
  }

  lemma AnnouncedIs(bk: Book, na: NetAddress, src: NetAddress)
    ensures var mid, k := Announced(bk, na, src), KeyOf(na);
      && mid.buckets == bk.buckets && mid.tried == bk.tried && mid.nTried == bk.nTried && mid.secret == bk.secret
      && k in mid.index && OthersRight(bk, k, {}, mid)
      && (k in bk.index ==> RefreshedRight(bk.index[k], na, mid.index[k]) && mid.index[k].refs == bk.index[k].refs)
      && (k !in bk.index ==> mid.index[k] == Known(na, src, 0, ZERO_TIME, ZERO_TIME, false, 0))
  {
    if KeyOf(na) in bk.index {
      RefreshIs(bk.index[KeyOf(na)], na);
    }
    hide Refreshed, RefreshedRight;
  }

  lemma GoneIsKnown(bk: Book, adding: set<Key>, b: nat, now: int, gone: seq<Key>)
    requires InvBut(bk, adding) && b < |bk.buckets| && Expires(bk, b, now, gone)
    ensures forall i :: 0 <= i < |gone| ==> gone[i] in bk.index && gone[i] in bk.buckets[b]
    ensures forall i, j :: 0 <= i < j < |gone| ==> gone[i] != gone[j]
  {
    hide Keyed, RefsBounded, Listed, Counted, Sized, IsBad, Holders;
  }

  lemma AddRefIs(bk: Book, room: Book, k: Key, b: nat, out: set<Key>)
    requires b < |room.buckets| && k in room.index && OthersRight(bk, k, out, room)
    ensures var after := AddRef(room, b, k);
      && OthersRight(bk, k, out, after) && after.buckets == room.buckets[b := room.buckets[b] + {k}]
      && k in after.index && after.index[k] == room.index[k].(refs := room.index[k].refs + 1)
      && after.tried == room.tried && after.nTried == room.nTried && after.secret == room.secret
  {
  }

  lemma OthersThrough(bk: Book, mid: Book, k: Key, out: set<Key>, after: Book)
    requires OthersRight(bk, k, {}, mid) && OthersRight(mid, k, out, after)
    ensures OthersRight(bk, k, out, after)
  {
  }

  /** The same but for what made room in one bucket. */
  ghost predicate Roomier(mid: Book, k: Key, b: nat, out: set<Key>, room: Book)
    requires b < |mid.buckets|
  {
    && room.buckets == mid.buckets[b := mid.buckets[b] - out]
    && (k in room.index <==> k in mid.index) && (k in mid.index ==> room.index[k] == mid.index[k])
    && room.tried == mid.tried && room.nTried == mid.nTried && room.secret == mid.secret
  }

  lemma RoomIs(bk: Book, mid: Book, k: Key, b: nat, now: int, gone: seq<Key>)
    requires InvBut(mid, {k}) && b < |mid.buckets| && k !in mid.buckets[b] && OthersRight(bk, k, {}, mid)
    requires |mid.buckets[b]| > NEW_BUCKET_SIZE ==> Expires(mid, b, now, gone)
    ensures var full := |mid.buckets[b]| > NEW_BUCKET_SIZE;
      var out, room := if full then Elems(gone) else {}, if full then DropAll(mid, b, gone) else mid;
      OthersRight(bk, k, out, room) && Roomier(mid, k, b, out, room)
  {
    hide InvBut, Expires, DropAll, OthersRight, Elems;
    if |mid.buckets[b]| > NEW_BUCKET_SIZE {
      GoneIsKnown(mid, {k}, b, now, gone);
      DropAllIs(mid, k, b, gone);
      OthersThrough(bk, mid, k, Elems(gone), DropAll(mid, b, gone));
    } else {
      assert mid.buckets[b] - {} == mid.buckets[b];
      assert mid.buckets[b := mid.buckets[b]] == mid.buckets;
    }
  }

  lemma BucketsCompose(bk: Book, mid: Book, k: Key, b: nat, dice: nat, out: set<Key>, room: Book, after: Book)
    requires b < |bk.buckets| && mid.buckets == bk.buckets && Roomier(mid, k, b, out, room) && Enters(bk, k, b, dice)
    requires mid.tried == bk.tried && mid.nTried == bk.nTried && mid.secret == bk.secret
    requires after.buckets == room.buckets[b := room.buckets[b] + {k}]
    requires after.tried == room.tried && after.nTried == room.nTried && after.secret == room.secret
    ensures BucketsRight(bk, k, b, dice, out, after)
  {
    hide Enters;
  }

  lemma EntryCompose(bk: Book, na: NetAddress, src: NetAddress, mid: Book, after: Book)
    requires var k := KeyOf(na);
      && k in mid.index && k in after.index && after.index[k] == mid.index[k].(refs := mid.index[k].refs + 1)
      && (k in bk.index ==> RefreshedRight(bk.index[k], na, mid.index[k]) && mid.index[k].refs == bk.index[k].refs)
      && (k !in bk.index ==> mid.index[k] == Known(na, src, 0, ZERO_TIME, ZERO_TIME, false, 0))
    ensures EntryRight(bk, na, src, true, after)
  {
  }

  /** The case in which the address enters its bucket. */
  lemma EnteringIs(bk: Book, o: Oracle, na: NetAddress, src: NetAddress, dice: nat, now: int, gone: seq<Key>)
    requires Inv(bk) && |bk.buckets| == NEW_BUCKET_COUNT && MayExpire(bk, o, na, src, dice, now, gone)
    requires !Stops(bk, o, na, dice) && Enters(bk, KeyOf(na), NewBucket(o, bk.secret, na, src), dice)
    ensures AnnounceRight(bk, o, na, src, dice, gone, UpdateAddress(bk, o, na, src, dice, gone))
  {
    hide InvBut, Announced, Expires, DropAll, AddRef, OthersRight, RefreshedRight, Refresh, GoesOn, Roomier,
         BucketsRight, EntryRight, Stops, Elems;
    var k, b, mid := KeyOf(na), NewBucket(o, bk.secret, na, src), Announced(bk, na, src);
    AnnouncedInv(bk, o, na, src, dice);
    AnnouncedIs(bk, na, src);
    RoomIs(bk, mid, k, b, now, gone);
    var out := Out(bk, k, b, dice, gone);
    var room := if |bk.buckets[b]| > NEW_BUCKET_SIZE then DropAll(mid, b, gone) else mid;
    assert k in room.index && b < |room.buckets| by { RoomHas(mid, k, b, out, room); }
    AddRefIs(bk, room, k, b, out);
    var after := AddRef(room, b, k);
    BucketsCompose(bk, mid, k, b, dice, out, room, after);
    assert room.index[k] == mid.index[k] by { RoomHas(mid, k, b, out, room); }
    EntryCompose(bk, na, src, mid, after);
  }

  lemma RoomHas(mid: Book, k: Key, b: nat, out: set<Key>, room: Book)
    requires b < |mid.buckets| && Roomier(mid, k, b, out, room) && k in mid.index
    ensures k in room.index && room.index[k] == mid.index[k] && b < |room.buckets|
  {
  }

  /** The case in which a known address is only refreshed. */
  lemma StayingIs(bk: Book, o: Oracle, na: NetAddress, src: NetAddress, dice: nat, gone: seq<Key>)
    requires |bk.buckets| == NEW_BUCKET_COUNT && KeyOf(na) in bk.index && o.routable(na)
    requires !Enters(bk, KeyOf(na), NewBucket(o, bk.secret, na, src), dice)
    ensures AnnounceRight(bk, o, na, src, dice, gone, Refresh(bk, na))
  {
    AnnouncedIs(bk, na, src);
    hide Enters, OthersRight, RefreshedRight, Refreshed;
    var b := NewBucket(o, bk.secret, na, src);
    assert bk.buckets[b] - {} + {} == bk.buckets[b];
  }

  /** Every announcement. */
  lemma UpdateAnswers(bk: Book, o: Oracle, na: NetAddress, src: NetAddress, dice: nat, now: int, gone: seq<Key>)
    requires Inv(bk) && |bk.buckets| == NEW_BUCKET_COUNT && MayExpire(bk, o, na, src, dice, now, gone)
    ensures AnnounceRight(bk, o, na, src, dice, gone, UpdateAddress(bk, o, na, src, dice, gone))
  {
    var k, b := KeyOf(na), NewBucket(o, bk.secret, na, src);
    StopsIff(bk, o, na, dice);
    KnownOrAbsent(bk, k);
    hide Inv, MayExpire, AnnounceRight, GoesOn, Stops, Refresh;
    if Enters(bk, k, b, dice) && o.routable(na) {
      EnteringIs(bk, o, na, src, dice, now, gone);
    } else if o.routable(na) {
      assert k in bk.index by { NewOnesEnter(bk, k, b, dice); }
      StayingIs(bk, o, na, src, dice, gone);
    } else {
      NotRoutableIs(bk, o, na, src, dice, gone);
    }
  }

  lemma NotRoutableIs(bk: Book, o: Oracle, na: NetAddress, src: NetAddress, dice: nat, gone: seq<Key>)
    requires |bk.buckets| == NEW_BUCKET_COUNT && !o.routable(na)
    ensures AnnounceRight(bk, o, na, src, dice, gone, bk)
  {
  }

  lemma NewOnesEnter(bk: Book, k: Key, b: nat, dice: nat)
    requires Inv(bk) && b < |bk.buckets| && !Enters(bk, k, b, dice)
    ensures k in bk.index
  {
    KnownOrAbsent(bk, k);
    hide Inv;
  }

  // ---- What is learnt about an address ----

  /** Nothing but the entry of `k` changes. */
  ghost predicate OnlyEntry(bk: Book, k: Key, after: Book) {
    && after == bk.(index := after.index) && after.index.Keys == bk.index.Keys && k in after.index
    && forall j :: j in bk.index && j != k ==> after.index[j] == bk.index[j]
  }

  /** An attempt at a known address is counted and timed. */
  ghost predicate AttemptRight(bk: Book, na: NetAddress, now: int, after: Book) {
    var k := KeyOf(na);
    if k !in bk.index then after == bk
    else
      var ka := bk.index[k];
      && OnlyEntry(bk, k, after)
      && after.index[k] == Known(ka.na, ka.src, ka.attempts + 1, now, ka.lastSuccess, ka.tried, ka.refs)
  }

  lemma AttemptAnswers(bk: Book, na: NetAddress, now: int)
    ensures AttemptRight(bk, na, now, Attempt(bk, na, now))
  {
  }

  /** A connection to a known address sets the time it was last seen if that is more than twenty minutes ago. */
  ghost predicate ConnectedRight(bk: Book, na: NetAddress, now: int, after: Book) {
    var k := KeyOf(na);
    if k !in bk.index then after == bk
    else
      var ka := bk.index[k];
      var seen := if now > ka.na.timestamp + 1200 then now else ka.na.timestamp;
      && OnlyEntry(bk, k, after)
      && after.index[k] == Known(NetAddress(ka.na.ip, ka.na.port, seen, ka.na.services), ka.src, ka.attempts,
                                 ka.lastAttempt, ka.lastSuccess, ka.tried, ka.refs)
  }

  lemma ConnectedAnswers(bk: Book, na: NetAddress, now: int)
    ensures ConnectedRight(bk, na, now, Connected(bk, na, now))
  {
  }

  /** The services of a known address become those given. */
  ghost predicate ServicesRight(bk: Book, na: NetAddress, services: bv64, after: Book) {
    var k := KeyOf(na);
    if k !in bk.index then after == bk
    else
      var ka := bk.index[k];
      && OnlyEntry(bk, k, after)
      && after.index[k] == Known(NetAddress(ka.na.ip, ka.na.port, ka.na.timestamp, services), ka.src, ka.attempts,
                                 ka.lastAttempt, ka.lastSuccess, ka.tried, ka.refs)
  }

  lemma SetServicesAnswers(bk: Book, na: NetAddress, services: bv64)
    ensures ServicesRight(bk, na, services, SetServices(bk, na, services))
  {
  }

  // ---- Marking an address good ----

  /** A known address has succeeded, with nothing else changed. */
  ghost predicate Praised(before: Known, now: int, after: Known) {
    after == Known(before.na, before.src, 0, now, now, true, if before.tried then before.refs else 0)
  }

  /** The keys but for two are as before. */
  ghost predicate Besides(bk: Book, k: Key, l: Key, after: Book) {
    && after.index.Keys == bk.index.Keys && after.secret == bk.secret && |after.buckets| == |bk.buckets|
    && forall j :: j in bk.index && j != k && j != l ==> after.index[j] == bk.index[j]
  }

  /** With room in its tried list the address leaves every new bucket for the end of that list. */
  ghost predicate PushedRight(bk: Book, k: Key, t: nat, after: Book)
    requires t < |bk.tried|
  {
    && Besides(bk, k, k, after) && after.tried == bk.tried[t := bk.tried[t] + [k]]
    && forall c :: 0 <= c < |bk.buckets| ==> after.buckets[c] == bk.buckets[c] - {k}
  }

  /** No address of the list is older than the one at `i`, and none before it is as old. */
  ghost predicate Oldest(bk: Book, list: seq<Key>, i: nat) {
    && i < |list| && (forall j :: 0 <= j < |list| ==> list[j] in bk.index)
    && (forall j :: 0 <= j < |list| ==> bk.index[list[i]].na.timestamp <= bk.index[list[j]].na.timestamp)
    && (forall j :: 0 <= j < i ==> bk.index[list[i]].na.timestamp < bk.index[list[j]].na.timestamp)
  }

  /** Where the one that is put out goes: to its own bucket if there is room, and else to the first that is left. */
  ghost predicate BackTo(bk: Book, o: Oracle, k: Key, out: Key, b: nat)
    requires |bk.buckets| == NEW_BUCKET_COUNT && out in bk.index
  {
    var own := NewBucket(o, bk.secret, bk.index[out].na, bk.index[out].src);
    if |bk.buckets[own] - {k}| < 64 then b == own
    else b < |bk.buckets| && k in bk.buckets[b] && forall c :: 0 <= c < b ==> k !in bk.buckets[c]
  }

  /** Without room it takes the place of the oldest, which goes back to a new bucket as untried. */
  ghost predicate SwappedRight(bk: Book, o: Oracle, k: Key, t: nat, i: nat, b: nat, after: Book)
    requires t < |bk.tried| && |bk.buckets| == NEW_BUCKET_COUNT
  {
    && Oldest(bk, bk.tried[t], i) && BackTo(bk, o, k, bk.tried[t][i], b)
    && var out := bk.tried[t][i];
       && Besides(bk, k, out, after) && after.tried == bk.tried[t := bk.tried[t][i := k]]
       && out in after.index && after.index[out] == bk.index[out].(tried := false, refs := 1)
       && forall c :: 0 <= c < |bk.buckets| ==>
            after.buckets[c] == bk.buckets[c] - {k} + if c == b then {out} else {}
  }

  ghost predicate GoodRight(bk: Book, o: Oracle, na: NetAddress, now: int, after: Book)
    requires |bk.tried| == TRIED_BUCKET_COUNT && |bk.buckets| == NEW_BUCKET_COUNT
  {
    var k := KeyOf(na);
    if k !in bk.index then after == bk
    else
      var t := TriedBucket(o, bk.secret, bk.index[k].na);
      && k in after.index && Praised(bk.index[k], now, after.index[k])
      && if bk.index[k].tried then OnlyEntry(bk, k, after)
         else if |bk.tried[t]| < 256 then PushedRight(bk, k, t, after)
         else exists i, b :: SwappedRight(bk, o, k, t, i, b, after)
  }

  /** The book with the address on its way, out of all new buckets. */
  ghost predicate UnderWay(bk: Book, k: Key, now: int, left: Book)
    requires k in bk.index
  {
    && Besides(bk, k, k, left) && left.tried == bk.tried && k in left.index
    && left.index[k] == Known(bk.index[k].na, bk.index[k].src, 0, now, now, false, 0)
    && (forall c :: 0 <= c < |bk.buckets| ==> left.buckets[c] == bk.buckets[c] - {k})
  }

  lemma LeftIs(bk: Book, k: Key, now: int)
    requires k in bk.index && !bk.index[k].tried
    ensures UnderWay(bk, k, now, LeaveNew(Amend(bk, k, Succeeded(bk.index[k], now)), k))
  {
  }

  lemma PushIs(bk: Book, left: Book, k: Key, now: int, t: nat)
    requires k in bk.index && !bk.index[k].tried && t < |bk.tried| && UnderWay(bk, k, now, left)
    ensures PushedRight(bk, k, t, PushTried(left, k, t)) && Praised(bk.index[k], now, PushTried(left, k, t).index[k])
  {
  }

  lemma OldestIs(bk: Book, left: Book, k: Key, t: nat)
    requires Inv(bk) && t < |bk.tried| && |bk.tried[t]| > 0 && Besides(bk, k, k, left)
    requires k in bk.index && !bk.index[k].tried
    ensures var i := OldestTried(left, bk.tried[t]); Oldest(bk, bk.tried[t], i) && bk.tried[t][i] != k
    ensures forall j :: 0 <= j < |bk.tried[t]| ==> bk.index[bk.tried[t][j]].tried
  {
    var list := bk.tried[t];
    forall j | 0 <= j < |list| ensures list[j] in bk.index && bk.index[list[j]].tried && list[j] != k {
      TriedAt(bk, t, j);
    }
    hide Inv, OldestTried;
    forall j | 0 <= j < |list|
      ensures var i := OldestTried(left, list);
        && bk.index[list[i]].na.timestamp <= bk.index[list[j]].na.timestamp
        && (j < i ==> bk.index[list[i]].na.timestamp < bk.index[list[j]].na.timestamp)
    {
      OldestIsOldest(left, list, j);
    }
  }

  lemma SwapIs(bk: Book, left: Book, k: Key, now: int, t: nat, i: nat, b: nat)
    requires k in bk.index && !bk.index[k].tried && UnderWay(bk, k, now, left)
    requires t < |bk.tried| && i < |bk.tried[t]| && b < |bk.buckets|
    requires var out := bk.tried[t][i]; out != k && out in bk.index && bk.index[out].tried && bk.index[out].refs == 0
    ensures var out := bk.tried[t][i];
      && left.tried == bk.tried && out in left.index && |left.buckets| == |bk.buckets|
      && var after := SwapTried(left, k, t, i, b);
         && Besides(bk, k, out, after) && after.tried == bk.tried[t := bk.tried[t][i := k]]
         && after.index[out] == bk.index[out].(tried := false, refs := 1)
         && k in after.index && Praised(bk.index[k], now, after.index[k])
         && forall c :: 0 <= c < |bk.buckets| ==>
              after.buckets[c] == bk.buckets[c] - {k} + if c == b then {out} else {}
  {
  }

  lemma BackIs(bk: Book, o: Oracle, left: Book, k: Key, now: int, out: Key)
    requires k in bk.index && UnderWay(bk, k, now, left)
    requires |bk.buckets| == NEW_BUCKET_COUNT && out in bk.index && out != k && FirstHolder(bk.buckets, k, 0) != -1
    ensures left.index[out] == bk.index[out] && left.secret == bk.secret
    ensures var own := NewBucket(o, left.secret, left.index[out].na, left.index[out].src);
      BackTo(bk, o, k, out, if |left.buckets[own]| >= NEW_BUCKET_SIZE then FirstHolder(bk.buckets, k, 0) else own)
  {
    hide FirstHolder;
  }

  function Back(left: Book, o: Oracle, out: Key, first: nat): (b: nat)
    requires out in left.index && |left.buckets| == NEW_BUCKET_COUNT && first < NEW_BUCKET_COUNT
    ensures b < NEW_BUCKET_COUNT
  {
    var own := NewBucket(o, left.secret, left.index[out].na, left.index[out].src);
    if |left.buckets[own]| >= NEW_BUCKET_SIZE then first else own
  }

  lemma EnterSwaps(left: Book, o: Oracle, k: Key, t: nat, first: nat)
    requires k in left.index && t < |left.tried| && |left.buckets| == NEW_BUCKET_COUNT && first < NEW_BUCKET_COUNT
    requires |left.tried[t]| >= TRIED_BUCKET_SIZE
    ensures var i := OldestTried(left, left.tried[t]);
      left.tried[t][i] in left.index ==>
        EnterTried(left, o, k, t, first) == SwapTried(left, k, t, i, Back(left, o, left.tried[t][i], first))
  {
    hide OldestTried, SwapTried;
  }

  lemma SwapIsRight(bk: Book, o: Oracle, left: Book, k: Key, now: int, t: nat, i: nat, first: nat)
    requires |bk.buckets| == NEW_BUCKET_COUNT && k in bk.index && !bk.index[k].tried && UnderWay(bk, k, now, left)
    requires t < |bk.tried| && Oldest(bk, bk.tried[t], i) && first == FirstHolder(bk.buckets, k, 0)
    requires var out := bk.tried[t][i]; out != k && bk.index[out].tried && bk.index[out].refs == 0
    requires first < NEW_BUCKET_COUNT
    ensures var out := bk.tried[t][i];
      && out in left.index && left.tried == bk.tried && |left.buckets| == NEW_BUCKET_COUNT && k in left.index
      && var b := Back(left, o, out, first);
         var after := SwapTried(left, k, t, i, b);
         SwappedRight(bk, o, k, t, i, b, after) && k in after.index && Praised(bk.index[k], now, after.index[k])
  {
    var out := bk.tried[t][i];
    BackIs(bk, o, left, k, now, out);
    assert out in left.index && |left.buckets| == NEW_BUCKET_COUNT;
    SwapIs(bk, left, k, now, t, i, Back(left, o, out, first));
    hide UnderWay, SwapTried, Praised, Besides, Oldest, BackTo, FirstHolder;
  }

  /** A full list. */
  lemma EvictIs(bk: Book, o: Oracle, left: Book, k: Key, now: int, t: nat, first: nat)
    requires Inv(bk) && |bk.buckets| == NEW_BUCKET_COUNT && |left.buckets| == NEW_BUCKET_COUNT
    requires k in bk.index && !bk.index[k].tried && t < |bk.tried| && |bk.tried[t]| >= TRIED_BUCKET_SIZE
    requires UnderWay(bk, k, now, left) && k in left.index && left.tried == bk.tried
    requires first == FirstHolder(bk.buckets, k, 0) && first < NEW_BUCKET_COUNT
    ensures var after := EnterTried(left, o, k, t, first);
      && k in after.index && Praised(bk.index[k], now, after.index[k])
      && exists i, b :: SwappedRight(bk, o, k, t, i, b, after)
  {
    assert Besides(bk, k, k, left);
    hide InvBut, OldestTried, FirstHolder, UnderWay, SwapTried, Praised, Besides, Oldest, EnterTried, SwappedRight,
         Back;
    OldestIs(bk, left, k, t);
    var i := OldestTried(left, bk.tried[t]);
    TriedAt(bk, t, i);
    SwapIsRight(bk, o, left, k, now, t, i, first);
    EnterSwaps(left, o, k, t, first);
    assert SwappedRight(bk, o, k, t, i, Back(left, o, bk.tried[t][i], first), EnterTried(left, o, k, t, first));
  }

  lemma MovedIs(bk: Book, o: Oracle, k: Key, now: int)
    requires Inv(bk) && |bk.tried| == TRIED_BUCKET_COUNT && |bk.buckets| == NEW_BUCKET_COUNT
    requires k in bk.index && !bk.index[k].tried
    ensures var after, t := MoveToTried(Amend(bk, k, Succeeded(bk.index[k], now)), o, k),
                            TriedBucket(o, bk.secret, bk.index[k].na);
      && k in after.index && Praised(bk.index[k], now, after.index[k])
      && if |bk.tried[t]| < 256 then PushedRight(bk, k, t, after)
         else exists i, b :: SwappedRight(bk, o, k, t, i, b, after)
  {
    HolderFound(bk, k);
    hide Inv, LeaveNew, OldestTried, FirstHolder, PushTried, SwapTried, PushedRight, SwappedRight, Praised;
    var t := TriedBucket(o, bk.secret, bk.index[k].na);
    var left := LeaveNew(Amend(bk, k, Succeeded(bk.index[k], now)), k);
    LeftIs(bk, k, now);
    if |bk.tried[t]| < 256 {
      PushIs(bk, left, k, now, t);
    } else {
      EvictIs(bk, o, left, k, now, t, FirstHolder(bk.buckets, k, 0));
    }
  }

  lemma GoodAnswers(bk: Book, o: Oracle, na: NetAddress, now: int)
    requires Inv(bk) && |bk.tried| == TRIED_BUCKET_COUNT && |bk.buckets| == NEW_BUCKET_COUNT
    ensures GoodRight(bk, o, na, now, Good(bk, o, na, now))
  {
    var k := KeyOf(na);
    if k in bk.index && !bk.index[k].tried {
      MovedIs(bk, o, k, now);
      hide MoveToTried;
    }
  }

  // ---- Runs ----

  /** The operation did what it should. */
  ghost predicate OpRight(bk: Book, o: Oracle, op: Op, after: Book)
    requires AddrOps.Allowed(bk, o, op)
  {
    match op
    case Announcing(na, src, dice, now, gone) => AnnounceRight(bk, o, na, src, dice, gone, after)
    case Attempting(na, now) => AttemptRight(bk, na, now, after)
    case Connecting(na, now) => ConnectedRight(bk, na, now, after)
    case MarkingGood(na, now) => GoodRight(bk, o, na, now, after)
    case SettingServices(na, services) => ServicesRight(bk, na, services, after)
  }

  lemma ApplyAnswers(bk: Book, o: Oracle, op: Op)
    requires Inv(bk) && AddrOps.Allowed(bk, o, op)
    ensures OpRight(bk, o, op, Apply(bk, o, op))
  {
    hide Inv, UpdateAddress, Good, Attempt, Connected, SetServices, MayExpire, AnnounceRight, AttemptRight,
         ConnectedRight, GoodRight, ServicesRight;
    match op {
      case Announcing(na, src, dice, now, gone) => UpdateAnswers(bk, o, na, src, dice, now, gone);
      case Attempting(na, now) => AttemptAnswers(bk, na, now);
      case Connecting(na, now) => ConnectedAnswers(bk, na, now);
      case MarkingGood(na, now) => GoodAnswers(bk, o, na, now);
      case SettingServices(na, services) => SetServicesAnswers(bk, na, services);
    }
  }

  /** On every run from a consistent book every operation does what it should. */
  lemma RunAnswers(o: Oracle, ops: seq<Op>, books: seq<Book>, n: nat)
    requires Run(o, ops, books) && Inv(books[0]) && n < |ops|
    ensures AddrOps.Allowed(books[n], o, ops[n]) && OpRight(books[n], o, ops[n], books[n + 1])
  {
    RunInv(o, ops, books, n);
    hide Inv, Apply, AddrOps.Allowed, OpRight;
    ApplyAnswers(books[n], o, ops[n]);
  }

  // ---- Bad addresses ----

  /** An address is kept if it was tried in the last minute, or else was seen in the last thirty days and no more than
      ten minutes ahead, has fewer than three failures or has succeeded, and has fewer than five or has in a week. */
  lemma KeptIff(ka: Known, now: int)
    ensures !IsBad(ka, now) <==>
      || now - ka.lastAttempt < 60
      || (-600 <= now - ka.na.timestamp <= 2592000
          && (ka.attempts >= 3 ==> ka.lastSuccess != ZERO_TIME) && (ka.attempts >= 5 ==> now - ka.lastSuccess < 604800))
  {
  }
}
