/** The address manager's operations keep its book exact, over any run. */
module AddrOps {
  import opened Sets
  import opened AddrBook
  import opened AddrBookProof

  // ---- Announcements ----

  lemma {:induction false} DropAllInv(bk: Book, adding: set<Key>, b: nat, gone: seq<Key>)
    requires InvBut(bk, adding) && b < |bk.buckets|
    requires forall i, j :: 0 <= i < j < |gone| ==> gone[i] != gone[j]
    requires forall i :: 0 <= i < |gone| ==> gone[i] in bk.buckets[b] && gone[i] !in adding
    ensures var after := DropAll(bk, b, gone);
      && InvBut(after, adding) && |after.buckets| == |bk.buckets|
      && after.buckets[b] == bk.buckets[b] - (set k | k in gone)
      && (forall k :: k in bk.index && k !in gone ==> k in after.index && after.index[k] == bk.index[k])
      && after.tried == bk.tried && after.secret == bk.secret && after.nTried == bk.nTried
  {
    hide InvBut;
    if gone != [] {
      var front, k := gone[..|gone| - 1], gone[|gone| - 1];
      DropAllInv(bk, adding, b, front);
      var rest := DropAll(bk, b, front);
      assert forall j :: 0 <= j < |front| ==> front[j] == gone[j];
      assert k !in front && k in rest.buckets[b];
      DropRefInv(rest, adding, b, k);
      assert (set j | j in gone) == (set j | j in front) + {k};
    }
  }

  /** Expiring a full bucket makes room in it. */
  lemma ExpiryMakesRoom(bk: Book, adding: set<Key>, b: nat, now: int, gone: seq<Key>)
    requires InvBut(bk, adding) && b < |bk.buckets| && |bk.buckets[b]| > NEW_BUCKET_SIZE
    requires Expires(bk, b, now, gone)
    ensures |bk.buckets[b] - (set k | k in gone)| <= NEW_BUCKET_SIZE
  {
    hide Keyed, RefsBounded, Listed, Counted, IsBad, Holders;
    var k :| k in bk.buckets[b];
    assert k in bk.index;
    assert gone != [];
    var left := bk.buckets[b] - (set j | j in gone);
    assert gone[0] in bk.buckets[b] && left <= bk.buckets[b] - {gone[0]};
    SubsetSize(left, bk.buckets[b] - {gone[0]});
  }

  /** The outcomes that an announcement may have: if its bucket is full, one for each way of expiring it. */
  ghost predicate MayExpire(bk: Book, o: Oracle, na: NetAddress, src: NetAddress, dice: nat, now: int, gone: seq<Key>)
    requires |bk.buckets| == NEW_BUCKET_COUNT
  {
    var b := NewBucket(o, bk.secret, na, src);
    !Stops(bk, o, na, dice) && KeyOf(na) !in bk.buckets[b] && |bk.buckets[b]| > NEW_BUCKET_SIZE ==>
      Expires(Announced(bk, na, src), b, now, gone)
  }

  /** An announcement adds services and takes none away. */
  lemma ServicesOnlyGrow(ka: Known, na: NetAddress)
    ensures Refreshed(ka, na).na.services == Joined(ka.na.services, na.services)
    ensures KeyOf(Refreshed(ka, na).na) == KeyOf(ka.na)
  {
    hide Covers, Joined;
    NothingNew(ka.na.services, na.services);
  }

  lemma NothingNew(have: bv64, told: bv64)
    ensures Covers(have, told) ==> Joined(have, told) == have
  {
  }

  /** The time an address was last seen goes back exactly for an announcement that is older and brings new services. */
  lemma SeenGoesBackIff(ka: Known, na: NetAddress)
    ensures Refreshed(ka, na).na.timestamp < ka.na.timestamp <==>
      na.timestamp < ka.na.timestamp && !Covers(ka.na.services, na.services)
  {
    hide Covers, Joined;
  }

  lemma RefreshInv(bk: Book, na: NetAddress)
    requires Inv(bk)
    ensures Inv(Refresh(bk, na))
  {
    hide InvBut;
    if KeyOf(na) in bk.index {
      AmendInv(bk, {}, KeyOf(na), Refreshed(bk.index[KeyOf(na)], na));
    }
  }

  lemma AnnouncedInv(bk: Book, o: Oracle, na: NetAddress, src: NetAddress, dice: nat)
    requires Inv(bk) && !Stops(bk, o, na, dice)
    ensures var mid, k := Announced(bk, na, src), KeyOf(na);
      && InvBut(mid, {k}) && k in mid.index && !mid.index[k].tried && mid.index[k].refs < NEW_BUCKETS_PER_ADDRESS
      && mid.buckets == bk.buckets && (k !in bk.index ==> forall b :: 0 <= b < |bk.buckets| ==> k !in bk.buckets[b])
  {
    var k := KeyOf(na);
    KnownOrAbsent(bk, k);
    hide Inv;
    if k in bk.index {
      RefreshInv(bk, na);
      Widen(Refresh(bk, na), k);
    } else {
      LearnInv(bk, na, src);
    }
  }

  lemma KnownOrAbsent(bk: Book, k: Key)
    requires Inv(bk)
    ensures k in bk.index ==> bk.index[k].refs <= NEW_BUCKETS_PER_ADDRESS
    ensures k !in bk.index ==> forall b :: 0 <= b < |bk.buckets| ==> k !in bk.buckets[b]
    ensures |bk.buckets| == NEW_BUCKET_COUNT && |bk.tried| == TRIED_BUCKET_COUNT
  {
    hide Listed, Counted, Keyed, Holders;
  }

  /** An untried address has a reference, so there is something to draw below when it is announced again. */
  lemma DrawIsPossible(bk: Book, k: Key)
    requires Inv(bk) && k in bk.index && !bk.index[k].tried
    ensures 2 <= 2 * bk.index[k].refs <= 2 * NEW_BUCKETS_PER_ADDRESS
  {
    hide Listed, Counted, Keyed, Holders;
  }

  lemma Widen(bk: Book, k: Key)
    requires Inv(bk)
    ensures InvBut(bk, {k})
  {
    hide Listed, Counted, Keyed, Sized, RefsBounded, Holders;
  }

  lemma Narrow(bk: Book, k: Key)
    requires InvBut(bk, {k}) && k in bk.index && bk.index[k].refs >= 1
    ensures Inv(bk)
  {
    hide Listed, Counted, Keyed, Sized, RefsBounded, Holders;
  }

  lemma HeldHasRefs(bk: Book, adding: set<Key>, b: nat, k: Key)
    requires InvBut(bk, adding) && b < |bk.buckets| && k in bk.buckets[b]
    ensures k in bk.index && bk.index[k].refs >= 1
  {
    hide Listed, Counted, Keyed, Sized, RefsBounded;
    assert b as int in Holders(bk.buckets, k);
  }

  /** An announcement keeps the book exact, whatever is expired for it. */
  lemma UpdateAddressInv(bk: Book, o: Oracle, na: NetAddress, src: NetAddress, dice: nat, now: int, gone: seq<Key>)
    requires Inv(bk) && |bk.buckets| == NEW_BUCKET_COUNT && MayExpire(bk, o, na, src, dice, now, gone)
    ensures Inv(UpdateAddress(bk, o, na, src, dice, gone))
  {
    hide InvBut, Announced, Expires, DropAll, AddRef;
    RefreshInv(bk, na);
    if !Stops(bk, o, na, dice) {
      var mid, k, b := Announced(bk, na, src), KeyOf(na), NewBucket(o, bk.secret, na, src);
      AnnouncedInv(bk, o, na, src, dice);
      if k in bk.buckets[b] {
        HeldHasRefs(mid, {k}, b, k);
        Narrow(mid, k);
      } else {
        var room := if |bk.buckets[b]| > NEW_BUCKET_SIZE then DropAll(mid, b, gone) else mid;
        if |bk.buckets[b]| > NEW_BUCKET_SIZE {
          assert forall i :: 0 <= i < |gone| ==> gone[i] in mid.buckets[b] && gone[i] != k by {
            GoneInBucket(mid, b, now, gone);
          }
          assert forall i, j :: 0 <= i < j < |gone| ==> gone[i] != gone[j] by { GoneInBucket(mid, b, now, gone); }
          DropAllInv(mid, {k}, b, gone);
          ExpiryMakesRoom(mid, {k}, b, now, gone);
        }
        AddRefInv(room, {k}, b, k);
        assert {k} - {k} == {};
      }
    }
  }

  lemma GoneInBucket(bk: Book, b: nat, now: int, gone: seq<Key>)
    requires b < |bk.buckets| && Expires(bk, b, now, gone)
    ensures forall i :: 0 <= i < |gone| ==> gone[i] in bk.buckets[b]
    ensures forall i, j :: 0 <= i < j < |gone| ==> gone[i] != gone[j]
  {
  }

  // ---- Moving to the tried lists ----

  /** An untried address of the index is in some new bucket, so the search for one never comes back empty. */
  lemma HolderFound(bk: Book, k: Key)
    requires Inv(bk) && k in bk.index && !bk.index[k].tried
    ensures FirstHolder(bk.buckets, k, 0) != -1
    ensures |bk.buckets[FirstHolder(bk.buckets, k, 0)] - {k}| <= NEW_BUCKET_SIZE
  {
    hide Listed, Counted, Keyed, RefsBounded, FirstHolder;
    assert Holders(bk.buckets, k) != {};
    var b :| b in Holders(bk.buckets, k);
    assert k in bk.buckets[b];
  }

  /** The one picked is nowhere younger than another, and older than all before it. */
  lemma {:induction false} OldestIsOldest(bk: Book, list: seq<Key>, j: nat)
    requires j < |list| && forall i :: 0 <= i < |list| ==> list[i] in bk.index
    ensures var i := OldestTried(bk, list);
      && bk.index[list[i]].na.timestamp <= bk.index[list[j]].na.timestamp
      && (j < i ==> bk.index[list[i]].na.timestamp < bk.index[list[j]].na.timestamp)
  {
    if |list| > 1 {
      var n := |list| - 1;
      var i := OldestTried(bk, list[..n]);
      OldestIsOldest(bk, list[..n], if j < n then j else i);
    }
  }

  lemma MoveToTriedInv(bk: Book, o: Oracle, k: Key)
    requires Inv(bk) && k in bk.index && !bk.index[k].tried
    requires |bk.tried| == TRIED_BUCKET_COUNT && |bk.buckets| == NEW_BUCKET_COUNT
    ensures var after := MoveToTried(bk, o, k);
      && Inv(after) && after.index.Keys == bk.index.Keys && after.index[k].tried
      && after.nNew + after.nTried == bk.nNew + bk.nTried
  {
    hide Inv, Without, OldestTried, FirstHolder;
    HolderFound(bk, k);
    var first, t := FirstHolder(bk.buckets, k, 0), TriedBucket(o, bk.secret, bk.index[k].na);
    if |bk.tried[t]| < TRIED_BUCKET_SIZE {
      PushInv(bk, k, t);
    } else {
      var left := LeaveNew(bk, k);
      var i := OldestTried(left, bk.tried[t]);
      TriedAt(bk, t, i);
      var out := bk.tried[t][i];
      var b := NewBucket(o, bk.secret, left.index[out].na, left.index[out].src);
      WithoutAt(bk.buckets, k, b);
      SwapInv(bk, k, t, i, if |left.buckets[b]| >= NEW_BUCKET_SIZE then first else b);
    }
  }

  /** Marking an address good keeps the book exact, forgets no address and conserves the total count. An address
      that was known is tried afterwards. */
  lemma GoodInv(bk: Book, o: Oracle, na: NetAddress, now: int)
    requires Inv(bk) && |bk.tried| == TRIED_BUCKET_COUNT && |bk.buckets| == NEW_BUCKET_COUNT
    ensures var after := Good(bk, o, na, now);
      && Inv(after) && after.index.Keys == bk.index.Keys && after.nNew + after.nTried == bk.nNew + bk.nTried
      && (KeyOf(na) in bk.index ==> after.index[KeyOf(na)].tried)
  {
    hide Inv, MoveToTried;
    var k := KeyOf(na);
    if k in bk.index {
      var ka := Succeeded(bk.index[k], now);
      AmendsInv(bk, k, ka);
      if !bk.index[k].tried {
        MoveToTriedInv(Amend(bk, k, ka), o, k);
      }
    }
  }

  lemma AmendsInv(bk: Book, k: Key, ka: Known)
    requires Inv(bk) && k in bk.index && Amends(bk.index[k], ka)
    ensures Inv(Amend(bk, k, ka))
  {
    AmendInv(bk, {}, k, ka);
  }

  // ---- Runs ----

  /** The operations, each with the random draw, the time and the expiry order that it happened to get. */
  datatype Op =
    | Announcing(na: NetAddress, src: NetAddress, dice: nat, now: int, gone: seq<Key>)
    | Attempting(na: NetAddress, now: int)
    | Connecting(na: NetAddress, now: int)
    | MarkingGood(na: NetAddress, now: int)
    | SettingServices(na: NetAddress, services: bv64)

  ghost predicate Allowed(bk: Book, o: Oracle, op: Op) {
    && |bk.tried| == TRIED_BUCKET_COUNT && |bk.buckets| == NEW_BUCKET_COUNT
    && (op.Announcing? ==> MayExpire(bk, o, op.na, op.src, op.dice, op.now, op.gone))
  }

  ghost function Apply(bk: Book, o: Oracle, op: Op): Book
    requires Allowed(bk, o, op)
  {
    match op
    case Announcing(na, src, dice, now, gone) => UpdateAddress(bk, o, na, src, dice, gone)
    case Attempting(na, now) => Attempt(bk, na, now)
    case Connecting(na, now) => Connected(bk, na, now)
    case MarkingGood(na, now) => Good(bk, o, na, now)
    case SettingServices(na, services) => SetServices(bk, na, services)
  }

  lemma ApplyInv(bk: Book, o: Oracle, op: Op)
    requires Inv(bk) && Allowed(bk, o, op)
    ensures Inv(Apply(bk, o, op))
  {
    hide Inv, UpdateAddress, Good, Amend, MayExpire;
    match op {
      case Announcing(na, src, dice, now, gone) => UpdateAddressInv(bk, o, na, src, dice, now, gone);
      case Attempting(na, now) => AttemptInv(bk, na, now);
      case Connecting(na, now) => ConnectedInv(bk, na, now);
      case MarkingGood(na, now) => GoodInv(bk, o, na, now);
      case SettingServices(na, services) => SetServicesInv(bk, na, services);
    }
  }

  lemma AttemptInv(bk: Book, na: NetAddress, now: int)
    requires Inv(bk)
    ensures Inv(Attempt(bk, na, now))
  {
    hide Inv;
    var k := KeyOf(na);
    if k in bk.index {
      AmendsInv(bk, k, Attempted(bk.index[k], now));
    }
  }

  lemma ConnectedInv(bk: Book, na: NetAddress, now: int)
    requires Inv(bk)
    ensures Inv(Connected(bk, na, now))
  {
    hide Inv;
    var k := KeyOf(na);
    if k in bk.index {
      AmendsInv(bk, k, bk.index[k].(na := bk.index[k].na.(timestamp := now)));
    }
  }

  lemma SetServicesInv(bk: Book, na: NetAddress, services: bv64)
    requires Inv(bk)
    ensures Inv(SetServices(bk, na, services))
  {
    hide Inv;
    var k := KeyOf(na);
    if k in bk.index {
      AmendsInv(bk, k, bk.index[k].(na := bk.index[k].na.(services := services)));
    }
  }

  /** `books` are the states that a run of `ops` goes through. */
  ghost predicate Run(o: Oracle, ops: seq<Op>, books: seq<Book>) {
    && |books| == |ops| + 1
    && forall i :: 0 <= i < |ops| ==> Allowed(books[i], o, ops[i]) && books[i + 1] == Apply(books[i], o, ops[i])
  }

  /** In every state of every run from a consistent book, such as an empty one, the index, the buckets, the counts and
      the flags agree. */
  lemma {:induction false} RunInv(o: Oracle, ops: seq<Op>, books: seq<Book>, n: nat)
    requires Run(o, ops, books) && Inv(books[0]) && n < |books|
    ensures Inv(books[n])
  {
    hide Inv, Apply, Allowed;
    if n > 0 {
      RunInv(o, ops, books, n - 1);
      ApplyInv(books[n - 1], o, ops[n - 1]);
    }
  }
}
