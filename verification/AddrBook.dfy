/** The contents of the address manager as values: the index, the new and tried buckets, and what each operation makes
    of them. */
module AddrBook {
  const TRIED_BUCKET_SIZE: nat := 256
  const TRIED_BUCKET_COUNT: nat := 64
  const NEW_BUCKET_SIZE: nat := 64
  const NEW_BUCKET_COUNT: nat := 1024
  const NEW_BUCKETS_PER_ADDRESS: nat := 8
  const NUM_RETRIES: nat := 3
  const MAX_FAILURES: nat := 5
  const DAY: int := 24 * 60 * 60

  /** The zero value of a time, in seconds like every time here. */
  const ZERO_TIME: int := -62135596800

  datatype Key = Key(ip: nat, port: nat)
  datatype NetAddress = NetAddress(ip: nat, port: nat, timestamp: int, services: bv64)

  function KeyOf(na: NetAddress): Key {
    Key(na.ip, na.port)
  }

  datatype Known = Known(na: NetAddress, src: NetAddress, attempts: nat, lastAttempt: int, lastSuccess: int,
                         tried: bool, refs: int)

  /** `buckets` holds the new buckets and `tried` the tried lists, both by key. */
  datatype Book = Book(secret: nat, index: map<Key, Known>, buckets: seq<set<Key>>, tried: seq<seq<Key>>,
                       nNew: int, nTried: int)

  /** Routability and the two bucket hashes, which belong to other files and packages. */
  datatype Oracle = Oracle(routable: NetAddress -> bool, newHash: (nat, NetAddress, NetAddress) -> nat,
                           triedHash: (nat, NetAddress) -> nat)

  function NewBucket(o: Oracle, secret: nat, na: NetAddress, src: NetAddress): (b: nat)
    ensures b < NEW_BUCKET_COUNT
  {
    o.newHash(secret, na, src) % NEW_BUCKET_COUNT
  }

  function TriedBucket(o: Oracle, secret: nat, na: NetAddress): (t: nat)
    ensures t < TRIED_BUCKET_COUNT
  {
    o.triedHash(secret, na) % TRIED_BUCKET_COUNT
  }

  predicate IsBad(ka: Known, now: int) {
    if ka.lastAttempt > now - 60 then false
    else
      || ka.na.timestamp > now + 600
      || ka.na.timestamp < now - 30 * DAY
      || (ka.lastSuccess == ZERO_TIME && ka.attempts >= NUM_RETRIES)
      || (ka.lastSuccess <= now - 7 * DAY && ka.attempts >= MAX_FAILURES)
  }

  function Empty(secret: nat): Book {
    Book(secret, map[], seq(NEW_BUCKET_COUNT, _ => {}), seq(TRIED_BUCKET_COUNT, _ => []), 0, 0)
  }

  // ---- The invariant ----

  ghost predicate Keyed(index: map<Key, Known>) {
    forall k :: k in index ==> KeyOf(index[k].na) == k
  }

  /** The new buckets that hold a key. */
  ghost function Holders(buckets: seq<set<Key>>, k: Key): set<int> {
    set b | 0 <= b < |buckets| && k in buckets[b]
  }

  ghost function Untried(index: map<Key, Known>): set<Key> {
    set k | k in index && !index[k].tried
  }

  ghost function TriedKeys(index: map<Key, Known>): set<Key> {
    set k | k in index && index[k].tried
  }

  /** New buckets hold untried addresses only; a reference count is the number of buckets that hold the address, and
      it is positive for an untried one that is not just being added. */
  ghost predicate Referenced(index: map<Key, Known>, buckets: seq<set<Key>>, adding: set<Key>) {
    && (forall b, k :: 0 <= b < |buckets| && k in buckets[b] ==> k in index && !index[k].tried)
    && (forall k :: k in index ==> index[k].refs == |Holders(buckets, k)|)
    && (forall k :: k in index && !index[k].tried && k !in adding ==> index[k].refs >= 1)
  }

  ghost predicate At(tried: seq<seq<Key>>, t: int, i: int, k: Key) {
    0 <= t < |tried| && 0 <= i < |tried[t]| && tried[t][i] == k
  }

  /** The tried lists hold exactly these keys, each at one place. */
  ghost predicate Listed(keys: set<Key>, tried: seq<seq<Key>>) {
    && (forall t, i, k :: At(tried, t, i, k) ==> k in keys)
    && (forall t, i, u, j, k :: At(tried, t, i, k) && At(tried, u, j, k) ==> t == u && i == j)
    && (forall k :: k in keys ==> exists t, i :: At(tried, t, i, k))
  }

  ghost predicate Counted(bk: Book) {
    bk.nNew == |Untried(bk.index)| && bk.nTried == |TriedKeys(bk.index)|
  }

  /** A new bucket may hold one more than its nominal size, because it is checked before something is added. */
  ghost predicate Sized(buckets: seq<set<Key>>, tried: seq<seq<Key>>) {
    && |buckets| == NEW_BUCKET_COUNT && |tried| == TRIED_BUCKET_COUNT
    && (forall b :: 0 <= b < |buckets| ==> |buckets[b]| <= NEW_BUCKET_SIZE + 1)
    && (forall t :: 0 <= t < |tried| ==> |tried[t]| <= TRIED_BUCKET_SIZE)
  }

  ghost predicate RefsBounded(index: map<Key, Known>) {
    forall k :: k in index ==> index[k].refs <= NEW_BUCKETS_PER_ADDRESS
  }

  ghost predicate InvBut(bk: Book, adding: set<Key>) {
    && Sized(bk.buckets, bk.tried) && Keyed(bk.index) && RefsBounded(bk.index)
    && Referenced(bk.index, bk.buckets, adding) && Listed(TriedKeys(bk.index), bk.tried) && Counted(bk)
  }

  ghost predicate Inv(bk: Book) {
    InvBut(bk, {})
  }

  // ---- The pieces of the operations ----

  /** Changes nothing about an address that its place in the buckets depends on. */
  predicate Amends(before: Known, after: Known) {
    KeyOf(after.na) == KeyOf(before.na) && after.tried == before.tried && after.refs == before.refs
  }

  function Amend(bk: Book, k: Key, ka: Known): Book {
    bk.(index := bk.index[k := ka])
  }

  function Referred(ka: Known, refs: int): Known {
    ka.(refs := refs)
  }

  /** Takes a key out of one new bucket, and forgets the address with its last reference. */
  function DropRef(bk: Book, b: nat, k: Key): Book
    requires b < |bk.buckets| && k in bk.index
  {
    var ka := Referred(bk.index[k], bk.index[k].refs - 1);
    var buckets := bk.buckets[b := bk.buckets[b] - {k}];
    if ka.refs == 0 then bk.(buckets := buckets, index := bk.index - {k}, nNew := bk.nNew - 1)
    else bk.(buckets := buckets, index := bk.index[k := ka])
  }

  function AddRef(bk: Book, b: nat, k: Key): Book
    requires b < |bk.buckets| && k in bk.index
  {
    bk.(buckets := bk.buckets[b := bk.buckets[b] + {k}],
        index := bk.index[k := Referred(bk.index[k], bk.index[k].refs + 1)])
  }

  function Learn(bk: Book, na: NetAddress, src: NetAddress): Book {
    bk.(index := bk.index[KeyOf(na) := Known(na, src, 0, ZERO_TIME, ZERO_TIME, false, 0)], nNew := bk.nNew + 1)
  }

  function Without(buckets: seq<set<Key>>, k: Key): seq<set<Key>> {
    seq(|buckets|, b requires 0 <= b < |buckets| => buckets[b] - {k})
  }

  /** Takes an address out of every new bucket on its way to the tried lists. */
  function LeaveNew(bk: Book, k: Key): Book
    requires k in bk.index
  {
    bk.(buckets := Without(bk.buckets, k), index := bk.index[k := Referred(bk.index[k], 0)], nNew := bk.nNew - 1)
  }

  function Marked(ka: Known, tried: bool, more: int): Known {
    ka.(tried := tried, refs := ka.refs + more)
  }

  function PushTried(bk: Book, k: Key, t: nat): Book
    requires k in bk.index && t < |bk.tried|
  {
    bk.(index := bk.index[k := Marked(bk.index[k], true, 0)], tried := bk.tried[t := bk.tried[t] + [k]],
        nTried := bk.nTried + 1)
  }

  /** Puts `k` in the place of the tried address at `i`, which goes back to the new bucket `b`. */
  function SwapTried(bk: Book, k: Key, t: nat, i: nat, b: nat): Book
    requires k in bk.index && t < |bk.tried| && i < |bk.tried[t]| && bk.tried[t][i] in bk.index && b < |bk.buckets|
  {
    var out := bk.tried[t][i];
    var rm := Marked(bk.index[out], false, 1);
    bk.(index := bk.index[k := Marked(bk.index[k], true, 0)][out := rm],
        tried := bk.tried[t := bk.tried[t][i := k]],
        buckets := bk.buckets[b := bk.buckets[b] + {out}], nNew := bk.nNew + 1)
  }

  // ---- The operations ----

  /** Service flags are sets of bits. */
  predicate Covers(have: bv64, told: bv64) {
    have & told == told
  }

  function Joined(have: bv64, told: bv64): bv64 {
    have | told
  }

  /** A fresher or wider announcement of a known address replaces its address by a copy. */
  function Refreshed(ka: Known, na: NetAddress): Known {
    if na.timestamp > ka.na.timestamp || !Covers(ka.na.services, na.services)
    then ka.(na := ka.na.(timestamp := na.timestamp, services := Joined(ka.na.services, na.services))) else ka
  }

  function Refresh(bk: Book, na: NetAddress): Book {
    if KeyOf(na) in bk.index then Amend(bk, KeyOf(na), Refreshed(bk.index[KeyOf(na)], na)) else bk
  }

  /** The keys that leave a full bucket, one after the other. */
  function DropAll(bk: Book, b: nat, gone: seq<Key>): Book
    requires b < |bk.buckets|
  {
    if gone == [] then bk
    else
      var rest := DropAll(bk, b, gone[..|gone| - 1]);
      if b < |rest.buckets| && gone[|gone| - 1] in rest.index then DropRef(rest, b, gone[|gone| - 1]) else rest
  }

  /** No address of the bucket that is not bad is older than that of `k`. */
  ghost predicate IsOldest(bk: Book, b: nat, now: int, k: Key)
    requires b < |bk.buckets|
  {
    && k in bk.buckets[b] && k in bk.index && !IsBad(bk.index[k], now)
    && forall j :: j in bk.buckets[b] && j in bk.index && !IsBad(bk.index[j], now) ==>
         bk.index[k].na.timestamp <= bk.index[j].na.timestamp
  }

  /** What expiring a bucket may take out, in which order: every bad address, and an oldest one of the others. */
  ghost predicate Expires(bk: Book, b: nat, now: int, gone: seq<Key>)
    requires b < |bk.buckets|
  {
    && (forall i, j :: 0 <= i < j < |gone| ==> gone[i] != gone[j])
    && (forall i :: 0 <= i < |gone| ==> gone[i] in bk.buckets[b])
    && (forall k :: k in bk.buckets[b] && k in bk.index && IsBad(bk.index[k], now) ==> k in gone)
    && (if forall k :: k in bk.buckets[b] && k in bk.index ==> IsBad(bk.index[k], now)
        then forall i :: 0 <= i < |gone| ==> gone[i] in bk.index && IsBad(bk.index[gone[i]], now)
        else
          && gone != [] && IsOldest(bk, b, now, gone[|gone| - 1])
          && forall i :: 0 <= i < |gone| - 1 ==> gone[i] in bk.index && IsBad(bk.index[gone[i]], now))
  }

  /** The book as it stands when a bucket is picked for an announced address: refreshed or learnt. */
  function Announced(bk: Book, na: NetAddress, src: NetAddress): Book {
    if KeyOf(na) in bk.index then Refresh(bk, na) else Learn(bk, na, src)
  }

  /** A random draw below `n`, which has to be positive; `dice` says which. */
  function Int31n(dice: nat, n: int): (draw: nat)
    requires n > 0
    ensures draw < n
  {
    dice % n
  }

  /** Whether an announcement stops before a bucket is picked. */
  predicate Stops(bk: Book, o: Oracle, na: NetAddress, dice: nat) {
    !o.routable(na) ||
    (KeyOf(na) in bk.index &&
     var ka := bk.index[KeyOf(na)];
     ka.tried || ka.refs == NEW_BUCKETS_PER_ADDRESS || (ka.refs > 0 && Int31n(dice, 2 * ka.refs) != 0))
  }

  /** An announced address is refreshed or learnt, and may be put into one more new bucket. */
  function UpdateAddress(bk: Book, o: Oracle, na: NetAddress, src: NetAddress, dice: nat, gone: seq<Key>): Book
    requires |bk.buckets| == NEW_BUCKET_COUNT
  {
    if !o.routable(na) then bk
    else if Stops(bk, o, na, dice) then Refresh(bk, na)
    else
      var mid, b := Announced(bk, na, src), NewBucket(o, bk.secret, na, src);
      if KeyOf(na) in bk.buckets[b] then mid
      else
        var room := if |bk.buckets[b]| > NEW_BUCKET_SIZE then DropAll(mid, b, gone) else mid;
        if b < |room.buckets| && KeyOf(na) in room.index then AddRef(room, b, KeyOf(na)) else room
  }

  function FirstHolder(buckets: seq<set<Key>>, k: Key, from: nat): (b: int)
    ensures b == -1 ==> forall c :: from <= c < |buckets| ==> k !in buckets[c]
    ensures b != -1 ==> from <= b < |buckets| && k in buckets[b] && forall c :: from <= c < b ==> k !in buckets[c]
    decreases |buckets| - from
  {
    if from >= |buckets| then -1
    else if k in buckets[from] then from
    else FirstHolder(buckets, k, from + 1)
  }

  /** The place of the first of the oldest addresses of a tried list. */
  function OldestTried(bk: Book, list: seq<Key>): (i: nat)
    requires list != []
    ensures i < |list|
  {
    if |list| == 1 then 0
    else
      var n := |list| - 1;
      var i := OldestTried(bk, list[..n]);
      if list[i] in bk.index && list[n] in bk.index && bk.index[list[i]].na.timestamp > bk.index[list[n]].na.timestamp
      then n else i
  }

  /** Puts an address that has left the new buckets into the tried list `t`, in the place of an old one if the list is
      full. The old one goes back to its own new bucket, or to the one that was freed first. */
  function EnterTried(bk: Book, o: Oracle, k: Key, t: nat, first: nat): Book
    requires k in bk.index && t < |bk.tried| && |bk.buckets| == NEW_BUCKET_COUNT && first < NEW_BUCKET_COUNT
  {
    if |bk.tried[t]| < TRIED_BUCKET_SIZE then PushTried(bk, k, t)
    else
      var i := OldestTried(bk, bk.tried[t]);
      var out := bk.tried[t][i];
      if out !in bk.index then bk
      else
        var b := NewBucket(o, bk.secret, bk.index[out].na, bk.index[out].src);
        SwapTried(bk, k, t, i, if |bk.buckets[b]| >= NEW_BUCKET_SIZE then first else b)
  }

  function MoveToTried(bk: Book, o: Oracle, k: Key): Book
    requires k in bk.index && |bk.tried| == TRIED_BUCKET_COUNT && |bk.buckets| == NEW_BUCKET_COUNT
  {
    var left, first := LeaveNew(bk, k), FirstHolder(bk.buckets, k, 0);
    if first == -1 then left
    else EnterTried(left, o, k, TriedBucket(o, bk.secret, bk.index[k].na), first)
  }

  function Succeeded(ka: Known, now: int): Known {
    ka.(lastSuccess := now, lastAttempt := now, attempts := 0)
  }

  function Good(bk: Book, o: Oracle, na: NetAddress, now: int): Book
    requires |bk.tried| == TRIED_BUCKET_COUNT && |bk.buckets| == NEW_BUCKET_COUNT
  {
    var k := KeyOf(na);
    if k !in bk.index then bk
    else
      var marked := Amend(bk, k, Succeeded(bk.index[k], now));
      if bk.index[k].tried then marked else MoveToTried(marked, o, k)
  }

  function Attempted(ka: Known, now: int): Known {
    ka.(attempts := ka.attempts + 1, lastAttempt := now)
  }

  function Attempt(bk: Book, na: NetAddress, now: int): Book {
    var k := KeyOf(na);
    if k !in bk.index then bk else Amend(bk, k, Attempted(bk.index[k], now))
  }

  function Connected(bk: Book, na: NetAddress, now: int): Book {
    var k := KeyOf(na);
    if k !in bk.index || now <= bk.index[k].na.timestamp + 20 * 60 then bk
    else Amend(bk, k, bk.index[k].(na := bk.index[k].na.(timestamp := now)))
  }

  function SetServices(bk: Book, na: NetAddress, services: bv64): Book {
    var k := KeyOf(na);
    if k !in bk.index || bk.index[k].na.services == services then bk
    else Amend(bk, k, bk.index[k].(na := bk.index[k].na.(services := services)))
  }
}
