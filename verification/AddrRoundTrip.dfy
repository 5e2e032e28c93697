/** Loading what was saved restores the book. */
module AddrRoundTrip {
  import opened AddrBook
  import opened AddrBookProof
  import opened AddrStore

  /** Keys of known addresses and of their sources can be read back. */
  ghost predicate Readable(parse: Parser, bk: Book) {
    forall k :: k in bk.index ==> ReadsBack(parse, k) && ReadsBack(parse, KeyOf(bk.index[k].src))
  }

  ghost predicate ReadsBack(parse: Parser, k: Key) {
    parse(k).Some? && KeyOf(parse(k).value) == k
  }

  /** Everything but timestamps and services is as it was. */
  ghost predicate Restored(saved: Book, bk: Book) {
    && bk.secret == saved.secret && bk.buckets == saved.buckets && bk.tried == saved.tried
    && bk.nNew == saved.nNew && bk.nTried == saved.nTried
    && bk.index.Keys == saved.index.Keys
    && forall k :: k in saved.index ==> SameKnown(saved.index[k], bk.index[k])
  }

  predicate SameKnown(a: Known, b: Known) {
    && KeyOf(b.na) == KeyOf(a.na) && KeyOf(b.src) == KeyOf(a.src) && b.attempts == a.attempts
    && b.lastAttempt == a.lastAttempt && b.lastSuccess == a.lastSuccess && b.tried == a.tried && b.refs == a.refs
  }

  // ---- The index ----

  function Reread(parse: Parser, k: Key, ka: Known): Known
    requires parse(k).Some? && parse(KeyOf(ka.src)).Some?
  {
    Known(parse(k).value, parse(KeyOf(ka.src)).value, ka.attempts, ka.lastAttempt, ka.lastSuccess, false, 0)
  }

  ghost predicate RereadAll(parse: Parser, bk: Book, index: map<Key, Known>)
    requires Readable(parse, bk)
  {
    forall k :: k in index ==> k in bk.index && index[k] == Reread(parse, k, bk.index[k])
  }

  ghost predicate AllSaved(bk: Book, list: seq<Saved>) {
    forall i :: 0 <= i < |list| ==> list[i].addr in bk.index && list[i] == SavedOf(list[i].addr, bk.index[list[i].addr])
  }

  lemma AddressLoads(parse: Parser, bk: Book, index: map<Key, Known>, saved: Saved)
    requires Readable(parse, bk) && RereadAll(parse, bk, index)
    requires saved.addr in bk.index && saved == SavedOf(saved.addr, bk.index[saved.addr])
    ensures parse(saved.addr).Some? && KeyOf(parse(saved.addr).value) == saved.addr && parse(saved.src).Some?
    ensures var na, src := parse(saved.addr).value, parse(saved.src).value;
      var ka := Known(na, src, saved.attempts, saved.lastAttempt, saved.lastSuccess, false, 0);
      RereadAll(parse, bk, index[saved.addr := ka])
  {
    assert ReadsBack(parse, saved.addr) && ReadsBack(parse, KeyOf(bk.index[saved.addr].src));
  }

  lemma {:induction false} AddressesLoad(parse: Parser, bk: Book, list: seq<Saved>)
    requires Readable(parse, bk) && AllSaved(bk, list)
    ensures var index := LoadAddresses(parse, list);
      && index.Some? && RereadAll(parse, bk, index.value)
      && forall i :: 0 <= i < |list| ==> list[i].addr in index.value
  {
    if list != [] {
      var n := |list| - 1;
      AddressesLoad(parse, bk, list[..n]);
      hide Readable, RereadAll, SavedOf;
      var before := LoadAddresses(parse, list[..n]).value;
      AddressLoads(parse, bk, before, list[n]);
      forall i | 0 <= i < |list| ensures list[i].addr in LoadAddresses(parse, list).value {
        assert i < n ==> list[..n][i] == list[i];
      }
    }
  }

  // ---- The new buckets ----

  ghost function Held(index: map<Key, Known>): set<Key> {
    set k | k in index && index[k].refs > 0
  }

  /** While new buckets are read, reference counts and the count of new addresses follow the buckets. */
  ghost predicate LoadingNew(index: map<Key, Known>, bk: Book) {
    && bk.index.Keys == index.Keys && bk.nNew == |Held(bk.index)|
    && forall k :: k in index ==> bk.index[k] == index[k].(refs := |Holders(bk.buckets, k)|)
  }

  ghost function Elems(list: seq<Key>): set<Key> {
    set k | k in list
  }

  lemma ElemsLast(list: seq<Key>)
    requires list != []
    ensures Elems(list) == Elems(list[..|list| - 1]) + {list[|list| - 1]}
  {
    assert list == list[..|list| - 1] + [list[|list| - 1]];
  }

  lemma ElemsNone()
    ensures Elems([]) == {}
  {
  }

  lemma LastIsNew(list: seq<Key>)
    requires list != [] && forall i, j :: 0 <= i < j < |list| ==> list[i] != list[j]
    ensures list[|list| - 1] !in Elems(list[..|list| - 1])
  {
  }

  lemma HeldAfter(index: map<Key, Known>, k: Key)
    requires k in index && index[k].refs >= 0
    ensures |Held(index[k := index[k].(refs := index[k].refs + 1)])|
      == |Held(index)| + if index[k].refs == 0 then 1 else 0
  {
    assert Held(index[k := index[k].(refs := index[k].refs + 1)]) == Held(index) + {k};
    assert index[k].refs > 0 ==> Held(index) + {k} == Held(index);
  }

  lemma RefsAfter(index: map<Key, Known>, bk: Book, b: nat, k: Key, j: Key)
    requires LoadingNew(index, bk) && b < |bk.buckets| && k in index && k !in bk.buckets[b] && j in index
    ensures |Holders(bk.buckets[b := bk.buckets[b] + {k}], j)| == bk.index[j].refs + if j == k then 1 else 0
  {
    HoldersAdd(bk.buckets, b, k, j);
    assert b as int !in Holders(bk.buckets, k);
  }

  lemma NewKeyLoads(index: map<Key, Known>, bk: Book, b: nat, k: Key)
    requires LoadingNew(index, bk) && b < |bk.buckets| && k in index && k !in bk.buckets[b]
    ensures var l := LoadNewKey(Loaded(bk, true), b, k);
      && l.ok && LoadingNew(index, l.book)
      && l.book == bk.(index := l.book.index, buckets := bk.buckets[b := bk.buckets[b] + {k}], nNew := l.book.nNew)
  {
    hide Holders, Held;
    var after := LoadNewKey(Loaded(bk, true), b, k).book;
    HeldAfter(bk.index, k);
    forall j | j in index ensures after.index[j] == index[j].(refs := |Holders(after.buckets, j)|) {
      RefsAfter(index, bk, b, k, j);
    }
  }

  lemma {:induction false} NewListLoads(index: map<Key, Known>, bk: Book, b: nat, list: seq<Key>)
    requires LoadingNew(index, bk) && b < |bk.buckets| && bk.buckets[b] == {}
    requires forall i, j :: 0 <= i < j < |list| ==> list[i] != list[j]
    requires forall i :: 0 <= i < |list| ==> list[i] in index
    ensures var l := LoadList(Loaded(bk, true), NewPhase, b, list);
      && l.ok && LoadingNew(index, l.book)
      && l.book == bk.(index := l.book.index, buckets := bk.buckets[b := Elems(list)], nNew := l.book.nNew)
  {
    hide LoadingNew, LoadNewKey;
    if list == [] {
      assert Elems(list) == {} && bk.buckets[b := {}] == bk.buckets;
    } else {
      var n := |list| - 1;
      NewListLoads(index, bk, b, list[..n]);
      var mid := LoadList(Loaded(bk, true), NewPhase, b, list[..n]).book;
      assert list[n] !in mid.buckets[b];
      NewKeyLoads(index, mid, b, list[n]);
      ElemsLast(list);
      assert bk.buckets[b := Elems(list[..n])][b := Elems(list)] == bk.buckets[b := Elems(list)];
    }
  }

  /** The buckets after the first `n` lists. */
  ghost predicate FirstBuckets(bk: Book, saved: seq<set<Key>>, n: nat) {
    && |bk.buckets| == |saved|
    && forall b :: 0 <= b < |saved| ==> bk.buckets[b] == if b < n then saved[b] else {}
  }

  lemma {:induction false} NewListsLoad(index: map<Key, Known>, bk: Book, saved: seq<set<Key>>, lists: seq<seq<Key>>)
    requires LoadingNew(index, bk) && FirstBuckets(bk, saved, 0) && |lists| <= |saved|
    requires forall b :: 0 <= b < |lists| ==> Lists(lists[b], saved[b])
    requires forall b, k :: 0 <= b < |saved| && k in saved[b] ==> k in index
    ensures var l := LoadLists(Loaded(bk, true), NewPhase, lists);
      && l.ok && LoadingNew(index, l.book) && FirstBuckets(l.book, saved, |lists|)
      && l.book == bk.(index := l.book.index, buckets := l.book.buckets, nNew := l.book.nNew)
  {
    if lists != [] {
      var n := |lists| - 1;
      NewListsLoad(index, bk, saved, lists[..n]);
      var mid := LoadLists(Loaded(bk, true), NewPhase, lists[..n]).book;
      ListsElems(lists[n], saved[n]);
      hide LoadingNew, LoadList, Elems, Lists;
      NewListLoads(index, mid, n, lists[n]);
    }
  }

  lemma ListsElems(list: seq<Key>, keys: set<Key>)
    requires Lists(list, keys)
    ensures Elems(list) == keys
    ensures forall i, j :: 0 <= i < j < |list| ==> list[i] != list[j]
    ensures forall i :: 0 <= i < |list| ==> list[i] in keys
  {
  }

  // ---- The tried lists ----

  ghost predicate LoadingTried(index: map<Key, Known>, bk: Book, keys: set<Key>) {
    && bk.index.Keys == index.Keys && bk.nTried == |keys| && keys <= index.Keys
    && forall k :: k in index ==> bk.index[k] == index[k].(tried := k in keys)
  }

  lemma TriedKeyLoads(index: map<Key, Known>, bk: Book, keys: set<Key>, t: nat, k: Key)
    requires LoadingTried(index, bk, keys) && t < |bk.tried| && k in index && k !in keys
    ensures var l := LoadTriedKey(Loaded(bk, true), t, k);
      && l.ok && LoadingTried(index, l.book, keys + {k})
      && l.book == bk.(index := l.book.index, tried := bk.tried[t := bk.tried[t] + [k]], nTried := l.book.nTried)
  {
  }

  lemma {:induction false} TriedListLoads(index: map<Key, Known>, bk: Book, keys: set<Key>, t: nat, list: seq<Key>)
    requires LoadingTried(index, bk, keys) && t < |bk.tried|
    requires forall i, j :: 0 <= i < j < |list| ==> list[i] != list[j]
    requires forall i :: 0 <= i < |list| ==> list[i] in index && list[i] !in keys
    ensures var l := LoadList(Loaded(bk, true), TriedPhase, t, list);
      && l.ok && LoadingTried(index, l.book, keys + Elems(list))
      && l.book == bk.(index := l.book.index, tried := bk.tried[t := bk.tried[t] + list], nTried := l.book.nTried)
  {
    hide LoadingTried, LoadTriedKey, Elems;
    if list == [] {
      ElemsNone();
      assert keys + {} == keys;
      assert bk.tried[t] + [] == bk.tried[t] && bk.tried[t := bk.tried[t]] == bk.tried;
    } else {
      var n := |list| - 1;
      TriedListLoads(index, bk, keys, t, list[..n]);
      var mid := LoadList(Loaded(bk, true), TriedPhase, t, list[..n]).book;
      ElemsLast(list);
      LastIsNew(list);
      TriedKeyLoads(index, mid, keys + Elems(list[..n]), t, list[n]);
      assert keys + Elems(list) == keys + Elems(list[..n]) + {list[n]};
      assert bk.tried[t] + list[..n] + [list[n]] == bk.tried[t] + list;
      assert bk.tried[t := bk.tried[t] + list[..n]][t := bk.tried[t] + list] == bk.tried[t := bk.tried[t] + list];
    }
  }

  ghost predicate FirstLists(bk: Book, saved: seq<seq<Key>>, n: nat) {
    && |bk.tried| == |saved|
    && forall t :: 0 <= t < |saved| ==> bk.tried[t] == if t < n then saved[t] else []
  }

  ghost function KeysIn(lists: seq<seq<Key>>): set<Key> {
    if lists == [] then {} else KeysIn(lists[..|lists| - 1]) + Elems(lists[|lists| - 1])
  }

  lemma {:induction false} InSomeList(lists: seq<seq<Key>>, k: Key)
    ensures k in KeysIn(lists) <==> exists t, i :: At(lists, t, i, k)
  {
    if lists != [] {
      var n := |lists| - 1;
      InSomeList(lists[..n], k);
      forall t, i
        ensures At(lists, t, i, k) <==>
          At(lists[..n], t, i, k) || (t == n && 0 <= i < |lists[n]| && lists[n][i] == k)
      {
      }
      if k in lists[n] {
        var i :| 0 <= i < |lists[n]| && lists[n][i] == k;
        assert At(lists, n, i, k);
      } else if k in KeysIn(lists[..n]) {
        var t, i :| At(lists[..n], t, i, k);
        assert At(lists, t, i, k);
      }
    }
  }

  lemma ListedFront(all: set<Key>, saved: seq<seq<Key>>, n: nat, i: nat)
    requires Listed(all, saved) && n < |saved| && i < |saved[n]|
    ensures saved[n][i] in all && saved[n][i] !in KeysIn(saved[..n])
    ensures forall j :: i < j < |saved[n]| ==> saved[n][i] != saved[n][j]
  {
    var k := saved[n][i];
    assert At(saved, n, i, k);
    InSomeList(saved[..n], k);
    assert forall t, m :: At(saved[..n], t, m, k) ==> At(saved, t, m, k);
    forall j | i < j < |saved[n]| ensures saved[n][j] != k {
      assert At(saved, n, j, saved[n][j]);
    }
  }

  lemma LastList(index: map<Key, Known>, all: set<Key>, saved: seq<seq<Key>>, m: nat)
    requires Listed(all, saved) && all <= index.Keys && m < |saved|
    ensures forall i :: 0 <= i < |saved[m]| ==> saved[m][i] in index && saved[m][i] !in KeysIn(saved[..m])
    ensures forall i, j :: 0 <= i < j < |saved[m]| ==> saved[m][i] != saved[m][j]
  {
    forall i | 0 <= i < |saved[m]|
      ensures saved[m][i] in index && saved[m][i] !in KeysIn(saved[..m])
      ensures forall j :: i < j < |saved[m]| ==> saved[m][i] != saved[m][j]
    {
      ListedFront(all, saved, m, i);
    }
  }

  lemma {:induction false} TriedListsLoad(index: map<Key, Known>, bk: Book, all: set<Key>, saved: seq<seq<Key>>, n: nat)
    requires LoadingTried(index, bk, {}) && FirstLists(bk, saved, 0) && n <= |saved|
    requires Listed(all, saved) && all <= index.Keys
    ensures var l := LoadLists(Loaded(bk, true), TriedPhase, saved[..n]);
      && l.ok && LoadingTried(index, l.book, KeysIn(saved[..n])) && FirstLists(l.book, saved, n)
      && l.book == bk.(index := l.book.index, tried := l.book.tried, nTried := l.book.nTried)
  {
    hide LoadingTried, Listed, LoadTriedKey;
    if n > 0 {
      var m := n - 1;
      TriedListsLoad(index, bk, all, saved, m);
      assert saved[..n][..m] == saved[..m] && saved[..n][m] == saved[m];
      var mid := LoadLists(Loaded(bk, true), TriedPhase, saved[..m]).book;
      LastList(index, all, saved, m);
      TriedListLoads(index, mid, KeysIn(saved[..m]), m, saved[m]);
    }
  }

  // ---- The whole ----

  lemma SavedKeys(saved: Book)
    requires Inv(saved)
    ensures KeysIn(saved.tried) == TriedKeys(saved.index)
    ensures forall k :: k in saved.index ==> (saved.index[k].refs > 0 <==> !saved.index[k].tried)
    ensures forall k :: k in saved.index ==> saved.index[k].refs == |Holders(saved.buckets, k)|
    ensures forall b, k :: 0 <= b < |saved.buckets| && k in saved.buckets[b] ==> k in saved.index
  {
    hide Sized, Keyed, RefsBounded, Counted;
    forall k ensures k in KeysIn(saved.tried) <==> k in TriedKeys(saved.index) {
      InSomeList(saved.tried, k);
    }
    forall k | k in saved.index && saved.index[k].tried ensures saved.index[k].refs == 0 {
      assert Holders(saved.buckets, k) == {};
    }
  }

  lemma StartLoading(index: map<Key, Known>, secret: nat)
    requires forall k :: k in index ==> index[k].refs == 0 && !index[k].tried
    ensures LoadingNew(index, Empty(secret).(index := index))
  {
    assert Held(index) == {};
    assert forall k :: Holders(Empty(secret).buckets, k) == {};
  }

  /** The index between the two phases. */
  ghost predicate Halfway(saved: Book, index: map<Key, Known>) {
    && index.Keys == saved.index.Keys
    && forall k :: k in index ==> SameKnown(saved.index[k].(tried := false), index[k])
  }

  /** The index just after the addresses are read. */
  ghost predicate JustRead(saved: Book, index: map<Key, Known>) {
    && index.Keys == saved.index.Keys
    && forall k :: k in index ==> SameKnown(saved.index[k].(tried := false, refs := 0), index[k])
  }

  lemma IndexLoads(parse: Parser, saved: Book, rec: Record)
    requires Keyed(saved.index) && Readable(parse, saved) && Saves(saved, rec)
    ensures LoadAddresses(parse, rec.addresses).Some? && JustRead(saved, LoadAddresses(parse, rec.addresses).value)
  {
    hide Lists, LoadAddresses;
    AddressesLoad(parse, saved, rec.addresses);
    var index := LoadAddresses(parse, rec.addresses).value;
    forall k | k in saved.index ensures k in index {
      var i :| 0 <= i < |rec.addresses| && rec.addresses[i] == SavedOf(k, saved.index[k]);
    }
  }

  lemma LoadedHalfway(saved: Book, index: map<Key, Known>, bk: Book)
    requires JustRead(saved, index) && LoadingNew(index, bk) && bk.buckets == saved.buckets
    requires forall k :: k in saved.index ==> saved.index[k].refs == |Holders(saved.buckets, k)|
    ensures Halfway(saved, bk.index) && bk.nNew == |Held(bk.index)|
  {
    hide Holders, Held;
  }

  lemma NewPhaseLoads(saved: Book, rec: Record, index: map<Key, Known>)
    requires Inv(saved) && Saves(saved, rec) && JustRead(saved, index)
    ensures var l := LoadLists(Loaded(Empty(rec.secret).(index := index), true), NewPhase, rec.newBuckets);
      && l.ok && Halfway(saved, l.book.index)
      && l.book == Empty(saved.secret).(index := l.book.index, buckets := saved.buckets, nNew := saved.nNew)
  {
    var bk := Empty(rec.secret).(index := index);
    assert |saved.buckets| == NEW_BUCKET_COUNT && FirstBuckets(bk, saved.buckets, 0);
    hide InvBut, Held, LoadLists, Holders, Lists, LoadingNew, JustRead, Halfway, Empty;
    SavedKeys(saved);
    JustReadIsBlank(saved, index);
    StartLoading(index, rec.secret);
    NewListsLoad(index, bk, saved.buckets, rec.newBuckets);
    var after := LoadLists(Loaded(bk, true), NewPhase, rec.newBuckets).book;
    assert after.buckets == saved.buckets;
    LoadedHalfway(saved, index, after);
    NewCount(saved, after.index);
  }

  lemma JustReadIsBlank(saved: Book, index: map<Key, Known>)
    requires JustRead(saved, index)
    ensures forall k :: k in index ==> index[k].refs == 0 && !index[k].tried
    ensures index.Keys == saved.index.Keys
  {
  }

  lemma NewCount(saved: Book, index: map<Key, Known>)
    requires Inv(saved) && Halfway(saved, index)
    ensures |Held(index)| == saved.nNew
  {
    SavedKeys(saved);
    hide Sized, Keyed, RefsBounded, Referenced, Listed, Holders;
    assert Held(index) == Untried(saved.index);
  }

  lemma LoadedRestores(saved: Book, index: map<Key, Known>, bk: Book)
    requires Halfway(saved, index) && LoadingTried(index, bk, TriedKeys(saved.index))
    requires saved.nTried == |TriedKeys(saved.index)|
    requires bk.secret == saved.secret && bk.nNew == saved.nNew
    requires bk.buckets == saved.buckets && bk.tried == saved.tried
    requires forall k :: k in saved.index ==>
      saved.index[k].refs >= 0 && (saved.index[k].refs > 0 <==> !saved.index[k].tried)
    ensures Restored(saved, bk) && forall k :: k in bk.index ==> Sane(bk.index[k])
  {
  }

  lemma TriedPhaseStarts(saved: Book, bk: Book)
    requires Inv(saved) && bk.index.Keys == saved.index.Keys && forall k :: k in bk.index ==> !bk.index[k].tried
    requires bk.nTried == 0 && bk.tried == Empty(saved.secret).tried
    ensures LoadingTried(bk.index, bk, {}) && FirstLists(bk, saved.tried, 0)
    ensures saved.nTried == |TriedKeys(saved.index)| && Listed(TriedKeys(saved.index), saved.tried)
    ensures TriedKeys(saved.index) <= bk.index.Keys
  {
    hide Listed, Keyed, RefsBounded, Referenced, Holders;
  }

  lemma TriedPhaseLoads(saved: Book, bk: Book)
    requires Inv(saved) && Halfway(saved, bk.index)
    requires bk == Empty(saved.secret).(index := bk.index, buckets := saved.buckets, nNew := saved.nNew)
    ensures var l := LoadLists(Loaded(bk, true), TriedPhase, saved.tried);
      l.ok && Restored(saved, l.book) && forall k :: k in l.book.index ==> Sane(l.book.index[k])
  {
    TriedPhaseStarts(saved, bk);
    SavedKeys(saved);
    assert saved.tried[..|saved.tried|] == saved.tried;
    hide InvBut, LoadLists, Listed, Holders, KeysIn, Halfway, LoadingTried, Restored, Sane, Empty, TriedKeys;
    TriedListsLoad(bk.index, bk, TriedKeys(saved.index), saved.tried, |saved.tried|);
    var after := LoadLists(Loaded(bk, true), TriedPhase, saved.tried).book;
    assert after.tried == saved.tried;
    LoadedRestores(saved, bk.index, after);
  }

  lemma RestoredInv(saved: Book, bk: Book)
    requires Inv(saved) && Restored(saved, bk)
    ensures Inv(bk)
  {
    assert Untried(bk.index) == Untried(saved.index) && TriedKeys(bk.index) == TriedKeys(saved.index);
    hide Listed, Sized, Holders;
  }

  lemma SavedIsKeyed(saved: Book)
    requires Inv(saved)
    ensures Keyed(saved.index)
  {
  }

  /** Loading any record of a book whose addresses can be read back succeeds, and restores the book. */
  lemma RoundTrip(parse: Parser, saved: Book, rec: Record)
    requires Inv(saved) && Readable(parse, saved) && Saves(saved, rec)
    ensures Load(parse, rec).ok && Restored(saved, Load(parse, rec).book) && Inv(Load(parse, rec).book)
  {
    hide Inv, Readable, Halfway, Restored, LoadLists, LoadAddresses, Empty, Keyed, JustRead, Lists;
    SavedIsKeyed(saved);
    IndexLoads(parse, saved, rec);
    var index := LoadAddresses(parse, rec.addresses).value;
    NewPhaseLoads(saved, rec, index);
    var news := LoadLists(Loaded(Empty(rec.secret).(index := index), true), NewPhase, rec.newBuckets);
    TriedPhaseLoads(saved, news.book);
    RestoredInv(saved, Load(parse, rec).book);
  }
}
