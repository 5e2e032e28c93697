/** Saving the address book as a record and loading it back. */
module AddrStore {
  import opened Chain
  import opened AddrBook

  const SERIALISATION_VERSION: int := 1

  datatype Saved = Saved(addr: Key, src: Key, attempts: nat, timestamp: int, lastAttempt: int, lastSuccess: int)

  /** What is written to disk. Addresses are written as their keys. */
  datatype Record = Record(version: int, secret: nat, addresses: seq<Saved>, newBuckets: seq<seq<Key>>,
                           triedBuckets: seq<seq<Key>>)

  /** Reading an address back stamps it with the time and services of the moment. */
  type Parser = Key -> Option<NetAddress>

  // ---- Saving ----

  function SavedOf(k: Key, ka: Known): Saved {
    Saved(k, KeyOf(ka.src), ka.attempts, ka.na.timestamp, ka.lastAttempt, ka.lastSuccess)
  }

  /** A list of the elements of a set, each once, in any order. */
  ghost predicate Lists(list: seq<Key>, keys: set<Key>) {
    && (forall k :: k in list <==> k in keys)
    && (forall i, j :: 0 <= i < j < |list| ==> list[i] != list[j])
  }

  /** Maps are iterated in no particular order, so a book has many records. */
  ghost predicate Saves(bk: Book, rec: Record) {
    && rec.version == SERIALISATION_VERSION && rec.secret == bk.secret
    && (forall i :: 0 <= i < |rec.addresses| ==>
          var k := rec.addresses[i].addr; k in bk.index && rec.addresses[i] == SavedOf(k, bk.index[k]))
    && (forall k :: k in bk.index ==> SavedOf(k, bk.index[k]) in rec.addresses)
    && |rec.newBuckets| == |bk.buckets|
    && (forall b :: 0 <= b < |bk.buckets| ==> Lists(rec.newBuckets[b], bk.buckets[b]))
    && rec.triedBuckets == bk.tried
  }

  method ListKeys(keys: set<Key>) returns (list: seq<Key>)
    ensures Lists(list, keys)
  {
    list := [];
    var todo := keys;
    while todo != {}
      invariant todo <= keys && Lists(list, keys - todo)
      decreases todo
    {
      var k :| k in todo;
      todo, list := todo - {k}, list + [k];
    }
  }

  method SavePeers(bk: Book) returns (rec: Record)
    ensures Saves(bk, rec)
  {
    var addresses: seq<Saved> := [];
    var keys := ListKeys(bk.index.Keys);
    for i := 0 to |keys|
      invariant |addresses| == i
      invariant forall j :: 0 <= j < i ==> keys[j] in bk.index && addresses[j] == SavedOf(keys[j], bk.index[keys[j]])
    {
      addresses := addresses + [SavedOf(keys[i], bk.index[keys[i]])];
    }
    forall k | k in bk.index ensures SavedOf(k, bk.index[k]) in addresses {
      var i :| 0 <= i < |keys| && keys[i] == k;
      assert addresses[i] == SavedOf(k, bk.index[k]);
    }
    var news: seq<seq<Key>> := [];
    for b := 0 to |bk.buckets|
      invariant |news| == b && forall c :: 0 <= c < b ==> Lists(news[c], bk.buckets[c])
    {
      var list := ListKeys(bk.buckets[b]);
      news := news + [list];
    }
    rec := Record(SERIALISATION_VERSION, bk.secret, addresses, news, bk.tried);
  }

  // ---- Loading ----

  /** The book so far, and whether loading may go on. */
  datatype Loaded = Loaded(book: Book, ok: bool)

  function LoadAddresses(parse: Parser, list: seq<Saved>): Option<map<Key, Known>> {
    if list == [] then Some(map[])
    else
      var rest, last := LoadAddresses(parse, list[..|list| - 1]), list[|list| - 1];
      if rest.None? then None
      else match (parse(last.addr), parse(last.src))
        case (Some(na), Some(src)) =>
          Some(rest.value[KeyOf(na) := Known(na, src, last.attempts, last.lastAttempt, last.lastSuccess, false, 0)])
        case (_, _) => None
  }

  /** One key of a new bucket: the first reference to an address counts it. */
  function LoadNewKey(l: Loaded, b: nat, k: Key): Loaded {
    if !l.ok || b >= |l.book.buckets| then l
    else if k !in l.book.index then l.(ok := false)
    else
      var bk, ka := l.book, l.book.index[k];
      Loaded(bk.(index := bk.index[k := ka.(refs := ka.refs + 1)], buckets := bk.buckets[b := bk.buckets[b] + {k}],
                 nNew := if ka.refs == 0 then bk.nNew + 1 else bk.nNew), true)
  }

  function LoadTriedKey(l: Loaded, t: nat, k: Key): Loaded {
    if !l.ok || t >= |l.book.tried| then l
    else if k !in l.book.index then l.(ok := false)
    else
      var bk := l.book;
      Loaded(bk.(index := bk.index[k := bk.index[k].(tried := true)], tried := bk.tried[t := bk.tried[t] + [k]],
                 nTried := bk.nTried + 1), true)
  }

  datatype Phase = NewPhase | TriedPhase

  function LoadKey(l: Loaded, phase: Phase, b: nat, k: Key): Loaded {
    if phase.NewPhase? then LoadNewKey(l, b, k) else LoadTriedKey(l, b, k)
  }

  function LoadList(l: Loaded, phase: Phase, b: nat, list: seq<Key>): Loaded {
    if list == [] then l else LoadKey(LoadList(l, phase, b, list[..|list| - 1]), phase, b, list[|list| - 1])
  }

  function LoadLists(l: Loaded, phase: Phase, lists: seq<seq<Key>>): Loaded {
    if lists == [] then l
    else LoadList(LoadLists(l, phase, lists[..|lists| - 1]), phase, |lists| - 1, lists[|lists| - 1])
  }

  predicate Sane(ka: Known) {
    !(ka.refs == 0 && !ka.tried) && !(ka.refs > 0 && ka.tried)
  }

  /** Loading into an empty manager. A record that fails leaves what was counted until then. */
  function Load(parse: Parser, rec: Record): Loaded {
    var index := LoadAddresses(parse, rec.addresses);
    if rec.version != SERIALISATION_VERSION || index.None? then Loaded(Empty(rec.secret), false)
    else
      var news := LoadLists(Loaded(Empty(rec.secret).(index := index.value), true), NewPhase, rec.newBuckets);
      var all := LoadLists(news, TriedPhase, rec.triedBuckets);
      all.(ok := all.ok && forall k :: k in all.book.index ==> Sane(all.book.index[k]))
  }

  predicate AllParse(parse: Parser, list: seq<Saved>) {
    forall i :: 0 <= i < |list| ==> parse(list[i].addr).Some? && parse(list[i].src).Some?
  }

  /** The keys of the addresses that a record has. */
  ghost function AddressKeys(parse: Parser, list: seq<Saved>): set<Key>
    requires AllParse(parse, list)
  {
    set i | 0 <= i < |list| :: KeyOf(parse(list[i].addr).value)
  }

  /** The addresses can be read exactly if all of them parse, and then the index has their keys. */
  lemma {:induction false} AddressesReadIff(parse: Parser, list: seq<Saved>)
    ensures LoadAddresses(parse, list).Some? <==> AllParse(parse, list)
    ensures AllParse(parse, list) ==> LoadAddresses(parse, list).value.Keys == AddressKeys(parse, list)
  {
    if list != [] {
      var n := |list| - 1;
      var front := list[..n];
      AddressesReadIff(parse, front);
      assert AllParse(parse, list) <==> AllParse(parse, front) && parse(list[n].addr).Some? && parse(list[n].src).Some?;
      if AllParse(parse, list) {
        assert AddressKeys(parse, list) == AddressKeys(parse, front) + {KeyOf(parse(list[n].addr).value)};
      }
    }
  }

  // ---- Loading, loop by loop ----

  method ReadAddresses(parse: Parser, list: seq<Saved>) returns (index: Option<map<Key, Known>>)
    ensures index == LoadAddresses(parse, list)
  {
    var read: map<Key, Known> := map[];
    for i := 0 to |list|
      invariant LoadAddresses(parse, list[..i]) == Some(read)
    {
      assert list[..i + 1][..i] == list[..i];
      var v := list[i];
      var na, src := parse(v.addr), parse(v.src);
      if na.None? || src.None? {
        AddressesFail(parse, list, i + 1);
        return None;
      }
      read := read[KeyOf(na.value) := Known(na.value, src.value, v.attempts, v.lastAttempt, v.lastSuccess, false, 0)];
    }
    assert list[..|list|] == list;
    index := Some(read);
  }

  lemma {:induction false} AddressesFail(parse: Parser, list: seq<Saved>, i: nat)
    requires i <= |list| && LoadAddresses(parse, list[..i]).None?
    ensures LoadAddresses(parse, list).None?
    decreases |list| - i
  {
    if i == |list| {
      assert list[..i] == list;
    } else {
      assert list[..i + 1][..i] == list[..i];
      AddressesFail(parse, list, i + 1);
    }
  }

  /** Once a record has failed nothing more happens. */
  lemma {:induction false} ListFails(l: Loaded, phase: Phase, b: nat, list: seq<Key>, i: nat)
    requires i <= |list| && !LoadList(l, phase, b, list[..i]).ok
    ensures LoadList(l, phase, b, list) == LoadList(l, phase, b, list[..i])
    decreases |list| - i
  {
    if i == |list| {
      assert list[..i] == list;
    } else {
      assert list[..i + 1][..i] == list[..i];
      ListFails(l, phase, b, list, i + 1);
    }
  }

  lemma {:induction false} ListsFail(l: Loaded, phase: Phase, lists: seq<seq<Key>>, i: nat)
    requires i <= |lists| && !LoadLists(l, phase, lists[..i]).ok
    ensures LoadLists(l, phase, lists) == LoadLists(l, phase, lists[..i])
    decreases |lists| - i
  {
    if i == |lists| {
      assert lists[..i] == lists;
    } else {
      assert lists[..i + 1][..i] == lists[..i];
      assert lists[i][..0] == [];
      ListFails(LoadLists(l, phase, lists[..i]), phase, i, lists[i], 0);
      ListsFail(l, phase, lists, i + 1);
    }
  }

  method ReadList(l: Loaded, phase: Phase, b: nat, list: seq<Key>) returns (after: Loaded)
    ensures after == LoadList(l, phase, b, list)
  {
    after := l;
    for i := 0 to |list|
      invariant after == LoadList(l, phase, b, list[..i])
    {
      assert list[..i + 1][..i] == list[..i];
      after := LoadKey(after, phase, b, list[i]);
      if !after.ok {
        ListFails(l, phase, b, list, i + 1);
        return;
      }
    }
    assert list[..|list|] == list;
  }

  method ReadLists(l: Loaded, phase: Phase, lists: seq<seq<Key>>) returns (after: Loaded)
    ensures after == LoadLists(l, phase, lists)
  {
    after := l;
    for i := 0 to |lists|
      invariant after == LoadLists(l, phase, lists[..i])
    {
      assert lists[..i + 1][..i] == lists[..i];
      after := ReadList(after, phase, i, lists[i]);
      if !after.ok {
        ListsFail(l, phase, lists, i + 1);
        return;
      }
    }
    assert lists[..|lists|] == lists;
  }

  method AllSane(index: map<Key, Known>) returns (sane: bool)
    ensures sane <==> forall k :: k in index ==> Sane(index[k])
  {
    var todo := index.Keys;
    while todo != {}
      invariant todo <= index.Keys && forall k :: k in index && k !in todo ==> Sane(index[k])
    {
      var k :| k in todo;
      if !Sane(index[k]) {
        return false;
      }
      todo := todo - {k};
    }
    sane := true;
  }

  method DeserializePeers(parse: Parser, rec: Record) returns (l: Loaded)
    ensures l == Load(parse, rec)
  {
    hide LoadAddresses, LoadLists, Empty, Sane;
    l := Loaded(Empty(rec.secret), false);
    if rec.version != SERIALISATION_VERSION {
      return;
    }
    var index := ReadAddresses(parse, rec.addresses);
    if index.None? {
      return;
    }
    l := Loaded(Empty(rec.secret).(index := index.value), true);
    l := ReadLists(l, NewPhase, rec.newBuckets);
    l := ReadLists(l, TriedPhase, rec.triedBuckets);
    var sane := AllSane(l.book.index);
    l := l.(ok := l.ok && sane);
  }
}
