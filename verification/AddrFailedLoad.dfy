/** What a failed load leaves behind. */
module AddrFailedLoad {
  import opened Chain
  import opened AddrBook
  import opened AddrBookProof
  import opened AddrStore

  /** The book after a failed load: everything is emptied but the two counts. */
  function Reset(bk: Book, secret: nat): Book {
    Empty(secret).(nNew := bk.nNew, nTried := bk.nTried)
  }

  /** The first key that any of the lists holds. */
  function FirstKey(lists: seq<seq<Key>>): Option<Key> {
    if lists == [] then None
    else
      var front, last := FirstKey(lists[..|lists| - 1]), lists[|lists| - 1];
      if front.Some? then front else if last == [] then None else Some(last[0])
  }

  /** Whether the load gives up before it counts anything. This can be told from the record: it has another version,
      or an address that cannot be read, or lists no key at all, or the first key that it lists is not an address. */
  ghost predicate CountsNothing(parse: Parser, rec: Record) {
    var first := FirstKey(rec.newBuckets + rec.triedBuckets);
    || rec.version != SERIALISATION_VERSION || !AllParse(parse, rec.addresses)
    || first.None? || first.value !in AddressKeys(parse, rec.addresses)
  }

  function Count(l: Loaded): int {
    l.book.nNew + l.book.nTried
  }

  /** Nothing counted and nothing referenced yet. */
  ghost predicate Blank(l: Loaded) {
    l.ok && l.book.nNew == 0 && l.book.nTried == 0 && forall k :: k in l.book.index ==> l.book.index[k].refs == 0
  }

  ghost predicate Positive(l: Loaded) {
    l.book.nNew >= 0 && l.book.nTried >= 0 && Count(l) > 0
  }

  ghost predicate InRange(l: Loaded, phase: Phase, b: nat) {
    if phase.NewPhase? then b < |l.book.buckets| else b < |l.book.tried|
  }

  lemma {:induction false} StaysPositive(l: Loaded, phase: Phase, b: nat, list: seq<Key>)
    requires Positive(l)
    ensures Positive(LoadList(l, phase, b, list))
  {
    if list != [] {
      StaysPositive(l, phase, b, list[..|list| - 1]);
    }
  }

  lemma {:induction false} StaysFailed(l: Loaded, phase: Phase, b: nat, list: seq<Key>)
    requires !l.ok
    ensures LoadList(l, phase, b, list) == l
  {
    if list != [] {
      StaysFailed(l, phase, b, list[..|list| - 1]);
    }
  }

  /** One list, from a blank start. */
  lemma {:induction false} FirstOfList(l: Loaded, phase: Phase, b: nat, list: seq<Key>)
    requires Blank(l) && InRange(l, phase, b) && list != []
    ensures if list[0] in l.book.index then Positive(LoadList(l, phase, b, list))
      else LoadList(l, phase, b, list) == l.(ok := false)
  {
    if |list| == 1 {
      assert list[..0] == [];
    } else {
      var front := list[..|list| - 1];
      FirstOfList(l, phase, b, front);
      assert LoadList(l, phase, b, list) == LoadKey(LoadList(l, phase, b, front), phase, b, list[|list| - 1]);
    }
  }

  /** All the lists of one phase, from a blank start. */
  lemma {:induction false} FirstOfLists(l: Loaded, phase: Phase, lists: seq<seq<Key>>)
    requires Blank(l) && forall b :: 0 <= b < |lists| ==> InRange(l, phase, b)
    ensures var first, after := FirstKey(lists), LoadLists(l, phase, lists);
      if first.None? then after == l
      else if first.value in l.book.index then Positive(after)
      else after == l.(ok := false)
  {
    if lists != [] {
      var n := |lists| - 1;
      FirstOfLists(l, phase, lists[..n]);
      var mid := LoadLists(l, phase, lists[..n]);
      if FirstKey(lists[..n]).None? {
        if lists[n] != [] {
          FirstOfList(l, phase, n, lists[n]);
        }
      } else if FirstKey(lists[..n]).value in l.book.index {
        StaysPositive(mid, phase, n, lists[n]);
      } else {
        StaysFailed(mid, phase, n, lists[n]);
      }
    }
  }

  lemma {:induction false} AllStaysPositive(l: Loaded, phase: Phase, lists: seq<seq<Key>>)
    requires Positive(l)
    ensures Positive(LoadLists(l, phase, lists))
  {
    if lists != [] {
      AllStaysPositive(l, phase, lists[..|lists| - 1]);
      StaysPositive(LoadLists(l, phase, lists[..|lists| - 1]), phase, |lists| - 1, lists[|lists| - 1]);
    }
  }

  lemma {:induction false} AllStaysFailed(l: Loaded, phase: Phase, lists: seq<seq<Key>>)
    requires !l.ok
    ensures LoadLists(l, phase, lists) == l
  {
    if lists != [] {
      AllStaysFailed(l, phase, lists[..|lists| - 1]);
      StaysFailed(l, phase, |lists| - 1, lists[|lists| - 1]);
    }
  }

  lemma {:induction false} FirstOfBoth(a: seq<seq<Key>>, b: seq<seq<Key>>)
    ensures FirstKey(a + b) == if FirstKey(a).Some? then FirstKey(a) else FirstKey(b)
  {
    if b == [] {
      assert a + b == a;
    } else {
      FirstOfBoth(a, b[..|b| - 1]);
      assert (a + b)[..|a + b| - 1] == a + b[..|b| - 1];
    }
  }

  lemma {:induction false} AddressesBlank(parse: Parser, list: seq<Saved>)
    ensures var index := LoadAddresses(parse, list);
      index.Some? ==> forall k :: k in index.value ==> index.value[k].refs == 0
  {
    if list != [] {
      AddressesBlank(parse, list[..|list| - 1]);
    }
  }

  lemma LoadCounts(parse: Parser, rec: Record)
    requires |rec.newBuckets| <= NEW_BUCKET_COUNT && |rec.triedBuckets| <= TRIED_BUCKET_COUNT
    ensures var l := Load(parse, rec);
      if CountsNothing(parse, rec) then l.book.nNew == 0 && l.book.nTried == 0 else Positive(l)
  {
    var index := LoadAddresses(parse, rec.addresses);
    AddressesReadIff(parse, rec.addresses);
    hide AddressKeys;
    FirstOfBoth(rec.newBuckets, rec.triedBuckets);
    if rec.version == SERIALISATION_VERSION && index.Some? {
      AddressesBlank(parse, rec.addresses);
      var start := Loaded(Empty(rec.secret).(index := index.value), true);
      FirstOfLists(start, NewPhase, rec.newBuckets);
      var news := LoadLists(start, NewPhase, rec.newBuckets);
      if FirstKey(rec.newBuckets).None? {
        FirstOfLists(start, TriedPhase, rec.triedBuckets);
      } else if FirstKey(rec.newBuckets).value in index.value {
        AllStaysPositive(news, TriedPhase, rec.triedBuckets);
      } else {
        AllStaysFailed(news, TriedPhase, rec.triedBuckets);
      }
    }
  }

  /** After a failed load the counts are right exactly when the load had counted nothing yet. */
  lemma FailedLoadCounts(parse: Parser, rec: Record, secret: nat)
    requires |rec.newBuckets| <= NEW_BUCKET_COUNT && |rec.triedBuckets| <= TRIED_BUCKET_COUNT
    requires !Load(parse, rec).ok
    ensures Inv(Reset(Load(parse, rec).book, secret)) <==> CountsNothing(parse, rec)
  {
    LoadCounts(parse, rec);
    EmptyInv(secret);
    assert Untried(map[]) == {} && TriedKeys(map[]) == {};
    hide Load, CountsNothing, Sized, Keyed, RefsBounded, Referenced, Listed;
  }

  /** One such record: a known key and then an unknown one in the same bucket. */
  lemma MiscountingRecord(parse: Parser, known: Key, unknown: Key, secret: nat)
    requires known != unknown && parse(known).Some? && KeyOf(parse(known).value) == known
    ensures var rec := Record(SERIALISATION_VERSION, secret, [Saved(known, known, 0, 0, 0, 0)], [[known, unknown]], []);
      !Load(parse, rec).ok && !Inv(Reset(Load(parse, rec).book, secret))
  {
    var saved, keys := Saved(known, known, 0, 0, 0, 0), [known, unknown];
    var rec := Record(SERIALISATION_VERSION, secret, [saved], [keys], []);
    assert [saved][..0] == [] && LoadAddresses(parse, []).Some? && LoadAddresses(parse, []).value.Keys == {};
    var index := LoadAddresses(parse, [saved]);
    assert index.Some? && index.value.Keys == {known};
    var start := Loaded(Empty(secret).(index := index.value), true);
    var none: seq<seq<Key>> := [];
    assert keys[..1] == [known] && [known][..0] == [] && [keys][..0] == none;
    assert LoadList(start, NewPhase, 0, []) == start;
    assert LoadList(start, NewPhase, 0, [known]) == LoadNewKey(start, 0, known);
    assert !LoadList(start, NewPhase, 0, keys).ok;
    assert LoadLists(start, NewPhase, none) == start && !LoadLists(start, NewPhase, [keys]).ok;
    assert FirstKey([keys]) == Some(known) && [keys] + none == [keys];
    FailedLoadCounts(parse, rec, secret);
  }
}
