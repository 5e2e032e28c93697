/** Which files can be loaded, and what the file means for the runs that begin with it. */
module AddrFile {
  import opened Chain
  import opened AddrBook
  import opened AddrBookProof
  import opened AddrOps
  import opened AddrStore
  import opened AddrRoundTrip
  import opened AddrLoad
  import AddrFailedLoad

  // ---- When a record can be loaded ----

  /** It has the right version, all addresses and sources can be read, only addresses are listed, and each of them is
      listed in one of the two kinds of buckets and not in both. */
  ghost predicate Loadable(parse: Parser, rec: Record) {
    && rec.version == SERIALISATION_VERSION && AllParse(parse, rec.addresses)
    && KeysIn(rec.newBuckets) + KeysIn(rec.triedBuckets) == AddressKeys(parse, rec.addresses)
    && KeysIn(rec.newBuckets) !! KeysIn(rec.triedBuckets)
  }

  /** A list is read to its end exactly if all its keys are known; no key comes or goes by that. */
  lemma {:induction false} ListReadIff(l: Loaded, phase: Phase, b: nat, list: seq<Key>)
    requires l.ok && AddrFailedLoad.InRange(l, phase, b)
    ensures var after := LoadList(l, phase, b, list);
      && (after.ok <==> Elems(list) <= l.book.index.Keys) && after.book.index.Keys == l.book.index.Keys
      && |after.book.buckets| == |l.book.buckets| && |after.book.tried| == |l.book.tried|
  {
    if list != [] {
      ListReadIff(l, phase, b, list[..|list| - 1]);
      ElemsLast(list);
      hide Elems;
    }
  }

  lemma {:induction false} ListsReadIff(l: Loaded, phase: Phase, lists: seq<seq<Key>>)
    requires l.ok && forall b :: 0 <= b < |lists| ==> AddrFailedLoad.InRange(l, phase, b)
    ensures var after := LoadLists(l, phase, lists);
      && (after.ok <==> KeysIn(lists) <= l.book.index.Keys) && after.book.index.Keys == l.book.index.Keys
      && |after.book.buckets| == |l.book.buckets| && |after.book.tried| == |l.book.tried|
  {
    if lists != [] {
      var n := |lists| - 1;
      hide LoadList, Elems;
      ListsReadIff(l, phase, lists[..n]);
      var mid := LoadLists(l, phase, lists[..n]);
      assert AddrFailedLoad.InRange(l, phase, n);
      if mid.ok {
        ListReadIff(mid, phase, n, lists[n]);
      } else {
        AddrFailedLoad.StaysFailed(mid, phase, n, lists[n]);
      }
    }
  }

  /** After both phases an address passes the sanity checks exactly if one kind of bucket lists it. */
  lemma SaneIff(rec: Record, index: map<Key, Known>, mid: Book, k: Key)
    requires Shaped(rec) && NewFrom(rec, index, mid) && (forall j :: j in index ==> !index[j].tried) && k in index
    requires LoadLists(Loaded(mid, true), TriedPhase, rec.triedBuckets).ok
    ensures var bk := LoadLists(Loaded(mid, true), TriedPhase, rec.triedBuckets).book;
      && bk.index.Keys == index.Keys
      && (Sane(bk.index[k]) <==> (k in KeysIn(rec.newBuckets) <==> k !in KeysIn(rec.triedBuckets)))
  {
    StartTriedCounted(index, mid, Tally(rec.newBuckets));
    TriedListsCount(mid.index, mid, rec.triedBuckets);
    TallyKeys(rec.newBuckets, k);
    TallyKeys(rec.triedBuckets, k);
    hide LoadLists, Tally, KeysIn, Elems, Held;
  }

  /** A record loads exactly if it is loadable. */
  lemma LoadsIff(parse: Parser, rec: Record)
    requires Shaped(rec)
    ensures Load(parse, rec).ok <==> Loadable(parse, rec)
  {
    AddressesReadIff(parse, rec.addresses);
    if rec.version == SERIALISATION_VERSION && AllParse(parse, rec.addresses) {
      var index := LoadAddresses(parse, rec.addresses).value;
      AddressesKeyed(parse, rec.addresses);
      EmptyShape(rec.secret);
      var start := Loaded(Empty(rec.secret).(index := index), true);
      hide LoadLists, LoadAddresses, NewFrom, Keyed, Sane, Empty, KeysIn, AddressKeys;
      ListsReadIff(start, NewPhase, rec.newBuckets);
      var news := LoadLists(start, NewPhase, rec.newBuckets);
      if news.ok {
        NewGives(rec, index);
        ListsReadIff(news, TriedPhase, rec.triedBuckets);
        if LoadLists(news, TriedPhase, rec.triedBuckets).ok {
          forall k | k in index
            ensures var bk := LoadLists(news, TriedPhase, rec.triedBuckets).book;
              && bk.index.Keys == index.Keys
              && (Sane(bk.index[k]) <==> (k in KeysIn(rec.newBuckets) <==> k !in KeysIn(rec.triedBuckets)))
          {
            SaneIff(rec, index, news.book, k);
          }
        }
      } else {
        AddrFailedLoad.AllStaysFailed(news, TriedPhase, rec.triedBuckets);
      }
    }
  }

  // ---- Runs that begin with a file ----

  /** The book that the manager starts with: an empty one if there is no file, the loaded one, or what a failed load
      leaves behind. */
  function Begun(parse: Parser, file: Option<Record>, secret: nat): Book {
    match file
    case None => Empty(secret)
    case Some(rec) => var l := Load(parse, rec); if l.ok then l.book else AddrFailedLoad.Reset(l.book, secret)
  }

  /** What can be told from the file alone: it can be loaded and is orderly, or it cannot and counts nothing. */
  ghost predicate GoodFile(parse: Parser, file: Option<Record>) {
    file.Some? ==>
      if Loadable(parse, file.value) then Orderly(file.value) else AddrFailedLoad.CountsNothing(parse, file.value)
  }

  lemma BegunInvIff(parse: Parser, file: Option<Record>, secret: nat)
    requires file.Some? ==> Shaped(file.value)
    ensures Inv(Begun(parse, file, secret)) <==> GoodFile(parse, file)
  {
    hide Inv, Load, Loadable, Orderly, Empty, AddrFailedLoad.CountsNothing, AddrFailedLoad.Reset;
    if file.None? {
      EmptyInv(secret);
    } else {
      LoadsIff(parse, file.value);
      if Load(parse, file.value).ok {
        LoadedInvIff(parse, file.value);
      } else {
        AddrFailedLoad.FailedLoadCounts(parse, file.value, secret);
      }
    }
  }

  /** Whatever the file, in every state of every run of the manager the index, the buckets, the counts and the flags
      agree if the file was good; and if it was not, they do not even at the start. */
  lemma ManagerRunInv(parse: Parser, file: Option<Record>, secret: nat, o: Oracle, ops: seq<Op>, books: seq<Book>,
                      n: nat)
    requires file.Some? ==> Shaped(file.value)
    requires Run(o, ops, books) && books[0] == Begun(parse, file, secret) && n < |books|
    ensures GoodFile(parse, file) ==> Inv(books[n])
    ensures !GoodFile(parse, file) ==> !Inv(books[0])
  {
    BegunInvIff(parse, file, secret);
    hide Inv, Begun, GoodFile, Run;
    if GoodFile(parse, file) {
      RunInv(o, ops, books, n);
    }
  }
}
