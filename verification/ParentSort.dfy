/** The choice of the block to build on, by the votes that are available for each. */
module ParentSort {
  import opened Chain

  datatype Candidate = Candidate(hash: Hash, votes: nat)

  /** Vote counts are 16 bits wide. */
  function NumVotes(n: nat): nat {
    n % 0x1_0000
  }

  /** The blocks with a majority of votes, in the order given. */
  function Eligible(votes: Hash -> nat, blocks: seq<Hash>, min: nat): seq<Candidate> {
    if blocks == [] then []
    else
      var h := blocks[|blocks| - 1];
      Eligible(votes, blocks[..|blocks| - 1], min) +
      if NumVotes(votes(h)) >= min then [Candidate(h, NumVotes(votes(h)))] else []
  }

  predicate Descending(s: seq<Candidate>) {
    forall i, j :: 0 <= i < j < |s| ==> s[i].votes >= s[j].votes
  }

  /** A sort puts a list in descending order; which of two equal ones comes first is not specified. */
  ghost predicate Sorts(sort: seq<Candidate> -> seq<Candidate>) {
    forall s :: Descending(sort(s)) && multiset(sort(s)) == multiset(s)
  }

  function Hashes(s: seq<Candidate>): (hs: seq<Hash>)
    ensures |hs| == |s| && forall i :: 0 <= i < |s| ==> hs[i] == s[i].hash
  {
    if s == [] then [] else Hashes(s[..|s| - 1]) + [s[|s| - 1].hash]
  }

  /** The place of the first candidate with a hash, or 0. */
  function PlaceOf(s: seq<Candidate>, h: Hash): (pos: nat)
    ensures s != [] ==> pos < |s|
    ensures (exists i :: 0 <= i < |s| && s[i].hash == h) ==> pos < |s| && s[pos].hash == h
    ensures (forall i :: 0 <= i < |s| ==> s[i].hash != h) ==> pos == 0
  {
    if s == [] then 0
    else
      var n := |s| - 1;
      var pos := PlaceOf(s[..n], h);
      if s[n].hash == h && (n == 0 || s[pos].hash != h) then n else pos
  }

  /** The list of lists of votes for one block has one element, whatever votes there are. */
  const NUM_TOP_BLOCK_VOTES: nat := 1

  /** The sorted hashes, with the current top block swapped to the front in the case that the code means to be a tie. */
  function Parents(sorted: seq<Candidate>, top: Hash): seq<Hash> {
    var hashes := Hashes(sorted);
    if sorted == [] || sorted[0].votes != NUM_TOP_BLOCK_VOTES || sorted[0].hash == top then hashes
    else
      var pos := PlaceOf(sorted, top);
      hashes[0 := hashes[pos]][pos := hashes[0]]
  }

  // ---- What comes out ----

  lemma {:induction false} SwapIsPermutation<T>(s: seq<T>, i: nat, j: nat)
    requires i < |s| && j < |s|
    ensures multiset(s[i := s[j]][j := s[i]]) == multiset(s)
  {
  }

  /** Every eligible block comes out, each as often as it was given, and nothing else. */
  lemma ParentsPermute(sorted: seq<Candidate>, top: Hash)
    ensures multiset(Parents(sorted, top)) == multiset(Hashes(sorted))
  {
    if sorted != [] {
      SwapIsPermutation(Hashes(sorted), 0, PlaceOf(sorted, top));
    }
  }

  /** The votes of what comes out descend, swap or no swap: a swap happens only among blocks with one vote each. */
  lemma ParentsDescend(sorted: seq<Candidate>, top: Hash, min: nat, i: nat, j: nat, votes: Hash -> nat)
    requires Descending(sorted) && 0 < min && i <= j < |sorted|
    requires Counted(votes, min, sorted)
    ensures |Parents(sorted, top)| == |sorted|
    ensures NumVotes(votes(Parents(sorted, top)[i])) >= NumVotes(votes(Parents(sorted, top)[j])) >= min
  {
  }

  // ---- The promise to stay on the current block ----

  /** The current top block has as many votes as the leader. */
  ghost predicate Ties(sorted: seq<Candidate>, top: Hash) {
    exists i :: 0 <= i < |sorted| && sorted[i].hash == top && sorted[i].votes == sorted[0].votes
  }

  /** The current top block is not left for one with no more votes. */
  ghost predicate StaysOnTop(sorted: seq<Candidate>, top: Hash) {
    Ties(sorted, top) ==> Parents(sorted, top)[0] == top
  }

  /** An order that a sort may put a list in. */
  ghost predicate IsOrder(list: seq<Candidate>, order: seq<Candidate>) {
    Descending(order) && multiset(order) == multiset(list)
  }

  /** The promise is kept whatever the sort does with ties. */
  ghost predicate AlwaysStays(list: seq<Candidate>, top: Hash) {
    forall order :: IsOrder(list, order) ==> StaysOnTop(order, top)
  }

  /** Nothing in the list has more votes. */
  ghost predicate Leads(list: seq<Candidate>, x: Candidate) {
    x in list && forall y :: y in list ==> y.votes <= x.votes
  }

  ghost predicate TopLeads(list: seq<Candidate>, top: Hash) {
    exists x :: Leads(list, x) && x.hash == top
  }

  ghost predicate RivalLeads(list: seq<Candidate>, top: Hash) {
    exists x :: Leads(list, x) && x.hash != top
  }

  ghost predicate LeadsWithOne(list: seq<Candidate>) {
    exists x :: Leads(list, x) && x.votes == 1
  }

  /** Two lists with the same things in them have the same leaders. */
  lemma SameLeaders(list: seq<Candidate>, order: seq<Candidate>, x: Candidate)
    requires IsOrder(list, order)
    ensures x in list <==> x in order
    ensures Leads(list, x) <==> x in order && x.votes == order[0].votes
  {
    assert forall y :: y in list <==> y in multiset(list);
    assert forall y :: y in order <==> y in multiset(order);
    if x in order {
      assert order[0] in order;
    }
  }

  /** In a given order the promise is kept iff there is no tie, or the top block is in front already, or the tied blocks
      have one vote each. */
  lemma StaysInOrderIff(sorted: seq<Candidate>, top: Hash)
    ensures StaysOnTop(sorted, top) <==> !Ties(sorted, top) || sorted[0].hash == top || sorted[0].votes == 1
  {
  }

  /** An order that puts a rival in front. */
  lemma SomeOrderLeavesTop(sorted: seq<Candidate>, top: Hash, i: nat, j: nat)
    requires Descending(sorted) && i < |sorted| && j < |sorted| && sorted[0].votes != 1
    requires sorted[i].hash == top && sorted[i].votes == sorted[0].votes
    requires sorted[j].hash != top && sorted[j].votes == sorted[0].votes
    ensures var order := sorted[0 := sorted[j]][j := sorted[0]]; IsOrder(sorted, order) && !StaysOnTop(order, top)
  {
    var order := sorted[0 := sorted[j]][j := sorted[0]];
    SwapIsPermutation(sorted, 0, j);
    assert order[if i == 0 then j else i].hash == top;
    assert Ties(order, top);
  }

  /** One more candidate finds its place in an order. */
  lemma Insert(s: seq<Candidate>, x: Candidate) returns (r: seq<Candidate>)
    requires Descending(s)
    ensures Descending(r) && multiset(r) == multiset(s) + multiset{x}
  {
    var i := 0;
    while i < |s| && s[i].votes > x.votes
      invariant i <= |s| && forall k :: 0 <= k < i ==> s[k].votes > x.votes
    {
      i := i + 1;
    }
    r := s[..i] + [x] + s[i..];
    assert s == s[..i] + s[i..];
  }

  /** Every list has an order. */
  lemma {:induction false} HasOrder(list: seq<Candidate>) returns (order: seq<Candidate>)
    ensures IsOrder(list, order)
  {
    if list == [] {
      order := [];
    } else {
      var n := |list| - 1;
      order := HasOrder(list[..n]);
      order := Insert(order, list[n]);
      assert list == list[..n] + [list[n]];
    }
  }

  /** The promise is kept whatever the sort does, iff the top block is not among the leaders, or no other block is, or
      the leaders have one vote. All of this can be told from the votes before anything is sorted. */
  lemma AlwaysStaysIff(list: seq<Candidate>, top: Hash)
    ensures AlwaysStays(list, top) <==> !TopLeads(list, top) || !RivalLeads(list, top) || LeadsWithOne(list)
  {
    if TopLeads(list, top) && RivalLeads(list, top) && !LeadsWithOne(list) {
      var x, y :| Leads(list, x) && x.hash == top && Leads(list, y) && y.hash != top;
      var order := HasOrder(list);
      SameLeaders(list, order, x);
      SameLeaders(list, order, y);
      var i :| 0 <= i < |order| && order[i] == x;
      var j :| 0 <= j < |order| && order[j] == y;
      SomeOrderLeavesTop(order, top, i, j);
      assert IsOrder(list, order[0 := order[j]][j := order[0]]);
    } else {
      forall order | IsOrder(list, order) ensures StaysOnTop(order, top) {
        OrderStays(list, order, top);
      }
    }
  }

  lemma OrderStays(list: seq<Candidate>, order: seq<Candidate>, top: Hash)
    requires IsOrder(list, order) && (!TopLeads(list, top) || !RivalLeads(list, top) || LeadsWithOne(list))
    ensures StaysOnTop(order, top)
  {
    StaysInOrderIff(order, top);
    forall x ensures Leads(list, x) <==> x in order && x.votes == order[0].votes {
      SameLeaders(list, order, x);
    }
    if Ties(order, top) {
      var i :| 0 <= i < |order| && order[i].hash == top && order[i].votes == order[0].votes;
      assert order[i] in order && Leads(list, order[i]) && TopLeads(list, top);
      assert order[0] in order && Leads(list, order[0]);
    }
  }

  /** With more than one ticket a block, one vote is no majority, so the swap never happens. */
  lemma NeverSwaps(sorted: seq<Candidate>, top: Hash, ticketsPerBlock: nat)
    requires ticketsPerBlock >= 2 && forall k :: 0 <= k < |sorted| ==> sorted[k].votes >= ticketsPerBlock / 2 + 1
    ensures Parents(sorted, top) == Hashes(sorted)
  {
    assert ticketsPerBlock / 2 >= 1;
  }

  /** Two blocks with three of five votes each: the current one, 7, comes second if the sort left it there. */
  lemma LeavesTopOnTie()
    ensures var sorted := [Candidate(8, 3), Candidate(7, 3)];
      Descending(sorted) && Ties(sorted, 7) && Parents(sorted, 7) == [8, 7] && !StaysOnTop(sorted, 7)
  {
    var sorted := [Candidate(8, 3), Candidate(7, 3)];
    assert sorted[1].hash == 7;
    assert Hashes(sorted) == [8, 7];
  }

  // ---- The function itself ----

  lemma {:induction false} EligibleAre(votes: Hash -> nat, blocks: seq<Hash>, min: nat, x: Candidate)
    ensures x in Eligible(votes, blocks, min) <==>
      x.hash in blocks && x.votes == NumVotes(votes(x.hash)) && x.votes >= min
  {
    if blocks != [] {
      EligibleAre(votes, blocks[..|blocks| - 1], min, x);
      assert blocks == blocks[..|blocks| - 1] + [blocks[|blocks| - 1]];
    }
  }

  /** The top block has a majority, more than one vote, and as many votes as the best of the other blocks. */
  ghost predicate InDanger(votes: Hash -> nat, blocks: seq<Hash>, min: nat, top: Hash) {
    && top in blocks && NumVotes(votes(top)) >= min && NumVotes(votes(top)) != 1
    && (forall h :: h in blocks ==> NumVotes(votes(h)) <= NumVotes(votes(top)))
    && exists h :: h in blocks && h != top && NumVotes(votes(h)) == NumVotes(votes(top))
  }

  lemma LeadersAre(votes: Hash -> nat, blocks: seq<Hash>, min: nat, x: Candidate)
    ensures Leads(Eligible(votes, blocks, min), x) <==>
      && x.hash in blocks && x.votes == NumVotes(votes(x.hash)) && x.votes >= min
      && forall h :: h in blocks ==> NumVotes(votes(h)) <= x.votes
  {
    hide Eligible, NumVotes;
    var list := Eligible(votes, blocks, min);
    forall y ensures y in list <==> y.hash in blocks && y.votes == NumVotes(votes(y.hash)) && y.votes >= min {
      EligibleAre(votes, blocks, min, y);
    }
    forall h | h in blocks && NumVotes(votes(h)) >= min ensures Candidate(h, NumVotes(votes(h))) in list {
    }
  }

  /** For given blocks and votes the promise is kept by every sort iff the top block is not in danger. */
  lemma KeepsTopIff(votes: Hash -> nat, blocks: seq<Hash>, min: nat, top: Hash)
    ensures AlwaysStays(Eligible(votes, blocks, min), top) <==> !InDanger(votes, blocks, min, top)
  {
    var list := Eligible(votes, blocks, min);
    AlwaysStaysIff(list, top);
    hide Eligible, NumVotes, AlwaysStays, Leads;
    LeadersAre(votes, blocks, min, Candidate(top, NumVotes(votes(top))));
    forall x
      ensures Leads(list, x) <==>
        && x.hash in blocks && x.votes == NumVotes(votes(x.hash)) && x.votes >= min
        && forall h :: h in blocks ==> NumVotes(votes(h)) <= x.votes
    {
      LeadersAre(votes, blocks, min, x);
    }
    if InDanger(votes, blocks, min, top) {
      var h :| h in blocks && h != top && NumVotes(votes(h)) == NumVotes(votes(top));
      assert Leads(list, Candidate(h, NumVotes(votes(h))));
    }
  }

  method FilterByVotes(votes: Hash -> nat, blocks: seq<Hash>, min: nat) returns (filtered: seq<Candidate>)
    ensures filtered == Eligible(votes, blocks, min)
  {
    filtered := [];
    for i := 0 to |blocks|
      invariant filtered == Eligible(votes, blocks[..i], min)
    {
      assert blocks[..i + 1][..i] == blocks[..i];
      var numVotes := votes(blocks[i]) % 0x1_0000;
      if numVotes >= min {
        filtered := filtered + [Candidate(blocks[i], numVotes)];
      }
    }
    assert blocks[..|blocks|] == blocks;
  }

  method HashesOf(sorted: seq<Candidate>) returns (hashes: seq<Hash>)
    ensures hashes == Hashes(sorted)
  {
    hashes := [];
    for i := 0 to |sorted|
      invariant hashes == Hashes(sorted[..i])
    {
      assert sorted[..i + 1][..i] == sorted[..i];
      hashes := hashes + [sorted[i].hash];
    }
    assert sorted[..|sorted|] == sorted;
  }

  /** The place of the current top block, by a scan from the front; 0 if it is not there. */
  method FindTop(sorted: seq<Candidate>, top: Hash) returns (pos: nat)
    requires sorted != [] && sorted[0].hash != top
    ensures pos == PlaceOf(sorted, top)
  {
    hide PlaceOf;
    pos := 0;
    for i := 0 to |sorted|
      invariant pos == 0 && forall k :: 0 <= k < i ==> sorted[k].hash != top
    {
      if sorted[i].hash == top {
        pos := i;
        break;
      }
    }
    FirstPlace(sorted, top, pos);
  }

  lemma SortKeepsLength(sort: seq<Candidate> -> seq<Candidate>, s: seq<Candidate>)
    requires Sorts(sort)
    ensures |sort(s)| == |s|
  {
    assert |multiset(sort(s))| == |multiset(s)|;
  }

  /** What the documentation promises of the result: exactly the blocks with a majority, each as often as it was given,
      sorted by votes, descending. */
  ghost predicate SortedParents(votes: Hash -> nat, blocks: seq<Hash>, min: nat, parents: seq<Hash>) {
    && (forall h :: multiset(parents)[h] == if NumVotes(votes(h)) >= min then multiset(blocks)[h] else 0)
    && forall i, j :: 0 <= i <= j < |parents| ==> NumVotes(votes(parents[i])) >= NumVotes(votes(parents[j])) >= min
  }

  ghost predicate Counted(votes: Hash -> nat, min: nat, list: seq<Candidate>) {
    forall k :: 0 <= k < |list| ==> list[k].votes == NumVotes(votes(list[k].hash)) >= min
  }

  lemma LastCounts<T>(s: seq<T>)
    requires s != []
    ensures multiset(s) == multiset(s[..|s| - 1]) + multiset{s[|s| - 1]}
  {
    assert s == s[..|s| - 1] + [s[|s| - 1]];
  }

  lemma HashesFront(list: seq<Candidate>)
    requires list != []
    ensures Hashes(list)[..|list| - 1] == Hashes(list[..|list| - 1])
  {
  }

  lemma {:induction false} HashCount(votes: Hash -> nat, min: nat, list: seq<Candidate>, h: Hash)
    requires Counted(votes, min, list)
    ensures multiset(Hashes(list))[h] == multiset(list)[Candidate(h, NumVotes(votes(h)))]
  {
    hide NumVotes, Hashes;
    if list == [] {
      assert |Hashes(list)| == 0;
    } else {
      HashCount(votes, min, list[..|list| - 1], h);
      LastCounts(list);
      HashesFront(list);
      LastCounts(Hashes(list));
    }
  }

  lemma {:induction false} EligibleCount(votes: Hash -> nat, blocks: seq<Hash>, min: nat, h: Hash)
    ensures multiset(Eligible(votes, blocks, min))[Candidate(h, NumVotes(votes(h)))] ==
      if NumVotes(votes(h)) >= min then multiset(blocks)[h] else 0
  {
    hide NumVotes;
    if blocks != [] {
      var n := |blocks| - 1;
      EligibleCount(votes, blocks[..n], min, h);
      assert blocks == blocks[..n] + [blocks[n]];
    }
  }

  lemma OrderCounted(votes: Hash -> nat, blocks: seq<Hash>, min: nat, order: seq<Candidate>)
    requires IsOrder(Eligible(votes, blocks, min), order)
    ensures Counted(votes, min, order)
  {
    hide NumVotes, Eligible;
    forall k | 0 <= k < |order| ensures order[k].votes == NumVotes(votes(order[k].hash)) >= min {
      SameLeaders(Eligible(votes, blocks, min), order, order[k]);
      EligibleAre(votes, blocks, min, order[k]);
    }
  }

  lemma CountsAreRight(votes: Hash -> nat, blocks: seq<Hash>, min: nat, order: seq<Candidate>, top: Hash, h: Hash)
    requires IsOrder(Eligible(votes, blocks, min), order)
    ensures multiset(Parents(order, top))[h] == if NumVotes(votes(h)) >= min then multiset(blocks)[h] else 0
  {
    OrderCounted(votes, blocks, min, order);
    ParentsPermute(order, top);
    hide Parents, Eligible, Hashes, NumVotes, Descending, Counted;
    HashCount(votes, min, order, h);
    EligibleCount(votes, blocks, min, h);
  }

  lemma OrdersAreRight(votes: Hash -> nat, blocks: seq<Hash>, min: nat, order: seq<Candidate>, top: Hash)
    requires min > 0 && IsOrder(Eligible(votes, blocks, min), order)
    ensures SortedParents(votes, blocks, min, Parents(order, top))
  {
    hide Parents, Eligible, Hashes, NumVotes, Counted;
    forall h
      ensures multiset(Parents(order, top))[h] == if NumVotes(votes(h)) >= min then multiset(blocks)[h] else 0
    {
      CountsAreRight(votes, blocks, min, order, top, h);
    }
    OrderCounted(votes, blocks, min, order);
    LengthKept(order, top);
    forall i, j | 0 <= i <= j < |Parents(order, top)|
      ensures NumVotes(votes(Parents(order, top)[i])) >= NumVotes(votes(Parents(order, top)[j])) >= min
    {
      ParentsDescend(order, top, min, i, j, votes);
    }
  }

  lemma LengthKept(sorted: seq<Candidate>, top: Hash)
    ensures |Parents(sorted, top)| == |sorted|
  {
  }

  method SortParentsByVotes(votes: Hash -> nat, top: Hash, blocks: seq<Hash>, ticketsPerBlock: nat,
                            sort: seq<Candidate> -> seq<Candidate>) returns (parents: seq<Hash>)
    requires Sorts(sort)
    ensures parents == Parents(sort(Eligible(votes, blocks, ticketsPerBlock / 2 + 1)), top)
    ensures SortedParents(votes, blocks, ticketsPerBlock / 2 + 1, parents)
  {
    hide Eligible, Hashes, PlaceOf;
    var filtered := FilterByVotes(votes, blocks, ticketsPerBlock / 2 + 1);
    SortKeepsLength(sort, filtered);
    var sorted := sort(filtered);
    assert IsOrder(filtered, sorted);
    OrdersAreRight(votes, blocks, ticketsPerBlock / 2 + 1, sorted, top);
    hide Sorts, IsOrder, SortedParents;
    parents := HashesOf(sorted);
    if |filtered| == 0 {
      return;
    }
    var numTopBlockVotes := 1;
    if sorted[0].votes == numTopBlockVotes && sorted[0].hash != top {
      var pos := FindTop(sorted, top);
      if pos != 0 {
        parents := parents[0 := parents[pos]][pos := parents[0]];
      }
    }
  }

  lemma {:induction false} FirstPlace(s: seq<Candidate>, h: Hash, pos: nat)
    requires s != [] && pos < |s| && s[0].hash != h
    requires forall k :: 0 <= k < pos ==> s[k].hash != h
    requires s[pos].hash == h || (pos == 0 && forall k :: 0 <= k < |s| ==> s[k].hash != h)
    ensures pos == PlaceOf(s, h)
  {
    if |s| > 1 {
      var n := |s| - 1;
      if pos < n {
        FirstPlace(s[..n], h, pos);
      } else {
        FirstPlace(s[..n], h, 0);
      }
    }
  }
}
