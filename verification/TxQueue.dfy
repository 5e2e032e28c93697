/** The priority queue of candidate transactions: its two orders and its binary heap. */
module TxQueue {
  import opened Chain

  /** A candidate. Rounding is not modelled: the two ratios are reals. */
  datatype PrioItem = PrioItem(tx: Tx, fee: int, priority: real, feePerKB: real)

  type LessFunc = (PrioItem, PrioItem) -> bool

  function StakePriority(kind: TxKind): int {
    match kind
    case Vote => 2
    case Ticket => 1
    case Regular | Revocation => 0
  }

  function CompareStakePriority(i: PrioItem, j: PrioItem): int {
    var ip, jp := StakePriority(i.tx.kind), StakePriority(j.tx.kind);
    if ip > jp then 1 else if ip < jp then -1 else 0
  }

  predicate ByStakeAndFee(i: PrioItem, j: PrioItem) {
    var cmp := CompareStakePriority(i, j);
    if cmp == 1 then true
    else if cmp == -1 then false
    else if i.feePerKB == j.feePerKB then i.priority > j.priority
    else i.feePerKB > j.feePerKB
  }

  predicate ByStakeAndFeeAndThenPriority(i: PrioItem, j: PrioItem) {
    var cmp := CompareStakePriority(i, j);
    if cmp == 1 then true
    else if cmp == -1 then false
    else if !(StakePriority(i.tx.kind) == 0 && StakePriority(j.tx.kind) == 0) then i.feePerKB > j.feePerKB
    else if i.priority == j.priority then i.feePerKB > j.feePerKB
    else i.priority > j.priority
  }

  ghost predicate SameRank(a: TxKind, b: TxKind) {
    (a.Vote? <==> b.Vote?) && (a.Ticket? <==> b.Ticket?)
  }

  /** Votes come before tickets, and tickets before everything else. Within that the higher fee comes first, and then
      the higher priority; but before the order switches, priority comes first and the fee second for what is neither
      vote nor ticket, and the fee alone counts for votes and tickets. */
  ghost predicate NotBehind(byFee: bool, a: PrioItem, b: PrioItem) {
    && (b.tx.kind.Vote? ==> a.tx.kind.Vote?) && (b.tx.kind.Ticket? ==> a.tx.kind.Vote? || a.tx.kind.Ticket?)
    && (SameRank(a.tx.kind, b.tx.kind) ==>
          if byFee then a.feePerKB >= b.feePerKB && (a.feePerKB == b.feePerKB ==> a.priority >= b.priority)
          else if a.tx.kind.Vote? || a.tx.kind.Ticket? then a.feePerKB >= b.feePerKB
          else a.priority >= b.priority && (a.priority == b.priority ==> a.feePerKB >= b.feePerKB))
  }

  /** Asymmetric, and "does not come before" is transitive. */
  ghost predicate StrictWeakOrder(less: LessFunc) {
    && (forall a, b :: less(a, b) ==> !less(b, a))
    && (forall a, b, c :: !less(b, a) && !less(c, b) ==> !less(c, a))
  }

  /** Both orders can drive a heap, and put first what is not behind. */
  lemma OrdersAreStrictWeak()
    ensures StrictWeakOrder(ByStakeAndFee) && StrictWeakOrder(ByStakeAndFeeAndThenPriority)
    ensures forall a, b :: ByStakeAndFee(b, a) <==> !NotBehind(true, a, b)
    ensures forall a, b :: ByStakeAndFeeAndThenPriority(b, a) <==> !NotBehind(false, a, b)
  {
  }

  // ---- The heap ----

  function Parent(j: nat): (i: nat)
    requires j > 0
    ensures i < j
  {
    (j - 1) / 2
  }

  /** Every item below `n` whose parent is at least `lo` comes no earlier than that parent. */
  ghost predicate HeapFrom(less: LessFunc, s: seq<PrioItem>, lo: nat, n: nat)
    requires n <= |s|
  {
    forall j :: 0 < j < n && lo <= Parent(j) ==> !less(s[j], s[Parent(j)])
  }

  ghost predicate Heap(less: LessFunc, s: seq<PrioItem>) {
    HeapFrom(less, s, 0, |s|)
  }

  /** The same, except that the item at `i` may come before its parent. */
  ghost predicate HeapButUp(less: LessFunc, s: seq<PrioItem>, i: nat) {
    && (forall j :: 0 < j < |s| && j != i ==> !less(s[j], s[Parent(j)]))
    && (forall j :: 0 < j < |s| && Parent(j) == i && i > 0 ==> !less(s[j], s[Parent(i)]))
  }

  /** The same, except that the children of `i` may come before it. */
  ghost predicate HeapButDown(less: LessFunc, s: seq<PrioItem>, lo: nat, i: nat, n: nat)
    requires n <= |s|
  {
    && (forall j :: 0 < j < n && lo <= Parent(j) && Parent(j) != i ==> !less(s[j], s[Parent(j)]))
    && (forall j :: 0 < j < n && Parent(j) == i && lo <= i && i > 0 && lo <= Parent(i) ==> !less(s[j], s[Parent(i)]))
  }

  function Swapped(s: seq<PrioItem>, i: nat, j: nat): (r: seq<PrioItem>)
    requires i < |s| && j < |s|
    ensures multiset(r) == multiset(s) && |r| == |s|
  {
    s[i := s[j]][j := s[i]]
  }

  /** The root of a heap is an item that nothing in it strictly precedes. */
  lemma {:induction false} RootIsFirst(less: LessFunc, s: seq<PrioItem>, k: nat)
    requires StrictWeakOrder(less) && Heap(less, s) && k < |s|
    ensures !less(s[k], s[0])
  {
    if k > 0 {
      RootIsFirst(less, s, Parent(k));
    }
  }

  lemma UpStep(less: LessFunc, s: seq<PrioItem>, j: nat)
    requires StrictWeakOrder(less) && 0 < j < |s|
    requires HeapButUp(less, s, j) && less(s[j], s[Parent(j)])
    ensures HeapButUp(less, Swapped(s, Parent(j), j), Parent(j))
  {
  }

  lemma DownStep(less: LessFunc, s: seq<PrioItem>, lo: nat, i: nat, j: nat, n: nat)
    requires StrictWeakOrder(less) && lo <= i && 0 < j < n <= |s| && Parent(j) == i
    requires HeapButDown(less, s, lo, i, n) && less(s[j], s[i])
    requires forall k :: 0 < k < n && Parent(k) == i ==> !less(s[k], s[j])
    ensures HeapButDown(less, Swapped(s, i, j), lo, j, n)
  {
  }

  /** The child of `i` that comes first. */
  function FirstChild(less: LessFunc, s: seq<PrioItem>, i: nat, n: nat): (j: nat)
    requires 2 * i + 1 < n <= |s|
    ensures 0 < j < n && Parent(j) == i
    ensures StrictWeakOrder(less) ==> forall k :: 0 < k < n && Parent(k) == i ==> !less(s[k], s[j])
  {
    if 2 * i + 2 < n && less(s[2 * i + 2], s[2 * i + 1]) then 2 * i + 2 else 2 * i + 1
  }

  lemma DownStart(less: LessFunc, s: seq<PrioItem>, i: nat, n: nat)
    requires n <= |s| && HeapFrom(less, s, i + 1, n)
    ensures HeapButDown(less, s, i, i, n)
  {
  }

  lemma DownStop(less: LessFunc, s: seq<PrioItem>, lo: nat, i: nat, n: nat)
    requires n <= |s| && HeapButDown(less, s, lo, i, n)
    requires forall k :: 0 < k < n && Parent(k) == i ==> !less(s[k], s[i])
    ensures HeapFrom(less, s, lo, n)
  {
  }

  /** Ties to the multiset of items, not to their places in the heap. */
  class TxPriorityQueue {
    var lessFunc: LessFunc
    var items: seq<PrioItem>

    ghost predicate Valid()
      reads this
    {
      StrictWeakOrder(lessFunc) && Heap(lessFunc, items)
    }

    constructor (less: LessFunc)
      requires StrictWeakOrder(less)
      ensures Valid() && items == [] && lessFunc == less
    {
      lessFunc, items := less, [];
    }

    method Up(k: nat)
      requires StrictWeakOrder(lessFunc) && k < |items| && HeapButUp(lessFunc, items, k)
      modifies this`items
      ensures Valid() && multiset(items) == multiset(old(items))
    {
      var j := k;
      while j > 0 && lessFunc(items[j], items[(j - 1) / 2])
        invariant 0 <= j < |items| && HeapButUp(lessFunc, items, j)
        invariant multiset(items) == multiset(old(items))
      {
        UpStep(lessFunc, items, j);
        var i := (j - 1) / 2;
        items := Swapped(items, i, j);
        j := i;
      }
    }

    method Down(i0: nat, n: nat)
      requires StrictWeakOrder(lessFunc) && i0 <= n <= |items|
      requires HeapFrom(lessFunc, items, i0 + 1, n)
      modifies this`items
      ensures |items| == |old(items)| && multiset(items) == multiset(old(items))
      ensures forall k :: n <= k < |items| ==> items[k] == old(items)[k]
      ensures HeapFrom(lessFunc, items, i0, n)
    {
      var i := i0;
      DownStart(lessFunc, items, i, n);
      while 2 * i + 1 < n
        invariant i0 <= i && |items| == |old(items)| && multiset(items) == multiset(old(items))
        invariant forall k :: n <= k < |items| ==> items[k] == old(items)[k]
        invariant HeapButDown(lessFunc, items, i0, i, n)
      {
        var j := FirstChild(lessFunc, items, i, n);
        if !lessFunc(items[j], items[i]) {
          DownStop(lessFunc, items, i0, i, n);
          return;
        }
        DownStep(lessFunc, items, i0, i, j, n);
        items := Swapped(items, i, j);
        i := j;
      }
      DownStop(lessFunc, items, i0, i, n);
    }

    /** heap.Push on the queue. */
    method Push(x: PrioItem)
      requires Valid()
      modifies this`items
      ensures Valid() && multiset(items) == multiset(old(items)) + multiset{x}
    {
      items := items + [x];
      Up(|items| - 1);
    }

    /** heap.Pop on the queue. */
    method Pop() returns (x: PrioItem)
      requires Valid() && |items| > 0
      modifies this`items
      ensures Valid() && multiset(old(items)) == multiset(items) + multiset{x}
      ensures forall k :: 0 <= k < |items| ==> !lessFunc(items[k], x)
    {
      var n := |items| - 1;
      ghost var before := items;
      forall k | 0 <= k < |before| ensures !lessFunc(before[k], before[0]) {
        RootIsFirst(lessFunc, before, k);
      }
      items := Swapped(items, 0, n);
      Down(0, n);
      x := items[n];
      assert items == items[..n] + [x];
      items := items[..n];
      forall k | 0 <= k < |items| ensures !lessFunc(items[k], x) {
        assert items[k] in multiset(items) && items[k] in multiset(before);
      }
    }

    /** Changes the order mid-run and rebuilds the heap with it. */
    method SetLessFunc(less: LessFunc)
      requires StrictWeakOrder(less)
      modifies this
      ensures Valid() && lessFunc == less && multiset(items) == multiset(old(items))
    {
      lessFunc := less;
      var n := |items|;
      var i := n / 2;
      while i > 0
        invariant 0 <= i <= n == |items| && lessFunc == less
        invariant HeapFrom(lessFunc, items, i, n)
        invariant multiset(items) == multiset(old(items))
      {
        i := i - 1;
        Down(i, n);
      }
    }
  }
}
