/** What every round of template selection keeps. */
module SelectionProof {
  import opened Chain
  import opened Ledger
  import opened TxQueue
  import opened Selection
  import DepGraph

  /** What the pool and the chain guarantee of a pool transaction. */
  ghost predicate PoolTx(r: Rules, confirmed: set<Hash>, tx: Tx) {
    && WellShaped(tx) && Named(tx) && tx.tree == TreeOf(tx.kind)
    && DistinctOutPoints(tx) && ChainConsistent(r.chain, confirmed, tx)
  }

  ghost predicate PoolOk(r: Rules, confirmed: set<Hash>, pool: seq<TxDesc>) {
    && OfConfirmed(r.chain, confirmed)
    && (forall i :: 0 <= i < |pool| ==> PoolTx(r, confirmed, pool[i].tx))
    && (forall i, j :: 0 <= i < j < |pool| ==> pool[i].tx.hash != pool[j].tx.hash)
  }

  // ---- The invariant ----

  /** A vote for the block that the template extends. */
  predicate VotesForParent(r: Rules, tx: Tx) {
    tx.kind.Vote? ==> tx.votedBlock == r.parent && tx.votedHeight == r.height - 1
  }

  ghost predicate Known(r: Rules, confirmed: set<Hash>, items: map<Hash, PrioItem>) {
    forall h :: h in items ==>
      items[h].tx.hash == h && PoolTx(r, confirmed, items[h].tx) && VotesForParent(r, items[h].tx)
  }

  /** The block holds items of the pool, each with its own fee. */
  ghost predicate Drawn(items: map<Hash, PrioItem>, b: Block) {
    && b.counts.Keys == b.fees.Keys <= items.Keys
    && (forall j :: 0 <= j < |b.txs| ==> b.txs[j].hash in b.fees)
    && (forall j :: 0 <= j < |b.txs| && b.txs[j].hash in items ==> items[b.txs[j].hash].tx == b.txs[j])
    && (forall h :: h in b.fees && h in items ==> HasHash(b.txs, h) && b.fees[h] == items[h].fee)
  }

  function SizeSum(txs: seq<Tx>): nat {
    if txs == [] then 0 else SizeSum(txs[..|txs| - 1]) + txs[|txs| - 1].size % TWO32
  }

  function CountSum(txs: seq<Tx>, counts: map<Hash, int>): int {
    if txs == [] then 0
    else CountSum(txs[..|txs| - 1], counts) + var h := txs[|txs| - 1].hash; if h in counts then counts[h] else 0
  }

  function NumOf(txs: seq<Tx>, kind: TxKind): nat {
    if txs == [] then 0 else NumOf(txs[..|txs| - 1], kind) + if txs[|txs| - 1].kind == kind then 1 else 0
  }

  /** The running totals are the exact sums over what was chosen, and are within the limits. */
  ghost predicate Counted(r: Rules, b: Block) {
    && b.size == BLOCK_HEADER_OVERHEAD + SizeSum(b.txs) < TWO32
    && (b.txs != [] ==> b.size < r.maxSize)
    && b.sigOps == CountSum(b.txs, b.counts) && 0 <= b.sigOps <= MAX_SIG_OPS_PER_BLOCK
    && (forall h :: h in b.counts ==> b.counts[h] >= 0)
    && b.tickets == NumOf(b.txs, Ticket) <= r.maxFreshStake
  }

  /** The chosen votes use different tickets, all of them winners. */
  ghost predicate Voted(r: Rules, b: Block) {
    && (forall j :: 0 <= j < |b.txs| ==> WellShaped(b.txs[j]))
    && (forall j :: 0 <= j < |b.txs| && b.txs[j].kind.Vote? ==> TicketOf(b.txs[j]) in b.used)
    && (forall j, k :: 0 <= j < k < |b.txs| && b.txs[j].kind.Vote? && b.txs[k].kind.Vote? ==>
          TicketOf(b.txs[j]) != TicketOf(b.txs[k]))
    && |b.used| == NumOf(b.txs, Vote)
    && (forall t :: t in b.used ==> t in r.winners)
  }

  ghost predicate Inv(r: Rules, confirmed: set<Hash>, s: Sel) {
    && DepGraph.Valid(s.graph)
    && s.items.Keys == s.graph.needs.Keys && s.graph.chosen == s.block.fees.Keys
    && Known(r, confirmed, s.items) && Drawn(s.items, s.block)
    && Counted(r, s.block) && Voted(r, s.block)
    && Sound(r.chain, confirmed, s.block.txs, s.block.view)
  }

  // ---- The pool loop ----

  /** While the pool is read nothing is chosen, and the view holds only entries of the chain. */
  ghost predicate Reading(r: Rules, s: Sel) {
    && s.block == EMPTY_BLOCK.(view := s.block.view)
    && (forall h :: h in s.block.view ==> h in r.chain && s.block.view[h] == r.chain[h])
  }

  lemma ReadingInv(r: Rules, confirmed: set<Hash>, s: Sel)
    requires OfConfirmed(r.chain, confirmed) && Reading(r, s)
    requires DepGraph.Valid(s.graph) && s.items.Keys == s.graph.needs.Keys && s.graph.chosen == {}
    requires Known(r, confirmed, s.items)
    ensures Inv(r, confirmed, s)
  {
    hide DepGraph.Valid, Known;
    assert Tracks(r.chain, [], s.block.view);
  }

  lemma StartInv(r: Rules, confirmed: set<Hash>)
    requires OfConfirmed(r.chain, confirmed)
    ensures Inv(r, confirmed, Start(r)) && Reading(r, Start(r))
  {
    hide Inv;
    ReadingInv(r, confirmed, Start(r));
  }

  lemma PoolStepInv(r: Rules, confirmed: set<Hash>, have: set<Hash>, s: Sel, d: TxDesc)
    requires Inv(r, confirmed, s) && Reading(r, s)
    requires PoolTx(r, confirmed, d.tx) && d.tx.hash !in s.items
    ensures Inv(r, confirmed, PoolStep(r, have, s, d)) && Reading(r, PoolStep(r, have, s, d))
    ensures PoolStep(r, have, s, d).items.Keys <= s.items.Keys + {d.tx.hash}
  {
    hide DepGraph.Valid, Drawn, Counted, Voted, Sound, PoolTx, ScanInputs, Merge, Fetch;
    var utxos := Fetch(r.chain, r.preloaded, d.tx);
    var parents := ScanInputs(utxos, have, d.tx, FirstSpend(d.tx)).0;
    var s' := PoolStep(r, have, s, d);
    MergeOfChain(s.block.view, utxos, r.chain);
    DepGraph.RegisterValid(s.graph, d.tx.hash, parents);
    assert OfConfirmed(r.chain, confirmed) by {
      ChainWithin(r, confirmed, d.tx);
    }
    ReadingInv(r, confirmed, s');
  }

  lemma ChainWithin(r: Rules, confirmed: set<Hash>, tx: Tx)
    requires PoolTx(r, confirmed, tx)
    ensures OfConfirmed(r.chain, confirmed)
  {
  }

  // ---- The selection loop ----

  lemma WrapNear(x: int)
    ensures -TWO63 <= x < TWO63 ==> Wrap64(x) == x
    ensures TWO63 <= x < TWO63 + TWO64 ==> Wrap64(x) == x - TWO64
    ensures -TWO63 <= Wrap64(x) < TWO63
  {
  }

  /** The wrapped comparison decides the unwrapped one. */
  lemma LimitExact(sofar: int, n: int)
    requires 0 <= sofar <= MAX_SIG_OPS_PER_BLOCK && -TWO63 <= n < TWO63
    ensures !SigOpsExceed(sofar, n) <==> 0 <= n && sofar + n <= MAX_SIG_OPS_PER_BLOCK
  {
    WrapNear(sofar + n);
    hide Wrap64;
  }

  /** A count that is let through is exact and never wraps. */
  lemma SigOpsFit(r: Rules, b: Block, tx: Tx)
    requires 0 <= b.sigOps <= MAX_SIG_OPS_PER_BLOCK && CountSigOps(r, b, tx).Some?
    ensures var m := CountSigOps(r, b, tx).value;
      0 <= m && b.sigOps + m <= MAX_SIG_OPS_PER_BLOCK && Wrap64(b.sigOps + m) == b.sigOps + m
    ensures CountSigOps(r, b, tx).value == tx.sigOps + r.p2shSigOps(tx, b.view).value
  {
    hide Wrap64, SigOpsExceed;
    var n, p := Wrap64(tx.sigOps), r.p2shSigOps(tx, b.view).value;
    WrapNear(tx.sigOps);
    WrapNear(p);
    WrapNear(n + Wrap64(p));
    LimitExact(b.sigOps, n);
    LimitExact(b.sigOps, Wrap64(n + Wrap64(p)));
    WrapNear(b.sigOps + Wrap64(n + Wrap64(p)));
  }

  lemma SumsExtend(txs: seq<Tx>, tx: Tx, counts: map<Hash, int>, n: int)
    requires !HasHash(txs, tx.hash)
    ensures CountSum(txs + [tx], counts[tx.hash := n]) == CountSum(txs, counts) + n
    ensures SizeSum(txs + [tx]) == SizeSum(txs) + tx.size % TWO32
  {
    var all := txs + [tx];
    assert all[..|all| - 1] == txs && all[|all| - 1] == tx;
    CountSumIgnores(txs, tx.hash, counts, n);
  }

  lemma {:induction false} CountSumIgnores(txs: seq<Tx>, h: Hash, counts: map<Hash, int>, n: int)
    requires !HasHash(txs, h)
    ensures CountSum(txs, counts[h := n]) == CountSum(txs, counts)
  {
    if txs != [] {
      var front := txs[..|txs| - 1];
      assert forall j :: 0 <= j < |front| ==> front[j] == txs[j];
      CountSumIgnores(front, h, counts, n);
    }
  }

  lemma NumExtends(txs: seq<Tx>, tx: Tx, kind: TxKind)
    ensures NumOf(txs + [tx], kind) == NumOf(txs, kind) + if tx.kind == kind then 1 else 0
  {
    assert (txs + [tx])[..|txs|] == txs;
  }

  lemma HasHashExtends(txs: seq<Tx>, tx: Tx, h: Hash)
    ensures HasHash(txs + [tx], h) <==> HasHash(txs, h) || h == tx.hash
  {
    var all := txs + [tx];
    assert all[|txs|] == tx;
    assert forall j :: 0 <= j < |txs| ==> all[j] == txs[j];
  }

  lemma IncludeDrawn(r: Rules, items: map<Hash, PrioItem>, b: Block, h: Hash, count: int)
    requires Drawn(items, b) && h in items && items[h].tx.hash == h && h !in b.fees && WellShaped(items[h].tx)
    ensures Drawn(items, Include(r, b, items[h], count))
    ensures !HasHash(b.txs, h)
  {
    var b' := Include(r, b, items[h], count);
    forall g | g in b'.fees && g in items ensures HasHash(b'.txs, g) && b'.fees[g] == items[g].fee {
      HasHashExtends(b.txs, items[h].tx, g);
    }
    forall j | 0 <= j < |b'.txs| && b'.txs[j].hash in items ensures items[b'.txs[j].hash].tx == b'.txs[j] {
      assert j < |b.txs| ==> b'.txs[j] == b.txs[j];
    }
  }

  lemma IncludeCounted(r: Rules, byFee: bool, b: Block, item: PrioItem)
    requires Counted(r, b) && WellShaped(item.tx) && Admit(r, byFee, b, item).Some? && !HasHash(b.txs, item.tx.hash)
    ensures Counted(r, Include(r, b, item, Admit(r, byFee, b, item).value))
  {
    SigOpsFit(r, b, item.tx);
    SumsExtend(b.txs, item.tx, b.counts, Admit(r, byFee, b, item).value);
    NumExtends(b.txs, item.tx, Ticket);
  }

  lemma IncludeVoted(r: Rules, byFee: bool, b: Block, item: PrioItem)
    requires Voted(r, b) && WellShaped(item.tx) && Admit(r, byFee, b, item).Some?
    ensures Voted(r, Include(r, b, item, Admit(r, byFee, b, item).value))
  {
    NumExtends(b.txs, item.tx, Vote);
    var all := b.txs + [item.tx];
    assert forall j :: 0 <= j < |b.txs| ==> all[j] == b.txs[j];
    assert all[|b.txs|] == item.tx;
  }

  lemma ReadyFacts(r: Rules, confirmed: set<Hash>, s: Sel, h: Hash)
    requires Inv(r, confirmed, s) && h in s.graph.ready
    ensures h in s.items && s.items[h].tx.hash == h && PoolTx(r, confirmed, s.items[h].tx)
    ensures h !in s.block.fees && !HasHash(s.block.txs, h)
  {
    hide Counted, Voted, Sound, DepGraph.Exact, PoolTx;
  }

  lemma NeedsStay(g: DepGraph.Graph, h: Hash)
    ensures DepGraph.NeedsWithout(g, h).Keys == g.needs.Keys
  {
  }

  lemma TakeInv(r: Rules, confirmed: set<Hash>, s: Sel, h: Hash, count: int)
    requires Inv(r, confirmed, s) && h in s.graph.ready && h in s.items && WellShaped(s.items[h].tx)
    requires Judge(r, s, s.items[h]) == Take(count)
    ensures var s' := Step(r, s, s.items[h]);
      && DepGraph.Valid(s'.graph) && Drawn(s'.items, s'.block) && Counted(r, s'.block) && Voted(r, s'.block)
      && Sound(r.chain, confirmed, s'.block.txs, s'.block.view)
      && s'.graph.needs.Keys == s.graph.needs.Keys && s'.graph.chosen == s'.block.fees.Keys
  {
    hide DepGraph.Valid, Known, Drawn, Counted, Voted, Sound, ChainConsistent, DistinctOutPoints, Admit,
         SpendTransaction, Plus, Wrap64, DepGraph.NeedsWithout, DepGraph.Released;
    NeedsStay(s.graph, h);
    ReadyFacts(r, confirmed, s, h);
    var item := s.items[h];
    DepGraph.ChooseValid(s.graph, h);
    IncludeDrawn(r, s.items, s.block, h, count);
    IncludeCounted(r, s.byFee, s.block, item);
    IncludeVoted(r, s.byFee, s.block, item);
    SoundStep(r.chain, confirmed, s.block.txs, s.block.view, item.tx, r.height);
  }

  /** A round keeps the whole invariant. */
  lemma StepInv(r: Rules, confirmed: set<Hash>, s: Sel, h: Hash)
    requires Inv(r, confirmed, s) && h in s.graph.ready
    ensures Inv(r, confirmed, Step(r, s, s.items[h]))
  {
    ReadyFacts(r, confirmed, s, h);
    hide DepGraph.Valid, Known, Drawn, Counted, Voted, Sound, Judge, Switches, Include, PoolTx;
    match Judge(r, s, s.items[h]) {
      case Reject => DepGraph.RejectValid(s.graph, h);
      case Requeue =>
      case Take(count) => TakeInv(r, confirmed, s, h, count);
    }
  }

  /** A round puts its item back only as the order switches, which it does for good; else it uses the item up. */
  lemma StepProgress(r: Rules, confirmed: set<Hash>, s: Sel, h: Hash)
    requires Inv(r, confirmed, s) && h in s.graph.ready
    ensures var s' := Step(r, s, s.items[h]);
      || (!s.byFee && s'.byFee)
      || (s.byFee == s'.byFee && DepGraph.Pending(s'.graph) == DepGraph.Pending(s.graph) - 1)
  {
    hide DepGraph.Valid, DepGraph.Choose, DepGraph.Reject, Known, Drawn, Counted, Voted, Sound, Admit;
    ReadyFacts(r, confirmed, s, h);
    DepGraph.ChooseOneLess(s.graph, h);
    DepGraph.RejectOneLess(s.graph, h);
  }

  // ---- What follows from the invariant ----

  lemma {:induction false} SubsetOfList(s: set<Hash>, list: seq<Hash>)
    requires forall t :: t in s ==> t in list
    ensures |s| <= |list|
  {
    if list == [] {
      assert s == {};
    } else {
      SubsetOfList(s - {list[0]}, list[1..]);
    }
  }

  /** There are no more chosen votes than winning tickets. */
  lemma VotesWithinWinners(r: Rules, b: Block)
    requires Voted(r, b)
    ensures NumOf(b.txs, Vote) <= |r.winners|
  {
    SubsetOfList(b.used, r.winners);
  }

  function PlainSizeSum(txs: seq<Tx>): nat {
    if txs == [] then 0 else PlainSizeSum(txs[..|txs| - 1]) + txs[|txs| - 1].size
  }

  /** For transactions whose size fits 32 bits the block size is the plain sum. */
  lemma {:induction false} SizesExact(txs: seq<Tx>)
    requires forall j :: 0 <= j < |txs| ==> txs[j].size < TWO32
    ensures SizeSum(txs) == PlainSizeSum(txs)
  {
    if txs != [] {
      SizesExact(txs[..|txs| - 1]);
    }
  }
}
