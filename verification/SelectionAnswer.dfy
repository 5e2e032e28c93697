/** What reading the pool and each round of the selection loop do, told by the fields of the state, the transaction and
    the policy alone. */
module SelectionAnswer {
  import opened Chain
  import opened Ledger
  import opened TxQueue
  import opened Selection
  import opened SelectionProof
  import DepGraph

  // ---- Which item is popped ----

  ghost predicate Foremost(s: Sel, h: Hash) {
    && h in s.graph.ready && h in s.items
    && forall g :: g in s.graph.ready && g in s.items ==> NotBehind(s.byFee, s.items[h], s.items[g])
  }

  lemma FirstIsForemost(s: Sel, h: Hash)
    ensures IsFirst(s, h) <==> Foremost(s, h)
  {
    OrdersAreStrictWeak();
    hide NotBehind, ByStakeAndFee, ByStakeAndFeeAndThenPriority;
  }

  // ---- What happens to it ----

  function SizeWith(b: Block, tx: Tx): nat {
    b.size + tx.size % TWO32
  }

  /** Nothing speaks against the item but its inputs. */
  ghost predicate Allowed(r: Rules, s: Sel, item: PrioItem)
    requires WellShaped(item.tx)
  {
    var b, tx := s.block, item.tx;
    && (tx.kind.Ticket? ==> b.tickets < r.maxFreshStake && tx.outs[0].value >= r.stakeDiff)
    && (tx.kind.Revocation? ==> tx.ins[0].prev.hash in r.missed)
    && (tx.kind.Vote? ==> tx.ins[1].prev.hash in r.winners && tx.ins[1].prev.hash !in b.used)
    && SizeWith(b, tx) < r.maxSize && SizeWith(b, tx) < TWO32
    && r.p2shSigOps(tx, b.view).Some?
    && b.sigOps + tx.sigOps + r.p2shSigOps(tx, b.view).value <= MAX_SIG_OPS_PER_BLOCK
    && (s.byFee && !tx.tree.TreeStake? && SizeWith(b, tx) >= r.minSize ==> item.feePerKB >= r.minFreeFee as real)
  }

  /** The order switches once the high-priority part of the block is full or nothing of high priority is left. */
  ghost predicate EndsPriority(r: Rules, s: Sel, item: PrioItem)
    requires WellShaped(item.tx)
  {
    && Allowed(r, s, item) && !s.byFee
    && (SizeWith(s.block, item.tx) >= r.prioritySize || item.priority <= MIN_HIGH_PRIORITY)
  }

  /** The item is put back unless it is the last one of that part. */
  ghost predicate GoesBack(r: Rules, s: Sel, item: PrioItem)
    requires WellShaped(item.tx)
  {
    && Allowed(r, s, item) && !s.byFee
    && (SizeWith(s.block, item.tx) > r.prioritySize || item.priority < MIN_HIGH_PRIORITY)
  }

  ghost predicate Joins(r: Rules, s: Sel, item: PrioItem)
    requires WellShaped(item.tx)
  {
    && Allowed(r, s, item) && !GoesBack(r, s, item)
    && (forall i :: FirstSpend(item.tx) <= i < |item.tx.ins| ==>
          var prev := item.tx.ins[i].prev;
          Unspent(s.block.view, CoinOf(prev)) && prev.tree == TreeOf(s.block.view[prev.hash].kind))
    && r.accepts(item.tx, s.block.view)
  }

  /** The block with the item in it. */
  ghost predicate Grown(r: Rules, b: Block, item: PrioItem, b': Block)
    requires WellShaped(item.tx)
  {
    var tx, p2sh := item.tx, r.p2shSigOps(item.tx, b.view);
    && p2sh.Some? && b'.counts == b.counts[tx.hash := tx.sigOps + p2sh.value]
    && b'.txs == b.txs + [tx] && b'.size == SizeWith(b, tx) && b'.sigOps == b.sigOps + tx.sigOps + p2sh.value
    && b'.tickets == (if tx.kind.Ticket? then b.tickets + 1 else b.tickets)
    && b'.used == (if tx.kind.Vote? then b.used + {tx.ins[1].prev.hash} else b.used)
    && b'.fees == b.fees[tx.hash := item.fee]
    && (forall c :: Unspent(b'.view, c) <==> Leaves(b.view, tx, c)) && b'.view.Keys == b.view.Keys + {tx.hash}
    && forall h :: h in b'.view ==> b'.view[h].kind == if h in b.view then b.view[h].kind else tx.kind
  }

  /** An output that the transaction creates, or that was unspent and that it does not spend. */
  ghost predicate Leaves(v: View, tx: Tx, c: Coin) {
    Creates(tx, c) || (Unspent(v, c) && forall i :: 0 <= i < |tx.ins| ==> CoinOf(tx.ins[i].prev) != c)
  }

  /** What waited for nothing else is queued. */
  ghost predicate Freed(g: DepGraph.Graph, h: Hash, g': DepGraph.Graph) {
    && g'.chosen == g.chosen + {h} && g'.rejected == g.rejected && g'.needs.Keys == g.needs.Keys
    && (forall c :: c in g.needs ==> g'.needs[c] == g.needs[c] - {h})
    && g'.ready == g.ready - {h} + set c | c in g.needs && g.needs[c] == {h}
  }

  /** The whole answer of a round to the item of `h`. */
  ghost predicate Answered(r: Rules, s: Sel, h: Hash, s': Sel)
    requires h in s.items && WellShaped(s.items[h].tx)
  {
    var item := s.items[h];
    && s'.items == s.items && (s'.byFee <==> s.byFee || EndsPriority(r, s, item))
    && if GoesBack(r, s, item) then s'.block == s.block && s'.graph == s.graph
       else if Joins(r, s, item) then Grown(r, s.block, item, s'.block) && Freed(s.graph, h, s'.graph)
       else s'.block == s.block
            && s'.graph == s.graph.(ready := s.graph.ready - {h}, rejected := s.graph.rejected + {h})
  }

  lemma CountableIff(r: Rules, b: Block, tx: Tx)
    requires 0 <= b.sigOps <= MAX_SIG_OPS_PER_BLOCK
    ensures CountSigOps(r, b, tx).Some? <==>
      && r.p2shSigOps(tx, b.view).Some?
      && b.sigOps + tx.sigOps + r.p2shSigOps(tx, b.view).value <= MAX_SIG_OPS_PER_BLOCK
  {
    hide Wrap64, SigOpsExceed;
    WrapNear(tx.sigOps);
    LimitExact(b.sigOps, tx.sigOps);
    if r.p2shSigOps(tx, b.view).Some? {
      var p := r.p2shSigOps(tx, b.view).value;
      WrapNear(p);
      WrapNear(tx.sigOps + p);
      LimitExact(b.sigOps, Wrap64(tx.sigOps + p));
    }
  }

  lemma FitsIff(b: Block, tx: Tx, max: nat)
    requires b.size < TWO32
    ensures (Plus(b, tx) >= b.size && Plus(b, tx) < max) <==> SizeWith(b, tx) < max && SizeWith(b, tx) < TWO32
    ensures SizeWith(b, tx) < TWO32 ==> Plus(b, tx) == SizeWith(b, tx)
  {
  }

  lemma AdmitIff(r: Rules, s: Sel, item: PrioItem)
    requires Counted(r, s.block) && WellShaped(item.tx)
    ensures Admit(r, s.byFee, s.block, item).Some? <==> Allowed(r, s, item)
    ensures Admit(r, s.byFee, s.block, item).Some? ==> Plus(s.block, item.tx) == SizeWith(s.block, item.tx)
  {
    CountableIff(r, s.block, item.tx);
    FitsIff(s.block, item.tx, r.maxSize);
    hide CountSigOps, Plus, SizeWith;
  }

  lemma JudgeIff(r: Rules, s: Sel, item: PrioItem)
    requires Counted(r, s.block) && WellShaped(item.tx)
    ensures Switches(r, s, item) <==> EndsPriority(r, s, item)
    ensures Judge(r, s, item).Requeue? <==> GoesBack(r, s, item)
    ensures Judge(r, s, item).Take? <==> Joins(r, s, item)
  {
    AdmitIff(r, s, item);
    hide Admit, Allowed, Counted, Plus, SizeWith;
  }

  lemma IncludeGrows(r: Rules, s: Sel, item: PrioItem, count: int)
    requires Counted(r, s.block) && WellShaped(item.tx) && Judge(r, s, item) == Take(count)
    ensures Grown(r, s.block, item, Include(r, s.block, item, count))
  {
    AdmitIff(r, s, item);
    SigOpsFit(r, s.block, item.tx);
    var b' := Include(r, s.block, item, count);
    forall c ensures Unspent(b'.view, c) <==> Leaves(s.block.view, item.tx, c) {
      SpendTransactionExact(s.block.view, item.tx, r.height, c);
    }
    SpendTransactionExact(s.block.view, item.tx, r.height, Coin(0, 0));
    forall h | h in b'.view
      ensures b'.view[h].kind == if h in s.block.view then s.block.view[h].kind else item.tx.kind
    {
      if h in s.block.view {
        SpendKeepsKind(s.block.view, item.tx, r.height, h);
      } else {
        SpendInputsLeaves(s.block.view, item.tx.ins, Coin(0, 0));
      }
    }
    hide SpendTransaction, CountSigOps, Plus, SizeWith, Wrap64, Counted;
  }

  lemma ChooseFrees(g: DepGraph.Graph, h: Hash)
    requires DepGraph.Valid(g) && h in g.ready
    ensures Freed(g, h, DepGraph.Choose(g, h))
  {
    DepGraph.DependersWait(g, h);
    var g' := DepGraph.Choose(g, h);
    forall c | c in g.needs
      ensures g'.needs[c] == g.needs[c] - {h} && (c in DepGraph.Released(g, h) <==> g.needs[c] == {h})
    {
      if h in g.needs[c] {
        assert c in DepGraph.Dependers(g, h);
      }
    }
  }

  lemma JudgedAnswers(r: Rules, s: Sel, h: Hash)
    requires Counted(r, s.block) && DepGraph.Valid(s.graph)
    requires h in s.graph.ready && h in s.items && s.items[h].tx.hash == h && WellShaped(s.items[h].tx)
    ensures Answered(r, s, h, Step(r, s, s.items[h]))
  {
    hide Counted, DepGraph.Valid, WellShaped, Judge, Switches, Include, Grown, Freed, Joins, GoesBack, EndsPriority,
         DepGraph.Choose;
    var item := s.items[h];
    JudgeIff(r, s, item);
    ChooseFrees(s.graph, h);
    match Judge(r, s, item) {
      case Reject =>
      case Requeue =>
      case Take(count) => IncludeGrows(r, s, item, count);
    }
  }

  /** One round. */
  lemma StepAnswers(r: Rules, confirmed: set<Hash>, s: Sel, h: Hash)
    requires Inv(r, confirmed, s) && h in s.graph.ready
    ensures h in s.items && WellShaped(s.items[h].tx) && Answered(r, s, h, Step(r, s, s.items[h]))
  {
    ReadyFacts(r, confirmed, s, h);
    assert WellShaped(s.items[h].tx);
    hide Answered, Step, Counted, DepGraph.Valid, Known, Drawn, Voted, Sound, WellShaped;
    JudgedAnswers(r, s, h);
  }

  // ---- A run of rounds ----

  /** Round `i` popped a foremost item and answered it. */
  ghost predicate RoundRight(r: Rules, t: Trace, i: int) {
    && 0 <= i < |t.popped| && i + 1 < |t.states| && Foremost(t.states[i], t.popped[i])
    && WellShaped(t.states[i].items[t.popped[i]].tx) && Answered(r, t.states[i], t.popped[i], t.states[i + 1])
  }

  ghost predicate Explained(r: Rules, t: Trace) {
    |t.states| == |t.popped| + 1 && forall i :: 0 <= i < |t.popped| ==> RoundRight(r, t, i)
  }

  lemma RoundStays(r: Rules, t: Trace, i: int, t': Trace)
    requires RoundRight(r, t, i) && t.states <= t'.states && t.popped <= t'.popped
    ensures RoundRight(r, t', i)
  {
    hide Foremost, Answered, WellShaped;
  }

  lemma NewRound(r: Rules, t: Trace, s: Sel, h: Hash, s': Sel)
    requires |t.states| == |t.popped| + 1 && t.states[|t.popped|] == s && Foremost(s, h)
    requires WellShaped(s.items[h].tx) && Answered(r, s, h, s')
    ensures RoundRight(r, Trace(t.states + [s'], t.popped + [h]), |t.popped|)
  {
    hide WellShaped, Answered, NotBehind;
  }

  lemma AllRounds(r: Rules, t: Trace, t': Trace)
    requires Explained(r, t) && t.states <= t'.states && t.popped <= t'.popped
    requires |t'.popped| == |t.popped| + 1 && |t'.states| == |t.states| + 1 && RoundRight(r, t', |t.popped|)
    ensures Explained(r, t')
  {
    hide RoundRight;
    forall i | 0 <= i < |t.popped| ensures RoundRight(r, t', i) {
      RoundStays(r, t, i, t');
    }
  }

  lemma ExplainedExtends(r: Rules, confirmed: set<Hash>, t: Trace, s: Sel, h: Hash)
    requires Explained(r, t) && t.states[|t.popped|] == s && Inv(r, confirmed, s) && IsFirst(s, h)
    ensures h in s.items && WellShaped(s.items[h].tx)
    ensures Explained(r, Trace(t.states + [Step(r, s, s.items[h])], t.popped + [h]))
  {
    hide Inv, IsFirst, NotBehind, Answered, WellShaped, Step, RoundRight;
    FirstIsForemost(s, h);
    StepAnswers(r, confirmed, s, h);
    var s' := Step(r, s, s.items[h]);
    NewRound(r, t, s, h, s');
    AllRounds(r, t, Trace(t.states + [s'], t.popped + [h]));
  }

  // ---- Reading the pool ----

  /** Input `i` is neither unspent on the chain nor of a transaction of the pool. */
  ghost predicate LostAt(r: Rules, have: set<Hash>, tx: Tx, i: int) {
    FirstSpend(tx) <= i < |tx.ins| && !Unspent(r.chain, CoinOf(tx.ins[i].prev)) && tx.ins[i].prev.hash !in have
  }

  /** Input `i` is of a transaction of the pool, and no input from `from` on is lost before it. */
  ghost predicate WaitsAt(r: Rules, have: set<Hash>, tx: Tx, from: int, i: int) {
    && FirstSpend(tx) <= from <= i < |tx.ins| && !Unspent(r.chain, CoinOf(tx.ins[i].prev))
    && tx.ins[i].prev.hash in have && forall j :: from <= j < i ==> !LostAt(r, have, tx, j)
  }

  ghost function Parents(r: Rules, have: set<Hash>, tx: Tx, from: int): set<Hash> {
    set i | 0 <= i < |tx.ins| && WaitsAt(r, have, tx, from, i) :: tx.ins[i].prev.hash
  }

  ghost predicate NoneLost(r: Rules, have: set<Hash>, tx: Tx, from: int) {
    forall i :: from <= i < |tx.ins| ==> !LostAt(r, have, tx, i)
  }

  /** The entry is an item afterwards exactly if it may go into a block, votes for the parent if it votes, and has no
      lost input or one of the pool before it. It then waits for just those, with its fee and priority and its inputs on
      the chain in the view, or with neither if an input is lost. */
  ghost predicate ReadRight(r: Rules, have: set<Hash>, s: Sel, d: TxDesc) {
    var tx, h, first := d.tx, d.tx.hash, FirstSpend(d.tx);
    && (h in s.items <==>
          && !d.coinbase && d.finalized && d.fetched
          && (tx.kind.Vote? ==> tx.votedBlock == r.parent && tx.votedHeight == r.height - 1)
          && (NoneLost(r, have, tx, first) || Parents(r, have, tx, first) != {}))
    && (h in s.items ==>
          && h in s.graph.needs && s.graph.needs[h] == Parents(r, have, tx, first)
          && (h in s.graph.ready <==> Parents(r, have, tx, first) == {}) && s.items[h].tx == tx
          && if NoneLost(r, have, tx, first) then
               && (forall i :: first <= i < |tx.ins| && tx.ins[i].prev.hash in r.chain ==>
                     tx.ins[i].prev.hash in s.block.view)
               && s.items[h].fee == d.fee && s.items[h].priority == d.priority
               && (tx.size > 0 ==> s.items[h].feePerKB == d.fee as real * 1000.0 / tx.size as real)
             else s.items[h] == PrioItem(tx, 0, 0.0, 0.0))
  }

  /** An empty block, and a view of entries of the chain. */
  ghost predicate Unfilled(r: Rules, s: Sel) {
    && s.block == Block([], s.block.view, BLOCK_HEADER_OVERHEAD, 0, 0, {}, map[], map[])
    && (s.byFee <==> r.prioritySize == 0) && s.graph.chosen == {} && s.graph.rejected == {}
    && (forall h :: h in s.block.view ==> h in r.chain && s.block.view[h] == r.chain[h])
  }

  lemma StaysUnfilled(r: Rules, have: set<Hash>, s: Sel, d: TxDesc)
    requires Unfilled(r, s)
    ensures Unfilled(r, PoolStep(r, have, s, d))
    ensures s.block.view.Keys <= PoolStep(r, have, s, d).block.view.Keys
  {
    var utxos := Fetch(r.chain, r.preloaded, d.tx);
    hide ScanInputs, Fetch, Merge, DepGraph.DependersWith, ItemOf;
    MergeOfChain(s.block.view, utxos, r.chain);
  }

  lemma {:induction false} ReadsUnfilled(r: Rules, have: set<Hash>, pool: seq<TxDesc>)
    ensures Unfilled(r, ReadAll(r, have, pool))
  {
    hide PoolStep;
    if pool != [] {
      hide Unfilled;
      ReadsUnfilled(r, have, pool[..|pool| - 1]);
      StaysUnfilled(r, have, ReadAll(r, have, pool[..|pool| - 1]), pool[|pool| - 1]);
    }
  }

  lemma FetchedAgrees(r: Rules, tx: Tx, i: nat)
    requires FirstSpend(tx) <= i < |tx.ins|
    ensures var c := CoinOf(tx.ins[i].prev); Unspent(Fetch(r.chain, r.preloaded, tx), c) <==> Unspent(r.chain, c)
  {
  }

  lemma ParentsNext(r: Rules, have: set<Hash>, tx: Tx, i: nat)
    requires FirstSpend(tx) <= i < |tx.ins|
    ensures var rest, c := Parents(r, have, tx, i + 1), CoinOf(tx.ins[i].prev);
      Parents(r, have, tx, i) ==
        if Unspent(r.chain, c) then rest
        else if tx.ins[i].prev.hash !in have then {}
        else {tx.ins[i].prev.hash} + rest
  {
    if !LostAt(r, have, tx, i) {
      assert forall k :: k > i ==> (WaitsAt(r, have, tx, i, k) <==> WaitsAt(r, have, tx, i + 1, k));
    }
    hide Unspent;
    if !Unspent(r.chain, CoinOf(tx.ins[i].prev)) && tx.ins[i].prev.hash in have {
      assert WaitsAt(r, have, tx, i, i);
    }
  }

  lemma {:induction false} ScanFinds(r: Rules, have: set<Hash>, tx: Tx, i: nat)
    requires i >= FirstSpend(tx)
    ensures ScanInputs(Fetch(r.chain, r.preloaded, tx), have, tx, i) ==
      (Parents(r, have, tx, i), NoneLost(r, have, tx, i))
    decreases |tx.ins| - i
  {
    if i < |tx.ins| {
      FetchedAgrees(r, tx, i);
      ParentsNext(r, have, tx, i);
      ScanFinds(r, have, tx, i + 1);
      hide Fetch, Unspent, Parents;
      assert NoneLost(r, have, tx, i) <==> !LostAt(r, have, tx, i) && NoneLost(r, have, tx, i + 1);
    } else {
      assert Parents(r, have, tx, i) == {};
    }
  }

  lemma EntryRead(r: Rules, have: set<Hash>, s: Sel, d: TxDesc)
    requires d.tx.hash !in s.items && d.tx.hash !in s.graph.ready && Unfilled(r, s)
    ensures ReadRight(r, have, PoolStep(r, have, s, d), d)
  {
    MergeOfChain(s.block.view, Fetch(r.chain, r.preloaded, d.tx), r.chain);
    ScanFinds(r, have, d.tx, FirstSpend(d.tx));
    hide ScanInputs, Fetch, Parents, NoneLost, Merge, DepGraph.DependersWith;
  }

  /** Reading one entry leaves the others as they were. */
  lemma OthersStay(r: Rules, have: set<Hash>, s: Sel, d: TxDesc, e: TxDesc)
    requires ReadRight(r, have, s, e) && e.tx.hash != d.tx.hash && Unfilled(r, s)
    ensures ReadRight(r, have, PoolStep(r, have, s, d), e)
  {
    StaysUnfilled(r, have, s, d);
    hide ScanInputs, Fetch, Parents, NoneLost, Merge, DepGraph.DependersWith, ItemOf;
  }

  lemma NothingElseRead(r: Rules, have: set<Hash>, s: Sel, d: TxDesc, h: Hash)
    requires h != d.tx.hash && h !in s.items && h !in s.graph.ready
    ensures h !in PoolStep(r, have, s, d).items && h !in PoolStep(r, have, s, d).graph.ready
  {
    hide ScanInputs, Fetch, Merge, DepGraph.DependersWith, ItemOf;
  }

  lemma {:induction false} OnlyPoolRead(r: Rules, have: set<Hash>, pool: seq<TxDesc>, h: Hash)
    requires forall i :: 0 <= i < |pool| ==> pool[i].tx.hash != h
    ensures h !in ReadAll(r, have, pool).items && h !in ReadAll(r, have, pool).graph.ready
  {
    hide PoolStep;
    if pool != [] {
      OnlyPoolRead(r, have, pool[..|pool| - 1], h);
      NothingElseRead(r, have, ReadAll(r, have, pool[..|pool| - 1]), pool[|pool| - 1], h);
    }
  }

  /** The whole pool is read right, in whatever order it comes. */
  lemma {:induction false} PoolRead(r: Rules, have: set<Hash>, pool: seq<TxDesc>, i: nat)
    requires i < |pool| && forall j, k :: 0 <= j < k < |pool| ==> pool[j].tx.hash != pool[k].tx.hash
    ensures ReadRight(r, have, ReadAll(r, have, pool), pool[i])
  {
    hide PoolStep, ReadRight;
    var n := |pool| - 1;
    var front := pool[..n];
    ReadsUnfilled(r, have, front);
    hide Unfilled;
    if i < n {
      PoolRead(r, have, front, i);
      OthersStay(r, have, ReadAll(r, have, front), pool[n], pool[i]);
    } else {
      OnlyPoolRead(r, have, front, pool[n].tx.hash);
      EntryRead(r, have, ReadAll(r, have, front), pool[n]);
    }
  }
}
