/** The pool loop and the selection loop of block template creation, run over a real priority queue and a real view. */
module TemplateSelector {
  import opened Chain
  import opened Ledger
  import opened TxQueue
  import opened Selection
  import opened SelectionProof
  import opened SelectionAnswer
  import DepGraph

  /** The queued items, as the queue sees them. */
  ghost function Bag(items: map<Hash, PrioItem>, hashes: set<Hash>): multiset<PrioItem> {
    multiset(set h | h in hashes && h in items :: items[h])
  }

  lemma BagWith(items: map<Hash, PrioItem>, hashes: set<Hash>, h: Hash)
    requires forall g :: g in items ==> items[g].tx.hash == g
    requires h in items && h !in hashes
    ensures Bag(items, hashes + {h}) == Bag(items, hashes) + multiset{items[h]}
  {
    var before := set g | g in hashes && g in items :: items[g];
    var after := set g | g in hashes + {h} && g in items :: items[g];
    assert items[h] !in before;
    assert after == before + {items[h]};
  }

  lemma BagIsEmpty(items: map<Hash, PrioItem>, hashes: set<Hash>)
    requires hashes <= items.Keys
    ensures Bag(items, hashes) == multiset{} <==> hashes == {}
  {
    if hashes != {} {
      var h :| h in hashes;
      assert items[h] in Bag(items, hashes);
    }
  }

  lemma BagFrame(items: map<Hash, PrioItem>, items': map<Hash, PrioItem>, hashes: set<Hash>)
    requires hashes <= items.Keys && hashes <= items'.Keys
    requires forall g :: g in hashes ==> items'[g] == items[g]
    ensures Bag(items', hashes) == Bag(items, hashes)
  {
    assert (set g | g in hashes && g in items' :: items'[g]) == (set g | g in hashes && g in items :: items[g]);
  }

  /** The queue holds exactly the ready items, ordered for the current phase. */
  ghost predicate Queued(q: TxPriorityQueue, items: map<Hash, PrioItem>, ready: set<Hash>, byFee: bool)
    reads q
  {
    q.Valid() && q.lessFunc == OrderFor(byFee) && multiset(q.items) == Bag(items, ready)
  }

  /** What the queue gives is a ready item, and the rest stays queued. */
  lemma PoppedIsReady(items: map<Hash, PrioItem>, ready: set<Hash>, rest: multiset<PrioItem>, item: PrioItem)
    requires forall g :: g in items ==> items[g].tx.hash == g
    requires ready <= items.Keys && Bag(items, ready) == rest + multiset{item}
    ensures item.tx.hash in ready && items[item.tx.hash] == item
    ensures rest == Bag(items, ready - {item.tx.hash})
  {
    var held := set g | g in ready && g in items :: items[g];
    assert item in Bag(items, ready);
    assert item in held;
    BagWith(items, ready - {item.tx.hash}, item.tx.hash);
    assert ready - {item.tx.hash} + {item.tx.hash} == ready;
    var others := Bag(items, ready - {item.tx.hash});
    assert rest + multiset{item} == others + multiset{item};
    assert forall x :: rest[x] == (rest + multiset{item})[x] - multiset{item}[x];
    assert forall x :: others[x] == (others + multiset{item})[x] - multiset{item}[x];
  }

  /** What is queued once the dependents outside `todo` have been visited. */
  ghost function QueuedBut(g: DepGraph.Graph, h: Hash, todo: set<Hash>): set<Hash> {
    g.ready - {h} + (DepGraph.Released(g, h) - todo)
  }

  lemma VisitOne(items: map<Hash, PrioItem>, g: DepGraph.Graph, h: Hash, todo: set<Hash>, c: Hash)
    requires DepGraph.Valid(g) && h in g.ready && items.Keys == g.needs.Keys
    requires forall d :: d in items ==> items[d].tx.hash == d
    requires c in todo && todo <= DepGraph.Dependers(g, h)
    ensures c in g.needs
    ensures Bag(items, QueuedBut(g, h, todo - {c})) ==
      Bag(items, QueuedBut(g, h, todo)) + if g.needs[c] - {h} == {} then multiset{items[c]} else multiset{}
  {
    DepGraph.DependersWait(g, h);
    hide DepGraph.Valid, Bag;
    if g.needs[c] - {h} == {} {
      assert QueuedBut(g, h, todo - {c}) == QueuedBut(g, h, todo) + {c};
      BagWith(items, QueuedBut(g, h, todo), c);
    } else {
      assert QueuedBut(g, h, todo - {c}) == QueuedBut(g, h, todo);
    }
  }

  lemma VisitNoneAndAll(g: DepGraph.Graph, h: Hash)
    ensures QueuedBut(g, h, DepGraph.Dependers(g, h)) == g.ready - {h}
    ensures QueuedBut(g, h, {}) == DepGraph.Choose(g, h).ready
  {
  }

  /** Releases the dependents of a chosen transaction, in whatever order the map gives them. */
  method Release(q: TxPriorityQueue, items: map<Hash, PrioItem>, g: DepGraph.Graph, h: Hash, byFee: bool)
    returns (needs: map<Hash, set<Hash>>)
    requires DepGraph.Valid(g) && h in g.ready && items.Keys == g.needs.Keys
    requires forall c :: c in items ==> items[c].tx.hash == c
    requires Queued(q, items, g.ready - {h}, byFee)
    modifies q`items
    ensures needs == DepGraph.NeedsWithout(g, h)
    ensures Queued(q, items, DepGraph.Choose(g, h).ready, byFee)
  {
    hide DepGraph.Valid, DepGraph.Choose, TxPriorityQueue.Valid, Bag, QueuedBut;
    VisitNoneAndAll(g, h);
    needs := g.needs;
    var todo := DepGraph.Dependers(g, h);
    while todo != {}
      invariant todo <= DepGraph.Dependers(g, h) && needs.Keys == g.needs.Keys
      invariant forall c :: c in g.needs ==>
        needs[c] == if c in DepGraph.Dependers(g, h) && c !in todo then g.needs[c] - {h} else g.needs[c]
      invariant Queued(q, items, QueuedBut(g, h, todo), byFee)
      decreases todo
    {
      var c :| c in todo;
      VisitOne(items, g, h, todo, c);
      needs := needs[c := needs[c] - {h}];
      todo := todo - {c};
      if needs[c] == {} {
        q.Push(items[c]);
      }
    }
  }

  /** Walks the inputs of a pool transaction, stopping at one that is nowhere to be found. */
  method FindParents(utxos: View, have: set<Hash>, tx: Tx) returns (parents: set<Hash>, complete: bool)
    ensures (parents, complete) == ScanInputs(utxos, have, tx, FirstSpend(tx))
  {
    parents, complete := {}, true;
    ghost var whole := ScanInputs(utxos, have, tx, FirstSpend(tx));
    var i := FirstSpend(tx);
    while i < |tx.ins|
      invariant whole.0 == parents + ScanInputs(utxos, have, tx, i).0
      invariant whole.1 == ScanInputs(utxos, have, tx, i).1 && complete
    {
      var prev := tx.ins[i].prev;
      if !Unspent(utxos, CoinOf(prev)) {
        if prev.hash !in have {
          return parents, false;
        }
        parents := parents + {prev.hash};
      }
      i := i + 1;
    }
  }

  ghost predicate Synced(r: Rules, confirmed: set<Hash>, s: Sel, q: TxPriorityQueue, utxos: UtxoViewpoint)
    reads q, utxos
  {
    Inv(r, confirmed, s) && Queued(q, s.items, s.graph.ready, s.byFee) && utxos.entries == s.block.view
  }

  lemma ItemsNamed(r: Rules, confirmed: set<Hash>, s: Sel)
    requires Inv(r, confirmed, s)
    ensures forall g :: g in s.items ==> s.items[g].tx.hash == g
    ensures s.graph.ready <= s.items.Keys == s.graph.needs.Keys && DepGraph.Valid(s.graph)
  {
    hide Counted, Voted, Sound, Drawn, DepGraph.Exact, PoolTx;
  }

  /** The item that an entry adds to the queue, if it can be mined at once. */
  ghost function QueuedBy(r: Rules, have: set<Hash>, d: TxDesc): multiset<PrioItem> {
    if Considered(r, d) && ScanInputs(Fetch(r.chain, r.preloaded, d.tx), have, d.tx, FirstSpend(d.tx)) == ({}, true)
    then multiset{ItemOf(d)} else multiset{}
  }

  lemma PoolStepQueues(r: Rules, confirmed: set<Hash>, have: set<Hash>, s: Sel, d: TxDesc)
    requires Inv(r, confirmed, s) && Reading(r, s) && PoolTx(r, confirmed, d.tx) && d.tx.hash !in s.items
    ensures var s' := PoolStep(r, have, s, d);
      s'.byFee == s.byFee && Bag(s'.items, s'.graph.ready) == Bag(s.items, s.graph.ready) + QueuedBy(r, have, d)
    ensures var items := PoolStep(r, have, s, d).items;
      forall g :: g in items ==> (g in s.items && items[g] == s.items[g]) || items[g].tx == d.tx
  {
    hide Inv, Reading, PoolTx, Bag, Merge, Fetch, DepGraph.Valid;
    var s' := PoolStep(r, have, s, d);
    ItemsNamed(r, confirmed, s);
    PoolStepInv(r, confirmed, have, s, d);
    ItemsNamed(r, confirmed, s');
    BagFrame(s.items, s'.items, s.graph.ready);
    if s'.graph.ready != s.graph.ready {
      BagWith(s'.items, s.graph.ready, d.tx.hash);
    }
  }

  /** One pool entry: it is queued, set to wait, or dropped. */
  method ReadOne(r: Rules, have: set<Hash>, d: TxDesc, ghost confirmed: set<Hash>, s: Sel, q: TxPriorityQueue,
                 utxos: UtxoViewpoint) returns (s': Sel)
    requires Synced(r, confirmed, s, q, utxos) && Reading(r, s)
    requires PoolTx(r, confirmed, d.tx) && d.tx.hash !in s.items
    modifies q`items, utxos
    ensures s' == PoolStep(r, have, s, d)
    ensures Synced(r, confirmed, s', q, utxos) && Reading(r, s')
    ensures s'.items.Keys <= s.items.Keys + {d.tx.hash}
    ensures forall g :: g in s'.items ==> (g in s.items && s'.items[g] == s.items[g]) || s'.items[g].tx == d.tx
  {
    hide Inv, Reading, PoolTx, TxPriorityQueue.Valid, Bag, OrderFor, Considered, ItemOf, DepGraph.Register, Merge,
         ScanInputs, Fetch;
    PoolStepInv(r, confirmed, have, s, d);
    PoolStepQueues(r, confirmed, have, s, d);
    s' := PoolStep(r, have, s, d);
    if Considered(r, d) {
      var view := Fetch(r.chain, r.preloaded, d.tx);
      var parents, complete := FindParents(view, have, d.tx);
      if complete {
        if parents == {} {
          q.Push(ItemOf(d));
        }
        utxos.MergeFrom(view);
      }
    }
  }

  ghost predicate IsPoolTx(pool: seq<TxDesc>, tx: Tx) {
    exists i :: 0 <= i < |pool| && pool[i].tx == tx
  }

  ghost predicate FromPool(pool: seq<TxDesc>, items: map<Hash, PrioItem>) {
    forall h :: h in items ==> IsPoolTx(pool, items[h].tx)
  }

  lemma FromPoolGrows(pool: seq<TxDesc>, before: map<Hash, PrioItem>, after: map<Hash, PrioItem>, i: nat)
    requires FromPool(pool, before) && i < |pool|
    requires forall g :: g in after ==> (g in before && after[g] == before[g]) || after[g].tx == pool[i].tx
    ensures FromPool(pool, after)
  {
  }

  /** One more entry of the pool. */
  method ReadNext(r: Rules, have: set<Hash>, pool: seq<TxDesc>, ghost confirmed: set<Hash>, s: Sel, i: nat,
                  q: TxPriorityQueue, utxos: UtxoViewpoint) returns (s': Sel)
    requires PoolOk(r, confirmed, pool) && i < |pool| && Upto(r, have, pool, s, i)
    requires Synced(r, confirmed, s, q, utxos)
    modifies q`items, utxos
    ensures Upto(r, have, pool, s', i + 1) && Synced(r, confirmed, s', q, utxos)
  {
    hide Synced, Reading, FromPool, ReadAll, PoolStep, PoolTx;
    s' := ReadOne(r, have, pool[i], confirmed, s, q, utxos);
    ReadAllNext(r, have, pool, i);
    FromPoolGrows(pool, s.items, s'.items, i);
  }

  /** The state after the first `i` entries of the pool. */
  ghost predicate Upto(r: Rules, have: set<Hash>, pool: seq<TxDesc>, s: Sel, i: nat) {
    && i <= |pool| && s == ReadAll(r, have, pool[..i]) && Reading(r, s) && FromPool(pool, s.items)
    && forall j :: i <= j < |pool| ==> pool[j].tx.hash !in s.items
  }

  method ReadPool(r: Rules, have: set<Hash>, pool: seq<TxDesc>, ghost confirmed: set<Hash>, q: TxPriorityQueue,
                  utxos: UtxoViewpoint) returns (s: Sel)
    requires PoolOk(r, confirmed, pool)
    requires Queued(q, map[], {}, r.prioritySize == 0) && utxos.entries == map[]
    modifies q`items, utxos
    ensures s == ReadAll(r, have, pool)
    ensures Synced(r, confirmed, s, q, utxos) && FromPool(pool, s.items)
  {
    s := Start(r);
    StartInv(r, confirmed);
    ReadNone(r, have, pool);
    hide *;
    SyncedAtStart(r, confirmed, q, utxos);
    for i := 0 to |pool|
      invariant Synced(r, confirmed, s, q, utxos) && Upto(r, have, pool, s, i)
    {
      s := ReadNext(r, have, pool, confirmed, s, i, q, utxos);
    }
    ReadWhole(r, have, pool, s);
  }

  lemma ReadWhole(r: Rules, have: set<Hash>, pool: seq<TxDesc>, s: Sel)
    requires Upto(r, have, pool, s, |pool|)
    ensures s == ReadAll(r, have, pool) && FromPool(pool, s.items)
  {
    assert pool[..|pool|] == pool;
  }

  lemma ReadNone(r: Rules, have: set<Hash>, pool: seq<TxDesc>)
    requires Reading(r, Start(r))
    ensures Upto(r, have, pool, Start(r), 0)
  {
  }

  lemma SyncedAtStart(r: Rules, confirmed: set<Hash>, q: TxPriorityQueue, utxos: UtxoViewpoint)
    requires Inv(r, confirmed, Start(r)) && Queued(q, map[], {}, r.prioritySize == 0) && utxos.entries == map[]
    ensures Synced(r, confirmed, Start(r), q, utxos)
  {
    hide Inv, Queued;
  }

  lemma ReadAllNext(r: Rules, have: set<Hash>, pool: seq<TxDesc>, i: nat)
    requires i < |pool|
    ensures ReadAll(r, have, pool[..i + 1]) == PoolStep(r, have, ReadAll(r, have, pool[..i]), pool[i])
  {
    assert pool[..i + 1][..i] == pool[..i];
  }

  /** Nothing is judged while the pool is read. */
  lemma {:induction false} NothingJudgedYet(r: Rules, have: set<Hash>, pool: seq<TxDesc>)
    ensures ReadAll(r, have, pool).graph.chosen == {} && ReadAll(r, have, pool).graph.rejected == {}
  {
    if pool != [] {
      NothingJudgedYet(r, have, pool[..|pool| - 1]);
      hide Considered, ScanInputs, Fetch, Merge, ItemOf;
    }
  }

  /** One more round of a run. */
  ghost function Extended(t: Trace, h: Hash, s: Sel): Trace {
    Trace(t.states + [s], t.popped + [h])
  }

  lemma RunExtends(r: Rules, start: Sel, t: Trace, s: Sel, h: Hash)
    requires IsRun(r, start, t) && t.states[|t.popped|] == s
    requires IsFirst(s, h) && h in s.items && WellShaped(s.items[h].tx)
    ensures IsRun(r, start, Extended(t, h, Step(r, s, s.items[h])))
  {
    hide Step, IsFirst, WellShaped;
  }

  /** Only a verdict moves an item out of the queue. */
  lemma StepJudges(r: Rules, s: Sel, h: Hash)
    requires h in s.items && WellShaped(s.items[h].tx)
    ensures var s', verdict := Step(r, s, s.items[h]), Judge(r, s, s.items[h]);
      && s'.graph.chosen == (if verdict.Take? then s.graph.chosen + {s.items[h].tx.hash} else s.graph.chosen)
      && s'.graph.rejected == (if verdict.Reject? then s.graph.rejected + {s.items[h].tx.hash} else s.graph.rejected)
  {
    hide Judge, Switches, Include;
  }

  lemma AccountedExtends(r: Rules, start: Sel, t: Trace, s: Sel, h: Hash)
    requires IsRun(r, start, t) && t.states[|t.popped|] == s && Accounted(r, t, s)
    requires h in s.items && s.items[h].tx.hash == h && WellShaped(s.items[h].tx)
    ensures var s' := Step(r, s, s.items[h]); Accounted(r, Extended(t, h, s'), s')
  {
    var s' := Step(r, s, s.items[h]);
    var t' := Extended(t, h, s');
    StepJudges(r, s, h);
    var verdict := Judge(r, s, s.items[h]);
    if !verdict.Requeue? {
      JudgedNow(r, t, s, h, s', verdict.Take?);
    }
    hide Judge, WellShaped, IsRun, Step, JudgedAt, Extended;
    forall g | g in s'.graph.chosen ensures exists i :: JudgedAt(r, t', i, g, true) {
      if g in s.graph.chosen {
        var i :| JudgedAt(r, t, i, g, true);
        JudgedStays(r, t, i, g, true, h, s');
      } else {
        assert g == h && JudgedAt(r, t', |t.popped|, h, true);
      }
    }
    forall g | g in s'.graph.rejected ensures exists i :: JudgedAt(r, t', i, g, false) {
      if g in s.graph.rejected {
        var i :| JudgedAt(r, t, i, g, false);
        JudgedStays(r, t, i, g, false, h, s');
      } else {
        assert g == h && JudgedAt(r, t', |t.popped|, h, false);
      }
    }
  }

  lemma JudgedStays(r: Rules, t: Trace, i: int, g: Hash, taken: bool, h: Hash, s: Sel)
    requires JudgedAt(r, t, i, g, taken)
    ensures JudgedAt(r, Extended(t, h, s), i, g, taken)
  {
    hide Judge;
  }

  lemma JudgedNow(r: Rules, t: Trace, s: Sel, h: Hash, s': Sel, taken: bool)
    requires |t.states| == |t.popped| + 1 && t.states[|t.popped|] == s && h in s.items && WellShaped(s.items[h].tx)
    requires var verdict := Judge(r, s, s.items[h]); if taken then verdict.Take? else verdict.Reject?
    ensures JudgedAt(r, Extended(t, h, s'), |t.popped|, h, taken)
  {
    hide Judge;
  }

  /** Pops until nothing is queued. Each round pops a first item and makes its step. */
  method Drain(r: Rules, ghost confirmed: set<Hash>, start: Sel, q: TxPriorityQueue, utxos: UtxoViewpoint)
    returns (s: Sel, ghost trace: Trace)
    requires Synced(r, confirmed, start, q, utxos) && start.graph.chosen == {} && start.graph.rejected == {}
    modifies q, utxos
    ensures Inv(r, confirmed, s) && s.graph.ready == {} && s.items == start.items
    ensures IsRun(r, start, trace) && trace.states[|trace.popped|] == s && Accounted(r, trace, s)
    ensures Explained(r, trace)
  {
    s, trace := start, Trace([start], []);
    OrdersAreStrictWeak();
    hide Inv, StrictWeakOrder, Heap, DepGraph.Valid, DepGraph.Pending, Step, Judge, IsFirst, WellShaped, JudgedAt;
    assert Accounted(r, trace, s) && IsRun(r, start, trace) && Explained(r, trace);
    hide IsRun, Accounted, Explained;
    while |q.items| > 0
      invariant Synced(r, confirmed, s, q, utxos) && s.items == start.items
      invariant |trace.states| == |trace.popped| + 1 && trace.states[|trace.popped|] == s
      invariant IsRun(r, start, trace) && Accounted(r, trace, s) && Explained(r, trace)
      decreases if s.byFee then 0 else 1, DepGraph.Pending(s.graph)
    {
      ghost var before := s;
      ghost var h;
      s, h := Round(r, confirmed, s, q, utxos);
      RunExtends(r, start, trace, before, h);
      ItemsNamed(r, confirmed, before);
      AccountedExtends(r, start, trace, before, h);
      ExplainedExtends(r, confirmed, trace, before, h);
      trace := Extended(trace, h, s);
    }
    ItemsNamed(r, confirmed, s);
    BagIsEmpty(s.items, s.graph.ready);
  }

  lemma StepQueues(r: Rules, confirmed: set<Hash>, s: Sel, h: Hash)
    requires Inv(r, confirmed, s) && h in s.graph.ready
    ensures h in s.items && WellShaped(s.items[h].tx)
    ensures var s', verdict := Step(r, s, s.items[h]), Judge(r, s, s.items[h]);
      && s'.items == s.items && s'.byFee == (s.byFee || Switches(r, s, s.items[h]))
      && (verdict.Reject? ==> s'.graph.ready == s.graph.ready - {h})
      && (verdict.Requeue? ==> s'.graph == s.graph)
      && (verdict.Take? ==> s'.graph == DepGraph.Choose(s.graph, h) &&
                            s'.block.view == SpendTransaction(s.block.view, s.items[h].tx, r.height))
      && (!verdict.Take? ==> s'.block == s.block)
  {
    hide DepGraph.Valid, Known, Drawn, Counted, Voted, Sound, Admit, SpendTransaction, DepGraph.Choose;
    ReadyFacts(r, confirmed, s, h);
  }

  /** One round of the loop: pop, judge, and put back, drop or spend. */
  method Round(r: Rules, ghost confirmed: set<Hash>, s: Sel, q: TxPriorityQueue, utxos: UtxoViewpoint)
    returns (s': Sel, ghost h: Hash)
    requires Synced(r, confirmed, s, q, utxos) && |q.items| > 0
    modifies q, utxos
    ensures Synced(r, confirmed, s', q, utxos) && s'.items == s.items
    ensures || (!s.byFee && s'.byFee)
            || (s.byFee == s'.byFee && DepGraph.Pending(s'.graph) == DepGraph.Pending(s.graph) - 1)
    ensures IsFirst(s, h) && h in s.items && WellShaped(s.items[h].tx) && s' == Step(r, s, s.items[h])
  {
    hide Inv, DepGraph.Valid, DepGraph.Choose, DepGraph.Pending, Bag, IsFirst, WellShaped, Step, Judge, Switches,
         SpendTransaction;
    ItemsNamed(r, confirmed, s);
    var item := PopReady(s, q);
    h := item.tx.hash;
    StepInv(r, confirmed, s, h);
    StepProgress(r, confirmed, s, h);
    StepQueues(r, confirmed, s, h);
    OrdersAreStrictWeak();
    s' := Step(r, s, item);
    var verdict := Judge(r, s, item);
    if Switches(r, s, item) {
      q.SetLessFunc(ByStakeAndFee);
    }
    match verdict {
      case Reject =>
      case Requeue =>
        BagWith(s.items, s.graph.ready - {h}, h);
        assert s.graph.ready - {h} + {h} == s.graph.ready;
        q.Push(item);
      case Take(count) =>
        utxos.Spend(item.tx, r.height);
        var needs := Release(q, s.items, s.graph, item.tx.hash, s'.byFee);
    }
  }

  method PopReady(s: Sel, q: TxPriorityQueue) returns (item: PrioItem)
    requires Queued(q, s.items, s.graph.ready, s.byFee) && |q.items| > 0
    requires forall g :: g in s.items ==> s.items[g].tx.hash == g
    requires s.graph.ready <= s.items.Keys
    modifies q`items
    ensures IsFirst(s, item.tx.hash) && s.items[item.tx.hash] == item
    ensures Queued(q, s.items, s.graph.ready - {item.tx.hash}, s.byFee)
  {
    item := q.Pop();
    PoppedIsReady(s.items, s.graph.ready, multiset(q.items), item);
    forall g | g in s.graph.ready ensures !q.lessFunc(s.items[g], item) {
      assert s.items[g] in Bag(s.items, s.graph.ready);
      assert s.items[g] == item || s.items[g] in multiset(q.items);
    }
  }

  /** Nothing is forgotten: an item was chosen, or popped and rejected, or still waits for something not chosen. */
  ghost predicate Settled(g: DepGraph.Graph, h: Hash) {
    h in g.chosen || h in g.rejected || (h in g.needs && exists p :: p in g.needs[h] && p !in g.chosen)
  }

  lemma AllSettled(r: Rules, confirmed: set<Hash>, s: Sel)
    requires Inv(r, confirmed, s) && s.graph.ready == {}
    ensures forall h :: h in s.items ==> Settled(s.graph, h)
  {
    hide Known, Drawn, Counted, Voted, Sound;
    forall h | h in s.items ensures Settled(s.graph, h) {
      if s.graph.needs[h] == {} {
        assert DepGraph.Out(s.graph, h);
      } else {
        var p :| p in s.graph.needs[h];
      }
    }
  }

  /** The two loops together, for any pool and any chain. The pool is read in full, and then first items are popped and
      judged until none is queued. The chosen transactions are distinct, each spends only what the chain or an earlier
      one of them provides, nothing is spent twice, and all limits hold. */
  method SelectTransactions(r: Rules, have: set<Hash>, pool: seq<TxDesc>, ghost confirmed: set<Hash>)
    returns (s: Sel, ghost trace: Trace)
    requires PoolOk(r, confirmed, pool)
    ensures IsRun(r, ReadAll(r, have, pool), trace) && trace.states[|trace.popped|] == s
    ensures s.graph.ready == {} && s.items == ReadAll(r, have, pool).items && Accounted(r, trace, s)
    ensures Unfilled(r, trace.states[0]) && Explained(r, trace)
    ensures forall i :: 0 <= i < |pool| ==> ReadRight(r, have, trace.states[0], pool[i])
    ensures DistinctHashes(s.block.txs) && Sourced(r.chain, s.block.txs) && NoDoubleSpend(s.block.txs)
    ensures Counted(r, s.block) && Voted(r, s.block)
    ensures forall h :: h in s.items ==> Settled(s.graph, h)
    ensures FromPool(pool, s.items)
    ensures Inv(r, confirmed, s)
  {
    OrdersAreStrictWeak();
    var q := new TxPriorityQueue(OrderFor(r.prioritySize == 0));
    var utxos := new UtxoViewpoint();
    assert Bag(map[], {}) == multiset{};
    s := ReadPool(r, have, pool, confirmed, q, utxos);
    NothingJudgedYet(r, have, pool);
    ReadsUnfilled(r, have, pool);
    forall i | 0 <= i < |pool| ensures ReadRight(r, have, s, pool[i]) {
      PoolRead(r, have, pool, i);
    }
    hide Accounted, ReadAll, Unfilled, Explained, ReadRight;
    s, trace := Drain(r, confirmed, s, q, utxos);
    AllSettled(r, confirmed, s);
    hide Settled, DistinctHashes, Sourced, NoDoubleSpend, Counted, Voted, Tracks, Known, Drawn, DepGraph.Valid;
  }
}
