/** Choosing the transactions of a block template: the dependency graph of the pool and the selection loop, as a
    state and the steps on it. */
module Selection {
  import opened Chain
  import opened TxQueue
  import DepGraph

  const TWO32: int := 0x1_0000_0000
  const TWO63: int := 0x8000_0000_0000_0000
  const TWO64: int := 0x1_0000_0000_0000_0000

  /** The largest block header, 84 + 3 * 32 bytes, and the largest transaction count, 9 bytes. */
  const BLOCK_HEADER_OVERHEAD: nat := 189
  const MAX_SIG_OPS_PER_BLOCK: int := 5000
  const MIN_HIGH_PRIORITY: real := 57600000.0

  /** Two's complement reduction to a signed 64-bit value. */
  function Wrap64(x: int): int {
    var m := x % TWO64;
    if m >= TWO63 then m - TWO64 else m
  }

  /** What one template is built against: the chain as fetched, the best snapshot, the policy, and the two checks
      that belong to other packages. `preloaded` holds what a disapproved parent adds to every fetched view, and
      `accepts` is all that input checking and script validation ask beyond `InputsPresent`. */
  datatype Rules = Rules(chain: View, preloaded: set<Hash>, parent: Hash, height: nat,
                         stakeDiff: int, missed: seq<Hash>, winners: seq<Hash>, maxFreshStake: nat,
                         maxSize: nat, minSize: nat, prioritySize: nat, minFreeFee: int,
                         p2shSigOps: (Tx, View) -> Option<Count>, accepts: (Tx, View) -> bool)

  /** A pool entry, with the answers of the coinbase, finality and fetch questions about it. */
  datatype TxDesc = TxDesc(tx: Tx, fee: int, priority: real, coinbase: bool, finalized: bool, fetched: bool)

  /** The block as filled so far: the chosen transactions in order, the view they were spent into, the running
      totals, the tickets that votes have used, and the fee and signature operations of each transaction. */
  datatype Block = Block(txs: seq<Tx>, view: View, size: nat, sigOps: int, tickets: nat, used: set<Hash>,
                         fees: map<Hash, int>, counts: map<Hash, int>)

  /** The variables of the loop. The queue holds the items of `graph.ready`. */
  datatype Sel = Sel(items: map<Hash, PrioItem>, graph: DepGraph.Graph, byFee: bool, block: Block)

  /** The ticket a vote spends. */
  function TicketOf(tx: Tx): Hash
    requires WellShaped(tx) && tx.kind.Vote?
  {
    tx.ins[1].prev.hash
  }

  /** What the stake package guarantees of the shape of stake transactions. */
  predicate WellShaped(tx: Tx) {
    && (tx.kind.Vote? ==> |tx.ins| >= 2)
    && (tx.kind.Ticket? ==> |tx.outs| >= 1)
    && (tx.kind.Revocation? ==> |tx.ins| >= 1)
  }

  // ---- Building the dependency graph from the pool ----

  /** The pool parents among the inputs from `i` on, up to the first input that is nowhere to be found; and
      whether there was no such input. */
  function ScanInputs(utxos: View, have: set<Hash>, tx: Tx, i: nat): (r: (set<Hash>, bool))
    decreases |tx.ins| - i
  {
    if i >= |tx.ins| then ({}, true)
    else if Unspent(utxos, CoinOf(tx.ins[i].prev)) then ScanInputs(utxos, have, tx, i + 1)
    else if tx.ins[i].prev.hash !in have then ({}, false)
    else
      var rest := ScanInputs(utxos, have, tx, i + 1);
      ({tx.ins[i].prev.hash} + rest.0, rest.1)
  }

  /** The tests that drop a pool entry before anything is recorded about it. */
  predicate Considered(r: Rules, d: TxDesc) {
    && !d.coinbase && d.finalized && d.fetched
    && (d.tx.kind.Vote? ==> d.tx.votedBlock == r.parent && d.tx.votedHeight == r.height - 1)
  }

  function ItemOf(d: TxDesc): PrioItem {
    PrioItem(d.tx, d.fee, d.priority, if d.tx.size == 0 then 0.0 else d.fee as real * 1000.0 / d.tx.size as real)
  }

  /** An entry with a lost input keeps the parents found before it, and keeps a zero fee and priority. */
  function PoolStep(r: Rules, have: set<Hash>, s: Sel, d: TxDesc): Sel {
    if !Considered(r, d) then s
    else
      var utxos := Fetch(r.chain, r.preloaded, d.tx);
      var (parents, complete) := ScanInputs(utxos, have, d.tx, FirstSpend(d.tx));
      if !complete && parents == {} then s
      else
        var h := d.tx.hash;
        s.(items := s.items[h := if complete then ItemOf(d) else PrioItem(d.tx, 0, 0.0, 0.0)],
           graph := DepGraph.Register(s.graph, h, parents),
           block := if complete then s.block.(view := Merge(s.block.view, utxos)) else s.block)
  }

  const EMPTY_BLOCK := Block([], map[], BLOCK_HEADER_OVERHEAD, 0, 0, {}, map[], map[])

  function Start(r: Rules): Sel {
    Sel(map[], DepGraph.EMPTY, r.prioritySize == 0, EMPTY_BLOCK)
  }

  /** The whole pool, entry by entry. */
  function ReadAll(r: Rules, have: set<Hash>, pool: seq<TxDesc>): Sel {
    if pool == [] then Start(r) else PoolStep(r, have, ReadAll(r, have, pool[..|pool| - 1]), pool[|pool| - 1])
  }

  // ---- One round of the selection loop ----

  function Plus(b: Block, tx: Tx): nat {
    (b.size + tx.size % TWO32) % TWO32
  }

  predicate SigOpsExceed(sofar: int, n: int) {
    var total := Wrap64(sofar + n);
    total < sofar || total > MAX_SIG_OPS_PER_BLOCK
  }

  /** The signature operations of a transaction, or none if they are over the limit or cannot be counted. */
  function CountSigOps(r: Rules, b: Block, tx: Tx): Option<int> {
    var n := Wrap64(tx.sigOps);
    if SigOpsExceed(b.sigOps, n) then None
    else match r.p2shSigOps(tx, b.view)
      case None => None
      case Some(p) =>
        var m := Wrap64(n + Wrap64(p));
        if SigOpsExceed(b.sigOps, m) then None else Some(m)
  }

  /** Everything that is checked before the order may switch; the count of signature operations if it all holds. */
  function Admit(r: Rules, byFee: bool, b: Block, item: PrioItem): Option<int>
    requires WellShaped(item.tx)
  {
    var tx := item.tx;
    if tx.kind.Ticket? && b.tickets >= r.maxFreshStake then None
    else if tx.kind.Ticket? && tx.outs[0].value < r.stakeDiff then None
    else if tx.kind.Revocation? && tx.ins[0].prev.hash !in r.missed then None
    else if Plus(b, tx) < b.size || Plus(b, tx) >= r.maxSize then None
    else if CountSigOps(r, b, tx).None? then None
    else if tx.kind.Vote? && (TicketOf(tx) in b.used || TicketOf(tx) !in r.winners) then None
    else if byFee && item.feePerKB < r.minFreeFee as real && !tx.tree.TreeStake? && Plus(b, tx) >= r.minSize then None
    else CountSigOps(r, b, tx)
  }

  predicate Switches(r: Rules, s: Sel, item: PrioItem)
    requires WellShaped(item.tx)
  {
    && Admit(r, s.byFee, s.block, item).Some? && !s.byFee
    && (Plus(s.block, item.tx) >= r.prioritySize || item.priority <= MIN_HIGH_PRIORITY)
  }

  datatype Verdict = Reject | Requeue | Take(count: int)

  function Judge(r: Rules, s: Sel, item: PrioItem): Verdict
    requires WellShaped(item.tx)
  {
    var admitted := Admit(r, s.byFee, s.block, item);
    if admitted.None? then Reject
    else if Switches(r, s, item)
            && (Plus(s.block, item.tx) > r.prioritySize || item.priority < MIN_HIGH_PRIORITY) then Requeue
    else if InputsPresent(s.block.view, item.tx) && r.accepts(item.tx, s.block.view) then Take(admitted.value)
    else Reject
  }

  function Include(r: Rules, b: Block, item: PrioItem, count: int): Block
    requires WellShaped(item.tx)
  {
    var tx, h := item.tx, item.tx.hash;
    Block(b.txs + [tx], SpendTransaction(b.view, tx, r.height), Plus(b, tx), Wrap64(b.sigOps + count),
          b.tickets + (if tx.kind.Ticket? then 1 else 0), b.used + (if tx.kind.Vote? then {TicketOf(tx)} else {}),
          b.fees[h := item.fee], b.counts[h := count])
  }

  /** One round, for the item that the queue gave. */
  function Step(r: Rules, s: Sel, item: PrioItem): Sel
    requires WellShaped(item.tx)
  {
    var h, byFee := item.tx.hash, s.byFee || Switches(r, s, item);
    match Judge(r, s, item)
    case Reject => s.(graph := DepGraph.Reject(s.graph, h), byFee := byFee)
    case Requeue => s.(byFee := byFee)
    case Take(count) =>
      s.(graph := DepGraph.Choose(s.graph, h), byFee := byFee, block := Include(r, s.block, item, count))
  }

  // ---- All rounds ----

  function OrderFor(byFee: bool): LessFunc {
    if byFee then ByStakeAndFee else ByStakeAndFeeAndThenPriority
  }

  /** No queued item strictly precedes that of `h` in the current order. */
  ghost predicate IsFirst(s: Sel, h: Hash) {
    h in s.graph.ready && h in s.items &&
    forall g :: g in s.graph.ready && g in s.items ==> !OrderFor(s.byFee)(s.items[g], s.items[h])
  }

  /** The states that the loop went through, and what it popped in each. */
  datatype Trace = Trace(states: seq<Sel>, popped: seq<Hash>)

  /** Each round pops a first item and makes its step. */
  ghost predicate IsRun(r: Rules, start: Sel, t: Trace) {
    && |t.states| == |t.popped| + 1 && t.states[0] == start
    && forall i :: 0 <= i < |t.popped| ==>
         && IsFirst(t.states[i], t.popped[i]) && WellShaped(t.states[i].items[t.popped[i]].tx)
         && t.states[i + 1] == Step(r, t.states[i], t.states[i].items[t.popped[i]])
  }

  /** Round `i` judged `h`. */
  ghost predicate JudgedAt(r: Rules, t: Trace, i: int, h: Hash, taken: bool) {
    && 0 <= i < |t.popped| && i < |t.states| && t.popped[i] == h
    && h in t.states[i].items && WellShaped(t.states[i].items[h].tx)
    && var verdict := Judge(r, t.states[i], t.states[i].items[h]); if taken then verdict.Take? else verdict.Reject?
  }

  /** What is chosen at the end was taken in some round, and what is rejected was rejected in some round. */
  ghost predicate Accounted(r: Rules, t: Trace, s: Sel) {
    && (forall h :: h in s.graph.chosen ==> exists i :: JudgedAt(r, t, i, h, true))
    && (forall h :: h in s.graph.rejected ==> exists i :: JudgedAt(r, t, i, h, false))
  }
}
