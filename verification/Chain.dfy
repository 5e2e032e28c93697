/** Transactions and the view of unspent outputs that block templates are built over. */
module Chain {
  /** Hashes are only ever compared; 0 stands for the all-zero hash. */
  type Hash = nat

  datatype Option<+T> = None | Some(value: T)

  datatype TxKind = Regular | Ticket | Vote | Revocation
  datatype TxTree = TreeUnknown | TreeRegular | TreeStake

  /** The full outpoint of an input. Its tree tag is a claim that the input checks verify. */
  datatype OutPoint = OutPoint(hash: Hash, index: nat, tree: TxTree)

  /** The output an outpoint names, whatever its tree tag says. */
  datatype Coin = Coin(hash: Hash, index: nat)

  datatype TxIn = TxIn(prev: OutPoint, valueIn: int, blockHeight: nat, blockIndex: nat)
  datatype TxOut = TxOut(value: int, unspendable: bool)

  /** A count that is kept in a signed 64-bit integer. */
  type Count = n: int | 0 <= n < 0x8000_0000_0000_0000

  datatype Tx = Tx(hash: Hash, kind: TxKind, tree: TxTree, ins: seq<TxIn>, outs: seq<TxOut>,
                   size: nat, sigOps: Count, votedBlock: Hash, votedHeight: int, voteBits: bv16)

  datatype Output = Output(amount: int, spent: bool)
  datatype Entry = Entry(outputs: map<nat, Output>, height: nat, index: nat, kind: TxKind)

  /** A missing key stands for both an absent and a nil entry: lookups cannot tell them apart. */
  type View = map<Hash, Entry>

  const NULL_BLOCK_INDEX: nat := 0xffff_ffff

  function CoinOf(op: OutPoint): Coin {
    Coin(op.hash, op.index)
  }

  /** The first input of a vote is its stakebase, which spends nothing. */
  function FirstSpend(tx: Tx): nat {
    if tx.kind.Vote? then 1 else 0
  }

  predicate Spends(tx: Tx, c: Coin) {
    exists i :: FirstSpend(tx) <= i < |tx.ins| && CoinOf(tx.ins[i].prev) == c
  }

  predicate Creates(tx: Tx, c: Coin) {
    c.hash == tx.hash && c.index < |tx.outs| && !tx.outs[c.index].unspendable
  }

  predicate Unspent(v: View, c: Coin) {
    c.hash in v && c.index in v[c.hash].outputs && !v[c.hash].outputs[c.index].spent
  }

  predicate FullySpent(e: Entry) {
    forall i :: i in e.outputs ==> e.outputs[i].spent
  }

  function AmountByIndex(e: Entry, i: nat): int {
    if i in e.outputs then e.outputs[i].amount else 0
  }

  function TreeOf(kind: TxKind): TxTree {
    if kind.Regular? then TreeRegular else TreeStake
  }

  // ---- Updating a view ----

  /** All of `a`, and the entries of `b` that `a` lacks or holds only fully spent. */
  function Merge(a: View, b: View): View {
    map h | h in a.Keys + b.Keys :: if h in b && (h !in a || FullySpent(a[h])) then b[h] else a[h]
  }

  function SpendOutput(e: Entry, i: nat): Entry {
    if i in e.outputs then e.(outputs := e.outputs[i := e.outputs[i].(spent := true)]) else e
  }

  function SpendCoin(v: View, c: Coin): View {
    if c.hash in v then v[c.hash := SpendOutput(v[c.hash], c.index)] else v
  }

  function SpendInputs(v: View, ins: seq<TxIn>): View {
    if ins == [] then v
    else SpendCoin(SpendInputs(v, ins[..|ins| - 1]), CoinOf(ins[|ins| - 1].prev))
  }

  /** The outputs an entry holds after the spendable outputs of its transaction are marked unspent. */
  function WithOuts(outputs: map<nat, Output>, outs: seq<TxOut>): map<nat, Output> {
    outputs + map i: nat | i < |outs| && !outs[i].unspendable :: Output(outs[i].value, false)
  }

  function AddTxOuts(v: View, tx: Tx, height: nat): View {
    var kept := if tx.hash in v then v[tx.hash].outputs else map[];
    var kind := if tx.hash in v then v[tx.hash].kind else tx.kind;
    v[tx.hash := Entry(WithOuts(kept, tx.outs), height, NULL_BLOCK_INDEX, kind)]
  }

  /** Every input is marked spent, the stakebase included, and then the outputs are added. */
  function SpendTransaction(v: View, tx: Tx, height: nat): View {
    AddTxOuts(SpendInputs(v, tx.ins), tx, height)
  }

  /** The part of `chain` that is loaded for one transaction: its own entry, its inputs' and `preloaded`. */
  function Fetch(chain: View, preloaded: set<Hash>, tx: Tx): (v: View)
    ensures forall h :: h in v ==> h in chain && v[h] == chain[h]
    ensures forall i :: FirstSpend(tx) <= i < |tx.ins| && tx.ins[i].prev.hash in chain ==> tx.ins[i].prev.hash in v
  {
    var wanted := preloaded + {tx.hash} + set i | FirstSpend(tx) <= i < |tx.ins| :: tx.ins[i].prev.hash;
    map h | h in chain && h in wanted :: chain[h]
  }

  /** What a successful input check guarantees: each real input is there, unspent and tagged with the right tree. */
  predicate InputsPresent(v: View, tx: Tx) {
    forall i :: FirstSpend(tx) <= i < |tx.ins| ==>
      Unspent(v, CoinOf(tx.ins[i].prev)) && tx.ins[i].prev.tree == TreeOf(v[tx.ins[i].prev.hash].kind)
  }

  class UtxoViewpoint {
    var entries: View

    constructor ()
      ensures entries == map[]
    {
      entries := map[];
    }

    method MergeFrom(other: View)
      modifies this
      ensures entries == Merge(old(entries), other)
    {
      var todo := other.Keys;
      while todo != {}
        invariant todo <= other.Keys
        invariant entries.Keys == old(entries).Keys + (other.Keys - todo)
        invariant forall h :: h in todo && h in old(entries) ==> entries[h] == old(entries)[h]
        invariant forall h :: h in entries && h !in todo ==> entries[h] == Merge(old(entries), other)[h]
        decreases todo
      {
        var h :| h in todo;
        if h !in entries || FullySpent(entries[h]) {
          entries := entries[h := other[h]];
        }
        todo := todo - {h};
      }
    }

    method Spend(tx: Tx, height: nat)
      modifies this
      ensures entries == SpendTransaction(old(entries), tx, height)
    {
      for i := 0 to |tx.ins|
        invariant entries == SpendInputs(old(entries), tx.ins[..i])
      {
        assert tx.ins[..i + 1][..i] == tx.ins[..i];
        var prev := tx.ins[i].prev;
        if prev.hash in entries {
          entries := entries[prev.hash := SpendOutput(entries[prev.hash], prev.index)];
        }
      }
      assert tx.ins[..|tx.ins|] == tx.ins;
      entries := AddTxOuts(entries, tx, height);
    }
  }

  // ---- What the updates do to the set of unspent outputs ----

  lemma {:induction false} SpendInputsLeaves(v: View, ins: seq<TxIn>, c: Coin)
    ensures Unspent(SpendInputs(v, ins), c) <==>
      Unspent(v, c) && forall i :: 0 <= i < |ins| ==> CoinOf(ins[i].prev) != c
    ensures SpendInputs(v, ins).Keys == v.Keys
  {
    if ins != [] {
      var front := ins[..|ins| - 1];
      SpendInputsLeaves(v, front, c);
      assert forall i :: 0 <= i < |front| ==> ins[i] == front[i];
    }
  }

  /** After a transaction is spent into a view, exactly its inputs have gone and its spendable outputs have come. */
  lemma SpendTransactionExact(v: View, tx: Tx, height: nat, c: Coin)
    ensures Unspent(SpendTransaction(v, tx, height), c) <==>
      Creates(tx, c) || (Unspent(v, c) && forall i :: 0 <= i < |tx.ins| ==> CoinOf(tx.ins[i].prev) != c)
    ensures SpendTransaction(v, tx, height).Keys == v.Keys + {tx.hash}
  {
    SpendInputsLeaves(v, tx.ins, c);
  }

  lemma {:induction false} SpendInputsKind(v: View, ins: seq<TxIn>, h: Hash)
    requires h in v
    ensures h in SpendInputs(v, ins) && SpendInputs(v, ins)[h].kind == v[h].kind
  {
    if ins != [] {
      SpendInputsKind(v, ins[..|ins| - 1], h);
    }
  }

  /** An entry keeps its kind, whatever spends from it. */
  lemma SpendKeepsKind(v: View, tx: Tx, height: nat, h: Hash)
    requires h in v
    ensures h in SpendTransaction(v, tx, height) && SpendTransaction(v, tx, height)[h].kind == v[h].kind
  {
    SpendInputsKind(v, tx.ins, h);
  }

  /** Merging fetched parts of one chain never invents or loses an unspent output. */
  lemma MergeOfChain(a: View, b: View, chain: View)
    requires forall h :: h in a ==> h in chain && a[h] == chain[h]
    requires forall h :: h in b ==> h in chain && b[h] == chain[h]
    ensures forall h :: h in Merge(a, b) ==> h in chain && Merge(a, b)[h] == chain[h]
    ensures Merge(a, b).Keys == a.Keys + b.Keys
  {
  }
}
