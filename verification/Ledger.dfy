/** Why a list of transactions that is spent, one by one, into a view of the chain has no missing input and no
    double spend. */
module Ledger {
  import opened Chain

  ghost predicate CreatedBy(txs: seq<Tx>, c: Coin) {
    exists j :: 0 <= j < |txs| && Creates(txs[j], c)
  }

  ghost predicate SpentBy(txs: seq<Tx>, c: Coin) {
    exists j :: 0 <= j < |txs| && Spends(txs[j], c)
  }

  ghost predicate HasHash(txs: seq<Tx>, h: Hash) {
    exists j :: 0 <= j < |txs| && txs[j].hash == h
  }

  /** Each output a transaction spends is unspent on the chain or created by a strictly earlier transaction. */
  ghost predicate Sourced(chain: View, txs: seq<Tx>) {
    forall j, c :: 0 <= j < |txs| && Spends(txs[j], c) ==> Unspent(chain, c) || CreatedBy(txs[..j], c)
  }

  ghost predicate DistinctSpends(tx: Tx) {
    forall i, k :: FirstSpend(tx) <= i < k < |tx.ins| ==> CoinOf(tx.ins[i].prev) != CoinOf(tx.ins[k].prev)
  }

  /** No output is spent twice, neither by two transactions nor by two inputs of one. */
  ghost predicate NoDoubleSpend(txs: seq<Tx>) {
    && (forall j, c :: 0 <= j < |txs| && Spends(txs[j], c) ==> !SpentBy(txs[..j], c))
    && (forall j :: 0 <= j < |txs| ==> DistinctSpends(txs[j]))
  }

  ghost predicate DistinctHashes(txs: seq<Tx>) {
    forall j, k :: 0 <= j < k < |txs| ==> txs[j].hash != txs[k].hash
  }

  /** The sanity rule of the pool: no transaction names the same full outpoint twice. */
  ghost predicate DistinctOutPoints(tx: Tx) {
    forall i, k :: FirstSpend(tx) <= i < k < |tx.ins| ==> tx.ins[i].prev != tx.ins[k].prev
  }

  /** `confirmed` holds the transactions that are in the chain and have not been disapproved. Whatever is unspent on
      the chain is an output of one of them; an entry without unspent outputs may be of another, such as one of a
      disapproved block. No transaction has the zero hash. */
  ghost predicate OfConfirmed(chain: View, confirmed: set<Hash>) {
    0 !in confirmed && forall c :: Unspent(chain, c) ==> c.hash in confirmed
  }

  /** A transaction that is in the chain has spent its inputs there: at least one of them comes from a confirmed
      transaction and is no longer unspent. */
  ghost predicate ChainConsistent(chain: View, confirmed: set<Hash>, tx: Tx) {
    && OfConfirmed(chain, confirmed)
    && (tx.hash in confirmed ==>
          (exists i :: FirstSpend(tx) <= i < |tx.ins| && SpentOnChain(chain, confirmed, tx.ins[i])))
  }

  ghost predicate SpentOnChain(chain: View, confirmed: set<Hash>, txIn: TxIn) {
    txIn.prev.hash in confirmed && !Unspent(chain, CoinOf(txIn.prev))
  }

  /** A transaction is named by its hash, and a stakebase names none. */
  predicate Named(tx: Tx) {
    tx.hash != 0 && (tx.kind.Vote? ==> |tx.ins| > 0 && tx.ins[0].prev.hash == 0)
  }

  /** The view has unspent exactly what `txs` leave of their own outputs and of the chain, as far as that was loaded. */
  ghost predicate Tracks(chain: View, txs: seq<Tx>, view: View) {
    forall c :: Unspent(view, c) <==>
      (CreatedBy(txs, c) || (c.hash in view && Unspent(chain, c))) && !SpentBy(txs, c)
  }

  ghost predicate Sound(chain: View, confirmed: set<Hash>, txs: seq<Tx>, view: View) {
    && OfConfirmed(chain, confirmed)
    && Tracks(chain, txs, view)
    && Sourced(chain, txs)
    && NoDoubleSpend(txs)
    && DistinctHashes(txs)
    && forall j :: 0 <= j < |txs| ==> txs[j].hash !in confirmed && Named(txs[j])
  }

  lemma ExtendBy(txs: seq<Tx>, tx: Tx, c: Coin)
    ensures CreatedBy(txs + [tx], c) <==> CreatedBy(txs, c) || Creates(tx, c)
    ensures SpentBy(txs + [tx], c) <==> SpentBy(txs, c) || Spends(tx, c)
  {
    var all := txs + [tx];
    assert all[|txs|] == tx;
    assert forall j :: 0 <= j < |txs| ==> all[j] == txs[j];
  }

  /** A transaction whose inputs pass the check cannot already be in the chain. */
  lemma PassingIsUnconfirmed(chain: View, confirmed: set<Hash>, txs: seq<Tx>, view: View, tx: Tx)
    requires Sound(chain, confirmed, txs, view)
    requires ChainConsistent(chain, confirmed, tx) && InputsPresent(view, tx)
    ensures tx.hash !in confirmed
  {
    forall i | FirstSpend(tx) <= i < |tx.ins|
      ensures !SpentOnChain(chain, confirmed, tx.ins[i])
    {
      assert Unspent(view, CoinOf(tx.ins[i].prev));
    }
  }

  /** Nothing selected so far has touched the outputs of a transaction that comes later. */
  lemma OwnOutputsUntouched(chain: View, confirmed: set<Hash>, txs: seq<Tx>, view: View, tx: Tx, c: Coin)
    requires Sound(chain, confirmed, txs, view)
    requires tx.hash !in confirmed && !HasHash(txs, tx.hash) && c.hash == tx.hash
    ensures !Unspent(view, c) && !SpentBy(txs, c)
  {
    assert !CreatedBy(txs, c) && !Unspent(chain, c);
    forall j | 0 <= j < |txs|
      ensures !Spends(txs[j], c)
    {
      assert !CreatedBy(txs[..j], c);
    }
  }

  /** With the right tree tags, distinct outpoints are distinct outputs. */
  lemma TaggedSpendsDistinct(view: View, tx: Tx)
    requires DistinctOutPoints(tx) && InputsPresent(view, tx)
    ensures DistinctSpends(tx)
  {
  }

  /** What a transaction marks as spent is what it spends; marking a stakebase spent has no effect. */
  lemma MarksWhatItSpends(tx: Tx, c: Coin)
    requires Named(tx) && c.hash != 0
    ensures Spends(tx, c) <==> exists i :: 0 <= i < |tx.ins| && CoinOf(tx.ins[i].prev) == c
  {
  }

  /** Nothing with the zero hash is ever unspent. */
  lemma ZeroIsNeverUnspent(chain: View, confirmed: set<Hash>, txs: seq<Tx>, view: View, c: Coin)
    requires Sound(chain, confirmed, txs, view) && c.hash == 0
    ensures !Unspent(view, c) && !CreatedBy(txs, c) && !Unspent(chain, c)
  {
  }

  lemma TrackedAfter(chain: View, confirmed: set<Hash>, txs: seq<Tx>, view: View, tx: Tx, height: nat)
    requires Sound(chain, confirmed, txs, view) && Named(tx)
    requires InputsPresent(view, tx) && tx.hash !in confirmed && !HasHash(txs, tx.hash)
    ensures Tracks(chain, txs + [tx], SpendTransaction(view, tx, height))
  {
    var after, all := SpendTransaction(view, tx, height), txs + [tx];
    forall c
      ensures Unspent(after, c) <==>
        (CreatedBy(all, c) || (c.hash in after && Unspent(chain, c))) && !SpentBy(all, c)
    {
      SpendTransactionExact(view, tx, height, c);
      ExtendBy(txs, tx, c);
      hide SpendTransaction, CreatedBy, SpentBy, Sourced, NoDoubleSpend, DistinctHashes;
      if c.hash == 0 {
        ZeroIsNeverUnspent(chain, confirmed, txs, view, c);
      } else {
        MarksWhatItSpends(tx, c);
        if c.hash == tx.hash {
          OwnOutputsUntouched(chain, confirmed, txs, view, tx, c);
          OwnInputUntouched(chain, confirmed, txs, view, tx, c);
        }
      }
    }
  }

  /** A transaction does not spend its own outputs: they are not there yet when its inputs are checked. */
  lemma OwnInputUntouched(chain: View, confirmed: set<Hash>, txs: seq<Tx>, view: View, tx: Tx, c: Coin)
    requires Sound(chain, confirmed, txs, view) && InputsPresent(view, tx)
    requires tx.hash !in confirmed && !HasHash(txs, tx.hash) && c.hash == tx.hash
    ensures !Spends(tx, c) && !Unspent(chain, c) && !CreatedBy(txs, c)
  {
    OwnOutputsUntouched(chain, confirmed, txs, view, tx, c);
  }

  lemma SourcedAfter(chain: View, confirmed: set<Hash>, txs: seq<Tx>, view: View, tx: Tx)
    requires Sound(chain, confirmed, txs, view)
    requires InputsPresent(view, tx) && DistinctOutPoints(tx)
    ensures Sourced(chain, txs + [tx]) && NoDoubleSpend(txs + [tx])
  {
    var all := txs + [tx];
    TaggedSpendsDistinct(view, tx);
    forall j, c | 0 <= j < |all| && Spends(all[j], c)
      ensures (Unspent(chain, c) || CreatedBy(all[..j], c)) && !SpentBy(all[..j], c)
    {
      assert all[..j] == txs[..j];
      if j == |txs| {
        assert txs[..j] == txs;
        assert Unspent(view, c);
      } else {
        assert all[j] == txs[j];
      }
    }
  }

  /** Spending one more checked transaction keeps the list sourced and free of double spends. */
  lemma SoundStep(chain: View, confirmed: set<Hash>, txs: seq<Tx>, view: View, tx: Tx, height: nat)
    requires Sound(chain, confirmed, txs, view)
    requires ChainConsistent(chain, confirmed, tx) && DistinctOutPoints(tx) && Named(tx)
    requires InputsPresent(view, tx) && !HasHash(txs, tx.hash)
    ensures Sound(chain, confirmed, txs + [tx], SpendTransaction(view, tx, height))
  {
    PassingIsUnconfirmed(chain, confirmed, txs, view, tx);
    TrackedAfter(chain, confirmed, txs, view, tx, height);
    SourcedAfter(chain, confirmed, txs, view, tx);
  }
}
