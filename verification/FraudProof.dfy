/** The fraud proofs of the regular tree: for each input, the amount and the place of the output it spends. */
module FraudProof {
  import opened Chain
  import opened Ledger
  import opened Template

  ghost predicate InList(list: seq<Tx>, h: Hash) {
    exists j :: 0 <= j < |list| && list[j].hash == h
  }

  /** A coinbase and then regular transactions, each spending what is unspent on the chain, what an earlier one of
      them creates, or what is in another tree. None of them has anything unspent on the chain. */
  ghost predicate Linked(chain: View, list: seq<Tx>) {
    && DistinctHashes(list)
    && (forall i :: 1 <= i < |list| ==> list[i].kind.Regular?)
    && (forall c :: Unspent(chain, c) ==> !InList(list, c.hash))
    && (forall i, c :: 1 <= i < |list| && Spends(list[i], c) ==> Provided(chain, list, i, c))
  }

  ghost predicate Provided(chain: View, list: seq<Tx>, i: nat, c: Coin)
    requires i <= |list|
  {
    Unspent(chain, c) || !InList(list, c.hash) || exists j :: 1 <= j < i && Creates(list[j], c)
  }

  /** Every entry of the chain has a place in an earlier block. */
  ghost predicate Indexed(chain: View, height: nat) {
    forall h :: h in chain ==> chain[h].index != NULL_BLOCK_INDEX && chain[h].height < height
  }

  /** The proof that input `txIn` of transaction `i` carries is that of an output of a strictly earlier transaction. */
  ghost predicate ProvenInList(height: nat, list: seq<Tx>, i: nat, txIn: TxIn)
    requires i <= |list|
  {
    var c := CoinOf(txIn.prev);
    && 1 <= txIn.blockIndex < i && txIn.blockHeight == height
    && Creates(list[txIn.blockIndex], c) && txIn.valueIn == list[txIn.blockIndex].outs[c.index].value
  }

  /** The proof is right: it is that of the output on the chain, or else that of an output of the list. */
  ghost predicate Proven(chain: View, height: nat, list: seq<Tx>, i: nat, txIn: TxIn)
    requires i <= |list|
  {
    var c := CoinOf(txIn.prev);
    if Unspent(chain, c) then
      && txIn.valueIn == chain[c.hash].outputs[c.index].amount
      && txIn.blockHeight == chain[c.hash].height && txIn.blockIndex == chain[c.hash].index
    else ProvenInList(height, list, i, txIn)
  }

  /** The view has an entry for the transaction of an output that is not unspent there. It hides a transaction with
      that hash which the block contains, as one of a disapproved parent that is mined again. */
  predicate Hidden(chain: View, c: Coin) {
    c.hash in chain && !Unspent(chain, c)
  }

  // ---- The two passes ----

  function ChainPass(chain: View, tx: Tx): Tx {
    DeepTxIns(tx).(ins := seq(|tx.ins|, k requires 0 <= k < |tx.ins| =>
      if tx.ins[k].prev.hash in chain then ChainProof(chain, tx.ins[k])
      else tx.ins[k].(blockIndex := NULL_BLOCK_INDEX)))
  }

  method TxIndexFromTxList(h: Hash, list: seq<Tx>) returns (idx: int)
    ensures -1 <= idx < |list|
    ensures idx >= 0 ==> list[idx].hash == h && forall j :: 0 <= j < idx ==> list[j].hash != h
    ensures idx == -1 <==> !InList(list, h)
  {
    for i := 0 to |list|
      invariant forall j :: 0 <= j < i ==> list[j].hash != h
    {
      if list[i].hash == h {
        return i;
      }
    }
    return -1;
  }

  /** Inputs that the chain knows are left alone; the others get the place of the transaction in the list. */
  ghost predicate LocalPass(height: nat, list: seq<Tx>, before: TxIn, after: TxIn) {
    if before.blockIndex != NULL_BLOCK_INDEX then after == before
    else
      && after.blockIndex < |list| && list[after.blockIndex].hash == before.prev.hash
      && before.prev.index < |list[after.blockIndex].outs|
      && after == TxIn(before.prev, list[after.blockIndex].outs[before.prev.index].value, height, after.blockIndex)
  }

  ghost predicate Stuck(list: seq<Tx>, txIn: TxIn) {
    txIn.blockIndex == NULL_BLOCK_INDEX && !InList(list, txIn.prev.hash)
  }

  method FillLocal(height: nat, list: seq<Tx>, tx: Tx) returns (ins: Option<seq<TxIn>>)
    requires forall k, j :: 0 <= k < |tx.ins| && tx.ins[k].blockIndex == NULL_BLOCK_INDEX && 0 <= j < |list| ==>
      list[j].hash == tx.ins[k].prev.hash ==> tx.ins[k].prev.index < |list[j].outs|
    ensures ins.None? <==> exists k :: 0 <= k < |tx.ins| && Stuck(list, tx.ins[k])
    ensures ins.Some? ==>
      |ins.value| == |tx.ins| && forall k :: 0 <= k < |tx.ins| ==> LocalPass(height, list, tx.ins[k], ins.value[k])
  {
    var done: seq<TxIn> := [];
    for k := 0 to |tx.ins|
      invariant |done| == k && forall j :: 0 <= j < k ==> LocalPass(height, list, tx.ins[j], done[j])
      invariant forall j :: 0 <= j < k ==> !Stuck(list, tx.ins[j])
    {
      var txIn := tx.ins[k];
      if txIn.blockIndex == NULL_BLOCK_INDEX {
        var idx := TxIndexFromTxList(txIn.prev.hash, list);
        if idx == -1 {
          assert Stuck(list, tx.ins[k]);
          return None;
        }
        txIn := TxIn(txIn.prev, list[idx].outs[txIn.prev.index].value, height, idx);
      }
      done := done + [txIn];
    }
    return Some(done);
  }

  /** The same transactions, up to the witness of their inputs. */
  ghost predicate SameTxs(a: seq<Tx>, b: seq<Tx>) {
    && |a| == |b|
    && forall i :: 0 <= i < |a| ==> a[i].hash == b[i].hash && a[i].outs == b[i].outs && SameSpends(a[i], b[i])
  }

  ghost predicate SameSpends(a: Tx, b: Tx) {
    |a.ins| == |b.ins| && forall k :: 0 <= k < |a.ins| ==> a.ins[k].prev == b.ins[k].prev
  }

  lemma ChainPassFits(chain: View, list: seq<Tx>, i: nat, k: nat, j: nat)
    requires Linked(chain, list) && 1 <= i < |list| && k < |list[i].ins| && j < |list|
    requires list[j].hash == list[i].ins[k].prev.hash
    ensures 1 <= j < i && Creates(list[j], CoinOf(list[i].ins[k].prev))
  {
    var c := CoinOf(list[i].ins[k].prev);
    assert Spends(list[i], c);
    assert Provided(chain, list, i, c) && InList(list, c.hash);
    var m :| 1 <= m < i && Creates(list[m], c);
    assert m == j;
  }

  /** After both passes the proof of an input is right exactly if the view has no entry that hides its source. So for a
      source in the block it is right exactly if the view has no entry with its hash. */
  lemma PassesProve(chain: View, height: nat, list: seq<Tx>, i: nat, k: nat, after: TxIn)
    requires Linked(chain, list) && Indexed(chain, height) && 1 <= i < |list| && k < |list[i].ins|
    requires LocalPass(height, list, ChainPass(chain, list[i]).ins[k], after)
    ensures after.prev == list[i].ins[k].prev
    ensures Proven(chain, height, list, i, after) <==> !Hidden(chain, CoinOf(after.prev))
    ensures InList(list, after.prev.hash) ==> (Proven(chain, height, list, i, after) <==> after.prev.hash !in chain)
  {
    var before := list[i].ins[k];
    var c := CoinOf(before.prev);
    assert Spends(list[i], c);
    if c.hash !in chain {
      ChainPassFits(chain, list, i, k, after.blockIndex);
    }
  }

  // ---- A transaction of a disapproved block that is mined again ----

  const CLEARED: View := map[7 := Entry(map[], 9, 1, Regular), 5 := Entry(map[0 := Output(60, false)], 3, 2, Regular)]
  const COINBASE := Tx(6, Regular, TreeRegular, [], [], 1, 0, 0, 0, 0)
  const AGAIN :=
    Tx(7, Regular, TreeRegular, [TxIn(OutPoint(5, 0, TreeRegular), 0, 0, 0)], [TxOut(50, false)], 1, 0, 0, 0, 0)
  const NEXT :=
    Tx(8, Regular, TreeRegular, [TxIn(OutPoint(7, 0, TreeRegular), 0, 0, 0)], [TxOut(40, false)], 1, 0, 0, 0, 0)

  /** Its entry is cleared in the view, so the passes give an input that spends it the value 0, and the old block for a
      place. */
  lemma MinedAgainIsNotProven()
    ensures var list, txIn := [COINBASE, AGAIN, NEXT], ChainPass(CLEARED, NEXT).ins[0];
      && Linked(CLEARED, list) && Indexed(CLEARED, 11) && Creates(AGAIN, CoinOf(NEXT.ins[0].prev))
      && LocalPass(11, list, txIn, txIn) && txIn == TxIn(OutPoint(7, 0, TreeRegular), 0, 9, 1)
      && !Proven(CLEARED, 11, list, 2, txIn)
  {
    var list := [COINBASE, AGAIN, NEXT];
    forall i, c | 1 <= i < |list| && Spends(list[i], c) ensures Provided(CLEARED, list, i, c) {
      if i == 1 {
        assert Unspent(CLEARED, Coin(5, 0));
      } else {
        assert c == Coin(7, 0) && list[1] == AGAIN;
      }
    }
  }

  /** Whether every input is on the chain or refers to a transaction of the list. */
  ghost predicate AllFound(chain: View, list: seq<Tx>) {
    forall i, k :: 1 <= i < |list| && 0 <= k < |list[i].ins| ==> Found(chain, list, list[i].ins[k])
  }

  ghost predicate Found(chain: View, list: seq<Tx>, txIn: TxIn) {
    txIn.prev.hash in chain || InList(list, txIn.prev.hash)
  }

  ghost predicate RightUnlessHidden(chain: View, height: nat, list: seq<Tx>, i: nat, txIn: TxIn)
    requires i <= |list|
  {
    Proven(chain, height, list, i, txIn) <==> !Hidden(chain, CoinOf(txIn.prev))
  }

  /** The second pass on one transaction. */
  method ProveTx(chain: View, height: nat, list: seq<Tx>, i: nat, tx: Tx) returns (res: Option<Tx>)
    requires Linked(chain, list) && Indexed(chain, height) && 1 <= i < |list| && tx == ChainPass(chain, list[i])
    ensures res.Some? <==> forall k :: 0 <= k < |list[i].ins| ==> Found(chain, list, list[i].ins[k])
    ensures res.Some? ==>
      res.value.hash == list[i].hash && res.value.outs == list[i].outs && SameSpends(res.value, list[i])
    ensures res.Some? ==>
      forall k :: 0 <= k < |res.value.ins| ==> RightUnlessHidden(chain, height, list, i, res.value.ins[k])
  {
    forall k, j | 0 <= k < |tx.ins| && tx.ins[k].blockIndex == NULL_BLOCK_INDEX
                  && 0 <= j < |list| && list[j].hash == tx.ins[k].prev.hash
      ensures tx.ins[k].prev.index < |list[j].outs|
    {
      ChainPassFits(chain, list, i, k, j);
    }
    var ins := FillLocal(height, list, tx);
    assert forall k :: 0 <= k < |tx.ins| ==> (Stuck(list, tx.ins[k]) <==> !Found(chain, list, list[i].ins[k]));
    if ins.None? {
      return None;
    }
    forall k | 0 <= k < |tx.ins|
      ensures RightUnlessHidden(chain, height, list, i, ins.value[k]) && ins.value[k].prev == list[i].ins[k].prev
    {
      PassesProve(chain, height, list, i, k, ins.value[k]);
    }
    res := Some(tx.(ins := ins.value));
  }

  /** The first pass: the proofs that the chain gives, unless the inputs of a transaction cannot be fetched. */
  method ChainPasses(cfg: Config, list: seq<Tx>) returns (res: Option<seq<Tx>>)
    ensures res.Some? <==> forall i :: 0 <= i < |list| ==> cfg.fetchable(list[i])
    ensures res.Some? ==>
      |res.value| == |list| && forall i :: 0 <= i < |list| ==> res.value[i] == ChainPass(cfg.rules.chain, list[i])
  {
    var passed := list;
    for i := 0 to |list|
      invariant |passed| == |list|
      invariant forall j :: 0 <= j < i ==> cfg.fetchable(list[j]) && passed[j] == ChainPass(cfg.rules.chain, list[j])
    {
      if !cfg.fetchable(list[i]) {
        return None;
      }
      passed := passed[i := ChainPass(cfg.rules.chain, list[i])];
    }
    return Some(passed);
  }

  /** Fills in the proofs of the whole list, in place. Given what can be fetched it fails exactly when an input is
      neither on the chain nor in the list; the proofs it leaves are right where nothing hides their sources. */
  method FillProofs(cfg: Config, list: seq<Tx>) returns (res: Result<seq<Tx>>)
    requires |list| > 0 && Linked(cfg.rules.chain, list) && Indexed(cfg.rules.chain, cfg.rules.height)
    ensures res == Err(FetchFailed) <==> exists i :: 0 <= i < |list| && !cfg.fetchable(list[i])
    ensures res == Err(FraudProofMissing) <==>
      (forall i :: 0 <= i < |list| ==> cfg.fetchable(list[i])) && !AllFound(cfg.rules.chain, list)
    ensures res.Ok? || res == Err(FetchFailed) || res == Err(FraudProofMissing)
    ensures res.Ok? ==> SameTxs(res.value, list) && res.value[0] == ChainPass(cfg.rules.chain, list[0])
    ensures res.Ok? ==> forall i, k :: 1 <= i < |list| && 0 <= k < |res.value[i].ins| ==>
      RightUnlessHidden(cfg.rules.chain, cfg.rules.height, list, i, res.value[i].ins[k])
  {
    var chain := cfg.rules.chain;
    var passed := ChainPasses(cfg, list);
    if passed.None? {
      return Err(FetchFailed);
    }
    var filled := passed.value;
    for i := 1 to |list|
      invariant |filled| == |list| && filled[0] == passed.value[0] && filled[i..] == passed.value[i..]
      invariant SameTxs(filled, list)
      invariant forall j, k :: 1 <= j < i && 0 <= k < |filled[j].ins| ==>
        RightUnlessHidden(chain, cfg.rules.height, list, j, filled[j].ins[k])
      invariant forall j, k :: 1 <= j < i && 0 <= k < |list[j].ins| ==> Found(chain, list, list[j].ins[k])
    {
      hide Linked, RightUnlessHidden, Found, SameSpends, ChainPass;
      var tx := ProveTx(chain, cfg.rules.height, list, i, filled[i]);
      if tx.None? {
        return Err(FraudProofMissing);
      }
      filled := filled[i := tx.value];
    }
    return Ok(filled);
  }

  // ---- Block one ----

  /** In block one the chain is not asked: an input without a place gets that of its source in the block, and any other
      keeps what it came with. */
  ghost predicate KeptOrInList(list: seq<Tx>, i: nat, before: TxIn, after: TxIn)
    requires i <= |list|
  {
    && after.prev == before.prev
    && if before.blockIndex == NULL_BLOCK_INDEX then ProvenInList(1, list, i, after) else after == before
  }

  ghost predicate AnyStuck(list: seq<Tx>) {
    exists i, k :: 1 <= i < |list| && 0 <= k < |list[i].ins| && Stuck(list, list[i].ins[k])
  }

  /** The second pass on one transaction of block one. */
  method ProveTxOfBlockOne(ghost chain: View, list: seq<Tx>, i: nat) returns (res: Option<Tx>)
    requires Linked(chain, list) && 1 <= i < |list|
    ensures res.None? <==> exists k :: 0 <= k < |list[i].ins| && Stuck(list, list[i].ins[k])
    ensures res.Some? ==>
      res.value.hash == list[i].hash && res.value.outs == list[i].outs && SameSpends(res.value, list[i])
    ensures res.Some? ==>
      forall k :: 0 <= k < |list[i].ins| ==> KeptOrInList(list, i, list[i].ins[k], res.value.ins[k])
  {
    var tx := list[i];
    forall k, j | 0 <= k < |tx.ins| && 0 <= j < |list| && list[j].hash == tx.ins[k].prev.hash
      ensures 1 <= j < i && Creates(list[j], CoinOf(tx.ins[k].prev))
    {
      ChainPassFits(chain, list, i, k, j);
    }
    var ins := FillLocal(1, list, tx);
    if ins.None? {
      return None;
    }
    res := Some(DeepTxIns(tx).(ins := ins.value));
  }

  /** Fills in the proofs of block one. It fails exactly when an input without a place has no source in the list. */
  method FillBlockOne(ghost chain: View, list: seq<Tx>) returns (res: Result<seq<Tx>>)
    requires |list| > 0 && Linked(chain, list)
    ensures res.Err? <==> AnyStuck(list)
    ensures res.Err? ==> res.error == FraudProofMissing
    ensures res.Ok? ==> SameTxs(res.value, list) && res.value[0] == list[0]
    ensures res.Ok? ==> forall i, k :: 1 <= i < |list| && 0 <= k < |list[i].ins| ==>
      KeptOrInList(list, i, list[i].ins[k], res.value[i].ins[k])
  {
    var filled := list;
    for i := 1 to |list|
      invariant |filled| == |list| && filled[0] == list[0] && filled[i..] == list[i..] && SameTxs(filled, list)
      invariant forall j, k :: 1 <= j < i && 0 <= k < |list[j].ins| ==>
        KeptOrInList(list, j, list[j].ins[k], filled[j].ins[k])
      invariant forall j, k :: 1 <= j < i && 0 <= k < |list[j].ins| ==> !Stuck(list, list[j].ins[k])
    {
      hide Linked, KeptOrInList, Stuck, SameSpends;
      var tx := ProveTxOfBlockOne(chain, list, i);
      if tx.None? {
        return Err(FraudProofMissing);
      }
      filled := filled[i := tx.value];
    }
    return Ok(filled);
  }
}
