/** Assembling a template from the chosen transactions: the stake tree, the verdict on the parent, the coinbase and
    the fees. */
module Template {
  import opened Chain
  import opened Selection

  const MAX_UINT16: nat := 0xffff
  const MAX_UINT8: nat := 0xff
  const BLOCK_VALID: bv16 := 1

  /** What assembly asks of the chain, the network parameters and the coinbase scripts. `topBlock` is the regular
      tree of the parent, if it can be read, `workSubsidy` and `taxSubsidy` depend on the number of voters, and the
      hash of the coinbase on what it pays. */
  datatype Config = Config(rules: Rules, stakeValidationHeight: nat, ticketsPerBlock: nat,
                           fetchable: Tx -> bool, topBlock: Option<seq<Hash>>,
                           coinbaseHash: seq<TxOut> -> Hash, workSubsidy: nat -> int, taxSubsidy: nat -> int,
                           blockOneLedger: seq<int>, scriptsOk: bool, coinbaseSigOps: Count)

  datatype Error = TopBlockMissing | CoinbaseFailed | FeeMissing | TooFewVoters | FetchFailed | FraudProofMissing
  datatype Result<+T> = Ok(value: T) | Err(error: Error)

  // ---- The stake tree ----

  /** The result of copying a transaction to edit its inputs: the copy is in no tree. */
  function DeepTxIns(tx: Tx): Tx {
    tx.(tree := TreeUnknown)
  }

  function ChainProof(chain: View, txIn: TxIn): TxIn
    requires txIn.prev.hash in chain
  {
    var entry := chain[txIn.prev.hash];
    txIn.(valueIn := AmountByIndex(entry, txIn.prev.index), blockHeight := entry.height, blockIndex := entry.index)
  }

  predicate InputsOnChain(cfg: Config, tx: Tx) {
    && cfg.fetchable(tx)
    && forall i :: FirstSpend(tx) <= i < |tx.ins| ==> tx.ins[i].prev.hash in cfg.rules.chain
  }

  /** A stake transaction with its fraud proofs, if all its inputs are on the chain. */
  function StakeCopy(cfg: Config, tx: Tx): Option<Tx> {
    if InputsOnChain(cfg, tx) then
      Some(DeepTxIns(tx).(ins := seq(|tx.ins|, i requires 0 <= i < |tx.ins| =>
        if i < FirstSpend(tx) then tx.ins[i].(blockHeight := 0, blockIndex := NULL_BLOCK_INDEX)
        else if tx.ins[i].prev.hash in cfg.rules.chain then ChainProof(cfg.rules.chain, tx.ins[i])
        else tx.ins[i])))
    else None
  }

  /** Takes what `take` accepts, in order, until `limit` of them are taken. */
  function Picked(txs: seq<Tx>, take: Tx -> Option<Tx>, limit: nat, taken: seq<Tx>): seq<Tx>
    decreases |txs|
  {
    if txs == [] then taken
    else
      var more := match take(txs[0]) case Some(t) => taken + [t] case None => taken;
      if |more| >= limit then more else Picked(txs[1..], take, limit, more)
  }

  method Collect(txs: seq<Tx>, take: Tx -> Option<Tx>, limit: nat) returns (taken: seq<Tx>)
    ensures taken == Picked(txs, take, limit, [])
  {
    taken := [];
    for i := 0 to |txs|
      invariant Picked(txs, take, limit, []) == Picked(txs[i..], take, limit, taken)
    {
      match take(txs[i]) {
        case Some(t) => taken := taken + [t];
        case None =>
      }
      if |taken| >= limit {
        return;
      }
      assert txs[i..][1..] == txs[i + 1..];
    }
  }

  function TakeVote(cfg: Config, tx: Tx): Option<Tx> {
    if tx.kind.Vote? then StakeCopy(cfg, tx) else None
  }

  /** Whether some input of `tx` refers to a transaction of the list. */
  predicate ContainsTxIns(txs: seq<Tx>, tx: Tx) {
    exists i, j :: 0 <= i < |txs| && 0 <= j < |tx.ins| && tx.ins[j].prev.hash == txs[i].hash
  }

  function TakeTicket(cfg: Config, txs: seq<Tx>, tx: Tx): Option<Tx> {
    if tx.tree.TreeStake? && tx.kind.Ticket? && !ContainsTxIns(txs, tx)
       && |tx.outs| > 0 && tx.outs[0].value >= cfg.rules.stakeDiff
    then StakeCopy(cfg, tx) else None
  }

  function TakeRevocation(cfg: Config, tx: Tx): Option<Tx> {
    if tx.tree.TreeStake? && tx.kind.Revocation? then StakeCopy(cfg, tx) else None
  }

  // ---- The verdict on the parent ----

  predicate SaysYes(vote: Tx) {
    vote.voteBits & BLOCK_VALID != 0
  }

  function YesVotes(votes: seq<Tx>): nat {
    if votes == [] then 0 else YesVotes(votes[..|votes| - 1]) + if SaysYes(votes[|votes| - 1]) then 1 else 0
  }

  lemma QuotientIsMajority(total: nat, yea: nat)
    requires 0 < yea <= total
    ensures total / yea <= 1 <==> 2 * yea > total
  {
    var q := total / yea;
    assert total == yea * q + total % yea;
    if q >= 2 {
      assert yea * q >= yea * 2;
    } else {
      assert q == 0 || q == 1;
    }
  }

  /** Tallies the votes with an integer quotient; before voting starts the parent stands. */
  method Tally(cfg: Config, votes: seq<Tx>) returns (approved: bool)
    ensures cfg.rules.height < cfg.stakeValidationHeight ==> approved
    ensures cfg.rules.height >= cfg.stakeValidationHeight ==> (approved <==> 2 * YesVotes(votes) > |votes|)
  {
    if cfg.rules.height < cfg.stakeValidationHeight {
      return true;
    }
    hide SaysYes;
    var yea, total := 0, 0;
    for i := 0 to |votes|
      invariant total == i && yea == YesVotes(votes[..i]) <= i
    {
      assert votes[..i + 1][..i] == votes[..i];
      if SaysYes(votes[i]) {
        yea := yea + 1;
      }
      total := total + 1;
    }
    assert votes[..|votes|] == votes;
    if yea == 0 {
      return false;
    }
    QuotientIsMajority(total, yea);
    approved := total / yea <= 1;
  }

  predicate UsesTop(top: seq<Hash>, tx: Tx) {
    exists i :: 0 <= i < |tx.ins| && tx.ins[i].prev.hash in top
  }

  /** What is left when the parent's regular tree is voted out: copies, less what spends from that tree. */
  function Pruned(txs: seq<Tx>, top: seq<Hash>): seq<Tx> {
    if txs == [] then []
    else
      var rest, tx := Pruned(txs[..|txs| - 1], top), txs[|txs| - 1];
      if tx.tree.TreeRegular? && UsesTop(top, tx) then rest else rest + [DeepTxIns(tx)]
  }

  method Prune(txs: seq<Tx>, top: seq<Hash>) returns (kept: seq<Tx>)
    ensures kept == Pruned(txs, top)
  {
    kept := [];
    for i := 0 to |txs|
      invariant kept == Pruned(txs[..i], top)
    {
      assert txs[..i + 1][..i] == txs[..i];
      var valid := !txs[i].tree.TreeRegular? || !UsesTop(top, txs[i]);
      if valid {
        kept := kept + [DeepTxIns(txs[i])];
      }
    }
    assert txs[..|txs|] == txs;
  }

  // ---- The regular tree ----

  function RegularOf(txs: seq<Tx>): seq<Tx> {
    if txs == [] then []
    else RegularOf(txs[..|txs| - 1]) + if txs[|txs| - 1].tree.TreeRegular? then [txs[|txs| - 1]] else []
  }

  method CollectRegular(coinbase: Tx, txs: seq<Tx>) returns (regular: seq<Tx>)
    ensures regular == [coinbase] + RegularOf(txs)
  {
    regular := [coinbase];
    for i := 0 to |txs|
      invariant regular == [coinbase] + RegularOf(txs[..i])
    {
      assert txs[..i + 1][..i] == txs[..i];
      if txs[i].tree.TreeRegular? {
        regular := regular + [txs[i]];
      }
    }
    assert txs[..|txs|] == txs;
  }

  function Sum(amounts: seq<int>): int {
    if amounts == [] then 0 else Sum(amounts[..|amounts| - 1]) + amounts[|amounts| - 1]
  }

  /** Whether the coinbase pays the ledger of block one. */
  predicate OnLedger(cfg: Config) {
    cfg.rules.height == 1 && cfg.blockOneLedger != []
  }

  /** Block one may pay a ledger; every other coinbase pays the tax, nothing for the extra nonce, and the subsidy. */
  function CreateCoinbase(cfg: Config, voters: nat): Option<Tx> {
    if !cfg.scriptsOk then None
    else
      var valueIn :=
        if OnLedger(cfg) then Wrap64(Sum(cfg.blockOneLedger)) else cfg.workSubsidy(voters) + cfg.taxSubsidy(voters);
      var outs := if OnLedger(cfg)
        then seq(|cfg.blockOneLedger|, i requires 0 <= i < |cfg.blockOneLedger| => TxOut(cfg.blockOneLedger[i], false))
        else [TxOut(cfg.taxSubsidy(voters), false), TxOut(0, true), TxOut(cfg.workSubsidy(voters), false)];
      Some(Tx(cfg.coinbaseHash(outs), Regular, TreeRegular,
              [TxIn(OutPoint(0, NULL_BLOCK_INDEX, TreeRegular), valueIn, 0, NULL_BLOCK_INDEX)], outs,
              0, cfg.coinbaseSigOps, 0, 0, 0))
  }

  /** The coinbase once the fees are added to its last output. A copy of it takes its hash again. */
  function Paid(cfg: Config, coinbase: Tx, scaled: int): Tx
    requires |coinbase.outs| == 3
  {
    var last := coinbase.outs[2];
    var outs := coinbase.outs[2 := last.(value := last.value + scaled)];
    coinbase.(outs := outs, hash := cfg.coinbaseHash(outs))
  }

  // ---- Fees ----

  function FeeOf(fees: map<Hash, int>, tx: Tx): int {
    if tx.hash in fees then fees[tx.hash] else 0
  }

  function FeeSum(txs: seq<Tx>, fees: map<Hash, int>): int {
    if txs == [] then 0 else FeeSum(txs[..|txs| - 1], fees) + FeeOf(fees, txs[|txs| - 1])
  }

  /** Signed division as the machine does it, toward zero. */
  function TruncDiv(a: int, b: int): int
    requires b > 0
  {
    if a >= 0 then a / b else -(-a / b)
  }

  function ScaledFees(cfg: Config, total: int, voters: nat): int
    requires cfg.ticketsPerBlock > 0
  {
    TruncDiv(Wrap64(Wrap64(total) * voters), cfg.ticketsPerBlock)
  }

  lemma WrapSteps(x: int, y: int)
    ensures Wrap64(Wrap64(x) + y) == Wrap64(x + y)
  {
    var k := (x + TWO63) / TWO64;
    assert Wrap64(x) == x - TWO64 * k;
    assert (x + y - TWO64 * k) % TWO64 == (x + y) % TWO64;
  }

  /** Adds up the fees of both trees, with the placeholder in front; fails if a transaction has none on record. */
  method TotalFees(trees: seq<Tx>, fees: map<Hash, int>) returns (total: int, list: seq<int>, ok: bool)
    ensures ok <==> forall i :: 0 <= i < |trees| ==> trees[i].hash in fees
    ensures ok ==> total == Wrap64(FeeSum(trees, fees)) && |list| == |trees| + 1 && list[0] == -1
    ensures ok ==> forall i :: 0 <= i < |trees| ==> list[i + 1] == FeeOf(fees, trees[i])
  {
    total, list, ok := 0, [-1], true;
    for i := 0 to |trees|
      invariant total == Wrap64(FeeSum(trees[..i], fees)) && |list| == i + 1 && list[0] == -1
      invariant forall j :: 0 <= j < i ==> trees[j].hash in fees && list[j + 1] == FeeOf(fees, trees[j])
      invariant ok
    {
      if trees[i].hash !in fees {
        return total, list, false;
      }
      assert trees[..i + 1][..i] == trees[..i];
      WrapSteps(FeeSum(trees[..i], fees), fees[trees[i].hash]);
      total := Wrap64(total + fees[trees[i].hash]);
      list := list + [fees[trees[i].hash]];
    }
    assert trees[..|trees|] == trees;
  }
}
