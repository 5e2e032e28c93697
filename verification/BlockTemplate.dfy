/** Template creation from end to end: pool and chain in, block out. */
module BlockTemplate {
  import opened Chain
  import opened Ledger
  import opened Selection
  import opened SelectionProof
  import opened SelectionAnswer
  import opened Template
  import opened FraudProof
  import opened TemplateBuilder
  import opened TemplateTrees
  import TemplateSelector

  /** The block and the record of fees that is kept beside it. */
  datatype BlockTemplate = BlockTemplate(regular: seq<Tx>, stake: seq<Tx>, approved: bool, voters: nat, freshStake: nat,
                                         revocations: nat, fees: seq<int>)

  function OutSum(outs: seq<TxOut>): int {
    if outs == [] then 0 else OutSum(outs[..|outs| - 1]) + outs[|outs| - 1].value
  }

  // ---- Fees ----

  /** Without overflow the coinbase collects the floor of the voters' share of the fees, never more than the fees
      when there are no more voters than tickets, and nothing at all without voters: the scaling applies before
      voting starts too. */
  lemma ScaledFeesExact(cfg: Config, total: int, voters: nat)
    requires cfg.ticketsPerBlock > 0 && 0 <= total < TWO63 && total * voters < TWO63
    ensures ScaledFees(cfg, total, voters) == total * voters / cfg.ticketsPerBlock
    ensures voters <= cfg.ticketsPerBlock ==> 0 <= ScaledFees(cfg, total, voters) <= total
    ensures voters == 0 ==> ScaledFees(cfg, total, voters) == 0
  {
    hide Wrap64, TruncDiv;
    MulMono(total, 0, voters);
    WrapNear(total);
    WrapNear(total * voters);
    TruncOfPositive(total * voters, cfg.ticketsPerBlock);
    if voters <= cfg.ticketsPerBlock {
      MulMono(total, voters, cfg.ticketsPerBlock);
      DivWithin(total * voters, total, cfg.ticketsPerBlock);
    }
    if voters == 0 {
      DivWithin(0, 0, cfg.ticketsPerBlock);
    }
  }

  lemma TruncOfPositive(x: int, d: nat)
    requires x >= 0 && d > 0
    ensures TruncDiv(x, d) == x / d
  {
  }

  lemma MulMono(a: int, b: int, c: int)
    requires 0 <= a && 0 <= b <= c
    ensures 0 <= a * b <= a * c
  {
    assert a * c == a * b + a * (c - b);
  }

  lemma DivWithin(x: int, a: int, d: int)
    requires d > 0 && 0 <= x <= a * d
    ensures 0 <= x / d <= a
  {
    assert x == d * (x / d) + x % d;
    if x / d > a {
      MulMono(d, a + 1, x / d);
      assert false;
    }
  }

  /** The coinbase with the fees added, which block one's does not get. */
  function Raised(cfg: Config, coinbase: Tx, scaled: int): Tx
    requires cfg.rules.height > 1 ==> |coinbase.outs| == 3
  {
    if cfg.rules.height > 1 then Paid(cfg, coinbase, scaled) else coinbase
  }

  /** A coinbase pays the tax first, nothing for the extra nonce, and the subsidy last, above block one with the fees.
      Its input is the two subsidies. Block one's ledger gets what it says, and the input is the sum in 64 bits. */
  ghost predicate PaysOut(cfg: Config, tx: Tx, voters: nat, extra: int) {
    && |tx.ins| == 1 && tx.ins[0].prev.hash == 0 && tx.hash == cfg.coinbaseHash(tx.outs)
    && if cfg.rules.height == 1 && cfg.blockOneLedger != [] then
         && |tx.outs| == |cfg.blockOneLedger| && tx.ins[0].valueIn == Wrap64(OutSum(tx.outs))
         && forall i :: 0 <= i < |tx.outs| ==> tx.outs[i] == TxOut(cfg.blockOneLedger[i], false)
       else
         && |tx.outs| == 3 && tx.outs[0] == TxOut(cfg.taxSubsidy(voters), false) && tx.outs[1] == TxOut(0, true)
         && tx.outs[2] == TxOut(cfg.workSubsidy(voters) + (if cfg.rules.height > 1 then extra else 0), false)
         && tx.ins[0].valueIn == cfg.workSubsidy(voters) + cfg.taxSubsidy(voters)
  }

  lemma CoinbasePays(cfg: Config, voters: nat, extra: int)
    requires cfg.rules.height > 0 && CreateCoinbase(cfg, voters).Some?
    ensures var tx := CreateCoinbase(cfg, voters).value;
      && (cfg.rules.height > 1 ==> |tx.outs| == 3) && tx.hash == cfg.coinbaseHash(tx.outs)
      && PaysOut(cfg, Raised(cfg, tx, extra), voters, extra)
  {
    if OnLedger(cfg) {
      SumOfValues(CreateCoinbase(cfg, voters).value.outs, cfg.blockOneLedger);
    }
  }

  /** Nothing is lost or made: what goes out is what comes in and, above block one, the fees. */
  lemma PaidIsInput(cfg: Config, tx: Tx, voters: nat, extra: int)
    requires PaysOut(cfg, tx, voters, extra) && !OnLedger(cfg)
    ensures OutSum(tx.outs) == tx.ins[0].valueIn + if cfg.rules.height > 1 then extra else 0
  {
    OutSumOfThree(tx.outs[0], tx.outs[1], tx.outs[2]);
    assert tx.outs == [tx.outs[0], tx.outs[1], tx.outs[2]];
  }

  lemma {:induction false} SumOfValues(outs: seq<TxOut>, amounts: seq<int>)
    requires |outs| == |amounts| && forall i :: 0 <= i < |outs| ==> outs[i].value == amounts[i]
    ensures OutSum(outs) == Sum(amounts)
  {
    if outs != [] {
      SumOfValues(outs[..|outs| - 1], amounts[..|amounts| - 1]);
    }
  }

  lemma OutSumOfThree(a: TxOut, b: TxOut, c: TxOut)
    ensures OutSum([a, b, c]) == a.value + b.value + c.value
  {
    assert OutSum([a]) == a.value;
    assert [a, b][..1] == [a] && OutSum([a, b]) == a.value + b.value;
    assert [a, b, c][..2] == [a, b];
  }

  // ---- The result ----

  /** The hash of a coinbase is not that of any other transaction. */
  ghost predicate Ready(cfg: Config, b: Block, confirmed: set<Hash>) {
    && cfg.rules.height > 0 && cfg.ticketsPerBlock > 0
    && Indexed(cfg.rules.chain, cfg.rules.height) && 0 !in cfg.rules.chain
    && (forall outs :: cfg.coinbaseHash(outs) !in confirmed && !HasHash(b.txs, cfg.coinbaseHash(outs)))
    && Sound(cfg.rules.chain, confirmed, b.txs, b.view) && InOwnTree(b.txs)
    && forall j :: 0 <= j < |b.txs| ==> b.txs[j].hash in b.fees
  }

  function Top(cfg: Config): seq<Hash> {
    if cfg.topBlock.Some? then cfg.topBlock.value else []
  }

  function Kept(cfg: Config, txs: seq<Tx>, approved: bool): seq<Tx> {
    if approved then txs else Pruned(txs, Top(cfg))
  }

  /** The votes, then the fresh tickets, then the revocations. */
  function StakeTree(cfg: Config, txs: seq<Tx>, approved: bool): seq<Tx> {
    Votes(cfg, txs) + Tickets(cfg, Kept(cfg, txs, approved)) + Revocations(cfg, Kept(cfg, txs, approved))
  }

  /** The parent is approved exactly when more than half of the votes do so, once there is voting. */
  predicate Approved(cfg: Config, txs: seq<Tx>) {
    cfg.rules.height < cfg.stakeValidationHeight || 2 * YesVotes(Votes(cfg, txs)) > |Votes(cfg, txs)|
  }

  /** The chosen transactions of both trees, by which the fees are counted. */
  function FeePayers(cfg: Config, txs: seq<Tx>, approved: bool): seq<Tx> {
    RegularOf(Kept(cfg, txs, approved)) + StakeTree(cfg, txs, approved)
  }

  /** What the coinbase collects. */
  function Collected(cfg: Config, b: Block, approved: bool): int
    requires cfg.ticketsPerBlock > 0
  {
    ScaledFees(cfg, FeeSum(FeePayers(cfg, b.txs, approved), b.fees), |Votes(cfg, b.txs)|)
  }

  ghost predicate TreesRight(cfg: Config, b: Block, t: BlockTemplate) {
    var kept := Kept(cfg, b.txs, t.approved);
    && t.stake == StakeTree(cfg, b.txs, t.approved) && t.voters == |Votes(cfg, b.txs)|
    && t.freshStake == |Tickets(cfg, kept)| && t.revocations == |Revocations(cfg, kept)|
    && |t.regular| == 1 + |RegularOf(kept)| && SameTxs(t.regular[1..], RegularOf(kept))
    && t.regular[0].hash == cfg.coinbaseHash(t.regular[0].outs)
  }

  /** The coinbase pays out its input and the scaled fees of both trees; the fee list has the negated scaled fees in
      front, or in block one a placeholder, then the fee of the coinbase, which is zero, and then those of each
      transaction of both trees, all of them one place late. */
  ghost predicate FeesRight(cfg: Config, b: Block, t: BlockTemplate)
    requires cfg.ticketsPerBlock > 0
  {
    && |t.regular| > 0
    && var payers := t.regular[1..] + t.stake;
       var scaled := ScaledFees(cfg, FeeSum(payers, b.fees), t.voters);
       && PaysOut(cfg, t.regular[0], t.voters, scaled) && |t.fees| == |payers| + 2
       && t.fees[0] == (if cfg.rules.height > 1 then -scaled else -1) && t.fees[1] == 0
       && forall i :: 0 <= i < |payers| ==> payers[i].hash in b.fees && t.fees[i + 2] == b.fees[payers[i].hash]
  }

  /** Each input of a regular transaction carries the amount and place of the output that it spends, exactly where no
      entry of the view hides the source. In block one it does if it came without a place, and else is as it came. */
  ghost predicate ProofsRight(cfg: Config, b: Block, t: BlockTemplate) {
    forall i, k :: 1 <= i < |t.regular| && 0 <= k < |t.regular[i].ins| ==>
      if cfg.rules.height > 1 then
        RightUnlessHidden(cfg.rules.chain, cfg.rules.height, t.regular, i, t.regular[i].ins[k])
      else
        var given := RegularOf(Kept(cfg, b.txs, t.approved));
        && |given| == |t.regular| - 1 && k < |given[i - 1].ins|
        && KeptOrInList(t.regular, i, given[i - 1].ins[k], t.regular[i].ins[k])
  }

  /** And so does each input of a stake transaction but a vote's stakebase, by its chain entry. */
  ghost predicate StakeProofsRight(cfg: Config, t: BlockTemplate) {
    forall tx :: tx in t.stake ==> ProvenOnChain(cfg, tx)
  }

  lemma StakeTreeProven(cfg: Config, b: Block, t: BlockTemplate)
    requires TreesRight(cfg, b, t)
    ensures StakeProofsRight(cfg, t)
  {
    StakeProven(cfg, b.txs);
    StakeProven(cfg, Kept(cfg, b.txs, t.approved));
    hide Votes, Tickets, Revocations, Kept, ProvenOnChain;
  }

  // ---- Lemmas for the assembly ----

  lemma {:induction false} FeeSumSame(a: seq<Tx>, b: seq<Tx>, fees: map<Hash, int>)
    requires |a| == |b| && forall i :: 0 <= i < |a| ==> a[i].hash == b[i].hash
    ensures FeeSum(a, fees) == FeeSum(b, fees)
  {
    if a != [] {
      FeeSumSame(a[..|a| - 1], b[..|b| - 1], fees);
    }
  }

  /** The coinbase adds nothing to the fees. */
  lemma {:induction false} FeeSumSkips(coinbase: Tx, rest: seq<Tx>, fees: map<Hash, int>)
    requires forall i :: 0 <= i < |rest| ==> rest[i].hash != coinbase.hash
    ensures FeeSum([coinbase] + rest, fees[coinbase.hash := 0]) == FeeSum(rest, fees)
  {
    var all := [coinbase] + rest;
    if rest != [] {
      FeeSumSkips(coinbase, rest[..|rest| - 1], fees);
      assert all[..|all| - 1] == [coinbase] + rest[..|rest| - 1];
    } else {
      assert all[..0] == [];
    }
  }

  lemma StakeTreeHasFees(cfg: Config, b: Block, approved: bool)
    requires forall j :: 0 <= j < |b.txs| ==> b.txs[j].hash in b.fees
    ensures forall t :: t in StakeTree(cfg, b.txs, approved) ==> t.hash in b.fees
  {
    var kept := Kept(cfg, b.txs, approved);
    PickedAreCopies(b.txs, VoteTaker(cfg), MAX_UINT16, [], b.fees.Keys);
    if approved {
      PickedAreCopies(kept, TicketTaker(cfg, kept), cfg.rules.maxFreshStake, [], b.fees.Keys);
      PickedAreCopies(kept, RevocationTaker(cfg), MAX_UINT8, [], b.fees.Keys);
    } else {
      DisapprovalKeepsOnlyVotes(cfg, b.txs, Top(cfg));
    }
  }

  lemma RegularHasFees(cfg: Config, b: Block, approved: bool)
    requires forall j :: 0 <= j < |b.txs| ==> b.txs[j].hash in b.fees
    ensures var reg := RegularOf(Kept(cfg, b.txs, approved)); forall i :: 0 <= i < |reg| ==> reg[i].hash in b.fees
  {
    if approved {
      forall i | 0 <= i < |RegularOf(b.txs)| ensures RegularOf(b.txs)[i].hash in b.fees {
        var m := RegularAt(b.txs, i);
      }
    } else {
      DisapprovalKeepsOnlyVotes(cfg, b.txs, Top(cfg));
    }
  }

  lemma KeptLinked(cfg: Config, b: Block, confirmed: set<Hash>, approved: bool, coinbase: Tx)
    requires Ready(cfg, b, confirmed) && coinbase.hash == cfg.coinbaseHash(coinbase.outs)
    ensures Linked(cfg.rules.chain, [coinbase] + RegularOf(Kept(cfg, b.txs, approved)))
  {
    if approved {
      RegularLinked(cfg.rules.chain, confirmed, b.txs, b.view, coinbase);
    } else {
      DisapprovalKeepsOnlyVotes(cfg, b.txs, Top(cfg));
    }
  }

  lemma ProvenInCopy(chain: View, height: nat, list: seq<Tx>, copy: seq<Tx>, i: nat, txIn: TxIn)
    requires SameTxs(copy, list) && i <= |list| && RightUnlessHidden(chain, height, list, i, txIn)
    ensures RightUnlessHidden(chain, height, copy, i, txIn)
  {
  }

  /** What filling in the proofs makes of the list, by the two methods that do it. */
  ghost predicate Filled(cfg: Config, list: seq<Tx>, filled: seq<Tx>) {
    && |list| > 0 && SameTxs(filled, list)
    && if cfg.rules.height > 1 then
         && filled[0] == ChainPass(cfg.rules.chain, list[0])
         && forall i, k :: 1 <= i < |list| && 0 <= k < |filled[i].ins| ==>
              RightUnlessHidden(cfg.rules.chain, cfg.rules.height, list, i, filled[i].ins[k])
       else
         && filled[0] == list[0]
         && forall i, k :: 1 <= i < |list| && 0 <= k < |list[i].ins| ==>
              KeptOrInList(list, i, list[i].ins[k], filled[i].ins[k])
  }

  /** Filling in the proofs leaves the fees and the trees as they were. */
  lemma AssembledRight(cfg: Config, b: Block, list: seq<Tx>, t: BlockTemplate)
    requires cfg.ticketsPerBlock > 0 && Filled(cfg, list, t.regular) && 0 !in cfg.rules.chain
    requires FeesRight(cfg, b, t.(regular := list)) && TreesRight(cfg, b, t.(regular := list))
    ensures FeesRight(cfg, b, t) && TreesRight(cfg, b, t)
  {
    hide OutSum, ScaledFees, FeeSum, StakeTree, RegularOf, Kept, Votes, Tickets, Revocations, SameSpends,
         RightUnlessHidden, KeptOrInList;
    FeeSumSame(t.regular[1..] + t.stake, list[1..] + t.stake, b.fees);
    SameTxsTail(t.regular, list, RegularOf(Kept(cfg, b.txs, t.approved)));
    assert PaysOut(cfg, t.regular[0], t.voters, ScaledFees(cfg, FeeSum(list[1..] + t.stake, b.fees), t.voters));
  }

  /** And the proofs are right. */
  lemma ProvenRight(cfg: Config, b: Block, list: seq<Tx>, t: BlockTemplate)
    requires Filled(cfg, list, t.regular) && list[1..] == RegularOf(Kept(cfg, b.txs, t.approved))
    ensures ProofsRight(cfg, b, t)
  {
    hide RegularOf, Kept, RightUnlessHidden, KeptOrInList, ChainPass;
    forall i, k | 1 <= i < |t.regular| && 0 <= k < |t.regular[i].ins|
      ensures cfg.rules.height > 1 ==>
        RightUnlessHidden(cfg.rules.chain, cfg.rules.height, t.regular, i, t.regular[i].ins[k])
      ensures cfg.rules.height <= 1 ==>
        k < |list[i].ins| && KeptOrInList(t.regular, i, list[i].ins[k], t.regular[i].ins[k])
    {
      if cfg.rules.height > 1 {
        ProvenInCopy(cfg.rules.chain, cfg.rules.height, list, t.regular, i, t.regular[i].ins[k]);
      } else {
        InListInCopy(list, t.regular, i, list[i].ins[k], t.regular[i].ins[k]);
      }
    }
  }

  lemma InListInCopy(list: seq<Tx>, copy: seq<Tx>, i: nat, before: TxIn, after: TxIn)
    requires SameTxs(copy, list) && i <= |list| && KeptOrInList(list, i, before, after)
    ensures KeptOrInList(copy, i, before, after)
  {
  }

  lemma SameTxsTail(a: seq<Tx>, b: seq<Tx>, c: seq<Tx>)
    requires SameTxs(a, b) && |b| > 0 && SameTxs(b[1..], c)
    ensures SameTxs(a[1..], c)
  {
  }

  // ---- The assembly ----

  method CollectVotes(cfg: Config, txs: seq<Tx>) returns (votes: seq<Tx>)
    ensures votes == Votes(cfg, txs)
  {
    votes := [];
    if cfg.rules.height >= cfg.stakeValidationHeight {
      votes := Collect(txs, VoteTaker(cfg), MAX_UINT16);
    }
  }

  method KeepForVerdict(cfg: Config, txs: seq<Tx>, approved: bool) returns (kept: seq<Tx>)
    ensures kept == Kept(cfg, txs, approved)
  {
    kept := txs;
    if !approved {
      kept := Prune(txs, Top(cfg));
    }
  }

  method CollectOthers(cfg: Config, kept: seq<Tx>) returns (tickets: seq<Tx>, revocations: seq<Tx>)
    ensures tickets == Tickets(cfg, kept) && revocations == Revocations(cfg, kept)
  {
    revocations := [];
    tickets := Collect(kept, TicketTaker(cfg, kept), cfg.rules.maxFreshStake);
    if cfg.rules.height >= cfg.stakeValidationHeight {
      revocations := Collect(kept, RevocationTaker(cfg), MAX_UINT8);
    }
  }

  /** Adds the scaled fees to the coinbase and lists the fees. Every transaction has a fee on record. */
  method PayFees(cfg: Config, b: Block, approved: bool, coinbase: Tx, regular: seq<Tx>, stake: seq<Tx>, voters: nat)
    returns (paid: Tx, list: seq<int>)
    requires cfg.rules.height > 0 && cfg.ticketsPerBlock > 0 && CreateCoinbase(cfg, voters) == Some(coinbase)
    requires regular == [coinbase] + RegularOf(Kept(cfg, b.txs, approved)) && stake == StakeTree(cfg, b.txs, approved)
    requires voters == |Votes(cfg, b.txs)| && coinbase.hash !in b.fees
    requires cfg.rules.height > 1 ==> |coinbase.outs| == 3
    requires forall j :: 0 <= j < |b.txs| ==> b.txs[j].hash in b.fees
    ensures paid == Raised(cfg, coinbase, Collected(cfg, b, approved))
    ensures FeesRight(cfg, b, BlockTemplate([paid] + regular[1..], stake, approved, voters, 0, 0, list))
  {
    hide StakeTree, Kept, CreateCoinbase, Wrap64, TruncDiv, FeeSum, OutSum, RegularOf, Votes, PaysOut, Paid;
    StakeTreeHasFees(cfg, b, approved);
    RegularHasFees(cfg, b, approved);
    ghost var payers := FeePayers(cfg, b.txs, approved);
    assert regular + stake == [coinbase] + payers && regular[1..] + stake == payers;
    assert forall i :: 0 <= i < |payers| ==> payers[i].hash in b.fees;
    FeeSumSkips(coinbase, payers, b.fees);
    var total, fs, ok := TotalFees(regular + stake, b.fees[coinbase.hash := 0]);
    var scaled := TruncDiv(Wrap64(total * voters), cfg.ticketsPerBlock);
    CoinbasePays(cfg, voters, scaled);
    paid, list := coinbase, fs;
    if cfg.rules.height > 1 {
      paid := Paid(cfg, coinbase, scaled);
      list := fs[0 := -scaled];
    }
    assert list == fs[0 := list[0]];
    FeesListed(b.fees, coinbase, payers, fs, list, list[0]);
  }

  lemma FeesListed(fees: map<Hash, int>, coinbase: Tx, payers: seq<Tx>, fs: seq<int>, list: seq<int>, first: int)
    requires coinbase.hash !in fees && forall i :: 0 <= i < |payers| ==> payers[i].hash in fees
    requires |fs| == |payers| + 2 && list == fs[0 := first]
    requires forall i :: 0 <= i < |payers| + 1 ==>
      fs[i + 1] == FeeOf(fees[coinbase.hash := 0], ([coinbase] + payers)[i])
    ensures |list| == |payers| + 2 && list[0] == first && list[1] == 0
    ensures forall i :: 0 <= i < |payers| ==> list[i + 2] == fees[payers[i].hash]
  {
    assert ([coinbase] + payers)[0] == coinbase && fs[0 + 1] == 0;
    forall i | 0 <= i < |payers| ensures list[i + 2] == fees[payers[i].hash] {
      assert ([coinbase] + payers)[i + 1] == payers[i];
    }
  }

  /** The regular tree before the proofs are filled in. */
  function RegularTree(cfg: Config, b: Block): seq<Tx>
    requires cfg.rules.height > 0 && cfg.ticketsPerBlock > 0 && CreateCoinbase(cfg, |Votes(cfg, b.txs)|).Some?
  {
    var approved := Approved(cfg, b.txs);
    var coinbase := CreateCoinbase(cfg, |Votes(cfg, b.txs)|).value;
    [Raised(cfg, coinbase, Collected(cfg, b, approved))] + RegularOf(Kept(cfg, b.txs, approved))
  }

  /** What keeps the proofs from being filled in. In block one nothing is fetched. */
  ghost function FillError(cfg: Config, list: seq<Tx>): Option<Error> {
    if cfg.rules.height > 1 then
      if exists i :: 0 <= i < |list| && !cfg.fetchable(list[i]) then Some(FetchFailed)
      else if !AllFound(cfg.rules.chain, list) then Some(FraudProofMissing)
      else None
    else if AnyStuck(list) then Some(FraudProofMissing)
    else None
  }

  method Fill(cfg: Config, list: seq<Tx>) returns (res: Result<seq<Tx>>)
    requires |list| > 0 && Linked(cfg.rules.chain, list) && Indexed(cfg.rules.chain, cfg.rules.height)
    ensures res.Err? <==> FillError(cfg, list).Some?
    ensures res.Err? ==> FillError(cfg, list) == Some(res.error) && res.error != FeeMissing
    ensures res.Ok? ==> Filled(cfg, list, res.value)
  {
    hide Linked, Indexed, ChainPass, RightUnlessHidden, KeptOrInList, AllFound, AnyStuck, SameTxs;
    if cfg.rules.height > 1 {
      res := FillProofs(cfg, list);
    } else {
      res := FillBlockOne(cfg.rules.chain, list);
    }
  }

  /** What keeps a template from being made, the first that applies. */
  ghost function ErrorOf(cfg: Config, b: Block): Option<Error>
    requires cfg.rules.height > 0 && cfg.ticketsPerBlock > 0
  {
    var voters := |Votes(cfg, b.txs)|;
    if !Approved(cfg, b.txs) && cfg.topBlock.None? then Some(TopBlockMissing)
    else if CreateCoinbase(cfg, voters).None? then Some(CoinbaseFailed)
    else if cfg.rules.height >= cfg.stakeValidationHeight && voters < cfg.ticketsPerBlock / 2 + 1 then
      Some(TooFewVoters)
    else FillError(cfg, RegularTree(cfg, b))
  }

  lemma CoinbaseIsNew(cfg: Config, b: Block, confirmed: set<Hash>, s: set<Hash>, outs: seq<TxOut>)
    requires Ready(cfg, b, confirmed) && forall h :: h in s ==> HasHash(b.txs, h)
    ensures cfg.coinbaseHash(outs) !in s
  {
  }

  /** Everything after the selection loop. It fails exactly with the first error that applies; there is always a fee on
      record. Otherwise the verdict, the trees and the fees are right, and so are the proofs of all inputs whose sources
      nothing hides. */
  method Assemble(cfg: Config, b: Block, ghost confirmed: set<Hash>) returns (res: Result<BlockTemplate>)
    requires Ready(cfg, b, confirmed) && forall h :: h in b.fees ==> HasHash(b.txs, h)
    ensures res.Err? <==> ErrorOf(cfg, b).Some?
    ensures res.Err? ==> ErrorOf(cfg, b) == Some(res.error) && res.error != FeeMissing
    ensures res.Ok? ==> (res.value.approved <==> Approved(cfg, b.txs)) && TreesRight(cfg, b, res.value)
    ensures res.Ok? ==> FeesRight(cfg, b, res.value) && ProofsRight(cfg, b, res.value)
  {
    hide Votes, Tickets, Revocations, Kept, RegularOf, YesVotes, CreateCoinbase, Sound, Indexed, InOwnTree, Linked,
      FeesRight, ProofsRight, TreesRight, FillError, Filled, Collected, Raised, PaysOut;
    var votes := CollectVotes(cfg, b.txs);
    var approved := Tally(cfg, votes);
    if !approved && cfg.topBlock.None? {
      return Err(TopBlockMissing);
    }
    var kept := KeepForVerdict(cfg, b.txs, approved);
    var tickets, revocations := CollectOthers(cfg, kept);
    var made := CreateCoinbase(cfg, |votes|);
    if made.None? {
      return Err(CoinbaseFailed);
    }
    var coinbase := made.value;
    CoinbasePays(cfg, |votes|, 0);
    CoinbaseIsNew(cfg, b, confirmed, b.fees.Keys, coinbase.outs);
    var stake := votes + tickets + revocations;
    var regular := CollectRegular(coinbase, kept);
    var paid, fees := PayFees(cfg, b, approved, coinbase, regular, stake, |votes|);
    if cfg.rules.height >= cfg.stakeValidationHeight && |votes| < cfg.ticketsPerBlock / 2 + 1 {
      return Err(TooFewVoters);
    }
    var list := [paid] + regular[1..];
    assert regular[1..] == RegularOf(kept) && list == RegularTree(cfg, b);
    assert paid.hash == cfg.coinbaseHash(paid.outs) by { RaisedIsRehashed(cfg, coinbase, Collected(cfg, b, approved)); }
    KeptLinked(cfg, b, confirmed, approved, paid);
    var filled := Fill(cfg, list);
    if filled.Err? {
      return Err(filled.error);
    }
    res := Ok(BlockTemplate(filled.value, stake, approved, |votes|, |tickets|, |revocations|, fees));
    FeesRightFrame(cfg, b, BlockTemplate(list, stake, approved, |votes|, 0, 0, fees), res.value.(regular := list));
    DrawnRight(cfg, b, res.value.(regular := list));
    AssembledRight(cfg, b, list, res.value);
    ProvenRight(cfg, b, list, res.value);
  }

  lemma RaisedIsRehashed(cfg: Config, coinbase: Tx, scaled: int)
    requires (cfg.rules.height > 1 ==> |coinbase.outs| == 3) && coinbase.hash == cfg.coinbaseHash(coinbase.outs)
    ensures Raised(cfg, coinbase, scaled).hash == cfg.coinbaseHash(Raised(cfg, coinbase, scaled).outs)
  {
  }

  lemma FeesRightFrame(cfg: Config, b: Block, t: BlockTemplate, u: BlockTemplate)
    requires cfg.ticketsPerBlock > 0 && FeesRight(cfg, b, t)
    requires u == t.(freshStake := u.freshStake, revocations := u.revocations)
    ensures FeesRight(cfg, b, u)
  {
  }

  lemma DrawnRight(cfg: Config, b: Block, t: BlockTemplate)
    requires var kept := Kept(cfg, b.txs, t.approved);
      && t.stake == Votes(cfg, b.txs) + Tickets(cfg, kept) + Revocations(cfg, kept) && t.voters == |Votes(cfg, b.txs)|
      && t.freshStake == |Tickets(cfg, kept)| && t.revocations == |Revocations(cfg, kept)|
      && |t.regular| > 0 && t.regular[1..] == RegularOf(kept)
    requires t.regular[0].hash == cfg.coinbaseHash(t.regular[0].outs)
    ensures TreesRight(cfg, b, t)
  {
  }

  /** The hash of a coinbase is that of no pool transaction and of none in the chain. */
  ghost predicate CoinbaseApart(cfg: Config, pool: seq<TxDesc>, confirmed: set<Hash>) {
    && (forall outs :: cfg.coinbaseHash(outs) !in confirmed)
    && (forall outs, i :: 0 <= i < |pool| ==> pool[i].tx.hash != cfg.coinbaseHash(outs))
  }

  lemma SelectionIsReady(cfg: Config, pool: seq<TxDesc>, s: Sel, confirmed: set<Hash>)
    requires cfg.rules.height > 0 && cfg.ticketsPerBlock > 0
    requires Indexed(cfg.rules.chain, cfg.rules.height) && 0 !in cfg.rules.chain
    requires Inv(cfg.rules, confirmed, s) && CoinbaseApart(cfg, pool, confirmed)
    requires TemplateSelector.FromPool(pool, s.items)
    ensures Ready(cfg, s.block, confirmed) && forall h :: h in s.block.fees ==> HasHash(s.block.txs, h)
  {
    hide Counted, Voted, Sound, DistinctOutPoints, ChainConsistent, WellShaped, HasHash;
    forall j | 0 <= j < |s.block.txs|
      ensures s.block.txs[j].tree == TreeOf(s.block.txs[j].kind)
      ensures forall outs :: s.block.txs[j].hash != cfg.coinbaseHash(outs)
    {
      assert PoolTx(cfg.rules, confirmed, s.items[s.block.txs[j].hash].tx);
      assert TemplateSelector.IsPoolTx(pool, s.items[s.block.txs[j].hash].tx);
    }
    forall outs ensures !HasHash(s.block.txs, cfg.coinbaseHash(outs)) {
      NoSuchHash(s.block.txs, cfg.coinbaseHash(outs));
    }
  }

  lemma NoSuchHash(txs: seq<Tx>, h: Hash)
    requires forall j :: 0 <= j < |txs| ==> txs[j].hash != h
    ensures !HasHash(txs, h)
  {
  }

  /** If no chosen transaction has an entry in the view, as when the parent is not disapproved, all proofs are right
      from block two on. */
  lemma AllProven(cfg: Config, b: Block, confirmed: set<Hash>, t: BlockTemplate, i: nat, k: nat)
    requires Ready(cfg, b, confirmed) && TreesRight(cfg, b, t) && ProofsRight(cfg, b, t) && cfg.rules.height > 1
    requires forall j :: 0 <= j < |b.txs| ==> b.txs[j].hash !in cfg.rules.chain
    requires 1 <= i < |t.regular| && k < |t.regular[i].ins|
    ensures Proven(cfg.rules.chain, cfg.rules.height, t.regular, i, t.regular[i].ins[k])
  {
    var reg := RegularOf(Kept(cfg, b.txs, t.approved));
    assert RightUnlessHidden(cfg.rules.chain, cfg.rules.height, t.regular, i, t.regular[i].ins[k]);
    if !t.approved {
      DisapprovalKeepsOnlyVotes(cfg, b.txs, Top(cfg));
    }
    hide Sound, Proven, Indexed, RegularOf, ProofsRight, StakeTree, Votes, Tickets, Revocations, RightUnlessHidden;
    var tx := reg[i - 1];
    assert t.regular[i] == t.regular[1..][i - 1] && SameSpends(t.regular[i], tx);
    assert tx.kind.Regular? by {
      var m := RegularAt(b.txs, i - 1);
    }
    assert Spends(tx, CoinOf(tx.ins[k].prev));
    NothingHidden(cfg.rules.chain, confirmed, b.txs, b.view, i - 1, CoinOf(tx.ins[k].prev));
  }

  /** A stake transaction of the template comes from a chosen one. */
  lemma StakeTreeFrom(cfg: Config, txs: seq<Tx>, approved: bool, tx: Tx)
    requires tx in StakeTree(cfg, txs, approved)
    ensures exists m :: CopiedFrom(cfg, txs, tx, m)
  {
    if !approved {
      DisapprovalKeepsOnlyVotes(cfg, txs, Top(cfg));
    }
    hide Votes, Tickets, Revocations, CopiedFrom;
    StakeFrom(cfg, txs, tx);
  }

  /** What a ticket of the template spends is unspent on the chain, and so is what votes and revocations spend if no
      chosen transaction has an entry in the view. The proof of such an input is right. */
  lemma AllStakeProven(cfg: Config, b: Block, confirmed: set<Hash>, t: BlockTemplate, tx: Tx, k: nat)
    requires Ready(cfg, b, confirmed) && TreesRight(cfg, b, t)
    requires tx in t.stake && FirstSpend(tx) <= k < |tx.ins|
    requires tx.kind.Ticket? || forall j :: 0 <= j < |b.txs| ==> b.txs[j].hash !in cfg.rules.chain
    ensures Unspent(cfg.rules.chain, CoinOf(tx.ins[k].prev))
    ensures var entry := cfg.rules.chain[tx.ins[k].prev.hash];
      && tx.ins[k].valueIn == entry.outputs[tx.ins[k].prev.index].amount
      && tx.ins[k].blockHeight == entry.height && tx.ins[k].blockIndex == entry.index
  {
    StakeTreeProven(cfg, b, t);
    assert ProvenOnChain(cfg, tx);
    StakeTreeFrom(cfg, b.txs, t.approved, tx);
    hide Sound, StakeTree, Tracks;
    var m :| CopiedFrom(cfg, b.txs, tx, m);
    CopyKeepsKind(cfg, b.txs[m]);
    hide StakeCopy;
    var c := CoinOf(tx.ins[k].prev);
    assert Spends(b.txs[m], c) by { assert CoinOf(b.txs[m].ins[k].prev) == c; }
    ChosenSource(cfg.rules.chain, confirmed, b.txs, b.view, m, c);
  }

  /** The verdict is what the majority of the votes in the block says, once there is voting. An approved parent leaves
      every chosen transaction in its place; a disapproved one leaves nothing but the coinbase and the votes. */
  ghost predicate ContentRight(cfg: Config, b: Block, t: BlockTemplate) {
    && 0 < |t.regular| && t.voters <= |t.stake|
    && (t.approved <==>
          cfg.rules.height < cfg.stakeValidationHeight || 2 * |Yeas(t.stake[..t.voters])| > t.voters)
    && (t.approved ==> forall m :: 0 <= m < |b.txs| ==> PlacedRight(cfg, b.txs, t.regular[1..], t.stake, m))
    && (!t.approved ==> |t.regular| == 1 && |t.stake| == t.voters)
  }

  lemma SameInTree(a: seq<Tx>, b: seq<Tx>, h: Hash)
    requires SameTxs(a, b)
    ensures InTree(a, h) <==> InTree(b, h)
  {
  }

  lemma VerdictIs(cfg: Config, b: Block, t: BlockTemplate)
    requires TreesRight(cfg, b, t) && (t.approved <==> Approved(cfg, b.txs))
    ensures 0 < |t.regular| && t.voters <= |t.stake|
    ensures t.approved <==>
      cfg.rules.height < cfg.stakeValidationHeight || 2 * |Yeas(t.stake[..t.voters])| > t.voters
  {
    hide Votes, Tickets, Revocations, Kept, RegularOf, YesVotes, Yeas;
    assert t.stake[..t.voters] == Votes(cfg, b.txs);
    YeasCounted(Votes(cfg, b.txs));
  }

  lemma ContentIsRight(cfg: Config, b: Block, confirmed: set<Hash>, t: BlockTemplate)
    requires Ready(cfg, b, confirmed) && NumOf(b.txs, Ticket) <= cfg.rules.maxFreshStake
    requires TreesRight(cfg, b, t) && (t.approved <==> Approved(cfg, b.txs))
    ensures ContentRight(cfg, b, t)
  {
    VerdictIs(cfg, b, t);
    SoundIsDistinct(cfg, b, confirmed);
    if t.approved {
      hide Votes, Tickets, Revocations, RegularOf, Yeas, InTree, SpendsChain, SpendsChosen, Approved, Sound, InOwnTree;
      forall m | 0 <= m < |b.txs| ensures PlacedRight(cfg, b.txs, t.regular[1..], t.stake, m) {
        Placed(cfg, b.txs, m);
        SameInTree(t.regular[1..], RegularOf(b.txs), b.txs[m].hash);
      }
    } else {
      DisapprovalKeepsOnlyVotes(cfg, b.txs, Top(cfg));
    }
  }

  lemma EnoughVoters(cfg: Config, b: Block)
    requires cfg.rules.height > 0 && cfg.ticketsPerBlock > 0 && ErrorOf(cfg, b).None?
    ensures cfg.rules.height >= cfg.stakeValidationHeight ==> 2 * |Votes(cfg, b.txs)| > cfg.ticketsPerBlock
  {
    hide Votes, Approved, CreateCoinbase, RegularTree, FillError;
  }

  lemma TicketsWithin(r: Rules, b: Block)
    requires Counted(r, b)
    ensures NumOf(b.txs, Ticket) <= r.maxFreshStake
  {
  }

  lemma SoundIsDistinct(cfg: Config, b: Block, confirmed: set<Hash>)
    requires Ready(cfg, b, confirmed)
    ensures DistinctHashes(b.txs) && InOwnTree(b.txs)
  {
  }

  /** A whole template, for any pool and any chain. The pool is read in full and first items are judged
      until none is queued; then it fails exactly with the first error that applies. What it returns was selected
      soundly and assembled rightly, and has no more voters than there are winning tickets. */
  method NewBlockTemplate(cfg: Config, have: set<Hash>, pool: seq<TxDesc>, ghost confirmed: set<Hash>)
    returns (res: Result<BlockTemplate>, s: Sel, ghost trace: Trace)
    requires PoolOk(cfg.rules, confirmed, pool) && CoinbaseApart(cfg, pool, confirmed)
    requires cfg.rules.height > 0 && cfg.ticketsPerBlock > 0
    requires Indexed(cfg.rules.chain, cfg.rules.height) && 0 !in cfg.rules.chain
    ensures Inv(cfg.rules, confirmed, s)
    ensures IsRun(cfg.rules, ReadAll(cfg.rules, have, pool), trace) && trace.states[|trace.popped|] == s
    ensures s.graph.ready == {} && Accounted(cfg.rules, trace, s)
    ensures Unfilled(cfg.rules, trace.states[0]) && Explained(cfg.rules, trace)
    ensures forall i :: 0 <= i < |pool| ==> ReadRight(cfg.rules, have, trace.states[0], pool[i])
    ensures res.Err? <==> ErrorOf(cfg, s.block).Some?
    ensures res.Err? ==> ErrorOf(cfg, s.block) == Some(res.error) && res.error != FeeMissing
    ensures res.Ok? ==> (res.value.approved <==> Approved(cfg, s.block.txs)) && TreesRight(cfg, s.block, res.value)
    ensures res.Ok? ==> FeesRight(cfg, s.block, res.value) && ContentRight(cfg, s.block, res.value)
    ensures res.Ok? ==> ProofsRight(cfg, s.block, res.value) && StakeProofsRight(cfg, res.value)
    ensures res.Ok? ==> res.value.voters <= |cfg.rules.winners|
    ensures res.Ok? && cfg.rules.height >= cfg.stakeValidationHeight ==> 2 * res.value.voters > cfg.ticketsPerBlock
  {
    s, trace := TemplateSelector.SelectTransactions(cfg.rules, have, pool, confirmed);
    hide Inv, Voted, FeesRight, ProofsRight, Ready, IsRun, Accounted, ReadAll, ErrorOf, CoinbaseApart, Indexed,
         Unfilled, Explained, ReadRight, ContentRight;
    SelectionIsReady(cfg, pool, s, confirmed);
    res := Assemble(cfg, s.block, confirmed);
    VotersWithinWinners(cfg, s.block);
    if res.Ok? {
      StakeTreeProven(cfg, s.block, res.value);
      TicketsWithin(cfg.rules, s.block);
      ContentIsRight(cfg, s.block, confirmed, res.value);
      EnoughVoters(cfg, s.block);
    }
  }
}
