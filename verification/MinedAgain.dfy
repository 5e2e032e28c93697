/** A template with a wrong fraud proof: the pool's votes disapprove the parent, so that the view has it disconnected
    and its transaction is in the pool again, but the vote that gets into the block approves it. */
module MinedAgain {
  import opened Chain
  import opened Ledger
  import opened TxQueue
  import opened Selection
  import opened SelectionProof
  import opened Template
  import opened FraudProof
  import opened TemplateBuilder
  import opened BlockTemplate
  import DepGraph

  /** The ticket 3 is on the chain, and the winning one. */
  const VIEW: View := CLEARED[3 := Entry(map[0 := Output(20, false)], 2, 5, Ticket)]
  const VOTE :=
    Tx(4, Vote, TreeStake, [TxIn(OutPoint(0, 0, TreeRegular), 0, 0, 0), TxIn(OutPoint(3, 0, TreeStake), 0, 0, 0)], [],
       1, 0, 90, 10, 1)
  const RULES := Rules(VIEW, {5, 7}, 90, 11, 0, [], [3], 5, 1000, 500, 0, 0, (tx, v) => Some(0), (tx, v) => true)
  const CFG := Config(RULES, 5, 1, tx => true, Some([]), outs => 6, n => 0, n => 0, [], true, 0)
  const TXS := [VOTE, AGAIN, NEXT]
  const HAVE: set<Hash> := {4, 7, 8}

  function Desc(tx: Tx): TxDesc {
    TxDesc(tx, 0, 0.0, false, true, true)
  }

  const POOL := [Desc(VOTE), Desc(AGAIN), Desc(NEXT)]
  const ITEMS := map[4 := ItemOf(Desc(VOTE)), 7 := ItemOf(Desc(AGAIN)), 8 := ItemOf(Desc(NEXT))]

  // ---- What is assumed of the pool ----

  lemma PoolIsAllowed()
    ensures PoolOk(RULES, {3, 5}, POOL) && CoinbaseApart(CFG, POOL, {3, 5})
    ensures Indexed(VIEW, 11) && 0 !in VIEW
  {
    assert OfConfirmed(VIEW, {3, 5});
  }

  // ---- The states of the loop ----

  ghost predicate Has(v: View, h: Hash, kind: TxKind) {
    Unspent(v, Coin(h, 0)) && v[h].kind == kind
  }

  /** The state before round `n`. */
  ghost predicate Stage(s: Sel, n: nat) {
    && n <= 3 && s.items == ITEMS && s.byFee && s.graph.dependers == map[7 := {8}]
    && s.graph.ready == (if n == 0 then {4, 7} else if n == 1 then {7} else if n == 2 then {8} else {})
    && s.graph.needs == map[4 := {}, 7 := {}, 8 := if n < 2 then {7} else {}]
    && s.block.txs == TXS[..n] && s.block.size == BLOCK_HEADER_OVERHEAD + n && s.block.sigOps == 0
    && s.block.used == (if n == 0 then {} else {3}) && 7 in s.block.view && s.block.view[7].kind == Regular
    && (n == 0 ==> Has(s.block.view, 3, Ticket)) && (n < 2 ==> Has(s.block.view, 5, Regular))
    && (n == 2 ==> Has(s.block.view, 7, Regular))
  }

  // ---- Reading the pool ----

  lemma MergeKeeps(v: View, part: View)
    requires forall h :: h in part ==> h in v && part[h] == v[h]
    ensures Merge(v, part) == v
  {
  }

  lemma Scans()
    ensures ScanInputs(Fetch(VIEW, {5, 7}, VOTE), HAVE, VOTE, 1) == ({}, true)
    ensures ScanInputs(Fetch(VIEW, {5, 7}, AGAIN), HAVE, AGAIN, 0) == ({}, true)
    ensures ScanInputs(Fetch(VIEW, {5, 7}, NEXT), HAVE, NEXT, 0) == ({7}, true)
  {
    assert VOTE.ins[1].prev.hash in VIEW;
    assert Unspent(Fetch(VIEW, {5, 7}, VOTE), Coin(3, 0));
    assert Unspent(Fetch(VIEW, {5, 7}, AGAIN), Coin(5, 0));
    assert !Unspent(Fetch(VIEW, {5, 7}, NEXT), Coin(7, 0));
    hide Fetch, Unspent;
    assert ScanInputs(Fetch(VIEW, {5, 7}, NEXT), HAVE, NEXT, 1) == ({}, true);
    assert {7} + {} == {7 as Hash};
  }

  /** What reading an entry whose inputs are all found does. */
  function Recorded(s: Sel, tx: Tx, parents: set<Hash>): Sel {
    s.(items := s.items[tx.hash := ItemOf(Desc(tx))], graph := DepGraph.Register(s.graph, tx.hash, parents),
       block := s.block.(view := Merge(s.block.view, Fetch(VIEW, {5, 7}, tx))))
  }

  lemma EntryIsRecorded(s: Sel, tx: Tx, parents: set<Hash>)
    requires Considered(RULES, Desc(tx))
    requires ScanInputs(Fetch(VIEW, {5, 7}, tx), HAVE, tx, FirstSpend(tx)) == (parents, true)
    ensures PoolStep(RULES, HAVE, s, Desc(tx)) == Recorded(s, tx, parents)
  {
    hide Fetch, ScanInputs, DepGraph.Register, Merge, ItemOf;
  }

  lemma ReadsThree(r: Rules, a: TxDesc, b: TxDesc, c: TxDesc)
    ensures ReadAll(r, HAVE, [a, b, c]) ==
      PoolStep(r, HAVE, PoolStep(r, HAVE, PoolStep(r, HAVE, Start(r), a), b), c)
  {
    hide PoolStep, Start;
    assert [a, b, c][..2] == [a, b] && [a, b][..1] == [a] && [a][..0] == [];
    assert ReadAll(r, HAVE, [a]) == PoolStep(r, HAVE, Start(r), a);
    assert ReadAll(r, HAVE, [a, b]) == PoolStep(r, HAVE, PoolStep(r, HAVE, Start(r), a), b);
  }

  lemma PoolIsRecorded()
    ensures ReadAll(RULES, HAVE, POOL) == Recorded(Recorded(Recorded(Start(RULES), VOTE, {}), AGAIN, {}), NEXT, {7})
  {
    ReadsThree(RULES, Desc(VOTE), Desc(AGAIN), Desc(NEXT));
    Scans();
    hide PoolStep, Recorded, ScanInputs, Fetch, Start, ReadAll;
    EntryIsRecorded(Start(RULES), VOTE, {});
    EntryIsRecorded(Recorded(Start(RULES), VOTE, {}), AGAIN, {});
    EntryIsRecorded(Recorded(Recorded(Start(RULES), VOTE, {}), AGAIN, {}), NEXT, {7});
  }

  lemma ViewIsRead()
    ensures var v := Merge(map[], Fetch(VIEW, {5, 7}, VOTE));
      Merge(Merge(v, Fetch(VIEW, {5, 7}, AGAIN)), Fetch(VIEW, {5, 7}, NEXT)) == VIEW
  {
    assert VOTE.ins[1].prev.hash in Fetch(VIEW, {5, 7}, VOTE);
    assert Fetch(VIEW, {5, 7}, VOTE) == VIEW;
    assert Merge(map[], VIEW) == VIEW;
    hide Merge;
    MergeKeeps(VIEW, Fetch(VIEW, {5, 7}, AGAIN));
    MergeKeeps(VIEW, Fetch(VIEW, {5, 7}, NEXT));
  }

  lemma GraphIsRead()
    ensures var g := DepGraph.Register(DepGraph.EMPTY, 4, {});
      DepGraph.Register(DepGraph.Register(g, 7, {}), 8, {7}) ==
        DepGraph.Graph(map[4 := {}, 7 := {}, 8 := {7}], map[7 := {8}], {4, 7}, {}, {})
  {
    var g := DepGraph.Register(DepGraph.EMPTY, 4, {});
    assert g == DepGraph.Graph(map[4 := {}], map[], {4}, {}, {});
    var g' := DepGraph.Register(g, 7, {});
    assert g' == DepGraph.Graph(map[4 := {}, 7 := {}], map[], {4, 7}, {}, {});
    assert DepGraph.Dependers(g', 7) + {8} == {8};
    assert DepGraph.DependersWith(g', {7}, 8) == map[7 := {8}];
  }

  lemma PoolIsRead()
    ensures Stage(ReadAll(RULES, HAVE, POOL), 0)
  {
    PoolIsRecorded();
    ViewIsRead();
    GraphIsRead();
    hide ReadAll, Merge, Fetch, DepGraph.Register, ItemOf;
    assert Has(VIEW, 3, Ticket) && Has(VIEW, 5, Regular);
  }

  // ---- The rounds ----

  lemma Admitted(b: Block, item: PrioItem)
    requires WellShaped(item.tx) && b.size + 1 < 1000 && b.sigOps == 0 && item.tx.size == 1 && item.tx.sigOps == 0
    requires item.tx.kind.Regular? || (item.tx.kind.Vote? && TicketOf(item.tx) == 3 && 3 !in b.used)
    requires item.feePerKB == 0.0
    ensures Admit(RULES, true, b, item) == Some(0) && Plus(b, item.tx) == b.size + 1
  {
  }

  lemma RoundTakes(s: Sel, n: nat)
    requires Stage(s, n) && n < 3
    ensures var h := TXS[n].hash;
      && h in s.items && s.items[h] == ItemOf(Desc(TXS[n])) && WellShaped(TXS[n])
      && Judge(RULES, s, s.items[h]) == Take(0) && Plus(s.block, TXS[n]) == s.block.size + 1
  {
    Admitted(s.block, ItemOf(Desc(TXS[n])));
    hide Admit, Plus;
    assert InputsPresent(s.block.view, TXS[n]);
  }

  lemma ViewAfter(v: View, n: nat)
    requires n < 3 && 7 in v && v[7].kind == Regular && (n < 2 ==> Has(v, 5, Regular))
    ensures var w := SpendTransaction(v, TXS[n], 11);
      && 7 in w && w[7].kind == Regular && (n < 1 ==> Has(w, 5, Regular)) && (n == 1 ==> Has(w, 7, Regular))
  {
    SpendKeepsKind(v, TXS[n], 11, 7);
    SpendTransactionExact(v, TXS[n], 11, Coin(7, 0));
    if n < 2 {
      SpendKeepsKind(v, TXS[n], 11, 5);
      SpendTransactionExact(v, TXS[n], 11, Coin(5, 0));
    }
    hide SpendTransaction;
  }

  lemma GraphAfter(g: DepGraph.Graph, n: nat)
    requires n < 3 && g.dependers == map[7 := {8}] && g.needs == map[4 := {}, 7 := {}, 8 := if n < 2 then {7} else {}]
    requires g.ready == if n == 0 then {4, 7} else if n == 1 then {7} else {8}
    ensures var after := DepGraph.Choose(g, TXS[n].hash);
      && after.dependers == g.dependers && after.needs == map[4 := {}, 7 := {}, 8 := if n < 1 then {7} else {}]
      && after.ready == if n == 0 then {7} else if n == 1 then {8} else {}
  {
    assert DepGraph.Dependers(g, 7) == {8} && DepGraph.Dependers(g, 4) == {} && DepGraph.Dependers(g, 8) == {};
    assert {7 as Hash} - {7} == {};
    assert DepGraph.Released(g, TXS[n].hash) == if n == 1 then {8} else {};
  }

  lemma BlockAfter(b: Block, n: nat)
    requires n < 3 && b.txs == TXS[..n] && b.sigOps == 0 && b.used == if n == 0 then {} else {3}
    ensures WellShaped(TXS[n])
    ensures var after := Include(RULES, b, ItemOf(Desc(TXS[n])), 0);
      && after.txs == TXS[..n + 1] && after.sigOps == 0 && after.used == {3}
      && after.size == Plus(b, TXS[n]) && after.view == SpendTransaction(b.view, TXS[n], 11)
  {
    assert TXS[..n + 1] == TXS[..n] + [TXS[n]];
    hide SpendTransaction, Plus;
    assert b.used + (if n == 0 then {3} else {}) == {3};
  }

  lemma RoundSteps(s: Sel, n: nat)
    requires Stage(s, n) && n < 3
    ensures WellShaped(TXS[n]) && Stage(Step(RULES, s, ItemOf(Desc(TXS[n]))), n + 1)
  {
    RoundTakes(s, n);
    ViewAfter(s.block.view, n);
    GraphAfter(s.graph, n);
    BlockAfter(s.block, n);
    hide Judge, Switches, Include, SpendTransaction, DepGraph.Choose, Plus, ItemOf, Has, WellShaped;
  }

  lemma FirstIsNext(s: Sel, n: nat, h: Hash)
    requires Stage(s, n) && IsFirst(s, h)
    ensures n < 3 && h == TXS[n].hash
  {
    VoteIsFirst(ITEMS[4], ITEMS[7]);
    hide ByStakeAndFee, ItemOf;
  }

  lemma VoteIsFirst(a: PrioItem, b: PrioItem)
    requires a.tx.kind.Vote? && b.tx.kind.Regular?
    ensures ByStakeAndFee(a, b)
  {
  }

  lemma {:induction false} RunGoesOn(t: Trace, i: nat)
    requires IsRun(RULES, ReadAll(RULES, HAVE, POOL), t) && i <= |t.popped|
    ensures Stage(t.states[i], i)
  {
    if i == 0 {
      PoolIsRead();
    } else {
      RunGoesOn(t, i - 1);
      hide Stage, Step, ReadAll, IsFirst, Judge, Plus;
      FirstIsNext(t.states[i - 1], i - 1, t.popped[i - 1]);
      RoundTakes(t.states[i - 1], i - 1);
      RoundSteps(t.states[i - 1], i - 1);
    }
  }

  lemma RunChoosesAll(t: Trace, s: Sel)
    requires IsRun(RULES, ReadAll(RULES, HAVE, POOL), t) && t.states[|t.popped|] == s && s.graph.ready == {}
    ensures s.block.txs == TXS
  {
    RunGoesOn(t, |t.popped|);
    assert TXS[..3] == TXS;
  }

  // ---- The template ----

  lemma VotesAre()
    ensures Votes(CFG, TXS) == [StakeCopy(CFG, VOTE).value] && StakeCopy(CFG, VOTE).Some?
    ensures StakeCopy(CFG, VOTE).value.voteBits == 1
  {
    assert InputsOnChain(CFG, VOTE);
    var v := StakeCopy(CFG, VOTE).value;
    assert v.voteBits == 1;
    hide StakeCopy;
    assert VoteTaker(CFG)(VOTE) == Some(v) && [] + [v] == [v];
    assert VoteTaker(CFG)(AGAIN) == None && VoteTaker(CFG)(NEXT) == None;
    assert TXS[1..] == [AGAIN, NEXT] && [AGAIN, NEXT][1..] == [NEXT] && [NEXT][1..] == [];
    assert Picked([], VoteTaker(CFG), MAX_UINT16, [v]) == [v];
    assert Picked([NEXT], VoteTaker(CFG), MAX_UINT16, [v]) == [v];
    assert Picked([AGAIN, NEXT], VoteTaker(CFG), MAX_UINT16, [v]) == [v];
    assert Picked(TXS, VoteTaker(CFG), MAX_UINT16, []) == [v];
  }

  lemma ParentIsApproved()
    ensures Approved(CFG, TXS) && |Votes(CFG, TXS)| == 1
  {
    VotesAre();
    var v := StakeCopy(CFG, VOTE).value;
    hide Votes, StakeCopy;
    assert [v][..0] == [];
    assert SaysYes(v);
  }

  lemma RegularsAre()
    ensures RegularOf(TXS) == [AGAIN, NEXT]
  {
    assert TXS[..2] == [VOTE, AGAIN] && [VOTE, AGAIN][..1] == [VOTE] && [VOTE][..0] == [];
    assert RegularOf([VOTE]) == [];
    assert RegularOf([VOTE, AGAIN]) == [AGAIN];
  }

  lemma NothingFails(b: Block)
    requires b.txs == TXS
    ensures ErrorOf(CFG, b).None?
  {
    ParentIsApproved();
    RegularsAre();
    var list := RegularTree(CFG, b);
    assert list[1..] == [AGAIN, NEXT] && list[1] == AGAIN && list[2] == NEXT;
    hide Votes, RegularOf, Approved, Raised, Collected;
    assert AllFound(VIEW, list);
  }

  lemma TreeIs(b: Block, t: BlockTemplate)
    requires b.txs == TXS && t.approved && TreesRight(CFG, b, t) && ProofsRight(CFG, b, t)
    ensures |t.regular| == 3 && t.regular[1].hash == AGAIN.hash && t.regular[2].hash == NEXT.hash
    ensures |t.regular[2].ins| == 1 && t.regular[2].ins[0].prev == NEXT.ins[0].prev
    ensures !Proven(VIEW, 11, t.regular, 2, t.regular[2].ins[0])
  {
    RegularsAre();
    hide StakeTree, Votes, Tickets, Revocations, RegularOf, Proven;
    assert t.regular[1..][0] == t.regular[1] && t.regular[1..][1] == t.regular[2];
    assert SameSpends(t.regular[1..][1], NEXT);
    assert RightUnlessHidden(VIEW, 11, t.regular, 2, t.regular[2].ins[0]);
  }

  /** The template is made, with both transactions, and the proof of the second one's input is wrong. */
  method WrongProof() returns (res: Result<BlockTemplate>)
    ensures res.Ok? && res.value.approved && |res.value.regular| == 3
    ensures res.value.regular[1].hash == AGAIN.hash && res.value.regular[2].hash == NEXT.hash
    ensures |res.value.regular[2].ins| == 1 && res.value.regular[2].ins[0].prev == NEXT.ins[0].prev
    ensures !Proven(VIEW, 11, res.value.regular, 2, res.value.regular[2].ins[0])
  {
    PoolIsAllowed();
    var s;
    ghost var trace;
    res, s, trace := NewBlockTemplate(CFG, HAVE, POOL, {3, 5});
    RunChoosesAll(trace, s);
    NothingFails(s.block);
    ParentIsApproved();
    RegularsAre();
    TreeIs(s.block, res.value);
  }
}
