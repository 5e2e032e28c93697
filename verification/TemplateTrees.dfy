/** Which of the chosen transactions get into the two trees of a template, and what the votes say of the parent. */
module TemplateTrees {
  import opened Chain
  import opened Ledger
  import opened SelectionProof
  import opened Template
  import opened TemplateBuilder

  ghost predicate InTree(tree: seq<Tx>, h: Hash) {
    exists i :: 0 <= i < |tree| && tree[i].hash == h
  }

  /** All that is spent can be fetched and is on the chain. */
  ghost predicate SpendsChain(cfg: Config, tx: Tx) {
    cfg.fetchable(tx) && forall i :: FirstSpend(tx) <= i < |tx.ins| ==> tx.ins[i].prev.hash in cfg.rules.chain
  }

  ghost predicate SpendsChosen(txs: seq<Tx>, tx: Tx) {
    exists i, k :: 0 <= i < |txs| && 0 <= k < |tx.ins| && tx.ins[k].prev.hash == txs[i].hash
  }

  /** Whether chosen transaction `m` is in a tree of an approved template. The regular ones are in the regular tree. A
      ticket is in the stake tree if it pays enough, spends the chain and nothing chosen. A vote or a revocation is if
      it spends the chain and voting has begun, unless there are too many of them. */
  ghost predicate PlacedRight(cfg: Config, txs: seq<Tx>, regular: seq<Tx>, stake: seq<Tx>, m: nat)
    requires m < |txs|
  {
    var tx, voting := txs[m], cfg.rules.height >= cfg.stakeValidationHeight;
    && (InTree(regular, tx.hash) <==> tx.kind.Regular?)
    && (tx.kind.Regular? ==> !InTree(stake, tx.hash))
    && (tx.kind.Ticket? ==>
          (InTree(stake, tx.hash) <==>
             && |tx.outs| > 0 && tx.outs[0].value >= cfg.rules.stakeDiff
             && SpendsChain(cfg, tx) && !SpendsChosen(txs, tx)))
    && (tx.kind.Vote? && NumOf(txs, Vote) <= 0xffff ==>
          (InTree(stake, tx.hash) <==> voting && SpendsChain(cfg, tx)))
    && (tx.kind.Revocation? && NumOf(txs, Revocation) <= 0xff ==>
          (InTree(stake, tx.hash) <==> voting && SpendsChain(cfg, tx)))
  }

  lemma CopyableIff(cfg: Config, tx: Tx)
    ensures StakeCopy(cfg, tx).Some? <==> SpendsChain(cfg, tx)
    ensures StakeCopy(cfg, tx).Some? ==> StakeCopy(cfg, tx).value.hash == tx.hash
  {
  }

  /** What is taken of a list is what the test accepts, and all of it if there is room. */
  lemma TakenIff(txs: seq<Tx>, take: Tx -> Option<Tx>, limit: nat, kind: TxKind, m: nat)
    requires m < |txs| && DistinctHashes(txs)
    requires forall i :: 0 <= i < |txs| ==> take(txs[i]).Some? ==> txs[i].kind == kind
    requires forall i :: 0 <= i < |txs| ==> take(txs[i]).Some? ==> take(txs[i]).value.hash == txs[i].hash
    ensures InTree(Picked(txs, take, limit, []), txs[m].hash) ==> take(txs[m]).Some?
    ensures take(txs[m]).Some? && NumOf(txs, kind) <= limit ==> InTree(Picked(txs, take, limit, []), txs[m].hash)
  {
    var tree := Picked(txs, take, limit, []);
    if take(txs[m]).Some? && NumOf(txs, kind) <= limit {
      PickedAll(txs, take, limit, [], kind, m);
    }
    if InTree(tree, txs[m].hash) {
      var i :| 0 <= i < |tree| && tree[i].hash == txs[m].hash;
      PickedFrom(txs, take, limit, [], tree[i]);
      var k :| 0 <= k < |txs| && take(txs[k]) == Some(tree[i]);
      assert k == m;
    }
  }

  lemma InTrees(a: seq<Tx>, b: seq<Tx>, c: seq<Tx>, h: Hash)
    ensures InTree(a + b + c, h) <==> InTree(a, h) || InTree(b, h) || InTree(c, h)
  {
    var all := a + b + c;
    assert forall i :: 0 <= i < |a| ==> all[i] == a[i];
    assert forall i :: 0 <= i < |b| ==> all[|a| + i] == b[i];
    assert forall i :: 0 <= i < |c| ==> all[|a| + |b| + i] == c[i];
  }

  lemma TicketsIff(cfg: Config, txs: seq<Tx>, m: nat)
    requires m < |txs| && DistinctHashes(txs) && InOwnTree(txs) && NumOf(txs, Ticket) <= cfg.rules.maxFreshStake
    ensures InTree(Tickets(cfg, txs), txs[m].hash) <==>
      && txs[m].kind.Ticket? && |txs[m].outs| > 0 && txs[m].outs[0].value >= cfg.rules.stakeDiff
      && SpendsChain(cfg, txs[m]) && !SpendsChosen(txs, txs[m])
  {
    forall i | 0 <= i < |txs| ensures StakeCopy(cfg, txs[i]).Some? <==> SpendsChain(cfg, txs[i])
      ensures StakeCopy(cfg, txs[i]).Some? ==> StakeCopy(cfg, txs[i]).value.hash == txs[i].hash
    {
      CopyableIff(cfg, txs[i]);
    }
    hide StakeCopy, SpendsChain, Picked, InTree, DistinctHashes;
    TakenIff(txs, TicketTaker(cfg, txs), cfg.rules.maxFreshStake, Ticket, m);
  }

  lemma VotesIff(cfg: Config, txs: seq<Tx>, m: nat)
    requires m < |txs| && DistinctHashes(txs)
    ensures InTree(Votes(cfg, txs), txs[m].hash) ==> txs[m].kind.Vote?
    ensures NumOf(txs, Vote) <= MAX_UINT16 ==>
      (InTree(Votes(cfg, txs), txs[m].hash) <==>
         txs[m].kind.Vote? && cfg.rules.height >= cfg.stakeValidationHeight && SpendsChain(cfg, txs[m]))
  {
    forall i | 0 <= i < |txs| ensures StakeCopy(cfg, txs[i]).Some? <==> SpendsChain(cfg, txs[i])
      ensures StakeCopy(cfg, txs[i]).Some? ==> StakeCopy(cfg, txs[i]).value.hash == txs[i].hash
    {
      CopyableIff(cfg, txs[i]);
    }
    assert !InTree([], txs[m].hash);
    hide StakeCopy, SpendsChain, Picked, InTree, DistinctHashes;
    TakenIff(txs, VoteTaker(cfg), MAX_UINT16, Vote, m);
  }

  lemma RevocationsIff(cfg: Config, txs: seq<Tx>, m: nat)
    requires m < |txs| && DistinctHashes(txs) && InOwnTree(txs)
    ensures InTree(Revocations(cfg, txs), txs[m].hash) ==> txs[m].kind.Revocation?
    ensures NumOf(txs, Revocation) <= MAX_UINT8 ==>
      (InTree(Revocations(cfg, txs), txs[m].hash) <==>
         txs[m].kind.Revocation? && cfg.rules.height >= cfg.stakeValidationHeight && SpendsChain(cfg, txs[m]))
  {
    forall i | 0 <= i < |txs| ensures StakeCopy(cfg, txs[i]).Some? <==> SpendsChain(cfg, txs[i])
      ensures StakeCopy(cfg, txs[i]).Some? ==> StakeCopy(cfg, txs[i]).value.hash == txs[i].hash
    {
      CopyableIff(cfg, txs[i]);
    }
    assert !InTree([], txs[m].hash);
    hide StakeCopy, SpendsChain, Picked, InTree, DistinctHashes;
    TakenIff(txs, RevocationTaker(cfg), MAX_UINT8, Revocation, m);
  }

  lemma {:induction false} RegularsIff(txs: seq<Tx>, m: nat)
    requires m < |txs| && DistinctHashes(txs) && InOwnTree(txs)
    ensures InTree(RegularOf(txs), txs[m].hash) <==> txs[m].kind.Regular?
  {
    if txs[m].kind.Regular? {
      RegularIsIn(txs, m);
    }
    if InTree(RegularOf(txs), txs[m].hash) {
      var i :| 0 <= i < |RegularOf(txs)| && RegularOf(txs)[i].hash == txs[m].hash;
      var k := RegularAt(txs, i);
      assert k == m;
    }
  }

  lemma {:induction false} RegularIsIn(txs: seq<Tx>, m: nat)
    requires m < |txs| && txs[m].tree.TreeRegular?
    ensures InTree(RegularOf(txs), txs[m].hash)
  {
    var n := |txs| - 1;
    var reg, front := RegularOf(txs), RegularOf(txs[..n]);
    if m < n {
      RegularIsIn(txs[..n], m);
      var i :| 0 <= i < |front| && front[i].hash == txs[m].hash;
      assert reg[i] == front[i];
    } else {
      assert reg[|front|] == txs[m];
    }
  }

  lemma Placed(cfg: Config, txs: seq<Tx>, m: nat)
    requires DistinctHashes(txs) && InOwnTree(txs) && NumOf(txs, Ticket) <= cfg.rules.maxFreshStake && m < |txs|
    ensures PlacedRight(cfg, txs, RegularOf(txs), Votes(cfg, txs) + Tickets(cfg, txs) + Revocations(cfg, txs), m)
  {
    hide Votes, Tickets, Revocations, RegularOf, InTree, SpendsChain, SpendsChosen, DistinctHashes, InOwnTree;
    VotesIff(cfg, txs, m);
    TicketsIff(cfg, txs, m);
    RevocationsIff(cfg, txs, m);
    RegularsIff(txs, m);
    InTrees(Votes(cfg, txs), Tickets(cfg, txs), Revocations(cfg, txs), txs[m].hash);
  }

  // ---- The verdict ----

  /** The votes with their first bit set. */
  ghost function Yeas(votes: seq<Tx>): set<int> {
    set i | 0 <= i < |votes| && votes[i].voteBits & 1 != 0
  }

  lemma {:induction false} YeasCounted(votes: seq<Tx>)
    ensures YesVotes(votes) == |Yeas(votes)|
  {
    if votes != [] {
      var n := |votes| - 1;
      YeasCounted(votes[..n]);
      assert Yeas(votes) == if SaysYes(votes[n]) then Yeas(votes[..n]) + {n} else Yeas(votes[..n]);
    }
  }
}
