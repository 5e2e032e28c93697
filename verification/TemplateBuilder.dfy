/** The whole template: what a template that is returned is guaranteed to contain. */
module TemplateBuilder {
  import opened Chain
  import opened Ledger
  import opened Selection
  import opened SelectionProof
  import opened Template
  import opened FraudProof

  // ---- The trees ----

  function VoteTaker(cfg: Config): Tx -> Option<Tx> {
    tx => TakeVote(cfg, tx)
  }

  function TicketTaker(cfg: Config, txs: seq<Tx>): Tx -> Option<Tx> {
    tx => TakeTicket(cfg, txs, tx)
  }

  function RevocationTaker(cfg: Config): Tx -> Option<Tx> {
    tx => TakeRevocation(cfg, tx)
  }

  function Votes(cfg: Config, txs: seq<Tx>): seq<Tx> {
    if cfg.rules.height < cfg.stakeValidationHeight then [] else Picked(txs, VoteTaker(cfg), MAX_UINT16, [])
  }

  function Tickets(cfg: Config, txs: seq<Tx>): seq<Tx> {
    Picked(txs, TicketTaker(cfg, txs), cfg.rules.maxFreshStake, [])
  }

  function Revocations(cfg: Config, txs: seq<Tx>): seq<Tx> {
    if cfg.rules.height < cfg.stakeValidationHeight then [] else Picked(txs, RevocationTaker(cfg), MAX_UINT8, [])
  }

  lemma {:induction false} PickedNothing(txs: seq<Tx>, take: Tx -> Option<Tx>, limit: nat, taken: seq<Tx>)
    requires forall i :: 0 <= i < |txs| ==> take(txs[i]).None?
    ensures Picked(txs, take, limit, taken) == taken
    decreases |txs|
  {
    if txs != [] {
      PickedNothing(txs[1..], take, limit, taken);
    }
  }

  /** Each transaction that is taken is a copy of one of the list, hash and all. */
  lemma {:induction false} PickedAreCopies(txs: seq<Tx>, take: Tx -> Option<Tx>, limit: nat, taken: seq<Tx>,
                                           hashes: set<Hash>)
    requires forall t :: t in taken ==> t.hash in hashes
    requires forall i :: 0 <= i < |txs| ==> take(txs[i]).Some? ==> take(txs[i]).value.hash in hashes
    ensures forall t :: t in Picked(txs, take, limit, taken) ==> t.hash in hashes
    decreases |txs|
  {
    if txs != [] {
      var more := match take(txs[0]) case Some(t) => taken + [t] case None => taken;
      if |more| < limit {
        PickedAreCopies(txs[1..], take, limit, more, hashes);
      }
    }
  }

  lemma {:induction false} PickedFrom(txs: seq<Tx>, take: Tx -> Option<Tx>, limit: nat, taken: seq<Tx>, t: Tx)
    requires t in Picked(txs, take, limit, taken) && t !in taken
    ensures exists i :: 0 <= i < |txs| && take(txs[i]) == Some(t)
    decreases |txs|
  {
    assert txs != [];
    if take(txs[0]) != Some(t) {
      var more := match take(txs[0]) case Some(t) => taken + [t] case None => taken;
      assert t !in more;
      PickedFrom(txs[1..], take, limit, more, t);
      var i :| 0 <= i < |txs[1..]| && take(txs[1..][i]) == Some(t);
      assert take(txs[i + 1]) == Some(t);
    }
  }

  /** Nothing is passed over if the limit leaves room for all that may be taken. */
  lemma {:induction false} PickedAll(txs: seq<Tx>, take: Tx -> Option<Tx>, limit: nat, taken: seq<Tx>, kind: TxKind,
                                     m: nat)
    requires forall i :: 0 <= i < |txs| ==> take(txs[i]).Some? ==> txs[i].kind == kind
    requires |taken| + NumOf(txs, kind) <= limit && m < |txs| && take(txs[m]).Some?
    ensures take(txs[m]).value in Picked(txs, take, limit, taken)
    decreases |txs|
  {
    NumFront(txs, kind);
    var more := match take(txs[0]) case Some(t) => taken + [t] case None => taken;
    if m > 0 {
      NumAtLeastOne(txs[1..], kind, m - 1);
      assert txs[1..][m - 1] == txs[m];
      PickedAll(txs[1..], take, limit, more, kind, m - 1);
    } else if |more| < limit {
      PickedKeeps(txs[1..], take, limit, more, take(txs[0]).value);
    }
  }

  lemma {:induction false} PickedKeeps(txs: seq<Tx>, take: Tx -> Option<Tx>, limit: nat, taken: seq<Tx>, t: Tx)
    requires t in taken
    ensures t in Picked(txs, take, limit, taken)
    decreases |txs|
  {
    if txs != [] {
      var more := match take(txs[0]) case Some(t) => taken + [t] case None => taken;
      if |more| < limit {
        PickedKeeps(txs[1..], take, limit, more, t);
      }
    }
  }

  lemma {:induction false} NumAtLeastOne(txs: seq<Tx>, kind: TxKind, m: nat)
    requires m < |txs| && txs[m].kind == kind
    ensures NumOf(txs, kind) >= 1
  {
    if m < |txs| - 1 {
      NumAtLeastOne(txs[..|txs| - 1], kind, m);
    }
  }

  /** The transaction is a copy of one of the list, and if it is a ticket, of one that spends nothing listed. */
  ghost predicate CopiedFrom(cfg: Config, txs: seq<Tx>, t: Tx, m: int) {
    && 0 <= m < |txs| && StakeCopy(cfg, txs[m]) == Some(t)
    && (t.kind.Ticket? ==> !ContainsTxIns(txs, txs[m]))
  }

  lemma CopyKeepsKind(cfg: Config, tx: Tx)
    ensures StakeCopy(cfg, tx).Some? ==> StakeCopy(cfg, tx).value.kind == tx.kind
    ensures StakeCopy(cfg, tx).Some? ==> SameSpends(StakeCopy(cfg, tx).value, tx)
  {
  }

  lemma StakeFrom(cfg: Config, txs: seq<Tx>, t: Tx)
    requires t in Votes(cfg, txs) + Tickets(cfg, txs) + Revocations(cfg, txs)
    ensures exists m :: CopiedFrom(cfg, txs, t, m)
  {
    hide Picked, StakeCopy, ContainsTxIns;
    if t in Votes(cfg, txs) {
      PickedFrom(txs, VoteTaker(cfg), MAX_UINT16, [], t);
      var m :| 0 <= m < |txs| && TakeVote(cfg, txs[m]) == Some(t);
      CopyKeepsKind(cfg, txs[m]);
      assert CopiedFrom(cfg, txs, t, m);
    } else if t in Tickets(cfg, txs) {
      PickedFrom(txs, TicketTaker(cfg, txs), cfg.rules.maxFreshStake, [], t);
      var m :| 0 <= m < |txs| && TakeTicket(cfg, txs, txs[m]) == Some(t);
      assert CopiedFrom(cfg, txs, t, m);
    } else {
      PickedFrom(txs, RevocationTaker(cfg), MAX_UINT8, [], t);
      var m :| 0 <= m < |txs| && TakeRevocation(cfg, txs[m]) == Some(t);
      CopyKeepsKind(cfg, txs[m]);
      assert CopiedFrom(cfg, txs, t, m);
    }
  }

  /** Each input but a stakebase carries the amount and place of its chain entry. */
  ghost predicate ProvenOnChain(cfg: Config, tx: Tx) {
    forall k :: FirstSpend(tx) <= k < |tx.ins| ==>
      var chain, txIn := cfg.rules.chain, tx.ins[k];
      txIn.prev.hash in chain && txIn.valueIn == AmountByIndex(chain[txIn.prev.hash], txIn.prev.index) &&
      txIn.blockHeight == chain[txIn.prev.hash].height && txIn.blockIndex == chain[txIn.prev.hash].index
  }

  lemma StakeCopyProven(cfg: Config, tx: Tx)
    ensures StakeCopy(cfg, tx).Some? ==> ProvenOnChain(cfg, StakeCopy(cfg, tx).value)
  {
  }

  lemma {:induction false} PickedAreProven(cfg: Config, txs: seq<Tx>, take: Tx -> Option<Tx>, limit: nat,
                                           taken: seq<Tx>)
    requires forall t :: t in taken ==> ProvenOnChain(cfg, t)
    requires forall i :: 0 <= i < |txs| ==> take(txs[i]).Some? ==> ProvenOnChain(cfg, take(txs[i]).value)
    ensures forall t :: t in Picked(txs, take, limit, taken) ==> ProvenOnChain(cfg, t)
    decreases |txs|
  {
    hide ProvenOnChain;
    if txs != [] {
      var more := match take(txs[0]) case Some(t) => taken + [t] case None => taken;
      if |more| < limit {
        PickedAreProven(cfg, txs[1..], take, limit, more);
      }
    }
  }

  lemma StakeProven(cfg: Config, txs: seq<Tx>)
    ensures forall t :: t in Votes(cfg, txs) + Tickets(cfg, txs) + Revocations(cfg, txs) ==> ProvenOnChain(cfg, t)
  {
    forall i | 0 <= i < |txs|
      ensures StakeCopy(cfg, txs[i]).Some? ==> ProvenOnChain(cfg, StakeCopy(cfg, txs[i]).value)
    {
      StakeCopyProven(cfg, txs[i]);
    }
    hide ProvenOnChain, StakeCopy;
    PickedAreProven(cfg, txs, VoteTaker(cfg), MAX_UINT16, []);
    PickedAreProven(cfg, txs, TicketTaker(cfg, txs), cfg.rules.maxFreshStake, []);
    PickedAreProven(cfg, txs, RevocationTaker(cfg), MAX_UINT8, []);
  }

  lemma {:induction false} PickedNoMore(txs: seq<Tx>, take: Tx -> Option<Tx>, limit: nat, taken: seq<Tx>, kind: TxKind)
    requires forall i :: 0 <= i < |txs| ==> take(txs[i]).Some? ==> txs[i].kind == kind
    ensures |Picked(txs, take, limit, taken)| <= |taken| + NumOf(txs, kind)
    decreases |txs|
  {
    if txs != [] {
      NumFront(txs, kind);
      var more := match take(txs[0]) case Some(t) => taken + [t] case None => taken;
      if |more| < limit {
        PickedNoMore(txs[1..], take, limit, more, kind);
      }
    }
  }

  lemma {:induction false} NumFront(txs: seq<Tx>, kind: TxKind)
    requires txs != []
    ensures NumOf(txs, kind) == NumOf(txs[1..], kind) + if txs[0].kind == kind then 1 else 0
  {
    if |txs| == 1 {
      assert txs[1..] == [] && txs[..0] == [];
    } else {
      var front := txs[..|txs| - 1];
      NumFront(front, kind);
      assert txs[1..][..|txs| - 2] == front[1..];
    }
  }

  /** The voters of a template are no more than the winning tickets. */
  lemma VotersWithinWinners(cfg: Config, b: Block)
    requires Voted(cfg.rules, b)
    ensures |Votes(cfg, b.txs)| <= |cfg.rules.winners|
  {
    VotesWithinWinners(cfg.rules, b);
    PickedNoMore(b.txs, VoteTaker(cfg), MAX_UINT16, [], Vote);
  }

  // ---- A disapproved parent ----

  lemma {:induction false} PrunedAreTreeless(txs: seq<Tx>, top: seq<Hash>)
    ensures forall i :: 0 <= i < |Pruned(txs, top)| ==> Pruned(txs, top)[i].tree.TreeUnknown?
  {
    if txs != [] {
      PrunedAreTreeless(txs[..|txs| - 1], top);
    }
  }

  lemma {:induction false} RegularOfTreeless(txs: seq<Tx>)
    requires forall i :: 0 <= i < |txs| ==> !txs[i].tree.TreeRegular?
    ensures RegularOf(txs) == []
  {
    if txs != [] {
      RegularOfTreeless(txs[..|txs| - 1]);
    }
  }

  /** The copies that pruning makes are in no tree, so once the parent is voted out nothing but the coinbase and the
      votes gets into the template: pruning drops every other chosen transaction, not only those that it means to. */
  lemma DisapprovalKeepsOnlyVotes(cfg: Config, txs: seq<Tx>, top: seq<Hash>)
    ensures RegularOf(Pruned(txs, top)) == []
    ensures Tickets(cfg, Pruned(txs, top)) == [] && Revocations(cfg, Pruned(txs, top)) == []
  {
    var kept := Pruned(txs, top);
    PrunedAreTreeless(txs, top);
    RegularOfTreeless(kept);
    PickedNothing(kept, TicketTaker(cfg, kept), cfg.rules.maxFreshStake, []);
    PickedNothing(kept, RevocationTaker(cfg), MAX_UINT8, []);
  }

  // ---- The regular tree is linked ----

  ghost predicate CreatedElsewhere(txs: seq<Tx>, c: Coin) {
    exists m :: 0 <= m < |txs| && !txs[m].tree.TreeRegular? && Creates(txs[m], c)
  }

  /** Where the output that the `i`-th regular transaction spends comes from. */
  ghost predicate ComesFrom(chain: View, txs: seq<Tx>, i: nat, c: Coin)
    requires i <= |RegularOf(txs)|
  {
    Unspent(chain, c) || CreatedBy(RegularOf(txs)[..i], c) || CreatedElsewhere(txs, c)
  }

  lemma {:induction false} RegularHolds(txs: seq<Tx>, c: Coin)
    ensures CreatedBy(txs, c) ==> CreatedBy(RegularOf(txs), c) || CreatedElsewhere(txs, c)
  {
    if txs != [] {
      var front, last := txs[..|txs| - 1], txs[|txs| - 1];
      assert txs == front + [last];
      RegularHolds(front, c);
      ExtendBy(front, last, c);
      ExtendBy(RegularOf(front), last, c);
      assert RegularOf(txs) == if last.tree.TreeRegular? then RegularOf(front) + [last] else RegularOf(front);
      ElsewhereGrows(txs, c);
    }
  }

  lemma ElsewhereGrows(txs: seq<Tx>, c: Coin)
    requires txs != []
    ensures CreatedElsewhere(txs[..|txs| - 1], c) ==> CreatedElsewhere(txs, c)
    ensures !txs[|txs| - 1].tree.TreeRegular? && Creates(txs[|txs| - 1], c) ==> CreatedElsewhere(txs, c)
  {
    var front := txs[..|txs| - 1];
    assert forall m :: 0 <= m < |front| ==> front[m] == txs[m];
  }

  lemma SourcedFront(chain: View, txs: seq<Tx>)
    requires Sourced(chain, txs) && txs != []
    ensures Sourced(chain, txs[..|txs| - 1])
  {
    var front := txs[..|txs| - 1];
    assert forall j :: 0 <= j < |front| ==> front[j] == txs[j] && front[..j] == txs[..j];
  }

  lemma {:induction false} RegularComesFrom(chain: View, txs: seq<Tx>, i: nat, c: Coin)
    requires Sourced(chain, txs) && i < |RegularOf(txs)| && Spends(RegularOf(txs)[i], c)
    ensures ComesFrom(chain, txs, i, c)
  {
    var n := |txs| - 1;
    var front, last := txs[..n], txs[n];
    SourcedFront(chain, txs);
    if i < |RegularOf(front)| {
      RegularComesFrom(chain, front, i, c);
      assert RegularOf(txs)[..i] == RegularOf(front)[..i];
      ElsewhereGrows(txs, c);
    } else {
      assert RegularOf(txs)[..i] == RegularOf(front) && RegularOf(txs)[i] == last;
      RegularHolds(front, c);
      ElsewhereGrows(txs, c);
    }
  }

  /** The regular transactions are some of the chosen ones, in the same order. */
  lemma {:induction false} RegularAt(txs: seq<Tx>, i: nat) returns (m: nat)
    requires i < |RegularOf(txs)|
    ensures m < |txs| && txs[m] == RegularOf(txs)[i] && txs[m].tree.TreeRegular?
    ensures RegularOf(txs)[..i] == RegularOf(txs[..m])
  {
    var front := txs[..|txs| - 1];
    if i < |RegularOf(front)| {
      m := RegularAt(front, i);
      assert txs[..m] == front[..m];
    } else {
      m := |txs| - 1;
    }
  }

  lemma RegularDistinct(txs: seq<Tx>)
    requires DistinctHashes(txs)
    ensures DistinctHashes(RegularOf(txs))
  {
    var reg := RegularOf(txs);
    forall j, k | 0 <= j < k < |reg| ensures reg[j].hash != reg[k].hash {
      var m := RegularAt(txs, k);
      assert reg[..k][j] == reg[j];
      var l := RegularAt(txs[..m], j);
      assert txs[l] == reg[j];
    }
  }

  lemma ElsewhereIsNotRegular(txs: seq<Tx>, c: Coin, i: nat)
    requires DistinctHashes(txs) && CreatedElsewhere(txs, c) && i < |RegularOf(txs)|
    ensures RegularOf(txs)[i].hash != c.hash
  {
    var m :| 0 <= m < |txs| && !txs[m].tree.TreeRegular? && Creates(txs[m], c);
    var l := RegularAt(txs, i);
    assert l != m;
  }

  ghost predicate InOwnTree(txs: seq<Tx>) {
    forall j :: 0 <= j < |txs| ==> txs[j].tree == TreeOf(txs[j].kind)
  }

  /** A chosen transaction spends what is unspent on the chain or what is chosen too. */
  lemma ChosenSource(chain: View, confirmed: set<Hash>, txs: seq<Tx>, view: View, m: nat, c: Coin)
    requires Sound(chain, confirmed, txs, view) && m < |txs| && Spends(txs[m], c)
    ensures Unspent(chain, c) || HasHash(txs, c.hash)
  {
    hide Tracks, NoDoubleSpend, Spends;
    assert Unspent(chain, c) || CreatedBy(txs[..m], c);
    if CreatedBy(txs[..m], c) {
      var k :| 0 <= k < m && Creates(txs[..m][k], c);
      assert txs[k].hash == c.hash;
    }
  }

  lemma RegularProvided(chain: View, confirmed: set<Hash>, txs: seq<Tx>, view: View, coinbase: Tx, i: nat, c: Coin)
    requires Sound(chain, confirmed, txs, view)
    requires coinbase.hash !in confirmed && !HasHash(txs, coinbase.hash)
    requires i < |RegularOf(txs)| && Spends(RegularOf(txs)[i], c)
    ensures Provided(chain, [coinbase] + RegularOf(txs), i + 1, c)
  {
    hide Tracks, NoDoubleSpend, Spends, RegularOf, CreatedElsewhere, Unspent;
    var reg := RegularOf(txs);
    var list := [coinbase] + reg;
    var m := RegularAt(txs, i);
    ChosenSource(chain, confirmed, txs, view, m, c);
    RegularComesFrom(chain, txs, i, c);
    if !Unspent(chain, c) {
      if CreatedBy(reg[..i], c) {
        var j :| 0 <= j < i && Creates(reg[..i][j], c);
        assert list[j + 1] == reg[j];
      } else {
        forall j | 0 <= j < |reg| ensures reg[j].hash != c.hash {
          ElsewhereIsNotRegular(txs, c, j);
        }
      }
    }
  }

  lemma RegularFacts(confirmed: set<Hash>, txs: seq<Tx>, i: nat)
    requires InOwnTree(txs) && i < |RegularOf(txs)|
    requires forall j :: 0 <= j < |txs| ==> txs[j].hash !in confirmed
    ensures RegularOf(txs)[i].kind.Regular? && RegularOf(txs)[i].hash !in confirmed
    ensures HasHash(txs, RegularOf(txs)[i].hash)
  {
    var m := RegularAt(txs, i);
  }

  /** What was chosen for the regular tree, behind its coinbase, is fit for fraud proofs. */
  lemma RegularLinked(chain: View, confirmed: set<Hash>, txs: seq<Tx>, view: View, coinbase: Tx)
    requires Sound(chain, confirmed, txs, view) && InOwnTree(txs)
    requires coinbase.hash !in confirmed && !HasHash(txs, coinbase.hash)
    ensures Linked(chain, [coinbase] + RegularOf(txs))
  {
    hide Tracks, NoDoubleSpend, Sourced, Spends, Provided, Unspent, RegularOf, HasHash, InOwnTree;
    var list := [coinbase] + RegularOf(txs);
    RegularDistinct(txs);
    forall i | 1 <= i < |list|
      ensures list[i].kind.Regular? && list[i].hash !in confirmed && list[i].hash != coinbase.hash
    {
      RegularFacts(confirmed, txs, i - 1);
    }
    forall i, c | 1 <= i < |list| && Spends(list[i], c) ensures Provided(chain, list, i, c) {
      RegularProvided(chain, confirmed, txs, view, coinbase, i - 1, c);
    }
  }

  /** The pool may hold a transaction of a disapproved block again, and what spends it. */
  lemma MinedAgainIsAllowed(r: Rules)
    requires r.chain == CLEARED
    ensures PoolTx(r, {5}, AGAIN) && PoolTx(r, {5}, NEXT)
  {
  }

  /** Nothing hides the source of an input if no chosen transaction has an entry in the view, as is always so when the
      parent is not disapproved. */
  lemma NothingHidden(chain: View, confirmed: set<Hash>, txs: seq<Tx>, view: View, i: nat, c: Coin)
    requires Sound(chain, confirmed, txs, view) && i < |RegularOf(txs)| && Spends(RegularOf(txs)[i], c)
    requires forall j :: 0 <= j < |txs| ==> txs[j].hash !in chain
    ensures !Hidden(chain, c)
  {
    var m := RegularAt(txs, i);
    ChosenSource(chain, confirmed, txs, view, m, c);
  }
}
