/** What the block manager's answers to inventory, demands and transactions are, told by the fields of its state. */
module SyncAnswer {
  import opened Chain
  import opened SyncState
  import opened SyncProof

  /** The peer was asked for it and has not delivered. */
  ghost predicate OwesInv(r: Requests, p: Peer, iv: Inv) {
    if iv.kind.BlockInv? then Owes(r, p, iv.hash) else iv.kind.TxInv? && OwesTx(r, p, iv.hash)
  }

  ghost predicate InFlight(r: Requests, iv: Inv) {
    if iv.kind.BlockInv? then iv.hash in r.blocks else iv.kind.TxInv? && iv.hash in r.txs
  }

  // ---- Announced inventory ----

  /** An announcement is of interest if it is of a block or transaction that is not there and was not rejected, and
      headers do not come first. */
  ghost predicate OfInterest(s: State, env: Env, iv: Inv) {
    && !s.hdr.first && !iv.kind.OtherInv? && env.have(iv) == Some(false)
    && (iv.kind.TxInv? ==> iv.hash !in s.rejected)
  }

  /** A peer is heard if it is the sync peer or the chain is current. What it announced is then owed by it, was in
      flight already, or waits; it owes and has queued nothing else that is new; and nobody else is asked. */
  ghost predicate InvRight(s: State, env: Env, p: Peer, invs: seq<Inv>, after: State) {
    && after == s.(req := after.req) && (forall q :: q != p ==> Of(after.req, q) == Of(s.req, q))
    && if s.sync != Some(p) && !env.current then after == s
       else
         && (forall iv :: HeardOf(s, env, p, invs, iv, after))
         && (|Of(s.req, p).queue| + |invs| < MAX_INV_PER_MSG ==> Of(after.req, p).queue == [])
  }

  ghost predicate HeardOf(s: State, env: Env, p: Peer, invs: seq<Inv>, iv: Inv, after: State) {
    && (iv in invs && OfInterest(s, env, iv) ==> Served(s.req, p, iv, after.req))
    && (iv in Of(s.req, p).queue && !iv.kind.OtherInv? ==> Served(s.req, p, iv, after.req))
    && (OwesInv(after.req, p, iv) && !OwesInv(s.req, p, iv) ==> ToldOf(s, env, p, invs, iv))
    && (iv in Of(after.req, p).queue ==> ToldOf(s, env, p, invs, iv))
  }

  ghost predicate Served(r: Requests, p: Peer, iv: Inv, after: Requests) {
    OwesInv(after, p, iv) || InFlight(r, iv) || iv in Of(after, p).queue
  }

  ghost predicate ToldOf(s: State, env: Env, p: Peer, invs: seq<Inv>, iv: Inv) {
    iv in Of(s.req, p).queue || (iv in invs && OfInterest(s, env, iv))
  }

  lemma {:induction false} WantedIff(s: State, env: Env, invs: seq<Inv>, iv: Inv)
    ensures iv in Wanted(s, env, invs) <==> iv in invs && OfInterest(s, env, iv)
    ensures |Wanted(s, env, invs)| <= |invs|
  {
    if invs != [] {
      var front, last := invs[..|invs| - 1], invs[|invs| - 1];
      WantedIff(s, env, front, iv);
      assert invs == front + [last];
    }
  }

  lemma LimitedIsLess(m: set<Hash>, limit: nat, victim: Hash)
    ensures Limited(m, limit, victim) <= m
  {
  }

  /** How asking for a block changes who owes what, and how asking for a transaction does. */
  lemma AskBlockIs(r: Requests, p: Peer, h: Hash, x: Inv)
    ensures var after := AskBlock(r, p, h);
      && (OwesInv(after, p, x) <==> OwesInv(r, p, x) || x == Inv(BlockInv, h))
      && (InFlight(after, x) <==> InFlight(r, x) || x == Inv(BlockInv, h))
      && (forall q :: q != p ==> Of(after, q) == Of(r, q)) && Of(after, p).queue == Of(r, p).queue
  {
  }

  lemma AskTxIs(r: Requests, p: Peer, h: Hash, x: Inv)
    ensures var after := AskTx(r, p, h);
      && (OwesInv(after, p, x) <==> OwesInv(r, p, x) || x == Inv(TxInv, h))
      && (InFlight(after, x) <==> InFlight(r, x) || x == Inv(TxInv, h))
      && (forall q :: q != p ==> Of(after, q) == Of(r, q)) && Of(after, p).queue == Of(r, p).queue
  {
  }

  lemma FewerIs(r: Requests, blocks: set<Hash>, txs: set<Hash>, p: Peer, x: Inv)
    requires blocks <= r.blocks && txs <= r.txs
    ensures var after := r.(blocks := blocks, txs := txs);
      && (OwesInv(after, p, x) <==> OwesInv(r, p, x)) && (InFlight(after, x) ==> InFlight(r, x))
      && (forall q :: Of(after, q) == Of(r, q))
  {
  }

  lemma RequestIs(r: Requests, env: Env, p: Peer, iv: Inv, i: nat, x: Inv)
    ensures var after := Request(r, env, p, iv, i);
      && (OwesInv(r, p, x) ==> OwesInv(after, p, x))
      && (OwesInv(after, p, x) ==> OwesInv(r, p, x) || x == iv)
      && (InFlight(after, x) ==> InFlight(r, x) || (x == iv && OwesInv(after, p, iv)))
      && (!iv.kind.OtherInv? && x == iv ==> OwesInv(after, p, iv) || InFlight(r, iv))
      && (forall q :: q != p ==> Of(after, q) == Of(r, q)) && Of(after, p).queue == Of(r, p).queue
  {
    AskBlockIs(r, p, iv.hash, x);
    AskTxIs(r, p, iv.hash, x);
    hide OwesInv, Of, AskBlock, AskTx, Limited;
    assert Pending(r, iv) && !iv.kind.OtherInv? ==> InFlight(r, iv);
    hide InFlight, Pending;
    if iv.kind.BlockInv? {
      var r1 := AskBlock(r, p, iv.hash);
      var less := Limited(r1.blocks, MAX_REQUESTED_BLOCKS, env.pick(i, r1.blocks));
      LimitedIsLess(r1.blocks, MAX_REQUESTED_BLOCKS, env.pick(i, r1.blocks));
      FewerIs(r1, less, r1.txs, p, x);
    } else {
      var r1 := AskTx(r, p, iv.hash);
      var less := Limited(r1.txs, MAX_REQUESTED_TXNS, env.pick(i, r1.txs));
      LimitedIsLess(r1.txs, MAX_REQUESTED_TXNS, env.pick(i, r1.txs));
      FewerIs(r1, r1.blocks, less, p, x);
    }
  }

  lemma EnqueueIs(r: Requests, p: Peer, queue: seq<Inv>, x: Inv)
    ensures var after := Enqueue(r, p, queue);
      && Of(after, p).queue == queue && (forall q :: q != p ==> Of(after, q) == Of(r, q))
      && (OwesInv(after, p, x) <==> OwesInv(r, p, x)) && (InFlight(after, x) <==> InFlight(r, x))
  {
  }

  /** Draining from the `i`-th on: what becomes of `x`. */
  lemma {:induction false} DrainIs(r: Requests, env: Env, p: Peer, queue: seq<Inv>, i: nat, num: nat, x: Inv)
    requires i <= |queue|
    ensures var after := Drain(r, env, p, queue, i, num);
      && (forall q :: q != p ==> Of(after, q) == Of(r, q))
      && (OwesInv(r, p, x) ==> OwesInv(after, p, x))
      && (OwesInv(after, p, x) ==> OwesInv(r, p, x) || x in queue[i..])
      && (x in queue[i..] && !x.kind.OtherInv? ==> Served(r, p, x, after))
      && (x in Of(after, p).queue ==> x in queue[i..])
      && (num + (|queue| - i) < MAX_INV_PER_MSG ==> Of(after, p).queue == [])
    decreases |queue| - i
  {
    hide Request, Enqueue, OwesInv, InFlight, Of;
    if i == |queue| {
      EnqueueIs(r, p, [], x);
    } else {
      var iv := queue[i];
      var n, r1 := if Pending(r, iv) then num else num + 1, Request(r, env, p, iv, i);
      RequestIs(r, env, p, iv, i, x);
      assert queue[i..] == [iv] + queue[i + 1..];
      hide Pending;
      if n >= MAX_INV_PER_MSG {
        EnqueueIs(r1, p, queue[i + 1..], x);
      } else {
        DrainIs(r1, env, p, queue, i + 1, n, x);
      }
    }
  }

  lemma InvAnswers(s: State, env: Env, p: Peer, invs: seq<Inv>)
    ensures InvRight(s, env, p, invs, InvMsg(s, env, p, invs))
  {
    var queue := Of(s.req, p).queue + Wanted(s, env, invs);
    var queued, after := Enqueue(s.req, p, queue), InvMsg(s, env, p, invs);
    WantedIff(s, env, invs, Inv(OtherInv, 0));
    hide Wanted, Drain, OfInterest, Enqueue, OwesInv, InFlight, Of;
    if s.sync == Some(p) || env.current {
      EnqueueIs(s.req, p, queue, Inv(OtherInv, 0));
      DrainIs(queued, env, p, queue, 0, 0, Inv(OtherInv, 0));
      forall iv: Inv ensures HeardOf(s, env, p, invs, iv, after) {
        WantedIff(s, env, invs, iv);
        EnqueueIs(s.req, p, queue, iv);
        DrainIs(queued, env, p, queue, 0, 0, iv);
        assert queue[0..] == queue;
      }
    }
  }

  // ---- Demands on behalf of others ----

  /** Whether a demanded thing is there, by the question that is asked of its kind. */
  ghost function There(env: Env, iv: Inv): Option<bool> {
    if iv.kind.TxInv? then env.haveTx(iv.hash) else env.have(iv)
  }

  ghost predicate Demanded(blocks: seq<Hash>, txs: seq<Hash>, iv: Inv) {
    if iv.kind.BlockInv? then iv.hash in blocks else iv.kind.TxInv? && iv.hash in txs
  }

  /** The peer newly owes nothing but what was demanded and is not there. If every question is answered and all of it
      fits a message, whatever was demanded is owed by it, was in flight already, or is there. */
  ghost predicate DemandRight(s: State, env: Env, p: Peer, blocks: seq<Hash>, txs: seq<Hash>, after: State) {
    && after == s.(req := after.req) && (forall q :: q != p ==> Of(after.req, q) == Of(s.req, q))
    && Of(after.req, p).queue == Of(s.req, p).queue
    && forall iv :: DemandOf(s, env, p, blocks, txs, iv, after)
  }

  ghost predicate HaveAll(env: Env, blocks: seq<Hash>) {
    forall h :: h in blocks ==> env.have(Inv(BlockInv, h)).Some?
  }

  ghost predicate HaveAllTxs(env: Env, txs: seq<Hash>) {
    forall h :: h in txs ==> env.haveTx(h).Some?
  }

  ghost predicate Answerable(env: Env, blocks: seq<Hash>, txs: seq<Hash>) {
    HaveAll(env, blocks) && HaveAllTxs(env, txs) && |blocks| + |txs| <= MAX_INV_PER_MSG
  }

  ghost predicate DemandOf(s: State, env: Env, p: Peer, blocks: seq<Hash>, txs: seq<Hash>, iv: Inv, after: State) {
    && (OwesInv(s.req, p, iv) ==> OwesInv(after.req, p, iv))
    && (OwesInv(after.req, p, iv) && !OwesInv(s.req, p, iv) ==>
          Demanded(blocks, txs, iv) && There(env, iv) == Some(false))
    && (Answerable(env, blocks, txs) && Demanded(blocks, txs, iv) ==>
          OwesInv(after.req, p, iv) || InFlight(s.req, iv) || There(env, iv) == Some(true))
  }

  lemma {:induction false} DemandBlocksIs(r: Requests, env: Env, p: Peer, hashes: seq<Hash>, j: nat, num: nat, x: Inv)
    requires j <= |hashes|
    ensures var (after, n) := DemandBlocks(r, env, p, hashes, j, num);
      && (forall q :: q != p ==> Of(after, q) == Of(r, q)) && Of(after, p).queue == Of(r, p).queue
      && (OwesInv(r, p, x) ==> OwesInv(after, p, x)) && (InFlight(r, x) ==> InFlight(after, x))
      && (x.kind.TxInv? && InFlight(after, x) ==> InFlight(r, x))
      && (OwesInv(after, p, x) && !OwesInv(r, p, x) ==>
            x.kind.BlockInv? && x.hash in hashes[j..] && env.have(x) == Some(false))
      && (n.Some? && x.kind.BlockInv? && x.hash in hashes[j..] ==>
            OwesInv(after, p, x) || InFlight(r, x) || env.have(x) == Some(true))
      && (num + |hashes| - j <= MAX_INV_PER_MSG && HaveAll(env, hashes[j..]) ==>
            n.Some? && n.value <= num + |hashes| - j)
    decreases |hashes| - j
  {
    if j < |hashes| {
      var h := hashes[j];
      assert hashes[j..] == [h] + hashes[j + 1..];
      assert h in Of(r, p).blocks <==> OwesInv(r, p, Inv(BlockInv, h));
      assert h in r.blocks <==> InFlight(r, Inv(BlockInv, h));
      YesOrNo(env.have(Inv(BlockInv, h)));
      AskBlockIs(r, p, h, x);
      hide OwesInv, InFlight, Of, AskBlock;
      DemandBlocksIs(r, env, p, hashes, j + 1, num, x);
      DemandBlocksIs(AskBlock(r, p, h), env, p, hashes, j + 1, num + 1, x);
    }
  }

  lemma {:induction false} DemandTxsIs(r: Requests, env: Env, p: Peer, hashes: seq<Hash>, j: nat, num: nat, x: Inv)
    requires j <= |hashes|
    ensures var (after, n) := DemandTxs(r, env, p, hashes, j, num);
      && (forall q :: q != p ==> Of(after, q) == Of(r, q)) && Of(after, p).queue == Of(r, p).queue
      && (OwesInv(r, p, x) ==> OwesInv(after, p, x))
      && (OwesInv(after, p, x) && !OwesInv(r, p, x) ==>
            x.kind.TxInv? && x.hash in hashes[j..] && env.haveTx(x.hash) == Some(false))
      && (n.Some? && x.kind.TxInv? && x.hash in hashes[j..] ==>
            OwesInv(after, p, x) || InFlight(r, x) || env.haveTx(x.hash) == Some(true))
      && (num + |hashes| - j <= MAX_INV_PER_MSG && HaveAllTxs(env, hashes[j..]) ==> n.Some?)
    decreases |hashes| - j
  {
    if j < |hashes| {
      var h := hashes[j];
      assert hashes[j..] == [h] + hashes[j + 1..];
      assert h in Of(r, p).txs <==> OwesInv(r, p, Inv(TxInv, h));
      assert h in r.txs <==> InFlight(r, Inv(TxInv, h));
      YesOrNo(env.haveTx(h));
      AskTxIs(r, p, h, x);
      hide OwesInv, InFlight, Of, AskTx;
      DemandTxsIs(r, env, p, hashes, j + 1, num, x);
      DemandTxsIs(AskTx(r, p, h), env, p, hashes, j + 1, num + 1, x);
    }
  }

  lemma DemandAnswers(s: State, env: Env, p: Peer, blocks: seq<Hash>, txs: seq<Hash>)
    ensures DemandRight(s, env, p, blocks, txs, Demand(s, env, p, blocks, txs))
  {
    var after := Demand(s, env, p, blocks, txs);
    hide OwesInv, InFlight, Of, DemandBlocks, DemandTxs;
    var (r, num) := DemandBlocks(s.req, env, p, blocks, 0, 0);
    assert blocks[0..] == blocks && txs[0..] == txs;
    DemandBlocksIs(s.req, env, p, blocks, 0, 0, Inv(OtherInv, 0));
    if num.Some? {
      DemandTxsIs(r, env, p, txs, 0, num.value, Inv(OtherInv, 0));
    }
    forall iv: Inv ensures DemandOf(s, env, p, blocks, txs, iv, after) {
      DemandBlocksIs(s.req, env, p, blocks, 0, 0, iv);
      if num.Some? {
        DemandTxsIs(r, env, p, txs, 0, num.value, iv);
      }
      OtherIsNotOwed(after.req, p, iv);
    }
  }

  lemma OtherIsNotOwed(r: Requests, p: Peer, iv: Inv)
    ensures OwesInv(r, p, iv) ==> !iv.kind.OtherInv?
  {
  }

  // ---- Transactions ----

  /** A transaction that was not rejected before is no longer asked for. It is rejected if it is not accepted, and one
      that was rejected is forgotten for it if there are too many. */
  ghost predicate TxRight(s: State, env: Env, p: Peer, h: Hash, accepted: bool, after: State) {
    if h in s.rejected then after == s
    else
      && after == s.(req := after.req, rejected := after.rejected) && h !in after.req.txs && !OwesTx(after.req, p, h)
      && after.req.blocks == s.req.blocks && (forall g :: g != h ==> (g in after.req.txs <==> g in s.req.txs))
      && (forall q, g :: q != p || g != h ==> (OwesTx(after.req, q, g) <==> OwesTx(s.req, q, g)))
      && (forall q, g :: Owes(after.req, q, g) <==> Owes(s.req, q, g))
      && (accepted ==> after.rejected == s.rejected)
      && (!accepted ==>
            var all := s.rejected + {h};
            after.rejected == if |all| >= 1000 then all - {env.pick(0, all)} else all)
  }

  lemma TxAnswers(s: State, env: Env, p: Peer, h: Hash, accepted: bool)
    ensures TxRight(s, env, p, h, accepted, TxMsg(s, env, p, h, accepted))
  {
  }
}
