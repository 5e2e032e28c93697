/** What the block manager keeps over any run of messages. */
module SyncProof {
  import opened Chain
  import opened SyncState

  lemma YesOrNo(answer: Option<bool>)
    ensures answer.None? || answer == Some(true) || answer == Some(false)
  {
    match answer {
      case None =>
      case Some(yes) =>
        if yes {
          assert answer == Some(true);
        } else {
          assert answer == Some(false);
        }
    }
  }

  // ---- Every request has somebody who owes it ----

  ghost predicate Owes(r: Requests, p: Peer, h: Hash) {
    p in r.peers && h in r.peers[p].blocks
  }

  ghost predicate OwesTx(r: Requests, p: Peer, h: Hash) {
    p in r.peers && h in r.peers[p].txs
  }

  /** Every hash in flight is owed by a peer that has not left, so that no hash stays blocked. */
  ghost predicate Held(r: Requests, done: set<Peer>) {
    && (forall h :: h in r.blocks ==> exists p :: p !in done && Owes(r, p, h))
    && (forall h :: h in r.txs ==> exists p :: p !in done && OwesTx(r, p, h))
  }

  /** A change that keeps what the other peers owe, and what `p` owes but for the hashes that leave the global maps. */
  ghost predicate Keeps(r: Requests, s: Requests, p: Peer) {
    && s.blocks <= r.blocks && s.txs <= r.txs
    && (forall q, h :: Owes(r, q, h) && (q != p || h in s.blocks) ==> Owes(s, q, h))
    && (forall q, h :: OwesTx(r, q, h) && (q != p || h in s.txs) ==> OwesTx(s, q, h))
  }

  lemma KeepsHeld(r: Requests, s: Requests, p: Peer, done: set<Peer>)
    requires Held(r, done) && Keeps(r, s, p)
    ensures Held(s, done)
  {
    forall h | h in s.blocks ensures exists q :: q !in done && Owes(s, q, h) {
      var q :| q !in done && Owes(r, q, h);
      assert Owes(s, q, h);
    }
    forall h | h in s.txs ensures exists q :: q !in done && OwesTx(s, q, h) {
      var q :| q !in done && OwesTx(r, q, h);
      assert OwesTx(s, q, h);
    }
  }

  lemma AskBlockHeld(r: Requests, done: set<Peer>, p: Peer, h: Hash)
    requires Held(r, done) && p !in done
    ensures Held(AskBlock(r, p, h), done)
  {
    var s := AskBlock(r, p, h);
    assert forall q, g :: OwesTx(r, q, g) ==> OwesTx(s, q, g);
    assert Owes(s, p, h);
    forall g | g in s.blocks ensures exists q :: q !in done && Owes(s, q, g) {
      if g != h {
        var q :| q !in done && Owes(r, q, g);
        assert Owes(s, q, g);
      }
    }
  }

  lemma AskTxHeld(r: Requests, done: set<Peer>, p: Peer, h: Hash)
    requires Held(r, done) && p !in done
    ensures Held(AskTx(r, p, h), done)
  {
    var s := AskTx(r, p, h);
    assert forall q, g :: Owes(r, q, g) ==> Owes(s, q, g);
    assert OwesTx(s, p, h);
    forall g | g in s.txs ensures exists q :: q !in done && OwesTx(s, q, g) {
      if g != h {
        var q :| q !in done && OwesTx(r, q, g);
        assert OwesTx(s, q, g);
      }
    }
  }

  /** A peer that leaves takes nothing with it: what it owed is in flight no longer, or owed by another. */
  lemma ReleaseHeld(r: Requests, done: set<Peer>, p: Peer)
    requires Held(r, done)
    ensures Held(Release(r, p), done + {p})
    ensures forall h :: Owes(r, p, h) ==> h !in Release(r, p).blocks
    ensures forall h :: OwesTx(r, p, h) ==> h !in Release(r, p).txs
  {
    var s := Release(r, p);
    forall h | h in s.blocks ensures exists q :: q !in done + {p} && Owes(s, q, h) {
      var q :| q !in done && Owes(r, q, h);
      assert q != p && Owes(s, q, h);
    }
    forall h | h in s.txs ensures exists q :: q !in done + {p} && OwesTx(s, q, h) {
      var q :| q !in done && OwesTx(r, q, h);
      assert q != p && OwesTx(s, q, h);
    }
  }

  // ---- Copies of a block are limited by its requests ----

  ghost function Holders(peers: map<Peer, Asked>, h: Hash): set<Peer> {
    set p | p in peers && h in peers[p].blocks
  }

  /** The counter of a block stays within its limit, each request pays for four unsolicited copies and for one from the
      peer that was asked, and a block that was never asked for was never processed. */
  ghost predicate Meter(r: Requests, h: Hash) {
    && (h in r.ever ==> r.ever[h] <= MAX_RESEND_LIMIT + 1 && r.log.unsolicited[h] + 4 <= 4 * r.log.asked[h] + r.ever[h])
    && (h !in r.ever ==> r.log.asked[h] == 0 && r.log.unsolicited[h] == 0)
    && r.log.solicited[h] + |Holders(r.peers, h)| <= r.log.asked[h]
  }

  ghost predicate Metered(r: Requests) {
    forall h :: Meter(r, h)
  }

  /** What the meter means: processing needs a request, and copies are at most five for each. */
  lemma CopiesLimited(r: Requests, h: Hash)
    requires Metered(r)
    ensures r.log.solicited[h] + r.log.unsolicited[h] <= 5 * r.log.asked[h]
    ensures r.log.unsolicited[h] <= 4 * r.log.asked[h]
    ensures h in r.ever ==> r.ever[h] < 256
    ensures forall p :: Owes(r, p, h) ==> h in r.ever
  {
    assert Meter(r, h);
    forall p | Owes(r, p, h) ensures h in r.ever {
      assert p in Holders(r.peers, h);
    }
  }

  lemma HoldersAfter(peers: map<Peer, Asked>, p: Peer, a: Asked, h: Hash)
    ensures Holders(peers[p := a], h) == if h in a.blocks then Holders(peers, h) + {p} else Holders(peers, h) - {p}
    ensures |Holders(peers, h) + {p}| <= |Holders(peers, h)| + 1 && |Holders(peers, h) - {p}| <= |Holders(peers, h)|
    ensures p in Holders(peers, h) ==>
      |Holders(peers, h) - {p}| == |Holders(peers, h)| - 1 && |Holders(peers, h) + {p}| == |Holders(peers, h)|
  {
    if p in Holders(peers, h) {
      assert Holders(peers, h) + {p} == Holders(peers, h);
    }
  }

  lemma AskBlockMetered(r: Requests, p: Peer, h: Hash)
    requires Metered(r)
    ensures Metered(AskBlock(r, p, h))
  {
    var a := Of(r, p);
    forall g ensures Meter(AskBlock(r, p, h), g) {
      assert Meter(r, g);
      HoldersAfter(r.peers, p, a.(blocks := a.blocks + {h}), g);
      SameHolders(r.peers, p, g);
    }
  }

  lemma SameHolders(peers: map<Peer, Asked>, p: Peer, h: Hash)
    ensures p in peers && h in peers[p].blocks ==> p in Holders(peers, h)
    ensures !(p in peers && h in peers[p].blocks) ==> Holders(peers, h) - {p} == Holders(peers, h)
  {
  }

  lemma TakeBlockMetered(r: Requests, p: Peer, h: Hash)
    requires Metered(r) && Admits(r, p, h)
    ensures Metered(TakeBlock(r, p, h))
  {
    var a := Of(r, p);
    forall g ensures Meter(TakeBlock(r, p, h), g) {
      assert Meter(r, g);
      HoldersAfter(r.peers, p, a.(blocks := a.blocks - {h}), g);
      SameHolders(r.peers, p, g);
      assert h in a.blocks ==> Meter(r, h);
    }
  }

  /** Changes that leave the blocks of the peers, the counters and the log alone. */
  lemma SameMetered(r: Requests, s: Requests)
    requires Metered(r) && s.ever == r.ever && s.log == r.log
    requires forall h :: Holders(s.peers, h) == Holders(r.peers, h)
    ensures Metered(s)
  {
    forall h ensures Meter(s, h) {
      assert Meter(r, h);
    }
  }

  // ---- The two together, message by message ----

  ghost predicate ReqOk(r: Requests, done: set<Peer>) {
    Held(r, done) && Metered(r)
  }

  lemma AskBlockOk(r: Requests, done: set<Peer>, p: Peer, h: Hash)
    requires ReqOk(r, done) && p !in done
    ensures ReqOk(AskBlock(r, p, h), done)
  {
    AskBlockHeld(r, done, p, h);
    AskBlockMetered(r, p, h);
  }

  lemma AskTxOk(r: Requests, done: set<Peer>, p: Peer, h: Hash)
    requires ReqOk(r, done) && p !in done
    ensures ReqOk(AskTx(r, p, h), done)
  {
    AskTxHeld(r, done, p, h);
    SameMetered(r, AskTx(r, p, h));
  }

  lemma TakeBlockOk(r: Requests, done: set<Peer>, p: Peer, h: Hash)
    requires ReqOk(r, done) && Admits(r, p, h)
    ensures ReqOk(TakeBlock(r, p, h), done)
  {
    KeepsHeld(r, TakeBlock(r, p, h), p, done);
    TakeBlockMetered(r, p, h);
  }

  lemma TakeTxOk(r: Requests, done: set<Peer>, p: Peer, h: Hash)
    requires ReqOk(r, done)
    ensures ReqOk(TakeTx(r, p, h), done)
  {
    KeepsHeld(r, TakeTx(r, p, h), p, done);
    SameMetered(r, TakeTx(r, p, h));
  }

  lemma ReleaseOk(r: Requests, done: set<Peer>, p: Peer)
    requires ReqOk(r, done)
    ensures ReqOk(Release(r, p), done + {p})
  {
    ReleaseHeld(r, done, p);
    SameMetered(r, Release(r, p));
  }

  lemma FewerOk(r: Requests, done: set<Peer>, blocks: set<Hash>, txs: set<Hash>)
    requires ReqOk(r, done) && blocks <= r.blocks && txs <= r.txs
    ensures ReqOk(r.(blocks := blocks, txs := txs), done)
  {
    var s := r.(blocks := blocks, txs := txs);
    assert forall q, h :: Owes(r, q, h) ==> Owes(s, q, h);
    assert forall q, h :: OwesTx(r, q, h) ==> OwesTx(s, q, h);
    KeepsHeld(r, s, 0, done);
    SameMetered(r, s);
  }

  lemma EnqueueOk(r: Requests, done: set<Peer>, p: Peer, queue: seq<Inv>)
    requires ReqOk(r, done)
    ensures ReqOk(Enqueue(r, p, queue), done)
  {
    KeepsHeld(r, Enqueue(r, p, queue), p, done);
    SameMetered(r, Enqueue(r, p, queue));
  }

  lemma RequestOk(r: Requests, env: Env, done: set<Peer>, p: Peer, iv: Inv, i: nat)
    requires ReqOk(r, done) && p !in done
    ensures ReqOk(Request(r, env, p, iv, i), done)
  {
    hide ReqOk, AskBlock, AskTx;
    if !Pending(r, iv) {
      if iv.kind.BlockInv? {
        AskBlockOk(r, done, p, iv.hash);
        var r1 := AskBlock(r, p, iv.hash);
        FewerOk(r1, done, Limited(r1.blocks, MAX_REQUESTED_BLOCKS, env.pick(i, r1.blocks)), r1.txs);
      } else {
        AskTxOk(r, done, p, iv.hash);
        var r1 := AskTx(r, p, iv.hash);
        FewerOk(r1, done, r1.blocks, Limited(r1.txs, MAX_REQUESTED_TXNS, env.pick(i, r1.txs)));
      }
    }
  }

  lemma {:induction false} DrainOk(r: Requests, env: Env, done: set<Peer>, p: Peer, queue: seq<Inv>, i: nat, num: nat)
    requires ReqOk(r, done) && p !in done
    ensures ReqOk(Drain(r, env, p, queue, i, num), done)
    decreases |queue| - i
  {
    hide ReqOk, Request, Enqueue, Pending;
    if i >= |queue| {
      EnqueueOk(r, done, p, []);
    } else {
      var n, r1 := if Pending(r, queue[i]) then num else num + 1, Request(r, env, p, queue[i], i);
      RequestOk(r, env, done, p, queue[i], i);
      if n >= MAX_INV_PER_MSG {
        EnqueueOk(r1, done, p, queue[i + 1..]);
      } else {
        DrainOk(r1, env, done, p, queue, i + 1, n);
      }
    }
  }

  ghost predicate Consumed(after: Requests, p: Peer, queue: seq<Inv>, n: nat) {
    n <= |queue| && Of(after, p).queue == queue[n..]
  }

  /** Draining asks for a first part of the queue and keeps the rest in order, and keeps something only if the message
      was filled up. What was taken and is worth asking for has been asked for, now or before. */
  lemma {:induction false} DrainTakesPrefix(r: Requests, env: Env, p: Peer, queue: seq<Inv>, i: nat, num: nat)
    returns (n: nat)
    requires i <= |queue| && num < MAX_INV_PER_MSG
    ensures i <= n && Consumed(Drain(r, env, p, queue, i, num), p, queue, n)
    ensures n < |queue| ==> n - i >= MAX_INV_PER_MSG - num
    ensures forall k :: i <= k < n && queue[k].kind.BlockInv? ==>
      queue[k].hash in Drain(r, env, p, queue, i, num).ever || queue[k].hash in r.blocks
    decreases |queue| - i
  {
    hide Consumed;
    if i == |queue| {
      assert Consumed(Enqueue(r, p, []), p, queue, i) by { ConsumedNow(r, p, queue, i); }
      return i;
    }
    var r1 := Request(r, env, p, queue[i], i);
    var m := if Pending(r, queue[i]) then num else num + 1;
    if m >= MAX_INV_PER_MSG {
      ConsumedNow(r1, p, queue, i + 1);
      n := i + 1;
    } else {
      n := DrainTakesPrefix(r1, env, p, queue, i + 1, m);
      EverStays(r1, env, p, queue, i + 1, m);
    }
  }

  lemma ConsumedNow(r: Requests, p: Peer, queue: seq<Inv>, n: nat)
    requires n <= |queue|
    ensures Consumed(Enqueue(r, p, queue[n..]), p, queue, n)
    ensures n == |queue| ==> queue[n..] == []
  {
  }

  lemma {:induction false} EverStays(r: Requests, env: Env, p: Peer, queue: seq<Inv>, i: nat, num: nat)
    ensures r.ever.Keys <= Drain(r, env, p, queue, i, num).ever.Keys
    decreases |queue| - i
  {
    if i < |queue| {
      var m := if Pending(r, queue[i]) then num else num + 1;
      EverStays(Request(r, env, p, queue[i], i), env, p, queue, i + 1, m);
    }
  }

  lemma {:induction false} DemandBlocksOk(r: Requests, env: Env, done: set<Peer>, p: Peer, hashes: seq<Hash>, j: nat,
                                          num: nat)
    requires ReqOk(r, done) && p !in done
    ensures ReqOk(DemandBlocks(r, env, p, hashes, j, num).0, done)
    decreases |hashes| - j
  {
    hide ReqOk, AskBlock, Of;
    if j < |hashes| {
      AskBlockOk(r, done, p, hashes[j]);
      DemandBlocksOk(r, env, done, p, hashes, j + 1, num);
      DemandBlocksOk(AskBlock(r, p, hashes[j]), env, done, p, hashes, j + 1, num + 1);
    }
  }

  lemma {:induction false} DemandTxsOk(r: Requests, env: Env, done: set<Peer>, p: Peer, hashes: seq<Hash>, j: nat,
                                       num: nat)
    requires ReqOk(r, done) && p !in done
    ensures ReqOk(DemandTxs(r, env, p, hashes, j, num).0, done)
    decreases |hashes| - j
  {
    hide ReqOk, AskTx, Of;
    if j < |hashes| {
      AskTxOk(r, done, p, hashes[j]);
      DemandTxsOk(r, env, done, p, hashes, j + 1, num);
      DemandTxsOk(AskTx(r, p, hashes[j]), env, done, p, hashes, j + 1, num + 1);
    }
  }

  // ---- The checkpoints ----

  /** For checkpoints in ascending order, the scan finds the lowest one above a height, and nothing exactly if there is
      none above. */
  lemma {:induction false} NextIsLowestAbove(cps: seq<Checkpoint>, height: int)
    requires forall i, j :: 0 <= i < j < |cps| ==> cps[i].height < cps[j].height
    ensures var next := NextFrom(cps, height);
      && (next.None? ==> forall cp :: cp in cps ==> cp.height <= height)
      && (next.Some? ==> next.value in cps && next.value.height > height)
      && (next.Some? ==> forall cp :: cp in cps && cp.height > height ==> next.value.height <= cp.height)
  {
    if cps != [] {
      var front, last := cps[..|cps| - 1], cps[|cps| - 1];
      NextIsLowestAbove(front, height);
      assert cps == front + [last];
    }
  }

  // ---- The header list ----

  /** Each header of the list names the one before it as its parent, and is one higher. */
  ghost predicate Linked(c: Params, list: seq<Node>) {
    forall i :: 0 < i < |list| ==>
      list[i].height == list[i - 1].height + 1 && c.prevOf(list[i].hash) == list[i - 1].hash
  }

  ghost predicate HdrOk(c: Params, hdr: Headers) {
    Linked(c, hdr.list) && (hdr.start.At? ==> hdr.start.i < |hdr.list|)
  }

  /** The ancestor `n` generations above a hash. */
  function Ancestor(c: Params, h: Hash, n: nat): Hash {
    if n == 0 then h else c.prevOf(Ancestor(c, h, n - 1))
  }

  lemma {:induction false} LinkedToLast(c: Params, list: seq<Node>, i: nat)
    requires Linked(c, list) && i < |list|
    ensures var last := list[|list| - 1]; var up := |list| - 1 - i;
      list[i].hash == Ancestor(c, last.hash, up) && list[i].height == last.height - up
    decreases |list| - i
  {
    if i < |list| - 1 {
      LinkedToLast(c, list, i + 1);
    }
  }

  lemma DropFrontOk(c: Params, hdr: Headers)
    requires HdrOk(c, hdr) && hdr.list != []
    ensures HdrOk(c, DropFront(hdr))
  {
  }

  lemma PushOk(c: Params, hdr: Headers, h: Hash)
    requires HdrOk(c, hdr) && hdr.list != [] && c.prevOf(h) == hdr.list[|hdr.list| - 1].hash
    ensures HdrOk(c, Push(hdr, h)) && Push(hdr, h).next == hdr.next && Push(hdr, h).first == hdr.first
    ensures |Push(hdr, h).list| == |hdr.list| + 1 && Push(hdr, h).list[|hdr.list|].hash == h
    ensures !Push(hdr, h).start.NoStart?
  {
  }

  lemma {:induction false} ReadHeadersOk(c: Params, hdr: Headers, headers: seq<Hash>, j: nat)
    requires HdrOk(c, hdr) && hdr.next.Some?
    ensures var (after, reading) := ReadHeaders(c, hdr, headers, j);
      && HdrOk(c, after) && after.next == hdr.next && after.first == hdr.first && |after.list| >= |hdr.list|
      && (reading.AtCheckpoint? ==> |after.list| >= 2 && !after.start.NoStart?)
      && (reading.AtCheckpoint? ==> after.list[|after.list| - 1] == Node(hdr.next.value.height, hdr.next.value.hash))
    decreases |headers| - j
  {
    hide HdrOk, Push;
    if j < |headers| && hdr.list != [] && c.prevOf(headers[j]) == hdr.list[|hdr.list| - 1].hash {
      PushOk(c, hdr, headers[j]);
      ReadHeadersOk(c, Push(hdr, headers[j]), headers, j + 1);
    }
  }

  /** When a header message starts the fetching of blocks, every header of the list is the checkpoint or an ancestor of
      it, at the height that its distance says. */
  lemma FetchedAreAncestors(c: Params, hdr: Headers, headers: seq<Hash>, i: nat)
    requires HdrOk(c, hdr) && hdr.next.Some? && ReadHeaders(c, hdr, headers, 0).1.AtCheckpoint?
    requires ReadHeaders(c, hdr, headers, 0).0.list != []
    requires i < |DropFront(ReadHeaders(c, hdr, headers, 0).0).list|
    ensures var list, cp := DropFront(ReadHeaders(c, hdr, headers, 0).0).list, hdr.next.value;
      && list[i].hash == Ancestor(c, cp.hash, |list| - 1 - i) && list[i].height == cp.height - (|list| - 1 - i)
      && list[|list| - 1].hash == cp.hash
  {
    ReadHeadersOk(c, hdr, headers, 0);
    hide ReadHeaders;
    var after := ReadHeaders(c, hdr, headers, 0).0;
    DropFrontOk(c, after);
    LinkedToLast(c, DropFront(after).list, i);
  }
}
