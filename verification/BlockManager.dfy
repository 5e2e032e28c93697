/** The block manager as it runs: one goroutine that handles message after message. */
module BlockManager {
  import opened Chain
  import opened SyncState
  import opened SyncProof
  import opened SyncRuns
  import SyncAnswer
  import SyncProgress

  class BlockManager {
    const params: Params
    var peers: map<Peer, Asked>
    var rejectedTxns: set<Hash>
    var requestedTxns: set<Hash>
    var requestedBlocks: set<Hash>
    var requestedEverBlocks: map<Hash, nat>
    var syncPeer: Option<Peer>
    var headersFirstMode: bool
    var headerList: seq<Node>
    var startHeader: Cursor
    var nextCheckpoint: Option<Checkpoint>
    var candidates: seq<Peer>
    ghost var log: Log

    ghost function Req(): Requests
      reads this
    {
      Requests(peers, requestedBlocks, requestedTxns, requestedEverBlocks, log)
    }

    function Hdr(): Headers
      reads this
    {
      Headers(headersFirstMode, headerList, startHeader, nextCheckpoint)
    }

    ghost function View(): State
      reads this
    {
      State(Req(), Hdr(), rejectedTxns, syncPeer, candidates)
    }

    constructor (params: Params, best: Node)
      ensures this.params == params && View() == Started(params, best)
    {
      this.params, peers, rejectedTxns, requestedTxns, requestedBlocks := params, map[], {}, {}, {};
      requestedEverBlocks, syncPeer, candidates, log := map[], None, [], Log(multiset{}, multiset{}, multiset{});
      headersFirstMode, headerList, startHeader, nextCheckpoint := false, [], NoStart, None;
      new;
      if !params.disabled {
        nextCheckpoint := FindNextHeaderCheckpoint(best.height);
        if nextCheckpoint.Some? {
          ResetHeaderState(best);
        }
      }
    }

    /** The next checkpoint above a height, by a scan from the last one back. */
    method FindNextHeaderCheckpoint(height: int) returns (next: Option<Checkpoint>)
      ensures next == FindNext(params, height)
    {
      var cps := params.checkpoints;
      if params.disabled || |cps| == 0 || height >= cps[|cps| - 1].height {
        return None;
      }
      next := Some(cps[|cps| - 1]);
      var i := |cps| - 2;
      while i >= 0
        invariant -1 <= i <= |cps| - 2
        invariant var below := NextFrom(cps[..i + 1], height);
          NextFrom(cps, height) == if below.Some? then below else next
      {
        assert cps[..i + 1][..i] == cps[..i];
        if height >= cps[i].height {
          break;
        }
        next := Some(cps[i]);
        i := i - 1;
      }
    }

    method ResetHeaderState(newest: Node)
      modifies this`headersFirstMode, this`headerList, this`startHeader
      ensures Hdr() == Reset(old(Hdr()), newest)
    {
      headersFirstMode, headerList, startHeader := false, [], NoStart;
      if nextCheckpoint.Some? {
        headerList := headerList + [newest];
      }
    }

    /** Drops the candidates that are behind, and finds the first of those that are furthest ahead. */
    method Choose(env: Env) returns (bestPeer: Option<Peer>)
      modifies this`candidates
      ensures candidates == Fit(old(candidates), env) && bestPeer == Furthest(candidates, env)
    {
      bestPeer := None;
      var kept := [];
      for i := 0 to |candidates|
        invariant candidates == old(candidates)
        invariant kept == Fit(candidates[..i], env) && bestPeer == Furthest(kept, env)
      {
        var p := candidates[i];
        assert candidates[..i + 1][..i] == candidates[..i];
        if env.lastBlock(p) < env.best.height {
          continue;
        }
        if bestPeer.None? || env.lastBlock(bestPeer.value) < env.lastBlock(p) {
          bestPeer := Some(p);
        }
        assert (kept + [p])[..|kept|] == kept;
        kept := kept + [p];
      }
      assert candidates[..|candidates|] == candidates;
      candidates := kept;
    }

    method StartSync(env: Env)
      modifies this`candidates, this`requestedBlocks, this`headersFirstMode, this`syncPeer
      ensures View() == SyncState.StartSync(params, old(View()), env)
    {
      hide Fit, Furthest;
      if syncPeer.Some? {
        return;
      }
      var bestPeer := Choose(env);
      if bestPeer.Some? {
        requestedBlocks := {};
        if !env.locatorOk || !env.pushOk {
          return;
        }
        if nextCheckpoint.Some? && env.best.height < nextCheckpoint.value.height && !params.disabled {
          headersFirstMode := true;
        }
        syncPeer := bestPeer;
      }
    }

    // ---- Requests ----

    function RequestsOf(p: Peer): Asked
      reads this
    {
      if p in peers then peers[p] else Asked({}, {}, [])
    }

    method AskForBlock(p: Peer, h: Hash)
      modifies this`peers, this`requestedBlocks, this`requestedEverBlocks, this`log
      ensures Req() == AskBlock(old(Req()), p, h)
    {
      requestedBlocks := requestedBlocks + {h};
      requestedEverBlocks := requestedEverBlocks[h := 0];
      var a := RequestsOf(p);
      peers := peers[p := a.(blocks := a.blocks + {h})];
      log := log.(asked := log.asked + multiset{h});
    }

    method AskForTx(p: Peer, h: Hash)
      modifies this`peers, this`requestedTxns
      ensures Req() == AskTx(old(Req()), p, h)
    {
      requestedTxns := requestedTxns + {h};
      var a := RequestsOf(p);
      peers := peers[p := a.(txs := a.txs + {h})];
    }

    /** Asks the sync peer for the blocks of the headers ahead of the cursor, as far as one message holds. */
    method FetchHeaderBlocks(env: Env)
      requires syncPeer.Some?
      modifies this`peers, this`requestedBlocks, this`requestedEverBlocks, this`log, this`startHeader
      ensures View() == FetchBlocks(old(View()), env)
    {
      hide AskBlock, Ahead, Moved;
      var hdr, num := Hdr(), 0;
      for j := 0 to |Ahead(hdr)|
        invariant FetchOn(View(), env, hdr, j, num) == FetchBlocks(old(View()), env)
      {
        var h := Ahead(hdr)[j].hash;
        var have := env.have(Inv(BlockInv, h));
        if have.None? {
          continue;
        }
        if !have.value {
          AskForBlock(syncPeer.value, h);
          num := num + 1;
        }
        startHeader := Moved(hdr, j + 1);
        if num >= MAX_INV_PER_MSG {
          return;
        }
      }
    }

    // ---- Peers that come and go ----

    method HandleNewPeer(env: Env, p: Peer, fullNode: bool)
      modifies this`candidates, this`requestedBlocks, this`headersFirstMode, this`syncPeer
      ensures View() == NewPeer(params, old(View()), env, p, fullNode)
    {
      if fullNode {
        candidates := candidates + [p];
        StartSync(env);
      }
    }

    method RemoveCandidate(p: Peer)
      modifies this`candidates
      ensures candidates == WithoutFirst(old(candidates), p)
    {
      hide WithoutFirst;
      for i := 0 to |candidates|
        invariant candidates == old(candidates)
        invariant WithoutFirst(candidates, p) == candidates[..i] + WithoutFirst(candidates[i..], p)
      {
        WithoutFirstAt(candidates[i..], p);
        if candidates[i] == p {
          candidates := candidates[..i] + candidates[i + 1..];
          return;
        }
        assert candidates[i..][1..] == candidates[i + 1..];
        assert candidates[..i] + [candidates[i]] == candidates[..i + 1];
      }
      WithoutFirstAt([], p);
    }

    lemma WithoutFirstAt(cands: seq<Peer>, p: Peer)
      ensures cands == [] ==> WithoutFirst(cands, p) == []
      ensures cands != [] && cands[0] == p ==> WithoutFirst(cands, p) == cands[1..]
      ensures cands != [] && cands[0] != p ==> WithoutFirst(cands, p) == [cands[0]] + WithoutFirst(cands[1..], p)
    {
    }

    /** Deletes keys one after the other. */
    method DeleteAll(m: set<Hash>, keys: set<Hash>) returns (left: set<Hash>)
      ensures left == m - keys
    {
      left := m;
      var todo := keys;
      while todo != {}
        invariant todo <= keys && left == m - (keys - todo)
      {
        var k :| k in todo;
        left := left - {k};
        todo := todo - {k};
      }
      assert keys - {} == keys;
    }

    method ReleaseRequests(p: Peer)
      modifies this`requestedTxns, this`requestedBlocks
      ensures Req() == Release(old(Req()), p)
    {
      var a := RequestsOf(p);
      requestedTxns := DeleteAll(requestedTxns, a.txs);
      requestedBlocks := DeleteAll(requestedBlocks, a.blocks);
    }

    method HandleDonePeer(env: Env, p: Peer)
      modifies this`candidates, this`requestedTxns, this`requestedBlocks, this`syncPeer, this`headersFirstMode,
               this`headerList, this`startHeader
      ensures View() == DonePeer(params, old(View()), env, p)
    {
      hide SyncState.StartSync, WithoutFirst, Reset, Release;
      RemoveCandidate(p);
      ReleaseRequests(p);
      if syncPeer == Some(p) {
        syncPeer := None;
        if headersFirstMode {
          ResetHeaderState(env.best);
        }
        StartSync(env);
      }
    }

    // ---- Transactions and blocks ----

    /** Makes room in a map that has grown too large, by evicting the entry that comes first. */
    method LimitMap(m: set<Hash>, limit: nat, first: Hash) returns (left: set<Hash>)
      ensures left == Limited(m, limit, first)
    {
      left := m;
      if |m| + 1 > limit {
        left := left - {first};
      }
    }

    method HandleTx(env: Env, p: Peer, h: Hash, accepted: bool)
      modifies this`peers, this`requestedTxns, this`rejectedTxns
      ensures View() == TxMsg(old(View()), env, p, h, accepted)
    {
      if h in rejectedTxns {
        return;
      }
      ghost var r := Req();
      var a := RequestsOf(p);
      peers := peers[p := a.(txs := a.txs - {h})];
      requestedTxns := requestedTxns - {h};
      assert Req() == TakeTx(r, p, h);
      hide Limited, TakeTx;
      if !accepted {
        rejectedTxns := rejectedTxns + {h};
        rejectedTxns := LimitMap(rejectedTxns, MAX_REJECTED_TXNS, env.pick(0, rejectedTxns));
      }
    }

    method RemoveFront()
      requires headerList != []
      modifies this`headerList, this`startHeader
      ensures Hdr() == DropFront(old(Hdr()))
    {
      if startHeader.At? {
        startHeader := if startHeader.i == 0 then Detached([headerList[0]]) else At(startHeader.i - 1);
      }
      headerList := headerList[1..];
    }

    /** Lets a block from a peer in if it was asked for, or asked for once and not resent too often; it is in flight no
        longer then. */
    method AdmitBlock(p: Peer, h: Hash) returns (admitted: bool)
      modifies this`peers, this`requestedBlocks, this`requestedEverBlocks, this`log
      ensures admitted == Admits(old(Req()), p, h)
      ensures Req() == if admitted then TakeBlock(old(Req()), p, h) else old(Req())
    {
      var a := RequestsOf(p);
      if h !in a.blocks {
        if h !in requestedEverBlocks || requestedEverBlocks[h] > MAX_RESEND_LIMIT {
          return false;
        }
        requestedEverBlocks := requestedEverBlocks[h := requestedEverBlocks[h] + 1];
        log := log.(unsolicited := log.unsolicited + multiset{h});
      } else {
        log := log.(solicited := log.solicited + multiset{h});
      }
      peers := peers[p := a.(blocks := a.blocks - {h})];
      requestedBlocks := requestedBlocks - {h};
      admitted := true;
    }

    /** Takes the block of `h` off the header list, unless it is the checkpoint. */
    method ArriveBlock(h: Hash) returns (checkpoint: bool)
      requires headersFirstMode ==> nextCheckpoint.Some?
      modifies this`headerList, this`startHeader
      ensures checkpoint == IsCheckpoint(old(Hdr()), h) && Hdr() == Arrived(old(Hdr()), h)
    {
      checkpoint := false;
      if headersFirstMode && headerList != [] && headerList[0].hash == h {
        if h == nextCheckpoint.value.hash {
          checkpoint := true;
        } else {
          RemoveFront();
        }
      }
    }

    method PassCheckpoint()
      requires nextCheckpoint.Some?
      modifies this`nextCheckpoint, this`headersFirstMode, this`headerList, this`startHeader
      ensures Hdr() == Passed(params, old(Hdr()))
    {
      nextCheckpoint := FindNextHeaderCheckpoint(nextCheckpoint.value.height);
      if nextCheckpoint.None? {
        headersFirstMode := false;
        startHeader := if startHeader.At? then Detached(Ahead(Hdr())) else startHeader;
        headerList := [];
      }
    }

    method HandleBlock(env: Env, p: Peer, h: Hash, outcome: Outcome)
      requires ModeOk(View())
      modifies this`peers, this`requestedBlocks, this`requestedEverBlocks, this`log, this`headerList, this`startHeader,
               this`rejectedTxns, this`nextCheckpoint, this`headersFirstMode
      ensures View() == BlockMsg(params, old(View()), env, p, h, outcome)
    {
      hide Admits, TakeBlock, Arrived, IsCheckpoint, Passed, FetchBlocks;
      var admitted := AdmitBlock(p, h);
      if !admitted {
        return;
      }
      ghost var before := Hdr();
      var checkpoint := ArriveBlock(h);
      if outcome.BlockError? {
        return;
      }
      if outcome.MainChain? {
        rejectedTxns := {};
      }
      ArrivedKeeps(before, h);
      if !headersFirstMode {
        return;
      }
      if !checkpoint {
        if !startHeader.NoStart? && |RequestsOf(p).blocks| < MIN_IN_FLIGHT_BLOCKS {
          FetchHeaderBlocks(env);
        }
        return;
      }
      PassCheckpoint();
    }

    lemma ArrivedKeeps(hdr: Headers, h: Hash)
      ensures Arrived(hdr, h).first == hdr.first && Arrived(hdr, h).next == hdr.next
    {
    }

    // ---- Headers ----

    /** Links headers onto the list, one after the other. */
    method LinkHeaders(headers: seq<Hash>) returns (reading: Reading)
      requires nextCheckpoint.Some?
      modifies this`headerList, this`startHeader
      ensures (Hdr(), reading) == ReadHeaders(params, old(Hdr()), headers, 0)
    {
      for j := 0 to |headers|
        invariant nextCheckpoint.Some?
        invariant ReadHeaders(params, Hdr(), headers, j) == ReadHeaders(params, old(Hdr()), headers, 0)
      {
        var h := headers[j];
        if headerList == [] || headerList[|headerList| - 1].hash != params.prevOf(h) {
          return Broken;
        }
        var node := Node(headerList[|headerList| - 1].height + 1, h);
        if startHeader.NoStart? {
          startHeader := At(|headerList|);
        }
        headerList := headerList + [node];
        if node.height == nextCheckpoint.value.height {
          return if h == nextCheckpoint.value.hash then AtCheckpoint else Broken;
        }
      }
      reading := More;
    }

    method HandleHeaders(env: Env, headers: seq<Hash>)
      requires ModeOk(View()) && HdrOk(params, Hdr())
      modifies this`peers, this`requestedBlocks, this`requestedEverBlocks, this`log, this`headerList, this`startHeader
      ensures View() == HeadersMsg(params, old(View()), env, headers)
    {
      if !headersFirstMode || |headers| == 0 {
        return;
      }
      ReadHeadersOk(params, Hdr(), headers, 0);
      hide ReadHeaders, FetchBlocks, DropFront;
      var reading := LinkHeaders(headers);
      if reading.AtCheckpoint? {
        RemoveFront();
        FetchHeaderBlocks(env);
      }
    }

    // ---- Inventory ----

    /** Queues what a peer announced and is worth asking for. */
    method QueueWanted(env: Env, p: Peer, invs: seq<Inv>)
      modifies this`peers
      ensures Req() == Enqueue(old(Req()), p, Of(old(Req()), p).queue + Wanted(old(View()), env, invs))
    {
      ghost var s := View();
      var a := RequestsOf(p);
      var queue := a.queue;
      for i := 0 to |invs|
        invariant queue == a.queue + Wanted(s, env, invs[..i])
      {
        var iv := invs[i];
        assert invs[..i + 1][..i] == invs[..i];
        if iv.kind.OtherInv? || headersFirstMode || env.have(iv) != Some(false) {
          continue;
        }
        if iv.kind.TxInv? && iv.hash in rejectedTxns {
          continue;
        }
        queue := queue + [iv];
      }
      assert invs[..|invs|] == invs;
      peers := peers[p := a.(queue := queue)];
    }

    method RequestOne(env: Env, p: Peer, iv: Inv, i: nat) returns (sent: bool)
      modifies this`peers, this`requestedBlocks, this`requestedTxns, this`requestedEverBlocks, this`log
      ensures sent == !Pending(old(Req()), iv) && Req() == Request(old(Req()), env, p, iv, i)
    {
      hide AskBlock, AskTx;
      sent := false;
      if iv.kind.BlockInv? && iv.hash !in requestedBlocks {
        AskForBlock(p, iv.hash);
        requestedBlocks := LimitMap(requestedBlocks, MAX_REQUESTED_BLOCKS, env.pick(i, requestedBlocks));
        sent := true;
      } else if iv.kind.TxInv? && iv.hash !in requestedTxns {
        AskForTx(p, iv.hash);
        requestedTxns := LimitMap(requestedTxns, MAX_REQUESTED_TXNS, env.pick(i, requestedTxns));
        sent := true;
      }
    }

    method DrainQueue(env: Env, p: Peer)
      modifies this`peers, this`requestedBlocks, this`requestedTxns, this`requestedEverBlocks, this`log
      ensures Req() == Drain(old(Req()), env, p, Of(old(Req()), p).queue, 0, 0)
    {
      hide Request, Pending;
      var queue, i, num := RequestsOf(p).queue, 0, 0;
      while i < |queue|
        invariant i <= |queue| && Drain(Req(), env, p, queue, i, num) == Drain(old(Req()), env, p, queue, 0, 0)
      {
        var sent := RequestOne(env, p, queue[i], i);
        if sent {
          num := num + 1;
        }
        i := i + 1;
        if num >= MAX_INV_PER_MSG {
          peers := peers[p := RequestsOf(p).(queue := queue[i..])];
          return;
        }
      }
      peers := peers[p := RequestsOf(p).(queue := [])];
    }

    method HandleInv(env: Env, p: Peer, invs: seq<Inv>)
      modifies this`peers, this`requestedBlocks, this`requestedTxns, this`requestedEverBlocks, this`log
      ensures View() == InvMsg(old(View()), env, p, invs)
      ensures SyncAnswer.InvRight(old(View()), env, p, invs, View())
    {
      SyncAnswer.InvAnswers(View(), env, p, invs);
      hide Wanted, Enqueue, Drain, SyncAnswer.InvRight;
      if syncPeer != Some(p) && !env.current {
        return;
      }
      QueueWanted(env, p, invs);
      DrainQueue(env, p);
    }

    // ---- Requests on behalf of others ----

    method RequestBlocks(env: Env, p: Peer, hashes: seq<Hash>) returns (num: Option<nat>)
      modifies this`peers, this`requestedBlocks, this`requestedEverBlocks, this`log
      ensures (Req(), num) == DemandBlocks(old(Req()), env, p, hashes, 0, 0)
    {
      hide AskBlock;
      var n := 0;
      for j := 0 to |hashes|
        invariant DemandBlocks(Req(), env, p, hashes, j, n) == DemandBlocks(old(Req()), env, p, hashes, 0, 0)
      {
        var h := hashes[j];
        if h in RequestsOf(p).blocks || h in requestedBlocks {
          continue;
        }
        var have := env.have(Inv(BlockInv, h));
        if have.None? {
          return None;
        }
        if have.value {
          continue;
        }
        if n >= MAX_INV_PER_MSG {
          return None;
        }
        AskForBlock(p, h);
        n := n + 1;
      }
      num := Some(n);
    }

    method RequestTxs(env: Env, p: Peer, hashes: seq<Hash>, sent: nat) returns (num: Option<nat>)
      modifies this`peers, this`requestedTxns
      ensures (Req(), num) == DemandTxs(old(Req()), env, p, hashes, 0, sent)
    {
      hide AskTx;
      var n: nat := sent;
      for j := 0 to |hashes|
        invariant DemandTxs(Req(), env, p, hashes, j, n) == DemandTxs(old(Req()), env, p, hashes, 0, sent)
      {
        var h := hashes[j];
        if h in RequestsOf(p).txs || h in requestedTxns {
          continue;
        }
        var have := env.haveTx(h);
        if have.None? {
          return None;
        }
        if have.value {
          continue;
        }
        if n >= MAX_INV_PER_MSG {
          return None;
        }
        AskForTx(p, h);
        n := n + 1;
      }
      num := Some(n);
    }

    method RequestFromPeer(env: Env, p: Peer, blocks: seq<Hash>, txs: seq<Hash>) returns (ok: bool)
      modifies this`peers, this`requestedBlocks, this`requestedTxns, this`requestedEverBlocks, this`log
      ensures View() == Demand(old(View()), env, p, blocks, txs)
      ensures var (r, num) := DemandBlocks(old(Req()), env, p, blocks, 0, 0);
        ok <==> num.Some? && DemandTxs(r, env, p, txs, 0, num.value).1.Some?
    {
      hide DemandBlocks, DemandTxs;
      var num := RequestBlocks(env, p, blocks);
      if num.None? {
        return false;
      }
      var total := RequestTxs(env, p, txs, num.value);
      ok := total.Some?;
    }

    // ---- The message loop ----

    /** Handles one message, whatever it is, and keeps the invariant. */
    method Handle(env: Env, msg: Msg, ghost joined: set<Peer>, ghost done: set<Peer>)
      requires SyncInv(params, View(), joined, done) && Allowed(msg, joined, done)
      modifies this
      ensures View() == Step(params, old(View()), env, msg)
      ensures SyncInv(params, View(), Joined(msg, joined), Done(msg, done))
      ensures SyncProgress.StepRight(params, old(View()), env, msg, View())
    {
      StepOk(params, View(), env, msg, joined, done);
      SyncProgress.StepAnswers(params, View(), env, msg, joined, done);
      hide SyncProgress.StepRight, SyncAnswer.InvRight, SyncInv, Joined, Done, Allowed, NewPeer, DonePeer, TxMsg,
           BlockMsg, HeadersMsg, InvMsg, Demand, ReqOk, PeersOk;
      match msg {
        case Joins(p, fullNode) => HandleNewPeer(env, p, fullNode);
        case Leaves(p) => HandleDonePeer(env, p);
        case SendsTx(p, tx, accepted) => HandleTx(env, p, tx, accepted);
        case SendsBlock(p, block, outcome) => HandleBlock(env, p, block, outcome);
        case SendsHeaders(p, headers) => HandleHeaders(env, headers);
        case SendsInv(p, invs) => HandleInv(env, p, invs);
        case Demands(p, blocks, txs) => var _ := RequestFromPeer(env, p, blocks, txs);
      }
    }
  }
}
