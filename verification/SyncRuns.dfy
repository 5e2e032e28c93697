/** Each message keeps the block manager's invariant, and so does every run. */
module SyncRuns {
  import opened Chain
  import opened SyncState
  import opened SyncProof

  /** Candidates have joined, have not left and are listed once; so has the sync peer. */
  ghost predicate PeersOk(s: State, joined: set<Peer>, done: set<Peer>) {
    && (forall i :: 0 <= i < |s.candidates| ==> s.candidates[i] in joined && s.candidates[i] !in done)
    && (forall i, j :: 0 <= i < j < |s.candidates| ==> s.candidates[i] != s.candidates[j])
    && (s.sync.Some? ==> s.sync.value in joined && s.sync.value !in done)
  }

  /** Headers-first mode has a peer to fetch from and a checkpoint to reach. */
  ghost predicate ModeOk(s: State) {
    s.hdr.first ==> s.sync.Some? && s.hdr.next.Some?
  }

  ghost predicate SyncInv(c: Params, s: State, joined: set<Peer>, done: set<Peer>) {
    ReqOk(s.req, done) && HdrOk(c, s.hdr) && PeersOk(s, joined, done) && ModeOk(s)
  }

  // ---- Fetching ----

  lemma MovedOk(c: Params, hdr: Headers, n: nat)
    requires HdrOk(c, hdr) && n > 0
    ensures HdrOk(c, hdr.(start := Moved(hdr, n)))
  {
  }

  lemma {:induction false} FetchOnOk(c: Params, s: State, env: Env, done: set<Peer>, hdr: Headers, j: nat, num: nat)
    requires ReqOk(s.req, done) && HdrOk(c, s.hdr) && HdrOk(c, hdr) && s.hdr == hdr.(start := s.hdr.start)
    requires s.sync.Some? ==> s.sync.value !in done
    ensures var after := FetchOn(s, env, hdr, j, num);
      && ReqOk(after.req, done) && HdrOk(c, after.hdr) && after.hdr == hdr.(start := after.hdr.start)
      && after == s.(req := after.req, hdr := after.hdr)
    decreases |Ahead(hdr)| - j
  {
    hide ReqOk, HdrOk, AskBlock, Ahead, Moved;
    if j < |Ahead(hdr)| {
      MovedOk(c, hdr, j + 1);
      if s.sync.Some? {
        AskBlockOk(s.req, done, s.sync.value, Ahead(hdr)[j].hash);
      }
      FetchOnOk(c, Visit(s, env, hdr, j), env, done, hdr, j + 1, num + Missing(env, Ahead(hdr)[j].hash));
    }
  }

  lemma FetchOk(c: Params, s: State, env: Env, joined: set<Peer>, done: set<Peer>)
    requires SyncInv(c, s, joined, done)
    ensures SyncInv(c, FetchBlocks(s, env), joined, done)
  {
    hide ReqOk, HdrOk, FetchOn;
    FetchOnOk(c, s, env, done, s.hdr, 0, 0);
  }

  function MissingFrom(env: Env, nodes: seq<Node>, j: nat): nat
    decreases |nodes| - j
  {
    if j >= |nodes| then 0 else Missing(env, nodes[j].hash) + MissingFrom(env, nodes, j + 1)
  }

  ghost predicate There(s: State, env: Env, h: Hash) {
    env.have(Inv(BlockInv, h)) == Some(true) || (s.sync.Some? && Owes(s.req, s.sync.value, h))
  }

  lemma {:induction false} FetchOnKeeps(s: State, env: Env, hdr: Headers, j: nat, num: nat, p: Peer, h: Hash)
    requires Owes(s.req, p, h)
    ensures Owes(FetchOn(s, env, hdr, j, num).req, p, h)
    decreases |Ahead(hdr)| - j
  {
    hide Ahead, Moved;
    if j < |Ahead(hdr)| {
      FetchOnKeeps(Visit(s, env, hdr, j), env, hdr, j + 1, num + Missing(env, Ahead(hdr)[j].hash), p, h);
    }
  }

  /** A fetch that meets no error and fits one message leaves nothing ahead: every block ahead is there or asked of the
      sync peer. */
  lemma {:induction false} FetchOnCovers(s: State, env: Env, hdr: Headers, j: nat, num: nat)
    requires s.sync.Some? && j < |Ahead(hdr)| && num + MissingFrom(env, Ahead(hdr), j) < MAX_INV_PER_MSG
    requires forall k :: j <= k < |Ahead(hdr)| ==> env.have(Inv(BlockInv, Ahead(hdr)[k].hash)).Some?
    ensures var after := FetchOn(s, env, hdr, j, num);
      && after.hdr.start.NoStart? && after.sync == s.sync
      && forall k :: j <= k < |Ahead(hdr)| ==> There(after, env, Ahead(hdr)[k].hash)
    decreases |Ahead(hdr)| - j
  {
    var h, s1, n := Ahead(hdr)[j].hash, Visit(s, env, hdr, j), num + Missing(env, Ahead(hdr)[j].hash);
    assert There(s1, env, h);
    if Owes(s1.req, s1.sync.value, h) {
      FetchOnKeeps(s1, env, hdr, j + 1, n, s1.sync.value, h);
    }
    hide Ahead;
    if j + 1 < |Ahead(hdr)| {
      FetchOnCovers(s1, env, hdr, j + 1, n);
    }
  }

  // ---- Choosing a sync peer ----

  /** Exactly the candidates that are not behind stay, each once. */
  lemma {:induction false} FitKeeps(cands: seq<Peer>, env: Env)
    requires forall i, j :: 0 <= i < j < |cands| ==> cands[i] != cands[j]
    ensures forall p :: p in Fit(cands, env) <==> p in cands && env.lastBlock(p) >= env.best.height
    ensures forall i, j :: 0 <= i < j < |Fit(cands, env)| ==> Fit(cands, env)[i] != Fit(cands, env)[j]
  {
    if cands != [] {
      var front := cands[..|cands| - 1];
      FitKeeps(front, env);
      assert cands == front + [cands[|cands| - 1]];
      assert forall p :: p in front ==> p != cands[|cands| - 1];
    }
  }

  /** The chosen peer is a candidate, not behind, and nobody is ahead of it. */
  lemma {:induction false} FurthestIsAhead(cands: seq<Peer>, env: Env)
    requires cands != []
    ensures var best := Furthest(cands, env);
      && best.Some? && best.value in cands && forall p :: p in cands ==> env.lastBlock(p) <= env.lastBlock(best.value)
  {
    if |cands| > 1 {
      var front := cands[..|cands| - 1];
      FurthestIsAhead(front, env);
      assert cands == front + [cands[|cands| - 1]];
    }
  }

  lemma StartSyncOk(c: Params, s: State, env: Env, joined: set<Peer>, done: set<Peer>)
    requires SyncInv(c, s, joined, done)
    ensures SyncInv(c, StartSync(c, s, env), joined, done)
  {
    hide ReqOk, HdrOk;
    FitKeeps(s.candidates, env);
    var fit := Fit(s.candidates, env);
    assert forall i :: 0 <= i < |fit| ==> fit[i] in fit;
    if fit != [] {
      FurthestIsAhead(fit, env);
      FewerOk(s.req, done, {}, s.req.txs);
      assert HdrOk(c, s.hdr.(first := true)) by { SameHdr(c, s.hdr, s.hdr.(first := true)); }
    }
    hide Fit, Furthest;
  }

  lemma StartSyncAsksLess(c: Params, s: State, env: Env)
    ensures StartSync(c, s, env).req.blocks <= s.req.blocks && StartSync(c, s, env).req.txs == s.req.txs
  {
  }

  lemma SameHdr(c: Params, hdr: Headers, after: Headers)
    requires HdrOk(c, hdr) && after.list == hdr.list && after.start == hdr.start
    ensures HdrOk(c, after)
  {
  }

  // ---- The messages ----

  datatype Msg =
    | Joins(p: Peer, fullNode: bool)
    | Leaves(p: Peer)
    | SendsTx(p: Peer, tx: Hash, accepted: bool)
    | SendsBlock(p: Peer, block: Hash, outcome: Outcome)
    | SendsHeaders(p: Peer, headers: seq<Hash>)
    | SendsInv(p: Peer, invs: seq<Inv>)
    | Demands(p: Peer, blocks: seq<Hash>, txs: seq<Hash>)

  function Step(c: Params, s: State, env: Env, msg: Msg): State {
    match msg
    case Joins(p, fullNode) => NewPeer(c, s, env, p, fullNode)
    case Leaves(p) => DonePeer(c, s, env, p)
    case SendsTx(p, tx, accepted) => TxMsg(s, env, p, tx, accepted)
    case SendsBlock(p, block, outcome) => BlockMsg(c, s, env, p, block, outcome)
    case SendsHeaders(p, headers) => HeadersMsg(c, s, env, headers)
    case SendsInv(p, invs) => InvMsg(s, env, p, invs)
    case Demands(p, blocks, txs) => Demand(s, env, p, blocks, txs)
  }

  lemma NewPeerOk(c: Params, s: State, env: Env, p: Peer, fullNode: bool, joined: set<Peer>, done: set<Peer>)
    requires SyncInv(c, s, joined, done) && p !in joined && p !in done
    ensures SyncInv(c, NewPeer(c, s, env, p, fullNode), joined + {p}, done)
  {
    hide ReqOk, HdrOk, StartSync;
    StartSyncOk(c, s.(candidates := s.candidates + [p]), env, joined + {p}, done);
  }

  lemma {:induction false} WithoutFirstKeeps(cands: seq<Peer>, p: Peer)
    requires forall i, j :: 0 <= i < j < |cands| ==> cands[i] != cands[j]
    ensures forall i :: 0 <= i < |WithoutFirst(cands, p)| ==>
      WithoutFirst(cands, p)[i] in cands && WithoutFirst(cands, p)[i] != p
    ensures forall i, j :: 0 <= i < j < |WithoutFirst(cands, p)| ==>
      WithoutFirst(cands, p)[i] != WithoutFirst(cands, p)[j]
  {
    if cands != [] && cands[0] != p {
      WithoutFirstKeeps(cands[1..], p);
    }
  }

  /** A peer that leaves is forgotten, and nothing that it owed is in flight any more. */
  lemma DonePeerOk(c: Params, s: State, env: Env, p: Peer, joined: set<Peer>, done: set<Peer>)
    requires SyncInv(c, s, joined, done)
    ensures SyncInv(c, DonePeer(c, s, env, p), joined, done + {p})
    ensures forall h :: Owes(s.req, p, h) ==> h !in DonePeer(c, s, env, p).req.blocks
    ensures forall h :: OwesTx(s.req, p, h) ==> h !in DonePeer(c, s, env, p).req.txs
  {
    ReleaseOk(s.req, done, p);
    ReleaseHeld(s.req, done, p);
    StartSyncAsksLess(c, s.(candidates := WithoutFirst(s.candidates, p), req := Release(s.req, p), sync := None,
                            hdr := if s.hdr.first then Reset(s.hdr, env.best) else s.hdr), env);
    hide ReqOk, StartSync, Release;
    WithoutFirstKeeps(s.candidates, p);
    hide WithoutFirst;
    var s1 := s.(candidates := WithoutFirst(s.candidates, p), req := Release(s.req, p));
    if s.sync == Some(p) {
      var s2 := s1.(sync := None, hdr := if s1.hdr.first then Reset(s1.hdr, env.best) else s1.hdr);
      assert SyncInv(c, s2, joined, done + {p});
      StartSyncOk(c, s2, env, joined, done + {p});
    }
  }

  lemma ArrivedOk(c: Params, hdr: Headers, h: Hash)
    requires HdrOk(c, hdr)
    ensures HdrOk(c, Arrived(hdr, h)) && Arrived(hdr, h).first == hdr.first && Arrived(hdr, h).next == hdr.next
  {
    if AtFront(hdr, h) {
      DropFrontOk(c, hdr);
    }
  }

  lemma PassedOk(c: Params, hdr: Headers)
    requires HdrOk(c, hdr) && hdr.next.Some?
    ensures HdrOk(c, Passed(c, hdr)) && (Passed(c, hdr).first ==> hdr.first && Passed(c, hdr).next.Some?)
  {
  }

  lemma BlockMsgOk(c: Params, s: State, env: Env, p: Peer, h: Hash, outcome: Outcome, joined: set<Peer>,
                   done: set<Peer>)
    requires SyncInv(c, s, joined, done)
    ensures SyncInv(c, BlockMsg(c, s, env, p, h, outcome), joined, done)
  {
    hide ReqOk, HdrOk, FetchBlocks, TakeBlock, Admits, Arrived, Passed;
    if Admits(s.req, p, h) {
      TakeBlockOk(s.req, done, p, h);
      ArrivedOk(c, s.hdr, h);
      var s1 := s.(req := TakeBlock(s.req, p, h), hdr := Arrived(s.hdr, h));
      var s2 := if outcome.MainChain? then s1.(rejected := {}) else s1;
      assert SyncInv(c, s2, joined, done);
      FetchOk(c, s2, env, joined, done);
      if s2.hdr.next.Some? {
        PassedOk(c, s2.hdr);
      }
    }
  }

  lemma HeadersMsgOk(c: Params, s: State, env: Env, headers: seq<Hash>, joined: set<Peer>, done: set<Peer>)
    requires SyncInv(c, s, joined, done)
    ensures SyncInv(c, HeadersMsg(c, s, env, headers), joined, done)
  {
    hide ReqOk, FetchBlocks, ReadHeaders;
    if s.hdr.first && headers != [] {
      ReadHeadersOk(c, s.hdr, headers, 0);
      var (hdr, reading) := ReadHeaders(c, s.hdr, headers, 0);
      if reading.AtCheckpoint? {
        DropFrontOk(c, hdr);
        FetchOk(c, s.(hdr := DropFront(hdr)), env, joined, done);
      }
    }
  }

  lemma InvMsgOk(s: State, env: Env, p: Peer, invs: seq<Inv>, done: set<Peer>)
    requires ReqOk(s.req, done) && p !in done
    ensures ReqOk(InvMsg(s, env, p, invs).req, done)
  {
    hide ReqOk, Drain, Enqueue, Wanted;
    var queued := Enqueue(s.req, p, Of(s.req, p).queue + Wanted(s, env, invs));
    EnqueueOk(s.req, done, p, Of(s.req, p).queue + Wanted(s, env, invs));
    DrainOk(queued, env, done, p, Of(queued, p).queue, 0, 0);
  }

  lemma DemandOk(s: State, env: Env, p: Peer, blocks: seq<Hash>, txs: seq<Hash>, done: set<Peer>)
    requires ReqOk(s.req, done) && p !in done
    ensures ReqOk(Demand(s, env, p, blocks, txs).req, done)
  {
    hide ReqOk, DemandBlocks, DemandTxs;
    DemandBlocksOk(s.req, env, done, p, blocks, 0, 0);
    var (r, num) := DemandBlocks(s.req, env, p, blocks, 0, 0);
    if num.Some? {
      DemandTxsOk(r, env, done, p, txs, 0, num.value);
    }
  }

  // ---- Runs ----

  /** No peer sends anything after it has left, and none joins twice. */
  predicate Allowed(msg: Msg, joined: set<Peer>, done: set<Peer>) {
    msg.p !in done && (msg.Joins? ==> msg.p !in joined)
  }

  function Joined(msg: Msg, joined: set<Peer>): set<Peer> {
    if msg.Joins? then joined + {msg.p} else joined
  }

  function Done(msg: Msg, done: set<Peer>): set<Peer> {
    if msg.Leaves? then done + {msg.p} else done
  }

  /** Every message that may come keeps the invariant. */
  lemma StepOk(c: Params, s: State, env: Env, msg: Msg, joined: set<Peer>, done: set<Peer>)
    requires SyncInv(c, s, joined, done) && Allowed(msg, joined, done)
    ensures SyncInv(c, Step(c, s, env, msg), Joined(msg, joined), Done(msg, done))
  {
    match msg {
      case Joins(p, fullNode) => NewPeerOk(c, s, env, p, fullNode, joined, done);
      case Leaves(p) => DonePeerOk(c, s, env, p, joined, done);
      case SendsTx(p, tx, accepted) => TakeTxOk(s.req, done, p, tx);
      case SendsBlock(p, block, outcome) => BlockMsgOk(c, s, env, p, block, outcome, joined, done);
      case SendsHeaders(p, headers) => HeadersMsgOk(c, s, env, headers, joined, done);
      case SendsInv(p, invs) => InvMsgOk(s, env, p, invs, done);
      case Demands(p, blocks, txs) => DemandOk(s, env, p, blocks, txs, done);
    }
  }

  /** A run: what the manager, the set of peers that joined and the set of those that left were before each message. */
  ghost predicate Run(c: Params, best: Node, states: seq<State>, msgs: seq<Msg>, envs: seq<Env>, joined: seq<set<Peer>>,
                      done: seq<set<Peer>>) {
    && |states| == |msgs| + 1 && |envs| == |msgs| && |joined| == |states| && |done| == |states|
    && states[0] == Started(c, best) && joined[0] == {} && done[0] == {}
    && forall i :: 0 <= i < |msgs| ==>
         && Allowed(msgs[i], joined[i], done[i]) && states[i + 1] == Step(c, states[i], envs[i], msgs[i])
         && joined[i + 1] == Joined(msgs[i], joined[i]) && done[i + 1] == Done(msgs[i], done[i])
  }

  lemma StartedOk(c: Params, best: Node)
    ensures SyncInv(c, Started(c, best), {}, {})
  {
    var r := Started(c, best).req;
    assert forall h :: Holders(r.peers, h) == {};
    assert forall h :: Meter(r, h);
  }

  lemma {:induction false} RunInv(c: Params, best: Node, states: seq<State>, msgs: seq<Msg>, envs: seq<Env>,
                                  joined: seq<set<Peer>>, done: seq<set<Peer>>, n: nat)
    requires Run(c, best, states, msgs, envs, joined, done) && n < |states|
    ensures SyncInv(c, states[n], joined[n], done[n])
  {
    hide SyncInv, Step, Started, Allowed, Joined, Done;
    if n == 0 {
      StartedOk(c, best);
    } else {
      RunInv(c, best, states, msgs, envs, joined, done, n - 1);
      StepOk(c, states[n - 1], envs[n - 1], msgs[n - 1], joined[n - 1], done[n - 1]);
    }
  }

  /** In every state of every run: a hash in flight is owed by somebody who has not left, headers-first mode has a sync
      peer that has not left and a checkpoint, the header list is linked, and copies of a block are limited by its
      requests. */
  lemma RunSafe(c: Params, best: Node, states: seq<State>, msgs: seq<Msg>, envs: seq<Env>, joined: seq<set<Peer>>,
                done: seq<set<Peer>>, n: nat, h: Hash)
    requires Run(c, best, states, msgs, envs, joined, done) && n < |states|
    ensures h in states[n].req.blocks ==> exists p :: p !in done[n] && Owes(states[n].req, p, h)
    ensures h in states[n].req.txs ==> exists p :: p !in done[n] && OwesTx(states[n].req, p, h)
    ensures states[n].hdr.first ==> states[n].sync.Some? && states[n].sync.value !in done[n] && states[n].hdr.next.Some?
    ensures Linked(c, states[n].hdr.list)
    ensures var log := states[n].req.log;
      log.solicited[h] + log.unsolicited[h] <= 5 * log.asked[h] && log.unsolicited[h] <= 4 * log.asked[h]
    ensures h in states[n].req.ever ==> states[n].req.ever[h] < 256
  {
    hide Run, Metered, Linked;
    RunInv(c, best, states, msgs, envs, joined, done, n);
    CopiesLimited(states[n].req, h);
  }
}
