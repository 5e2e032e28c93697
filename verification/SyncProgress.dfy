/** What the block manager makes of headers, blocks and peers that come and go, told by the fields of its state. */
module SyncProgress {
  import opened Chain
  import opened SyncState
  import opened SyncProof
  import opened SyncRuns
  import opened SyncFetch
  import SyncAnswer

  // ---- Headers ----

  /** The `i`-th header from `j` on is in the list behind the first `n` nodes, linked to the one before and one
      higher. */
  ghost predicate Listed(c: Params, list: seq<Node>, n: nat, headers: seq<Hash>, j: nat, i: int) {
    && 0 <= i && 0 < n + i < |list| && j + i < |headers|
    && list[n + i] == Node(list[n + i - 1].height + 1, headers[j + i])
    && c.prevOf(headers[j + i]) == list[n + i - 1].hash
  }

  /** The header list grew by `m` headers, each linked to the one before and one higher, and none of them but the last
      at the height of the checkpoint. */
  ghost predicate Longer(c: Params, hdr: Headers, headers: seq<Hash>, j: nat, m: nat, after: Headers)
    requires hdr.next.Some?
  {
    var n := |hdr.list|;
    && j + m <= |headers| && |after.list| == n + m && hdr.list <= after.list && (m > 0 ==> n > 0)
    && (forall i :: 0 <= i < m ==> Listed(c, after.list, n, headers, j, i))
    && (forall k :: n <= k < n + m - 1 ==> after.list[k].height != hdr.next.value.height)
    && after == hdr.(list := after.list, start := if m > 0 && hdr.start.NoStart? then At(n) else hdr.start)
  }

  /** Reading stops at the height of the checkpoint, at a header that does not link, or at the end. */
  ghost predicate Stopped(c: Params, hdr: Headers, headers: seq<Hash>, j: nat, m: nat, after: Headers, reading: Reading)
    requires hdr.next.Some? && j + m <= |headers|
  {
    var cp, last := hdr.next.value, |after.list| - 1;
    if m > 0 && last >= 0 && after.list[last].height == cp.height then
      reading == if after.list[last].hash == cp.hash then AtCheckpoint else Broken
    else if j + m == |headers| then reading == More
    else reading == Broken && (after.list == [] || c.prevOf(headers[j + m]) != after.list[last].hash)
  }

  lemma {:induction false} ReadIs(c: Params, hdr: Headers, headers: seq<Hash>, j: nat) returns (m: nat)
    requires hdr.next.Some? && j <= |headers|
    ensures var (after, reading) := ReadHeaders(c, hdr, headers, j);
      Longer(c, hdr, headers, j, m, after) && Stopped(c, hdr, headers, j, m, after, reading)
    decreases |headers| - j
  {
    m := 0;
    if j < |headers| && hdr.list != [] && c.prevOf(headers[j]) == hdr.list[|hdr.list| - 1].hash {
      var hdr1 := Push(hdr, headers[j]);
      m := 1;
      FirstListed(c, hdr, headers, j);
      hide Listed;
      if hdr1.list[|hdr1.list| - 1].height != hdr.next.value.height {
        var rest := ReadIs(c, hdr1, headers, j + 1);
        m := 1 + rest;
        LongerByOne(c, hdr, headers, j, rest, ReadHeaders(c, hdr1, headers, j + 1).0);
      }
    }
  }

  lemma FirstListed(c: Params, hdr: Headers, headers: seq<Hash>, j: nat)
    requires hdr.next.Some? && j < |headers| && hdr.list != []
    requires c.prevOf(headers[j]) == hdr.list[|hdr.list| - 1].hash
    ensures Longer(c, hdr, headers, j, 1, Push(hdr, headers[j]))
  {
  }

  lemma LongerByOne(c: Params, hdr: Headers, headers: seq<Hash>, j: nat, m: nat, after: Headers)
    requires hdr.next.Some? && j < |headers| && hdr.list != []
    requires c.prevOf(headers[j]) == hdr.list[|hdr.list| - 1].hash
    requires Push(hdr, headers[j]).list[|hdr.list|].height != hdr.next.value.height
    requires Longer(c, Push(hdr, headers[j]), headers, j + 1, m, after)
    ensures Longer(c, hdr, headers, j, 1 + m, after)
  {
    var n, list := |hdr.list|, after.list;
    assert list[n] == Push(hdr, headers[j]).list[n] && list[n - 1] == hdr.list[n - 1];
    forall i | 0 <= i < 1 + m ensures Listed(c, list, n, headers, j, i) {
      if i > 0 {
        assert Listed(c, list, n + 1, headers, j + 1, i - 1);
      }
    }
  }

  // ---- Fetching ----

  /** A fetch asks the sync peer for nothing but what is ahead and not there. If every question is answered and all of
      it fits a message, all that is ahead is there or owed by the sync peer, and nothing is ahead any more. */
  ghost predicate FetchRight(s: State, env: Env, after: State) {
    && after == s.(req := after.req, hdr := s.hdr.(start := after.hdr.start))
    && (forall q: Peer, h: Hash :: Owes(s.req, q, h) ==> Owes(after.req, q, h))
    && (forall q: Peer, h: Hash :: Owes(after.req, q, h) && !Owes(s.req, q, h) ==>
          s.sync == Some(q) && Names(Ahead(s.hdr), h) && env.have(Inv(BlockInv, h)) == Some(false))
    && (s.sync.Some? && |Ahead(s.hdr)| < MAX_INV_PER_MSG && Answered(env, Ahead(s.hdr)) ==>
          && Ahead(after.hdr) == []
          && forall k :: 0 <= k < |Ahead(s.hdr)| ==> There(after, env, Ahead(s.hdr)[k].hash))
  }

  ghost predicate Answered(env: Env, nodes: seq<Node>) {
    forall k :: 0 <= k < |nodes| ==> env.have(Inv(BlockInv, nodes[k].hash)).Some?
  }

  lemma {:induction false} MissingAtMost(env: Env, nodes: seq<Node>, j: nat)
    requires j <= |nodes|
    ensures MissingFrom(env, nodes, j) <= |nodes| - j
    decreases |nodes| - j
  {
    if j < |nodes| {
      MissingAtMost(env, nodes, j + 1);
    }
  }

  lemma {:induction false} FetchOnFrame(s: State, env: Env, hdr: Headers, j: nat, num: nat)
    requires s.hdr == hdr.(start := s.hdr.start)
    ensures var after := FetchOn(s, env, hdr, j, num);
      after == s.(req := after.req, hdr := s.hdr.(start := after.hdr.start))
    decreases |Ahead(hdr)| - j
  {
    hide Ahead, Moved, AskBlock;
    if j < |Ahead(hdr)| {
      FetchOnFrame(Visit(s, env, hdr, j), env, hdr, j + 1, num + Missing(env, Ahead(hdr)[j].hash));
    }
  }

  lemma FetchAnswers(s: State, env: Env)
    ensures FetchRight(s, env, FetchBlocks(s, env))
  {
    var ahead := Ahead(s.hdr);
    assert ahead == [] ==> FetchBlocks(s, env) == s;
    FetchOnFrame(s, env, s.hdr, 0, 0);
    MissingAtMost(env, ahead, 0);
    hide Names, Owes, FetchOn;
    forall q: Peer, h: Hash | Owes(s.req, q, h) ensures Owes(FetchBlocks(s, env).req, q, h) {
      FetchOnKeeps(s, env, s.hdr, 0, 0, q, h);
    }
    forall q: Peer, h: Hash | Owes(FetchBlocks(s, env).req, q, h) && !Owes(s.req, q, h)
      ensures s.sync == Some(q) && Names(ahead, h) && env.have(Inv(BlockInv, h)) == Some(false)
    {
      FetchAsksAhead(s, env, s.hdr, 0, 0, q, h);
    }
    if s.sync.Some? && 0 < |ahead| < MAX_INV_PER_MSG && Answered(env, ahead) {
      FetchOnCovers(s, env, s.hdr, 0, 0);
    }
  }

  /** A header message matters only in headers-first mode. The list grows as far as the headers go, and if that is up to
      the checkpoint, its first node is dropped and the blocks are fetched. */
  ghost predicate HeadersRight(c: Params, s: State, env: Env, headers: seq<Hash>, after: State) {
    if !s.hdr.first || s.hdr.next.None? || headers == [] then after == s
    else exists m: nat, hdr: Headers, reading: Reading :: ReadTo(c, s, env, headers, m, hdr, reading, after)
  }

  ghost predicate ReadTo(c: Params, s: State, env: Env, headers: seq<Hash>, m: nat, hdr: Headers, reading: Reading,
                         after: State)
    requires s.hdr.next.Some?
  {
    && Longer(c, s.hdr, headers, 0, m, hdr) && Stopped(c, s.hdr, headers, 0, m, hdr, reading)
    && if reading.AtCheckpoint? && hdr.list != [] then FetchRight(s.(hdr := DropFront(hdr)), env, after)
       else after == s.(hdr := hdr)
  }

  lemma HeadersAnswer(c: Params, s: State, env: Env, headers: seq<Hash>)
    ensures HeadersRight(c, s, env, headers, HeadersMsg(c, s, env, headers))
  {
    if s.hdr.first && s.hdr.next.Some? && headers != [] {
      var m := ReadIs(c, s.hdr, headers, 0);
      var (hdr, reading) := ReadHeaders(c, s.hdr, headers, 0);
      hide ReadHeaders, FetchBlocks, Longer, Stopped, FetchRight;
      if reading.AtCheckpoint? && hdr.list != [] {
        FetchAnswers(s.(hdr := DropFront(hdr)), env);
      }
      assert ReadTo(c, s, env, headers, m, hdr, reading, HeadersMsg(c, s, env, headers));
    }
  }

  // ---- Blocks ----

  ghost predicate InFront(hdr: Headers, h: Hash) {
    hdr.first && hdr.list != [] && hdr.list[0].hash == h
  }

  ghost predicate ReachesCheckpoint(hdr: Headers, h: Hash) {
    InFront(hdr, h) && hdr.next.Some? && hdr.next.value.hash == h
  }

  /** What a block changes before anything is fetched: nobody is waited for with it any more, it is counted, and it
      leaves the front of the list unless it is the checkpoint. */
  ghost predicate Taken(s: State, p: Peer, h: Hash, outcome: Outcome, mid: State) {
    && mid == s.(req := mid.req, hdr := mid.hdr, rejected := if outcome.MainChain? then {} else s.rejected)
    && mid.req.blocks == s.req.blocks - {h} && mid.req.txs == s.req.txs
    && (forall q: Peer, g: Hash :: Owes(mid.req, q, g) <==> Owes(s.req, q, g) && !(q == p && g == h))
    && (forall q: Peer, g: Hash :: OwesTx(mid.req, q, g) <==> OwesTx(s.req, q, g))
    && mid.req.log.asked == s.req.log.asked
    && (if Owes(s.req, p, h) then
          && mid.req.log.solicited == s.req.log.solicited + multiset{h} && mid.req.ever == s.req.ever
          && mid.req.log.unsolicited == s.req.log.unsolicited
        else
          && h in s.req.ever && mid.req.ever == s.req.ever[h := s.req.ever[h] + 1]
          && mid.req.log.unsolicited == s.req.log.unsolicited + multiset{h}
          && mid.req.log.solicited == s.req.log.solicited)
    && mid.hdr.first == s.hdr.first && mid.hdr.next == s.hdr.next
    && (if InFront(s.hdr, h) && !ReachesCheckpoint(s.hdr, h) then
          && mid.hdr.list == s.hdr.list[1..]
          && mid.hdr.start == (match s.hdr.start
               case NoStart => NoStart
               case At(i) => if i == 0 then Detached([s.hdr.list[0]]) else At(i - 1)
               case Detached(rest) => Detached(rest))
        else mid.hdr == s.hdr)
  }

  /** The next checkpoint above, or none and with it the end of headers-first mode. */
  ghost predicate NextRight(c: Params, mid: State, after: State) {
    && mid.hdr.next.Some? && after == mid.(hdr := after.hdr) && after.hdr.next == FindNext(c, mid.hdr.next.value.height)
    && (after.hdr.next.Some? ==> after.hdr == mid.hdr.(next := after.hdr.next))
    && (after.hdr.next.None? ==> !after.hdr.first && after.hdr.list == [])
  }

  /** A block is taken if the peer owes it, or if it was asked for and has not been sent too often. Unless it is in
      error, in headers-first mode the checkpoint moves the goal on, and another block starts a fetch if the peer owes
      few. */
  ghost predicate BlockRight(c: Params, s: State, env: Env, p: Peer, h: Hash, outcome: Outcome, after: State) {
    if !Owes(s.req, p, h) && !(h in s.req.ever && s.req.ever[h] <= 3) then after == s
    else exists mid :: Taken(s, p, h, outcome, mid) && Followed(c, s, env, p, h, outcome, mid, after)
  }

  ghost predicate Followed(c: Params, s: State, env: Env, p: Peer, h: Hash, outcome: Outcome, mid: State,
                           after: State)
  {
    if outcome.BlockError? || !s.hdr.first then after == mid
    else if ReachesCheckpoint(s.hdr, h) then NextRight(c, mid, after)
    else if mid.hdr.start != NoStart && |Of(mid.req, p).blocks| < 10 then FetchRight(mid, env, after)
    else after == mid
  }

  function TakenState(s: State, p: Peer, h: Hash, outcome: Outcome): State {
    var s1 := s.(req := TakeBlock(s.req, p, h), hdr := Arrived(s.hdr, h));
    if outcome.MainChain? then s1.(rejected := {}) else s1
  }

  lemma TakenIs(s: State, p: Peer, h: Hash, outcome: Outcome)
    requires Admits(s.req, p, h)
    ensures Taken(s, p, h, outcome, TakenState(s, p, h, outcome))
  {
  }

  lemma FollowedIs(c: Params, s: State, env: Env, p: Peer, h: Hash, outcome: Outcome)
    requires Admits(s.req, p, h)
    ensures Followed(c, s, env, p, h, outcome, TakenState(s, p, h, outcome), BlockMsg(c, s, env, p, h, outcome))
  {
    hide TakeBlock, FetchRight, FetchBlocks, Admits;
    FetchAnswers(TakenState(s, p, h, outcome), env);
  }

  lemma BlockAnswers(c: Params, s: State, env: Env, p: Peer, h: Hash, outcome: Outcome)
    ensures BlockRight(c, s, env, p, h, outcome, BlockMsg(c, s, env, p, h, outcome))
  {
    hide Taken, Followed;
    if Admits(s.req, p, h) {
      TakenIs(s, p, h, outcome);
      FollowedIs(c, s, env, p, h, outcome);
      hide BlockMsg;
    }
  }

  // ---- Peers ----

  /** Without a sync peer, the candidates that are behind are dropped, and one of those furthest ahead becomes the sync
      peer if it can be asked. What is in flight may be asked for again. Headers come first while the chain is below the
      next checkpoint. */
  ghost predicate StartRight(c: Params, s: State, env: Env, after: State) {
    if s.sync.Some? then after == s
    else
      && after == s.(sync := after.sync, candidates := after.candidates, req := after.req, hdr := after.hdr)
      && (forall p :: p in after.candidates <==> p in s.candidates && env.lastBlock(p) >= env.best.height)
      && if after.candidates == [] then after == s.(candidates := [])
         else
           && after.req == s.req.(blocks := {})
           && if !env.locatorOk || !env.pushOk then after.sync == None && after.hdr == s.hdr
              else
                && after.sync.Some? && after.sync.value in after.candidates
                && (forall p :: p in after.candidates ==> env.lastBlock(p) <= env.lastBlock(after.sync.value))
                && after.hdr == s.hdr.(first := s.hdr.first || (!c.disabled && s.hdr.next.Some? &&
                                                                env.best.height < s.hdr.next.value.height))
  }

  lemma StartAnswers(c: Params, s: State, env: Env)
    requires forall i, j :: 0 <= i < j < |s.candidates| ==> s.candidates[i] != s.candidates[j]
    ensures StartRight(c, s, env, StartSync(c, s, env))
  {
    FitKeeps(s.candidates, env);
    if Fit(s.candidates, env) != [] {
      FurthestIsAhead(Fit(s.candidates, env), env);
    }
    hide Fit, Furthest;
  }

  /** A full node that joins is one more candidate. */
  ghost predicate JoinRight(c: Params, s: State, env: Env, p: Peer, fullNode: bool, after: State) {
    if !fullNode then after == s else StartRight(c, s.(candidates := s.candidates + [p]), env, after)
  }

  /** A peer that leaves is no candidate any more and what it owed is not in flight. */
  ghost predicate Left(s: State, p: Peer, mid: State) {
    && mid == s.(candidates := mid.candidates, req := mid.req)
    && (forall q :: q in mid.candidates <==> q in s.candidates && q != p)
    && mid.req == s.req.(blocks := s.req.blocks - Of(s.req, p).blocks, txs := s.req.txs - Of(s.req, p).txs)
  }

  /** If it was the sync peer, headers-first mode starts over from the newest block and another takes its place. */
  ghost predicate LeaveRight(c: Params, s: State, env: Env, p: Peer, after: State) {
    var hdr := Headers(false, if s.hdr.next.Some? then [env.best] else [], NoStart, s.hdr.next);
    exists mid: State :: Left(s, p, mid) &&
      if s.sync != Some(p) then after == mid
      else StartRight(c, mid.(sync := None, hdr := if s.hdr.first then hdr else s.hdr), env, after)
  }

  lemma JoinAnswers(c: Params, s: State, env: Env, p: Peer, fullNode: bool)
    requires p !in s.candidates
    requires forall i, j :: 0 <= i < j < |s.candidates| ==> s.candidates[i] != s.candidates[j]
    ensures JoinRight(c, s, env, p, fullNode, NewPeer(c, s, env, p, fullNode))
  {
    hide StartSync, StartRight;
    if fullNode {
      StartAnswers(c, s.(candidates := s.candidates + [p]), env);
    }
  }

  lemma {:induction false} WithoutFirstIff(cands: seq<Peer>, p: Peer, q: Peer)
    requires forall i, j :: 0 <= i < j < |cands| ==> cands[i] != cands[j]
    ensures q in WithoutFirst(cands, p) <==> q in cands && q != p
  {
    if cands != [] {
      assert cands == [cands[0]] + cands[1..];
      WithoutFirstIff(cands[1..], p, q);
    }
  }

  lemma LeaveAnswers(c: Params, s: State, env: Env, p: Peer)
    requires forall i, j :: 0 <= i < j < |s.candidates| ==> s.candidates[i] != s.candidates[j]
    ensures LeaveRight(c, s, env, p, DonePeer(c, s, env, p))
  {
    var mid := s.(candidates := WithoutFirst(s.candidates, p), req := Release(s.req, p));
    forall q ensures q in mid.candidates <==> q in s.candidates && q != p {
      WithoutFirstIff(s.candidates, p, q);
    }
    WithoutFirstKeeps(s.candidates, p);
    hide WithoutFirst, StartSync, StartRight;
    assert Left(s, p, mid);
    if s.sync == Some(p) {
      StartAnswers(c, mid.(sync := None, hdr := if s.hdr.first then Reset(s.hdr, env.best) else s.hdr), env);
    }
  }

  // ---- Runs ----

  /** The answer to a message is the right one of its kind. */
  ghost predicate StepRight(c: Params, s: State, env: Env, msg: Msg, after: State) {
    match msg
    case Joins(p, fullNode) => JoinRight(c, s, env, p, fullNode, after)
    case Leaves(p) => LeaveRight(c, s, env, p, after)
    case SendsTx(p, tx, accepted) => SyncAnswer.TxRight(s, env, p, tx, accepted, after)
    case SendsBlock(p, block, outcome) => BlockRight(c, s, env, p, block, outcome, after)
    case SendsHeaders(p, headers) => HeadersRight(c, s, env, headers, after)
    case SendsInv(p, invs) => SyncAnswer.InvRight(s, env, p, invs, after)
    case Demands(p, blocks, txs) => SyncAnswer.DemandRight(s, env, p, blocks, txs, after)
  }

  lemma CandidatesDiffer(c: Params, s: State, joined: set<Peer>, done: set<Peer>)
    requires SyncInv(c, s, joined, done)
    ensures forall i, j :: 0 <= i < j < |s.candidates| ==> s.candidates[i] != s.candidates[j]
    ensures forall p :: p in s.candidates ==> p in joined
  {
  }

  lemma StepAnswers(c: Params, s: State, env: Env, msg: Msg, joined: set<Peer>, done: set<Peer>)
    requires SyncInv(c, s, joined, done) && Allowed(msg, joined, done)
    ensures StepRight(c, s, env, msg, Step(c, s, env, msg))
  {
    CandidatesDiffer(c, s, joined, done);
    hide SyncInv, JoinRight, LeaveRight, SyncAnswer.TxRight, BlockRight, HeadersRight, SyncAnswer.InvRight,
         SyncAnswer.DemandRight, NewPeer, DonePeer, TxMsg, BlockMsg, HeadersMsg, InvMsg, Demand;
    match msg {
      case Joins(p, fullNode) => JoinAnswers(c, s, env, p, fullNode);
      case Leaves(p) => LeaveAnswers(c, s, env, p);
      case SendsTx(p, tx, accepted) => SyncAnswer.TxAnswers(s, env, p, tx, accepted);
      case SendsBlock(p, block, outcome) => BlockAnswers(c, s, env, p, block, outcome);
      case SendsHeaders(p, headers) => HeadersAnswer(c, s, env, headers);
      case SendsInv(p, invs) => SyncAnswer.InvAnswers(s, env, p, invs);
      case Demands(p, blocks, txs) => SyncAnswer.DemandAnswers(s, env, p, blocks, txs);
    }
  }

  /** On every run every message gets its right answer. */
  lemma RunAnswers(c: Params, best: Node, states: seq<State>, msgs: seq<Msg>, envs: seq<Env>, joined: seq<set<Peer>>,
                   done: seq<set<Peer>>, n: nat)
    requires Run(c, best, states, msgs, envs, joined, done) && n < |msgs|
    ensures StepRight(c, states[n], envs[n], msgs[n], states[n + 1])
  {
    RunInv(c, best, states, msgs, envs, joined, done, n);
    hide SyncInv, StepRight, Step, Started, Joined, Done, Allowed;
    StepAnswers(c, states[n], envs[n], msgs[n], joined[n], done[n]);
  }
}
