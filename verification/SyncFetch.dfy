/** What the block manager fetches along its header list, and when all of that leads up to the checkpoint. */
module SyncFetch {
  import opened Chain
  import opened SyncState
  import opened SyncProof
  import opened SyncRuns

  // ---- What a fetch asks for ----

  ghost predicate Names(nodes: seq<Node>, h: Hash) {
    exists k :: 0 <= k < |nodes| && nodes[k].hash == h
  }

  /** A fetch asks nobody but the sync peer, and for nothing but what is ahead and not there. */
  lemma {:induction false} FetchAsksAhead(s: State, env: Env, hdr: Headers, j: nat, num: nat, p: Peer, h: Hash)
    requires !Owes(s.req, p, h) && Owes(FetchOn(s, env, hdr, j, num).req, p, h)
    ensures s.sync == Some(p) && Names(Ahead(hdr), h) && env.have(Inv(BlockInv, h)) == Some(false)
    decreases |Ahead(hdr)| - j
  {
    YesOrNo(env.have(Inv(BlockInv, h)));
    hide Ahead, Moved;
    if j < |Ahead(hdr)| && !Owes(Visit(s, env, hdr, j).req, p, h) {
      FetchAsksAhead(Visit(s, env, hdr, j), env, hdr, j + 1, num + Missing(env, Ahead(hdr)[j].hash), p, h);
    }
  }

  // ---- Ancestors ----

  ghost predicate Ancestral(c: Params, tip: Hash, h: Hash) {
    exists up: nat :: h == Ancestor(c, tip, up)
  }

  ghost predicate AllAncestral(c: Params, tip: Hash, nodes: seq<Node>) {
    forall k :: 0 <= k < |nodes| ==> Ancestral(c, tip, nodes[k].hash)
  }

  lemma {:induction false} AncestorAdds(c: Params, h: Hash, m: nat, n: nat)
    ensures Ancestor(c, Ancestor(c, h, m), n) == Ancestor(c, h, m + n)
  {
    if n > 0 {
      AncestorAdds(c, h, m, n - 1);
    }
  }

  lemma AncestralThrough(c: Params, tip: Hash, mid: Hash, h: Hash)
    requires Ancestral(c, tip, mid) && Ancestral(c, mid, h)
    ensures Ancestral(c, tip, h)
  {
    var m: nat :| mid == Ancestor(c, tip, m);
    var n: nat :| h == Ancestor(c, mid, n);
    AncestorAdds(c, tip, m, n);
  }

  lemma ListIsAncestral(c: Params, list: seq<Node>, h: Hash)
    requires Linked(c, list) && Names(list, h)
    ensures Ancestral(c, list[|list| - 1].hash, h)
  {
    hide Linked, Ancestor;
    var k :| 0 <= k < |list| && list[k].hash == h;
    LinkedToLast(c, list, k);
  }

  /** With a cursor on the list, what is ahead leads up to `tip` exactly if the last header does. */
  lemma AheadAncestralIff(c: Params, hdr: Headers, tip: Hash)
    requires HdrOk(c, hdr) && hdr.start.At?
    ensures AllAncestral(c, tip, Ahead(hdr)) <==> Ancestral(c, tip, hdr.list[|hdr.list| - 1].hash)
  {
    hide Ancestral, Linked;
    var ahead, last := Ahead(hdr), hdr.list[|hdr.list| - 1].hash;
    assert ahead[|ahead| - 1].hash == last;
    if Ancestral(c, tip, last) {
      forall k | 0 <= k < |ahead| ensures Ancestral(c, tip, ahead[k].hash) {
        assert hdr.list[hdr.start.i + k] == ahead[k];
        ListIsAncestral(c, hdr.list, ahead[k].hash);
        AncestralThrough(c, tip, last, ahead[k].hash);
      }
    }
  }

  // ---- Fetches that a header message starts ----

  predicate StartsFetch(c: Params, s: State, headers: seq<Hash>) {
    && s.hdr.first && s.hdr.next.Some? && headers != []
    && var (hdr, reading) := ReadHeaders(c, s.hdr, headers, 0); reading.AtCheckpoint? && hdr.list != []
  }

  lemma {:induction false} ReadKeepsDetached(c: Params, hdr: Headers, headers: seq<Hash>, j: nat)
    requires hdr.next.Some?
    ensures var start := ReadHeaders(c, hdr, headers, j).0.start;
      if hdr.start.Detached? then start == hdr.start else !start.Detached?
    decreases |headers| - j
  {
    if j < |headers| && hdr.list != [] && c.prevOf(headers[j]) == hdr.list[|hdr.list| - 1].hash {
      ReadKeepsDetached(c, Push(hdr, headers[j]), headers, j + 1);
    }
  }

  lemma AheadIsOnList(hdr: Headers, h: Hash)
    requires hdr.list != [] && hdr.start.At? && hdr.start.i < |hdr.list| && Names(Ahead(DropFront(hdr)), h)
    ensures Names(hdr.list, h)
  {
    var nodes := Ahead(DropFront(hdr));
    var k :| 0 <= k < |nodes| && nodes[k].hash == h;
    assert nodes[k] == hdr.list[if hdr.start.i == 0 then 0 else hdr.start.i + k];
  }

  /** What is ahead of the cursor after headers were read is on the list, unless the cursor had been left behind. */
  lemma AheadIsListed(c: Params, hdr: Headers, headers: seq<Hash>, h: Hash)
    requires HdrOk(c, hdr) && hdr.next.Some? && ReadHeaders(c, hdr, headers, 0).1.AtCheckpoint?
    requires ReadHeaders(c, hdr, headers, 0).0.list != []
    requires Names(Ahead(DropFront(ReadHeaders(c, hdr, headers, 0).0)), h)
    ensures || (hdr.start.Detached? && Names(hdr.start.rest, h))
            || Ancestral(c, hdr.next.value.hash, h)
  {
    hide ReadHeaders, Names, Ancestor, Linked;
    ReadHeadersOk(c, hdr, headers, 0);
    ReadKeepsDetached(c, hdr, headers, 0);
    var after := ReadHeaders(c, hdr, headers, 0).0;
    if !hdr.start.Detached? {
      hide Ahead, DropFront;
      AheadIsOnList(after, h);
      ListIsAncestral(c, after.list, h);
    }
  }

  /** A list is the checkpoint and its ancestors, each at the height that its distance says. */
  ghost predicate UpTo(c: Params, list: seq<Node>, cp: Checkpoint) {
    && list != [] && list[|list| - 1].hash == cp.hash
    && forall i :: 0 <= i < |list| ==>
         list[i].hash == Ancestor(c, cp.hash, |list| - 1 - i) && list[i].height == cp.height - (|list| - 1 - i)
  }

  lemma ReadUpTo(c: Params, hdr: Headers, headers: seq<Hash>)
    requires HdrOk(c, hdr) && hdr.next.Some? && ReadHeaders(c, hdr, headers, 0).1.AtCheckpoint?
    requires ReadHeaders(c, hdr, headers, 0).0.list != []
    ensures UpTo(c, DropFront(ReadHeaders(c, hdr, headers, 0).0).list, hdr.next.value)
  {
    ReadHeadersOk(c, hdr, headers, 0);
    hide ReadHeaders, Ancestor, HdrOk;
    var list := DropFront(ReadHeaders(c, hdr, headers, 0).0).list;
    forall i | 0 <= i < |list|
      ensures list[i].hash == Ancestor(c, hdr.next.value.hash, |list| - 1 - i)
      ensures list[i].height == hdr.next.value.height - (|list| - 1 - i) && list[|list| - 1].hash == hdr.next.value.hash
    {
      FetchedAreAncestors(c, hdr, headers, i);
    }
  }

  lemma FetchStarts(c: Params, s: State, env: Env, headers: seq<Hash>, joined: set<Peer>, done: set<Peer>, p: Peer,
                    h: Hash)
    requires SyncInv(c, s, joined, done) && StartsFetch(c, s, headers)
    ensures UpTo(c, HeadersMsg(c, s, env, headers).hdr.list, s.hdr.next.value)
    ensures !Owes(s.req, p, h) && Owes(HeadersMsg(c, s, env, headers).req, p, h) ==>
      && s.sync == Some(p)
      && (|| (s.hdr.start.Detached? && Names(s.hdr.start.rest, h))
          || Ancestral(c, s.hdr.next.value.hash, h))
  {
    ReadHeadersOk(c, s.hdr, headers, 0);
    var hdr := DropFront(ReadHeaders(c, s.hdr, headers, 0).0);
    ReadUpTo(c, s.hdr, headers);
    hide ReadHeaders, FetchOn, Names, Ancestral, UpTo, Owes, ReqOk, Ahead;
    DropFrontOk(c, ReadHeaders(c, s.hdr, headers, 0).0);
    FetchOnOk(c, s.(hdr := hdr), env, done, hdr, 0, 0);
    if !Owes(s.req, p, h) && Owes(HeadersMsg(c, s, env, headers).req, p, h) {
      FetchAsksAhead(s.(hdr := hdr), env, hdr, 0, 0, p, h);
      AheadIsListed(c, s.hdr, headers, h);
    }
  }

  /** A header message that reaches the checkpoint starts a fetch. On every run the list is then the checkpoint and its
      ancestors, each at the height that its distance says, and whatever is asked for is one of them or was ahead of a
      cursor that had been left behind. */
  lemma RunFetchesAncestors(c: Params, best: Node, states: seq<State>, msgs: seq<Msg>, envs: seq<Env>,
                            joined: seq<set<Peer>>, done: seq<set<Peer>>, n: nat, p: Peer, h: Hash)
    requires Run(c, best, states, msgs, envs, joined, done) && n < |msgs|
    requires msgs[n].SendsHeaders? && StartsFetch(c, states[n], msgs[n].headers)
    ensures UpTo(c, states[n + 1].hdr.list, states[n].hdr.next.value)
    ensures !Owes(states[n].req, p, h) && Owes(states[n + 1].req, p, h) ==>
      && states[n].sync == Some(p)
      && (|| (states[n].hdr.start.Detached? && Names(states[n].hdr.start.rest, h))
          || Ancestral(c, states[n].hdr.next.value.hash, h))
  {
    RunInv(c, best, states, msgs, envs, joined, done, n);
    HeadersStep(c, best, states, msgs, envs, joined, done, n);
    hide Run, SyncInv, StartsFetch, HeadersMsg, Owes, Names, Ancestral, UpTo;
    FetchStarts(c, states[n], envs[n], msgs[n].headers, joined[n], done[n], p, h);
  }

  lemma HeadersStep(c: Params, best: Node, states: seq<State>, msgs: seq<Msg>, envs: seq<Env>,
                    joined: seq<set<Peer>>, done: seq<set<Peer>>, n: nat)
    requires Run(c, best, states, msgs, envs, joined, done) && n < |msgs| && msgs[n].SendsHeaders?
    ensures states[n + 1] == HeadersMsg(c, states[n], envs[n], msgs[n].headers)
  {
  }

  // ---- Fetches that a block starts ----

  /** Whatever a peer owes after a block came in, it owed before, other than that block, or it is the sync peer, the
      mode is on, and the hash was ahead. */
  lemma BlockAsksAhead(c: Params, s: State, env: Env, p: Peer, block: Hash, outcome: Outcome, q: Peer, h: Hash)
    requires Owes(BlockMsg(c, s, env, p, block, outcome).req, q, h)
    ensures || (Owes(s.req, q, h) && !(q == p && h == block))
            || (s.hdr.first && s.sync == Some(q) && Names(Ahead(Arrived(s.hdr, block)), h))
  {
    hide FetchOn, Ahead, Names, Passed;
    if Admits(s.req, p, block) {
      var s1 := s.(req := TakeBlock(s.req, p, block), hdr := Arrived(s.hdr, block));
      var s2 := if outcome.MainChain? then s1.(rejected := {}) else s1;
      if !Owes(s2.req, q, h) {
        FetchAsksAhead(s2, env, s2.hdr, 0, 0, q, h);
      }
    }
  }

  /** On every run a block makes the manager ask nobody but the sync peer, and for nothing but what is ahead. If the
      cursor is on the list, all of that leads up to the next checkpoint exactly if the last header does. */
  lemma RunBlockAsks(c: Params, best: Node, states: seq<State>, msgs: seq<Msg>, envs: seq<Env>,
                     joined: seq<set<Peer>>, done: seq<set<Peer>>, n: nat, q: Peer, h: Hash)
    requires Run(c, best, states, msgs, envs, joined, done) && n < |msgs| && msgs[n].SendsBlock?
    ensures Owes(states[n + 1].req, q, h) ==>
      || (Owes(states[n].req, q, h) && !(q == msgs[n].p && h == msgs[n].block))
      || (states[n].hdr.first && states[n].sync == Some(q) && Names(Ahead(Arrived(states[n].hdr, msgs[n].block)), h))
    ensures var hdr := Arrived(states[n].hdr, msgs[n].block);
      hdr.first && hdr.start.At? ==>
        && hdr.next.Some? && hdr.list != []
        && (AllAncestral(c, hdr.next.value.hash, Ahead(hdr)) <==>
              Ancestral(c, hdr.next.value.hash, hdr.list[|hdr.list| - 1].hash))
  {
    RunInv(c, best, states, msgs, envs, joined, done, n);
    var s, block := states[n], msgs[n].block;
    hide Run, ReqOk, AllAncestral, Ancestral, Ahead, Names, Owes, BlockMsg;
    ArrivedOk(c, s.hdr, block);
    var hdr := Arrived(s.hdr, block);
    if hdr.first && hdr.start.At? {
      AheadAncestralIff(c, hdr, hdr.next.value.hash);
    }
    BlockStep(c, best, states, msgs, envs, joined, done, n);
    if Owes(states[n + 1].req, q, h) {
      BlockAsksAhead(c, s, envs[n], msgs[n].p, block, msgs[n].outcome, q, h);
    }
  }

  lemma BlockStep(c: Params, best: Node, states: seq<State>, msgs: seq<Msg>, envs: seq<Env>,
                  joined: seq<set<Peer>>, done: seq<set<Peer>>, n: nat)
    requires Run(c, best, states, msgs, envs, joined, done) && n < |msgs| && msgs[n].SendsBlock?
    ensures states[n + 1] == BlockMsg(c, states[n], envs[n], msgs[n].p, msgs[n].block, msgs[n].outcome)
  {
  }

  // ---- Between two header messages ----

  ghost predicate Within(a: seq<Node>, b: seq<Node>) {
    forall k :: 0 <= k < |a| ==> a[k] in b
  }

  lemma MovedWithin(hdr: Headers, n: nat)
    ensures Within(Ahead(hdr.(start := Moved(hdr, n))), Ahead(hdr))
  {
  }

  lemma {:induction false} FetchOnWithin(s: State, env: Env, hdr: Headers, j: nat, num: nat)
    requires s.hdr == hdr.(start := s.hdr.start) && Within(Ahead(s.hdr), Ahead(hdr))
    ensures Within(Ahead(FetchOn(s, env, hdr, j, num).hdr), Ahead(hdr))
    decreases |Ahead(hdr)| - j
  {
    hide Ahead, Moved, Within, AskBlock;
    if j < |Ahead(hdr)| {
      MovedWithin(hdr, j + 1);
      FetchOnWithin(Visit(s, env, hdr, j), env, hdr, j + 1, num + Missing(env, Ahead(hdr)[j].hash));
    }
  }

  lemma FetchWithin(s: State, env: Env)
    ensures Within(Ahead(FetchBlocks(s, env).hdr), Ahead(s.hdr))
  {
    hide FetchOn;
    FetchOnWithin(s, env, s.hdr, 0, 0);
  }

  lemma ArrivedWithin(c: Params, hdr: Headers, h: Hash)
    requires HdrOk(c, hdr)
    ensures Within(Ahead(Arrived(hdr, h)), Ahead(hdr))
  {
  }

  lemma PassedWithin(c: Params, hdr: Headers)
    requires hdr.next.Some?
    ensures Within(Ahead(Passed(c, hdr)), Ahead(hdr))
  {
  }

  lemma WithinThrough(a: seq<Node>, b: seq<Node>, d: seq<Node>)
    requires Within(a, b) && Within(b, d)
    ensures Within(a, d)
  {
  }

  lemma BlockWithin(c: Params, s: State, env: Env, p: Peer, h: Hash, outcome: Outcome)
    requires HdrOk(c, s.hdr)
    ensures Within(Ahead(BlockMsg(c, s, env, p, h, outcome).hdr), Ahead(s.hdr))
  {
    ArrivedWithin(c, s.hdr, h);
    assert Within(Ahead(s.hdr), Ahead(s.hdr));
    hide FetchBlocks, TakeBlock, Admits, Arrived, Passed, Within, Ahead;
    var s1 := s.(req := TakeBlock(s.req, p, h), hdr := Arrived(s.hdr, h));
    var s2 := if outcome.MainChain? then s1.(rejected := {}) else s1;
    FetchWithin(s2, env);
    WithinThrough(Ahead(FetchBlocks(s2, env).hdr), Ahead(s2.hdr), Ahead(s.hdr));
    if s2.hdr.next.Some? {
      PassedWithin(c, s2.hdr);
      WithinThrough(Ahead(Passed(c, s2.hdr)), Ahead(s2.hdr), Ahead(s.hdr));
    }
  }

  /** No message but one with headers puts anything ahead. */
  lemma StepWithin(c: Params, s: State, env: Env, msg: Msg)
    requires HdrOk(c, s.hdr) && !msg.SendsHeaders?
    ensures Within(Ahead(Step(c, s, env, msg).hdr), Ahead(s.hdr))
  {
    hide HdrOk, FetchBlocks, TakeBlock, Drain, DemandBlocks, DemandTxs, Fit, Furthest, WithoutFirst, Release;
    if msg.SendsBlock? {
      BlockWithin(c, s, env, msg.p, msg.block, msg.outcome);
    }
  }

  lemma {:induction false} RunWithin(c: Params, best: Node, states: seq<State>, msgs: seq<Msg>, envs: seq<Env>,
                                     joined: seq<set<Peer>>, done: seq<set<Peer>>, n: nat, m: nat)
    requires Run(c, best, states, msgs, envs, joined, done) && n <= m < |states|
    requires forall k :: n <= k < m ==> !msgs[k].SendsHeaders?
    ensures Within(Ahead(states[m].hdr), Ahead(states[n].hdr))
  {
    hide Step, Ahead, Started, Allowed, Joined, Done, SyncInv;
    if n < m {
      RunWithin(c, best, states, msgs, envs, joined, done, n, m - 1);
      RunInv(c, best, states, msgs, envs, joined, done, m - 1);
      assert HdrOk(c, states[m - 1].hdr) by { InvGivesHdr(c, states[m - 1], joined[m - 1], done[m - 1]); }
      StepWithin(c, states[m - 1], envs[m - 1], msgs[m - 1]);
      WithinThrough(Ahead(states[m].hdr), Ahead(states[m - 1].hdr), Ahead(states[n].hdr));
    }
  }

  lemma InvGivesHdr(c: Params, s: State, joined: set<Peer>, done: set<Peer>)
    requires SyncInv(c, s, joined, done)
    ensures HdrOk(c, s.hdr)
  {
  }

  lemma NamedWithin(a: seq<Node>, b: seq<Node>, h: Hash)
    requires Within(a, b) && Names(a, h)
    ensures Names(b, h)
  {
    var k :| 0 <= k < |a| && a[k].hash == h;
    assert a[k] in b;
  }

  /** A header message that reaches the checkpoint leaves nothing ahead but what leads up to it. */
  lemma AheadAfterStart(c: Params, s: State, env: Env, headers: seq<Hash>, h: Hash)
    requires HdrOk(c, s.hdr) && StartsFetch(c, s, headers) && !s.hdr.start.Detached?
    requires Names(Ahead(HeadersMsg(c, s, env, headers).hdr), h)
    ensures Ancestral(c, s.hdr.next.value.hash, h)
  {
    hide HdrOk, ReadHeaders, FetchBlocks, Names, Ancestral, Ahead, Within, DropFront;
    var hdr := DropFront(ReadHeaders(c, s.hdr, headers, 0).0);
    FetchWithin(s.(hdr := hdr), env);
    NamedWithin(Ahead(HeadersMsg(c, s, env, headers).hdr), Ahead(hdr), h);
    AheadIsListed(c, s.hdr, headers, h);
  }

  /** On every run: once a header message has reached the checkpoint, and until the next header message, every block
      that comes in makes the manager ask for nothing but ancestors of that checkpoint. */
  lemma RunFetchesOnlyAncestors(c: Params, best: Node, states: seq<State>, msgs: seq<Msg>, envs: seq<Env>,
                                joined: seq<set<Peer>>, done: seq<set<Peer>>, n: nat, m: nat, q: Peer, h: Hash)
    requires Run(c, best, states, msgs, envs, joined, done) && n < m < |msgs|
    requires msgs[n].SendsHeaders? && StartsFetch(c, states[n], msgs[n].headers) && !states[n].hdr.start.Detached?
    requires msgs[m].SendsBlock? && forall k :: n < k < m ==> !msgs[k].SendsHeaders?
    ensures Owes(states[m + 1].req, q, h) ==>
      || (Owes(states[m].req, q, h) && !(q == msgs[m].p && h == msgs[m].block))
      || (states[m].sync == Some(q) && Ancestral(c, states[n].hdr.next.value.hash, h))
  {
    RunInv(c, best, states, msgs, envs, joined, done, n);
    RunInv(c, best, states, msgs, envs, joined, done, m);
    RunWithin(c, best, states, msgs, envs, joined, done, n + 1, m);
    RunBlockAsks(c, best, states, msgs, envs, joined, done, m, q, h);
    HeadersStep(c, best, states, msgs, envs, joined, done, n);
    InvGivesHdr(c, states[n], joined[n], done[n]);
    InvGivesHdr(c, states[m], joined[m], done[m]);
    hide Run, SyncInv, HdrOk, StartsFetch, HeadersMsg, Owes, Names, Ancestral, AllAncestral, Ahead, Arrived, Within;
    var ahead := Ahead(Arrived(states[m].hdr, msgs[m].block));
    if Names(ahead, h) {
      ArrivedWithin(c, states[m].hdr, msgs[m].block);
      NamedWithin(ahead, Ahead(states[m].hdr), h);
      NamedWithin(Ahead(states[m].hdr), Ahead(states[n + 1].hdr), h);
      AheadAfterStart(c, states[n], envs[n], msgs[n].headers, h);
    }
  }

  // ---- A fetch before the checkpoint is reached ----

  /** A checkpoint at height 10, a chain that ends in block 50, and a header of a block 51 on top of it that does not
      lead up to the checkpoint. */
  const FORK := Params([Checkpoint(10, 100)], false, h => if h == 51 then 50 else 0)
  const TIP := Node(0, 50)
  const NOTHING_KNOWN :=
    Env(TIP, p => 20, true, true, false, iv => Some(false), h => Some(false), (i, hs) => 0)

  /** A peer joins, is asked for a block on behalf of others, sends the header, and sends the block. */
  const TALK := [Joins(1, true), Demands(1, [7], []), SendsHeaders(1, [51]), SendsBlock(1, 7, SideChain)]

  const SYNCING := Headers(true, [TIP], NoStart, Some(Checkpoint(10, 100)))
  const LISTING := Headers(true, [TIP, Node(1, 51)], At(1), Some(Checkpoint(10, 100)))

  lemma {:induction false} ForkIsNoAncestor(up: nat)
    ensures Ancestor(FORK, 100, up) == if up == 0 then 100 else 0
  {
    if up > 0 {
      ForkIsNoAncestor(up - 1);
    }
  }

  lemma FirstJoins(s: State)
    requires s == Started(FORK, TIP)
    ensures var after := NewPeer(FORK, s, NOTHING_KNOWN, 1, true);
      after.sync == Some(1) && after.hdr == SYNCING && after.req.peers == map[] && after.req.blocks == {}
  {
    assert [Checkpoint(10, 100)][..0] == [];
    assert [1 as Peer][..0] == [];
    assert Fit([1], NOTHING_KNOWN) == [1];
    assert Furthest([1], NOTHING_KNOWN) == Some(1);
  }

  lemma ThenIsAsked(s: State)
    requires s.req.peers == map[] && s.req.blocks == {}
    ensures var after := Demand(s, NOTHING_KNOWN, 1, [7], []);
      after == s.(req := after.req) && after.req.peers == map[1 := Asked({7}, {}, [])]
  {
    assert Demand(s, NOTHING_KNOWN, 1, [7], []) == s.(req := AskBlock(s.req, 1, 7));
    assert Of(s.req, 1).blocks + {7} == {7};
    assert AskBlock(s.req, 1, 7).peers == map[1 := Asked({7}, {}, [])];
  }

  lemma ThenSendsHeader(s: State)
    requires s.hdr == SYNCING
    ensures HeadersMsg(FORK, s, NOTHING_KNOWN, [51]) == s.(hdr := LISTING)
  {
    assert Push(SYNCING, 51) == LISTING;
    hide Push;
  }

  lemma ThenSendsBlock(s: State)
    requires s.hdr == LISTING && s.sync == Some(1) && s.req.peers == map[1 := Asked({7}, {}, [])]
    ensures Owes(BlockMsg(FORK, s, NOTHING_KNOWN, 1, 7, SideChain).req, 1, 51)
  {
    var s1 := s.(req := TakeBlock(s.req, 1, 7));
    assert Of(s1.req, 1).blocks == {};
    assert Ahead(LISTING) == [Node(1, 51)];
    assert BlockMsg(FORK, s, NOTHING_KNOWN, 1, 7, SideChain) == FetchBlocks(s1, NOTHING_KNOWN);
    hide BlockMsg, FetchOn;
    assert MissingFrom(NOTHING_KNOWN, [Node(1, 51)], 0) == 1 + MissingFrom(NOTHING_KNOWN, [Node(1, 51)], 1);
    FetchOnCovers(s1, NOTHING_KNOWN, LISTING, 0, 0);
  }

  lemma TalkIsRun(s0: State, s1: State, s2: State, s3: State, s4: State)
    requires s0 == Started(FORK, TIP) && s1 == NewPeer(FORK, s0, NOTHING_KNOWN, 1, true)
    requires s2 == Demand(s1, NOTHING_KNOWN, 1, [7], []) && s3 == HeadersMsg(FORK, s2, NOTHING_KNOWN, [51])
    requires s4 == BlockMsg(FORK, s3, NOTHING_KNOWN, 1, 7, SideChain)
    ensures Run(FORK, TIP, [s0, s1, s2, s3, s4], TALK, seq(4, i => NOTHING_KNOWN), [{}, {1}, {1}, {1}, {1}],
                [{}, {}, {}, {}, {}])
  {
    hide Started, NewPeer, Demand, HeadersMsg, BlockMsg;
  }

  lemma ForkIsNotAncestral()
    ensures !Ancestral(FORK, 100, 51)
  {
    forall up: nat ensures Ancestor(FORK, 100, up) != 51 {
      ForkIsNoAncestor(up);
    }
  }

  lemma TalkGives(s0: State, s1: State, s2: State, s3: State, s4: State)
    requires s0 == Started(FORK, TIP) && s1 == NewPeer(FORK, s0, NOTHING_KNOWN, 1, true)
    requires s2 == Demand(s1, NOTHING_KNOWN, 1, [7], []) && s3 == HeadersMsg(FORK, s2, NOTHING_KNOWN, [51])
    requires s4 == BlockMsg(FORK, s3, NOTHING_KNOWN, 1, 7, SideChain)
    ensures s3.hdr == LISTING && s3.sync == Some(1) && !Owes(s3.req, 1, 51) && Owes(s4.req, 1, 51)
  {
    hide Started, NewPeer, Demand, HeadersMsg, BlockMsg;
    FirstJoins(s0);
    ThenIsAsked(s1);
    ThenSendsHeader(s2);
    ThenSendsBlock(s3);
  }

  /** A block that was asked for on behalf of others starts a fetch of whatever headers there are: the peer is asked for
      block 51, which is no ancestor of the checkpoint. */
  lemma FetchesTooEarly() returns (states: seq<State>)
    ensures Run(FORK, TIP, states, TALK, seq(4, i => NOTHING_KNOWN), [{}, {1}, {1}, {1}, {1}], [{}, {}, {}, {}, {}])
    ensures |states| == 5 && states[3].hdr == LISTING && states[3].sync == Some(1)
    ensures !Owes(states[3].req, 1, 51) && Owes(states[4].req, 1, 51) && !Ancestral(FORK, 100, 51)
  {
    hide Started, NewPeer, Demand, HeadersMsg, BlockMsg, Run, Ancestral, Owes;
    var s0 := Started(FORK, TIP);
    var s1 := NewPeer(FORK, s0, NOTHING_KNOWN, 1, true);
    var s2 := Demand(s1, NOTHING_KNOWN, 1, [7], []);
    var s3 := HeadersMsg(FORK, s2, NOTHING_KNOWN, [51]);
    var s4 := BlockMsg(FORK, s3, NOTHING_KNOWN, 1, 7, SideChain);
    TalkIsRun(s0, s1, s2, s3, s4);
    TalkGives(s0, s1, s2, s3, s4);
    ForkIsNotAncestral();
    states := [s0, s1, s2, s3, s4];
  }
}
