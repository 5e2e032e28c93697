/** The block manager's state as values, and what each message makes of it. */
module SyncState {
  import opened Chain

  const MIN_IN_FLIGHT_BLOCKS: nat := 10
  const MAX_RESEND_LIMIT: nat := 3
  const MAX_REJECTED_TXNS: nat := 1000
  const MAX_INV_PER_MSG: nat := 50000
  const MAX_REQUESTED_BLOCKS: nat := MAX_INV_PER_MSG
  const MAX_REQUESTED_TXNS: nat := MAX_INV_PER_MSG

  type Peer = nat

  datatype InvKind = BlockInv | TxInv | OtherInv
  datatype Inv = Inv(kind: InvKind, hash: Hash)

  datatype Node = Node(height: int, hash: Hash)
  datatype Checkpoint = Checkpoint(height: int, hash: Hash)

  /** Where fetching goes on: a place in the header list, or nodes that the list has dropped since. */
  datatype Cursor = NoStart | At(i: nat) | Detached(rest: seq<Node>)

  /** What a peer was asked for, and what it announced that still waits to be asked for. */
  datatype Asked = Asked(blocks: set<Hash>, txs: set<Hash>, queue: seq<Inv>)

  /** How often each block was asked for, and how often peers' copies of it were processed, with and without a request
      to the peer that sent them. */
  datatype Log = Log(asked: multiset<Hash>, solicited: multiset<Hash>, unsolicited: multiset<Hash>)

  datatype Requests =
    Requests(peers: map<Peer, Asked>, blocks: set<Hash>, txs: set<Hash>, ever: map<Hash, nat>, log: Log)

  datatype Headers = Headers(first: bool, list: seq<Node>, start: Cursor, next: Option<Checkpoint>)

  datatype State = State(req: Requests, hdr: Headers, rejected: set<Hash>, sync: Option<Peer>, candidates: seq<Peer>)

  /** The chain parameters and configuration. `prevOf` gives the parent that a header names: hashes do not collide. */
  datatype Params = Params(checkpoints: seq<Checkpoint>, disabled: bool, prevOf: Hash -> Hash)

  datatype Outcome = BlockError | Orphan | SideChain | MainChain

  /** What the chain, the pool and the peers answer while one message is handled; None is an error. `pick` is the entry
      that comes first when a map is walked. */
  datatype Env = Env(best: Node, lastBlock: Peer -> int, locatorOk: bool, pushOk: bool, current: bool,
                     have: Inv -> Option<bool>, haveTx: Hash -> Option<bool>, pick: (nat, set<Hash>) -> Hash)

  // ---- Requests ----

  function Of(r: Requests, p: Peer): Asked {
    if p in r.peers then r.peers[p] else Asked({}, {}, [])
  }

  function AskBlock(r: Requests, p: Peer, h: Hash): Requests {
    var a := Of(r, p);
    Requests(r.peers[p := a.(blocks := a.blocks + {h})], r.blocks + {h}, r.txs, r.ever[h := 0],
             r.log.(asked := r.log.asked + multiset{h}))
  }

  function AskTx(r: Requests, p: Peer, h: Hash): Requests {
    var a := Of(r, p);
    r.(peers := r.peers[p := a.(txs := a.txs + {h})], txs := r.txs + {h})
  }

  /** A block came in and is about to be processed. */
  function TakeBlock(r: Requests, p: Peer, h: Hash): Requests {
    var a := Of(r, p);
    var ever := if h in a.blocks || h !in r.ever then r.ever else r.ever[h := r.ever[h] + 1];
    var log := if h in a.blocks then r.log.(solicited := r.log.solicited + multiset{h})
               else r.log.(unsolicited := r.log.unsolicited + multiset{h});
    Requests(r.peers[p := a.(blocks := a.blocks - {h})], r.blocks - {h}, r.txs, ever, log)
  }

  function TakeTx(r: Requests, p: Peer, h: Hash): Requests {
    var a := Of(r, p);
    r.(peers := r.peers[p := a.(txs := a.txs - {h})], txs := r.txs - {h})
  }

  /** The hashes that a departed peer owed can be asked of others. */
  function Release(r: Requests, p: Peer): Requests {
    r.(blocks := r.blocks - Of(r, p).blocks, txs := r.txs - Of(r, p).txs)
  }

  function Limited(m: set<Hash>, limit: nat, victim: Hash): set<Hash> {
    if |m| + 1 > limit then m - {victim} else m
  }

  function Enqueue(r: Requests, p: Peer, queue: seq<Inv>): Requests {
    r.(peers := r.peers[p := Of(r, p).(queue := queue)])
  }

  // ---- Syncing ----

  /** The first of the checkpoints such that it and all later ones lie above a height. */
  function NextFrom(cps: seq<Checkpoint>, height: int): Option<Checkpoint> {
    if cps == [] || height >= cps[|cps| - 1].height then None
    else
      var before := NextFrom(cps[..|cps| - 1], height);
      if before.Some? then before else Some(cps[|cps| - 1])
  }

  function FindNext(c: Params, height: int): Option<Checkpoint> {
    if c.disabled then None else NextFrom(c.checkpoints, height)
  }

  function Reset(hdr: Headers, newest: Node): Headers {
    Headers(false, if hdr.next.Some? then [newest] else [], NoStart, hdr.next)
  }

  /** The candidates that are not behind. */
  function Fit(cands: seq<Peer>, env: Env): seq<Peer> {
    if cands == [] then []
    else
      var p := cands[|cands| - 1];
      Fit(cands[..|cands| - 1], env) + if env.lastBlock(p) < env.best.height then [] else [p]
  }

  /** The first of the candidates that are furthest ahead. */
  function Furthest(cands: seq<Peer>, env: Env): (best: Option<Peer>)
    ensures best.None? <==> cands == []
  {
    if cands == [] then None
    else
      var p := cands[|cands| - 1];
      var best := Furthest(cands[..|cands| - 1], env);
      if best.None? || env.lastBlock(best.value) < env.lastBlock(p) then Some(p) else best
  }

  /** Whether syncing goes by headers first. */
  predicate ByHeaders(c: Params, s: State, env: Env) {
    s.hdr.next.Some? && env.best.height < s.hdr.next.value.height && !c.disabled
  }

  function StartSync(c: Params, s: State, env: Env): State {
    if s.sync.Some? then s
    else
      var fit := Fit(s.candidates, env);
      var s1 := s.(candidates := fit);
      var best := Furthest(fit, env);
      if best.None? then s1
      else
        var s2 := s1.(req := s1.req.(blocks := {}));
        if !env.locatorOk || !env.pushOk then s2
        else s2.(sync := best, hdr := s2.hdr.(first := s2.hdr.first || ByHeaders(c, s2, env)))
  }

  function WithoutFirst(cands: seq<Peer>, p: Peer): seq<Peer> {
    if cands == [] then []
    else if cands[0] == p then cands[1..]
    else [cands[0]] + WithoutFirst(cands[1..], p)
  }

  // ---- The headers ----

  /** The nodes from the cursor on. */
  function Ahead(hdr: Headers): seq<Node> {
    match hdr.start
    case NoStart => []
    case At(i) => if i <= |hdr.list| then hdr.list[i..] else []
    case Detached(rest) => rest
  }

  /** The cursor moved on by `n` nodes. */
  function Moved(hdr: Headers, n: nat): Cursor {
    if n >= |Ahead(hdr)| then NoStart
    else
      match hdr.start
      case NoStart => NoStart
      case At(i) => At(i + n)
      case Detached(rest) => Detached(rest[n..])
  }

  /** The list without its first node. A cursor at that node is left with that node alone. */
  function DropFront(hdr: Headers): Headers
    requires hdr.list != []
  {
    var start := match hdr.start
      case NoStart => NoStart
      case At(i) => if i == 0 then Detached([hdr.list[0]]) else At(i - 1)
      case Detached(rest) => Detached(rest);
    hdr.(list := hdr.list[1..], start := start)
  }

  /** The list emptied at once. A cursor goes on along the nodes it had ahead. */
  function DropList(hdr: Headers): Headers {
    hdr.(list := [], start := if hdr.start.At? then Detached(Ahead(hdr)) else hdr.start)
  }

  /** A list with the header of `h` added. */
  function Push(hdr: Headers, h: Hash): Headers
    requires hdr.list != []
  {
    var node := Node(hdr.list[|hdr.list| - 1].height + 1, h);
    hdr.(list := hdr.list + [node], start := if hdr.start.NoStart? then At(|hdr.list|) else hdr.start)
  }

  /** Visits the node `j` ahead of the cursor of `hdr`: asks for its block unless it is there already. The cursor passes
      the node unless the chain gave an error. */
  function Visit(s: State, env: Env, hdr: Headers, j: nat): State
    requires j < |Ahead(hdr)|
  {
    var h := Ahead(hdr)[j].hash;
    var have := env.have(Inv(BlockInv, h));
    if have.None? then s
    else
      var moved := s.hdr.(start := Moved(hdr, j + 1));
      if have.value || s.sync.None? then s.(hdr := moved)
      else s.(hdr := moved, req := AskBlock(s.req, s.sync.value, h))
  }

  function Missing(env: Env, h: Hash): nat {
    if env.have(Inv(BlockInv, h)) == Some(false) then 1 else 0
  }

  /** Visits the nodes from the `j`-th on, until there are none or a message is full. */
  function FetchOn(s: State, env: Env, hdr: Headers, j: nat, num: nat): State
    decreases |Ahead(hdr)| - j
  {
    if j >= |Ahead(hdr)| then s
    else
      var n := num + Missing(env, Ahead(hdr)[j].hash);
      var s1 := Visit(s, env, hdr, j);
      if n >= MAX_INV_PER_MSG && env.have(Inv(BlockInv, Ahead(hdr)[j].hash)).Some? then s1
      else FetchOn(s1, env, hdr, j + 1, n)
  }

  function FetchBlocks(s: State, env: Env): State {
    FetchOn(s, env, s.hdr, 0, 0)
  }

  datatype Reading = Broken | More | AtCheckpoint

  /** Adds headers from the `j`-th on to the list, until one does not link, the checkpoint's height is reached, or there
      are no more. */
  function ReadHeaders(c: Params, hdr: Headers, headers: seq<Hash>, j: nat): (r: (Headers, Reading))
    requires hdr.next.Some?
    decreases |headers| - j
  {
    if j >= |headers| then (hdr, More)
    else if hdr.list == [] || c.prevOf(headers[j]) != hdr.list[|hdr.list| - 1].hash then (hdr, Broken)
    else
      var hdr1 := Push(hdr, headers[j]);
      if hdr1.list[|hdr1.list| - 1].height != hdr.next.value.height then ReadHeaders(c, hdr1, headers, j + 1)
      else (hdr1, if headers[j] == hdr.next.value.hash then AtCheckpoint else Broken)
  }

  // ---- The messages ----

  /** A new block manager, for a chain that ends in `best`. */
  function Started(c: Params, best: Node): State {
    State(Requests(map[], {}, {}, map[], Log(multiset{}, multiset{}, multiset{})),
          Reset(Headers(false, [], NoStart, FindNext(c, best.height)), best), {}, None, [])
  }

  function NewPeer(c: Params, s: State, env: Env, p: Peer, fullNode: bool): State {
    if !fullNode then s else StartSync(c, s.(candidates := s.candidates + [p]), env)
  }

  function DonePeer(c: Params, s: State, env: Env, p: Peer): State {
    var s1 := s.(candidates := WithoutFirst(s.candidates, p), req := Release(s.req, p));
    if s1.sync != Some(p) then s1
    else StartSync(c, s1.(sync := None, hdr := if s1.hdr.first then Reset(s1.hdr, env.best) else s1.hdr), env)
  }

  function TxMsg(s: State, env: Env, p: Peer, h: Hash, accepted: bool): State {
    if h in s.rejected then s
    else
      var s1 := s.(req := TakeTx(s.req, p, h));
      if accepted then s1
      else
        var rejected := s1.rejected + {h};
        s1.(rejected := Limited(rejected, MAX_REJECTED_TXNS, env.pick(0, rejected)))
  }

  /** Whether a block that came from a peer goes on to be processed. */
  predicate Admits(r: Requests, p: Peer, h: Hash) {
    h in Of(r, p).blocks || (h in r.ever && r.ever[h] <= MAX_RESEND_LIMIT)
  }

  predicate AtFront(hdr: Headers, h: Hash) {
    hdr.first && hdr.list != [] && hdr.list[0].hash == h
  }

  predicate IsCheckpoint(hdr: Headers, h: Hash) {
    AtFront(hdr, h) && hdr.next.Some? && hdr.next.value.hash == h
  }

  /** The headers once the block of `h` has come in: all but the checkpoint leave the list. */
  function Arrived(hdr: Headers, h: Hash): Headers {
    if AtFront(hdr, h) && !IsCheckpoint(hdr, h) then DropFront(hdr) else hdr
  }

  /** The headers once the checkpoint's block has been processed. */
  function Passed(c: Params, hdr: Headers): Headers
    requires hdr.next.Some?
  {
    var next := FindNext(c, hdr.next.value.height);
    if next.Some? then hdr.(next := next) else DropList(hdr.(next := None, first := false))
  }

  function BlockMsg(c: Params, s: State, env: Env, p: Peer, h: Hash, outcome: Outcome): State {
    if !Admits(s.req, p, h) then s
    else
      var checkpoint := IsCheckpoint(s.hdr, h);
      var s1 := s.(req := TakeBlock(s.req, p, h), hdr := Arrived(s.hdr, h));
      var s2 := if outcome.MainChain? then s1.(rejected := {}) else s1;
      if outcome.BlockError? || !s2.hdr.first then s2
      else if checkpoint then s2.(hdr := Passed(c, s2.hdr))
      else if !s2.hdr.start.NoStart? && |Of(s2.req, p).blocks| < MIN_IN_FLIGHT_BLOCKS then FetchBlocks(s2, env)
      else s2
  }

  function HeadersMsg(c: Params, s: State, env: Env, headers: seq<Hash>): State {
    if !s.hdr.first || s.hdr.next.None? || headers == [] then s
    else
      var (hdr, reading) := ReadHeaders(c, s.hdr, headers, 0);
      if reading.AtCheckpoint? && hdr.list != [] then FetchBlocks(s.(hdr := DropFront(hdr)), env)
      else s.(hdr := hdr)
  }

  /** The announced inventory that is worth asking for. */
  function Wanted(s: State, env: Env, invs: seq<Inv>): seq<Inv> {
    if invs == [] then []
    else
      var iv := invs[|invs| - 1];
      Wanted(s, env, invs[..|invs| - 1]) +
      if iv.kind.OtherInv? || s.hdr.first || env.have(iv) != Some(false)
         || (iv.kind.TxInv? && iv.hash in s.rejected) then []
      else [iv]
  }

  predicate Pending(r: Requests, iv: Inv) {
    match iv.kind
    case BlockInv => iv.hash in r.blocks
    case TxInv => iv.hash in r.txs
    case OtherInv => true
  }

  /** Asks for one announced thing; `i` counts what was taken from the queue before. */
  function Request(r: Requests, env: Env, p: Peer, iv: Inv, i: nat): Requests {
    if Pending(r, iv) then r
    else if iv.kind.BlockInv? then
      var r1 := AskBlock(r, p, iv.hash);
      r1.(blocks := Limited(r1.blocks, MAX_REQUESTED_BLOCKS, env.pick(i, r1.blocks)))
    else
      var r1 := AskTx(r, p, iv.hash);
      r1.(txs := Limited(r1.txs, MAX_REQUESTED_TXNS, env.pick(i, r1.txs)))
  }

  /** Asks for what is queued from the `i`-th thing on, until nothing is left or a message is full. What is left stays
      queued. */
  function Drain(r: Requests, env: Env, p: Peer, queue: seq<Inv>, i: nat, num: nat): Requests
    decreases |queue| - i
  {
    if i >= |queue| then Enqueue(r, p, [])
    else
      var n := if Pending(r, queue[i]) then num else num + 1;
      var r1 := Request(r, env, p, queue[i], i);
      if n >= MAX_INV_PER_MSG then Enqueue(r1, p, queue[i + 1..]) else Drain(r1, env, p, queue, i + 1, n)
  }

  function InvMsg(s: State, env: Env, p: Peer, invs: seq<Inv>): State {
    if s.sync != Some(p) && !env.current then s
    else
      var queued := Enqueue(s.req, p, Of(s.req, p).queue + Wanted(s, env, invs));
      s.(req := Drain(queued, env, p, Of(queued, p).queue, 0, 0))
  }

  /** Asks a peer for blocks on behalf of others, from the `j`-th on; a failure keeps what was asked so far. */
  function DemandBlocks(r: Requests, env: Env, p: Peer, hashes: seq<Hash>, j: nat, num: nat): (Requests, Option<nat>)
    decreases |hashes| - j
  {
    if j >= |hashes| then (r, Some(num))
    else
      var h := hashes[j];
      var have := env.have(Inv(BlockInv, h));
      if h in Of(r, p).blocks || h in r.blocks || have == Some(true) then DemandBlocks(r, env, p, hashes, j + 1, num)
      else if have.None? || num >= MAX_INV_PER_MSG then (r, None)
      else DemandBlocks(AskBlock(r, p, h), env, p, hashes, j + 1, num + 1)
  }

  function DemandTxs(r: Requests, env: Env, p: Peer, hashes: seq<Hash>, j: nat, num: nat): (Requests, Option<nat>)
    decreases |hashes| - j
  {
    if j >= |hashes| then (r, Some(num))
    else
      var h := hashes[j];
      var have := env.haveTx(h);
      if h in Of(r, p).txs || h in r.txs || have == Some(true) then DemandTxs(r, env, p, hashes, j + 1, num)
      else if have.None? || num >= MAX_INV_PER_MSG then (r, None)
      else DemandTxs(AskTx(r, p, h), env, p, hashes, j + 1, num + 1)
  }

  function Demand(s: State, env: Env, p: Peer, blocks: seq<Hash>, txs: seq<Hash>): State {
    var (r, num) := DemandBlocks(s.req, env, p, blocks, 0, 0);
    if num.None? then s.(req := r) else s.(req := DemandTxs(r, env, p, txs, 0, num.value).0)
  }
}
