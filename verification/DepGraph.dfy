/** Which pool transactions wait for which others while a block template is being filled. */
module DepGraph {
  import opened Chain

  /** `needs` is what each registered transaction still waits for, `dependers` who is registered as waiting for a
      hash, `ready` what is queued; `chosen` and `rejected` are what the queue gave up. */
  datatype Graph = Graph(needs: map<Hash, set<Hash>>, dependers: map<Hash, set<Hash>>,
                         ready: set<Hash>, chosen: set<Hash>, rejected: set<Hash>)

  const EMPTY := Graph(map[], map[], {}, {}, {})

  function Dependers(g: Graph, p: Hash): set<Hash> {
    if p in g.dependers then g.dependers[p] else {}
  }

  function DependersWith(g: Graph, parents: set<Hash>, child: Hash): map<Hash, set<Hash>> {
    map p | p in g.dependers.Keys + parents :: Dependers(g, p) + if p in parents then {child} else {}
  }

  function Register(g: Graph, h: Hash, parents: set<Hash>): Graph {
    g.(needs := g.needs[h := parents], dependers := DependersWith(g, parents, h),
       ready := if parents == {} then g.ready + {h} else g.ready)
  }

  function Reject(g: Graph, h: Hash): Graph {
    g.(ready := g.ready - {h}, rejected := g.rejected + {h})
  }

  /** The dependers of `p` for which `p` is the last thing missing. */
  function Released(g: Graph, p: Hash): set<Hash> {
    set c | c in Dependers(g, p) && c in g.needs && g.needs[c] - {p} == {}
  }

  function NeedsWithout(g: Graph, p: Hash): map<Hash, set<Hash>> {
    map c | c in g.needs :: if c in Dependers(g, p) then g.needs[c] - {p} else g.needs[c]
  }

  function Choose(g: Graph, h: Hash): Graph {
    g.(needs := NeedsWithout(g, h), ready := g.ready - {h} + Released(g, h), chosen := g.chosen + {h})
  }

  /** A transaction waits for precisely the parents it is registered with and that are not chosen yet. */
  ghost predicate Exact(g: Graph) {
    && (forall p, c :: c in g.needs && p in g.needs[c] ==> c in Dependers(g, p) && p !in g.chosen)
    && (forall p, c :: c in Dependers(g, p) ==> c in g.needs && (p in g.needs[c] || p in g.chosen))
  }

  ghost predicate Out(g: Graph, h: Hash) {
    h in g.ready || h in g.chosen || h in g.rejected
  }

  /** Each transaction is in exactly one place: waiting, queued, chosen or rejected. */
  ghost predicate Placed(g: Graph) {
    && g.ready + g.chosen + g.rejected <= g.needs.Keys
    && g.ready !! g.chosen !! g.rejected
    && forall h :: h in g.needs ==> (g.needs[h] == {} <==> Out(g, h))
  }

  ghost predicate Valid(g: Graph) {
    Exact(g) && Placed(g)
  }

  lemma RegisterValid(g: Graph, h: Hash, parents: set<Hash>)
    requires Valid(g) && h !in g.needs && g.chosen == {}
    ensures Valid(Register(g, h, parents))
  {
    var g' := Register(g, h, parents);
    forall p, c | c in Dependers(g', p)
      ensures c in g'.needs && p in g'.needs[c]
    {
      assert c in Dependers(g, p) || (c == h && p in parents);
    }
    assert forall c :: c in g.needs ==> (Out(g', c) <==> Out(g, c));
  }

  lemma RejectValid(g: Graph, h: Hash)
    requires Valid(g) && h in g.ready
    ensures Valid(Reject(g, h))
  {
    assert forall p :: Dependers(Reject(g, h), p) == Dependers(g, p);
    assert forall c :: Out(Reject(g, h), c) <==> Out(g, c);
  }

  lemma DependersWait(g: Graph, h: Hash)
    requires Valid(g) && h !in g.chosen
    ensures forall c :: c in Dependers(g, h) ==> c in g.needs && h in g.needs[c] && !Out(g, c)
  {
  }

  lemma ChooseValid(g: Graph, h: Hash)
    requires Valid(g) && h in g.ready
    ensures Valid(Choose(g, h))
  {
    var g' := Choose(g, h);
    DependersWait(g, h);
    assert forall p :: Dependers(g', p) == Dependers(g, p);
    forall c | c in g'.needs
      ensures g'.needs[c] == {} <==> Out(g', c)
    {
      assert c !in Dependers(g, h) ==> (Out(g', c) <==> Out(g, c));
    }
  }

  // ---- How much is left ----

  ghost function Blocked(g: Graph): set<Hash> {
    set c | c in g.needs && g.needs[c] != {}
  }

  ghost function Pending(g: Graph): nat {
    |g.ready| + |Blocked(g)|
  }

  lemma ReleasedLeaveBlocked(g: Graph, h: Hash)
    requires Valid(g) && h in g.ready
    ensures Released(g, h) <= Blocked(g) && Released(g, h) !! g.ready
    ensures Blocked(Choose(g, h)) == Blocked(g) - Released(g, h)
  {
    DependersWait(g, h);
    forall c ensures c in Blocked(Choose(g, h)) <==> c in Blocked(g) && c !in Released(g, h) {
    }
  }

  lemma MovedCount(ready: set<Hash>, blocked: set<Hash>, freed: set<Hash>, h: Hash)
    requires h in ready && freed <= blocked && freed !! ready
    ensures |ready - {h} + freed| + |blocked - freed| == |ready| + |blocked| - 1
  {
    assert (ready - {h}) !! freed;
    assert |ready - {h}| == |ready| - 1;
    assert |(ready - {h}) + freed| == |ready - {h}| + |freed|;
    assert |blocked - freed| == |blocked| - |freed|;
  }

  /** Each transaction is queued at most once: choosing one leaves one less, whatever it releases. */
  lemma ChooseOneLess(g: Graph, h: Hash)
    requires Valid(g) && h in g.ready
    ensures Pending(Choose(g, h)) == Pending(g) - 1
  {
    ReleasedLeaveBlocked(g, h);
    MovedCount(g.ready, Blocked(g), Released(g, h), h);
  }

  lemma RejectOneLess(g: Graph, h: Hash)
    requires h in g.ready
    ensures Pending(Reject(g, h)) == Pending(g) - 1
  {
    assert Blocked(Reject(g, h)) == Blocked(g);
  }
}
