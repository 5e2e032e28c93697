/** The peer book stays exact and within its limits. */
module PeerProof {
  import opened Sets
  import opened PeerBook

  // ---- Counting ----

  lemma GroupsGrow(groups: map<Group, int>, out: set<nat>, who: nat -> ServerPeer, i: nat)
    requires GroupsExact(groups, out, who) && i !in out
    ensures GroupsExact(Bump(groups, who(i).group, 1), out + {i}, who)
  {
    var after := Bump(groups, who(i).group, 1);
    forall g ensures GroupCount(after, g) == |GroupMembers(out + {i}, who, g)| {
      var members := GroupMembers(out, who, g);
      assert GroupCount(groups, g) == |members|;
      if who(i).group == g {
        assert i !in members && GroupMembers(out + {i}, who, g) == members + {i};
      } else {
        assert GroupMembers(out + {i}, who, g) == members;
      }
    }
  }

  lemma GroupsShrink(groups: map<Group, int>, out: set<nat>, who: nat -> ServerPeer, i: nat)
    requires GroupsExact(groups, out, who) && i in out
    ensures GroupsExact(Bump(groups, who(i).group, -1), out - {i}, who)
  {
    var after := Bump(groups, who(i).group, -1);
    forall g ensures GroupCount(after, g) == |GroupMembers(out - {i}, who, g)| {
      var members := GroupMembers(out, who, g);
      assert GroupCount(groups, g) == |members|;
      assert GroupMembers(out - {i}, who, g) == if who(i).group == g then members - {i} else members;
      assert who(i).group == g ==> i in members;
    }
  }

  lemma LimitsKept(c: Limits, ids: set<nat>, fewer: set<nat>, who: nat -> ServerPeer)
    requires WithinLimits(c, ids, who) && fewer <= ids
    ensures WithinLimits(c, fewer, who)
  {
    SubsetSize(Limited(fewer, who), Limited(ids, who));
    forall ip ensures |CrowdAt(fewer, who, ip)| <= |CrowdAt(ids, who, ip)| {
      SubsetSize(CrowdAt(fewer, who, ip), CrowdAt(ids, who, ip));
    }
  }

  lemma LimitsGrow(c: Limits, ids: set<nat>, who: nat -> ServerPeer, i: nat)
    requires WithinLimits(c, ids, who) && (Exempt(who(i)) || |ids| + 1 <= c.maxPeers)
    requires c.maxSameIP <= 0 || Exempt(who(i)) || who(i).loopback || |AtIP(ids, who, who(i).ip)| + 1 <= c.maxSameIP
    ensures WithinLimits(c, ids + {i}, who)
  {
    var more := ids + {i};
    if Exempt(who(i)) {
      assert Limited(more, who) == Limited(ids, who);
    } else {
      SubsetSize(Limited(more, who), more);
    }
    forall ip ensures c.maxSameIP > 0 ==> |CrowdAt(more, who, ip)| <= c.maxSameIP {
      if who(i).ip != ip || Exempt(who(i)) || who(i).loopback {
        assert CrowdAt(more, who, ip) == CrowdAt(ids, who, ip);
      } else {
        SubsetSize(CrowdAt(more, who, ip), AtIP(ids, who, ip) + {i});
      }
    }
  }

  lemma ThreeSizes(a: set<nat>, b: set<nat>, d: set<nat>)
    requires a !! b && a !! d && b !! d
    ensures |a + b + d| == |a| + |b| + |d|
  {
    assert |a + b| == |a| + |b|;
  }

  lemma Apart(s: Peers, who: nat -> ServerPeer)
    requires Placed(s, who)
    ensures s.inbound.Keys !! s.outbound.Keys && s.inbound.Keys !! s.persistent.Keys
    ensures s.outbound.Keys !! s.persistent.Keys
  {
    KindsApart(s.inbound, s.outbound, who, true, false, false, false);
    KindsApart(s.inbound, s.persistent, who, true, false, false, true);
    KindsApart(s.outbound, s.persistent, who, false, false, false, true);
  }

  lemma KindsApart(m: map<nat, ServerPeer>, n: map<nat, ServerPeer>, who: nat -> ServerPeer,
                   inbound: bool, persistent: bool, inbound': bool, persistent': bool)
    requires OfKind(m, who, inbound, persistent) && OfKind(n, who, inbound', persistent')
    requires inbound != inbound' || persistent != persistent'
    ensures m.Keys !! n.Keys
  {
    forall i | i in m.Keys ensures i !in n.Keys {
      assert who(i).inbound == inbound && who(i).persistent == persistent;
    }
  }

  /** The three maps hold different peers, so the counts that add up their sizes are right. */
  lemma TotalIsAll(s: Peers, who: nat -> ServerPeer)
    requires Placed(s, who)
    ensures |Ids(s)| == Total(s)
  {
    Apart(s, who);
    hide Placed;
    ThreeSizes(s.inbound.Keys, s.outbound.Keys, s.persistent.Keys);
  }

  lemma WithIPIsAll(s: Peers, who: nat -> ServerPeer, ip: nat)
    requires Placed(s, who)
    ensures |AtIP(Ids(s), who, ip)| == WithIP(s, ip)
  {
    Apart(s, who);
    KindIPs(s.inbound, who, true, false, ip);
    KindIPs(s.outbound, who, false, false, ip);
    KindIPs(s.persistent, who, false, true, ip);
    hide Placed, AtIP, IPsIn;
    var a, b, d := s.inbound.Keys, s.outbound.Keys, s.persistent.Keys;
    AtIPSize(a, b, who, ip);
    AtIPSize(a + b, d, who, ip);
  }

  lemma AtIPSize(a: set<nat>, b: set<nat>, who: nat -> ServerPeer, ip: nat)
    requires a !! b
    ensures |AtIP(a + b, who, ip)| == |AtIP(a, who, ip)| + |AtIP(b, who, ip)|
  {
    assert AtIP(a + b, who, ip) == AtIP(a, who, ip) + AtIP(b, who, ip);
  }

  lemma KindIPs(m: map<nat, ServerPeer>, who: nat -> ServerPeer, inbound: bool, persistent: bool, ip: nat)
    requires OfKind(m, who, inbound, persistent)
    ensures IPsIn(m, ip) == AtIP(m.Keys, who, ip)
  {
  }

  // ---- The operations ----

  /** Who `who` says is there may be added: its version is known, and a persistent peer is not inbound. */
  predicate Fit(sp: ServerPeer) {
    sp.versionKnown && (sp.persistent ==> !sp.inbound)
  }

  lemma PlacedEnter(s: Peers, who: nat -> ServerPeer, i: nat)
    requires Placed(s, who) && i !in Ids(s) && who(i).id == i && Fit(who(i))
    ensures Placed(Enter(s, who(i)), who) && Ids(Enter(s, who(i))) == Ids(s) + {i}
    ensures OutIds(Enter(s, who(i))) == if who(i).inbound then OutIds(s) else OutIds(s) + {i}
  {
  }

  lemma EnterInv(c: Limits, s: Peers, who: nat -> ServerPeer, i: nat)
    requires PeersInv(c, s, who) && i !in Ids(s) && who(i).id == i && Fit(who(i)) && !TooMany(c, s, who(i))
    ensures PeersInv(c, Enter(s, who(i)), who) && Ids(Enter(s, who(i))) == Ids(s) + {i}
  {
    PlacedEnter(s, who, i);
    TotalIsAll(s, who);
    WithIPIsAll(s, who, who(i).ip);
    OutWithin(s);
    hide Placed, GroupsExact, WithinLimits, Ids, OutIds;
    LimitsGrow(c, Ids(s), who, i);
    if !who(i).inbound {
      GroupsGrow(s.groups, OutIds(s), who, i);
    }
  }

  lemma OutWithin(s: Peers)
    ensures OutIds(s) <= Ids(s)
  {
  }

  lemma PardonedInv(c: Limits, s: Peers, who: nat -> ServerPeer, sp: ServerPeer, now: int)
    requires PeersInv(c, s, who)
    ensures PeersInv(c, Pardoned(s, sp, now), who) && Ids(Pardoned(s, sp, now)) == Ids(s)
  {
    hide GroupsExact, WithinLimits;
  }

  /** Adding a peer that was not there keeps the book exact and within its limits; it is there afterwards exactly if
      it was accepted. */
  lemma AddPeerInv(c: Limits, s: Peers, who: nat -> ServerPeer, i: nat, now: int, refuses: bool)
    requires PeersInv(c, s, who) && i !in Ids(s) && who(i).id == i && Fit(who(i))
    ensures var t := AddPeer(c, s, who(i), now, refuses);
      PeersInv(c, t, who) && Ids(t) == if Added(c, s, who(i), now, refuses) then Ids(s) + {i} else Ids(s)
  {
    PardonedInv(c, s, who, who(i), now);
    hide TooMany, PeersInv, Pardoned, Enter, Ids;
    if Added(c, s, who(i), now, refuses) {
      EnterInv(c, Pardoned(s, who(i), now), who, i);
    }
  }

  /** Whether a peer may come in: the server takes peers, its host is not banned at this time, and it is whitelisted and
      inbound, or there are fewer peers than allowed in all and, unless it is local, at its address. */
  ghost predicate Welcome(c: Limits, s: Peers, who: nat -> ServerPeer, i: nat, now: int, refuses: bool) {
    var sp := who(i);
    && !refuses && (sp.host in s.banned ==> now >= s.banned[sp.host])
    && (|| (sp.whitelisted && sp.inbound)
        || (&& |Ids(s)| < c.maxPeers
            && (c.maxSameIP > 0 && !sp.loopback ==> |set j | j in Ids(s) && who(j).ip == sp.ip| < c.maxSameIP)))
  }

  /** A peer that enters is among those of its kind, and nobody else is touched. */
  ghost predicate MapsRight(s: Peers, sp: ServerPeer, enters: bool, t: Peers) {
    && t.inbound == (if enters && sp.inbound then s.inbound[sp.id := sp] else s.inbound)
    && t.persistent == (if enters && !sp.inbound && sp.persistent then s.persistent[sp.id := sp] else s.persistent)
    && t.outbound == (if enters && !sp.inbound && !sp.persistent then s.outbound[sp.id := sp] else s.outbound)
  }

  /** A ban that has ended is forgotten when a peer of the host comes; others stay. */
  ghost predicate BansRight(s: Peers, sp: ServerPeer, now: int, refuses: bool, t: Peers) {
    && (forall h :: h in t.banned <==> h in s.banned && (h == sp.host && !refuses ==> now < s.banned[h]))
    && (forall h :: h in t.banned && h in s.banned ==> t.banned[h] == s.banned[h])
  }

  lemma SameIP(ids: set<nat>, who: nat -> ServerPeer, ip: nat)
    ensures (set j | j in ids && who(j).ip == ip) == AtIP(ids, who, ip)
  {
  }

  lemma PardonedSame(s: Peers, sp: ServerPeer, now: int)
    ensures Total(Pardoned(s, sp, now)) == Total(s) && WithIP(Pardoned(s, sp, now), sp.ip) == WithIP(s, sp.ip)
  {
  }

  lemma WelcomeIff(c: Limits, s: Peers, who: nat -> ServerPeer, i: nat, now: int, refuses: bool)
    requires PeersInv(c, s, who)
    ensures Added(c, s, who(i), now, refuses) <==> Welcome(c, s, who, i, now, refuses)
  {
    hide Placed, GroupsExact, WithinLimits, Ids, IPsIn;
    TotalIsAll(s, who);
    WithIPIsAll(s, who, who(i).ip);
    SameIP(Ids(s), who, who(i).ip);
    PardonedSame(s, who(i), now);
    hide AtIP, WithIP, Total, Pardoned;
  }

  lemma EnterIs(s: Peers, sp: ServerPeer)
    ensures MapsRight(s, sp, true, Enter(s, sp)) && Enter(s, sp).banned == s.banned
  {
    hide Bump;
  }

  lemma PardonIs(s: Peers, sp: ServerPeer, now: int)
    ensures MapsRight(s, sp, false, Pardoned(s, sp, now)) && BansRight(s, sp, now, false, Pardoned(s, sp, now))
    ensures BansRight(s, sp, now, true, s) && (Banned(s, sp, now) ==> Pardoned(s, sp, now) == s)
  {
  }

  /** A peer is in the book afterwards exactly if it may come in. */
  lemma AddPeerAnswers(c: Limits, s: Peers, who: nat -> ServerPeer, i: nat, now: int, refuses: bool)
    requires PeersInv(c, s, who) && who(i).id == i
    ensures var t := AddPeer(c, s, who(i), now, refuses);
      MapsRight(s, who(i), Welcome(c, s, who, i, now, refuses), t) && BansRight(s, who(i), now, refuses, t)
  {
    hide PeersInv, TooMany, Welcome, Enter, Pardoned, Banned, MapsRight, BansRight;
    var sp := who(i);
    var mid := Pardoned(s, sp, now);
    WelcomeIff(c, s, who, i, now, refuses);
    PardonIs(s, sp, now);
    EnterIs(mid, sp);
    Compose(s, sp, now, mid, Enter(mid, sp));
    NothingDone(s, sp);
  }

  lemma NothingDone(s: Peers, sp: ServerPeer)
    ensures MapsRight(s, sp, false, s)
  {
  }

  lemma Compose(s: Peers, sp: ServerPeer, now: int, mid: Peers, t: Peers)
    requires MapsRight(s, sp, false, mid) && MapsRight(mid, sp, true, t) && t.banned == mid.banned
    requires BansRight(s, sp, now, false, mid)
    ensures MapsRight(s, sp, true, t) && BansRight(s, sp, now, false, t)
  {
  }

  lemma PlacedDrop(s: Peers, who: nat -> ServerPeer, i: nat)
    requires Placed(s, who)
    ensures Placed(DropInbound(s, i), who) && OutIds(DropInbound(s, i)) == OutIds(s) && Ids(DropInbound(s, i)) <= Ids(s)
    ensures i in s.outbound ==> Placed(DropOutbound(s, i), who) && s.outbound[i] == who(i)
    ensures i in s.persistent ==> Placed(DropPersistent(s, i), who) && s.persistent[i] == who(i)
  {
  }

  lemma IdsDrop(s: Peers, who: nat -> ServerPeer, i: nat)
    requires Placed(s, who)
    ensures i in s.outbound ==>
      i in OutIds(s) && OutIds(DropOutbound(s, i)) == OutIds(s) - {i} && Ids(DropOutbound(s, i)) == Ids(s) - {i}
    ensures i in s.persistent ==>
      i in OutIds(s) && OutIds(DropPersistent(s, i)) == OutIds(s) - {i} && Ids(DropPersistent(s, i)) == Ids(s) - {i}
  {
    Apart(s, who);
    hide Placed, Bump;
    var a, b, d := s.inbound.Keys, s.outbound.Keys, s.persistent.Keys;
    if i in s.outbound {
      assert DropOutbound(s, i).outbound.Keys == b - {i};
      DropFromMiddle(a, b, d, i);
    }
    if i in s.persistent {
      assert DropPersistent(s, i).persistent.Keys == d - {i};
      DropFromMiddle(a, d, b, i);
    }
    hide DropOutbound, DropPersistent;
  }

  lemma DropFromMiddle(a: set<nat>, b: set<nat>, d: set<nat>, i: nat)
    requires a !! b && b !! d && i in b
    ensures b - {i} + d == b + d - {i} && a + (b - {i}) + d == a + b + d - {i}
    ensures d + (b - {i}) == d + b - {i} && a + d + (b - {i}) == a + d + b - {i}
  {
  }

  /** Taking a peer out of the map it is in keeps the group counts exact. */
  lemma DropInv(c: Limits, s: Peers, who: nat -> ServerPeer, i: nat)
    requires PeersInv(c, s, who)
    ensures PeersInv(c, DropInbound(s, i), who)
    ensures i in s.outbound ==> PeersInv(c, DropOutbound(s, i), who)
    ensures i in s.persistent ==> PeersInv(c, DropPersistent(s, i), who)
  {
    PlacedDrop(s, who, i);
    IdsDrop(s, who, i);
    hide Placed, GroupsExact, WithinLimits, Ids, OutIds;
    LimitsKept(c, Ids(s), Ids(DropInbound(s, i)), who);
    if i in s.outbound || i in s.persistent {
      GroupsShrink(s.groups, OutIds(s), who, i);
      LimitsKept(c, Ids(s), Ids(s) - {i}, who);
    }
  }

  /** A peer that is done is there no longer, whichever map it was in. */
  lemma DonePeerInv(c: Limits, s: Peers, who: nat -> ServerPeer, i: nat)
    requires PeersInv(c, s, who) && who(i).id == i && Fit(who(i))
    ensures PeersInv(c, DonePeer(s, who(i)), who) && Ids(DonePeer(s, who(i))) == Ids(s) - {i}
  {
    DoneIsDrop(c, s, who, i);
    DropInv(c, s, who, i);
  }

  lemma DoneIsDrop(c: Limits, s: Peers, who: nat -> ServerPeer, i: nat)
    requires PeersInv(c, s, who) && who(i).id == i && Fit(who(i))
    ensures var t := DonePeer(s, who(i));
      Ids(t) == Ids(s) - {i} &&
      (t == s || t == DropInbound(s, i) || (i in s.outbound && t == DropOutbound(s, i)) ||
       (i in s.persistent && t == DropPersistent(s, i)))
  {
    hide GroupsExact, WithinLimits, Bump;
  }

  lemma BanPeerInv(c: Limits, s: Peers, who: nat -> ServerPeer, sp: ServerPeer, now: int, refuses: bool)
    requires PeersInv(c, s, who)
    ensures PeersInv(c, BanPeer(c, s, sp, now, refuses), who)
  {
    hide GroupsExact, WithinLimits;
  }

  /** A ban keeps every peer of that host out until it ends, and not beyond. */
  lemma BanHolds(c: Limits, s: Peers, sp: ServerPeer, other: ServerPeer, now: int, later: int)
    requires other.host == sp.host
    ensures var t := BanPeer(c, s, sp, now, false);
      && (later < now + c.banDuration ==> !Added(c, t, other, later, false) && AddPeer(c, t, other, later, false) == t)
      && (later >= now + c.banDuration ==> other.host !in AddPeer(c, t, other, later, false).banned)
  {
  }

  // ---- Runs ----

  datatype Event =
    | Adding(i: nat, now: int, refuses: bool)
    | Leaving(i: nat)
    | Banning(i: nat, now: int, refuses: bool)
    | DroppingInbound(i: nat)
    | DroppingOutbound(i: nat)
    | DroppingPersistent(i: nat)

  ghost function Step(c: Limits, s: Peers, who: nat -> ServerPeer, e: Event): Peers {
    match e
    case Adding(i, now, refuses) => AddPeer(c, s, who(i), now, refuses)
    case Leaving(i) => DonePeer(s, who(i))
    case Banning(i, now, refuses) => BanPeer(c, s, who(i), now, refuses)
    case DroppingInbound(i) => DropInbound(s, i)
    case DroppingOutbound(i) => if i in s.outbound then DropOutbound(s, i) else s
    case DroppingPersistent(i) => if i in s.persistent then DropPersistent(s, i) else s
  }

  ghost function Seen(seen: set<nat>, e: Event): set<nat> {
    if e.Adding? then seen + {e.i} else seen
  }

  /** A run, with the numbers given out before each event. No number is given out twice. */
  ghost predicate Run(c: Limits, who: nat -> ServerPeer, states: seq<Peers>, events: seq<Event>, seen: seq<set<nat>>) {
    && |states| == |events| + 1 && |seen| == |states|
    && states[0] == Peers(map[], map[], map[], map[], map[]) && seen[0] == {}
    && forall n :: 0 <= n < |events| ==>
         && (events[n].Adding? ==> events[n].i !in seen[n])
         && who(events[n].i).id == events[n].i && Fit(who(events[n].i))
         && states[n + 1] == Step(c, states[n], who, events[n]) && seen[n + 1] == Seen(seen[n], events[n])
  }

  lemma StepInv(c: Limits, s: Peers, who: nat -> ServerPeer, e: Event, seen: set<nat>)
    requires PeersInv(c, s, who) && Ids(s) <= seen && (e.Adding? ==> e.i !in seen)
    requires who(e.i).id == e.i && Fit(who(e.i))
    ensures PeersInv(c, Step(c, s, who, e), who) && Ids(Step(c, s, who, e)) <= Seen(seen, e)
  {
    match e {
      case Adding(i, now, refuses) => AddPeerInv(c, s, who, i, now, refuses);
      case Leaving(i) => DonePeerInv(c, s, who, i);
      case Banning(i, now, refuses) => BanPeerInv(c, s, who, who(i), now, refuses);
      case DroppingInbound(i) => DropInv(c, s, who, i);
      case DroppingOutbound(i) => DropInv(c, s, who, i);
      case DroppingPersistent(i) => DropInv(c, s, who, i);
    }
    hide PeersInv, AddPeer;
  }

  /** In every state of every run each group counter is the number of outbound and persistent peers of the group, and
      the limits hold. */
  lemma {:induction false} RunInv(c: Limits, who: nat -> ServerPeer, states: seq<Peers>, events: seq<Event>,
                                  seen: seq<set<nat>>, n: nat)
    requires Run(c, who, states, events, seen) && n < |states|
    ensures PeersInv(c, states[n], who) && Ids(states[n]) <= seen[n]
  {
    hide Step, Seen, Fit;
    if n == 0 {
      assert forall g :: GroupMembers({}, who, g) == {};
      assert forall ip :: CrowdAt({}, who, ip) == {};
      assert Limited({}, who) == {};
    } else {
      RunInv(c, who, states, events, seen, n - 1);
      hide PeersInv, Ids;
      StepInv(c, states[n - 1], who, events[n - 1], seen[n - 1]);
    }
  }

  /** On every run a peer that is added is in the book afterwards exactly if it may come in. */
  lemma RunAdmits(c: Limits, who: nat -> ServerPeer, states: seq<Peers>, events: seq<Event>, seen: seq<set<nat>>,
                  n: nat)
    requires Run(c, who, states, events, seen) && n < |events| && events[n].Adding?
    ensures var s, t, i := states[n], states[n + 1], events[n].i;
      && MapsRight(s, who(i), Welcome(c, s, who, i, events[n].now, events[n].refuses), t)
      && BansRight(s, who(i), events[n].now, events[n].refuses, t)
  {
    RunInv(c, who, states, events, seen, n);
    hide PeersInv, AddPeer, MapsRight, BansRight, Welcome;
    AddPeerAnswers(c, states[n], who, events[n].i, events[n].now, events[n].refuses);
  }
}
