/** The server's peers, the groups they count for and the bans, as values. */
module PeerBook {
  /** Hosts and address groups are only ever compared. */
  type Host = nat
  type Group = nat

  datatype ServerPeer = ServerPeer(id: nat, inbound: bool, persistent: bool, whitelisted: bool, versionKnown: bool,
                                   host: Host, ip: nat, loopback: bool, group: Group)

  datatype Limits = Limits(maxPeers: nat, maxSameIP: int, banDuration: int)

  datatype Peers = Peers(inbound: map<nat, ServerPeer>, outbound: map<nat, ServerPeer>,
                         persistent: map<nat, ServerPeer>, banned: map<Host, int>, groups: map<Group, int>)

  function GroupCount(groups: map<Group, int>, g: Group): int {
    if g in groups then groups[g] else 0
  }

  function Bump(groups: map<Group, int>, g: Group, step: int): map<Group, int> {
    groups[g := GroupCount(groups, g) + step]
  }

  // ---- Who is there ----

  ghost function Ids(s: Peers): set<nat> {
    s.inbound.Keys + s.outbound.Keys + s.persistent.Keys
  }

  ghost function OutIds(s: Peers): set<nat> {
    s.outbound.Keys + s.persistent.Keys
  }

  /** Whether the limits do not apply to a peer. */
  predicate Exempt(sp: ServerPeer) {
    sp.whitelisted && sp.inbound
  }

  ghost function GroupMembers(out: set<nat>, who: nat -> ServerPeer, g: Group): set<nat> {
    set i | i in out && who(i).group == g
  }

  ghost function Limited(ids: set<nat>, who: nat -> ServerPeer): set<nat> {
    set i | i in ids && !Exempt(who(i))
  }

  ghost function AtIP(ids: set<nat>, who: nat -> ServerPeer, ip: nat): set<nat> {
    set i | i in ids && who(i).ip == ip
  }

  /** The peers at an address that count against the limit for one address. */
  ghost function CrowdAt(ids: set<nat>, who: nat -> ServerPeer, ip: nat): set<nat> {
    set i | i in ids && who(i).ip == ip && !Exempt(who(i)) && !who(i).loopback
  }

  // ---- The invariant ----

  /** A map of peers of one kind, each under its own number; its version is known. */
  ghost predicate OfKind(m: map<nat, ServerPeer>, who: nat -> ServerPeer, inbound: bool, persistent: bool) {
    forall i :: i in m ==>
      m[i] == who(i) && who(i).inbound == inbound && who(i).persistent == persistent && who(i).versionKnown
  }

  /** Every peer is in the map its kind belongs to. A persistent peer is never inbound. */
  ghost predicate Placed(s: Peers, who: nat -> ServerPeer) {
    && OfKind(s.inbound, who, true, false) && OfKind(s.outbound, who, false, false)
    && OfKind(s.persistent, who, false, true)
  }

  /** Each group counts its outbound and persistent peers. */
  ghost predicate GroupsExact(groups: map<Group, int>, out: set<nat>, who: nat -> ServerPeer) {
    forall g :: GroupCount(groups, g) == |GroupMembers(out, who, g)|
  }

  ghost predicate WithinLimits(c: Limits, ids: set<nat>, who: nat -> ServerPeer) {
    && |Limited(ids, who)| <= c.maxPeers
    && (c.maxSameIP > 0 ==> forall ip :: |CrowdAt(ids, who, ip)| <= c.maxSameIP)
  }

  ghost predicate PeersInv(c: Limits, s: Peers, who: nat -> ServerPeer) {
    Placed(s, who) && GroupsExact(s.groups, OutIds(s), who) && WithinLimits(c, Ids(s), who)
  }

  // ---- The operations ----

  function Total(s: Peers): nat {
    |s.inbound| + |s.outbound| + |s.persistent|
  }

  ghost function IPsIn(m: map<nat, ServerPeer>, ip: nat): set<nat> {
    set i | i in m && m[i].ip == ip
  }

  ghost function WithIP(s: Peers, ip: nat): nat {
    |IPsIn(s.inbound, ip)| + |IPsIn(s.outbound, ip)| + |IPsIn(s.persistent, ip)|
  }

  /** The bans once one that has ended is noticed. */
  function Pardoned(s: Peers, sp: ServerPeer, now: int): Peers {
    if sp.host in s.banned && now >= s.banned[sp.host] then s.(banned := s.banned - {sp.host}) else s
  }

  predicate Banned(s: Peers, sp: ServerPeer, now: int) {
    sp.host in s.banned && now < s.banned[sp.host]
  }

  /** Whether the limits keep a peer out. */
  ghost predicate TooMany(c: Limits, s: Peers, sp: ServerPeer) {
    || (c.maxSameIP > 0 && !Exempt(sp) && !sp.loopback && WithIP(s, sp.ip) + 1 > c.maxSameIP)
    || (Total(s) + 1 > c.maxPeers && !Exempt(sp))
  }

  function Enter(s: Peers, sp: ServerPeer): Peers {
    if sp.inbound then s.(inbound := s.inbound[sp.id := sp])
    else
      var s1 := s.(groups := Bump(s.groups, sp.group, 1));
      if sp.persistent then s1.(persistent := s1.persistent[sp.id := sp]) else s1.(outbound := s1.outbound[sp.id := sp])
  }

  /** `refuses` stands for a server that shuts down, or an address without a host. */
  ghost function AddPeer(c: Limits, s: Peers, sp: ServerPeer, now: int, refuses: bool): Peers {
    if refuses || Banned(s, sp, now) then s
    else if TooMany(c, Pardoned(s, sp, now), sp) then Pardoned(s, sp, now)
    else Enter(Pardoned(s, sp, now), sp)
  }

  ghost predicate Added(c: Limits, s: Peers, sp: ServerPeer, now: int, refuses: bool) {
    !refuses && !Banned(s, sp, now) && !TooMany(c, Pardoned(s, sp, now), sp)
  }

  /** Takes a chosen peer out of the map it is in, and out of its group. */
  function DropPersistent(s: Peers, i: nat): Peers
    requires i in s.persistent
  {
    s.(persistent := s.persistent - {i}, groups := Bump(s.groups, s.persistent[i].group, -1))
  }

  function DropOutbound(s: Peers, i: nat): Peers
    requires i in s.outbound
  {
    s.(outbound := s.outbound - {i}, groups := Bump(s.groups, s.outbound[i].group, -1))
  }

  function DropInbound(s: Peers, i: nat): Peers {
    s.(inbound := s.inbound - {i})
  }

  function DonePeer(s: Peers, sp: ServerPeer): Peers {
    if sp.persistent then
      if sp.id !in s.persistent then s
      else
        s.(persistent := s.persistent - {sp.id},
           groups := if !sp.inbound && sp.versionKnown then Bump(s.groups, sp.group, -1) else s.groups)
    else if sp.inbound then s.(inbound := s.inbound - {sp.id})
    else if sp.id !in s.outbound then s
    else
      s.(outbound := s.outbound - {sp.id},
         groups := if sp.versionKnown then Bump(s.groups, sp.group, -1) else s.groups)
  }

  function BanPeer(c: Limits, s: Peers, sp: ServerPeer, now: int, refuses: bool): Peers {
    if refuses then s else s.(banned := s.banned[sp.host := now + c.banDuration])
  }
}
