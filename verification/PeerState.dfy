/** The server's peer state as it runs. */
module PeerState {
  import opened PeerBook
  import opened PeerProof

  predicate Any(m: map<nat, ServerPeer>, meant: ServerPeer -> bool) {
    exists i :: i in m && meant(m[i])
  }

  function Sans(m: map<nat, ServerPeer>, meant: ServerPeer -> bool): map<nat, ServerPeer> {
    map i | i in m && !meant(m[i]) :: m[i]
  }

  class PeerState {
    var inboundPeers: map<nat, ServerPeer>
    var outboundPeers: map<nat, ServerPeer>
    var persistentPeers: map<nat, ServerPeer>
    var banned: map<Host, int>
    var outboundGroups: map<Group, int>

    function View(): Peers
      reads this
    {
      Peers(inboundPeers, outboundPeers, persistentPeers, banned, outboundGroups)
    }

    constructor ()
      ensures View() == Peers(map[], map[], map[], map[], map[])
    {
      inboundPeers, outboundPeers, persistentPeers, banned, outboundGroups := map[], map[], map[], map[], map[];
    }

    /** How many peers of a map are at an address. */
    method CountIP(m: map<nat, ServerPeer>, ip: nat) returns (total: nat)
      ensures total == |IPsIn(m, ip)|
    {
      total := 0;
      var todo := m.Keys;
      ghost var seen := {};
      while todo != {}
        invariant todo <= m.Keys && seen == IPsIn(m, ip) - todo && total == |seen|
      {
        var i :| i in todo;
        todo := todo - {i};
        if m[i].ip == ip {
          assert i !in seen;
          seen := seen + {i};
          total := total + 1;
        }
      }
      assert seen == IPsIn(m, ip);
    }

    method ConnectionsWithIP(ip: nat) returns (total: nat)
      ensures total == WithIP(View(), ip)
    {
      var a := CountIP(inboundPeers, ip);
      var b := CountIP(outboundPeers, ip);
      var d := CountIP(persistentPeers, ip);
      total := a + b + d;
    }

    method EnterPeer(sp: ServerPeer)
      modifies this`inboundPeers, this`outboundPeers, this`persistentPeers, this`outboundGroups
      ensures View() == Enter(old(View()), sp)
    {
      if sp.inbound {
        inboundPeers := inboundPeers[sp.id := sp];
      } else {
        outboundGroups := Bump(outboundGroups, sp.group, 1);
        if sp.persistent {
          persistentPeers := persistentPeers[sp.id := sp];
        } else {
          outboundPeers := outboundPeers[sp.id := sp];
        }
      }
    }

    method HandleAddPeer(c: Limits, sp: ServerPeer, now: int, refuses: bool) returns (added: bool)
      modifies this
      ensures View() == AddPeer(c, old(View()), sp, now, refuses) && added == Added(c, old(View()), sp, now, refuses)
    {
      hide Enter;
      if refuses {
        return false;
      }
      if sp.host in banned {
        if now < banned[sp.host] {
          return false;
        }
        banned := banned - {sp.host};
      }
      var exempt := sp.whitelisted && sp.inbound;
      if c.maxSameIP > 0 && !exempt && !sp.loopback {
        var total := ConnectionsWithIP(sp.ip);
        if total + 1 > c.maxSameIP {
          return false;
        }
      }
      if |inboundPeers| + |outboundPeers| + |persistentPeers| + 1 > c.maxPeers && !exempt {
        return false;
      }
      EnterPeer(sp);
      added := true;
    }

    method HandleDonePeer(sp: ServerPeer)
      modifies this`inboundPeers, this`outboundPeers, this`persistentPeers, this`outboundGroups
      ensures View() == DonePeer(old(View()), sp)
    {
      var list := if sp.persistent then persistentPeers else if sp.inbound then inboundPeers else outboundPeers;
      if sp.id !in list {
        assert list - {sp.id} == list;
        return;
      }
      if !sp.inbound && sp.versionKnown {
        outboundGroups := Bump(outboundGroups, sp.group, -1);
      }
      list := list - {sp.id};
      if sp.persistent {
        persistentPeers := list;
      } else if sp.inbound {
        inboundPeers := list;
      } else {
        outboundPeers := list;
      }
    }

    method HandleBanPeer(c: Limits, sp: ServerPeer, now: int, refuses: bool)
      modifies this`banned
      ensures View() == BanPeer(c, old(View()), sp, now, refuses)
    {
      if !refuses {
        banned := banned[sp.host := now + c.banDuration];
      }
    }

    // ---- Disconnecting by hand ----

    /** Some peer of a map that is meant, if there is one. */
    method Find(m: map<nat, ServerPeer>, meant: ServerPeer -> bool) returns (found: bool, i: nat)
      ensures found ==> i in m && meant(m[i])
      ensures !found ==> forall j :: j in m ==> !meant(m[j])
    {
      found, i := false, 0;
      var todo := m.Keys;
      while todo != {}
        invariant todo <= m.Keys && forall j :: j in m && j !in todo ==> !meant(m[j])
      {
        var j :| j in todo;
        if meant(m[j]) {
          return true, j;
        }
        todo := todo - {j};
      }
    }

    method HandleRemoveNode(meant: ServerPeer -> bool) returns (found: bool, ghost i: nat)
      modifies this`persistentPeers, this`outboundGroups
      ensures found ==>
        && i in old(persistentPeers) && meant(old(persistentPeers)[i]) && View() == DropPersistent(old(View()), i)
      ensures !found ==> View() == old(View()) && forall j :: j in persistentPeers ==> !meant(persistentPeers[j])
    {
      var victim;
      found, victim := Find(persistentPeers, meant);
      i := victim;
      if found {
        outboundGroups := Bump(outboundGroups, persistentPeers[victim].group, -1);
        persistentPeers := persistentPeers - {victim};
      }
    }

    method DropOne(i: nat, ghost c: Limits, ghost who: nat -> ServerPeer)
      requires PeersInv(c, View(), who) && i in outboundPeers
      modifies this`outboundPeers, this`outboundGroups
      ensures PeersInv(c, View(), who) && outboundPeers == old(outboundPeers) - {i}
    {
      hide PeersInv, Bump;
      DropInv(c, View(), who, i);
      outboundGroups := Bump(outboundGroups, outboundPeers[i].group, -1);
      outboundPeers := outboundPeers - {i};
    }

    /** Disconnects every outbound peer that is meant, one after the other. */
    method DropMeant(meant: ServerPeer -> bool, ghost c: Limits, ghost who: nat -> ServerPeer) returns (found: bool)
      requires PeersInv(c, View(), who)
      modifies this`outboundPeers, this`outboundGroups
      ensures PeersInv(c, View(), who) && outboundPeers == Sans(old(outboundPeers), meant)
      ensures found <==> Any(old(outboundPeers), meant)
    {
      hide PeersInv;
      var i;
      found, i := Find(outboundPeers, meant);
      var again := found;
      while again
        invariant again ==> i in outboundPeers && meant(outboundPeers[i])
        invariant !again ==> forall j :: j in outboundPeers ==> !meant(outboundPeers[j])
        invariant PeersInv(c, View(), who)
        invariant forall j :: j in outboundPeers ==>
          j in old(outboundPeers) && outboundPeers[j] == old(outboundPeers)[j]
        invariant forall j :: j in old(outboundPeers) && !meant(old(outboundPeers)[j]) ==> j in outboundPeers
        decreases |outboundPeers|
      {
        DropOne(i, c, who);
        again, i := Find(outboundPeers, meant);
      }
    }

    /** Disconnects one inbound peer that is meant, or if there is none every outbound one; the counts stay exact. */
    method HandleDisconnectNode(meant: ServerPeer -> bool, ghost c: Limits, ghost who: nat -> ServerPeer)
      returns (found: bool, ghost i: nat)
      requires PeersInv(c, View(), who)
      modifies this`inboundPeers, this`outboundPeers, this`outboundGroups
      ensures PeersInv(c, View(), who)
      ensures found <==> Any(old(inboundPeers), meant) || Any(old(outboundPeers), meant)
      ensures if Any(old(inboundPeers), meant)
        then i in old(inboundPeers) && meant(old(inboundPeers)[i]) && View() == DropInbound(old(View()), i)
        else inboundPeers == old(inboundPeers) && outboundPeers == Sans(old(outboundPeers), meant)
    {
      hide PeersInv;
      var victim;
      found, victim := Find(inboundPeers, meant);
      i := victim;
      if found {
        DropInv(c, View(), who, i);
        inboundPeers := inboundPeers - {victim};
      } else {
        found := DropMeant(meant, c, who);
      }
    }
  }
}
