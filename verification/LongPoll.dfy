/** The registry of clients that wait for a newer block template. */
module LongPoll {
  import opened Chain

  /** Channels carry nothing; all that happens to one is that it is made and closed. They are numbered as they are
      made. */
  type Channel = nat

  /** Times of generation, in seconds as a 64-bit integer. */
  newtype Time = t: int | -0x8000_0000_0000_0000 <= t < 0x8000_0000_0000_0000

  /** Which channel waits for which template: by the previous hash, then by the time of generation. */
  datatype Registry = Registry(waiting: map<Hash, map<Time, Channel>>, closed: set<Channel>, made: nat)

  ghost predicate WaitsAt(r: Registry, prev: Hash, gen: Time, ch: Channel) {
    prev in r.waiting && gen in r.waiting[prev] && r.waiting[prev][gen] == ch
  }

  /** Waiting channels are made and open, no two templates share one, and no hash is listed for nothing. */
  ghost predicate RegistryOk(r: Registry) {
    && (forall prev: Hash, gen, ch: Channel :: WaitsAt(r, prev, gen, ch) ==> ch < r.made && ch !in r.closed)
    && (forall prev: Hash, gen, prev': Hash, gen', ch: Channel ::
          WaitsAt(r, prev, gen, ch) && WaitsAt(r, prev', gen', ch) ==>
          prev == prev' && gen == gen')
    && (forall ch :: ch in r.closed ==> ch < r.made)
    && (forall prev :: prev in r.waiting ==> r.waiting[prev] != map[])
  }

  // ---- The operations ----

  /** Whether a template is stale once the tip is `latest` and, if given, one was generated at `last`. */
  predicate Stale(prev: Hash, gen: Time, latest: Hash, last: Option<Time>) {
    prev != latest || (last.Some? && gen < last.value)
  }

  ghost function Leaving(r: Registry, latest: Hash, last: Option<Time>): set<Channel> {
    set prev, gen | prev in r.waiting && gen in r.waiting[prev] && Stale(prev, gen, latest, last) ::
      r.waiting[prev][gen]
  }

  function Newer(channels: map<Time, Channel>, last: Option<Time>): map<Time, Channel> {
    map gen | gen in channels && (last.None? || gen >= last.value) :: channels[gen]
  }

  /** Closes the channels of stale templates and forgets them. */
  ghost function Notify(r: Registry, latest: Hash, last: Option<Time>): Registry {
    var left := if latest in r.waiting then Newer(r.waiting[latest], last) else map[];
    Registry(if left == map[] then map[] else map[latest := left], r.closed + Leaving(r, latest, last), r.made)
  }

  /** The channel that waits for a template, made if there is none yet. */
  function Register(r: Registry, prev: Hash, gen: Time): (Registry, Channel) {
    var channels := if prev in r.waiting then r.waiting[prev] else map[];
    if gen in channels then (r, channels[gen])
    else (r.(waiting := r.waiting[prev := channels[gen := r.made]], made := r.made + 1), r.made)
  }

  // ---- What they keep ----

  lemma NotifyKeeps(r: Registry, latest: Hash, last: Option<Time>, prev: Hash, gen: Time, ch: Channel)
    ensures WaitsAt(Notify(r, latest, last), prev, gen, ch) <==>
      WaitsAt(r, prev, gen, ch) && !Stale(prev, gen, latest, last)
  {
    if latest in r.waiting {
      assert gen in Newer(r.waiting[latest], last) ==> Newer(r.waiting[latest], last) != map[];
    }
  }

  lemma LeavingAre(r: Registry, latest: Hash, last: Option<Time>, ch: Channel)
    ensures ch in Leaving(r, latest, last) <==>
      exists prev, gen :: WaitsAt(r, prev, gen, ch) && Stale(prev, gen, latest, last)
  {
    if ch in Leaving(r, latest, last) {
      var prev, gen :| prev in r.waiting && gen in r.waiting[prev] && r.waiting[prev][gen] == ch
                       && Stale(prev, gen, latest, last);
      assert WaitsAt(r, prev, gen, ch);
    }
  }

  /** A notification keeps the registry in order. What waits afterwards waits for the tip, and for nothing older than
      the given time. A channel leaves only by being closed, and nothing else is closed. */
  lemma NotifyOk(r: Registry, latest: Hash, last: Option<Time>)
    requires RegistryOk(r)
    ensures RegistryOk(Notify(r, latest, last))
    ensures forall prev :: prev in Notify(r, latest, last).waiting ==> prev == latest
    ensures forall prev, gen, ch :: WaitsAt(Notify(r, latest, last), prev, gen, ch) && last.Some? ==> gen >= last.value
    ensures forall prev, gen, ch :: WaitsAt(r, prev, gen, ch) ==>
      (ch in Notify(r, latest, last).closed <==> !WaitsAt(Notify(r, latest, last), prev, gen, ch))
  {
    var t := Notify(r, latest, last);
    forall prev, gen, ch
      ensures WaitsAt(t, prev, gen, ch) <==> WaitsAt(r, prev, gen, ch) && !Stale(prev, gen, latest, last)
    {
      NotifyKeeps(r, latest, last, prev, gen, ch);
    }
    forall ch
      ensures ch in t.closed <==>
        ch in r.closed || exists prev, gen :: WaitsAt(r, prev, gen, ch) && Stale(prev, gen, latest, last)
    {
      LeavingAre(r, latest, last, ch);
    }
  }

  lemma RegisterKeeps(r: Registry, prev: Hash, gen: Time, prev': Hash, gen': Time, ch: Channel)
    ensures WaitsAt(Register(r, prev, gen).0, prev', gen', ch) <==>
      if prev == prev' && gen == gen' then ch == Register(r, prev, gen).1 else WaitsAt(r, prev', gen', ch)
  {
  }

  /** Registering keeps the registry in order, closes nothing, and gives an open channel that waits for the template:
      the one that did already, if there is one. */
  lemma RegisterOk(r: Registry, prev: Hash, gen: Time)
    requires RegistryOk(r)
    ensures var (t, ch) := Register(r, prev, gen);
      && RegistryOk(t) && WaitsAt(t, prev, gen, ch) && t.closed == r.closed
      && (forall c :: WaitsAt(r, prev, gen, c) ==> ch == c)
      && (forall prev', gen', c :: WaitsAt(r, prev', gen', c) ==> WaitsAt(t, prev', gen', c))
  {
    var (t, ch) := Register(r, prev, gen);
    forall prev', gen', c
      ensures WaitsAt(t, prev', gen', c) <==>
        if prev == prev' && gen == gen' then c == ch else WaitsAt(r, prev', gen', c)
    {
      RegisterKeeps(r, prev, gen, prev', gen', c);
    }
    assert forall c :: WaitsAt(r, prev, gen, c) ==> ch == c;
    assert ch == r.made || WaitsAt(r, prev, gen, ch);
  }

  // ---- Runs ----

  datatype Event = Notified(latest: Hash, last: Option<Time>) | Requested(prev: Hash, gen: Time)

  ghost function Step(r: Registry, e: Event): Registry {
    match e
    case Notified(latest, last) => Notify(r, latest, last)
    case Requested(prev, gen) => Register(r, prev, gen).0
  }

  ghost function Run(events: seq<Event>): Registry {
    if events == [] then Registry(map[], {}, 0) else Step(Run(events[..|events| - 1]), events[|events| - 1])
  }

  lemma {:induction false} RunOk(events: seq<Event>)
    ensures RegistryOk(Run(events))
  {
    if events != [] {
      RunOk(events[..|events| - 1]);
      hide RegistryOk, Notify, Register;
      match events[|events| - 1] {
        case Notified(latest, last) => NotifyOk(Run(events[..|events| - 1]), latest, last);
        case Requested(prev, gen) => RegisterOk(Run(events[..|events| - 1]), prev, gen);
      }
    }
  }

  /** Whether a later notification has made a template stale. */
  ghost predicate StaledBy(events: seq<Event>, prev: Hash, gen: Time) {
    exists i :: 0 <= i < |events| && events[i].Notified? && Stale(prev, gen, events[i].latest, events[i].last)
  }

  /** The channel that a client got is closed from the moment on that its template is stale, and not before. */
  lemma {:induction false} ClosedWhenStale(before: seq<Event>, after: seq<Event>, prev: Hash, gen: Time)
    ensures var ch := Register(Run(before), prev, gen).1; var r := Run(before + [Requested(prev, gen)] + after);
      && (StaledBy(after, prev, gen) ==> ch in r.closed)
      && (!StaledBy(after, prev, gen) ==> ch !in r.closed && WaitsAt(r, prev, gen, ch))
    decreases |after|
  {
    var start := before + [Requested(prev, gen)];
    var ch := Register(Run(before), prev, gen).1;
    if after == [] {
      assert start[..|before|] == before && start + after == start;
      RunOk(before);
      RegisterOk(Run(before), prev, gen);
    } else {
      var front, e := after[..|after| - 1], after[|after| - 1];
      ClosedWhenStale(before, front, prev, gen);
      var r := Run(start + front);
      assert (start + after)[..|start + after| - 1] == start + front;
      assert Run(start + after) == Step(r, e);
      StaledMore(after, prev, gen);
      RunOk(start + front);
      hide RegistryOk, Notify, Register, Run, Stale, StaledBy, WaitsAt;
      StepCloses(r, e, prev, gen, ch);
    }
  }

  lemma StaledMore(events: seq<Event>, prev: Hash, gen: Time)
    requires events != []
    ensures var e := events[|events| - 1];
      StaledBy(events, prev, gen) <==>
      StaledBy(events[..|events| - 1], prev, gen) || (e.Notified? && Stale(prev, gen, e.latest, e.last))
  {
    var front := events[..|events| - 1];
    assert forall i :: 0 <= i < |front| ==> front[i] == events[i];
  }

  /** What one event does to a channel that waits, or that is closed already. */
  lemma StepCloses(r: Registry, e: Event, prev: Hash, gen: Time, ch: Channel)
    requires RegistryOk(r)
    ensures ch in r.closed ==> ch in Step(r, e).closed
    ensures WaitsAt(r, prev, gen, ch) && e.Notified? && Stale(prev, gen, e.latest, e.last) ==> ch in Step(r, e).closed
    ensures WaitsAt(r, prev, gen, ch) && !(e.Notified? && Stale(prev, gen, e.latest, e.last)) ==>
      ch !in Step(r, e).closed && WaitsAt(Step(r, e), prev, gen, ch)
  {
    match e {
      case Notified(latest, last) =>
        NotifyOk(r, latest, last);
        NotifyKeeps(r, latest, last, prev, gen, ch);
      case Requested(p, g) => RegisterOk(r, p, g);
    }
  }

  // ---- A notification in its two loops ----

  ghost predicate OneEach(channels: map<Time, Channel>) {
    forall gen, gen' :: gen in channels && gen' in channels && channels[gen] == channels[gen'] ==> gen == gen'
  }

  ghost function ChannelsOf(r: Registry, prevs: set<Hash>): set<Channel> {
    set prev, gen | prev in r.waiting && gen in r.waiting[prev] && prev in prevs :: r.waiting[prev][gen]
  }

  /** The registry once everything that waits for some hashes has been told. */
  ghost function Purged(r: Registry, prevs: set<Hash>): Registry {
    Registry(r.waiting - prevs, r.closed + ChannelsOf(r, prevs), r.made)
  }

  lemma PurgedNext(r: Registry, prevs: set<Hash>, prev: Hash)
    requires RegistryOk(r) && prev in r.waiting && prev !in prevs
    ensures var p := Purged(r, prevs);
      Purged(r, prevs + {prev}) == Registry(p.waiting - {prev}, p.closed + r.waiting[prev].Values, p.made)
    ensures r.waiting[prev].Values !! Purged(r, prevs).closed
    ensures OneEach(r.waiting[prev])
  {
    forall gen | gen in r.waiting[prev] ensures r.waiting[prev][gen] !in Purged(r, prevs).closed {
      var ch := r.waiting[prev][gen];
      assert WaitsAt(r, prev, gen, ch);
      forall p, g | p in r.waiting && g in r.waiting[p] && p in prevs ensures r.waiting[p][g] != ch {
        assert WaitsAt(r, p, g, r.waiting[p][g]);
      }
    }
    forall gen, gen' | gen in r.waiting[prev] && gen' in r.waiting[prev]
                       && r.waiting[prev][gen] == r.waiting[prev][gen']
      ensures gen == gen'
    {
      assert WaitsAt(r, prev, gen, r.waiting[prev][gen]) && WaitsAt(r, prev, gen', r.waiting[prev][gen]);
    }
    forall ch ensures ch in ChannelsOf(r, prevs + {prev}) <==> ch in ChannelsOf(r, prevs) + r.waiting[prev].Values {
      if ch in r.waiting[prev].Values {
        var gen: Time :| gen in r.waiting[prev] && r.waiting[prev][gen] == ch;
        assert prev in prevs + {prev};
      }
    }
  }

  lemma PurgedNone(r: Registry)
    ensures Purged(r, {}) == r
  {
    assert ChannelsOf(r, {}) == {};
  }

  /** The channels of a hash that are older than a time. */
  ghost function OlderThan(channels: map<Time, Channel>, last: Time): set<Channel> {
    set gen | gen in channels && gen < last :: channels[gen]
  }

  /** How far the second loop has come, with the times `todo` ahead: what it keeps and what it has told. */
  ghost predicate Telling(all: map<Time, Channel>, last: Time, todo: set<Time>, kept: map<Time, Channel>,
                          told: set<Channel>) {
    && todo <= all.Keys && kept == (map gen | gen in all && (gen in todo || gen >= last) :: all[gen])
    && told == set gen | gen in all && gen !in todo && gen < last :: all[gen]
  }

  lemma TellingNext(all: map<Time, Channel>, last: Time, todo: set<Time>, kept: map<Time, Channel>, told: set<Channel>,
                    gen: Time)
    requires Telling(all, last, todo, kept, told) && gen in todo && OneEach(all)
    ensures gen >= last ==> Telling(all, last, todo - {gen}, kept, told)
    ensures gen < last ==> all[gen] !in told && Telling(all, last, todo - {gen}, kept - {gen}, told + {all[gen]})
  {
    if gen < last {
      var more := set g | g in all && g !in todo - {gen} && g < last :: all[g];
      forall ch ensures ch in more <==> ch in told + {all[gen]} {
        if ch in told {
          var g :| g in all && g !in todo && g < last && all[g] == ch;
        }
      }
    }
  }

  lemma TellingEnds(all: map<Time, Channel>, last: Time, kept: map<Time, Channel>, told: set<Channel>)
    ensures Telling(all, last, all.Keys, all, {})
    ensures Telling(all, last, {}, kept, told) ==> kept == Newer(all, Some(last)) && told == OlderThan(all, last)
  {
  }

  /** A hash with what waits for it, and without the hash if nothing does. */
  function Placed(waiting: map<Hash, map<Time, Channel>>, latest: Hash, left: map<Time, Channel>)
    : map<Hash, map<Time, Channel>>
  {
    if left == map[] then waiting - {latest} else waiting[latest := left]
  }

  lemma LeavingInParts(r: Registry, latest: Hash, last: Option<Time>)
    ensures last.None? || latest !in r.waiting ==> Leaving(r, latest, last) == ChannelsOf(r, r.waiting.Keys - {latest})
    ensures last.Some? && latest in r.waiting ==>
      Leaving(r, latest, last) == ChannelsOf(r, r.waiting.Keys - {latest}) + OlderThan(r.waiting[latest], last.value)
  {
  }

  lemma WaitingInParts(r: Registry, latest: Hash)
    ensures r.waiting - (r.waiting.Keys - {latest})
      == if latest in r.waiting then map[latest := r.waiting[latest]] else map[]
  {
  }

  /** The first loop makes a notification without a time, or if nothing waits for the tip. */
  lemma NotifyUntimed(r: Registry, latest: Hash, last: Option<Time>)
    requires RegistryOk(r) && (last.None? || latest !in r.waiting)
    ensures Notify(r, latest, last) == Purged(r, r.waiting.Keys - {latest})
  {
    LeavingInParts(r, latest, last);
    WaitingInParts(r, latest);
    if latest in r.waiting {
      assert Newer(r.waiting[latest], last) == r.waiting[latest];
    }
    hide Leaving, ChannelsOf, Newer;
  }

  /** The two loops together make one with a time. */
  lemma NotifyTimed(r: Registry, latest: Hash, last: Time)
    requires latest in r.waiting
    ensures var p, left := Purged(r, r.waiting.Keys - {latest}), Newer(r.waiting[latest], Some(last));
      Notify(r, latest, Some(last))
        == Registry(Placed(p.waiting, latest, left), p.closed + OlderThan(r.waiting[latest], last), r.made)
  {
    hide Newer, Leaving, ChannelsOf, OlderThan;
    LeavingInParts(r, latest, Some(last));
    WaitingInParts(r, latest);
    var left := Newer(r.waiting[latest], Some(last));
    assert map[latest := r.waiting[latest]][latest := left] == map[latest := left];
    assert map[latest := r.waiting[latest]] - {latest} == map[];
  }

  // ---- The work state ----

  class WorkState {
    var notifyMap: map<Hash, map<Time, Channel>>
    var closed: set<Channel>
    var made: nat

    function View(): Registry
      reads this
    {
      Registry(notifyMap, closed, made)
    }

    constructor ()
      ensures View() == Run([])
    {
      notifyMap, closed, made := map[], {}, 0;
    }

    /** Closing a channel twice would panic. */
    method Close(ch: Channel)
      requires ch !in closed
      modifies this`closed
      ensures closed == old(closed) + {ch}
    {
      closed := closed + {ch};
    }

    /** Closes all channels of a hash, one after the other. */
    method CloseAll(channels: map<Time, Channel>)
      requires channels.Values !! closed
      requires OneEach(channels)
      modifies this`closed
      ensures closed == old(closed) + channels.Values
    {
      var todo: set<Time> := channels.Keys;
      ghost var told: set<Channel> := {};
      while todo != {}
        invariant todo <= channels.Keys && closed == old(closed) + told
        invariant forall gen :: gen in channels ==> (channels[gen] in told <==> gen !in todo)
        invariant told <= channels.Values
      {
        var gen: Time :| gen in todo;
        assert channels[gen] in channels.Values;
        Close(channels[gen]);
        told := told + {channels[gen]};
        todo := todo - {gen};
      }
      forall ch | ch in channels.Values ensures ch in told {
        var gen: Time :| gen in channels && channels[gen] == ch;
      }
      assert told == channels.Values;
    }

    /** Tells everything that waits for another hash than the tip. */
    method TellOthers(latest: Hash)
      requires RegistryOk(View())
      modifies this`notifyMap, this`closed
      ensures View() == Purged(old(View()), old(notifyMap).Keys - {latest})
    {
      ghost var r, told: set<Hash> := View(), {};
      var todo := notifyMap.Keys;
      PurgedNone(r);
      hide RegistryOk, Purged;
      while todo != {}
        invariant todo <= r.waiting.Keys && told == r.waiting.Keys - todo - {latest} && View() == Purged(r, told)
        invariant forall prev :: prev in todo ==> prev in notifyMap && notifyMap[prev] == r.waiting[prev]
      {
        var prev :| prev in todo;
        todo := todo - {prev};
        if prev != latest {
          PurgedNext(r, told, prev);
          CloseAll(notifyMap[prev]);
          notifyMap := notifyMap - {prev};
          told := told + {prev};
        }
      }
      assert told == r.waiting.Keys - {latest};
    }

    /** Tells those of the channels that wait for older templates, and gives the others. */
    method TellOlder(all: map<Time, Channel>, last: Time) returns (channels: map<Time, Channel>)
      requires all.Values !! closed && OneEach(all)
      modifies this`closed
      ensures channels == Newer(all, Some(last)) && closed == old(closed) + OlderThan(all, last)
    {
      channels := all;
      var todo := all.Keys;
      ghost var told: set<Channel> := {};
      TellingEnds(all, last, channels, told);
      hide Telling, OneEach, Newer, OlderThan;
      while todo != {}
        invariant todo <= all.Keys && closed == old(closed) + told && Telling(all, last, todo, channels, told)
      {
        var gen :| gen in todo;
        TellingNext(all, last, todo, channels, told, gen);
        todo := todo - {gen};
        if gen < last {
          assert all[gen] in all.Values;
          Close(all[gen]);
          told := told + {all[gen]};
          channels := channels - {gen};
        }
      }
      TellingEnds(all, last, channels, told);
    }

    method NotifyLongPollers(latest: Hash, last: Option<Time>)
      requires RegistryOk(View())
      modifies this`notifyMap, this`closed
      ensures View() == Notify(old(View()), latest, last) && RegistryOk(View())
    {
      ghost var r := View();
      NotifyOk(r, latest, last);
      TipUntouched(r, latest);
      hide RegistryOk, Notify, Newer, OlderThan, Purged, OneEach;
      TellOthers(latest);
      if last.None? || latest !in notifyMap {
        NotifyUntimed(r, latest, last);
        return;
      }
      NotifyTimed(r, latest, last.value);
      var channels := TellOlder(notifyMap[latest], last.value);
      if |channels| == 0 {
        assert channels == map[];
        notifyMap := notifyMap - {latest};
      } else {
        notifyMap := notifyMap[latest := channels];
      }
    }

    lemma TipUntouched(r: Registry, latest: Hash)
      requires RegistryOk(r)
      ensures var p := Purged(r, r.waiting.Keys - {latest});
        && (latest in p.waiting <==> latest in r.waiting)
        && (latest in r.waiting ==> p.waiting[latest] == r.waiting[latest] && r.waiting[latest].Values !! p.closed)
        && (latest in r.waiting ==> OneEach(r.waiting[latest]))
    {
      if latest in r.waiting {
        PurgedNext(r, r.waiting.Keys - {latest}, latest);
      }
    }

    method TemplateUpdateChan(prev: Hash, gen: Time) returns (ch: Channel)
      requires RegistryOk(View())
      modifies this`notifyMap, this`made
      ensures (View(), ch) == Register(old(View()), prev, gen) && RegistryOk(View()) && ch !in closed
    {
      RegisterOk(View(), prev, gen);
      hide RegistryOk;
      var channels: map<Time, Channel> := if prev in notifyMap then notifyMap[prev] else map[];
      if gen in channels {
        return channels[gen];
      }
      ch := made;
      made := made + 1;
      notifyMap := notifyMap[prev := channels[gen := ch]];
    }
  }
}
