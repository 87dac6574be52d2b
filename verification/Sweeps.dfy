/** Leaving everything at once: JOIN 0, teardown, and the sweep over all marked clients. */
module Sweeps {
  import opened Wrappers
  import opened IrcText
  import opened ServerState
  import opened Departures

  // ---------------------------------------------------------------- JOIN 0

  /** One stop of the walk over the client's own list. The pointer is looked up again by its
      channel's name, and a channel the client is not on is passed over. */
  ghost function PartOne(channels: map<string, Channel>, id: int, p: ChanPtr, live: set<int>): map<string, Channel>
  {
    if Live(channels, p) && id in channels[p.key].members then
      PutBack(channels, p.key, Bereft(channels[p.key], id, live))
    else channels
  }

  ghost function PartWalk(channels: map<string, Channel>, id: int, ps: seq<ChanPtr>, live: set<int>)
    : map<string, Channel>
    decreases |ps|
  {
    if ps == [] then channels else PartWalk(PartOne(channels, id, ps[0], live), id, ps[1..], live)
  }

  ghost function PartAll(s: State, id: int): State
    requires id in s.clients
  {
    var c := s.clients[id];
    s.(channels := PartWalk(s.channels, id, c.channels, s.clients.Keys),
       clients := s.clients[id := c.(channels := [])])
  }

  // ---------------------------------------------------------------- teardown

  /** One channel under the teardown scan; succession only if the client was a member. */
  ghost function Scanned(ch: Channel, id: int, live: set<int>): Channel
  {
    if id in ch.members then Bereft(ch, id, live) else Without(ch, id)
  }

  ghost function ScanAll(channels: map<string, Channel>, id: int, live: set<int>): map<string, Channel>
  {
    map k | k in channels && channels[k].members - {id} != {} :: Scanned(channels[k], id, live)
  }

  ghost function Vacate(s: State, id: int): State
    requires id in s.clients
  {
    s.(channels := ScanAll(s.channels, id, s.clients.Keys),
       clients := s.clients[id := s.clients[id].(channels := [])])
  }

  ghost function Teardown(s: State, id: int): State
    requires id in s.clients
  {
    var v := Vacate(s, id);
    v.(clients := v.clients - {id},
       nicks := if s.clients[id].nick == "" then s.nicks else s.nicks - {Fold(s.clients[id].nick)})
  }

  // ---------------------------------------------------------------- the walk in closed form

  function KeysOf(ps: seq<ChanPtr>): set<string> { set p | p in ps :: p.key }

  /** The channels in ks without id; a channel that empties is gone. */
  ghost function LeftBehind(channels: map<string, Channel>, id: int, ks: set<string>, live: set<int>)
    : map<string, Channel>
  {
    map k | k in channels && (k in ks ==> channels[k].members - {id} != {}) ::
      if k in ks then Bereft(channels[k], id, live) else channels[k]
  }

  ghost predicate Walkable(channels: map<string, Channel>, id: int, ps: seq<ChanPtr>)
  {
    && (forall p :: p in ps ==> Live(channels, p) && id in channels[p.key].members)
    && (forall i, j :: 0 <= i < j < |ps| ==> ps[i].key != ps[j].key)
  }

  lemma OwnListWalkable(id: int, ps: seq<ChanPtr>, channels: map<string, Channel>)
    requires ListOk(id, ps, channels)
    ensures Walkable(channels, id, ps)
    ensures KeysOf(ps) == set k | k in channels && id in channels[k].members
  {
    forall i, j | 0 <= i < j < |ps|
      ensures ps[i].key != ps[j].key
    {
      assert ps[i] in ps && ps[j] in ps;
    }
    forall k | k in channels && id in channels[k].members
      ensures k in KeysOf(ps)
    {
      assert PtrTo(k, channels[k]) in ps;
    }
  }

  lemma WalkableRest(channels: map<string, Channel>, id: int, ps: seq<ChanPtr>, r: Channel)
    requires ps != [] && Walkable(channels, id, ps)
    ensures Walkable(PutBack(channels, ps[0].key, r), id, ps[1..])
    ensures ps[0].key !in KeysOf(ps[1..])
  {
    var rest, cs := ps[1..], PutBack(channels, ps[0].key, r);
    forall p | p in rest
      ensures p.key != ps[0].key && Live(cs, p) && id in cs[p.key].members
    {
      var i :| 0 <= i < |rest| && rest[i] == p;
      assert ps[i + 1] == p && p in ps;
    }
  }

  lemma LeftBehindStep(channels: map<string, Channel>, id: int, k: string, ks: set<string>, live: set<int>)
    requires k in channels && k !in ks
    ensures var r := Bereft(channels[k], id, live);
            LeftBehind(PutBack(channels, k, r), id, ks, live) == LeftBehind(channels, id, ks + {k}, live)
  {
    var r := Bereft(channels[k], id, live);
    BereftFields(channels[k], id, live);
    var a, b := LeftBehind(PutBack(channels, k, r), id, ks, live), LeftBehind(channels, id, ks + {k}, live);
    assert forall j :: j in a <==> j in b;
    assert forall j :: j in a ==> a[j] == b[j];
  }

  lemma {:induction false} PartWalkForm(channels: map<string, Channel>, id: int, ps: seq<ChanPtr>, live: set<int>)
    requires Walkable(channels, id, ps)
    ensures PartWalk(channels, id, ps, live) == LeftBehind(channels, id, KeysOf(ps), live)
    decreases |ps|
  {
    if ps == [] {
      assert LeftBehind(channels, id, {}, live) == channels;
    } else {
      var p := ps[0];
      assert p in ps;
      var r := Bereft(channels[p.key], id, live);
      WalkableRest(channels, id, ps, r);
      PartWalkForm(PutBack(channels, p.key, r), id, ps[1..], live);
      LeftBehindStep(channels, id, p.key, KeysOf(ps[1..]), live);
      assert KeysOf(ps) == KeysOf(ps[1..]) + {p.key} by {
        assert forall q :: q in ps <==> q == p || q in ps[1..];
      }
    }
  }

  // ---------------------------------------------------------------- walk and scan agree

  /** Scanning a channel that the client is not on only withdraws its invitation. */
  lemma OutsiderScan(k: string, ch: Channel, nextGen: nat, id: int)
    requires ChannelOk(k, ch, nextGen) && id !in ch.members
    ensures ch.members - {id} != {} && Without(ch, id) == ch.(invited := ch.invited - {id})
  {
    var m := Inhabited(ch.members);
    assert m in ch.members - {id};
    assert ch.joinOrder - {id} == ch.joinOrder;
  }

  lemma WalkMeetsScanAt(k: string, ch: Channel, nextGen: nat, id: int, live: set<int>)
    requires ChannelOk(k, ch, nextGen)
    ensures var walked := if id in ch.members then Bereft(ch, id, live) else ch;
            var scanned := Scanned(ch, id, live);
            && (id in ch.members ==> scanned == walked)
            && scanned == walked.(invited := walked.invited - {id})
            && (id !in ch.members ==> ch.members - {id} != {})
  {
    BereftFields(ch, id, live);
    if id !in ch.members {
      OutsiderScan(k, ch, nextGen, id);
    } else {
      assert ch.invited - {id} - {id} == ch.invited - {id};
    }
  }

  /** Both channel tables, entry by entry. */
  ghost predicate SameButInvites(walk: map<string, Channel>, scan: map<string, Channel>, id: int, mine: set<string>)
  {
    && walk.Keys == scan.Keys
    && (forall k :: k in scan ==> scan[k] == walk[k].(invited := walk[k].invited - {id}))
    && (forall k :: k in scan && k in mine ==> scan[k] == walk[k])
  }

  lemma LeftBehindMeetsScan(channels: map<string, Channel>, id: int, ks: set<string>, live: set<int>, nextGen: nat)
    requires forall k :: k in channels ==> ChannelOk(k, channels[k], nextGen)
    requires ks == set k | k in channels && id in channels[k].members
    ensures SameButInvites(LeftBehind(channels, id, ks, live), ScanAll(channels, id, live), id, ks)
  {
    forall k | k in channels
      ensures id !in channels[k].members ==> channels[k].members - {id} != {}
      ensures var walked := if k in ks then Bereft(channels[k], id, live) else channels[k];
              && (k in ks ==> Scanned(channels[k], id, live) == walked)
              && Scanned(channels[k], id, live) == walked.(invited := walked.invited - {id})
    {
      assert ChannelOk(k, channels[k], nextGen);
      WalkMeetsScanAt(k, channels[k], nextGen, id, live);
    }
  }

  /** Walking one's own list and scanning every channel end in the same channel table, but for
      invitations to channels one is not on: only the scan withdraws those. */
  lemma WalkMeetsScan(s: State, id: int)
    requires ChannelsOk(s) && ListsOk(s) && id in s.clients
    ensures SameButInvites(PartAll(s, id).channels, Vacate(s, id).channels, id,
                           set k | k in s.channels && id in s.channels[k].members)
    ensures PartAll(s, id) == Vacate(s, id).(channels := PartAll(s, id).channels)
  {
    var ps, live := s.clients[id].channels, s.clients.Keys;
    assert ListOk(id, ps, s.channels);
    OwnListWalkable(id, ps, s.channels);
    PartWalkForm(s.channels, id, ps, live);
    LeftBehindMeetsScan(s.channels, id, KeysOf(ps), live, s.nextGen);
  }

  // ---------------------------------------------------------------- the invariant is kept

  /** The same channels without id among the members; one that emptied is gone. */
  ghost predicate Shrunk(before: map<string, Channel>, after: map<string, Channel>, id: int)
  {
    && (forall k :: k in after ==>
          k in before && after[k].gen == before[k].gen && after[k].members == before[k].members - {id})
    && (forall k :: k in before && k !in after ==> before[k].members - {id} == {})
  }

  /** id has left every channel, whatever became of its invitations. */
  ghost predicate Scattered(before: map<string, Channel>, after: map<string, Channel>, id: int, nextGen: nat)
  {
    && Shrunk(before, after, id)
    && (forall k :: k in after ==> ChannelOk(k, after[k], nextGen) && after[k].invited <= before[k].invited)
  }

  lemma ScatteredLists(before: map<string, Channel>, after: map<string, Channel>, id: int, i: int, ps: seq<ChanPtr>)
    requires Shrunk(before, after, id) && Lists(i, ps, before) && i != id
    ensures Lists(i, ps, after)
  {
    forall p | p in ps
      ensures Live(after, p) && i in after[p.key].members
    {
      assert Live(before, p) && i in before[p.key].members;
      assert i in before[p.key].members - {id};
      assert p.key in after;
    }
    forall k | k in after && i in after[k].members
      ensures PtrTo(k, after[k]) in ps
    {
      assert PtrTo(k, before[k]) in ps;
    }
  }

  lemma ScatteredOwn(before: map<string, Channel>, after: map<string, Channel>, id: int)
    requires Shrunk(before, after, id)
    ensures ListOk(id, [], after)
  {
  }

  lemma AllListsAfter(s: State, s': State, id: int)
    requires ListsOk(s) && id in s.clients && Shrunk(s.channels, s'.channels, id)
    requires s'.clients == s.clients[id := s.clients[id].(channels := [])]
    ensures ListsOk(s')
  {
    forall i | i in s'.clients
      ensures ListOk(i, s'.clients[i].channels, s'.channels)
    {
      assert ListOk(i, s.clients[i].channels, s.channels);
      if i == id {
        ScatteredOwn(s.channels, s'.channels, id);
      } else {
        ScatteredLists(s.channels, s'.channels, id, i, s.clients[i].channels);
      }
    }
  }

  lemma ScatteredKeeps(s: State, s': State, id: int)
    requires Inv(s) && id in s.clients && Scattered(s.channels, s'.channels, id, s.nextGen)
    requires s' == s.(channels := s'.channels, clients := s.clients[id := s.clients[id].(channels := [])])
    ensures Inv(s')
  {
    AllListsAfter(s, s', id);
    OnlyListsKeeps(s, s');
    assert ChannelsOk(s');
    assert RosterOk(s');
  }

  lemma WalkScatters(channels: map<string, Channel>, id: int, ks: set<string>, live: set<int>, nextGen: nat)
    requires forall k :: k in channels ==> ChannelOk(k, channels[k], nextGen)
    requires ks == set k | k in channels && id in channels[k].members
    ensures Scattered(channels, LeftBehind(channels, id, ks, live), id, nextGen)
  {
    var after := LeftBehind(channels, id, ks, live);
    forall k | k in after
      ensures ChannelOk(k, after[k], nextGen) && after[k].gen == channels[k].gen
      ensures after[k].members == channels[k].members - {id} && after[k].invited <= channels[k].invited
    {
      assert ChannelOk(k, channels[k], nextGen);
      BereftFields(channels[k], id, live);
      if k in ks {
        BereftOk(k, channels[k], nextGen, id, live);
      }
    }
  }

  lemma PartAllKeeps(s: State, id: int)
    requires Inv(s) && id in s.clients
    ensures Inv(PartAll(s, id))
  {
    var ps, live := s.clients[id].channels, s.clients.Keys;
    assert ListOk(id, ps, s.channels);
    OwnListWalkable(id, ps, s.channels);
    PartWalkForm(s.channels, id, ps, live);
    WalkScatters(s.channels, id, KeysOf(ps), live, s.nextGen);
    ScatteredKeeps(s, PartAll(s, id), id);
  }

  lemma ScanScatters(channels: map<string, Channel>, id: int, live: set<int>, nextGen: nat)
    requires forall k :: k in channels ==> ChannelOk(k, channels[k], nextGen)
    ensures Scattered(channels, ScanAll(channels, id, live), id, nextGen)
    ensures forall k :: k in ScanAll(channels, id, live) ==> id !in ScanAll(channels, id, live)[k].invited
  {
    var after := ScanAll(channels, id, live);
    forall k | k in after
      ensures ChannelOk(k, after[k], nextGen) && after[k].gen == channels[k].gen
      ensures after[k].members == channels[k].members - {id} && after[k].invited == channels[k].invited - {id}
    {
      assert ChannelOk(k, channels[k], nextGen);
      BereftFields(channels[k], id, live);
      WithoutOk(k, channels[k], nextGen, id);
      BereftOk(k, channels[k], nextGen, id, live);
    }
  }

  lemma VacateKeeps(s: State, id: int)
    requires Inv(s) && id in s.clients
    ensures Inv(Vacate(s, id))
    ensures forall k :: k in Vacate(s, id).channels ==>
              id !in Vacate(s, id).channels[k].members && id !in Vacate(s, id).channels[k].invited
  {
    ScanScatters(s.channels, id, s.clients.Keys, s.nextGen);
    ScatteredKeeps(s, Vacate(s, id), id);
  }

  function Forgotten(v: State, id: int): State
    requires id in v.clients
  {
    v.(clients := v.clients - {id},
       nicks := if v.clients[id].nick == "" then v.nicks else v.nicks - {Fold(v.clients[id].nick)})
  }

  lemma ForgetIndex(v: State, id: int)
    requires IndexOk(v) && ClientsOk(v) && id in v.clients
    ensures IndexOk(Forgotten(v, id)) && ClientsOk(Forgotten(v, id))
  {
    var s' := Forgotten(v, id);
    forall n | n in s'.nicks
      ensures s'.nicks[n] in s'.clients
    {
      assert n in v.nicks && Fold(v.clients[v.nicks[n]].nick) == n;
    }
  }

  lemma ForgetLists(v: State, id: int)
    requires ListsOk(v) && id in v.clients
    ensures ListsOk(Forgotten(v, id))
  {
    var s' := Forgotten(v, id);
    forall i | i in s'.clients
      ensures ListOk(i, s'.clients[i].channels, s'.channels)
    {
      assert ListOk(i, v.clients[i].channels, v.channels);
    }
  }

  lemma ForgetRoster(v: State, id: int)
    requires RosterOk(v) && ChannelsOk(v) && id in v.clients
    requires forall k :: k in v.channels ==> id !in v.channels[k].members && id !in v.channels[k].invited
    ensures RosterOk(Forgotten(v, id)) && ChannelsOk(Forgotten(v, id))
  {
  }

  /** A client that is on no channel and invited to none can be dropped from both tables. */
  lemma ForgetKeeps(v: State, id: int)
    requires Inv(v) && id in v.clients
    requires forall k :: k in v.channels ==> id !in v.channels[k].members && id !in v.channels[k].invited
    ensures Inv(Forgotten(v, id))
  {
    ForgetIndex(v, id);
    ForgetLists(v, id);
    ForgetRoster(v, id);
  }

  lemma TeardownKeeps(s: State, id: int)
    requires Inv(s) && id in s.clients
    ensures Inv(Teardown(s, id))
  {
    VacateKeeps(s, id);
    ForgetKeeps(Vacate(s, id), id);
  }
}
