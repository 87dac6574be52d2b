/** Leaving channels: one at a time, all of one's own, or by the teardown scan;
    and who becomes operator when the last one goes. */
module Departures {
  import opened Wrappers
  import opened ServerState

  // ---------------------------------------------------------------- succession

  function Seq(ch: Channel, id: int): nat
  {
    if id in ch.joinOrder then ch.joinOrder[id] else NO_SEQ
  }

  /** A member that joined no later than any other. */
  ghost predicate IsHeir(ch: Channel, h: int)
  {
    h in ch.members && forall m :: m in ch.members ==> Seq(ch, h) <= Seq(ch, m)
  }

  lemma {:induction false} HeirAmong(ch: Channel, ms: set<int>) returns (h: int)
    requires ms != {}
    ensures h in ms && forall m :: m in ms ==> Seq(ch, h) <= Seq(ch, m)
    decreases |ms|
  {
    var x := Inhabited(ms);
    h := x;
    if ms - {x} != {} {
      var y := HeirAmong(ch, ms - {x});
      assert forall m :: m in ms ==> m == x || m in ms - {x};
      if Seq(ch, y) < Seq(ch, x) {
        h := y;
      }
    } else {
      assert forall m :: m in ms ==> m == x || m in ms - {x};
    }
  }

  lemma HeirExists(ch: Channel)
    requires ch.members != {}
    ensures exists h :: IsHeir(ch, h)
  {
    var h := HeirAmong(ch, ch.members);
    assert IsHeir(ch, h);
  }

  ghost function Heir(ch: Channel): (h: int)
    requires ch.members != {}
    ensures IsHeir(ch, h)
  {
    HeirExists(ch);
    var h :| IsHeir(ch, h);
    h
  }

  /** With distinct places in the order there is only one heir, so the order in which a hash
      set yields the members cannot matter. */
  lemma HeirUnique(ch: Channel, h: int)
    requires OrderOk(ch) && IsHeir(ch, h)
    ensures h == Heir(ch)
  {
    var g := Heir(ch);
    assert Seq(ch, g) == Seq(ch, h);
    assert g in ch.joinOrder && h in ch.joinOrder;
  }

  /** Appoint the heir when a populated channel has no operator left. */
  ghost function Succeed(ch: Channel, live: set<int>): Channel
  {
    if ch.members == {} || ch.operators != {} then ch
    else if Heir(ch) !in live then ch
    else ch.(operators := {Heir(ch)})
  }

  function Without(ch: Channel, id: int): Channel
  {
    ch.(members := ch.members - {id}, operators := ch.operators - {id}, voiced := ch.voiced - {id},
        invited := ch.invited - {id}, joinOrder := ch.joinOrder - {id})
  }

  /** A channel after id has gone from it. */
  ghost function Bereft(ch: Channel, id: int, live: set<int>): Channel
  {
    Succeed(Without(ch, id), live)
  }

  lemma SubsetSize<T>(a: set<T>, b: set<T>)
    requires a <= b
    ensures |a| <= |b|
  {
    assert b == a + (b - a);
  }

  lemma WithoutOrder(ch: Channel, id: int)
    requires OrderOk(ch)
    ensures OrderOk(Without(ch, id))
  {
  }

  lemma WithoutOk(k: string, ch: Channel, nextGen: nat, id: int)
    requires ChannelOk(k, ch, nextGen) && ch.members - {id} != {}
    ensures ChannelOk(k, Without(ch, id), nextGen)
  {
    WithoutOrder(ch, id);
    SubsetSize(ch.members - {id}, ch.members);
    SubsetSize(ch.invited - {id}, ch.invited);
    var m := Inhabited(ch.members - {id});
  }

  lemma SucceedOk(k: string, ch: Channel, nextGen: nat, live: set<int>)
    requires ChannelOk(k, ch, nextGen)
    ensures ChannelOk(k, Succeed(ch, live), nextGen)
  {
  }

  /** Succession touches nothing but the operators. */
  lemma BereftFields(ch: Channel, id: int, live: set<int>)
    ensures var r := Bereft(ch, id, live);
            && r.members == ch.members - {id} && r.invited == ch.invited - {id} && r.gen == ch.gen
            && r == Without(ch, id).(operators := r.operators)
  {
  }

  /** What survives of a channel's shape when a member leaves others behind. */
  lemma BereftOk(k: string, ch: Channel, nextGen: nat, id: int, live: set<int>)
    requires ChannelOk(k, ch, nextGen) && ch.members - {id} != {}
    ensures ChannelOk(k, Bereft(ch, id, live), nextGen)
  {
    WithoutOk(k, ch, nextGen, id);
    SucceedOk(k, Without(ch, id), nextGen, live);
  }

  /** After a departure the channel has an operator: one that stayed, or the unique remaining
      member with the smallest join sequence. */
  lemma BereftHasOperator(k: string, ch: Channel, nextGen: nat, id: int, live: set<int>)
    requires ChannelOk(k, ch, nextGen) && ch.members - {id} != {} && ch.members - {id} <= live
    ensures var r := Bereft(ch, id, live);
            && r.operators != {}
            && (ch.operators - {id} != {} ==> r.operators == ch.operators - {id})
            && (ch.operators - {id} == {} ==>
                  exists h :: r.operators == {h} && h in r.members &&
                    forall m :: m in r.members && m != h ==> ch.joinOrder[h] < ch.joinOrder[m])
  {
    var w := Without(ch, id);
    BereftFields(ch, id, live);
    if w.operators == {} {
      var h := Heir(w);
      forall m | m in w.members && m != h
        ensures ch.joinOrder[h] < ch.joinOrder[m]
      {
        assert Seq(w, h) <= Seq(w, m);
        assert h in ch.joinOrder && m in ch.joinOrder;
      }
    }
  }

  // ---------------------------------------------------------------- one channel

  ghost function PutBack(channels: map<string, Channel>, k: string, ch: Channel): map<string, Channel>
  {
    if ch.members == {} then channels - {k} else channels[k := ch]
  }

  /** id leaves the channel stored under k. */
  ghost function Leave(s: State, id: int, k: string): State
    requires id in s.clients && k in s.channels
  {
    var ch := s.channels[k];
    var c := s.clients[id];
    s.(channels := PutBack(s.channels, k, Bereft(ch, id, s.clients.Keys)),
       clients := s.clients[id := c.(channels := RemovePtr(c.channels, PtrTo(k, ch)))])
  }

  lemma LeaveChannels(s: State, id: int, k: string)
    requires ChannelsOk(s) && RosterOk(s) && id in s.clients && k in s.channels
    ensures ChannelsOk(Leave(s, id, k)) && RosterOk(Leave(s, id, k))
  {
    var s' := Leave(s, id, k);
    var ch := s.channels[k];
    BereftFields(ch, id, s.clients.Keys);
    forall j | j in s'.channels
      ensures ChannelOk(j, s'.channels[j], s'.nextGen)
    {
      assert ChannelOk(j, s.channels[j], s.nextGen);
      if j == k {
        BereftOk(k, ch, s.nextGen, id, s.clients.Keys);
      }
    }
  }

  lemma OwnPointersAfter(id: int, ps: seq<ChanPtr>, channels: map<string, Channel>, k: string, r: Channel, q: ChanPtr)
    requires Lists(id, ps, channels) && k in channels && q in ps && q != PtrTo(k, channels[k])
    ensures var cs := PutBack(channels, k, r); Live(cs, q) && id in cs[q.key].members
  {
    assert Live(channels, q) && q.key != k;
  }

  lemma OwnChannelsAfter(id: int, ps: seq<ChanPtr>, channels: map<string, Channel>, k: string, r: Channel, j: string)
    requires Lists(id, ps, channels) && k in channels && r.members == channels[k].members - {id}
    requires var cs := PutBack(channels, k, r); j in cs && id in cs[j].members
    ensures var p := PtrTo(j, PutBack(channels, k, r)[j]); p in ps && p != PtrTo(k, channels[k])
  {
    assert j != k;
    assert PtrTo(j, channels[j]) in ps;
  }

  /** The leaver's own list, with the pointer removed. */
  lemma OwnListAfter(id: int, ps: seq<ChanPtr>, channels: map<string, Channel>, k: string, r: Channel)
    requires Lists(id, ps, channels) && k in channels
    requires r.members == channels[k].members - {id} && r.gen == channels[k].gen
    ensures Lists(id, RemovePtr(ps, PtrTo(k, channels[k])), PutBack(channels, k, r))
  {
    var cs, left := PutBack(channels, k, r), RemovePtr(ps, PtrTo(k, channels[k]));
    RemovePtrContents(ps, PtrTo(k, channels[k]));
    forall q | q in left
      ensures Live(cs, q) && id in cs[q.key].members
    {
      OwnPointersAfter(id, ps, channels, k, r, q);
    }
    forall j | j in cs && id in cs[j].members
      ensures PtrTo(j, cs[j]) in left
    {
      OwnChannelsAfter(id, ps, channels, k, r, j);
    }
  }

  /** Everybody else's list stands, even when the channel is erased. */
  lemma OtherListAfter(i: int, id: int, ps: seq<ChanPtr>, channels: map<string, Channel>, k: string, r: Channel)
    requires Lists(i, ps, channels) && k in channels && i != id
    requires r.members == channels[k].members - {id} && r.gen == channels[k].gen
    ensures Lists(i, ps, PutBack(channels, k, r))
  {
    var cs := PutBack(channels, k, r);
    forall p | p in ps
      ensures Live(cs, p) && i in cs[p.key].members
    {
      assert Live(channels, p) && i in channels[p.key].members;
      if p.key == k {
        assert i in r.members;
      }
    }
  }

  lemma LeaveLists(s: State, id: int, k: string)
    requires ListsOk(s) && id in s.clients && k in s.channels
    ensures ListsOk(Leave(s, id, k))
  {
    var s' := Leave(s, id, k);
    var r := Bereft(s.channels[k], id, s.clients.Keys);
    BereftFields(s.channels[k], id, s.clients.Keys);
    forall i | i in s'.clients
      ensures ListOk(i, s'.clients[i].channels, s'.channels)
    {
      assert ListOk(i, s.clients[i].channels, s.channels);
      if i == id {
        OwnListAfter(id, s.clients[id].channels, s.channels, k, r);
        RemovePtrContents(s.clients[id].channels, PtrTo(k, s.channels[k]));
      } else {
        OtherListAfter(i, id, s.clients[i].channels, s.channels, k, r);
      }
    }
  }

  /** The clients differ in their channel lists at most. */
  ghost predicate OnlyListsChanged(s: State, s': State)
  {
    && s'.clients.Keys == s.clients.Keys && s'.nicks == s.nicks && s'.nextCid == s.nextCid
    && forall i :: i in s.clients ==> s'.clients[i] == s.clients[i].(channels := s'.clients[i].channels)
  }

  lemma OnlyListsKeeps(s: State, s': State)
    requires OnlyListsChanged(s, s') && IndexOk(s) && ClientsOk(s)
    ensures IndexOk(s') && ClientsOk(s')
  {
    forall i | i in s'.clients
      ensures 0 < i < s'.nextCid && RegistrationOk(s'.clients[i])
    {
      assert RegistrationOk(s.clients[i]);
    }
  }

  lemma LeaveKeeps(s: State, id: int, k: string)
    requires Inv(s) && id in s.clients && k in s.channels
    ensures Inv(Leave(s, id, k))
  {
    LeaveChannels(s, id, k);
    LeaveLists(s, id, k);
    OnlyListsKeeps(s, Leave(s, id, k));
  }

  lemma MembersLive(s: State, k: string)
    requires RosterOk(s) && k in s.channels
    ensures s.channels[k].members <= s.clients.Keys
  {
    forall id | id in s.channels[k].members
      ensures id in s.clients
    {
    }
  }

  lemma PutBackFrame(channels: map<string, Channel>, k: string, ch: Channel)
    ensures PutBack(channels, k, ch) - {k} == channels - {k}
    ensures k in PutBack(channels, k, ch) <==> ch.members != {}
    ensures ch.members != {} ==> PutBack(channels, k, ch)[k] == ch
  {
  }

  /** The whole effect of leaving on the channel table: k is gone or has an operator, and no
      other channel is touched. */
  lemma LeaveOutcome(s: State, id: int, k: string)
    requires ChannelsOk(s) && RosterOk(s) && id in s.clients && k in s.channels && id in s.channels[k].members
    ensures var s', ch := Leave(s, id, k), s.channels[k];
            && (k !in s'.channels <==> ch.members == {id})
            && (k in s'.channels ==> s'.channels[k].operators != {} && s'.channels[k].members == ch.members - {id})
            && s'.channels - {k} == s.channels - {k}
  {
    var ch := s.channels[k];
    MembersLive(s, k);
    BereftFields(ch, id, s.clients.Keys);
    PutBackFrame(s.channels, k, Bereft(ch, id, s.clients.Keys));
    assert ChannelOk(k, ch, s.nextGen);
    if ch.members - {id} != {} {
      BereftHasOperator(k, ch, s.nextGen, id, s.clients.Keys);
      assert ch.members != {id};
    }
  }
}
