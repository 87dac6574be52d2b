/** The sweep over marked clients: whatever order the table yields them in, the result is the same. */
module SweepOrder {
  import opened Wrappers
  import opened IrcText
  import opened ServerState
  import opened Departures
  import opened Sweeps

  // ---------------------------------------------------------------- a set of clients at once

  function WithoutAll(ch: Channel, ids: set<int>): Channel
  {
    ch.(members := ch.members - ids, operators := ch.operators - ids, voiced := ch.voiced - ids,
        invited := ch.invited - ids, joinOrder := ch.joinOrder - ids)
  }

  ghost function Crown(ch: Channel): Channel
  {
    if ch.members == {} || ch.operators != {} then ch else ch.(operators := {Heir(ch)})
  }

  /** A channel that members of ids have left: without them, and with an operator if any of
      them was on it. */
  ghost function GoneAll(ch: Channel, ids: set<int>): Channel
  {
    if ch.members !! ids then WithoutAll(ch, ids) else Crown(WithoutAll(ch, ids))
  }

  ghost function ChannelsWithout(channels: map<string, Channel>, ids: set<int>): map<string, Channel>
  {
    map k | k in channels && channels[k].members - ids != {} :: GoneAll(channels[k], ids)
  }

  function NicksWithout(nicks: map<string, int>, ids: set<int>): map<string, int>
  {
    map n | n in nicks && nicks[n] !in ids :: nicks[n]
  }

  /** The state once all of ids are gone, described without any order. */
  ghost function Removed(s: State, ids: set<int>): State
  {
    s.(clients := s.clients - ids, nicks := NicksWithout(s.nicks, ids),
       channels := ChannelsWithout(s.channels, ids))
  }

  ghost function TeardownAll(s: State, order: seq<int>): State
    decreases |order|
  {
    if order == [] then s
    else if order[0] !in s.clients then TeardownAll(s, order[1..])
    else TeardownAll(Teardown(s, order[0]), order[1..])
  }

  // ---------------------------------------------------------------- one teardown

  lemma CrownIsSucceed(ch: Channel, live: set<int>)
    requires ch.members <= live
    ensures Succeed(ch, live) == Crown(ch)
  {
  }

  lemma ScannedIsGone(k: string, ch: Channel, nextGen: nat, id: int, live: set<int>)
    requires ChannelOk(k, ch, nextGen) && ch.members <= live
    ensures Scanned(ch, id, live) == GoneAll(ch, {id})
  {
    assert Without(ch, id) == WithoutAll(ch, {id});
    CrownIsSucceed(Without(ch, id), live);
  }

  lemma ScanIsRemoval(channels: map<string, Channel>, nextGen: nat, id: int, live: set<int>)
    requires forall k :: k in channels ==> ChannelOk(k, channels[k], nextGen) && channels[k].members <= live
    ensures ScanAll(channels, id, live) == ChannelsWithout(channels, {id})
  {
    forall k | k in channels
      ensures Scanned(channels[k], id, live) == GoneAll(channels[k], {id})
    {
      ScannedIsGone(k, channels[k], nextGen, id, live);
    }
  }

  lemma UnindexIsRemoval(s: State, id: int)
    requires IndexOk(s) && id in s.clients
    ensures (if s.clients[id].nick == "" then s.nicks else s.nicks - {Fold(s.clients[id].nick)}) ==
            NicksWithout(s.nicks, {id})
  {
    var after := if s.clients[id].nick == "" then s.nicks else s.nicks - {Fold(s.clients[id].nick)};
    forall n | n in s.nicks
      ensures n in after <==> s.nicks[n] != id
    {
      assert Fold(s.clients[s.nicks[n]].nick) == n;
    }
    assert after.Keys == NicksWithout(s.nicks, {id}).Keys;
  }

  /** Tearing one client down is removing just that client. */
  lemma TeardownIsRemoval(s: State, id: int)
    requires ChannelsOk(s) && RosterOk(s) && IndexOk(s) && id in s.clients
    ensures Teardown(s, id) == Removed(s, {id})
  {
    forall k | k in s.channels
      ensures ChannelOk(k, s.channels[k], s.nextGen) && s.channels[k].members <= s.clients.Keys
    {
      MembersLive(s, k);
    }
    ScanIsRemoval(s.channels, s.nextGen, id, s.clients.Keys);
    UnindexIsRemoval(s, id);
    assert Vacate(s, id).clients - {id} == s.clients - {id};
  }

  // ---------------------------------------------------------------- removals compose

  /** An heir that stays is still the heir of those who stay. */
  lemma HeirStays(ch: Channel, ids: set<int>)
    requires OrderOk(ch) && ch.members != {} && Heir(ch) !in ids
    ensures WithoutAll(ch, ids).members != {} && Heir(WithoutAll(ch, ids)) == Heir(ch)
  {
    var w := WithoutAll(ch, ids);
    assert Heir(ch) in w.members;
    forall m | m in w.members
      ensures Seq(w, Heir(ch)) <= Seq(w, m)
    {
      assert Seq(ch, Heir(ch)) <= Seq(ch, m);
    }
    WithoutAllOrder(ch, ids);
    HeirUnique(w, Heir(ch));
  }

  lemma WithoutAllOrder(ch: Channel, ids: set<int>)
    requires OrderOk(ch)
    ensures OrderOk(WithoutAll(ch, ids))
  {
  }

  lemma WithoutTwice(ch: Channel, a: set<int>, b: set<int>)
    ensures WithoutAll(WithoutAll(ch, a), b) == WithoutAll(ch, a + b)
  {
    assert ch.members - a - b == ch.members - (a + b);
    assert ch.operators - a - b == ch.operators - (a + b);
    assert ch.voiced - a - b == ch.voiced - (a + b);
    assert ch.invited - a - b == ch.invited - (a + b);
    assert ch.joinOrder - a - b == ch.joinOrder - (a + b);
  }

  lemma CrownThenRemove(w: Channel, b: set<int>)
    requires OrderOk(w) && w.operators == {} && w.members - b != {}
    ensures GoneAll(Crown(w), b) == Crown(WithoutAll(w, b))
  {
    var h := Heir(w);
    var crowned := Crown(w);
    assert w.members != {};
    assert crowned == w.(operators := {h});
    WithoutAllOrder(w, b);
    if h in b {
      assert WithoutAll(crowned, b) == WithoutAll(w, b);
    } else {
      HeirStays(w, b);
      assert WithoutAll(crowned, b) == WithoutAll(w, b).(operators := {h});
    }
  }

  /** Removing one set of members and then another is removing both at once: whoever is
      appointed in between is either still the heir at the end or gone too. */
  lemma GoneTwice(ch: Channel, a: set<int>, b: set<int>)
    requires OrderOk(ch) && ch.operators <= ch.members && ch.members - a - b != {}
    ensures GoneAll(GoneAll(ch, a), b) == GoneAll(ch, a + b)
  {
    var w := WithoutAll(ch, a);
    WithoutTwice(ch, a, b);
    WithoutAllOrder(ch, a);
    if ch.members !! a {
      assert w.members == ch.members;
    } else if w.operators == {} {
      CrownThenRemove(w, b);
    } else {
      assert Crown(w) == w;
      if w.members !! b {
        assert WithoutAll(w, b).operators == w.operators;
      }
    }
  }

  lemma GoneAllMembers(ch: Channel, ids: set<int>)
    ensures GoneAll(ch, ids).members == ch.members - ids
  {
  }

  /** What the table says about one channel after the removals, one by one or together. */
  ghost function EntryWithout(ch: Channel, ids: set<int>): Option<Channel>
  {
    if ch.members - ids != {} then Some(GoneAll(ch, ids)) else None
  }

  lemma EntryTwice(k: string, ch: Channel, nextGen: nat, a: set<int>, b: set<int>)
    requires ChannelOk(k, ch, nextGen)
    ensures EntryWithout(ch, a + b) ==
            match EntryWithout(ch, a)
            case Some(once) => EntryWithout(once, b)
            case None => None
  {
    assert ch.members - a - b == ch.members - (a + b);
    GoneAllMembers(ch, a);
    if ch.members - (a + b) != {} {
      GoneTwice(ch, a, b);
    }
  }

  lemma ChannelAt(channels: map<string, Channel>, ids: set<int>, k: string)
    requires k in channels
    ensures EntryWithout(channels[k], ids) ==
            if k in ChannelsWithout(channels, ids) then Some(ChannelsWithout(channels, ids)[k]) else None
  {
  }

  lemma ChannelsTwiceAt(channels: map<string, Channel>, nextGen: nat, a: set<int>, b: set<int>, k: string)
    requires k in channels ==> ChannelOk(k, channels[k], nextGen)
    ensures var twice, both := ChannelsWithout(ChannelsWithout(channels, a), b), ChannelsWithout(channels, a + b);
            (k in twice <==> k in both) && (k in both ==> twice[k] == both[k])
  {
    if k in channels {
      ChannelAt(channels, a, k);
      ChannelAt(channels, a + b, k);
      EntryTwice(k, channels[k], nextGen, a, b);
      if k in ChannelsWithout(channels, a) {
        ChannelAt(ChannelsWithout(channels, a), b, k);
      }
    }
  }

  lemma ChannelsTwice(channels: map<string, Channel>, nextGen: nat, a: set<int>, b: set<int>)
    requires forall k :: k in channels ==> ChannelOk(k, channels[k], nextGen)
    ensures ChannelsWithout(ChannelsWithout(channels, a), b) == ChannelsWithout(channels, a + b)
  {
    var twice, both := ChannelsWithout(ChannelsWithout(channels, a), b), ChannelsWithout(channels, a + b);
    forall k
      ensures k in twice <==> k in both
      ensures k in both ==> twice[k] == both[k]
    {
      ChannelsTwiceAt(channels, nextGen, a, b, k);
    }
    SameMap(twice, both);
  }

  lemma RemovedTwice(s: State, a: set<int>, b: set<int>)
    requires ChannelsOk(s)
    ensures Removed(Removed(s, a), b) == Removed(s, a + b)
  {
    ChannelsTwice(s.channels, s.nextGen, a, b);
    assert s.clients - a - b == s.clients - (a + b);
    assert NicksWithout(NicksWithout(s.nicks, a), b) == NicksWithout(s.nicks, a + b);
  }

  lemma GoneNone(ch: Channel)
    ensures GoneAll(ch, {}) == ch && ch.members - {} == ch.members
  {
    assert ch.operators - {} == ch.operators && ch.voiced - {} == ch.voiced;
    assert ch.invited - {} == ch.invited && ch.joinOrder - {} == ch.joinOrder;
  }

  lemma ChannelsWithoutNone(channels: map<string, Channel>, nextGen: nat)
    requires forall k :: k in channels ==> ChannelOk(k, channels[k], nextGen)
    ensures ChannelsWithout(channels, {}) == channels
  {
    var same := ChannelsWithout(channels, {});
    forall k
      ensures k in same <==> k in channels
      ensures k in same ==> same[k] == channels[k]
    {
      if k in channels {
        assert ChannelOk(k, channels[k], nextGen);
        ChannelAt(channels, {}, k);
        GoneNone(channels[k]);
      }
    }
    SameMap(same, channels);
  }

  lemma OthersWithoutNone(s: State)
    ensures s.clients - {} == s.clients && NicksWithout(s.nicks, {}) == s.nicks
  {
  }

  lemma RemovedNone(s: State)
    requires ChannelsOk(s)
    ensures Removed(s, {}) == s
  {
    ChannelsWithoutNone(s.channels, s.nextGen);
    OthersWithoutNone(s);
  }

  function Ids(order: seq<int>): set<int> { set id | id in order }

  /** A sweep is the removal of the clients it visits, so its order cannot be observed. */
  lemma {:induction false} SweepForm(s: State, order: seq<int>)
    requires Inv(s) && Ids(order) <= s.clients.Keys && NoDup(order)
    ensures Inv(TeardownAll(s, order))
    ensures TeardownAll(s, order) == Removed(s, Ids(order))
    decreases |order|
  {
    if order == [] {
      assert Ids(order) == {};
      RemovedNone(s);
    } else {
      var id, rest := order[0], order[1..];
      assert id in Ids(order);
      TeardownKeeps(s, id);
      TeardownIsRemoval(s, id);
      assert forall i :: i in order <==> i == id || i in rest;
      assert id !in rest;
      SweepForm(Teardown(s, id), rest);
      RemovedTwice(s, {id}, Ids(rest));
      assert {id} + Ids(rest) == Ids(order);
    }
  }

  lemma SweepOrderIrrelevant(s: State, order: seq<int>, other: seq<int>)
    requires Inv(s) && Ids(order) == Ids(other) <= s.clients.Keys && NoDup(order) && NoDup(other)
    ensures TeardownAll(s, order) == TeardownAll(s, other)
  {
    SweepForm(s, order);
    SweepForm(s, other);
  }

  /** Teardown leaves every channel its client was on either gone or with an operator. */
  lemma TeardownOutcome(s: State, id: int, k: string)
    requires ChannelsOk(s) && RosterOk(s) && IndexOk(s) && id in s.clients
    requires k in s.channels && id in s.channels[k].members
    ensures var s' := Teardown(s, id);
            && (k in s'.channels <==> s.channels[k].members - {id} != {})
            && (k in s'.channels ==> s'.channels[k].operators != {})
  {
    TeardownIsRemoval(s, id);
    assert ChannelOk(k, s.channels[k], s.nextGen);
    GoneAllMembers(s.channels[k], {id});
  }
}
