/** NAMES and WHOIS replies for the channels and clients that runs produce. */
module Replies {
  import opened Wrappers
  import opened IrcText
  import opened ServerState
  import opened SweepOrder
  import opened Packing
  import Runs

  // ---------------------------------------------------------------- the entries

  /** How a member is listed: NAMES shows operators and voices, JOIN's own list only operators. */
  function NameEntry(s: State, ch: Channel, id: int, voices: bool): string
    requires id in s.clients
  {
    (if id in ch.operators then "@" else if voices && id in ch.voiced then "+" else "") + s.clients[id].nick
  }

  /** The entries for members in the order in which the set yields them; an id without a client
      is passed over. */
  function NameEntries(s: State, ch: Channel, order: seq<int>, voices: bool): seq<string>
  {
    if order == [] then []
    else
      (if order[0] in s.clients then [NameEntry(s, ch, order[0], voices)] else []) +
      NameEntries(s, ch, order[1..], voices)
  }

  function ChannelEntry(channels: map<string, Channel>, p: ChanPtr, id: int): string
    requires Live(channels, p)
  {
    var ch := channels[p.key];
    (if id in ch.operators then "@" else if id in ch.voiced then "+" else "") + ch.name
  }

  function ChannelEntries(channels: map<string, Channel>, ps: seq<ChanPtr>, id: int): seq<string>
    requires forall p :: p in ps ==> Live(channels, p)
  {
    if ps == [] then []
    else
      assert ps[0] in ps;
      [ChannelEntry(channels, ps[0], id)] + ChannelEntries(channels, ps[1..], id)
  }

  /** order lists the members of ch, each once. */
  predicate Enumerates(order: seq<int>, ch: Channel)
  {
    NoDup(order) && Ids(order) == ch.members
  }

  /** A status sign at most, and a name that neither has a space nor is too long. */
  predicate Modest(e: string)
  {
    IsField(e, ' ') && |e| <= 1 + MAX_CHANNELLEN
  }

  lemma SignedModest(sign: string, name: string)
    requires sign == "" || sign == "@" || sign == "+"
    requires name != "" && ' ' !in name && |name| <= MAX_CHANNELLEN
    ensures Modest(sign + name)
  {
  }

  // ---------------------------------------------------------------- what packing makes of them

  /** The lines carry the entries, whole and in order; each fits; fewer lines would not do; and
      both ways to cut give the same. */
  ghost predicate WellPacked(es: seq<string>)
  {
    && ReadBack(Lines(Pack(es, LINE_BUDGET))) == es
    && AllFit(Pack(es, LINE_BUDGET), LINE_BUDGET)
    && (forall gs :: Flatten(gs) == es && AllFit(gs, LINE_BUDGET) ==> |Pack(es, LINE_BUDGET)| <= |gs|)
    && JoinPack(es, LINE_BUDGET) == Pack(es, LINE_BUDGET)
  }

  lemma ModestPacks(es: seq<string>)
    requires forall i :: 0 <= i < |es| ==> Modest(es[i])
    ensures WellPacked(es)
  {
    assert AllFields(es, ' ');
    assert forall i :: 0 <= i < |es| ==> |es[i]| <= LINE_BUDGET;
    NothingLost(es, LINE_BUDGET);
    PackingOptimal(es, LINE_BUDGET);
    JoinGuardExact(es, LINE_BUDGET);
  }

  // ---------------------------------------------------------------- in every run

  lemma MemberNamed(s: State, k: string, id: int)
    requires RosterOk(s) && ClientsOk(s) && k in s.channels && id in s.channels[k].members
    ensures id in s.clients && ValidNick(s.clients[id].nick)
  {
    assert s.clients[id].registered && RegistrationOk(s.clients[id]);
  }

  lemma {:induction false} NamesModest(s: State, k: string, order: seq<int>, voices: bool)
    requires RosterOk(s) && ClientsOk(s) && k in s.channels && Ids(order) <= s.channels[k].members
    ensures var es := NameEntries(s, s.channels[k], order, voices);
            |es| == |order| && forall i :: 0 <= i < |es| ==> Modest(es[i])
    decreases |order|
  {
    if order != [] {
      var id, ch := order[0], s.channels[k];
      assert id in Ids(order);
      MemberNamed(s, k, id);
      ValidNickIsPlain(s.clients[id].nick);
      SignedModest(if id in ch.operators then "@" else if voices && id in ch.voiced then "+" else "",
                   s.clients[id].nick);
      assert forall x :: x in order[1..] ==> x in Ids(order);
      NamesModest(s, k, order[1..], voices);
    }
  }

  /** The name list of any channel in any run, whatever order its members come in: one entry for
      each member, and lines that lose none. */
  lemma NamesPacked(password: string, es: seq<Runs.Event>, k: string, order: seq<int>, voices: bool)
    requires var s := Runs.Run(Initial(password), es); k in s.channels && Enumerates(order, s.channels[k])
    ensures var s := Runs.Run(Initial(password), es);
            var entries := NameEntries(s, s.channels[k], order, voices);
            |entries| == |order| && WellPacked(entries)
  {
    Runs.ReachableOk(password, es);
    var s := Runs.Run(Initial(password), es);
    NamesModest(s, k, order, voices);
    ModestPacks(NameEntries(s, s.channels[k], order, voices));
  }

  /** And the channel list that WHOIS shows of any client. */
  lemma WhoisPacked(password: string, es: seq<Runs.Event>, id: int)
    requires id in Runs.Run(Initial(password), es).clients
    ensures var s := Runs.Run(Initial(password), es);
            var ps := s.clients[id].channels;
            && (forall p :: p in ps ==> Live(s.channels, p))
            && |ChannelEntries(s.channels, ps, id)| == |ps| && WellPacked(ChannelEntries(s.channels, ps, id))
  {
    Runs.ReachableOk(password, es);
    var s := Runs.Run(Initial(password), es);
    var ps := s.clients[id].channels;
    assert ListOk(id, ps, s.channels);
    ChannelsModest(s, ps, id);
    ModestPacks(ChannelEntries(s.channels, ps, id));
  }

  lemma {:induction false} ChannelsModest(s: State, ps: seq<ChanPtr>, id: int)
    requires ChannelsOk(s) && forall p :: p in ps ==> Live(s.channels, p)
    ensures var es := ChannelEntries(s.channels, ps, id);
            |es| == |ps| && forall i :: 0 <= i < |es| ==> Modest(es[i])
    decreases |ps|
  {
    if ps != [] {
      assert ps[0] in ps;
      ChannelModest(s, ps[0], id);
      ChannelsModest(s, ps[1..], id);
    }
  }

  lemma ChannelModest(s: State, p: ChanPtr, id: int)
    requires ChannelsOk(s) && Live(s.channels, p)
    ensures Modest(ChannelEntry(s.channels, p, id))
  {
    var ch := s.channels[p.key];
    assert ChannelOk(p.key, ch, s.nextGen);
    assert forall i :: 0 <= i < |ch.name| ==> ChannelChar(ch.name[i]);
    SignedModest(if id in ch.operators then "@" else if id in ch.voiced then "+" else "", ch.name);
  }

  // ---------------------------------------------------------------- the loops over the members

  lemma {:induction false} EntriesConcat(s: State, ch: Channel, a: seq<int>, b: seq<int>, voices: bool)
    ensures NameEntries(s, ch, a + b, voices) == NameEntries(s, ch, a, voices) + NameEntries(s, ch, b, voices)
    decreases |a|
  {
    if a == [] {
      assert a + b == b;
    } else {
      assert (a + b)[1..] == a[1..] + b;
      EntriesConcat(s, ch, a[1..], b, voices);
    }
  }

  lemma IdsSnoc(order: seq<int>, id: int)
    ensures Ids(order + [id]) == Ids(order) + {id}
  {
    assert forall x :: x in order + [id] <==> x in order || x == id;
  }

  method ListNames(s: State, ch: Channel, voices: bool) returns (entries: seq<string>, ghost order: seq<int>)
    ensures Enumerates(order, ch) && entries == NameEntries(s, ch, order, voices)
  {
    entries, order := [], [];
    var rest := ch.members;
    while rest != {}
      invariant rest <= ch.members && NoDup(order) && Ids(order) == ch.members - rest
      invariant entries == NameEntries(s, ch, order, voices)
      decreases rest
    {
      var id := AnyOf(rest);
      rest := rest - {id};
      EntriesConcat(s, ch, order, [id], voices);
      assert [id][1..] == [];
      if id in s.clients {
        var sign := if id in ch.operators then "@" else if voices && id in ch.voiced then "+" else "";
        entries := entries + [sign + s.clients[id].nick];
      }
      assert id !in Ids(order);
      IdsSnoc(order, id);
      assert ch.members - rest == ch.members - (rest + {id}) + {id};
      order := order + [id];
    }
  }

  method SendNames(s: State, ch: Channel) returns (lines: seq<string>, ghost order: seq<int>)
    requires forall id :: id in ch.members && id in s.clients ==> s.clients[id].nick != ""
    ensures Enumerates(order, ch) && lines == Lines(Pack(NameEntries(s, ch, order, true), LINE_BUDGET))
  {
    var entries;
    entries, order := ListNames(s, ch, true);
    EntriesNotEmpty(s, ch, order, true);
    lines := PackList(entries, LINE_BUDGET);
  }

  method SendJoinNames(s: State, ch: Channel) returns (lines: seq<string>, ghost order: seq<int>)
    requires forall id :: id in ch.members && id in s.clients ==> s.clients[id].nick != ""
    ensures Enumerates(order, ch) && lines == Lines(JoinPack(NameEntries(s, ch, order, false), LINE_BUDGET))
  {
    var entries;
    entries, order := ListNames(s, ch, false);
    EntriesNotEmpty(s, ch, order, false);
    lines := PackJoinNames(entries, LINE_BUDGET);
  }

  lemma {:induction false} EntriesNotEmpty(s: State, ch: Channel, order: seq<int>, voices: bool)
    requires forall id :: id in order && id in s.clients ==> s.clients[id].nick != ""
    ensures NonEmptyEntries(NameEntries(s, ch, order, voices))
    decreases |order|
  {
    if order != [] {
      EntriesNotEmpty(s, ch, order[1..], voices);
    }
  }

  // ---------------------------------------------------------------- what the entries show

  lemma SignsDiffer(name: string)
    ensures "@" + name != name && "+" + name != name && "@" + name != "+" + name
  {
    assert |"@" + name| == 1 + |name| == |"+" + name|;
    assert ("@" + name)[0] == '@' && ("+" + name)[0] == '+';
  }

  /** A member is listed by its nick, behind an at-sign exactly if it is operator, and else behind
      a plus exactly if voices are shown and it has one. */
  lemma StatusShown(s: State, k: string, id: int, voices: bool)
    requires RosterOk(s) && ClientsOk(s) && k in s.channels && id in s.channels[k].members
    ensures id in s.clients
    ensures var e, ch, nick := NameEntry(s, s.channels[k], id, voices), s.channels[k], s.clients[id].nick;
            && (id in ch.operators <==> e == "@" + nick)
            && (id !in ch.operators && voices && id in ch.voiced <==> e == "+" + nick)
            && (id !in ch.operators && !(voices && id in ch.voiced) <==> e == nick)
  {
    MemberNamed(s, k, id);
    SignsDiffer(s.clients[id].nick);
  }

  /** WHOIS lists a channel by its name, with the same two signs. */
  lemma ChannelStatusShown(s: State, p: ChanPtr, id: int)
    requires ChannelsOk(s) && Live(s.channels, p)
    ensures var e, ch := ChannelEntry(s.channels, p, id), s.channels[p.key];
            && (id in ch.operators <==> e == "@" + ch.name)
            && (id !in ch.operators && id in ch.voiced <==> e == "+" + ch.name)
            && (id !in ch.operators && id !in ch.voiced <==> e == ch.name)
  {
    var name := s.channels[p.key].name;
    assert ChannelOk(p.key, s.channels[p.key], s.nextGen);
    assert name[0] == '#' || name[0] == '&';
    SignsDiffer(name);
  }

  /** The entries follow the order of the members. */
  lemma {:induction false} EntryOf(s: State, ch: Channel, order: seq<int>, voices: bool, i: nat)
    requires i < |order| && Ids(order) <= s.clients.Keys
    ensures order[i] in s.clients
    ensures var es := NameEntries(s, ch, order, voices);
            |es| == |order| && es[i] == NameEntry(s, ch, order[i], voices)
    decreases |order|
  {
    assert order[0] in Ids(order) && order[i] in Ids(order);
    var rest := order[1..];
    if rest == [] {
      assert NameEntries(s, ch, rest, voices) == [];
    } else {
      assert forall x :: x in rest ==> x in Ids(order);
      EntryOf(s, ch, rest, voices, if i == 0 then 0 else i - 1);
    }
  }
}
