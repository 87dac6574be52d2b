/** The server as a step machine: the gate in front of the commands, the steps, and whole runs. */
module Runs {
  import opened Wrappers
  import IrcMessage
  import opened ServerState
  import opened SweepOrder
  import Registration
  import Membership

  const MAX_CONNECTIONS := 10000

  // ---------------------------------------------------------------- the gate

  /** The registered commands. Asking stands for those that change nothing modelled here. */
  datatype Verb = Cap | Pass | Nick | User | Quit | Join | Part | Kick | Invite | Mode | Asking(needs: nat)

  /** What becomes of one line before any command sees it. */
  datatype Verdict = Silent | NotRegistered | UnknownCommand | TooFewParams | Accepted(verb: Verb)

  const PRE_REGISTRATION: set<string> := {"CAP", "PASS", "NICK", "USER", "QUIT", "PING", "PONG"}

  const ASKING_NONE: set<string> :=
    {"PING", "PONG", "TOPIC", "MOTD", "NAMES", "PRIVMSG", "NOTICE", "LIST"}

  const ASKING_ONE: set<string> := {"WHO", "WHOIS", "WHOWAS"}

  function VerbOf(name: string): Option<Verb>
  {
    if name == "CAP" then Some(Cap)
    else if name == "PASS" then Some(Pass)
    else if name == "NICK" then Some(Nick)
    else if name == "USER" then Some(User)
    else if name == "QUIT" then Some(Quit)
    else if name == "JOIN" then Some(Join)
    else if name == "PART" then Some(Part)
    else if name == "KICK" then Some(Kick)
    else if name == "INVITE" then Some(Invite)
    else if name == "MODE" then Some(Mode)
    else if name in ASKING_NONE then Some(Asking(0))
    else if name in ASKING_ONE then Some(Asking(1))
    else None
  }

  function MinParams(v: Verb): nat
  {
    match v
    case Cap => 1
    case Nick => 1
    case Join => 1
    case Invite => 2
    case User => 4
    case Asking(needs) => needs
    case _ => 0
  }

  function Gate(registered: bool, command: string, count: nat): Verdict
  {
    if command == "" then Silent
    else
      var name := Registration.ToUpper(command);
      if !registered && name !in PRE_REGISTRATION then NotRegistered
      else
        match VerbOf(name)
        case None => UnknownCommand
        case Some(v) => if count < MinParams(v) then TooFewParams else Accepted(v)
  }

  /** The commands open to a client that is not registered. */
  predicate Early(v: Verb)
  {
    v == Cap || v == Pass || v == Nick || v == User || v == Quit || v == Asking(0)
  }

  lemma GateHoldsBack(command: string, count: nat)
    ensures match Gate(false, command, count) case Accepted(v) => Early(v) case _ => true
  {
    var name := Registration.ToUpper(command);
    if name in PRE_REGISTRATION {
      assert name == "CAP" || name == "PASS" || name == "NICK" || name == "USER" || name == "QUIT" ||
             name == "PING" || name == "PONG";
    }
  }

  // ---------------------------------------------------------------- steps

  ghost function Execute(s: State, id: int, v: Verb, params: seq<string>, now: int): State
    requires id in s.clients
  {
    var c := s.clients[id];
    match v
    case Cap => OnClient(s, id, Registration.Cap(s.password, c, params))
    case Pass => OnClient(s, id, Registration.Pass(c, params))
    case User => OnClient(s, id, Registration.User(s.password, c, params))
    case Quit => Registration.Mark(s, id)
    case Nick => if params == [] then s else Registration.Nick(s, id, params[0])
    case Join => Membership.Join(s, id, params)
    case Part => Membership.Part(s, id, params)
    case Kick => Membership.Kick(s, id, params)
    case Invite => Membership.Invite(s, id, params, now)
    case Mode => Membership.Mode(s, id, params)
    case Asking(_) => s
  }

  ghost function Dispatch(s: State, id: int, command: string, params: seq<string>, now: int): State
    requires id in s.clients
  {
    match Gate(s.clients[id].registered, command, |params|)
    case Accepted(v) => Execute(s, id, v, params, now)
    case _ => s
  }

  /** A line that gets past the gate runs its command. */
  lemma DispatchRuns(s: State, id: int, command: string, params: seq<string>, now: int, v: Verb)
    requires id in s.clients && Gate(s.clients[id].registered, command, |params|) == Accepted(v)
    ensures Dispatch(s, id, command, params, now) == Execute(s, id, v, params, now)
  {
  }

  lemma ExecuteMode(s: State, id: int, params: seq<string>, now: int)
    requires id in s.clients
    ensures Execute(s, id, Mode, params, now) == Membership.Mode(s, id, params)
  {
  }

  ghost function HandleLine(s: State, id: int, line: string, now: int): State
    requires id in s.clients
  {
    var msg := IrcMessage.Tokenize(line);
    Dispatch(s, id, msg.command, msg.params, now)
  }

  function AcceptOne(s: State, host: string): State
  {
    if |s.clients| >= MAX_CONNECTIONS then s
    else s.(clients := s.clients[s.nextCid := NewClient(host)], nextCid := s.nextCid + 1)
  }

  function Marked(s: State): set<int>
  {
    set id | id in s.clients && s.clients[id].marked
  }

  /** Accept: a connection arrives. Line: a client sends one. Close: a client is marked, because
      its connection broke, it timed out, or something sent to it did not fit its buffer.
      Sweep: the marked clients are torn down. */
  datatype Event = Accept(host: string) | Line(id: int, text: string, now: int) | Close(id: int) | Sweep(now: int)

  ghost function Step(s: State, e: Event): State
  {
    match e
    case Accept(host) => AcceptOne(s, host)
    case Line(id, text, now) => if id in s.clients then HandleLine(s, id, text, now) else s
    case Close(id) => if id in s.clients then Registration.Mark(s, id) else s
    case Sweep(_) => Removed(s, Marked(s))
  }

  ghost function Run(s: State, es: seq<Event>): State
    decreases |es|
  {
    if es == [] then s else Run(Step(s, es[0]), es[1..])
  }

  // ---------------------------------------------------------------- the invariant

  lemma InitialOk(password: string)
    ensures Inv(Initial(password))
  {
  }

  lemma NewcomerLists(s: State, c: Client)
    requires ListsOk(s) && RosterOk(s) && c.channels == [] && s.nextCid !in s.clients
    ensures ListsOk(s.(clients := s.clients[s.nextCid := c], nextCid := s.nextCid + 1))
  {
    forall i | i in s.clients
      ensures ListOk(i, s.clients[i].channels, s.channels)
    {
    }
    assert ListOk(s.nextCid, [], s.channels);
  }

  lemma NewcomerIndex(s: State, c: Client)
    requires IndexOk(s) && ClientsOk(s) && RosterOk(s) && c.nick == "" && RegistrationOk(c)
    ensures var s' := s.(clients := s.clients[s.nextCid := c], nextCid := s.nextCid + 1);
            IndexOk(s') && ClientsOk(s') && RosterOk(s')
  {
    assert s.nextCid !in s.clients;
  }

  lemma AcceptKeeps(s: State, host: string)
    requires Inv(s)
    ensures Inv(AcceptOne(s, host))
  {
    assert s.nextCid !in s.clients;
    NewcomerLists(s, NewClient(host));
    NewcomerIndex(s, NewClient(host));
    assert ChannelsOk(AcceptOne(s, host)) by {
      assert AcceptOne(s, host).channels == s.channels && AcceptOne(s, host).nextGen == s.nextGen;
    }
  }

  lemma ExecuteKeeps(s: State, id: int, v: Verb, params: seq<string>, now: int)
    requires Inv(s) && id in s.clients && (s.clients[id].registered || Early(v))
    ensures Inv(Execute(s, id, v, params, now))
  {
    match v
    case Cap => Registration.CapKeeps(s, id, params);
    case Pass => Registration.PassKeeps(s, id, params);
    case User => Registration.UserKeeps(s, id, params);
    case Quit => Registration.MarkKeeps(s, id);
    case Nick =>
      if params != [] {
        Registration.NickKeeps(s, id, params[0]);
      }
    case Join => Membership.JoinKeeps(s, id, params);
    case Part => Membership.PartKeeps(s, id, params);
    case Kick => Membership.KickKeeps(s, id, params);
    case Invite => Membership.InviteKeeps(s, id, params, now);
    case Mode => Membership.ModeKeeps(s, id, params);
    case Asking(_) =>
  }

  lemma HandleLineKeeps(s: State, id: int, line: string, now: int)
    requires Inv(s) && id in s.clients
    ensures Inv(HandleLine(s, id, line, now))
  {
    var msg := IrcMessage.Tokenize(line);
    GateHoldsBack(msg.command, |msg.params|);
    match Gate(s.clients[id].registered, msg.command, |msg.params|)
    case Accepted(v) => ExecuteKeeps(s, id, v, msg.params, now);
    case _ =>
  }

  lemma {:induction false} SweepAsOrder(s: State, ids: set<int>) returns (order: seq<int>)
    requires ids <= s.clients.Keys
    ensures Ids(order) == ids && NoDup(order)
    decreases |ids|
  {
    order := [];
    if ids != {} {
      var id := Inhabited(ids);
      var rest := SweepAsOrder(s, ids - {id});
      assert id !in Ids(rest);
      order := [id] + rest;
      assert forall i :: i in order <==> i == id || i in Ids(rest);
    }
  }

  lemma RemovedKeeps(s: State, ids: set<int>)
    requires Inv(s) && ids <= s.clients.Keys
    ensures Inv(Removed(s, ids))
  {
    var order := SweepAsOrder(s, ids);
    SweepForm(s, order);
  }

  lemma StepKeeps(s: State, e: Event)
    requires Inv(s)
    ensures Inv(Step(s, e))
  {
    match e
    case Accept(host) => AcceptKeeps(s, host);
    case Line(id, text, now) =>
      if id in s.clients {
        HandleLineKeeps(s, id, text, now);
      }
    case Close(id) =>
      if id in s.clients {
        Registration.MarkKeeps(s, id);
      }
    case Sweep(_) => RemovedKeeps(s, Marked(s));
  }

  /** Every state that any run reaches satisfies the invariant. */
  lemma {:induction false} RunKeeps(s: State, es: seq<Event>)
    requires Inv(s)
    ensures Inv(Run(s, es))
    decreases |es|
  {
    if es != [] {
      StepKeeps(s, es[0]);
      RunKeeps(Step(s, es[0]), es[1..]);
    }
  }

  lemma ReachableOk(password: string, es: seq<Event>)
    ensures Inv(Run(Initial(password), es))
  {
    InitialOk(password);
    RunKeeps(Initial(password), es);
  }
}
