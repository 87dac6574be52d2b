/** Which word at the head of a line runs which command, and what has to come with it. */
module Words {
  import opened Wrappers
  import opened ServerState
  import IrcMessage
  import Registration
  import Membership
  import Runs

  // ---------------------------------------------------------------- words

  /** The text is this word, in capitals or not. */
  predicate Spells(text: string, word: string)
  {
    |text| == |word| && forall i :: 0 <= i < |word| ==>
      text[i] == word[i] || ('A' <= word[i] <= 'Z' && text[i] as int == word[i] as int + 32)
  }

  predicate OneOf(text: string, words: seq<string>)
  {
    exists i :: 0 <= i < |words| && Spells(text, words[i])
  }

  lemma SpellsExact(text: string, word: string)
    requires forall i :: 0 <= i < |word| ==> 'A' <= word[i] <= 'Z' || word[i] < 'A'
    ensures Spells(text, word) <==> Registration.ToUpper(text) == word
  {
  }

  predicate Says(line: string, word: string) { Spells(IrcMessage.Tokenize(line).command, word) }

  function Params(line: string): seq<string> { IrcMessage.Tokenize(line).params }

  /** The word of each command that can change something. */
  function Word(v: Runs.Verb): string
    requires !v.Asking?
  {
    match v
    case Cap => "CAP"
    case Pass => "PASS"
    case Nick => "NICK"
    case User => "USER"
    case Quit => "QUIT"
    case Join => "JOIN"
    case Part => "PART"
    case Kick => "KICK"
    case Invite => "INVITE"
    case Mode => "MODE"
  }

  const EARLY_WORDS := ["CAP", "PASS", "NICK", "USER", "QUIT", "PING", "PONG"]

  const OTHER_WORDS := ["JOIN", "PART", "KICK", "INVITE", "MODE", "TOPIC", "MOTD", "NAMES", "PRIVMSG", "NOTICE",
                        "LIST", "WHO", "WHOIS", "WHOWAS"]

  /** How many parameters a word needs before its command looks at them. */
  function Needs(v: Runs.Verb): nat
    requires !v.Asking?
  {
    match v
    case Cap => 1
    case Nick => 1
    case Join => 1
    case Invite => 2
    case User => 4
    case _ => 0
  }

  /** The commands that a client may give before it is registered. */
  predicate OpenEarly(v: Runs.Verb) { v.Cap? || v.Pass? || v.Nick? || v.User? || v.Quit? }

  predicate Capitals(word: string) { forall i :: 0 <= i < |word| ==> 'A' <= word[i] <= 'Z' }

  lemma WordsAreCapitals(word: string)
    requires word in EARLY_WORDS || word in OTHER_WORDS
    ensures Capitals(word)
  {
  }

  lemma OneOfExact(text: string, words: seq<string>)
    requires forall word :: word in words ==> Capitals(word)
    ensures OneOf(text, words) <==> Registration.ToUpper(text) in words
  {
    forall i | 0 <= i < |words|
      ensures Spells(text, words[i]) <==> Registration.ToUpper(text) == words[i]
    {
      assert words[i] in words;
      SpellsExact(text, words[i]);
    }
  }

  // ---------------------------------------------------------------- the gate

  lemma VerbExact(name: string, v: Runs.Verb)
    requires !v.Asking?
    ensures Runs.VerbOf(name) == Some(v) <==> name == Word(v)
  {
  }

  lemma NeedsExact(v: Runs.Verb)
    requires !v.Asking?
    ensures Runs.MinParams(v) == Needs(v)
  {
  }

  lemma EarlyExact(v: Runs.Verb)
    requires !v.Asking?
    ensures Word(v) != ""
    ensures Word(v) in Runs.PRE_REGISTRATION <==> OpenEarly(v)
  {
  }

  lemma GateByName(registered: bool, command: string, count: nat, v: Runs.Verb)
    ensures var name := Registration.ToUpper(command);
            Runs.Gate(registered, command, count) == Runs.Accepted(v) <==>
            && name != "" && (registered || name in Runs.PRE_REGISTRATION)
            && Runs.VerbOf(name) == Some(v) && count >= Runs.MinParams(v)
  {
  }

  lemma WordAsName(command: string, v: Runs.Verb)
    requires !v.Asking?
    ensures Spells(command, Word(v)) <==> Registration.ToUpper(command) == Word(v)
  {
    WordsAreCapitals(Word(v));
    SpellsExact(command, Word(v));
  }

  /** A line runs a command if and only if it says the command's word with enough parameters and,
      before the client is registered, the word is one of the few that are open to it. */
  lemma GateExact(registered: bool, command: string, count: nat, v: Runs.Verb)
    requires !v.Asking?
    ensures Runs.Gate(registered, command, count) == Runs.Accepted(v) <==>
            Spells(command, Word(v)) && count >= Needs(v) && (registered || OpenEarly(v))
  {
    GateByName(registered, command, count, v);
    WordAsName(command, v);
    VerbExact(Registration.ToUpper(command), v);
    NeedsExact(v);
    EarlyExact(v);
  }

  lemma WordListed(words: seq<string>, text: string)
    requires words == EARLY_WORDS || words == OTHER_WORDS
    ensures OneOf(text, words) <==> Registration.ToUpper(text) in words
  {
    forall word | word in words
      ensures Capitals(word)
    {
      WordsAreCapitals(word);
    }
    OneOfExact(text, words);
  }

  lemma VerbKnown(name: string)
    ensures Runs.VerbOf(name) == None <==> name !in EARLY_WORDS && name !in OTHER_WORDS
    ensures name in Runs.PRE_REGISTRATION <==> name in EARLY_WORDS
  {
  }

  lemma RefusalsByName(registered: bool, command: string, count: nat)
    ensures var name := Registration.ToUpper(command);
            && (Runs.Gate(registered, command, count) == Runs.Silent <==> name == "")
            && (Runs.Gate(registered, command, count) == Runs.NotRegistered <==>
                  name != "" && !registered && name !in Runs.PRE_REGISTRATION)
            && (Runs.Gate(registered, command, count) == Runs.UnknownCommand <==>
                  name != "" && (registered || name in Runs.PRE_REGISTRATION) && Runs.VerbOf(name) == None)
  {
  }

  /** Why a line runs none: it is empty, its word is not open yet, or there is no such word. */
  lemma GateRefusals(registered: bool, command: string, count: nat)
    ensures Runs.Gate(registered, command, count) == Runs.Silent <==> command == ""
    ensures Runs.Gate(registered, command, count) == Runs.NotRegistered <==>
            command != "" && !registered && !OneOf(command, EARLY_WORDS)
    ensures Runs.Gate(registered, command, count) == Runs.UnknownCommand <==>
            command != "" && registered && !OneOf(command, EARLY_WORDS) && !OneOf(command, OTHER_WORDS)
  {
    RefusalsByName(registered, command, count);
    VerbKnown(Registration.ToUpper(command));
    WordListed(EARLY_WORDS, command);
    WordListed(OTHER_WORDS, command);
  }

  // ---------------------------------------------------------------- what each word does

  /** The line gives this command, and it is heard. */
  predicate Gives(s: State, id: int, line: string, v: Runs.Verb)
    requires !v.Asking?
  {
    && id in s.clients && Says(line, Word(v)) && |Params(line)| >= Needs(v)
    && (s.clients[id].registered || OpenEarly(v))
  }

  lemma GivesGate(s: State, id: int, line: string, v: Runs.Verb)
    requires id in s.clients && !v.Asking?
    ensures var msg := IrcMessage.Tokenize(line);
            Gives(s, id, line, v) <==>
            Runs.Gate(s.clients[id].registered, msg.command, |msg.params|) == Runs.Accepted(v)
  {
    var msg := IrcMessage.Tokenize(line);
    GateExact(s.clients[id].registered, msg.command, |msg.params|, v);
  }

  lemma GivesRuns(s: State, id: int, line: string, now: int, v: Runs.Verb)
    requires !v.Asking? && Gives(s, id, line, v)
    ensures Runs.HandleLine(s, id, line, now) == Runs.Execute(s, id, v, Params(line), now)
  {
    var msg := IrcMessage.Tokenize(line);
    GateExact(s.clients[id].registered, msg.command, |msg.params|, v);
    Runs.DispatchRuns(s, id, msg.command, msg.params, now, v);
  }

  lemma JoinRuns(s: State, id: int, command: string, params: seq<string>, now: int)
    requires id in s.clients && Runs.Gate(s.clients[id].registered, command, |params|) == Runs.Accepted(Runs.Join)
    ensures Runs.Dispatch(s, id, command, params, now) == Membership.Join(s, id, params)
  {
  }

  lemma PartRuns(s: State, id: int, command: string, params: seq<string>, now: int)
    requires id in s.clients && Runs.Gate(s.clients[id].registered, command, |params|) == Runs.Accepted(Runs.Part)
    ensures Runs.Dispatch(s, id, command, params, now) == Membership.Part(s, id, params)
  {
  }

  lemma KickRuns(s: State, id: int, command: string, params: seq<string>, now: int)
    requires id in s.clients && Runs.Gate(s.clients[id].registered, command, |params|) == Runs.Accepted(Runs.Kick)
    ensures Runs.Dispatch(s, id, command, params, now) == Membership.Kick(s, id, params)
  {
  }

  lemma InviteRuns(s: State, id: int, command: string, params: seq<string>, now: int)
    requires id in s.clients && Runs.Gate(s.clients[id].registered, command, |params|) == Runs.Accepted(Runs.Invite)
    ensures Runs.Dispatch(s, id, command, params, now) == Membership.Invite(s, id, params, now)
  {
  }

  lemma JoinGiven(s: State, id: int, line: string, now: int)
    requires Gives(s, id, line, Runs.Join)
    ensures Runs.HandleLine(s, id, line, now) == Membership.Join(s, id, Params(line))
  {
    var msg := IrcMessage.Tokenize(line);
    GivesGate(s, id, line, Runs.Join);
    JoinRuns(s, id, msg.command, msg.params, now);
  }

  lemma PartGiven(s: State, id: int, line: string, now: int)
    requires Gives(s, id, line, Runs.Part)
    ensures Runs.HandleLine(s, id, line, now) == Membership.Part(s, id, Params(line))
  {
    var msg := IrcMessage.Tokenize(line);
    GivesGate(s, id, line, Runs.Part);
    PartRuns(s, id, msg.command, msg.params, now);
  }

  lemma KickGiven(s: State, id: int, line: string, now: int)
    requires Gives(s, id, line, Runs.Kick)
    ensures Runs.HandleLine(s, id, line, now) == Membership.Kick(s, id, Params(line))
  {
    var msg := IrcMessage.Tokenize(line);
    GivesGate(s, id, line, Runs.Kick);
    KickRuns(s, id, msg.command, msg.params, now);
  }

  lemma InviteGiven(s: State, id: int, line: string, now: int)
    requires Gives(s, id, line, Runs.Invite)
    ensures Runs.HandleLine(s, id, line, now) == Membership.Invite(s, id, Params(line), now)
  {
    var msg := IrcMessage.Tokenize(line);
    GivesGate(s, id, line, Runs.Invite);
    InviteRuns(s, id, msg.command, msg.params, now);
  }

  lemma JoinWord(s: State, id: int, command: string, params: seq<string>, now: int)
    requires id in s.clients && s.clients[id].registered && Spells(command, "JOIN") && |params| >= 1
    ensures Runs.Dispatch(s, id, command, params, now) == Membership.Join(s, id, params)
  {
    GateExact(true, command, |params|, Runs.Join);
    JoinRuns(s, id, command, params, now);
  }

  lemma PartWord(s: State, id: int, command: string, params: seq<string>, now: int)
    requires id in s.clients && s.clients[id].registered && Spells(command, "PART")
    ensures Runs.Dispatch(s, id, command, params, now) == Membership.Part(s, id, params)
  {
    GateExact(true, command, |params|, Runs.Part);
    PartRuns(s, id, command, params, now);
  }

  lemma KickWord(s: State, id: int, command: string, params: seq<string>, now: int)
    requires id in s.clients && s.clients[id].registered && Spells(command, "KICK")
    ensures Runs.Dispatch(s, id, command, params, now) == Membership.Kick(s, id, params)
  {
    GateExact(true, command, |params|, Runs.Kick);
    KickRuns(s, id, command, params, now);
  }

  lemma InviteWord(s: State, id: int, command: string, params: seq<string>, now: int)
    requires id in s.clients && s.clients[id].registered && Spells(command, "INVITE") && |params| >= 2
    ensures Runs.Dispatch(s, id, command, params, now) == Membership.Invite(s, id, params, now)
  {
    GateExact(true, command, |params|, Runs.Invite);
    InviteRuns(s, id, command, params, now);
  }

  lemma JoinLine(s: State, id: int, line: string, now: int)
    requires id in s.clients && s.clients[id].registered && Says(line, "JOIN") && |Params(line)| >= 1
    ensures Runs.HandleLine(s, id, line, now) == Membership.Join(s, id, Params(line))
  {
    var msg := IrcMessage.Tokenize(line);
    JoinWord(s, id, msg.command, msg.params, now);
  }

  lemma PartLine(s: State, id: int, line: string, now: int)
    requires id in s.clients && s.clients[id].registered && Says(line, "PART")
    ensures Runs.HandleLine(s, id, line, now) == Membership.Part(s, id, Params(line))
  {
    var msg := IrcMessage.Tokenize(line);
    PartWord(s, id, msg.command, msg.params, now);
  }

  lemma KickLine(s: State, id: int, line: string, now: int)
    requires id in s.clients && s.clients[id].registered && Says(line, "KICK")
    ensures Runs.HandleLine(s, id, line, now) == Membership.Kick(s, id, Params(line))
  {
    var msg := IrcMessage.Tokenize(line);
    KickWord(s, id, msg.command, msg.params, now);
  }

  lemma InviteLine(s: State, id: int, line: string, now: int)
    requires id in s.clients && s.clients[id].registered && Says(line, "INVITE") && |Params(line)| >= 2
    ensures Runs.HandleLine(s, id, line, now) == Membership.Invite(s, id, Params(line), now)
  {
    var msg := IrcMessage.Tokenize(line);
    InviteWord(s, id, msg.command, msg.params, now);
  }

  lemma ModeLine(s: State, id: int, line: string, now: int)
    requires id in s.clients && s.clients[id].registered && Says(line, "MODE")
    ensures Runs.HandleLine(s, id, line, now) == Membership.Mode(s, id, Params(line))
  {
    GivesRuns(s, id, line, now, Runs.Mode);
  }

  lemma NickLine(s: State, id: int, line: string, now: int)
    requires id in s.clients && Says(line, "NICK") && |Params(line)| >= 1
    ensures Runs.HandleLine(s, id, line, now) == Registration.Nick(s, id, Params(line)[0])
  {
    GivesRuns(s, id, line, now, Runs.Nick);
  }

  lemma UserLine(s: State, id: int, line: string, now: int)
    requires id in s.clients && Says(line, "USER") && |Params(line)| >= 4
    ensures Runs.HandleLine(s, id, line, now) ==
            OnClient(s, id, Registration.User(s.password, s.clients[id], Params(line)))
  {
    GivesRuns(s, id, line, now, Runs.User);
  }

  lemma PassLine(s: State, id: int, line: string, now: int)
    requires id in s.clients && Says(line, "PASS")
    ensures Runs.HandleLine(s, id, line, now) == OnClient(s, id, Registration.Pass(s.clients[id], Params(line)))
  {
    GivesRuns(s, id, line, now, Runs.Pass);
  }

  lemma CapLine(s: State, id: int, line: string, now: int)
    requires id in s.clients && Says(line, "CAP") && |Params(line)| >= 1
    ensures Runs.HandleLine(s, id, line, now) ==
            OnClient(s, id, Registration.Cap(s.password, s.clients[id], Params(line)))
  {
    GivesRuns(s, id, line, now, Runs.Cap);
  }

  lemma QuitLine(s: State, id: int, line: string, now: int)
    requires id in s.clients && Says(line, "QUIT")
    ensures Runs.HandleLine(s, id, line, now) == s.(clients := s.clients[id := s.clients[id].(marked := true)])
  {
    GivesRuns(s, id, line, now, Runs.Quit);
  }

  lemma AskingChangesNothing(s: State, id: int, v: Runs.Verb, params: seq<string>, now: int)
    requires id in s.clients && v.Asking?
    ensures Runs.Execute(s, id, v, params, now) == s
  {
  }

  /** Nothing comes of a line that runs no command, nor of one that only asks. */
  lemma RunsNothing(s: State, id: int, command: string, params: seq<string>, now: int)
    requires id in s.clients
    requires forall v: Runs.Verb :: !v.Asking? ==>
               Runs.Gate(s.clients[id].registered, command, |params|) != Runs.Accepted(v)
    ensures Runs.Dispatch(s, id, command, params, now) == s
  {
    match Runs.Gate(s.clients[id].registered, command, |params|)
    case Accepted(v) =>
      Runs.DispatchRuns(s, id, command, params, now, v);
      AskingChangesNothing(s, id, v, params, now);
    case _ =>
  }

  /** A line that gives none of these commands changes nothing. */
  lemma OtherLine(s: State, id: int, line: string, now: int)
    requires id in s.clients && forall v: Runs.Verb :: !v.Asking? ==> !Gives(s, id, line, v)
    ensures Runs.HandleLine(s, id, line, now) == s
  {
    var msg := IrcMessage.Tokenize(line);
    forall v: Runs.Verb | !v.Asking?
      ensures Runs.Gate(s.clients[id].registered, msg.command, |msg.params|) != Runs.Accepted(v)
    {
      GivesGate(s, id, line, v);
    }
    RunsNothing(s, id, msg.command, msg.params, now);
  }

  /** The command that a client's line gives, if it gives one. */
  ghost function Command(s: State, id: int, line: string): Option<Runs.Verb>
    requires id in s.clients
  {
    if v: Runs.Verb :| !v.Asking? && Gives(s, id, line, v) then Some(v) else None
  }

  /** No line gives two. */
  lemma CommandExact(s: State, id: int, line: string, v: Runs.Verb)
    requires id in s.clients && !v.Asking?
    ensures Command(s, id, line) == Some(v) <==> Gives(s, id, line, v)
  {
    var given := Command(s, id, line);
    GivesGate(s, id, line, v);
    if given.Some? {
      GivesGate(s, id, line, given.value);
    }
  }

  lemma LineRuns(s: State, id: int, line: string, now: int)
    requires id in s.clients
    ensures match Command(s, id, line)
            case Some(v) =>
              && !v.Asking? && Gives(s, id, line, v)
              && Runs.HandleLine(s, id, line, now) == Runs.Execute(s, id, v, Params(line), now)
            case None => Runs.HandleLine(s, id, line, now) == s
  {
    var given := Command(s, id, line);
    if given.Some? {
      GivesRuns(s, id, line, now, given.value);
    } else {
      OtherLine(s, id, line, now);
    }
  }
}
