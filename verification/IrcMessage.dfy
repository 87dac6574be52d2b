/** The IRC line grammar: parsing, printing, and exactly when one undoes the other. */
module IrcMessage {
  import opened Wrappers
  import opened IrcText

  datatype Tag = Tag(k: string, v: string)

  datatype Prefix = Prefix(nick: string, user: string, host: string, isServer: bool)

  datatype Message = Message(tags: Option<seq<Tag>>, prefix: Option<Prefix>, command: string,
                             params: seq<string>, valid: bool)

  const BLANK := Message(None, None, "", [], false)
  const MAX_MIDDLE := 14

  // ---------------------------------------------------------------- tag values

  function EscapeChar(c: char): string
  {
    match c
    case ';' => "\\:"
    case ' ' => "\\s"
    case '\\' => "\\\\"
    case '\r' => "\\r"
    case '\n' => "\\n"
    case _ => [c]
  }

  function Escape(v: string): string
  {
    if v == "" then "" else EscapeChar(v[0]) + Escape(v[1..])
  }

  function UnescapeChar(c: char): char
  {
    match c
    case ':' => ';'
    case 's' => ' '
    case 'r' => '\r'
    case 'n' => '\n'
    case _ => c
  }

  function Unescape(v: string): string
    decreases |v|
  {
    if v == "" then ""
    else if v[0] != '\\' then [v[0]] + Unescape(v[1..])
    else if |v| == 1 then ""
    else [UnescapeChar(v[1])] + Unescape(v[2..])
  }

  lemma UnescapeStep(c: char, rest: string)
    ensures Unescape(EscapeChar(c) + rest) == [c] + Unescape(rest)
  {
    var s := EscapeChar(c) + rest;
    if |EscapeChar(c)| == 1 {
      assert s[1..] == rest;
    } else {
      assert s[2..] == rest;
    }
  }

  lemma {:induction false} UnescapeEscape(v: string)
    ensures Unescape(Escape(v)) == v
  {
    if v != "" {
      UnescapeEscape(v[1..]);
      UnescapeStep(v[0], Escape(v[1..]));
      assert [v[0]] + v[1..] == v;
    }
  }

  predicate Free(s: string, cs: string)
  {
    forall i :: 0 <= i < |s| ==> s[i] !in cs
  }

  lemma {:induction false} EscapeIsSafe(v: string)
    ensures Free(Escape(v), "; \r\n")
    ensures v != "" ==> Escape(v) != ""
  {
    if v != "" {
      EscapeIsSafe(v[1..]);
    }
  }

  // ---------------------------------------------------------------- tags

  function ParseTag(tok: string): Tag
  {
    var eq := Find(tok, '=', 0);
    if eq == |tok| then Tag(tok, "") else Tag(tok[..eq], Unescape(tok[eq + 1..]))
  }

  function PrintTag(t: Tag): string
  {
    t.k + if t.v == "" then "" else "=" + Escape(t.v)
  }

  function ParseEach(toks: seq<string>): (r: seq<Tag>)
    ensures |r| == |toks|
    ensures forall i :: 0 <= i < |r| ==> r[i] == ParseTag(toks[i])
  {
    seq(|toks|, i requires 0 <= i < |toks| => ParseTag(toks[i]))
  }

  function PrintEach(ts: seq<Tag>): (r: seq<string>)
    ensures |r| == |ts|
    ensures forall i :: 0 <= i < |r| ==> r[i] == PrintTag(ts[i])
  {
    seq(|ts|, i requires 0 <= i < |ts| => PrintTag(ts[i]))
  }

  function ParseTags(s: string): seq<Tag> { ParseEach(Split(s, ';')) }

  function PrintTags(ts: seq<Tag>): string { Join(PrintEach(ts), ';') }

  predicate CleanKey(t: Tag) { Free(t.k, ";= ") }

  predicate BlankTag(t: Tag) { t.k == "" && t.v == "" }

  predicate CleanKeys(ts: seq<Tag>)
  {
    forall i :: 0 <= i < |ts| ==> CleanKey(ts[i])
  }

  predicate NoBlanks(ts: seq<Tag>)
  {
    forall i :: 0 <= i < |ts| ==> !BlankTag(ts[i])
  }

  lemma PrintTagShape(t: Tag)
    requires CleanKey(t)
    ensures Free(PrintTag(t), "; ")
    ensures PrintTag(t) == "" <==> BlankTag(t)
    ensures ParseTag(PrintTag(t)) == t
  {
    EscapeIsSafe(t.v);
    TagReadsBack(t);
  }

  lemma TagReadsBack(t: Tag)
    requires CleanKey(t)
    ensures ParseTag(PrintTag(t)) == t
  {
    UnescapeEscape(t.v);
    var s := PrintTag(t);
    assert |t.k| == Find(s, '=', 0) by {
      assert forall i :: 0 <= i < |t.k| ==> s[i] == t.k[i];
      FindUnique(s, '=', 0, |t.k|);
    }
    if t.v != "" {
      EscapeIsSafe(t.v);
      assert s[..|t.k|] == t.k;
      assert s[|t.k| + 1..] == Escape(t.v);
    }
  }

  lemma {:induction false} JoinFree(ps: seq<string>, cs: string)
    requires forall i :: 0 <= i < |ps| ==> Free(ps[i], cs)
    requires ';' !in cs
    ensures Free(Join(ps, ';'), cs)
  {
    if |ps| > 1 {
      JoinFree(ps[1..], cs);
    }
  }

  function NonEmpties(ps: seq<string>): seq<string>
  {
    if ps == [] then [] else Field(ps[0]) + NonEmpties(ps[1..])
  }

  /** Empty pieces are what a split forgets. */
  lemma {:induction false} SplitForgetsEmpties(ps: seq<string>, sep: char)
    requires forall i :: 0 <= i < |ps| ==> sep !in ps[i]
    ensures Split(Join(ps, sep), sep) == NonEmpties(ps)
  {
    if ps == [] {
      SplitOne("", sep);
    } else {
      assert sep !in ps[0];
      if |ps| == 1 {
        SplitOne(ps[0], sep);
        assert NonEmpties(ps[1..]) == [];
      } else {
        SplitFirst(ps[0], sep, Join(ps[1..], sep));
        SplitForgetsEmpties(ps[1..], sep);
      }
    }
  }

  lemma {:induction false} NonEmptiesAll(ps: seq<string>)
    ensures |NonEmpties(ps)| <= |ps|
    ensures |NonEmpties(ps)| == |ps| <==> forall i :: 0 <= i < |ps| ==> ps[i] != ""
    ensures |NonEmpties(ps)| == |ps| ==> NonEmpties(ps) == ps
  {
    if ps != [] {
      NonEmptiesAll(ps[1..]);
      assert [ps[0]] + ps[1..] == ps;
      assert forall i :: 0 < i < |ps| ==> ps[i] == ps[1..][i - 1];
    }
  }

  /** A printed tag section reads back as the same tags exactly when none of them is blank. */
  lemma TagsExact(ts: seq<Tag>)
    requires CleanKeys(ts)
    ensures Free(PrintTags(ts), " ")
    ensures ParseTags(PrintTags(ts)) == ts <==> NoBlanks(ts)
  {
    var ps := PrintEach(ts);
    forall i | 0 <= i < |ts|
      ensures Free(ps[i], "; ") && (ps[i] == "" <==> BlankTag(ts[i])) && ParseTag(ps[i]) == ts[i]
    {
      assert CleanKey(ts[i]);
      PrintTagShape(ts[i]);
    }
    assert forall i :: 0 <= i < |ts| ==> ';' !in ps[i] && Free(ps[i], " ");
    JoinFree(ps, " ");
    SplitForgetsEmpties(ps, ';');
    NonEmptiesAll(ps);
    if NoBlanks(ts) {
      assert ParseEach(ps) == ts;
    } else {
      var i :| 0 <= i < |ts| && BlankTag(ts[i]);
      assert ps[i] == "";
      assert |ParseTags(PrintTags(ts))| < |ts|;
    }
  }

  // ---------------------------------------------------------------- the prefix

  /** nick[!user][@host], or a server name. When `@` comes before `!`, the length of the user
      part underflows and the user runs to the end of the prefix. */
  function ParsePrefix(s: string): Prefix
  {
    var bang, at := Find(s, '!', 0), Find(s, '@', 0);
    if bang == |s| && at == |s| then Prefix(s, "", "", '.' in s)
    else if bang < |s| then
      Prefix(s[..bang],
             if bang < at < |s| then s[bang + 1..at] else s[bang + 1..],
             if at < |s| then s[at + 1..] else "",
             false)
    else Prefix(s[..at], "", s[at + 1..], false)
  }

  function PrintPrefix(p: Prefix): string
  {
    p.nick + (if p.user == "" then "" else "!" + p.user) + (if p.host == "" then "" else "@" + p.host)
  }

  predicate CanonicalPrefix(p: Prefix)
  {
    && Free(p.nick, "!@")
    && Free(p.user, "@")
    && (p.user == "" ==> Free(p.host, "!"))
    && (p.isServer <==> p.user == "" && p.host == "" && '.' in p.nick)
  }

  lemma PrintPrefixParts(p: Prefix)
    ensures var s, n, u := PrintPrefix(p), |p.nick|, |p.user|;
            && |s| == n + (if u == 0 then 0 else 1 + u) + (if p.host == "" then 0 else 1 + |p.host|)
            && s[..n] == p.nick
            && (u > 0 ==> s[n] == '!' && s[n + 1..n + 1 + u] == p.user)
            && (p.host != "" ==> s[|s| - |p.host| - 1] == '@' && s[|s| - |p.host|..] == p.host)
  {
  }

  lemma FullPrefixParts(nick: string, user: string, host: string)
    ensures var s, u := nick + ("!" + user) + ("@" + host), nick + "!" + user;
            && s == nick + ("!" + (user + "@" + host)) && s == u + ("@" + host)
            && s[..|nick|] == nick && s[|nick| + 1..|u|] == user && s[|u| + 1..] == host
  {
  }

  lemma FullPrefixReadsBack(p: Prefix)
    requires CanonicalPrefix(p) && p.user != "" && p.host != ""
    ensures ParsePrefix(PrintPrefix(p)) == p
  {
    FullPrefixParts(p.nick, p.user, p.host);
    FindPast(p.nick, '!', p.user + "@" + p.host);
    assert '@' !in p.nick + "!" + p.user;
    FindPast(p.nick + "!" + p.user, '@', p.host);
  }

  lemma UserPrefixReadsBack(p: Prefix)
    requires CanonicalPrefix(p) && p.user != "" && p.host == ""
    ensures ParsePrefix(PrintPrefix(p)) == p
  {
    var s := PrintPrefix(p);
    assert s == p.nick + ("!" + p.user);
    FindPast(p.nick, '!', p.user);
    FindUnique(s, '@', 0, |s|);
    assert s[..|p.nick|] == p.nick && s[|p.nick| + 1..] == p.user;
  }

  lemma HostPrefixReadsBack(p: Prefix)
    requires CanonicalPrefix(p) && p.user == "" && p.host != ""
    ensures ParsePrefix(PrintPrefix(p)) == p
  {
    var s, n := PrintPrefix(p), |p.nick|;
    assert s == p.nick + "@" + p.host;
    assert forall i :: 0 <= i < n ==> s[i] == p.nick[i];
    assert forall i :: n < i < |s| ==> s[i] == p.host[i - n - 1];
    FindUnique(s, '@', 0, n);
    FindUnique(s, '!', 0, |s|);
    assert s[..n] == p.nick && s[n + 1..] == p.host;
  }

  lemma BarePrefixReadsBack(p: Prefix)
    requires CanonicalPrefix(p) && p.user == "" && p.host == ""
    ensures ParsePrefix(PrintPrefix(p)) == p
  {
    assert PrintPrefix(p) == p.nick;
    FindUnique(p.nick, '!', 0, |p.nick|);
    FindUnique(p.nick, '@', 0, |p.nick|);
  }

  lemma CanonicalPrefixReadsBack(p: Prefix)
    requires CanonicalPrefix(p)
    ensures ParsePrefix(PrintPrefix(p)) == p
  {
    if p.user != "" {
      if p.host != "" {
        FullPrefixReadsBack(p);
      } else {
        UserPrefixReadsBack(p);
      }
    } else if p.host != "" {
      HostPrefixReadsBack(p);
    } else {
      BarePrefixReadsBack(p);
    }
  }

  lemma ParsedNickFreeOfBang(s: string)
    ensures Free(ParsePrefix(s).nick, "!")
  {
    FindFirst(s, '!', 0);
  }

  lemma AtInNickShifts(p: Prefix)
    requires Free(p.nick, "!") && '@' in p.nick
    ensures ParsePrefix(PrintPrefix(p)) != p
  {
    PrintPrefixParts(p);
    var s, n := PrintPrefix(p), |p.nick|;
    assert forall i :: 0 <= i < n ==> s[i] == p.nick[i];
    var j :| 0 <= j < n && p.nick[j] == '@';
    assert s[j] == '@';
    var bang, at := Find(s, '!', 0), Find(s, '@', 0);
    FindFirst(s, '@', 0);
    assert at <= j < n <= bang;
  }

  lemma AtInUserShifts(p: Prefix)
    requires Free(p.nick, "!@") && '@' in p.user
    ensures ParsePrefix(PrintPrefix(p)) != p
  {
    PrintPrefixParts(p);
    var s, n := PrintPrefix(p), |p.nick|;
    assert forall i :: 0 <= i < n ==> s[i] == p.nick[i];
    FindUnique(s, '!', 0, n);
    var j :| 0 <= j < |p.user| && p.user[j] == '@';
    assert s[n + 1 + j] == p.user[j];
    FindFirst(s, '@', 0);
    assert n < Find(s, '@', 0) <= n + 1 + j;
  }

  lemma BangInHostShifts(p: Prefix)
    requires Free(p.nick, "!@") && p.user == "" && '!' in p.host
    ensures ParsePrefix(PrintPrefix(p)) != p
  {
    PrintPrefixParts(p);
    var s, n := PrintPrefix(p), |p.nick|;
    assert forall i :: 0 <= i < n ==> s[i] == p.nick[i];
    var j :| 0 <= j < |p.host| && p.host[j] == '!';
    assert s[n + 1 + j] == p.host[j];
    FindFirst(s, '!', 0);
    assert n < Find(s, '!', 0) < |s|;
  }

  /** A printed prefix reads back exactly when it is canonical. */
  lemma PrefixExact(p: Prefix)
    ensures ParsePrefix(PrintPrefix(p)) == p <==> CanonicalPrefix(p)
  {
    if CanonicalPrefix(p) {
      CanonicalPrefixReadsBack(p);
    } else if !Free(p.nick, "!") {
      ParsedNickFreeOfBang(PrintPrefix(p));
    } else if '@' in p.nick {
      AtInNickShifts(p);
    } else if '@' in p.user {
      AtInUserShifts(p);
    } else if p.user == "" && '!' in p.host {
      BangInHostShifts(p);
    } else {
      var q := p.(isServer := !p.isServer);
      assert CanonicalPrefix(q);
      CanonicalPrefixReadsBack(q);
      assert PrintPrefix(q) == PrintPrefix(p);
    }
  }

  // ---------------------------------------------------------------- tokens

  function SkipSpaces(s: string): (r: string)
    ensures |r| <= |s| && (r != "" ==> r[0] != ' ')
  {
    if s != "" && s[0] == ' ' then SkipSpaces(s[1..]) else s
  }

  lemma SkipIsSuffix(s: string)
    ensures SkipSpaces(s) == s[|s| - |SkipSpaces(s)|..]
  {
  }

  function StripEnd(s: string): (r: string)
    ensures r <= s
    ensures r != "" ==> r[|r| - 1] != '\r' && r[|r| - 1] != '\n'
    ensures s != "" && s[|s| - 1] != '\r' && s[|s| - 1] != '\n' ==> r == s
  {
    if s != "" && (s[|s| - 1] == '\r' || s[|s| - 1] == '\n') then StripEnd(s[..|s| - 1]) else s
  }

  function Token(s: string): string { s[..Find(s, ' ', 0)] }

  function AfterToken(s: string): string { SkipSpaces(s[Find(s, ' ', 0)..]) }

  /** A token has no space, and tokens bring in no character the string did not have. */
  lemma TokensFree(s: string, cs: string)
    ensures Free(Token(s), " ")
    ensures Free(s, cs) ==> Free(Token(s), cs) && Free(AfterToken(s), cs)
  {
    FindFirst(s, ' ', 0);
    SkipIsSuffix(s[Find(s, ' ', 0)..]);
  }

  /** A space-free word followed by nothing or by a space is read off whole. */
  lemma TakeWord(w: string, rest: string)
    requires Free(w, " ") && (rest == "" || rest[0] == ' ')
    ensures Token(w + rest) == w && AfterToken(w + rest) == SkipSpaces(rest)
  {
    var s := w + rest;
    assert forall i :: 0 <= i < |w| ==> s[i] == w[i];
    FindUnique(s, ' ', 0, |w|);
    assert s[|w|..] == rest;
  }

  lemma SkipOneSpace(s: string)
    requires s == "" || s[0] != ' '
    ensures SkipSpaces(" " + s) == s
  {
    assert (" " + s)[1..] == s;
  }

  // ---------------------------------------------------------------- parameters

  function ParseParams(s: string, n: nat): seq<string>
    decreases |s|
  {
    if s == "" then []
    else if s[0] == ':' || n == MAX_MIDDLE then [if s[0] == ':' then s[1..] else s]
    else if Token(s) == "" then [] // no parameter starts with a space
    else [Token(s)] + ParseParams(AfterToken(s), n + 1)
  }

  predicate NeedsColon(p: string) { p == "" || p[0] == ':' || ' ' in p }

  function PrintParams(ps: seq<string>): string
  {
    if ps == [] then ""
    else " " + ((if |ps| == 1 && NeedsColon(ps[0]) then ":" else "") + ps[0] + PrintParams(ps[1..]))
  }

  /** At most 15 parameters, of which only the last may be empty, spaced or start with a colon. */
  predicate ParamsOk(ps: seq<string>, n: nat)
  {
    && n + |ps| <= MAX_MIDDLE + 1
    && forall i :: 0 <= i < |ps| - 1 ==> !NeedsColon(ps[i])
  }

  lemma ColonParamReadsBack(p: string, n: nat)
    ensures ParseParams(SkipSpaces(" " + (":" + p)), n) == [p]
  {
    SkipOneSpace(":" + p);
    assert (":" + p)[1..] == p;
  }

  lemma PlainParamReadsBack(p: string, rest: string, n: nat)
    requires !NeedsColon(p) && (rest == "" || rest[0] == ' ')
    requires n == MAX_MIDDLE ==> rest == ""
    ensures ParseParams(SkipSpaces(" " + (p + rest)), n) ==
            [p] + if n == MAX_MIDDLE then [] else ParseParams(SkipSpaces(rest), n + 1)
  {
    assert (p + rest)[0] == p[0];
    SkipOneSpace(p + rest);
    TakeWord(p, rest);
    if rest == "" {
      assert p + rest == p;
    }
  }

  lemma PrintParamsStart(ps: seq<string>)
    ensures PrintParams(ps) == "" || PrintParams(ps)[0] == ' '
  {
  }

  lemma FirstParam(ps: seq<string>, n: nat)
    requires ps != [] && ParamsOk(ps, n)
    ensures NeedsColon(ps[0]) ==> ps[1..] == [] && PrintParams(ps) == " " + (":" + ps[0])
    ensures !NeedsColon(ps[0]) ==> PrintParams(ps) == " " + (ps[0] + PrintParams(ps[1..]))
  {
    if NeedsColon(ps[0]) {
      assert |ps| == 1;
      assert ":" + ps[0] + "" == ":" + ps[0];
    } else {
      assert "" + ps[0] == ps[0];
    }
  }

  lemma ParamsReadBackStep(ps: seq<string>, n: nat)
    requires ps != [] && ParamsOk(ps, n)
    requires n < MAX_MIDDLE ==> ParseParams(SkipSpaces(PrintParams(ps[1..])), n + 1) == ps[1..]
    ensures ParseParams(SkipSpaces(PrintParams(ps)), n) == ps
  {
    FirstParam(ps, n);
    assert ps == [ps[0]] + ps[1..];
    if NeedsColon(ps[0]) {
      ColonParamReadsBack(ps[0], n);
    } else {
      PrintParamsStart(ps[1..]);
      PlainParamReadsBack(ps[0], PrintParams(ps[1..]), n);
    }
  }

  lemma {:induction false} ParamsReadBack(ps: seq<string>, n: nat)
    requires ParamsOk(ps, n)
    ensures ParseParams(SkipSpaces(PrintParams(ps)), n) == ps
    decreases |ps|
  {
    if ps != [] {
      if n < MAX_MIDDLE {
        ParamsReadBack(ps[1..], n + 1);
      }
      ParamsReadBackStep(ps, n);
    }
  }

  lemma TokenShape(s: string)
    requires s != "" && s[0] != ':' && Token(s) != ""
    ensures !NeedsColon(Token(s))
  {
    TokensFree(s, "");
  }

  lemma ParamsCons(p: string, ps: seq<string>, n: nat)
    requires ParamsOk(ps, n + 1) && !NeedsColon(p)
    ensures ParamsOk([p] + ps, n)
  {
    assert forall i :: 0 < i < |ps| ==> ([p] + ps)[i] == ps[i - 1];
  }

  lemma {:induction false} ParsedParamsOk(s: string, n: nat)
    requires n <= MAX_MIDDLE
    ensures ParamsOk(ParseParams(s, n), n)
    decreases |s|
  {
    if s != "" && s[0] != ':' && n != MAX_MIDDLE && Token(s) != "" {
      ParsedParamsOk(AfterToken(s), n + 1);
      TokenShape(s);
      ParamsCons(Token(s), ParseParams(AfterToken(s), n + 1), n);
    }
  }

  // ---------------------------------------------------------------- the whole line

  function ParseCommand(s: string, tags: Option<seq<Tag>>, prefix: Option<Prefix>): Message
  {
    if Token(s) == "" then Message(tags, prefix, "", [], false)
    else Message(tags, prefix, Token(s), ParseParams(AfterToken(s), 0), true)
  }

  function ParsePrefixed(s: string, tags: Option<seq<Tag>>): Message
  {
    if s != "" && s[0] == ':' then
      var prefix := Some(ParsePrefix(Token(s)[1..]));
      if AfterToken(s) == "" then Message(tags, prefix, "", [], false)
      else ParseCommand(AfterToken(s), tags, prefix)
    else ParseCommand(s, tags, None)
  }

  function ParseTagged(s: string): Message
  {
    if s == "" then BLANK
    else if s[0] == '@' then
      var tags := Some(ParseTags(Token(s)[1..]));
      if AfterToken(s) == "" then Message(tags, None, "", [], false)
      else ParsePrefixed(AfterToken(s), tags)
    else ParsePrefixed(s, None)
  }

  function Tokenize(line: string): Message
  {
    ParseTagged(SkipSpaces(StripEnd(line)))
  }

  function PrintTagged(tags: Option<seq<Tag>>): string
  {
    if tags.None? || tags.value == [] then "" else "@" + PrintTags(tags.value) + " "
  }

  function PrintPrefixed(prefix: Option<Prefix>): string
  {
    if prefix.None? then "" else ":" + PrintPrefix(prefix.value) + " "
  }

  function Serialize(m: Message): string
  {
    PrintTagged(m.tags) + (PrintPrefixed(m.prefix) + (m.command + PrintParams(m.params)))
  }

  // ---------------------------------------------------------------- canonical messages

  predicate SolidTags(tags: Option<seq<Tag>>)
  {
    tags.Some? ==> tags.value != [] && NoBlanks(tags.value)
  }

  predicate SpaceFreePrefix(p: Prefix)
  {
    Free(p.nick, " ") && Free(p.user, " ") && Free(p.host, " ")
  }

  /** The command is a word that cannot be taken for a tag section or a prefix where it stands. */
  predicate CommandOk(m: Message)
  {
    && m.command != "" && Free(m.command, " ")
    && (m.prefix.None? ==> m.command[0] != ':')
    && (m.prefix.None? && m.tags.None? ==> m.command[0] != '@')
  }

  predicate EndsClean(s: string)
  {
    s != "" ==> s[|s| - 1] != '\r' && s[|s| - 1] != '\n'
  }

  /** What every valid result of the parser satisfies. */
  predicate WellFormed(m: Message)
  {
    && m.valid
    && (m.tags.Some? ==> CleanKeys(m.tags.value))
    && (m.prefix.Some? ==> SpaceFreePrefix(m.prefix.value))
    && CommandOk(m)
    && ParamsOk(m.params, 0)
  }

  predicate Canonical(m: Message)
  {
    && WellFormed(m)
    && SolidTags(m.tags)
    && (m.prefix.Some? ==> CanonicalPrefix(m.prefix.value))
    && EndsClean(Serialize(m))
  }

  // ---------------------------------------------------------------- printing, then parsing

  lemma PrintedPrefixSpaceFree(p: Prefix)
    requires SpaceFreePrefix(p)
    ensures Free(PrintPrefix(p), " ")
  {
  }

  predicate Word(w: string) { w != "" && Free(w, " ") }

  function Body(command: string, params: seq<string>): string { command + PrintParams(params) }

  lemma BodyReadsBack(tags: Option<seq<Tag>>, prefix: Option<Prefix>, command: string, params: seq<string>)
    requires Word(command) && ParamsOk(params, 0)
    ensures var body := Body(command, params);
            body != "" && body[0] == command[0] &&
            ParseCommand(body, tags, prefix) == Message(tags, prefix, command, params, true)
  {
    PrintParamsStart(params);
    TakeWord(command, PrintParams(params));
    ParamsReadBack(params, 0);
  }

  /** A word read off the front of a line leaves the rest of it. */
  lemma TakeWordThen(w: string, rest: string)
    requires Free(w, " ") && rest != "" && rest[0] != ' '
    ensures Token(w + " " + rest) == w && AfterToken(w + " " + rest) == rest
  {
    assert w + " " + rest == w + (" " + rest);
    TakeWord(w, " " + rest);
    SkipOneSpace(rest);
  }

  function Reread(prefix: Option<Prefix>): Option<Prefix>
  {
    if prefix.None? then None else Some(ParsePrefix(PrintPrefix(prefix.value)))
  }

  predicate Prefixable(prefix: Option<Prefix>, command: string)
    requires command != ""
  {
    if prefix.None? then command[0] != ':' else SpaceFreePrefix(prefix.value)
  }

  /** A printed prefix and body read back, up to the prefix being reread. */
  lemma PrefixedReadsBack(tags: Option<seq<Tag>>, prefix: Option<Prefix>, command: string, params: seq<string>)
    requires Word(command) && ParamsOk(params, 0) && Prefixable(prefix, command)
    ensures var s := PrintPrefixed(prefix) + Body(command, params);
            s != "" && s[0] == (if prefix.None? then command[0] else ':') &&
            ParsePrefixed(s, tags) == Message(tags, Reread(prefix), command, params, true)
  {
    var body := Body(command, params);
    BodyReadsBack(tags, Reread(prefix), command, params);
    if prefix.None? {
      assert PrintPrefixed(prefix) + body == body;
    } else {
      var word := ":" + PrintPrefix(prefix.value);
      PrintedPrefixSpaceFree(prefix.value);
      assert PrintPrefixed(prefix) + body == word + " " + body;
      TakeWordThen(word, body);
      assert word[1..] == PrintPrefix(prefix.value);
    }
  }

  /** A printed nonempty tag section before any nonempty remainder. */
  lemma TagSectionReadsBack(ts: seq<Tag>, rest: string)
    requires CleanKeys(ts) && ts != [] && rest != "" && rest[0] != ' '
    ensures var s := PrintTagged(Some(ts)) + rest;
            s != "" && s[0] == '@' &&
            ParseTagged(s) == ParsePrefixed(rest, Some(ParseTags(PrintTags(ts))))
  {
    var word := "@" + PrintTags(ts);
    TagsExact(ts);
    assert PrintTagged(Some(ts)) + rest == word + " " + rest;
    TakeWordThen(word, rest);
    assert word[1..] == PrintTags(ts);
  }

  lemma StripsNothing(s: string)
    requires s != "" && s[0] != ' ' && EndsClean(s)
    ensures Tokenize(s) == ParseTagged(s)
  {
  }

  // ---------------------------------------------------------------- parsing, then printing

  predicate Clean(s: string) { Free(s, "\r\n") }

  lemma {:induction false} ParsedParamsClean(s: string, n: nat)
    requires Clean(s)
    ensures forall i :: 0 <= i < |ParseParams(s, n)| ==> Clean(ParseParams(s, n)[i])
    decreases |s|
  {
    if s != "" && s[0] != ':' && n != MAX_MIDDLE && Token(s) != "" {
      TokensFree(s, "\r\n");
      ParsedParamsClean(AfterToken(s), n + 1);
    }
  }

  lemma {:induction false} PrintedParamsClean(ps: seq<string>)
    requires forall i :: 0 <= i < |ps| ==> Clean(ps[i])
    ensures Clean(PrintParams(ps))
  {
    if ps != [] {
      PrintedParamsClean(ps[1..]);
      assert Clean(ps[0]);
    }
  }

  lemma ParsedTagClean(tok: string)
    requires Free(tok, "; ")
    ensures CleanKey(ParseTag(tok))
  {
    FindFirst(tok, '=', 0);
  }

  lemma ParsedTagsClean(s: string)
    requires Free(s, " ")
    ensures CleanKeys(ParseTags(s))
  {
    var toks := Split(s, ';');
    SplitFree(s, ';', 0, " ");
    SplitYieldsFields(s, ';', 0);
    forall i | 0 <= i < |toks|
      ensures CleanKey(ParseTag(toks[i]))
    {
      assert IsField(toks[i], ';');
      ParsedTagClean(toks[i]);
    }
  }

  lemma {:induction false} SplitFree(s: string, delim: char, start: nat, cs: string)
    requires Free(s, cs) && start <= |s| + 1
    ensures forall i :: 0 <= i < |SplitFrom(s, delim, start)| ==> Free(SplitFrom(s, delim, start)[i], cs)
    decreases |s| + 1 - start
  {
    if start <= |s| {
      SplitFree(s, delim, Find(s, delim, start) + 1, cs);
    }
  }

  lemma ParsedPrefixSpaceFree(s: string)
    requires Free(s, " ")
    ensures SpaceFreePrefix(ParsePrefix(s))
  {
  }

  lemma ParsedCommandOk(s: string, tags: Option<seq<Tag>>, prefix: Option<Prefix>)
    requires ParseCommand(s, tags, prefix).valid
    requires s != "" && s[0] != ' '
    requires tags.Some? ==> CleanKeys(tags.value)
    requires prefix.Some? ==> SpaceFreePrefix(prefix.value)
    requires prefix.None? ==> s[0] != ':'
    requires prefix.None? && tags.None? ==> s[0] != '@'
    ensures WellFormed(ParseCommand(s, tags, prefix))
  {
    ParsedParamsOk(AfterToken(s), 0);
    TokensFree(s, "");
    assert Token(s)[0] == s[0];
  }

  lemma ParsedPrefixedOk(s: string, tags: Option<seq<Tag>>)
    requires ParsePrefixed(s, tags).valid && s != "" && s[0] != ' '
    requires tags.Some? ==> CleanKeys(tags.value)
    requires tags.None? ==> s[0] != '@'
    ensures WellFormed(ParsePrefixed(s, tags))
  {
    if s[0] == ':' {
      TokensFree(s, "");
      ParsedPrefixSpaceFree(Token(s)[1..]);
      ParsedCommandOk(AfterToken(s), tags, Some(ParsePrefix(Token(s)[1..])));
    } else {
      ParsedCommandOk(s, tags, None);
    }
  }

  /** Every message the parser accepts is well formed. */
  lemma ParsedIsWellFormed(line: string)
    requires Tokenize(line).valid
    ensures WellFormed(Tokenize(line))
  {
    var s := SkipSpaces(StripEnd(line));
    if s[0] == '@' {
      TokensFree(s, "");
      ParsedTagsClean(Token(s)[1..]);
      ParsedPrefixedOk(AfterToken(s), Some(ParseTags(Token(s)[1..])));
    } else {
      ParsedPrefixedOk(s, None);
    }
  }

  predicate CleanMessage(m: Message)
  {
    Clean(m.command) && forall i :: 0 <= i < |m.params| ==> Clean(m.params[i])
  }

  lemma ParsedPrefixedClean(s: string, tags: Option<seq<Tag>>)
    requires Clean(s)
    ensures CleanMessage(ParsePrefixed(s, tags))
  {
    TokensFree(s, "\r\n");
    var rest := if s != "" && s[0] == ':' then AfterToken(s) else s;
    TokensFree(rest, "\r\n");
    ParsedParamsClean(AfterToken(rest), 0);
  }

  lemma StrippedClean(line: string)
    requires Clean(line)
    ensures Clean(SkipSpaces(StripEnd(line)))
  {
    assert Clean(StripEnd(line));
    SkipIsSuffix(StripEnd(line));
  }

  lemma ParsedTaggedClean(s: string)
    requires Clean(s)
    ensures CleanMessage(ParseTagged(s))
  {
    if s != "" && s[0] == '@' {
      TokensFree(s, "\r\n");
      var tags := Some(ParseTags(Token(s)[1..]));
      if AfterToken(s) == "" {
        assert ParseTagged(s) == Message(tags, None, "", [], false);
      } else {
        assert ParseTagged(s) == ParsePrefixed(AfterToken(s), tags);
        ParsedPrefixedClean(AfterToken(s), tags);
      }
    } else if s != "" {
      ParsedPrefixedClean(s, None);
    }
  }

  lemma ParsedIsClean(line: string)
    requires Clean(line)
    ensures CleanMessage(Tokenize(line))
  {
    StrippedClean(line);
    ParsedTaggedClean(SkipSpaces(StripEnd(line)));
  }

  lemma CleanEndsClean(m: Message)
    requires CleanMessage(m) && m.command != ""
    ensures EndsClean(Serialize(m))
  {
    PrintedParamsClean(m.params);
    var body := Body(m.command, m.params);
    assert Clean(body) && body != "";
    var s := Serialize(m);
    assert s[|s| - 1] == body[|body| - 1];
  }

  /** A plain first parameter, read where the command is expected, becomes the command. */
  lemma PlainParamTakenForCommand(p: string, tail: seq<string>, tags: Option<seq<Tag>>)
    requires !NeedsColon(p) && ParamsOk(tail, 0)
    ensures SkipSpaces(" " + (p + PrintParams(tail))) == Body(p, tail)
    ensures ParsePrefixed(Body(p, tail), tags) == Message(tags, None, p, tail, true)
  {
    BodyReadsBack(tags, None, p, tail);
    SkipOneSpace(Body(p, tail));
  }

  /** Parameters read as prefix and command never give the same parameters and no prefix. */
  lemma CommandTakenForTags(ps: seq<string>, tags: Option<seq<Tag>>)
    requires ps != [] && ParamsOk(ps, 0)
    ensures var r := ParsePrefixed(SkipSpaces(PrintParams(ps)), tags);
            r.prefix.Some? || r.params != ps
  {
    FirstParam(ps, 0);
    if NeedsColon(ps[0]) {
      SkipOneSpace(":" + ps[0]);
    } else {
      PlainParamTakenForCommand(ps[0], ps[1..], tags);
    }
  }

  /** An unprefixed body whose command opens like a tag section. */
  lemma TagLikeCommandNotRestored(command: string, params: seq<string>)
    requires Word(command) && command[0] == '@' && ParamsOk(params, 0)
    ensures var r := ParseTagged(Body(command, params));
            !r.valid || r.prefix.Some? || r.params != params
  {
    PrintParamsStart(params);
    TakeWord(command, PrintParams(params));
    assert Body(command, params)[0] == '@';
    if params != [] {
      CommandTakenForTags(params, Some(ParseTags(command[1..])));
    }
  }

  lemma SerializeSplits(m: Message)
    ensures Serialize(m) == PrintTagged(m.tags) + (PrintPrefixed(m.prefix) + Body(m.command, m.params))
    ensures (m.tags.None? || m.tags.value == []) ==>
              Serialize(m) == PrintPrefixed(m.prefix) + Body(m.command, m.params)
  {
  }

  /** What the parser makes of a printed message whose tag list is absent or empty. */
  lemma UntaggedReparse(m: Message)
    requires WellFormed(m) && EndsClean(Serialize(m)) && (m.tags.None? || m.tags.value == [])
    requires m.prefix.None? ==> m.command[0] != '@'
    ensures Tokenize(Serialize(m)) == Message(None, Reread(m.prefix), m.command, m.params, true)
  {
    SerializeSplits(m);
    PrefixedReadsBack(None, m.prefix, m.command, m.params);
    assert Free(m.command, " ") && m.command[0] != ' ';
    StripsNothing(Serialize(m));
  }

  /** And of one whose tag list is printed. */
  lemma TaggedReparse(m: Message)
    requires WellFormed(m) && EndsClean(Serialize(m)) && m.tags.Some? && m.tags.value != []
    ensures Tokenize(Serialize(m)) ==
            Message(Some(ParseTags(PrintTags(m.tags.value))), Reread(m.prefix), m.command, m.params, true)
  {
    SerializeSplits(m);
    var tags := Some(ParseTags(PrintTags(m.tags.value)));
    PrefixedReadsBack(tags, m.prefix, m.command, m.params);
    assert Free(m.command, " ") && m.command[0] != ' ';
    TagSectionReadsBack(m.tags.value, PrintPrefixed(m.prefix) + Body(m.command, m.params));
    StripsNothing(Serialize(m));
  }

  /** A message that carries an empty tag list prints without one, and does not come back. */
  lemma EmptyTagsNotRestored(m: Message)
    requires WellFormed(m) && m.tags == Some([]) && EndsClean(Serialize(m))
    ensures Tokenize(Serialize(m)) != m
  {
    if m.prefix.None? && m.command[0] == '@' {
      SerializeSplits(m);
      assert PrintPrefixed(m.prefix) + Body(m.command, m.params) == Body(m.command, m.params);
      BodyReadsBack(None, None, m.command, m.params);
      StripsNothing(Serialize(m));
      TagLikeCommandNotRestored(m.command, m.params);
    } else {
      UntaggedReparse(m);
    }
  }

  lemma RereadExact(prefix: Option<Prefix>)
    ensures Reread(prefix) == prefix <==> (prefix.Some? ==> CanonicalPrefix(prefix.value))
  {
    if prefix.Some? {
      PrefixExact(prefix.value);
    }
  }

  /** A printed well-formed message that does not end in CR or LF is restored exactly when its
      tag list, if any, is nonempty and blank-free and its prefix, if any, is canonical. */
  lemma UnstrippedReparse(m: Message)
    requires WellFormed(m) && EndsClean(Serialize(m))
    ensures Tokenize(Serialize(m)) == m <==> Canonical(m)
  {
    RereadExact(m.prefix);
    if m.tags.None? {
      UntaggedReparse(m);
    } else if m.tags.value == [] {
      EmptyTagsNotRestored(m);
    } else {
      TaggedReparse(m);
      TagsExact(m.tags.value);
    }
  }

  // ---------------------------------------------------------------- messages that end in CR or LF

  /** How many of the bytes that end a line are in s. */
  function Breaks(s: string): nat
  {
    if s == "" then 0 else (if s[0] == '\r' || s[0] == '\n' then 1 else 0) + Breaks(s[1..])
  }

  function BreaksIn(ps: seq<string>): nat
  {
    if ps == [] then 0 else Breaks(ps[0]) + BreaksIn(ps[1..])
  }

  lemma {:induction false} BreaksConcat(a: string, b: string)
    ensures Breaks(a + b) == Breaks(a) + Breaks(b)
    decreases |a|
  {
    if a == "" {
      assert a + b == b;
    } else {
      assert (a + b)[1..] == a[1..] + b;
      BreaksConcat(a[1..], b);
    }
  }

  lemma {:induction false} SkippedBreaks(s: string)
    ensures Breaks(SkipSpaces(s)) == Breaks(s)
  {
    if s != "" && s[0] == ' ' {
      SkippedBreaks(s[1..]);
    }
  }

  lemma TokenBreaks(s: string)
    ensures Breaks(Token(s)) + Breaks(AfterToken(s)) == Breaks(s)
  {
    var e := Find(s, ' ', 0);
    assert s == s[..e] + s[e..];
    BreaksConcat(s[..e], s[e..]);
    SkippedBreaks(s[e..]);
  }

  lemma {:induction false} ParsedBreaks(s: string, n: nat)
    ensures BreaksIn(ParseParams(s, n)) <= Breaks(s)
    decreases |s|
  {
    if s != "" && (s[0] == ':' || n == MAX_MIDDLE) {
      var p := if s[0] == ':' then s[1..] else s;
      assert BreaksIn([p]) == Breaks(p) + BreaksIn([]);
    } else if s != "" && Token(s) != "" {
      TokenBreaks(s);
      ParsedBreaks(AfterToken(s), n + 1);
      var rest := ParseParams(AfterToken(s), n + 1);
      assert ([Token(s)] + rest)[1..] == rest;
    }
  }

  lemma SpacedBreaks(colon: string, p: string)
    requires colon == "" || colon == ":"
    ensures Breaks(" " + colon + p) == Breaks(p)
  {
    BreaksConcat(" " + colon, p);
    BreaksConcat(" ", colon);
  }

  lemma {:induction false} PrintedBreaks(ps: seq<string>)
    ensures Breaks(PrintParams(ps)) == BreaksIn(ps)
  {
    if ps != [] {
      var colon := if |ps| == 1 && NeedsColon(ps[0]) then ":" else "";
      PrintedBreaks(ps[1..]);
      ParamsHead(ps);
      SpacedBreaks(colon, ps[0]);
      BreaksConcat(" " + colon + ps[0], PrintParams(ps[1..]));
    }
  }

  /** A command section brings its own line-ending bytes into the message, and no others. */
  lemma CommandBreaks(s: string, tags: Option<seq<Tag>>, prefix: Option<Prefix>)
    ensures var m := ParseCommand(s, tags, prefix); Breaks(m.command) + BreaksIn(m.params) <= Breaks(s)
  {
    TokenBreaks(s);
    ParsedBreaks(AfterToken(s), 0);
  }

  lemma PrefixedBreaks(s: string, tags: Option<seq<Tag>>)
    ensures var m := ParsePrefixed(s, tags); Breaks(m.command) + BreaksIn(m.params) <= Breaks(s)
  {
    TokenBreaks(s);
    CommandBreaks(s, tags, None);
    if s != "" && s[0] == ':' {
      CommandBreaks(AfterToken(s), tags, Some(ParsePrefix(Token(s)[1..])));
    }
  }

  lemma TaggedBreaks(s: string)
    ensures var m := ParseTagged(s); Breaks(m.command) + BreaksIn(m.params) <= Breaks(s)
  {
    TokenBreaks(s);
    if s != "" && s[0] == '@' {
      PrefixedBreaks(AfterToken(s), Some(ParseTags(Token(s)[1..])));
    } else {
      PrefixedBreaks(s, None);
    }
  }

  lemma {:induction false} StrippedBreaks(s: string)
    ensures Breaks(StripEnd(s)) <= Breaks(s)
    ensures !EndsClean(s) ==> Breaks(StripEnd(s)) < Breaks(s)
    decreases |s|
  {
    if !EndsClean(s) {
      var init := s[..|s| - 1];
      assert s == init + [s[|s| - 1]];
      BreaksConcat(init, [s[|s| - 1]]);
      assert Breaks([s[|s| - 1]]) == 1 + Breaks("");
      StrippedBreaks(init);
    }
  }

  /** Only a last section that is line endings throughout lets the stripping go further. */
  lemma {:induction false} StripsLast(a: string, b: string)
    ensures StripEnd(a + b) == if StripEnd(b) == "" then StripEnd(a) else a + StripEnd(b)
    decreases |b|
  {
    if b == "" {
      assert a + b == a;
    } else if EndsClean(b) {
      assert (a + b)[|a + b| - 1] == b[|b| - 1];
    } else {
      assert (a + b)[|a + b| - 1] == b[|b| - 1];
      assert (a + b)[..|a + b| - 1] == a + b[..|b| - 1];
      StripsLast(a, b[..|b| - 1]);
    }
  }

  /** What stands between the line's start and its command section. */
  function Head(m: Message): string { PrintTagged(m.tags) + PrintPrefixed(m.prefix) }

  lemma SerializeIsHeadAndBody(m: Message)
    ensures Serialize(m) == Head(m) + Body(m.command, m.params)
  {
  }

  lemma HeadEnd(m: Message)
    ensures Head(m) != "" ==> Head(m)[|Head(m)| - 1] == ' '
    ensures StripEnd(Head(m)) == Head(m)
  {
  }

  /** A printed prefix before any command section. */
  lemma PrefixBefore(tags: Option<seq<Tag>>, prefix: Option<Prefix>, body: string)
    requires body != "" && body[0] != ' '
    requires if prefix.None? then body[0] != ':' else SpaceFreePrefix(prefix.value)
    ensures var s := PrintPrefixed(prefix) + body;
            s[0] == (if prefix.None? then body[0] else ':') &&
            ParsePrefixed(s, tags) == ParseCommand(body, tags, Reread(prefix))
  {
    if prefix.None? {
      assert PrintPrefixed(prefix) + body == body;
    } else {
      var word := ":" + PrintPrefix(prefix.value);
      PrintedPrefixSpaceFree(prefix.value);
      assert PrintPrefixed(prefix) + body == word + " " + body;
      TakeWordThen(word, body);
      assert word[1..] == PrintPrefix(prefix.value);
    }
  }

  lemma TaggedHead(ts: seq<Tag>, prefix: Option<Prefix>, body: string)
    requires CleanKeys(ts) && ts != [] && body != "" && body[0] != ' '
    requires if prefix.None? then body[0] != ':' else SpaceFreePrefix(prefix.value)
    ensures ParseTagged(PrintTagged(Some(ts)) + (PrintPrefixed(prefix) + body)) ==
            ParseCommand(body, Some(ParseTags(PrintTags(ts))), Reread(prefix))
  {
    PrefixBefore(Some(ParseTags(PrintTags(ts))), prefix, body);
    TagSectionReadsBack(ts, PrintPrefixed(prefix) + body);
  }

  lemma PrefixHead(prefix: Prefix, body: string)
    requires SpaceFreePrefix(prefix) && body != "" && body[0] != ' '
    ensures ParseTagged(PrintPrefixed(Some(prefix)) + body) == ParseCommand(body, None, Reread(Some(prefix)))
  {
    PrefixBefore(None, Some(prefix), body);
  }

  lemma HeadSplits(m: Message, body: string)
    ensures Head(m) + body == PrintTagged(m.tags) + (PrintPrefixed(m.prefix) + body)
    ensures m.tags.None? || m.tags.value == [] ==> Head(m) + body == PrintPrefixed(m.prefix) + body
    ensures (m.tags.None? || m.tags.value == []) && m.prefix.None? ==> Head(m) + body == body
    ensures body != "" && body[0] != ' ' ==> (Head(m) + body)[0] != ' '
  {
  }

  /** A head with something after it: all line endings of the message come from there. */
  lemma BreaksAfterHead(m: Message, body: string)
    requires WellFormed(m) && body != "" && body[0] == m.command[0]
    ensures var r := ParseTagged(Head(m) + body); Breaks(r.command) + BreaksIn(r.params) <= Breaks(body)
  {
    assert Free(m.command, " ") && body[0] != ' ';
    HeadSplits(m, body);
    if m.tags.Some? && m.tags.value != [] {
      TaggedHead(m.tags.value, m.prefix, body);
      CommandBreaks(body, Some(ParseTags(PrintTags(m.tags.value))), Reread(m.prefix));
    } else if m.prefix.Some? {
      PrefixHead(m.prefix.value, body);
      CommandBreaks(body, None, Reread(m.prefix));
    } else {
      TaggedBreaks(body);
    }
  }

  lemma LonePrefix(prefix: Prefix, tags: Option<seq<Tag>>)
    requires SpaceFreePrefix(prefix)
    ensures var s := PrintPrefixed(Some(prefix));
            s != "" && s[0] == ':' && !ParsePrefixed(s, tags).valid
  {
    var word := ":" + PrintPrefix(prefix);
    PrintedPrefixSpaceFree(prefix);
    LoneWord(word);
    assert PrintPrefixed(Some(prefix)) == word + " ";
  }

  lemma LoneTags(ts: seq<Tag>)
    requires CleanKeys(ts) && ts != []
    ensures var s := PrintTagged(Some(ts));
            s != "" && s[0] == '@' && !ParseTagged(s).valid
  {
    var word := "@" + PrintTags(ts);
    TagsExact(ts);
    LoneWord(word);
    assert PrintTagged(Some(ts)) == word + " ";
  }

  lemma TagsAndPrefix(ts: seq<Tag>, prefix: Prefix)
    requires CleanKeys(ts) && ts != [] && SpaceFreePrefix(prefix)
    ensures var s := PrintTagged(Some(ts)) + PrintPrefixed(Some(prefix));
            s != "" && s[0] == '@' && !ParseTagged(s).valid
  {
    LonePrefix(prefix, Some(ParseTags(PrintTags(ts))));
    TagSectionReadsBack(ts, PrintPrefixed(Some(prefix)));
  }

  /** A head alone is no message. */
  lemma HeadAlone(m: Message)
    requires WellFormed(m)
    ensures !Tokenize(Head(m)).valid
  {
    HeadEnd(m);
    HeadShape(m);
    if m.prefix.Some? && m.tags.Some? && m.tags.value != [] {
      TagsAndPrefix(m.tags.value, m.prefix.value);
    } else if m.prefix.Some? {
      LonePrefix(m.prefix.value, None);
    } else if m.tags.Some? && m.tags.value != [] {
      LoneTags(m.tags.value);
    }
  }

  lemma HeadShape(m: Message)
    ensures m.tags.None? || m.tags.value == [] ==> Head(m) == PrintPrefixed(m.prefix)
    ensures m.prefix.None? ==> Head(m) == PrintTagged(m.tags)
  {
  }

  lemma LoneWord(w: string)
    requires Free(w, " ")
    ensures Token(w + " ") == w && AfterToken(w + " ") == ""
  {
    TakeWord(w, " ");
    assert SkipSpaces(" ") == SkipSpaces("");
  }

  lemma BodyBreaks(command: string, params: seq<string>)
    ensures Breaks(Body(command, params)) == Breaks(command) + BreaksIn(params)
  {
    PrintedBreaks(params);
    BreaksConcat(command, PrintParams(params));
  }

  lemma StrippedSerial(m: Message)
    requires m.command != "" && m.command[0] != ' ' && !EndsClean(Serialize(m))
    ensures var body := StripEnd(Body(m.command, m.params));
            && Breaks(body) < Breaks(m.command) + BreaksIn(m.params)
            && (body == "" ==> Tokenize(Serialize(m)) == Tokenize(Head(m)))
            && (body != "" ==> body[0] == m.command[0] && Tokenize(Serialize(m)) == ParseTagged(Head(m) + body))
  {
    var body := Body(m.command, m.params);
    SerializeIsHeadAndBody(m);
    assert !EndsClean(body) by {
      assert body[|body| - 1] == Serialize(m)[|Serialize(m)| - 1];
    }
    assert Breaks(StripEnd(body)) < Breaks(m.command) + BreaksIn(m.params) by {
      BodyBreaks(m.command, m.params);
      StrippedBreaks(body);
    }
    StrippedTokenize(m, body);
  }

  lemma StrippedTokenize(m: Message, body: string)
    requires body != "" && body[0] != ' '
    ensures StripEnd(body) == "" ==> Tokenize(Head(m) + body) == Tokenize(Head(m))
    ensures StripEnd(body) != "" ==> Tokenize(Head(m) + body) == ParseTagged(Head(m) + StripEnd(body))
  {
    StripsLast(Head(m), body);
    HeadEnd(m);
    if StripEnd(body) != "" {
      HeadSplits(m, StripEnd(body));
    }
  }

  /** A printed message that ends in CR or LF loses those bytes and does not come back. */
  lemma StrippedNotRestored(m: Message)
    requires WellFormed(m) && !EndsClean(Serialize(m))
    ensures Tokenize(Serialize(m)) != m
  {
    assert Free(m.command, " ") && m.command[0] != ' ';
    StrippedSerial(m);
    var body := StripEnd(Body(m.command, m.params));
    if body == "" {
      HeadAlone(m);
    } else {
      BreaksAfterHead(m, body);
    }
  }

  // ---------------------------------------------------------------- the exact round trip

  /** Printing a message and parsing the line gives the message back exactly if it is canonical. */
  lemma ReparseExact(m: Message)
    requires m.valid
    ensures Tokenize(Serialize(m)) == m <==> Canonical(m)
  {
    if WellFormed(m) {
      if EndsClean(Serialize(m)) {
        UnstrippedReparse(m);
      } else {
        StrippedNotRestored(m);
      }
    } else if Tokenize(Serialize(m)) == m {
      ParsedIsWellFormed(Serialize(m));
    }
  }

  /** Printing a canonical message and parsing the line gives the message back. */
  lemma RoundTrip(m: Message)
    requires Canonical(m)
    ensures Tokenize(Serialize(m)) == m
  {
    ReparseExact(m);
  }

  /** Stability of reparsing, for every line the parser accepts. */
  lemma ReparseStable(line: string)
    requires Tokenize(line).valid
    ensures var m := Tokenize(line);
            Tokenize(Serialize(m)) == m <==>
            SolidTags(m.tags) && (m.prefix.Some? ==> CanonicalPrefix(m.prefix.value)) && EndsClean(Serialize(m))
  {
    ParsedIsWellFormed(line);
    ReparseExact(Tokenize(line));
  }

  /** The last condition is met by every line without CR and LF. */
  lemma CleanLinesEndClean(line: string)
    requires Clean(line) && Tokenize(line).valid
    ensures EndsClean(Serialize(Tokenize(line)))
  {
    ParsedIsWellFormed(line);
    ParsedIsClean(line);
    CleanEndsClean(Tokenize(line));
  }

  // ---------------------------------------------------------------- lines that are not stable

  /** A lone command after a tag section or a prefix. */
  lemma ShortLine(word: string, command: string)
    requires Free(word, " ") && word != "" && Word(command) && EndsClean(command)
    ensures var line := word + " " + command;
            && Tokenize(line) == ParseTagged(line)
            && line[0] == word[0] && Token(line) == word && AfterToken(line) == command
            && forall tags, prefix :: ParseCommand(command, tags, prefix) ==
                                      Message(tags, prefix, command, [], true)
  {
    assert command[0] != ' ';
    TakeWordThen(word, command);
    TakeWord(command, "");
    assert command + "" == command;
    StripsNothing(word + " " + command);
  }

  lemma LoneCommandExact(tags: Option<seq<Tag>>, prefix: Option<Prefix>, command: string)
    requires Word(command) && Clean(command) && command[0] != ':' && command[0] != '@'
    requires tags.Some? ==> CleanKeys(tags.value)
    requires prefix.Some? ==> SpaceFreePrefix(prefix.value)
    ensures var m := Message(tags, prefix, command, [], true);
            Tokenize(Serialize(m)) == m <==>
            SolidTags(tags) && (prefix.Some? ==> CanonicalPrefix(prefix.value))
  {
    var m := Message(tags, prefix, command, [], true);
    CleanEndsClean(m);
    ReparseExact(m);
  }

  lemma NoTagsInSeparators()
    ensures ParseTags(";;") == []
  {
    assert ";;" == "" + [';'] + ";" && ";" == "" + [';'] + "";
    SplitFirst("", ';', ";");
    SplitFirst("", ';', "");
    SplitOne("", ';');
  }

  /** Only separators in the tag section (`@;; CMD`): the empty tag list is dropped when printed. */
  lemma EmptyTagSectionUnstable(command: string)
    requires Word(command) && Clean(command) && command[0] != ':' && command[0] != '@'
    ensures var m := Tokenize("@;;" + " " + command);
            m == Message(Some([]), None, command, [], true) && Tokenize(Serialize(m)) != m
  {
    ShortLine("@;;", command);
    assert "@;;"[1..] == ";;";
    NoTagsInSeparators();
    LoneCommandExact(Some([]), None, command);
  }

  lemma PrefixLine(text: string, command: string)
    requires Free(text, " ") && Word(command) && Clean(command) && command[0] != ':' && command[0] != '@'
    ensures var m := Tokenize(":" + text + " " + command);
            && m == Message(None, Some(ParsePrefix(text)), command, [], true)
            && (Tokenize(Serialize(m)) == m <==> CanonicalPrefix(ParsePrefix(text)))
  {
    ShortLine(":" + text, command);
    assert (":" + text)[1..] == text;
    ParsedPrefixSpaceFree(text);
    LoneCommandExact(None, Some(ParsePrefix(text)), command);
  }

  /** `@` before `!` (`:a@b!c CMD`): the user part underflows and everything shifts on a reparse. */
  lemma AtBeforeBangUnstable(command: string)
    requires Word(command) && Clean(command) && command[0] != ':' && command[0] != '@'
    ensures var m := Tokenize(":" + "a@b!c" + " " + command);
            && m.prefix == Some(Prefix("a@b", "c", "b!c", false))
            && Tokenize(Serialize(m)) != m
  {
    var p := "a@b!c";
    FindUnique(p, '!', 0, 3);
    FindUnique(p, '@', 0, 1);
    assert p[..3] == "a@b" && p[4..] == "c" && p[2..] == "b!c";
    assert "a@b"[1] == '@';
    PrefixLine(p, command);
  }

  /** An empty user (`:a.b! CMD`): a dotted nick comes back as a server. */
  lemma EmptyUserUnstable(command: string)
    requires Word(command) && Clean(command) && command[0] != ':' && command[0] != '@'
    ensures var m := Tokenize(":" + "a.b!" + " " + command);
            && m.prefix == Some(Prefix("a.b", "", "", false))
            && Tokenize(Serialize(m)) != m
  {
    var p := "a.b!";
    FindUnique(p, '!', 0, 3);
    FindUnique(p, '@', 0, 4);
    assert p[..3] == "a.b" && p[4..] == "";
    assert "a.b"[1] == '.';
    PrefixLine(p, command);
  }

  /** A space after a stray CR (`CMD a\r `): the CR is part of the parameter, and is lost when the
      parameter stands at the end of the printed line. */
  lemma TrailingBreakUnstable(command: string, p: string)
    requires Word(command) && command[0] != ':' && command[0] != '@'
    requires !NeedsColon(p) && EndsClean(p)
    ensures var m := Tokenize(command + " " + ((p + "\r") + " "));
            && m == Message(None, None, command, [p + "\r"], true)
            && Tokenize(Serialize(m)) == Message(None, None, command, [p], true)
  {
    var q := p + "\r";
    LoneParam(command, q, " ");
    SerializeLoneParam(command, q);
    CrLost(command, p);
  }

  lemma CrLost(command: string, p: string)
    requires Word(command) && command[0] != ':' && command[0] != '@'
    requires !NeedsColon(p) && EndsClean(p)
    ensures Tokenize(command + " " + (p + "\r")) == Message(None, None, command, [p], true)
  {
    StripsCr(command + " ", p);
    assert p + "" == p;
    LoneParam(command, p, "");
  }

  lemma StripsCr(a: string, p: string)
    requires p != "" && EndsClean(p)
    ensures Tokenize(a + (p + "\r")) == Tokenize(a + p)
  {
    var q := p + "\r";
    assert q[..|q| - 1] == p;
    assert StripEnd(q) == StripEnd(p);
    StripsLast(a, q);
    StripsLast(a, p);
  }

  lemma SerializeLoneParam(command: string, q: string)
    requires !NeedsColon(q)
    ensures Serialize(Message(None, None, command, [q], true)) == command + " " + q
  {
    assert [q][1..] == [];
    assert PrintParams([q]) == " " + ("" + q + PrintParams([]));
    assert "" + q + PrintParams([]) == q;
    assert PrintParams([q]) == " " + q;
  }

  lemma LoneParam(command: string, p: string, tail: string)
    requires Word(command) && command[0] != ':' && command[0] != '@'
    requires !NeedsColon(p) && (tail == "" || tail == " ") && EndsClean(p + tail)
    ensures Tokenize(command + " " + (p + tail)) == Message(None, None, command, [p], true)
  {
    var line := command + " " + (p + tail);
    TakeWordThen(command, p + tail);
    TakeWord(p, tail);
    assert SkipSpaces(tail) == "" by {
      assert SkipSpaces(" ") == SkipSpaces("");
    }
    assert line[0] == command[0] && line[|line| - 1] == (p + tail)[|p + tail| - 1];
    StripsNothing(line);
    assert ParseParams(p + tail, 0) == [p] + ParseParams("", 1);
  }

  // ---------------------------------------------------------------- the loops

  method UnescapeTagValue(v: string) returns (out: string)
    ensures out == Unescape(v)
  {
    out := "";
    var i := 0;
    while i < |v|
      invariant i <= |v| && out + Unescape(v[i..]) == Unescape(v)
    {
      if v[i] != '\\' {
        assert v[i..][1..] == v[i + 1..];
        Prepend(out, [v[i]], Unescape(v[i + 1..]));
        out := out + [v[i]];
        i := i + 1;
        continue;
      }
      if i + 1 >= |v| {
        break;
      }
      assert v[i..][2..] == v[i + 2..];
      i := i + 1;
      Prepend(out, [UnescapeChar(v[i])], Unescape(v[i + 1..]));
      out := out + [UnescapeChar(v[i])];
      i := i + 1;
    }
  }

  method EscapeTagValue(v: string) returns (out: string)
    ensures out == Escape(v)
  {
    out := "";
    for i := 0 to |v|
      invariant out + Escape(v[i..]) == Escape(v)
    {
      assert v[i..][1..] == v[i + 1..];
      Prepend(out, EscapeChar(v[i]), Escape(v[i + 1..]));
      out := out + EscapeChar(v[i]);
    }
  }

  /** Cut the next space-delimited word off, and the spaces after it. */
  method ConsumeToken(msg: string) returns (tok: string, rest: string)
    ensures tok == Token(msg) && rest == AfterToken(msg)
  {
    var sp := Find(msg, ' ', 0);
    tok := msg[..sp];
    rest := msg[sp..];
    while rest != "" && rest[0] == ' '
      invariant SkipSpaces(rest) == AfterToken(msg)
      decreases |rest|
    {
      rest := rest[1..];
    }
  }

  lemma SplitHead(s: string, delim: char, e: nat)
    requires e == Find(s, delim, 0)
    ensures Split(s, delim) == Field(s[..e]) + if e == |s| then [] else Split(s[e + 1..], delim)
  {
    SplitUnfold(s, delim, 0, e);
    assert s[0..e] == s[..e];
    if e < |s| {
      SplitShift(s, e + 1, s[e + 1..], delim, 0);
    }
  }

  lemma ParseEachConcat(a: seq<string>, b: seq<string>)
    ensures ParseEach(a + b) == ParseEach(a) + ParseEach(b)
  {
  }

  lemma TagsHead(s: string, e: nat)
    requires e == Find(s, ';', 0)
    ensures ParseTags(s) == (if e == 0 then [] else [ParseTag(s[..e])]) +
                            ParseTags(if e == |s| then "" else s[e + 1..])
  {
    SplitHead(s, ';', e);
    var rest := if e == |s| then [] else Split(s[e + 1..], ';');
    if e == |s| {
      SplitOne("", ';');
    }
    ParseEachConcat(Field(s[..e]), rest);
    if e > 0 {
      assert ParseEach([s[..e]]) == [ParseTag(s[..e])];
    }
  }

  method TokenizeTag(tagTok: string) returns (t: Tag)
    ensures t == ParseTag(tagTok)
  {
    var eq := Find(tagTok, '=', 0);
    if eq == |tagTok| {
      return Tag(tagTok, "");
    }
    var value := UnescapeTagValue(tagTok[eq + 1..]);
    return Tag(tagTok[..eq], value);
  }

  method TokenizeTags(section: string) returns (out: seq<Tag>)
    ensures out == ParseTags(section)
  {
    out := [];
    var tags := section;
    while tags != ""
      invariant out + ParseTags(tags) == ParseTags(section)
      decreases |tags|
    {
      var sp := Find(tags, ';', 0);
      var tagTok := tags[..sp];
      var rest := if sp == |tags| then "" else tags[sp + 1..];
      TagsHead(tags, sp);
      Prepend(out, if sp == 0 then [] else [ParseTag(tagTok)], ParseTags(rest));
      tags := rest;
      if tagTok == "" {
        assert out + [] == out;
        continue;
      }
      var t := TokenizeTag(tagTok);
      out := out + [t];
    }
    SplitOne("", ';');
  }

  lemma ParamTaken(params: seq<string>, msg: string)
    requires msg != "" && msg[0] != ':' && msg[0] != ' ' && |params| != MAX_MIDDLE
    ensures params + ParseParams(msg, |params|) ==
            (params + [Token(msg)]) + ParseParams(AfterToken(msg), |params| + 1)
  {
    Prepend(params, [Token(msg)], ParseParams(AfterToken(msg), |params| + 1));
  }

  lemma RestTaken(params: seq<string>, msg: string)
    requires msg != "" && (msg[0] == ':' || |params| == MAX_MIDDLE)
    ensures params + ParseParams(msg, |params|) == params + [if msg[0] == ':' then msg[1..] else msg]
  {
  }

  method TokenizeParams(section: string) returns (params: seq<string>)
    requires section == "" || section[0] != ' '
    ensures params == ParseParams(section, 0)
  {
    var msg := section;
    params := [];
    while msg != ""
      invariant |params| <= MAX_MIDDLE
      invariant msg == "" || msg[0] != ' '
      invariant params + ParseParams(msg, |params|) == ParseParams(section, 0)
      decreases |msg|
    {
      if msg[0] == ':' || |params| == MAX_MIDDLE {
        RestTaken(params, msg);
        if msg[0] == ':' {
          msg := msg[1..];
        }
        params := params + [msg];
        return;
      }
      ParamTaken(params, msg);
      var tok, rest := ConsumeToken(msg);
      params, msg := params + [tok], rest;
    }
    assert params + [] == params;
  }

  method TokenizeMsg(line: string) returns (out: Message)
    ensures out == Tokenize(line)
  {
    out := BLANK;
    var msg := line;
    while msg != "" && (msg[|msg| - 1] == '\r' || msg[|msg| - 1] == '\n')
      invariant StripEnd(msg) == StripEnd(line)
      decreases |msg|
    {
      msg := msg[..|msg| - 1];
    }
    while msg != "" && msg[0] == ' '
      invariant SkipSpaces(msg) == SkipSpaces(StripEnd(line))
      decreases |msg|
    {
      msg := msg[1..];
    }
    if msg == "" {
      return;
    }
    var tok: string;
    if msg[0] == '@' {
      tok, msg := ConsumeToken(msg);
      var tags := TokenizeTags(tok[1..]);
      out := out.(tags := Some(tags));
      if msg == "" {
        return;
      }
    }
    if msg[0] == ':' {
      tok, msg := ConsumeToken(msg);
      out := out.(prefix := Some(ParsePrefix(tok[1..])));
      if msg == "" {
        return;
      }
    }
    tok, msg := ConsumeToken(msg);
    out := out.(command := tok);
    if tok == "" {
      return;
    }
    var params := TokenizeParams(msg);
    out := out.(params := params, valid := true);
  }

  lemma PrintEachSnoc(ts: seq<Tag>, i: nat)
    requires i < |ts|
    ensures PrintTags(ts[..i + 1]) ==
            if i == 0 then PrintTag(ts[0]) else PrintTags(ts[..i]) + ";" + PrintTag(ts[i])
  {
    assert PrintEach(ts[..i + 1]) == PrintEach(ts[..i]) + [PrintTag(ts[i])];
    JoinSnoc(PrintEach(ts[..i]), PrintTag(ts[i]), ';');
  }

  method SerializeTag(t: Tag) returns (out: string)
    ensures out == PrintTag(t)
  {
    out := t.k;
    if t.v != "" {
      var escaped := EscapeTagValue(t.v);
      Prepend(out, "=", escaped);
      out := out + "=" + escaped;
    } else {
      assert t.k + "" == t.k;
    }
  }

  method SerializeTags(ts: seq<Tag>) returns (out: string)
    requires ts != []
    ensures out == PrintTagged(Some(ts))
  {
    var list := "";
    var first := true;
    for i := 0 to |ts|
      invariant first <==> i == 0
      invariant list == PrintTags(ts[..i])
    {
      PrintEachSnoc(ts, i);
      if !first {
        list := list + ";";
      }
      first := false;
      var tag := SerializeTag(ts[i]);
      list := list + tag;
    }
    assert ts[..|ts|] == ts;
    out := "@" + list + " ";
  }

  method SerializePrefix(p: Prefix) returns (out: string)
    ensures out == PrintPrefixed(Some(p))
  {
    out := ":" + p.nick;
    ghost var body := p.nick;
    if p.user != "" {
      out := out + "!" + p.user;
      body := body + ("!" + p.user);
    } else {
      assert body + "" == body;
    }
    assert out == ":" + body;
    if p.host != "" {
      out := out + "@" + p.host;
      body := body + ("@" + p.host);
    } else {
      assert body + "" == body;
    }
    assert out == ":" + body;
    assert body == PrintPrefix(p);
    out := out + " ";
  }

  lemma Regroup(a: string, b: string, c: string, d: string)
    ensures a + (b + c + d) == (a + b + c) + d
    ensures a + (b + (c + d)) == (a + b + c) + d
  {
    assert b + c + d == b + (c + d);
  }

  lemma ParamsHead(ps: seq<string>)
    requires ps != []
    ensures PrintParams(ps) ==
            (" " + (if |ps| == 1 && NeedsColon(ps[0]) then ":" else "") + ps[0]) + PrintParams(ps[1..])
  {
    var colon := if |ps| == 1 && NeedsColon(ps[0]) then ":" else "";
    Regroup(" ", colon, ps[0], PrintParams(ps[1..]));
  }

  method SerializeParams(params: seq<string>) returns (out: string)
    ensures out == PrintParams(params)
  {
    out := "";
    ghost var rest := params;
    for i := 0 to |params|
      invariant rest == params[i..] && out + PrintParams(rest) == PrintParams(params)
    {
      var p := params[i];
      ParamsHead(rest);
      var last := i + 1 == |params|;
      FindFirst(p, ' ', 0);
      var needsColon := p == "" || p[0] == ':' || Find(p, ' ', 0) < |p|;
      var piece := " " + (if last && needsColon then ":" else "") + p;
      Prepend(out, piece, PrintParams(rest[1..]));
      out := out + piece;
      rest := rest[1..];
    }
  }

  method SerializeMsg(msg: Message) returns (out: string)
    ensures out == Serialize(msg)
  {
    out := "";
    if msg.tags.Some? && msg.tags.value != [] {
      out := SerializeTags(msg.tags.value);
    }
    if msg.prefix.Some? {
      var prefix := SerializePrefix(msg.prefix.value);
      out := out + prefix;
    }
    assert out == PrintTagged(msg.tags) + PrintPrefixed(msg.prefix);
    out := out + msg.command;
    var params := SerializeParams(msg.params);
    Regroup(PrintTagged(msg.tags), PrintPrefixed(msg.prefix), msg.command, params);
    out := out + params;
  }
}
