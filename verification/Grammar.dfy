/** The grammar of lines, read from how they look: where tags, prefix, command and parameters stand. */
module Grammar {
  import opened Wrappers
  import opened IrcMessage

  // ---------------------------------------------------------------- tag values

  /** What stands for itself, and what a backslash makes of the character behind it. */
  function Meant(c: char): char
  {
    if c == ':' then ';' else if c == 's' then ' ' else if c == 'r' then '\r' else if c == 'n' then '\n' else c
  }

  lemma {:induction false} PlainThenEscape(u: string, rest: string)
    requires '\\' !in u
    ensures Unescape(u + rest) == u + Unescape(rest)
    decreases |u|
  {
    if u == "" {
      assert u + rest == rest;
    } else {
      assert (u + rest)[1..] == u[1..] + rest;
      PlainThenEscape(u[1..], rest);
    }
  }

  /** In a tag value backslash-colon means a semicolon, and backslash with s, r or n a space, a CR
      or an LF; any other character behind a backslash means itself, and a last backslash nothing. */
  lemma EscapesMean(u: string, c: char, rest: string)
    requires '\\' !in u
    ensures Unescape(u + ("\\" + ([c] + rest))) == u + ([Meant(c)] + Unescape(rest))
    ensures Unescape(u + "\\") == u
  {
    var s := "\\" + ([c] + rest);
    assert s[0] == '\\' && s[1] == c && s[2..] == rest;
    PlainThenEscape(u, s);
    PlainThenEscape(u, "\\");
    assert u + "" == u;
  }

  /** A value that can be written as it is. */
  predicate PlainValue(v: string) { v != "" && Free(v, "; \\\r\n") }

  lemma {:induction false} PlainValueStays(v: string)
    requires Free(v, "; \\\r\n")
    ensures Escape(v) == v
  {
    if v != "" {
      PlainValueStays(v[1..]);
      assert [v[0]] + v[1..] == v;
    }
  }

  // ---------------------------------------------------------------- a whole line

  /** A line with everything in it: one tag, a client as the prefix, a command, a parameter, and a
      last parameter behind a colon. */
  function FullLine(k: string, v: string, nick: string, user: string, host: string, command: string,
                    a: string, b: string): string
  {
    ("@" + k + "=" + v + " ") + ((":" + nick + "!" + user + "@" + host + " ") + (command + (" " + a + " :" + b)))
  }

  function FullMessage(k: string, v: string, nick: string, user: string, host: string, command: string,
                       a: string, b: string): Message
  {
    Message(Some([Tag(k, v)]), Some(Prefix(nick, user, host, false)), command, [a, b], true)
  }

  lemma OneTag(k: string, v: string)
    requires PlainValue(v)
    ensures PrintTagged(Some([Tag(k, v)])) == "@" + k + "=" + v + " "
  {
    PlainValueStays(v);
    var ts := [Tag(k, v)];
    assert PrintTag(ts[0]) == k + ("=" + v) == k + "=" + v;
    assert PrintEach(ts) == [k + "=" + v];
    assert PrintTags(ts) == k + "=" + v;
  }

  lemma TwoParams(a: string, b: string)
    requires b == "" || b[0] == ':' || ' ' in b
    ensures PrintParams([a, b]) == " " + a + " :" + b
  {
    assert [a, b][1..] == [b];
    assert PrintParams([b]) == " " + ((":" + b) + "");
  }

  lemma OnePrefix(nick: string, user: string, host: string)
    requires user != "" && host != ""
    ensures PrintPrefixed(Some(Prefix(nick, user, host, false))) == ":" + nick + "!" + user + "@" + host + " "
  {
  }

  lemma FullLinePrinted(k: string, v: string, nick: string, user: string, host: string, command: string,
                        a: string, b: string)
    requires PlainValue(v) && user != "" && host != "" && (b == "" || b[0] == ':' || ' ' in b)
    ensures Serialize(FullMessage(k, v, nick, user, host, command, a, b)) ==
            FullLine(k, v, nick, user, host, command, a, b)
  {
    OneTag(k, v);
    OnePrefix(nick, user, host);
    TwoParams(a, b);
  }

  /** Such a line is read as what it looks like. */
  lemma FullLineRead(k: string, v: string, nick: string, user: string, host: string, command: string,
                     a: string, b: string)
    requires Free(k, ";= ") && PlainValue(v)
    requires Free(nick, "!@ ") && user != "" && Free(user, "@ ") && host != "" && Free(host, " ")
    requires command != "" && Free(command, " ") && a != "" && a[0] != ':' && Free(a, " ")
    requires (b == "" || b[0] == ':' || ' ' in b) && (b != "" ==> b[|b| - 1] !in "\r\n")
    ensures IrcMessage.Tokenize(FullLine(k, v, nick, user, host, command, a, b)) ==
            FullMessage(k, v, nick, user, host, command, a, b)
  {
    var m := FullMessage(k, v, nick, user, host, command, a, b);
    FullLinePrinted(k, v, nick, user, host, command, a, b);
    assert CanonicalPrefix(m.prefix.value) && SpaceFreePrefix(m.prefix.value);
    assert CleanKeys(m.tags.value) && NoBlanks(m.tags.value);
    assert EndsClean(Serialize(m));
    RoundTrip(m);
  }
}
