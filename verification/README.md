# govord, verified

A Dafny model of the IRC server `govord` and of the text code it shares with its client,
with proofs of what its parts are for.

The server keeps one fact, "this client is on this channel", in five places, and reaches
clients both by number and by nick. `ServerState` writes down the tables and one invariant
that ties them together; `Departures`, `Sweeps`, `SweepOrder`, `Registration`, `Membership`
and `Modes` say what each command and each step of the event loop does to the tables;
`Runs` puts the line gate in front of them and shows that every run keeps the invariant.
What each of these is for is then stated once more without naming it, and proved: `Words` says
which word runs which command, `Effects` what the commands of registration do to a client field
by field, `Standing` what makes a connection come, be registered, be marked and go,
`ModeRequests` what a mode list asks for and that the last request about a setting decides,
`InviteRate` when an INVITE is granted and counted, `Authority` and `Outcomes` who may do what to
a channel, who comes on and off it, and what those who stay keep. `Histories`, `Deposing`,
`Announcing`, `Replies`, `Closing` and `SweepMarks` draw the conclusions that span whole runs and
all commands: what is never taken back, when a channel loses its last operator, what the text
sent out says to those who read it; `Signoffs` and `Records` say what a run leaves in the WHOWAS
store; and `Server` is the imperative server, whose methods update the tables in place and are
each proved equal to the step they implement. The remaining modules are self-contained pieces of
the same program:
`Glob` (the wildcard matcher), `Bans`, `IrcMessage` (parser and printer of one line), `Grammar`
(what a line looks like), `Wire` (lines written without any protection of their words), `Framing`
(bytes to lines, and the send buffer), `Streams` (what one burst of reads or writes does),
`Liveness` (timeouts), `Decimal` (numbers as they are written), `Packing` (reply lines of bounded length), `Whowas` (the
history store), `Secret` (the password comparison) and `IrcText` (case folding, validators,
splitting).

Conventions of the model:

- A character stands for one byte. A hash table or hash set yields its entries in any order:
  the loops take them from `Wrappers.AnyOf`, which promises only that the entry is there, so
  every result proved about such a loop holds for every order.
- A pointer to a channel is a key of the channel table together with the number of the
  allocation it points to, so a pointer to an erased channel, or to one that was erased and
  created again, can be told from a live one. Following a pointer is proved to be safe.
- Clients and channels are values held in the server's maps, as the structs of the original
  are held in its hash maps; the objects with methods (`Server`, `WhowasStore`, the reaper,
  a connection's buffers) are classes.
- Any send may overflow a client's send buffer and mark it for close. Such marks are steps of
  their own here. A mark set before a line, between two names of a JOIN or PART list, between two
  stops of JOIN 0, or after the line leads to the same state (`Closing`). A sweep whose own
  announcements mark further clients is the same as closing some of them first, those whose
  turn was still to come, then a sweep, then closing the others (`SweepMarks`).

Some properties one would expect do not hold of the code as it is. Each is stated with the
exact condition under which it does hold, or with inputs that show it fails:

- The wildcard matcher tests for a literal match before it tests for `*`, so a `*` in the
  text can swallow the star of the pattern (`*` does not match `*a`). It agrees with the
  glob relation for all patterns exactly when the text has no `*`, and for all texts exactly
  when the pattern has none.
- A ban on a bare nick, and a ban on a host, also miss their target when the user name starts
  with `*` and is longer than that.
- Printing a message and parsing the line are inverse exactly for canonical messages: prefix
  canonical, tag list absent or nonempty and without blank tags, and no CR or LF at the end of
  the printed line. `@;; CMD`, `:a@b!c CMD`, `:a.b! CMD` and `CMD a\r ` (a CR and a space) are
  not reproduced.
- MODE announcements and mode views are text without any protection of the arguments. Their
  readers get what was meant exactly if no argument starts with a colon or a space, none but a
  thirteenth has a space in it, and the last does not end in CR or LF. After `+k :a b` the
  announcement says `+k a b`, which sets the key `a`.
- A WHOWAS lookup is the window of the last 4096 records at all times exactly if no nick
  occurs more than eight times in any 4097 consecutive records.
- The password comparison accepts a password followed by a multiple of 256 NUL bytes.
- A channel can lose its last operator by `MODE -o`, which appoints no successor. It does so
  exactly if the command is no query, comes from an operator of the channel, and leaves every
  member without the office by the last of its changes that names the member, or by naming it
  in none when it had no office before. No other step ever takes the last operator away.
- JOIN's NAMES loop flushes an empty line before a first entry that is over the budget; it
  cuts as the other two loops do exactly when the first entry fits.

## Model

| member | source | states |
|---|---|---|
| IrcText.FoldChar | shared/Utils.h:15-27 | only capital letters and the four bracket-like bytes are changed, and the result is never one of those |
| IrcText.IrcCaseFold | shared/Utils.cpp:86-93 | the loop computes the fold of every byte in place |
| IrcText.FoldIdempotent | shared/Utils.cpp:86-93 | the fold of a fold is itself |
| IrcText.FoldKeepsPunctuation | shared/Utils.h:15-27 | folding neither creates nor removes a wildcard or separator, at any position |
| IrcText.FoldTable | shared/Utils.h:15-27 | each capital folds to its small letter, the four bracket-like characters to theirs, everything else to itself |
| IrcText.SameNick | shared/Utils.cpp:95-105 | the early-out comparison is equality of folds |
| IrcText.IsValidNick | shared/Utils.cpp:107-122 | accepts exactly the nicks of the grammar |
| IrcText.IsValidUsername | shared/Utils.cpp:124-134 | accepts exactly the bounded user names without control or structure bytes |
| IrcText.IsValidChannelName | shared/Utils.cpp:141-152 | accepts exactly the bounded channel names |
| IrcText.NickGrammar | shared/Utils.cpp:107-122 | a nick is 1 to 30 characters from `A` to `}`, and behind the first also digits and hyphens |
| IrcText.UsernameGrammar | shared/Utils.cpp:124-134 | a user name is 1 to 16 characters, none of them NUL, CR, LF, space or one of `@!:` |
| IrcText.ChannelNameGrammar | shared/Utils.cpp:141-152 | a channel name is 2 to 64 characters, begins with `#` or `&`, and holds no NUL, CR, LF, space, comma or BEL |
| IrcText.ValidNickIsPlain | shared/Utils.cpp:107-122 | a valid nick holds no wildcard, separator or dot |
| IrcText.SplitFields | shared/Utils.cpp:37-53 | the loop yields the pieces between delimiters, left to right, empty ones dropped |
| IrcText.SplitJoin | shared/Utils.cpp:37-53 | splitting what was joined with the delimiter gives the fields back |
| Glob.GlobMatch | shared/Utils.cpp:55-84 | the loops compute the greedy verdict, and together take fewer than (pattern + 1) * (text + 1) steps |
| Glob.GreedySound | shared/Utils.cpp:55-84 | an accepted text matches the pattern in the recursive glob relation, for every pattern and text |
| Glob.GreedyComplete | shared/Utils.cpp:64-83 | a text without `*` that matches is accepted |
| Glob.TextExactness | shared/Utils.cpp:65-72 | a text gets the right verdict from every pattern if and only if it holds no `*` |
| Glob.PatternExactness | shared/Utils.cpp:65-72 | a pattern gives the right verdict to every text if and only if it holds no `*` |
| Bans.NormalizeBanMask | govord/core/m_mode.cpp:81-90 | every stored mask holds both `!` and `@` |
| Bans.NormalizeByParts | govord/core/m_mode.cpp:81-90 | whatever is missing of nick, user and host is a star: what a mask of each shape becomes |
| Bans.NormalizeIdempotent | govord/core/m_mode.cpp:81-90 | an announced mask normalises to itself |
| Bans.NormalFormsAreFixed | govord/core/m_mode.cpp:81-90 | a mask is left alone exactly when it holds both separators |
| Bans.IsBanned | govord/Server.cpp:578-587 | the verdict is whether some mask accepts nick!user@host, whatever the order of the list |
| Bans.BareNickBanExact | govord/core/m_mode.cpp:81-90 | for a user name and host without `*`, a bare-nick ban hits exactly that nick under folding |
| Bans.BareBanVerdict | govord/Server.cpp:578-587 | for a host not starting with a star, a ban on a client's own nick hits it if and only if the user name is a lone star or does not start with one |
| Bans.HostBanHits | govord/Server.cpp:578-587 | a ban on a host without wildcards, typed in full or as `*@host`, hits exactly the clients of that host under folding whose user name is a lone star or does not start with one |
| Secret.ConstantTimeEquals | shared/Utils.cpp:187-198 | the OR of all differences is zero exactly when the lengths agree modulo 256 and the padded bytes agree |
| Secret.SecretExact | shared/Utils.cpp:187-198 | two strings compare equal exactly when one is the other with a multiple of 256 NULs appended |
| Secret.SecretIsEquality | shared/Utils.cpp:187-198 | it is equality for strings of one length and for strings that do not end in NUL |
| Packing.PackList | govord/core/m_names.cpp:18-32 | the flush-before-overflow loop emits the lines of the greedy partition |
| Packing.PackJoinNames | govord/core/m_join.cpp:111-129 | JOIN's loop emits the lines of its own guard, empty first line included |
| Packing.NothingLost | govord/core/m_whois.cpp:19-39 | splitting the emitted lines on spaces gives back the entries in order |
| Packing.PackFits | govord/core/m_names.cpp:27-30 | every line fits the budget when every entry does |
| Packing.PackingOptimal | govord/core/m_names.cpp:18-32 | no ordered partition into fitting lines has fewer lines |
| Packing.JoinGuardExact | govord/core/m_join.cpp:120-127 | JOIN's guard makes the same cuts as the others if and only if the first entry fits |
| Packing.StatusEntriesFit | govord/core/m_names.cpp:22-25 | entries made of a status sign and a bounded name always fit |
| Replies.NamesPacked | govord/core/m_names.cpp:18-32 | in every run, for every channel and every order of its members, the name list has one entry for each, its lines give the entries back, fit, are as few as can be, and are cut alike by NAMES and JOIN |
| Replies.WhoisPacked | govord/core/m_whois.cpp:19-39 | in every run the same holds for the channel list of every client, and no entry follows a dead pointer |
| Replies.SendNames | govord/core/m_names.cpp:18-32 | the loop over the member set emits the packed entries of some order of the members |
| Replies.SendJoinNames | govord/core/m_join.cpp:111-129 | so does JOIN's loop with its own guard and no voices |
| Replies.StatusShown | govord/core/m_names.cpp:22-25 | in a name list a member has an at-sign before its nick exactly if it is operator, else a plus exactly if voices are shown and it has one |
| Replies.ChannelStatusShown | govord/core/m_whois.cpp:27-30 | WHOIS shows a channel with the same two signs, for the client it is about |
| Replies.EntryOf | govord/core/m_names.cpp:18-31 | the entries stand in the order in which the set yields the members |
| Packing.CapTokenize | govord/core/m_cap.cpp:33-47 | the tokenizer yields the nonempty runs between spaces |
| Packing.PackCapLs | govord/core/m_cap.cpp:68-83 | CAP LS lines lose nothing, are the greedy ones, and there is at least one |
| IrcMessage.UnescapeEscape | shared/IrcMessage.cpp:6-41 | unescaping undoes escaping for every tag value |
| IrcMessage.EscapeIsSafe | shared/IrcMessage.cpp:26-41 | an escaped value holds no semicolon, space, CR or LF |
| IrcMessage.TagsExact | shared/IrcMessage.cpp:71-88 | printed tags with clean keys read back if and only if none is blank in both key and value |
| IrcMessage.PrefixExact | shared/IrcMessage.cpp:94-123 | a printed prefix reads back if and only if it is canonical |
| IrcMessage.ParamsReadBack | shared/IrcMessage.cpp:134-142 | printed parameters read back, including the fifteenth and the trailing one |
| IrcMessage.ReparseExact | shared/IrcMessage.cpp:148-189 | a valid message reads back if and only if it is canonical |
| IrcMessage.RoundTrip | shared/IrcMessage.cpp:44-189 | parsing the printed form of a canonical message gives the message, marked valid |
| IrcMessage.ParsedIsWellFormed | shared/IrcMessage.cpp:44-146 | whatever is accepted has a nonempty space-free command and parameters in printable form |
| IrcMessage.ReparseStable | shared/IrcMessage.cpp:44-189 | for every accepted line, printing and parsing again changes nothing if and only if its tags are solid, its prefix canonical, and the printed line does not end in CR or LF |
| IrcMessage.CleanLinesEndClean | shared/IrcMessage.cpp:50-53 | the last condition is met by every line without CR and LF |
| IrcMessage.TrailingBreakUnstable | shared/IrcMessage.cpp:50-58 | a CR before a last space becomes part of the parameter and is lost on the way back |
| IrcMessage.EmptyTagSectionUnstable | shared/IrcMessage.cpp:71-92 | a tag section of separators only is not reproduced |
| IrcMessage.AtBeforeBangUnstable | shared/IrcMessage.cpp:106-117 | a prefix with `@` before `!` is not reproduced |
| IrcMessage.EmptyUserUnstable | shared/IrcMessage.cpp:106-117 | a prefix with an empty user part and a dot is not reproduced |
| IrcMessage.TokenizeMsg | shared/IrcMessage.cpp:44-146 | the cursor-moving parser computes the grammar's reading of every line |
| IrcMessage.SerializeMsg | shared/IrcMessage.cpp:148-189 | the appending printer computes the printed form of every message |
| IrcMessage.UnescapeTagValue | shared/IrcMessage.cpp:6-24 | the loop computes the unescaped value, lone final backslash included |
| IrcMessage.EscapeTagValue | shared/IrcMessage.cpp:26-41 | the loop computes the escaped value |
| Grammar.EscapesMean | shared/IrcMessage.cpp:6-24 | in a tag value a backslash makes a semicolon of a colon, and a space, CR and LF of s, r and n; before anything else, and at the end, it just goes |
| Grammar.FullLineRead | shared/IrcMessage.cpp:44-146 | a line of a tag, a nick!user@host prefix, a command, a parameter and a last parameter behind a colon is read as these |
| Framing.LinesConcat | govord/Server.cpp:320-337 | the lines of a stream in two parts are those of the first and those of its tail with the second |
| Framing.FramingInvariant | govord/Server.cpp:276-299 | after any reads the delivered lines are the lines of the bytes received, or a prefix of them once reading was closed, and the buffer is the unterminated tail of bounded length |
| Framing.ChunkingIrrelevant | govord/Server.cpp:276-299 | two runs over the same bytes that leave the client open deliver the same lines, however the bytes were chunked |
| Framing.DeliveriesComparable | govord/Server.cpp:320-337 | in runs over the same bytes, closing or not, one delivery is a prefix of the other |
| Framing.OneLineAfterMark | govord/Server.cpp:320-337 | once a client is marked, at most one more line is handed on, whatever it still sends |
| Framing.OutputConserved | govord/Server.cpp:301-351 | bytes written followed by bytes buffered are the accepted messages whole and in order |
| Framing.Connection.ProcessLines | govord/Server.cpp:320-337 | the loop over the receive buffer meets its specification |
| Framing.Connection.DoRead | govord/Server.cpp:276-299 | the read loop, flood check and end of stream meet theirs |
| Framing.Connection.Enqueue | govord/Server.cpp:339-351 | a send is taken whole or not at all, and marks the client on overflow |
| Framing.Connection.DoWrite | govord/Server.cpp:301-318 | the write loop drops exactly what was taken |
| Streams.TypedReadBack | govord/Server.cpp:320-337 | texts that were each ended by LF or CR LF come out as they were, without CR, the empty ones left out, and what has not been ended is kept |
| Streams.ReadDoes | govord/Server.cpp:276-337 | a burst of reads closes the client at once exactly if it floods the buffer or ends the connection; else its lines are handed on until one marks the client, and it is done exactly if one did or the tail is too long |
| Streams.SendDoes | govord/Server.cpp:339-351 | a message is taken exactly if the client is not marked and a mebibyte holds it with what waits, and marks the client exactly if not |
| Streams.WriteDoes | govord/Server.cpp:301-318 | a burst of writes writes as many of the first bytes as the socket takes, and marks the client exactly if the connection ends with bytes left |
| Liveness.Reaper.ReapTimeouts | govord/Server.cpp:404-434 | every client is treated once, by its own fields, in whatever order |
| Liveness.Reaper.Pong | govord/core/m_pingpong.cpp:23-30 | a PONG counts as being heard |
| Liveness.TimingInvariant | govord/Server.cpp:281-289 | at every moment of a run the timing fields agree with what was heard and pinged when |
| Liveness.PingTimeoutMeansSilence | govord/Server.cpp:420-425 | a client closed for a ping timeout was silent for more than 120 seconds |
| Liveness.SilentClientIsClosed | govord/Server.cpp:404-434 | with reaps at most G apart, a silent registered client is marked by 120 seconds plus 2G |
| Liveness.UnregisteredIsClosed | govord/Server.cpp:414-418 | a connection that never registers is marked within the registration timeout plus G, whatever it sends |
| Liveness.FieldsExact | govord/Server.cpp:404-434 | as long as a client is open, its fields say when it was heard, whether it has registered, and which ping is unanswered since when |
| Liveness.ReapExact | govord/Server.cpp:404-434 | a reap closes an open client exactly if it has not registered within a minute, or has left a ping unanswered for one, or its ping, due after a minute of silence, does not fit |
| Whowas.WhowasStore.Record | govord/Whowas.cpp:5-24 | a record pushes, trims the nick's history and evicts from the global order; the store stays the one that its log of records leads to |
| Whowas.WhowasStore.Lookup | govord/Whowas.cpp:26-32 | a lookup yields a nonempty history or nothing |
| Whowas.RunKeeps | govord/Whowas.cpp:5-24 | after any records the order is the keys of the newest 4096, and each history is a nonempty prefix of that nick's records, at most eight and at most its count in the order |
| Whowas.StoreBounded | govord/Whowas.cpp:15-23 | the entries of all histories together are at most 4096 |
| Whowas.ExactnessCondition | govord/Whowas.cpp:13-23 | lookups equal the window at every moment if and only if no nick occurs more than eight times in 4097 consecutive records |
| Whowas.UnnamedLeaveNoTrace | govord/Whowas.cpp:7 | clients without a nick can be struck from the log |
| Records.RenamesRecorded | govord/core/m_nick.cpp:33-36 | a line leaves a WHOWAS record exactly if it is a rename that takes place: one, of the client as it was |
| Records.SweepRecorded | govord/Server.cpp:388-402 | a sweep leaves exactly one record of each client that was marked, as it was |
| ServerState.LookupExact | govord/Server.cpp:442-457 | a nick lookup yields the one client with that nick under folding, or there is none |
| ServerState.NoStaleNick | govord/Server.cpp:448-457 | nickExists and findClientByNick agree: no entry leads to a client that is gone |
| ServerState.NoDanglingPointer | govord/Client.h:49 | every pointer on a client's list leads to a live channel stored under the fold of its name, with the client a member |
| Departures.HeirUnique | govord/Server.cpp:591-604 | the member with the smallest join sequence is unique, so set order cannot matter |
| Departures.BereftHasOperator | govord/Server.cpp:591-625 | a channel left by a member keeps its other operators, or is given the unique longest-standing member |
| Departures.LeaveKeeps | govord/Server.cpp:610-625 | leaving keeps the invariant, also when the channel is erased |
| Departures.LeaveOutcome | govord/Server.cpp:610-625 | the channel is gone exactly if the leaver was alone, else it has an operator; no other channel changes |
| Sweeps.PartWalkForm | govord/Server.cpp:498-535 | the walk over one's own list, channel by channel, equals one simultaneous departure |
| Sweeps.WalkMeetsScan | govord/Server.cpp:498-648 | JOIN 0 and the teardown scan end in the same channel table, but for invitations to channels the client is not on |
| Sweeps.PartAllKeeps | govord/Server.cpp:498-535 | JOIN 0 keeps the invariant |
| Sweeps.TeardownKeeps | govord/Server.cpp:388-402 | teardown keeps the invariant: nothing refers to the client any more |
| SweepOrder.GoneTwice | govord/Server.cpp:627-648 | removing members in two lots, with a succession in between, equals removing them at once |
| SweepOrder.SweepOrderIrrelevant | govord/Server.cpp:195-203 | tearing the same clients down in any order gives the same state |
| SweepOrder.TeardownOutcome | govord/Server.cpp:627-648 | a channel whose member is torn down is gone exactly if it was alone, else it has an operator |
| Registration.NickKeeps | govord/core/m_nick.cpp:10-57 | first nick, rename and case-only rename keep the invariant, the index bijection included |
| Registration.LastTokenDecides | govord/core/m_cap.cpp:172-175 | after a granted request a capability is on exactly if the last token naming it turns it on |
| Registration.ReqIsAtomic | govord/core/m_cap.cpp:141-175 | a refused request switches nothing, a granted one follows its last tokens |
| Registration.CapOnward | govord/core/m_cap.cpp:16-204 | no CAP command takes back registration, the 302 dialect or a sticky capability, or enables one that is not offered |
| Registration.NickUserOrder | govord/core/m_nick.cpp:54-56 | NICK and USER give the same state in either order, refusals and password failures included |
| Registration.NickCapEndOrder | govord/core/m_cap.cpp:178-184 | so do NICK and the end of negotiation |
| Registration.UserCapEndOrder | govord/core/m_user.cpp:7-49 | so do USER and the end of negotiation |
| Effects.CompletedDoes | govord/Server.cpp:480-496 | a client with nick and user that is not negotiating is registered if no password is set or its own is the same up to blocks of 256 NULs, and marked if not; either way the password is forgotten |
| Effects.NickDoes | govord/core/m_nick.cpp:18-57 | the client gets the nick as asked for exactly if it is well formed and nobody else has it under folding, case-only changes included; only a first nick can complete registration |
| Effects.UserDoes | govord/core/m_user.cpp:7-49 | the user name is the first parameter without leading tildes, the real name the fourth with spaces for line ends and NULs, cut to 200; nothing happens if the name is not valid or the client is registered |
| Effects.PassDoes | govord/core/m_pass.cpp:5-20 | the first parameter is remembered until registration |
| Effects.CapLsDoes | govord/core/m_cap.cpp:104-121 | LS opens a negotiation unless registered, and turns the 302 dialect on exactly if the version is a number from 302 on or starts with one above a million |
| Effects.CapReqDoes | govord/core/m_cap.cpp:138-175 | REQ opens one too; if every word is one of the two capabilities or takes back one that can be, the last word about each decides, else none changes |
| Effects.CapEndDoes | govord/core/m_cap.cpp:178-184 | END closes the negotiation, which can complete registration |
| Effects.CapClearDoes | govord/core/m_cap.cpp:186-200 | CLEAR turns everything off but cap-notify in the 302 dialect |
| Effects.CapOtherwise | govord/core/m_cap.cpp:90-204 | no other word after CAP changes anything |
| Standing.StepDevelops | govord/Server.cpp:151-211 | what any step means for a client that is there before and after it: closed, changed by its own line, or left as it is but for its channel list and the time of its last invitation |
| Standing.MarksExact | govord/Server.cpp:380-496 | over all steps, a client comes to be marked if and only if it is closed, says QUIT, or completes its registration with a wrong password |
| Standing.RegistersExact | govord/Server.cpp:480-496 | over all steps, an unmarked client comes to be registered if and only if it has become complete and no password is set or its own is right |
| Standing.AcceptDoes | govord/Server.cpp:213-245 | a connection gets the next id and all fields of a stranger, unless there are ten thousand |
| Standing.GoneExact | govord/Server.cpp:195-203 | over all steps, a client is gone exactly if it was marked and the step is a sweep |
| Standing.NewExact | govord/Server.cpp:213-245 | over all steps, a client is new exactly if it is the one just accepted |
| Standing.PasswordsForgotten | govord/Server.cpp:480-496 | in no run does the server hold the password of a registered client |
| Modes.LimitReadsBack | govord/core/m_mode.cpp:67-79 | printing and parsing a limit are inverse on 1 to 100000 |
| Modes.ParsePositiveLimit | govord/core/m_mode.cpp:67-79 | the loop computes the parse and accepts only 1 to 100000 |
| Modes.EffectReplays | govord/core/m_mode.cpp:166-265 | a change that is announced does the same again from the same channel; one that is not changes nothing |
| Modes.ModeLoopChains | govord/core/m_mode.cpp:139-268 | the announced list is a chain of effective changes from the old channel to the new |
| Modes.AnnouncementReplays | govord/core/m_mode.cpp:272-279 | interpreting the compressed announcement from the old channel gives the new channel, the same announcement, and uses up its arguments |
| Modes.RunModes | govord/core/m_mode.cpp:139-268 | the loop with its sign register and argument cursor computes the interpreter's result |
| Modes.ApplyMode | govord/core/m_mode.cpp:166-267 | the switch applies one letter: plus sets and minus clears a flag, the key, the limit, an operator, a voice or a ban, whatever was set before, and nothing else changes |
| ModeRequests.LoopGrants | govord/core/m_mode.cpp:139-268 | interpreting a mode list grants, one after the other, the requests that can be read from it without looking at the channel |
| ModeRequests.FlagsGranted | govord/core/m_mode.cpp:167-187 | the last request about i, t or m decides whether that flag is set in the end |
| ModeRequests.KeyGranted | govord/core/m_mode.cpp:188-200 | the last `-k` or `+k` with a key decides about the key |
| ModeRequests.ParseLimitExact | govord/core/m_mode.cpp:67-79 | a limit is accepted exactly if it is all digits and its value is from 1 to 100000, and is that value |
| ModeRequests.LimitGranted | govord/core/m_mode.cpp:201-215 | the last `-l` or `+l` with such a number decides about the limit |
| ModeRequests.VoicesGranted | govord/core/m_mode.cpp:233-249 | the last `+v` or `-v` that gives a member's nick decides whether it ends with voice |
| ModeRequests.OperatorsGranted | govord/core/m_mode.cpp:216-232 | and so for `+o` and `-o` |
| ModeRequests.BansGranted | govord/core/m_mode.cpp:250-266 | the last request about a mask decides: `-b` lifts the ban, `+b` sets it unless fifty others are set at that moment |
| ModeRequests.ModeDoes | govord/core/m_mode.cpp:92-286 | a MODE grants its requests exactly if it names an existing channel, has flags, comes from an operator, and does not just ask for the ban list; else it changes nothing |
| Modes.Announce | govord/core/m_mode.cpp:272-279 | the loop writes a sign only where it changes, and the nonempty arguments as text |
| Modes.ModeIs | govord/core/m_mode.cpp:29-39 | the text of the answer to a mode query |
| Modes.DescribeChannel | govord/core/m_mode.cpp:13-27 | the view lists the set flags and arguments, hiding the key from outsiders |
| Modes.OutsiderView | govord/core/m_mode.cpp:13-39 | an outsider is shown exactly what a member would be shown if the key were a star |
| Modes.ViewComplete | govord/core/m_mode.cpp:13-27 | fed to MODE on a channel with nothing set, the member view rebuilds flags, key and limit |
| Modes.BanUndone | govord/core/m_mode.cpp:250-265 | `+b` then `-b` restores the channel if and only if the mask was absent |
| Modes.ModeLoopKeeps | govord/core/m_mode.cpp:143-268 | MODE keeps the channel's invariant and never touches members, invitations or join order |
| Modes.ChainKeepsOperators | govord/core/m_mode.cpp:216-232 | without an announced `-o` no operator is lost |
| Membership.JoinKeeps | govord/core/m_join.cpp:6-132 | JOIN with any list, and JOIN 0, keep the invariant and all bounds |
| Membership.PartKeeps | govord/core/m_part.cpp:6-52 | PART keeps the invariant through channels that vanish under it |
| Membership.KickKeeps | govord/core/m_kick.cpp:6-62 | KICK keeps the invariant |
| Membership.InviteKeeps | govord/core/m_invite.cpp:33-56 | INVITE keeps the invariant: invited are live outsiders, at most 100 |
| Membership.ModeKeeps | govord/core/m_mode.cpp:92-286 | the MODE command keeps the invariant |
| Runs.GateHoldsBack | govord/govord.cpp:58-91 | an unregistered client reaches only the commands open before registration |
| Words.GateExact | govord/govord.cpp:58-91 | a command runs exactly if its word is said, in capitals or not, with enough parameters, and by a registered client or as one of the five open before |
| Words.GateRefusals | govord/govord.cpp:33-80 | which lines are ignored, held back and unknown, by the two lists of words |
| Words.JoinLine | govord/core/m_join.cpp:133 | the word JOIN of a registered client, with a parameter, runs JOIN on the parameters |
| Words.PartLine | govord/core/m_part.cpp:53 | PART runs PART |
| Words.KickLine | govord/core/m_kick.cpp:63 | KICK runs KICK |
| Words.InviteLine | govord/core/m_invite.cpp:96 | INVITE, with two parameters, runs INVITE |
| Words.ModeLine | govord/core/m_mode.cpp:287 | MODE runs MODE |
| Words.NickLine | govord/core/m_nick.cpp:59 | NICK, with a parameter, runs NICK on the first, registered or not |
| Words.UserLine | govord/core/m_user.cpp:50 | USER, with four, runs USER |
| Words.PassLine | govord/core/m_pass.cpp:21 | PASS runs PASS |
| Words.CapLine | govord/core/m_cap.cpp:205 | CAP, with a parameter, runs CAP |
| Words.QuitLine | govord/core/m_quit.cpp:48 | QUIT marks the client and changes nothing else |
| Words.OtherLine | govord/govord.cpp:58-91 | a line that gives none of these ten changes nothing |
| Runs.AcceptKeeps | govord/Server.cpp:213-245 | a new connection gets an unused id and keeps the invariant |
| Runs.StepKeeps | govord/Server.cpp:151-211 | every step of the server keeps the invariant |
| Runs.ReachableOk | govord/Server.cpp:151-211 | every state of every run satisfies the invariant |
| Histories.RunAdvances | govord/Server.cpp:480-496 | over any run registration, close marks and sticky capabilities are never taken back, only offered capabilities get enabled, and torn-down ids never return |
| Histories.RegisteredIffReady | govord/Server.cpp:480-496 | in every run a client that is not marked is registered if and only if it has a nick, a user and is not negotiating |
| Histories.NicksExact | govord/Server.cpp:442-467 | in every run the nick lookup finds exactly the client with that nick |
| Histories.StrangersTouchNothing | govord/govord.cpp:64-69 | a line from an unregistered client changes no channel and no other client |
| Histories.StepManned | govord/Server.cpp:591-648 | in a step without `-o`, channels that had an operator, are new or lost a member have one |
| Histories.StepSucceeded | govord/Server.cpp:610-648 | after any step at all, a channel that lost a member is gone or has an operator |
| Deposing.GrantedOperators | govord/core/m_mode.cpp:143-232 | which members are operators after a mode list is what the last change naming each of them says, read from the list without looking at the channel |
| Deposing.ModeDeposes | govord/core/m_mode.cpp:120-232 | a MODE command leaves a channel that had an operator without one if and only if it is no query, names the channel, comes from an operator, and makes no member operator in the end |
| Deposing.StepOperatorsExact | govord/Server.cpp:591-648 | over all steps, a channel has no operator afterwards if and only if it had none and lost nobody, or the step is such a MODE |
| Deposing.OperatorsForever | govord/core/m_join.cpp:79-82 | every channel has an operator at every moment of a run if and only if no MODE of the run deposes a last operator |
| Deposing.PeaceKeepsOperators | govord/core/m_mode.cpp:227-230 | a run in which no `-o` is announced is one of those |
| Histories.DeopLeavesNone | govord/core/m_mode.cpp:227-230 | a sole operator that deops itself leaves the channel without one |
| Wire.LineExact | shared/IrcMessage.cpp:129-142 | words written out with spaces read back as the parameters they were if and only if each is plain where it stands and the last ends in no CR or LF |
| Announcing.Announce | govord/core/m_mode.cpp:272-283 | the text of an announcement |
| Announcing.AnnouncementReadsBack | govord/core/m_mode.cpp:272-285 | an announcement is read as what it was meant to say if and only if its arguments are sendable |
| Announcing.ReceivedAnnouncement | govord/core/m_mode.cpp:281-285 | the sender in front and the CR LF behind change nothing about how it is read |
| Announcing.AnnouncementIsACommand | govord/core/m_mode.cpp:120-286 | the text that any MODE line announces, sent as a line by the same operator, is read back if and only if the arguments are sendable, and then does and announces the same |
| Announcing.SpacedKeyChanges | govord/core/m_mode.cpp:188-193 | a key with a space is set whole and announced, but the announcement sets only its first word |
| Announcing.ViewsComplete | govord/core/m_mode.cpp:29-39 | in every run the answer as it is sent, server name and CR LF included, is read as meant if and only if the key is sendable, and then rebuilds the settings |
| Histories.JoinThenPart | govord/core/m_join.cpp:79-85 | JOIN then PART restores everything but the invitation and the place counter if and only if the channel had an operator |
| Authority.LineLawful | govord/govord.cpp:58-91 | one line, however many names it lists, changes each existing channel in at most one lawful way: lets the sender in under a name of the list and with the key beside it, lets the sender go, removes whom an operator kicks, notes one invitation, or runs one operator's mode list; a new channel was named and has its founder as only member and operator |
| Authority.LineFrame | govord/govord.cpp:58-91 | a line leaves every channel alone that it does not name, JOIN 0 apart |
| Authority.EntryIsAuthorised | govord/core/m_join.cpp:30-85 | over all steps, nobody gets into an existing channel but registered, by the word JOIN, under one of the first ten names of its list, and either invited or, with the key at the same place, past every rule: no stored mask fits nick!user@host, not invite-only, no key or that one, no limit or fewer members |
| Authority.AdmitsExact | govord/core/m_join.cpp:50-72 | the rules for newcomers, spelled out; an invitation stands for all of them |
| Outcomes.EntryExact | govord/core/m_join.cpp:6-85 | over all steps, a client comes to be on a channel, new or not, if and only if it is registered and says JOIN with a list other than 0 in which the channel is among the first so many that open to it as it has slots left |
| Outcomes.EntryTerms | govord/core/m_join.cpp:79-85 | who comes in is the youngest member, its invitation is used up and nothing else changes; a new channel has its name as typed, nothing set, and its founder as only member and operator |
| Outcomes.PlacesKept | govord/Server.cpp:610-648 | over all steps, those who stay keep their places in the order of joining, newcomers come last, and an invitation lasts until its holder comes in or is gone |
| Outcomes.OfficeKept | govord/core/m_mode.cpp:216-232 | over all steps, an operator who stays loses the office only by an operator's MODE |
| Authority.ExitIsAuthorised | govord/core/m_kick.cpp:29-43 | over all steps, a member loses its place in a channel if and only if it says JOIN 0, or PART with a list that names the channel, or an operator of the channel says KICK with the channel and the member's nick, or the member is swept after a mark |
| Authority.SettingsAreAuthorised | govord/core/m_mode.cpp:134-137 | over all steps, modes, key, limit and bans change only by an operator's MODE, and so do the voices of those who stay |
| Authority.OperatorsAreAuthorised | govord/Server.cpp:591-608 | over all steps, a new operator was made by an operator's MODE, or is the first joined of those who stayed when no operator was left |
| Authority.InvitationsAreAuthorised | govord/core/m_invite.cpp:13-56 | over all steps, a new invitation is a member's INVITE (an operator's under +i), for a registered outsider, a second after the sender's `lastInviteAt` |
| InviteRate.InviteDoes | govord/core/m_invite.cpp:5-56 | an INVITE that passes every rule stamps its sender with the time, and invites the one it names unless a hundred are; any other changes nothing |
| InviteRate.InvitationExact | govord/core/m_invite.cpp:5-56 | over all steps, somebody comes to be invited if and only if by an INVITE that passes every rule while fewer than a hundred are invited |
| InviteRate.StampExact | govord/core/m_invite.cpp:43-48 | over all steps, `lastInviteAt` is set exactly by an INVITE that passes every rule, the full list apart, and to the time of that |
| InviteRate.AttemptsLieApart | govord/core/m_invite.cpp:43-48 | in any run, two attempts of one client that are counted, those that find the list full included, lie at least a second apart |
| Authority.RegistrationIsAuthorised | govord/Server.cpp:480-496 | over all steps, nobody is registered but by its own line and with a password that compares equal, if one is set |
| Authority.JoinExact | govord/core/m_join.cpp:22-85 | a JOIN list puts the client on exactly the first so many of the distinct channels that open to it, each judged before the list with the key beside the name, as it has slots left |
| Authority.PartExact | govord/core/m_part.cpp:23-51 | PART takes a client off exactly the channels its list names under folding, repeated names included |
| Authority.KickExact | govord/core/m_kick.cpp:16-61 | KICK takes a member off if and only if it names the channel, comes from one of its operators, and gives the member's nick under folding |
| Closing.CloseCommutes | govord/Server.cpp:339-386 | marking a client and handling a line commute, for every client and every line |
| Closing.MarkBetweenJoins | govord/core/m_join.cpp:30-131 | a mark set between two names of a JOIN list may as well come after the list |
| Closing.MarkBetweenParts | govord/core/m_part.cpp:23-51 | and so for a PART list |
| Closing.MarkBetweenStops | govord/Server.cpp:512-534 | and for the walk of JOIN 0, where a succession may set it |
| SweepMarks.SweepEnds | govord/Server.cpp:195-203 | a sweep whose announcements mark clients takes those marked before their turn with the rest and leaves those marked after it marked |
| SweepMarks.SweepAmidMarksIsRun | govord/Server.cpp:195-203 | so it is a run of steps: closes, a sweep, closes |
| Server.Server.AcceptOne | govord/Server.cpp:213-245 | the connection table and the id counter after one accept |
| Server.Server.CloseClient | govord/Server.cpp:380-386 | marks the client if it exists and changes nothing else |
| Server.Server.FindClientByNick | govord/Server.cpp:448-452 | the lookup through both tables |
| Server.Server.TryCompleteRegistration | govord/Server.cpp:480-496 | the guards, the password check and the clearing of the supplied password, in order: registered if complete with a right password or none set, marked if complete with a wrong one, untouched otherwise |
| Server.Server.PassCommand | govord/core/m_pass.cpp:5-20 | implements the PASS step |
| Server.Server.UserCommand | govord/core/m_user.cpp:7-49 | implements the USER step |
| Server.CleanRealname | govord/core/m_user.cpp:40-46 | the real name without control bytes, cut to length |
| Server.Server.CapCommand | govord/core/m_cap.cpp:90-204 | implements the CAP step |
| Server.SwitchCaps | govord/core/m_cap.cpp:145-175 | two loops: all tokens are judged before any is applied |
| Server.Server.NickCommand | govord/core/m_nick.cpp:10-57 | implements the NICK step; a rename records the old identity in the WHOWAS store and is sent once to everybody who shares a channel and to the client itself |
| Server.Server.CoMembers | govord/core/m_quit.cpp:32-38 | the nested loops over the client's list collect exactly those who share a channel with it |
| Server.Eldest | govord/Server.cpp:596-602 | the minimum loop finds the one heir, in whatever order the set is walked |
| Server.Server.SucceedOpIfNeeded | govord/Server.cpp:591-608 | appoints the heir if and only if the channel is populated and has no operator |
| Server.Server.RemoveClientFromChannel | govord/Server.cpp:610-625 | implements one departure |
| Server.Server.PartAllChannels | govord/Server.cpp:498-535 | implements JOIN 0; every pointer followed is live when it is followed |
| Server.Server.RemoveClientFromAllChannels | govord/Server.cpp:627-648 | implements the scan, with erasure after the loop |
| Server.Server.TeardownClient | govord/Server.cpp:388-402 | implements one teardown, and records the client in the WHOWAS store |
| Server.Server.SweepMarked | govord/Server.cpp:195-203 | in whatever order, the loop removes the clients that were marked and those that its own successions mark before their turn, marks those it reaches after theirs, and records the removed in that order |
| Server.Server.JoinOne | govord/core/m_join.cpp:30-85 | implements JOIN for one name: the client comes to be on the channel exactly if the name is valid, it has a slot left, and the channel is new or lets it in by its rules and has room |
| Server.Server.JoinCommand | govord/core/m_join.cpp:6-132 | implements the JOIN step with its list, keys and limit of ten |
| Server.Server.PartCommand | govord/core/m_part.cpp:6-52 | implements the PART step |
| Server.Server.KickCommand | govord/core/m_kick.cpp:6-62 | implements the KICK step |
| Server.Server.InviteCommand | govord/core/m_invite.cpp:5-56 | implements the INVITE step, rate limit before list limit, and stamps the sender exactly if the attempt counts |
| Server.Server.ModeCommand | govord/core/m_mode.cpp:92-286 | implements the MODE step, granting the requests of an operator's list in order, and yields the text it announces |
| Server.Server.QuitCommand | govord/core/m_quit.cpp:9-47 | implements the QUIT step; everybody who shares a channel, and nobody else, is told once |
| Server.Server.HandleLine | govord/govord.cpp:58-91 | parses, gates and dispatches one line by its word, keeping the invariant |
| Server.Server.Serve | govord/Server.cpp:151-211 | the event loop reaches the state of the run, and leaves in the WHOWAS store what the run's renames and teardowns put there |

## Left out

- TLS, sockets, polling and the handshake: reads are arbitrary chunks, writes take any number of bytes, a broken connection is a close step.
- The client program under govorirc and `formatOutbound`.
- The text of the other replies and numerics, MOTD, TOPIC, WHO, LIST, PRIVMSG and NOTICE: they change none of the tables modelled here; the topic fields are not part of a channel here.
- Close reasons, `awayMessage`, `isOper` and `Channel::banned`, which no modelled decision reads.
- Which bytes a send adds to a buffer: a send is a message of any length in `Framing`, and a possible close step in `Runs`.
- Overflow of the counters for client ids and join places; both are unbounded here.
- `setPassword`, which nothing calls while the server runs: the password is fixed for a run.
- Server.Server.TeardownClient: does not model the closing ERROR line, which is written past the send buffer without regard to whether it arrives.
- The clocks as such: the wall clock of WHOWAS records and the steady clock of timeouts are one argument, which the timing theorems require not to run backwards.
- The timing behaviour of the password comparison, which is about machine time and not values.
- That a marked client handles no further lines: it may handle one (`Framing.OneLineAfterMark`), and the steps of `Runs` let it.
