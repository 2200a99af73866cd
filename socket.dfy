// The socket handlers of backend/src/socket.ts. Each connection is a `Session` holding the
// address it authenticated as; the server keeps the `connectedUsers` map and the database.
// What a handler sends is returned as a list of emissions. Signature checking, date
// parsing, uuids, the clock and the quote request are parameters.
module Socket {
  import opened Wrappers
  import opened Seqs
  import opened Strings
  import opened Types
  import opened Db
  import opened Format
  import opened Polls

  /** What a handler sends: to every socket, to a channel's room, to its own socket, or
      the forced disconnect of its socket. */
  datatype Emission =
    | Broadcast(event: ServerEvent)
    | ToChannel(channelId: string, event: ServerEvent)
    | ToSocket(event: ServerEvent)
    | Disconnect

  datatype ConnectedUser = ConnectedUser(socketId: string, displayName: string)

  /** The outcome of `verifyMessage`: a verdict, or an exception. */
  datatype VerifyResult = Verified(valid: bool) | VerifyThrew

  // ---------------------------------------------------------------------------
  // SIWE freshness

  const IssuedAtLabel: string := "Issued At: "
  const SiweWindowMs: int := 300000

  /** The characters from `j` up to the next line terminator or the end. */
  function RestOfLine(s: string, j: nat): (r: string)
    requires j <= |s|
    ensures j + |r| <= |s| && r == s[j..j + |r|]
    ensures forall k :: 0 <= k < |r| ==> !IsLineTerminator(r[k])
    ensures j + |r| < |s| ==> IsLineTerminator(s[j + |r|])
    decreases |s| - j
  {
    if j == |s| || IsLineTerminator(s[j]) then ""
    else [s[j]] + RestOfLine(s, j + 1)
  }

  /** The capture of `/Issued At: (.+)$/m` searched from position `i` on: the first label
      followed by at least one character on its line, and the rest of that line. */
  function IssuedAtFrom(message: string, i: nat): (r: Option<string>)
    requires i <= |message|
    ensures r.Some? ==> r.value != [] && forall k :: 0 <= k < |r.value| ==> !IsLineTerminator(r.value[k])
    ensures r.Some? ==> exists p :: i <= p <= |message| && OccursAt(message, IssuedAtLabel + r.value, p)
    ensures (forall p :: i <= p <= |message| ==> !OccursAt(message, IssuedAtLabel, p)) ==> r.None?
    decreases |message| - i
  {
    if i + |IssuedAtLabel| >= |message| then None
    else if OccursAt(message, IssuedAtLabel, i) && !IsLineTerminator(message[i + |IssuedAtLabel|]) then
      var line := RestOfLine(message, i + |IssuedAtLabel|);
      assert message[i..i + |IssuedAtLabel + line|] == IssuedAtLabel + line;
      assert OccursAt(message, IssuedAtLabel + line, i);
      Some(line)
    else IssuedAtFrom(message, i + 1)
  }

  /** The capture of `/Issued At: (.+)$/m` in a SIWE message. */
  function IssuedAt(message: string): (r: Option<string>)
    ensures r.Some? ==> r.value != [] && Contains(message, IssuedAtLabel + r.value)
    ensures !Contains(message, IssuedAtLabel) ==> r.None?
  {
    IssuedAtFrom(message, 0)
  }

  /** True when the message carries an "Issued At" time, `parseDate` reads it as a time in
      milliseconds, and that time lies more than five minutes before `now`. */
  predicate SiweExpired(message: string, parseDate: string -> Option<int>, now: int)
    ensures SiweExpired(message, parseDate, now) ==> Contains(message, IssuedAtLabel)
  {
    var captured := IssuedAt(message);
    captured.Some? && parseDate(captured.value).Some? && now - parseDate(captured.value).value > SiweWindowMs
  }

  /** A message without an "Issued At: " label is never stale. */
  lemma NoIssuedAtNeverExpires(message: string, parseDate: string -> Option<int>, now: int)
    requires !Contains(message, IssuedAtLabel)
    ensures !SiweExpired(message, parseDate, now)
  {
  }

  /** The message sent before disconnecting a socket whose signature fails. */
  function VerificationFailedMessage(id: string, now: string): Message {
    Message(id, "general", "system", "System", false, System,
            Plain("Signature verification failed. Please reconnect."), map[], now)
  }

  // ---------------------------------------------------------------------------
  // Reactions

  /** `reactions[emoji] ?? []` on the parsed reactions object: the stored list, an empty
      one for an absent key, or None when the lookup lands on a member every object
      inherits, which is no list and makes the following `list.indexOf` throw. */
  function ReactionList(reactions: Reactions, emoji: string): (r: Option<seq<string>>)
    ensures r.None? <==> InheritedKey(reactions, emoji)
    ensures emoji in reactions ==> r == Some(reactions[emoji])
    ensures r.Some? && emoji !in reactions ==> r.value == []
  {
    if emoji in reactions then Some(reactions[emoji])
    else if emoji in ObjectPrototypeMembers then None
    else Some([])
  }

  /** The `message:react` toggle on a reactions map: an address already in the emoji's
      list loses its first entry ('remove'), any other is appended ('add'); None when the
      handler throws on an inherited member. */
  function ToggleReaction(reactions: Reactions, emoji: string, user: string): (r: Option<(Reactions, ReactionAction)>)
    ensures r.None? <==> InheritedKey(reactions, emoji)
    ensures r.Some? ==> r.value.0.Keys == reactions.Keys + {emoji}
    ensures r.Some? ==> forall e :: e in reactions && e != emoji ==> r.value.0[e] == reactions[e]
    ensures r.Some? ==> (r.value.1 == Remove <==> user in ReactionList(reactions, emoji).value)
    ensures r.Some? && r.value.1 == Add ==> r.value.0[emoji] == ReactionList(reactions, emoji).value + [user]
    ensures r.Some? && r.value.1 == Remove ==>
      var list := ReactionList(reactions, emoji).value;
      r.value.0[emoji] == RemoveAt(list, IndexOf(list, user))
  {
    match ReactionList(reactions, emoji)
    case None => None
    case Some(list) =>
      var idx := IndexOf(list, user);
      var action := if idx >= 0 then Remove else Add;
      var updated := if idx >= 0 then RemoveAt(list, idx) else list + [user];
      Some((reactions[emoji := updated], action))
  }

  /** Reaction lists without repeated addresses. */
  predicate ReactionsDistinct(reactions: Reactions) {
    forall e :: e in reactions ==> NoDuplicates(reactions[e])
  }

  /** Toggling never puts an address twice in one list. */
  lemma ToggleKeepsDistinct(reactions: Reactions, emoji: string, user: string)
    requires ReactionsDistinct(reactions)
    ensures ToggleReaction(reactions, emoji, user).Some? ==> ReactionsDistinct(ToggleReaction(reactions, emoji, user).value.0)
  {
    var toggled := ToggleReaction(reactions, emoji, user);
    if toggled.Some? {
      var list := ReactionList(reactions, emoji).value;
      if toggled.value.1 == Remove {
        RemoveFirstOfDistinct(list, user);
      } else {
        assert NoDuplicates(list + [user]);
      }
    }
  }

  /** Toggling twice restores the list: exactly, when the address was absent, and up to
      order, when it was present in a list without repeats. A toggle that goes through
      leaves the key stored, so the second one goes through too. */
  lemma ToggleTwice(reactions: Reactions, emoji: string, user: string)
    requires ReactionsDistinct(reactions)
    ensures var once := ToggleReaction(reactions, emoji, user);
      once.Some? ==>
        var list := ReactionList(reactions, emoji).value;
        var twice := ToggleReaction(once.value.0, emoji, user);
        && twice.Some?
        && twice.value.0.Keys == reactions.Keys + {emoji}
        && (user in twice.value.0[emoji] <==> user in list)
        && multiset(twice.value.0[emoji]) == multiset(list)
        && (user !in list ==> twice.value.0[emoji] == list)
  {
    var once := ToggleReaction(reactions, emoji, user);
    if once.Some? {
      var list := ReactionList(reactions, emoji).value;
      if user in list {
        RemoveFirstOfDistinct(list, user);
        var removed := RemoveAt(list, IndexOf(list, user));
        assert once.value.0[emoji] == removed;
        assert multiset(removed + [user]) == multiset(list);
      } else {
        var added := list + [user];
        assert once.value.0[emoji] == added;
        assert IndexOf(added, user) == |list|;
        assert RemoveAt(added, |list|) == list;
      }
    }
  }

  // ---------------------------------------------------------------------------
  // Slash commands

  /** A recognised slash command. */
  datatype SlashCommand =
    | SwapCommand(tokenIn: string, tokenOut: string, amount: string)
    | PollCommand(question: string, options: seq<string>)
    | NoCommand

  /** The index of the first '"' at position `j` or later. */
  function ClosingQuote(s: string, j: nat): (r: Option<nat>)
    requires j <= |s|
    ensures r.Some? ==> j <= r.value < |s| && s[r.value] == '"'
    ensures r.Some? ==> forall k :: j <= k < r.value ==> s[k] != '"'
    ensures r.None? ==> forall k :: j <= k < |s| ==> s[k] != '"'
    decreases |s| - j
  {
    if j == |s| then None
    else if s[j] == '"' then Some(j)
    else ClosingQuote(s, j + 1)
  }

  /** `rest.match(/^["](.+?)["](.*)$/)`: the question between the opening quote and the
      next quote after at least one character, and what follows; `.` matches no line
      terminator, so a line terminator anywhere defeats the match. */
  function QuotedQuestion(rest: string): (r: Option<(string, string)>)
    ensures r.Some? ==> rest == ['"'] + r.value.0 + ['"'] + r.value.1
    ensures r.Some? ==> r.value.0 != [] && '"' !in r.value.0[1..]
    ensures r.Some? ==> SingleLine(r.value.0) && SingleLine(r.value.1)
  {
    if |rest| < 3 || rest[0] != '"' || exists k :: 0 <= k < |rest| && IsLineTerminator(rest[k]) then None
    else
      match ClosingQuote(rest, 2)
      case None => None
      case Some(j) =>
        var q := rest[1..j];
        assert rest == ['"'] + q + ['"'] + rest[j + 1..];
        assert forall k :: 1 <= k < |q| ==> q[k] == rest[k + 1];
        assert forall k :: 0 <= k < |q| ==> q[k] == rest[k + 1];
        Some((q, rest[j + 1..]))
  }

  /** A quoted question with nothing else quoted in it is read back. */
  lemma QuotedQuestionRoundTrip(q: string, tail: string)
    requires q != [] && '"' !in q[1..]
    requires SingleLine(q) && SingleLine(tail)
    ensures QuotedQuestion(['"'] + q + ['"'] + tail) == Some((q, tail))
  {
    var rest := ['"'] + q + ['"'] + tail;
    assert rest[|q| + 1] == '"';
    forall k | 2 <= k < |q| + 1 ensures rest[k] != '"' {
      assert rest[k] == q[1..][k - 2];
    }
    assert rest[1..|q| + 1] == q;
    assert rest[|q| + 2..] == tail;
    forall k | 0 <= k < |rest| ensures !IsLineTerminator(rest[k]) {
      if 1 <= k < |q| + 1 { assert rest[k] == q[k - 1]; }
      else if k > |q| + 1 { assert rest[k] == tail[k - |q| - 2]; }
    }
  }

  /** Non-empty strings of a list, in order. */
  function KeepNonEmpty(parts: seq<string>): (r: seq<string>)
    ensures forall k :: 0 <= k < |r| ==> r[k] != [] && r[k] in parts
    ensures |r| <= |parts|
  {
    if parts == [] then []
    else (if parts[0] == [] then [] else [parts[0]]) + KeepNonEmpty(parts[1..])
  }

  /** Each part trimmed. */
  function TrimEach(parts: seq<string>): (r: seq<string>)
    ensures |r| == |parts| && forall k :: 0 <= k < |r| ==> r[k] == Trim(parts[k])
  {
    seq(|parts|, k requires 0 <= k < |parts| => Trim(parts[k]))
  }

  /** `optionsStr.split(',').map(o => o.trim()).filter(Boolean)`. */
  function PollOptions(s: string): (r: seq<string>)
    ensures forall k :: 0 <= k < |r| ==> r[k] != [] && ',' !in r[k]
    ensures forall k :: 0 <= k < |r| ==> !IsWhitespace(r[k][0]) && !IsWhitespace(r[k][|r[k]| - 1])
  {
    var parts := Split(s, ',');
    TrimKeepsOut(parts, ',');
    KeepNonEmpty(TrimEach(parts))
  }

  /** Trimming adds no character: what no part holds, no trimmed part holds. */
  lemma TrimKeepsOut(parts: seq<string>, c: char)
    requires forall k :: 0 <= k < |parts| ==> c !in parts[k]
    ensures forall k :: 0 <= k < |parts| ==> c !in TrimEach(parts)[k]
  {
    forall k | 0 <= k < |parts| ensures c !in TrimEach(parts)[k] {
      var t := TrimStart(parts[k]);
      assert forall x :: x in t ==> x in parts[k];
      assert forall x :: x in TrimEnd(t) ==> x in t;
    }
  }

  /** Options that are already trimmed, non-empty and free of commas are read back from
      their comma-joined text. */
  lemma {:induction false} PollOptionsRoundTrip(options: seq<string>)
    requires |options| >= 1
    requires forall k :: 0 <= k < |options| ==> options[k] != [] && ',' !in options[k] && Trim(options[k]) == options[k]
    ensures PollOptions(Join(options, ',')) == options
  {
    SplitJoin(options);
    var trimmed := TrimEach(options);
    assert trimmed == options;
    KeepAllNonEmpty(options);
  }

  /** Splitting comma-free parts after joining them gives the parts back. */
  lemma {:induction false} SplitJoin(parts: seq<string>)
    requires |parts| >= 1 && forall k :: 0 <= k < |parts| ==> ',' !in parts[k]
    ensures Split(Join(parts, ','), ',') == parts
  {
    if |parts| == 1 {
      SplitAt(parts[0], ',', "");
    } else {
      SplitJoin(parts[1..]);
      SplitAt(parts[0], ',', Join(parts[1..], ','));
      assert parts == [parts[0]] + parts[1..];
    }
  }

  lemma {:induction false} KeepAllNonEmpty(parts: seq<string>)
    requires forall k :: 0 <= k < |parts| ==> parts[k] != []
    ensures KeepNonEmpty(parts) == parts
  {
    if parts != [] {
      KeepAllNonEmpty(parts[1..]);
      assert parts == [parts[0]] + parts[1..];
    }
  }

  /** `handleSlashCommand`'s reading of a message: the words of the trimmed text, the first
      lower-cased as the command; `/swap` takes the next three words, `/poll` a quoted
      question after the first five characters and at least two comma-separated options. */
  function ParseSlashCommand(content: string): (r: SlashCommand)
    ensures var w := Words(content);
      r.SwapCommand? <==> Lower(w[0]) == "/swap" && |w| >= 4
    ensures var w := Words(content);
      r.SwapCommand? ==> r == SwapCommand(w[1], w[2], w[3])
    ensures var w := Words(content); var qq := QuotedQuestion(Trim(SliceFrom(content, 5)));
      r.PollCommand? <==> Lower(w[0]) == "/poll" && |w| >= 2 && qq.Some? && |PollOptions(Trim(qq.value.1))| >= 2
    ensures var qq := QuotedQuestion(Trim(SliceFrom(content, 5)));
      r.PollCommand? ==> qq.Some? && r.question == qq.value.0 && r.options == PollOptions(Trim(qq.value.1))
  {
    var parts := Words(content);
    var command := Lower(parts[0]);
    if command == "/swap" && |parts| >= 4 then SwapCommand(parts[1], parts[2], parts[3])
    else if command == "/poll" && |parts| >= 2 then
      match QuotedQuestion(Trim(SliceFrom(content, 5)))
      case None => NoCommand
      case Some((question, tail)) =>
        var options := PollOptions(Trim(tail));
        if |options| >= 2 then PollCommand(question, options) else NoCommand
    else NoCommand
  }
  /** The command `message:send` runs for a content: only a content starting with "/" is
      handed to `handleSlashCommand`. */
  function CommandOf(content: string): SlashCommand {
    if StartsWith(content, "/") then ParseSlashCommand(content) else NoCommand
  }


  /** Whitespace-free words joined by spaces, the first of them `/swap` in any case, are
      read back as the swap of the next three. */
  lemma SwapCommandRoundTrip(words: seq<string>)
    requires |words| >= 4 && Lower(words[0]) == "/swap"
    requires forall k :: 0 <= k < |words| ==> words[k] != [] && NoWhitespace(words[k])
    ensures ParseSlashCommand(Join(words, ' ')) == SwapCommand(words[1], words[2], words[3])
  {
    WordsOfJoin(words);
  }

  /** `/poll "question" a,b,...` is read back as that question and those options, for a
      single-line question with no quote after its first character and at least two
      trimmed, non-empty, single-line options without commas. */
  lemma PollCommandRoundTrip(q: string, options: seq<string>)
    requires q != [] && '"' !in q[1..] && SingleLine(q)
    requires |options| >= 2
    requires forall k :: 0 <= k < |options| ==>
      options[k] != [] && ',' !in options[k] && Trim(options[k]) == options[k] && SingleLine(options[k])
    ensures ParseSlashCommand("/poll \"" + q + "\" " + Join(options, ',')) == PollCommand(q, options)
  {
    var j := Join(options, ',');
    var tail := [' '] + j;
    var x := ['"'] + q + ['"'] + tail;
    PollText(q, j);
    OptionsTextEnds(options);
    QuotedEnds(q, j);
    PollCommandWords(x);
    SpacedTail(j);
    QuotedQuestionRoundTrip(q, tail);
    PollOptionsRoundTrip(options);
    ParsePollOf("/poll" + [' '] + x, q, tail, options);
  }

  /** A text whose first word is `/poll`, with another word, whose remainder after five
      characters is a quoted question and options text giving at least two options, is
      read as that poll. */
  lemma ParsePollOf(content: string, q: string, tail: string, options: seq<string>)
    requires Lower(Words(content)[0]) == "/poll" && |Words(content)| >= 2
    requires QuotedQuestion(Trim(SliceFrom(content, 5))) == Some((q, tail))
    requires PollOptions(Trim(tail)) == options && |options| >= 2
    ensures ParseSlashCommand(content) == PollCommand(q, options)
  {
  }

  /** The `/poll` text regrouped: "/poll", a space, and the quoted question with the rest. */
  lemma PollText(q: string, j: string)
    ensures "/poll \"" + q + "\" " + j == "/poll" + [' '] + (['"'] + q + ['"'] + ([' '] + j))
  {
  }

  /** Trimmed, non-empty, single-line options joined by commas neither start nor end with
      whitespace and are a single line. */
  lemma OptionsTextEnds(options: seq<string>)
    requires |options| >= 1
    requires forall k :: 0 <= k < |options| ==> options[k] != [] && Trim(options[k]) == options[k] && SingleLine(options[k])
    ensures var j := Join(options, ','); j != [] && !IsWhitespace(j[0]) && !IsWhitespace(j[|j| - 1]) && SingleLine(j)
  {
    JoinFirst(options, ',');
    JoinLast(options, ',');
    JoinSingleLine(options, ',');
    assert !IsWhitespace(options[0][0]);
    var last := options[|options| - 1];
    assert !IsWhitespace(last[|last| - 1]);
  }

  /** The quoted question and the options text start with the quote and end as the text. */
  lemma QuotedEnds(q: string, j: string)
    requires j != []
    ensures var x := ['"'] + q + ['"'] + ([' '] + j); x[0] == '"' && x[|x| - 1] == j[|j| - 1]
  {
  }

  /** The text "/poll " followed by `x`, which neither starts nor ends with whitespace:
      its first word is "/poll", another one follows, and its trimmed remainder after the
      first five characters is `x`. */
  lemma PollCommandWords(x: string)
    requires x != [] && !IsWhitespace(x[0]) && !IsWhitespace(x[|x| - 1])
    ensures var content := "/poll" + [' '] + x;
      Lower(Words(content)[0]) == "/poll" && |Words(content)| >= 2 && Trim(SliceFrom(content, 5)) == x
  {
    PollCommandHead(x);
    var content := "/poll" + [' '] + x;
    SliceFromInside(content, 5);
    assert content[5..] == [' '] + x;
    TrimStartDropsOne(' ', x);
    TrimKeeps(x);
  }

  /** The first word of `/poll x` is "/poll", and a second one follows. */
  lemma PollCommandHead(x: string)
    requires x != [] && !IsWhitespace(x[0]) && !IsWhitespace(x[|x| - 1])
    ensures var content := "/poll" + [' '] + x;
      Lower(Words(content)[0]) == "/poll" && |Words(content)| >= 2
  {
    var content := "/poll" + [' '] + x;
    assert content[|content| - 1] == x[|x| - 1];
    assert content[0] == '/' && !IsWhitespace('/');
    TrimKeeps(content);
    assert Words(content) == SplitOnWhitespace(content);
    PollKeyword();
    SplitSpaced("/poll", x);
  }

  /** "/poll" is one word and already lower-case. */
  lemma PollKeyword()
    ensures NoWhitespace("/poll") && Lower("/poll") == "/poll"
  {
    var p := "/poll";
    assert p[0] == '/' && p[1] == 'p' && p[2] == 'o' && p[3] == 'l' && p[4] == 'l';
    assert forall k :: 0 <= k < |p| ==> !IsWhitespace(p[k]) && LowerChar(p[k]) == p[k];
    assert Lower(p) == p;
  }

  /** A space before single-line text that neither starts nor ends with whitespace keeps
      it a single line, and trimming removes just that space. */
  lemma SpacedTail(j: string)
    requires j != [] && !IsWhitespace(j[0]) && !IsWhitespace(j[|j| - 1]) && SingleLine(j)
    ensures SingleLine([' '] + j) && Trim([' '] + j) == j
  {
    var tail := [' '] + j;
    forall k | 0 <= k < |tail| ensures !IsLineTerminator(tail[k]) {
      if k > 0 { assert tail[k] == j[k - 1]; }
    }
    TrimStartDropsOne(' ', j);
    TrimKeeps(j);
  }

  /** The `res.json()` of the backend's own quote route: an exception (fetch or JSON), or
      the status and the body read as a quote. */
  datatype QuoteFetch = QuoteThrew | QuoteReplied(ok: bool, body: Option<Quote>)

  /** The swap payload: upper-cased symbols, the amount as typed, and the quote only for a
      successful reply. */
  function SwapProposalContent(cmd: SlashCommand, reply: QuoteFetch): (c: Content)
    requires cmd.SwapCommand? && reply.QuoteReplied?
    ensures c.SwapPayload? && c.tokenIn == Upper(cmd.tokenIn) && c.tokenOut == Upper(cmd.tokenOut)
    ensures c.amount == cmd.amount
    ensures c.quote == if reply.ok then reply.body else None
  {
    SwapPayload(Upper(cmd.tokenIn), Upper(cmd.tokenOut), cmd.amount, if reply.ok then reply.body else None)
  }

  /** `connectedUsers.get(sender)?.displayName ?? sender.slice(0, 8)`. */
  function SenderName(connected: map<string, ConnectedUser>, sender: string): (r: string)
    ensures sender in connected ==> r == connected[sender].displayName
    ensures sender !in connected ==> |r| == Min(8, |sender|) && r == sender[..|r|]
  {
    if sender in connected then connected[sender].displayName else Slice(sender, 0, 8)
  }

  /** The outcome of a slash command on the stored messages and polls: what it emits,
      whether it threw out of `handleSlashCommand`, and how many uuids it drew. */
  datatype SlashOutcome = SlashOutcome(
    messages: seq<Message>,
    polls: map<string, Poll>,
    emissions: seq<Emission>,
    threw: bool,
    drawn: nat)

  /** `db.insert(messages).values(msg)` on the stored list: appended when its id is free,
      otherwise the insert throws and nothing is stored. */
  function Inserted(messages: seq<Message>, msg: Message): (r: seq<Message>)
    ensures messages <= r && |r| <= |messages| + 1
    ensures |r| == |messages| + 1 <==> FindMessage(messages, msg.id).None?
    ensures |r| == |messages| + 1 ==> r[|messages|] == msg
    ensures DistinctIds(messages) ==> DistinctIds(r)
  {
    if FindMessage(messages, msg.id).None? then
      (if DistinctIds(messages) then DistinctIdsAppend(messages, msg); messages + [msg] else messages + [msg])
    else messages
  }

  /** `io.to(m.channelId).emit('message:new', m)` for each message, in order. */
  function Announce(msgs: seq<Message>): (r: seq<Emission>)
    ensures |r| == |msgs|
    ensures forall k :: 0 <= k < |msgs| ==> r[k] == ToChannel(msgs[k].channelId, MessageNew(msgs[k]))
  {
    seq(|msgs|, k requires 0 <= k < |msgs| => ToChannel(msgs[k].channelId, MessageNew(msgs[k])))
  }

  lemma AnnounceAppend(a: seq<Message>, b: seq<Message>)
    ensures Announce(a + b) == Announce(a) + Announce(b)
  {
    assert forall k :: 0 <= k < |b| ==> (a + b)[|a| + k] == b[k];
  }

  /** The `/swap` proposal message. */
  function SwapMessage(connected: map<string, ConnectedUser>, channelId: string, sender: string,
                       cmd: SlashCommand, quote: QuoteFetch, id: string, now: string): Message
    requires cmd.SwapCommand? && quote.QuoteReplied?
  {
    Message(id, channelId, sender, SenderName(connected, sender), false, SwapProposal,
            SwapProposalContent(cmd, quote), map[], now)
  }

  /** The message announcing a `/poll` poll. */
  function PollMessageOf(connected: map<string, ConnectedUser>, channelId: string, sender: string,
                         poll: Poll, id: string, now: string): Message
  {
    Message(id, channelId, sender, SenderName(connected, sender), false, PollMessage, PollPayload(poll), map[], now)
  }

  /** The poll a `/poll` command creates: the sender as creator, uuid `next` as its id and
      the following ones for its options, each with no votes. */
  function SlashPoll(channelId: string, sender: string, cmd: SlashCommand, uuid: nat -> string, next: nat, now: string): (p: Poll)
    requires cmd.PollCommand?
    ensures p.id == uuid(next) && p.creator == sender && p.question == cmd.question
    ensures p.channelId == channelId && p.createdAt == now
    ensures |p.options| == |cmd.options|
    ensures forall k :: 0 <= k < |p.options| ==> p.options[k] == PollOption(uuid(next + k + 1), cmd.options[k], [])
  {
    var n := |cmd.options|;
    NewPoll(channelId, cmd.question, cmd.options, Some(sender), (k: nat) => if k == n then uuid(next) else uuid(next + k + 1), now)
  }

  /** The `/swap` branch: a quote request that throws is caught and nothing happens;
      otherwise the proposal takes the next uuid, and a taken id is caught as well. */
  function SwapEffect(messages: seq<Message>, polls: map<string, Poll>, connected: map<string, ConnectedUser>,
                      channelId: string, sender: string, cmd: SlashCommand, quote: QuoteFetch,
                      uuid: nat -> string, next: nat, now: string): SlashOutcome
    requires cmd.SwapCommand?
  {
    if quote.QuoteThrew? then SlashOutcome(messages, polls, [], false, 0)
    else
      var after := Inserted(messages, SwapMessage(connected, channelId, sender, cmd, quote, uuid(next), now));
      SlashOutcome(after, polls, Announce(after[|messages|..]), false, 1)
  }

  /** The `/poll` branch: the poll draws one uuid for itself and one per option; a taken
      poll id throws before its message is built, otherwise the poll is stored and its
      message takes the next uuid, a taken message id throwing in turn. Neither insert
      stands in a `try`. */
  function PollEffect(messages: seq<Message>, polls: map<string, Poll>, connected: map<string, ConnectedUser>,
                      channelId: string, sender: string, cmd: SlashCommand,
                      uuid: nat -> string, next: nat, now: string): SlashOutcome
    requires cmd.PollCommand?
  {
    var n := |cmd.options|;
    var poll := SlashPoll(channelId, sender, cmd, uuid, next, now);
    if poll.id in polls then SlashOutcome(messages, polls, [], true, n + 1)
    else
      var msg := PollMessageOf(connected, channelId, sender, poll, uuid(next + n + 1), now);
      var after := Inserted(messages, msg);
      SlashOutcome(after, polls[poll.id := poll], Announce(after[|messages|..]), FindMessage(messages, msg.id).Some?, n + 2)
  }

  /** The `/poll` branch once the poll id is known to be free. */
  lemma PollEffectPosted(messages: seq<Message>, polls: map<string, Poll>, connected: map<string, ConnectedUser>,
                         channelId: string, sender: string, cmd: SlashCommand,
                         uuid: nat -> string, next: nat, now: string, poll: Poll, msg: Message)
    requires cmd.PollCommand?
    requires poll == SlashPoll(channelId, sender, cmd, uuid, next, now) && poll.id !in polls
    requires msg == PollMessageOf(connected, channelId, sender, poll, uuid(next + |cmd.options| + 1), now)
    ensures var after := Inserted(messages, msg);
      PollEffect(messages, polls, connected, channelId, sender, cmd, uuid, next, now)
        == SlashOutcome(after, polls[poll.id := poll], Announce(after[|messages|..]),
                        FindMessage(messages, msg.id).Some?, |cmd.options| + 2)
  {
  }

  /** What `handleSlashCommand` does with a parsed command, drawing uuids from `next` on. */
  function SlashEffect(messages: seq<Message>, polls: map<string, Poll>, connected: map<string, ConnectedUser>,
                       channelId: string, sender: string, cmd: SlashCommand, quote: QuoteFetch,
                       uuid: nat -> string, next: nat, now: string): SlashOutcome
  {
    match cmd
    case SwapCommand(_, _, _) => SwapEffect(messages, polls, connected, channelId, sender, cmd, quote, uuid, next, now)
    case PollCommand(_, _) => PollEffect(messages, polls, connected, channelId, sender, cmd, uuid, next, now)
    case NoCommand => SlashOutcome(messages, polls, [], false, 0)
  }

  /** A slash command adds at most one message, and announces it: a `/swap` proposal once
      the quote is read and its id is free, a `/poll` message once both of its ids are
      free. Distinct ids stay distinct. */
  lemma SlashEffectMessages(messages: seq<Message>, polls: map<string, Poll>, connected: map<string, ConnectedUser>,
                            channelId: string, sender: string, cmd: SlashCommand, quote: QuoteFetch,
                            uuid: nat -> string, next: nat, now: string)
    ensures var r := SlashEffect(messages, polls, connected, channelId, sender, cmd, quote, uuid, next, now);
      && (messages <= r.messages && |r.messages| <= |messages| + 1)
      && (r.emissions == Announce(r.messages[|messages|..]))
      && (|r.messages| > |messages| <==>
        || (cmd.SwapCommand? && quote.QuoteReplied? && FindMessage(messages, uuid(next)).None?)
        || (cmd.PollCommand? && uuid(next) !in polls && FindMessage(messages, uuid(next + |cmd.options| + 1)).None?))
      && (DistinctIds(messages) ==> DistinctIds(r.messages))
  {
    var r := SlashEffect(messages, polls, connected, channelId, sender, cmd, quote, uuid, next, now);
    match cmd
    case SwapCommand(_, _, _) =>
      if quote.QuoteReplied? {
        assert r.messages == Inserted(messages, SwapMessage(connected, channelId, sender, cmd, quote, uuid(next), now));
      }
    case PollCommand(_, _) =>
      var poll := SlashPoll(channelId, sender, cmd, uuid, next, now);
      if uuid(next) !in polls {
        var m := PollMessageOf(connected, channelId, sender, poll, uuid(next + |cmd.options| + 1), now);
        assert r.messages == Inserted(messages, m);
      }
    case NoCommand =>
  }

  /** The message a slash command adds is the sender's, on the channel, at `now`: a `/swap`
      proposal under uuid `next`, or the `/poll` message under the uuid after the poll's. */
  lemma SlashEffectNewMessage(messages: seq<Message>, polls: map<string, Poll>, connected: map<string, ConnectedUser>,
                              channelId: string, sender: string, cmd: SlashCommand, quote: QuoteFetch,
                              uuid: nat -> string, next: nat, now: string)
    ensures var r := SlashEffect(messages, polls, connected, channelId, sender, cmd, quote, uuid, next, now);
      |r.messages| > |messages| ==>
        var m := r.messages[|messages|];
        && m.sender == sender && m.channelId == channelId && !m.isTwin && m.timestamp == now && m.reactions == map[]
        && (cmd.SwapCommand? ==> m.id == uuid(next) && m.kind == SwapProposal && m.content == SwapProposalContent(cmd, quote))
        && (cmd.PollCommand? ==> m.id == uuid(next + |cmd.options| + 1) && m.kind == PollMessage
                                 && m.content == PollPayload(SlashPoll(channelId, sender, cmd, uuid, next, now)))
  {
    match cmd
    case SwapCommand(_, _, _) =>
    case PollCommand(_, _) =>
    case NoCommand =>
  }

  /** Only `/poll` touches the polls, and only `/poll` can throw, exactly when one of its ids
      is taken; the uuids a command draws. */
  lemma SlashEffectPolls(messages: seq<Message>, polls: map<string, Poll>, connected: map<string, ConnectedUser>,
                         channelId: string, sender: string, cmd: SlashCommand, quote: QuoteFetch,
                         uuid: nat -> string, next: nat, now: string)
    ensures var r := SlashEffect(messages, polls, connected, channelId, sender, cmd, quote, uuid, next, now);
      && (r.threw <==> cmd.PollCommand? && (uuid(next) in polls || FindMessage(messages, uuid(next + |cmd.options| + 1)).Some?))
      && (cmd.PollCommand? && uuid(next) !in polls ==>
        r.polls == polls[uuid(next) := SlashPoll(channelId, sender, cmd, uuid, next, now)])
      && (!(cmd.PollCommand? && uuid(next) !in polls) ==> r.polls == polls)
      && (cmd.NoCommand? || (cmd.SwapCommand? && quote.QuoteThrew?) ==> r == SlashOutcome(messages, polls, [], false, 0))
      && (r.drawn == match cmd
        case NoCommand => 0
        case SwapCommand(_, _, _) => if quote.QuoteThrew? then 0 else 1
        case PollCommand(_, options) => |options| + if uuid(next) in polls then 1 else 2)
      && ((forall id :: id in polls ==> polls[id].id == id) ==> (forall id :: id in r.polls ==> r.polls[id].id == id))
  {
    var r := SlashEffect(messages, polls, connected, channelId, sender, cmd, quote, uuid, next, now);
    match cmd
    case SwapCommand(_, _, _) =>
      assert r.polls == polls && !r.threw;
    case PollCommand(_, _) =>
      assert r == PollEffect(messages, polls, connected, channelId, sender, cmd, uuid, next, now);
      var poll := SlashPoll(channelId, sender, cmd, uuid, next, now);
      var n := |cmd.options|;
      if uuid(next) in polls {
        assert r == SlashOutcome(messages, polls, [], true, n + 1);
      } else {
        var m := PollMessageOf(connected, channelId, sender, poll, uuid(next + n + 1), now);
        PollEffectPosted(messages, polls, connected, channelId, sender, cmd, uuid, next, now, poll, m);
        assert r.polls == polls[poll.id := poll] && r.drawn == n + 2;
        assert r.threw == FindMessage(messages, m.id).Some?;
      }
    case NoCommand =>
  }

  // ---------------------------------------------------------------------------
  // Twin responses

  /** One absent member's twin being asked, as `checkTwinResponses` sees it. The body it
      posts to the agent carries less than this record:
      - the message's content and sender name;
      - the config with its interests parsed;
      - the sender, content, twin flag and timestamp of each recent message;
      - the channel id and the member count.
      `owner` and `ownerName` are not sent. They feed only the twin reply's `sender` and
      `senderName`. */
  datatype TwinRequest = TwinRequest(
    owner: string,
    ownerName: string,
    message: Message,
    config: TwinConfigRow,
    recentMessages: seq<Message>,
    channelId: string,
    memberCount: nat)

  /** The agent's answer to one request: a thrown fetch or JSON body, or the status and the
      parsed `shouldRespond` and `response` fields. */
  datatype AgentReply = AgentThrew | AgentReplied(ok: bool, shouldRespond: bool, response: Option<string>)

  /** `res.ok`, then `shouldRespond && response`: the twin speaks only with a non-empty text. */
  predicate TwinSpeaks(reply: AgentReply) {
    reply.AgentReplied? && reply.ok && reply.shouldRespond && reply.response.Some? && reply.response.value != ""
  }

  /** One turn of the loop: the request, the agent's reply, and the message stored when the
      twin spoke and its id was free. */
  datatype TwinTurn = TwinTurn(request: TwinRequest, reply: AgentReply, posted: Option<Message>)

  /** What the twin loop depends on besides the channel and the message: the user and twin
      config rows (read afresh each turn, and not changed by the loop), whether `JSON.parse`
      accepts a text, the agent's answer to each request, the uuids and the clock. */
  datatype TwinEnv = TwinEnv(
    users: map<string, User>,
    configs: map<string, TwinConfigRow>,
    parsesAsJson: string -> bool,
    agent: TwinRequest -> AgentReply,
    uuid: nat -> string,
    now: string)

  /** The member rows of one channel, in stored order. */
  function ChannelRows(rows: seq<MemberRow>, channelId: string): (r: seq<MemberRow>)
    ensures forall m :: m in r <==> m in rows && m.channelId == channelId
  {
    if rows == [] then []
    else (if rows[0].channelId == channelId then [rows[0]] else []) + ChannelRows(rows[1..], channelId)
  }

  /** Whether the twin of `member` is asked to answer `message`: not the sender, a known
      user who is not online, with an enabled twin whose interests parse as JSON. */
  predicate TwinEligible(member: string, message: Message, users: map<string, User>,
                         configs: map<string, TwinConfigRow>, parsesAsJson: string -> bool)
    ensures TwinEligible(member, message, users, configs, parsesAsJson) ==>
      member in users && member in configs && configs[member].enabled && member != message.sender
  {
    && member != message.sender
    && member in users && users[member].status != Online
    && member in configs && configs[member].enabled
    && parsesAsJson(configs[member].interests)
  }

  /** The message a twin posts: under its owner's address and stored name, marked as a twin. */
  function TwinMessage(req: TwinRequest, response: string, id: string, now: string): (m: Message)
    ensures m.isTwin && m.kind == Text && m.sender == req.owner && m.channelId == req.channelId
    ensures m.content == Plain(response) && m.senderName == req.ownerName && m.id == id
  {
    Message(id, req.channelId, req.owner, req.ownerName, true, Text, Plain(response), map[], now)
  }

  /** The request for `owner`'s twin, with the channel's last 20 messages of `messages`. */
  function RequestFor(env: TwinEnv, owner: string, message: Message, channelId: string, memberCount: nat,
                      messages: seq<Message>): TwinRequest
    requires owner in env.users && owner in env.configs
  {
    TwinRequest(owner, env.users[owner].displayName, message, env.configs[owner],
                TakeLast(ChannelMessages(messages, channelId), 20), channelId, memberCount)
  }

  /** The agent answers; a twin that speaks stores its reply under `id` unless it is taken. */
  function TakeTurn(env: TwinEnv, req: TwinRequest, id: string, messages: seq<Message>): TwinTurn {
    var reply := env.agent(req);
    TwinTurn(req, reply,
             if TwinSpeaks(reply) && FindMessage(messages, id).None?
             then Some(TwinMessage(req, reply.response.value, id, env.now)) else None)
  }

  /** The uuids a turn draws: one, when its twin speaks. */
  function Draws(t: TwinTurn): nat {
    if TwinSpeaks(t.reply) then 1 else 0
  }

  /** The messages the turns stored, in order. */
  function PostedOf(turns: seq<TwinTurn>): seq<Message> {
    if turns == [] then []
    else (if turns[0].posted.Some? then [turns[0].posted.value] else []) + PostedOf(turns[1..])
  }

  /** The uuids the turns drew. */
  function Spoken(turns: seq<TwinTurn>): nat {
    if turns == [] then 0 else Draws(turns[0]) + Spoken(turns[1..])
  }

  lemma {:induction false} PostedOfAppend(a: seq<TwinTurn>, b: seq<TwinTurn>)
    ensures PostedOf(a + b) == PostedOf(a) + PostedOf(b)
    ensures Spoken(a + b) == Spoken(a) + Spoken(b)
  {
    if a == [] {
      assert a + b == b;
    } else {
      assert (a + b)[1..] == a[1..] + b;
      PostedOfAppend(a[1..], b);
    }
  }

  /** A single turn stores its posted message, if any, and draws its own uuids. */
  lemma PostedOfOne(t: TwinTurn)
    ensures PostedOf([t]) == if t.posted.Some? then [t.posted.value] else []
    ensures Spoken([t]) == Draws(t)
  {
    assert [t][1..] == [];
  }

  /** One step of the twin loop for a member, given the next unused uuid index and the
      stored messages: the member's turn, or None when the member is skipped. */
  type TurnStep = (string, nat, seq<Message>) -> Option<TwinTurn>

  /** A loop over `rows` that takes `step` for each member in order, drawing uuids from
      `next` on and letting each step see the messages the earlier steps stored. */
  function Turns(step: TurnStep, rows: seq<MemberRow>, next: nat, messages: seq<Message>): (r: seq<TwinTurn>)
    ensures |r| <= |rows|
    decreases |rows|
  {
    if rows == [] then []
    else
      match step(rows[0].userAddress, next, messages)
      case None => Turns(step, rows[1..], next, messages)
      case Some(t) => [t] + Turns(step, rows[1..], next + Draws(t), messages + PostedOf([t]))
  }

  /** The loop step at row `i`. */
  lemma TurnsStep(step: TurnStep, rows: seq<MemberRow>, i: nat, next: nat, messages: seq<Message>)
    requires i < |rows|
    ensures Turns(step, rows[i..], next, messages) ==
      match step(rows[i].userAddress, next, messages)
      case None => Turns(step, rows[i + 1..], next, messages)
      case Some(t) => [t] + Turns(step, rows[i + 1..], next + Draws(t), messages + PostedOf([t]))
  {
    assert rows[i..][1..] == rows[i + 1..];
  }

  /** `t` is what `step` gives for some row, at uuid index `next` with `messages` stored. */
  ghost predicate StepOfRow(step: TurnStep, rows: seq<MemberRow>, next: nat, messages: seq<Message>, t: TwinTurn) {
    exists i :: 0 <= i < |rows| && step(rows[i].userAddress, next, messages) == Some(t)
  }

  lemma StepOfRowTail(step: TurnStep, rows: seq<MemberRow>, next: nat, messages: seq<Message>, t: TwinTurn)
    requires rows != [] && StepOfRow(step, rows[1..], next, messages, t)
    ensures StepOfRow(step, rows, next, messages, t)
  {
    var i :| 0 <= i < |rows[1..]| && step(rows[1..][i].userAddress, next, messages) == Some(t);
    assert rows[i + 1] == rows[1..][i];
  }

  /** Turn `k` is the step of some row, taken with the uuids and messages the earlier turns
      left. */
  lemma {:induction false} TurnsAt(step: TurnStep, rows: seq<MemberRow>, next: nat, messages: seq<Message>, k: nat)
    requires k < |Turns(step, rows, next, messages)|
    ensures var turns := Turns(step, rows, next, messages);
      StepOfRow(step, rows, next + Spoken(turns[..k]), messages + PostedOf(turns[..k]), turns[k])
    decreases |rows|
  {
    var turns := Turns(step, rows, next, messages);
    if rows != [] {
      match step(rows[0].userAddress, next, messages)
      case None =>
        assert turns == Turns(step, rows[1..], next, messages);
        TurnsAt(step, rows[1..], next, messages, k);
        StepOfRowTail(step, rows, next + Spoken(turns[..k]), messages + PostedOf(turns[..k]), turns[k]);
      case Some(t) =>
        var next' := next + Draws(t);
        var messages' := messages + PostedOf([t]);
        var rest := Turns(step, rows[1..], next', messages');
        assert turns == [t] + rest;
        if k == 0 {
          assert turns[..0] == [];
          assert messages + PostedOf(turns[..0]) == messages;
          assert next + Spoken(turns[..0]) == next;
          assert step(rows[0].userAddress, next + Spoken(turns[..0]), messages + PostedOf(turns[..0])) == Some(turns[0]);
          assert StepOfRow(step, rows, next + Spoken(turns[..0]), messages + PostedOf(turns[..0]), turns[0]);
        } else {
          TurnsAt(step, rows[1..], next', messages', k - 1);
          assert turns[..k] == [t] + rest[..k - 1];
          PostedOfAppend([t], rest[..k - 1]);
          PostedOfOne(t);
          assert messages + PostedOf(turns[..k]) == messages' + PostedOf(rest[..k - 1]);
          assert next + Spoken(turns[..k]) == next' + Spoken(rest[..k - 1]);
          assert turns[k] == rest[k - 1];
          StepOfRowTail(step, rows, next + Spoken(turns[..k]), messages + PostedOf(turns[..k]), turns[k]);
        }
    }
  }


  /** A step that stores a message stores it on channel `c`. */
  ghost predicate PostsTo(step: TurnStep, c: string) {
    forall m, n, b :: step(m, n, b).Some? && step(m, n, b).value.posted.Some? ==> step(m, n, b).value.posted.value.channelId == c
  }

  /** A turn a step that posts to `c` gives stores only messages of channel `c`. */
  lemma PostedOfStepOn(step: TurnStep, c: string, m: string, n: nat, b: seq<Message>, t: TwinTurn)
    requires PostsTo(step, c) && step(m, n, b) == Some(t)
    ensures ChannelMessages(PostedOf([t]), c) == PostedOf([t])
  {
    PostedOfOne(t);
    if t.posted.Some? {
      ChannelMessagesSingle(t.posted.value, c);
    }
  }

  /** When every step posts to channel `c`, the replies of the first `k` turns are all on
      channel `c`. */
  lemma {:induction false} TurnsChannelLog(step: TurnStep, c: string, rows: seq<MemberRow>, next: nat,
                                           messages: seq<Message>, k: nat)
    requires PostsTo(step, c)
    requires k <= |Turns(step, rows, next, messages)|
    ensures var turns := Turns(step, rows, next, messages);
      ChannelMessages(PostedOf(turns[..k]), c) == PostedOf(turns[..k])
    decreases |rows|
  {
    var turns := Turns(step, rows, next, messages);
    if k == 0 {
      assert turns[..0] == [];
    } else if rows != [] {
      match step(rows[0].userAddress, next, messages)
      case None =>
        assert turns == Turns(step, rows[1..], next, messages);
        TurnsChannelLog(step, c, rows[1..], next, messages, k);
      case Some(t) =>
        var p := PostedOf([t]);
        var rest := Turns(step, rows[1..], next + Draws(t), messages + p);
        assert turns == [t] + rest;
        TurnsChannelLog(step, c, rows[1..], next + Draws(t), messages + p, k - 1);
        assert turns[..k] == [t] + rest[..k - 1];
        PostedOfAppend([t], rest[..k - 1]);
        PostedOfStepOn(step, c, rows[0].userAddress, next, messages, t);
        ChannelMessagesAppend(p, PostedOf(rest[..k - 1]), c);
    }
  }

  /** The step of `checkTwinResponses` for one member: an eligible member's twin is sent
      the channel's last 20 stored messages, and a twin that speaks takes uuid `next`. */
  function TwinStep(env: TwinEnv, message: Message, channelId: string, memberCount: nat): TurnStep {
    (m: string, next: nat, messages: seq<Message>) =>
      if TwinEligible(m, message, env.users, env.configs, env.parsesAsJson)
      then Some(TakeTurn(env, RequestFor(env, m, message, channelId, memberCount, messages), env.uuid(next), messages))
      else None
  }

  /** Turn `t` of the loop, taken at uuid index `n` with `before` stored: the turn of an
      eligible member named by the rows, whose twin is asked with the channel's last 20 of
      `before`, answered by the agent, and storing its reply under uuid `n` unless that id
      is taken. */
  ghost predicate TurnInContext(env: TwinEnv, message: Message, channelId: string, memberCount: nat,
                                rows: seq<MemberRow>, n: nat, before: seq<Message>, t: TwinTurn) {
    var owner := t.request.owner;
    && NamesMember(rows, owner)
    && TwinEligible(owner, message, env.users, env.configs, env.parsesAsJson)
    && t.request == TwinRequest(owner, env.users[owner].displayName, message, env.configs[owner],
                                TakeLast(ChannelMessages(before, channelId), 20), channelId, memberCount)
    && t.reply == env.agent(t.request)
    && t.posted == (if TwinSpeaks(t.reply) && FindMessage(before, env.uuid(n)).None?
                    then Some(TwinMessage(t.request, t.reply.response.value, env.uuid(n), env.now)) else None)
  }

  /** What the step gives for a member named by the rows is a turn in its context. */
  lemma TwinStepOfRow(env: TwinEnv, message: Message, channelId: string, memberCount: nat,
                      rows: seq<MemberRow>, n: nat, before: seq<Message>, t: TwinTurn)
    requires StepOfRow(TwinStep(env, message, channelId, memberCount), rows, n, before, t)
    ensures TurnInContext(env, message, channelId, memberCount, rows, n, before, t)
  {
    var step := TwinStep(env, message, channelId, memberCount);
    var i :| 0 <= i < |rows| && step(rows[i].userAddress, n, before) == Some(t);
    var m := rows[i].userAddress;
    assert step(m, n, before) == if TwinEligible(m, message, env.users, env.configs, env.parsesAsJson)
      then Some(TakeTurn(env, RequestFor(env, m, message, channelId, memberCount, before), env.uuid(n), before))
      else None;
  }

  /** Every twin reply of the loop goes to the loop's channel. */
  lemma TwinStepPostsTo(env: TwinEnv, message: Message, channelId: string, memberCount: nat)
    ensures PostsTo(TwinStep(env, message, channelId, memberCount), channelId)
  {
    var step := TwinStep(env, message, channelId, memberCount);
    forall m, n, b | step(m, n, b).Some? && step(m, n, b).value.posted.Some?
      ensures step(m, n, b).value.posted.value.channelId == channelId
    {
      assert step(m, n, b) == if TwinEligible(m, message, env.users, env.configs, env.parsesAsJson)
        then Some(TakeTurn(env, RequestFor(env, m, message, channelId, memberCount, b), env.uuid(n), b))
        else None;
    }
  }

  /** The loop of `checkTwinResponses` over `rows`, drawing uuids from `next` on, each turn
      reading the channel's last 20 of `messages` as they stand after the earlier turns. */
  function TwinTurns(env: TwinEnv, message: Message, channelId: string, memberCount: nat,
                     rows: seq<MemberRow>, next: nat, messages: seq<Message>): (r: seq<TwinTurn>)
    ensures |r| <= |rows|
  {
    Turns(TwinStep(env, message, channelId, memberCount), rows, next, messages)
  }

  /** The loop step: row `i` gives a turn when its member is eligible. */
  lemma TwinTurnsStep(env: TwinEnv, message: Message, channelId: string, memberCount: nat,
                      rows: seq<MemberRow>, i: nat, next: nat, messages: seq<Message>)
    requires i < |rows|
    ensures var m := rows[i].userAddress;
      TwinTurns(env, message, channelId, memberCount, rows[i..], next, messages) ==
        if TwinEligible(m, message, env.users, env.configs, env.parsesAsJson) then
          var t := TakeTurn(env, RequestFor(env, m, message, channelId, memberCount, messages), env.uuid(next), messages);
          [t] + TwinTurns(env, message, channelId, memberCount, rows[i + 1..], next + Draws(t), messages + PostedOf([t]))
        else TwinTurns(env, message, channelId, memberCount, rows[i + 1..], next, messages)
  {
    var step := TwinStep(env, message, channelId, memberCount);
    var m := rows[i].userAddress;
    TurnsStep(step, rows, i, next, messages);
    if TwinEligible(m, message, env.users, env.configs, env.parsesAsJson) {
      assert step(m, next, messages)
          == Some(TakeTurn(env, RequestFor(env, m, message, channelId, memberCount, messages), env.uuid(next), messages));
    } else {
      assert step(m, next, messages) == None;
    }
  }

  /** The loop after row `i` when its member is eligible: the member's turn, then the rest
      with one more uuid drawn if its twin spoke and its reply stored. */
  lemma TwinTurnsAdvance(env: TwinEnv, message: Message, channelId: string, memberCount: nat,
                         rows: seq<MemberRow>, i: nat, drawn: nat, before: seq<Message>, turns: seq<TwinTurn>, t: TwinTurn)
    requires i < |rows|
    requires TwinEligible(rows[i].userAddress, message, env.users, env.configs, env.parsesAsJson)
    requires t == TakeTurn(env, RequestFor(env, rows[i].userAddress, message, channelId, memberCount, before),
                           env.uuid(drawn), before)
    ensures turns + TwinTurns(env, message, channelId, memberCount, rows[i..], drawn, before)
         == (turns + [t]) + TwinTurns(env, message, channelId, memberCount, rows[i + 1..], drawn + Draws(t), before + PostedOf([t]))
  {
    TwinTurnsStep(env, message, channelId, memberCount, rows, i, drawn, before);
  }

  /** The loop after row `i` when its member is not eligible: the rest. */
  lemma TwinTurnsSkip(env: TwinEnv, message: Message, channelId: string, memberCount: nat,
                      rows: seq<MemberRow>, i: nat, drawn: nat, before: seq<Message>)
    requires i < |rows|
    requires !TwinEligible(rows[i].userAddress, message, env.users, env.configs, env.parsesAsJson)
    ensures TwinTurns(env, message, channelId, memberCount, rows[i..], drawn, before)
         == TwinTurns(env, message, channelId, memberCount, rows[i + 1..], drawn, before)
  {
    TwinTurnsStep(env, message, channelId, memberCount, rows, i, drawn, before);
  }

  /** Some row names `owner`. */
  predicate NamesMember(rows: seq<MemberRow>, owner: string) {
    exists i :: 0 <= i < |rows| && rows[i].userAddress == owner
  }

  /** Some turn asks `owner`'s twin. */
  predicate AsksTwin(turns: seq<TwinTurn>, owner: string) {
    exists k :: 0 <= k < |turns| && turns[k].request.owner == owner
  }

  lemma NamesMemberCons(rows: seq<MemberRow>, owner: string)
    requires rows != []
    ensures NamesMember(rows, owner) <==> rows[0].userAddress == owner || NamesMember(rows[1..], owner)
  {
    if NamesMember(rows, owner) && rows[0].userAddress != owner {
      var i :| 0 <= i < |rows| && rows[i].userAddress == owner;
      assert rows[1..][i - 1] == rows[i];
    }
    if NamesMember(rows[1..], owner) {
      var i :| 0 <= i < |rows[1..]| && rows[1..][i].userAddress == owner;
      assert rows[i + 1] == rows[1..][i];
    }
  }

  lemma AsksTwinCons(t: TwinTurn, rest: seq<TwinTurn>, owner: string)
    ensures AsksTwin([t] + rest, owner) <==> t.request.owner == owner || AsksTwin(rest, owner)
  {
    if AsksTwin([t] + rest, owner) && t.request.owner != owner {
      var k :| 0 <= k < |[t] + rest| && ([t] + rest)[k].request.owner == owner;
      assert rest[k - 1] == ([t] + rest)[k];
    }
    if AsksTwin(rest, owner) {
      var k :| 0 <= k < |rest| && rest[k].request.owner == owner;
      assert ([t] + rest)[k + 1] == rest[k];
    }
    if t.request.owner == owner {
      assert ([t] + rest)[0] == t;
    }
  }


  /** A member's twin is asked exactly when one of the rows names it and it is eligible. */
  lemma {:induction false} TwinTurnsExactly(env: TwinEnv, message: Message, channelId: string, memberCount: nat,
                                            rows: seq<MemberRow>, next: nat, messages: seq<Message>, owner: string)
    ensures AsksTwin(TwinTurns(env, message, channelId, memberCount, rows, next, messages), owner)
        <==> NamesMember(rows, owner) && TwinEligible(owner, message, env.users, env.configs, env.parsesAsJson)
    decreases |rows|
  {
    if rows != [] {
      NamesMemberCons(rows, owner);
      TwinTurnsStep(env, message, channelId, memberCount, rows, 0, next, messages);
      assert rows[0..] == rows;
      var m := rows[0].userAddress;
      if TwinEligible(m, message, env.users, env.configs, env.parsesAsJson) {
        var t := TakeTurn(env, RequestFor(env, m, message, channelId, memberCount, messages), env.uuid(next), messages);
        var rest := TwinTurns(env, message, channelId, memberCount, rows[1..], next + Draws(t), messages + PostedOf([t]));
        assert TwinTurns(env, message, channelId, memberCount, rows, next, messages) == [t] + rest;
        TwinTurnsExactly(env, message, channelId, memberCount, rows[1..], next + Draws(t), messages + PostedOf([t]), owner);
        AsksTwinCons(t, rest, owner);
      } else {
        assert TwinTurns(env, message, channelId, memberCount, rows, next, messages)
            == TwinTurns(env, message, channelId, memberCount, rows[1..], next, messages);
        TwinTurnsExactly(env, message, channelId, memberCount, rows[1..], next, messages, owner);
      }
    }
  }

  /** Turn `k` of the loop is in its context: the uuid index is the first the earlier
      turns did not draw, and the stored messages are the earlier turns' replies after
      those stored before the loop. */
  lemma TwinTurnsContext(env: TwinEnv, message: Message, channelId: string, memberCount: nat,
                         rows: seq<MemberRow>, next: nat, messages: seq<Message>, k: nat)
    requires k < |TwinTurns(env, message, channelId, memberCount, rows, next, messages)|
    ensures var turns := TwinTurns(env, message, channelId, memberCount, rows, next, messages);
      TurnInContext(env, message, channelId, memberCount, rows, next + Spoken(turns[..k]),
                    messages + PostedOf(turns[..k]), turns[k])
  {
    var step := TwinStep(env, message, channelId, memberCount);
    var turns := Turns(step, rows, next, messages);
    TurnsAt(step, rows, next, messages, k);
    TwinStepOfRow(env, message, channelId, memberCount, rows, next + Spoken(turns[..k]), messages + PostedOf(turns[..k]), turns[k]);
  }

  /** Turn `k`'s context is the last 20 of the channel's messages stored before the loop
      followed by the replies of the turns before it. */
  lemma TwinTurnsRecent(env: TwinEnv, message: Message, channelId: string, memberCount: nat,
                        rows: seq<MemberRow>, next: nat, messages: seq<Message>, k: nat)
    requires k < |TwinTurns(env, message, channelId, memberCount, rows, next, messages)|
    ensures var turns := TwinTurns(env, message, channelId, memberCount, rows, next, messages);
      turns[k].request.recentMessages == TakeLast(ChannelMessages(messages, channelId) + PostedOf(turns[..k]), 20)
  {
    var turns := TwinTurns(env, message, channelId, memberCount, rows, next, messages);
    TwinTurnsContext(env, message, channelId, memberCount, rows, next, messages, k);
    TwinStepPostsTo(env, message, channelId, memberCount);
    TurnsChannelLog(TwinStep(env, message, channelId, memberCount), channelId, rows, next, messages, k);
    ChannelMessagesAppend(messages, PostedOf(turns[..k]), channelId);
  }

  /** A reply one turn stores is the newest message the next turn's twin is shown. */
  lemma LaterTurnSeesReply(env: TwinEnv, message: Message, channelId: string, memberCount: nat,
                           rows: seq<MemberRow>, next: nat, messages: seq<Message>, k: nat)
    requires k + 1 < |TwinTurns(env, message, channelId, memberCount, rows, next, messages)|
    requires TwinTurns(env, message, channelId, memberCount, rows, next, messages)[k].posted.Some?
    ensures var turns := TwinTurns(env, message, channelId, memberCount, rows, next, messages);
      var recent := turns[k + 1].request.recentMessages;
      recent != [] && recent[|recent| - 1] == turns[k].posted.value
  {
    var turns := TwinTurns(env, message, channelId, memberCount, rows, next, messages);
    TwinTurnsRecent(env, message, channelId, memberCount, rows, next, messages, k + 1);
    assert turns[..k + 1] == turns[..k] + [turns[k]];
    PostedOfAppend(turns[..k], [turns[k]]);
    PostedOfOne(turns[k]);
    var s := ChannelMessages(messages, channelId) + PostedOf(turns[..k + 1]);
    assert s[|s| - 1] == turns[k].posted.value;
  }

  /** The turns `checkTwinResponses(channelId, message)` takes: none for a twin's message
      or one that is not text, otherwise one per eligible member row of the channel. */
  function ChannelTwinTurns(env: TwinEnv, channelMembers: seq<MemberRow>, channelId: string, message: Message,
                            next: nat, messages: seq<Message>): (r: seq<TwinTurn>)
    ensures message.isTwin || message.kind != Text ==> r == []
    ensures |r| <= |ChannelRows(channelMembers, channelId)|
  {
    if message.isTwin || message.kind != Text then []
    else
      var rows := ChannelRows(channelMembers, channelId);
      TwinTurns(env, message, channelId, |rows|, rows, next, messages)
  }

  /** What `message:send` leaves behind once `msg` is stored. */
  datatype ReplyOutcome = ReplyOutcome(
    messages: seq<Message>,
    polls: map<string, Poll>,
    emissions: seq<Emission>,
    twins: seq<TwinTurn>)

  /** What `message:send` does after storing `msg` among `messages`: it runs the slash
      command `cmd` with uuids from 1 on, and unless that threw, the channel's twins take
      their turns with the uuids after those, their replies stored and sent after the
      command's. */
  function Reply(env: TwinEnv, channelMembers: seq<MemberRow>, connected: map<string, ConnectedUser>,
                 messages: seq<Message>, polls: map<string, Poll>, msg: Message, cmd: SlashCommand,
                 quote: QuoteFetch): (r: ReplyOutcome)
    ensures var slash := SlashEffect(messages, polls, connected, msg.channelId, msg.sender, cmd, quote, env.uuid, 1, env.now);
      && (slash.threw ==> r.twins == [])
      && r.polls == slash.polls
      && r.messages == slash.messages + PostedOf(r.twins)
      && r.emissions == slash.emissions + Announce(PostedOf(r.twins))
  {
    var slash := SlashEffect(messages, polls, connected, msg.channelId, msg.sender, cmd, quote, env.uuid, 1, env.now);
    var twins := if slash.threw then []
                 else ChannelTwinTurns(env, channelMembers, msg.channelId, msg, 1 + slash.drawn, slash.messages);
    ReplyOutcome(slash.messages + PostedOf(twins), slash.polls, slash.emissions + Announce(PostedOf(twins)), twins)
  }

  /** `Reply` composed from a slash outcome and the twins' turns after it. */
  lemma ReplyOf(env: TwinEnv, channelMembers: seq<MemberRow>, connected: map<string, ConnectedUser>,
                messages: seq<Message>, polls: map<string, Poll>, msg: Message, cmd: SlashCommand,
                quote: QuoteFetch, slash: SlashOutcome, twins: seq<TwinTurn>)
    requires slash == SlashEffect(messages, polls, connected, msg.channelId, msg.sender, cmd, quote, env.uuid, 1, env.now)
    requires twins == if slash.threw then []
                      else ChannelTwinTurns(env, channelMembers, msg.channelId, msg, 1 + slash.drawn, slash.messages)
    ensures Reply(env, channelMembers, connected, messages, polls, msg, cmd, quote)
         == ReplyOutcome(slash.messages + PostedOf(twins), slash.polls, slash.emissions + Announce(PostedOf(twins)), twins)
  {
  }

  /** A member's twin is asked about a message exactly when the message is a person's
      text, the member belongs to the channel, and the member is eligible. */
  lemma ChannelTwinsExactly(env: TwinEnv, channelMembers: seq<MemberRow>, channelId: string, message: Message,
                            next: nat, messages: seq<Message>, owner: string)
    ensures AsksTwin(ChannelTwinTurns(env, channelMembers, channelId, message, next, messages), owner)
        <==> && !message.isTwin && message.kind == Text
             && MemberRow(channelId, owner) in channelMembers
             && TwinEligible(owner, message, env.users, env.configs, env.parsesAsJson)
  {
    if !message.isTwin && message.kind == Text {
      var rows := ChannelRows(channelMembers, channelId);
      TwinTurnsExactly(env, message, channelId, |rows|, rows, next, messages, owner);
      if NamesMember(rows, owner) {
        var i :| 0 <= i < |rows| && rows[i].userAddress == owner;
        assert rows[i] in rows;
      }
      if MemberRow(channelId, owner) in channelMembers {
        var i :| 0 <= i < |rows| && rows[i] == MemberRow(channelId, owner);
      }
    }
  }

  /** Twins never answer twins: a twin's message sets off no turns. */
  lemma TwinMessageAsksNoTwins(env: TwinEnv, channelMembers: seq<MemberRow>, req: TwinRequest, response: string,
                               id: string, now: string, next: nat, messages: seq<Message>)
    ensures ChannelTwinTurns(env, channelMembers, req.channelId, TwinMessage(req, response, id, now), next, messages) == []
  {
  }

  // ---------------------------------------------------------------------------
  // Channel members

  /** `getChannelMembers(channelId)`: the user row of each member row of the channel that
      has one (an inner join), so each member of the channel with a user row, and nobody
      else, appears. */
  function ChannelMembersOf(rows: seq<MemberRow>, users: map<string, User>, channelId: string): (r: seq<User>)
    ensures forall u :: u in r ==>
      (exists row :: row in rows && row.channelId == channelId && row.userAddress in users && users[row.userAddress] == u)
    ensures forall row :: row in rows && row.channelId == channelId && row.userAddress in users ==>
      users[row.userAddress] in r
  {
    if rows == [] then []
    else
      var rest := ChannelMembersOf(rows[1..], users, channelId);
      var head := if rows[0].channelId == channelId && rows[0].userAddress in users then [users[rows[0].userAddress]] else [];
      assert forall row :: row in rows[1..] ==> row in rows;
      assert forall row :: row in rows ==> row == rows[0] || row in rows[1..];
      head + rest
  }

  /** The user record broadcast on `user:join`: the generated name and 'online', with the
      stored row's twin flag and join time, or false and now for a new user. */
  function JoinedUser(users: map<string, User>, address: string, now: string): (u: User)
    ensures u.address == address && u.displayName == GenerateDisplayName(address) && u.status == Online
    ensures u.ensName.None? && u.avatarUrl.None?
    ensures u.twinEnabled == (address in users && users[address].twinEnabled)
    ensures u.joinedAt == if address in users then users[address].joinedAt else now
  {
    User(address, None, GenerateDisplayName(address), None, Online,
         if address in users then users[address].twinEnabled else false,
         if address in users then users[address].joinedAt else now)
  }

  /** The upsert of `user:authenticate`: an existing row only turns 'online'; a new row gets
      the generated name, 'online', no twin and joinedAt = now. */
  function UpsertOnline(users: map<string, User>, address: string, now: string): (r: map<string, User>)
    ensures r.Keys == users.Keys + {address}
    ensures forall a :: a in users && a != address ==> r[a] == users[a]
    ensures r[address].status == Online
    ensures address in users ==> r[address] == users[address].(status := Online)
    ensures address !in users ==> r[address] == User(address, None, GenerateDisplayName(address), None, Online, false, now)
  {
    if address in users then users[address := users[address].(status := Online)]
    else users[address := User(address, None, GenerateDisplayName(address), None, Online, false, now)]
  }

  /** The broadcast record of a new user is the row stored for it; for a known user it is
      the stored row with the generated name in place of the stored one, and without ENS
      name and avatar. */
  lemma JoinedUserIsStoredRow(users: map<string, User>, address: string, now: string)
    requires forall a :: a in users ==> users[a].address == a
    ensures address !in users ==> JoinedUser(users, address, now) == UpsertOnline(users, address, now)[address]
    ensures address in users ==>
      (JoinedUser(users, address, now)
         == UpsertOnline(users, address, now)[address].(displayName := GenerateDisplayName(address), ensName := None, avatarUrl := None))
  {
  }

  /** The status update of `user:status` and `disconnect`: a no-op for an unknown address. */
  function SetStatus(users: map<string, User>, address: string, status: Status): (r: map<string, User>)
    ensures r.Keys == users.Keys
    ensures forall a :: a in users ==> r[a] == if a == address then users[a].(status := status) else users[a]
  {
    if address in users then users[address := users[address].(status := status)] else users
  }

  // ---------------------------------------------------------------------------
  // Server state

  class Server {
    /** `connectedUsers`: address to socket id and generated name. */
    var connectedUsers: map<string, ConnectedUser>
    const db: Database

    constructor (db: Database)
      ensures this.db == db && connectedUsers == map[]
    {
      this.db := db;
      connectedUsers := map[];
    }

    /** `db.insert(messages).values(msg)` and then `message:new` to the message's channel:
        a taken id makes the insert throw before anything is sent, and `ok` is false.
        Whether that exception is caught is up to the caller. */
    method Post(msg: Message) returns (emissions: seq<Emission>, ok: bool)
      requires db.Valid()
      modifies db`messages
      ensures db.Valid()
      ensures ok <==> FindMessage(old(db.messages), msg.id).None?
      ensures db.messages == Inserted(old(db.messages), msg)
      ensures emissions == Announce(db.messages[|old(db.messages)|..])
    {
      ok := db.InsertMessage(msg);
      emissions := if ok then [ToChannel(msg.channelId, MessageNew(msg))] else [];
      assert db.messages[|old(db.messages)|..] == if ok then [msg] else [];
    }

    /** `handleSlashCommand(channelId, sender, content)`, drawing uuids from `next` on:
        what it stores and sends, whether it threw, and how many uuids it drew. */
    method HandleSlashCommand(channelId: string, sender: string, content: string, quote: QuoteFetch,
                              uuid: nat -> string, next: nat, now: string)
      returns (emissions: seq<Emission>, threw: bool, drawn: nat)
      requires db.Valid()
      modifies db`messages, db`polls
      ensures db.Valid()
      ensures SlashOutcome(db.messages, db.polls, emissions, threw, drawn)
           == SlashEffect(old(db.messages), old(db.polls), connectedUsers, channelId, sender,
                          ParseSlashCommand(content), quote, uuid, next, now)
    {
      emissions, threw, drawn := RunSlashCommand(channelId, sender, ParseSlashCommand(content), quote, uuid, next, now);
    }

    /** What a parsed slash command does. */
    method RunSlashCommand(channelId: string, sender: string, cmd: SlashCommand, quote: QuoteFetch,
                           uuid: nat -> string, next: nat, now: string)
      returns (emissions: seq<Emission>, threw: bool, drawn: nat)
      requires db.Valid()
      modifies db`messages, db`polls
      ensures db.Valid()
      ensures SlashOutcome(db.messages, db.polls, emissions, threw, drawn)
           == SlashEffect(old(db.messages), old(db.polls), connectedUsers, channelId, sender, cmd, quote, uuid, next, now)
    {
      match cmd
      case SwapCommand(_, _, _) =>
        emissions, threw, drawn := PostSwap(channelId, sender, cmd, quote, uuid, next, now);
      case PollCommand(_, _) =>
        emissions, threw, drawn := PostPoll(channelId, sender, cmd, uuid, next, now);
      case NoCommand =>
        emissions, threw, drawn := [], false, 0;
    }

    /** The `/swap` branch, all of it inside a `try`: once the quote reply is read, the
        proposal message takes the next uuid. */
    method PostSwap(channelId: string, sender: string, cmd: SlashCommand, quote: QuoteFetch,
                    uuid: nat -> string, next: nat, now: string)
      returns (emissions: seq<Emission>, threw: bool, drawn: nat)
      requires db.Valid() && cmd.SwapCommand?
      modifies db`messages
      ensures db.Valid()
      ensures SlashOutcome(db.messages, db.polls, emissions, threw, drawn)
           == SwapEffect(old(db.messages), db.polls, connectedUsers, channelId, sender, cmd, quote, uuid, next, now)
    {
      if quote.QuoteThrew? {
        return [], false, 0;
      }
      var ok;
      emissions, ok := Post(SwapMessage(connectedUsers, channelId, sender, cmd, quote, uuid(next), now));
      threw, drawn := false, 1;
    }

    /** The `/poll` branch: the poll is stored, then its message is posted; a taken id in
        either insert throws out of the handler. */
    method PostPoll(channelId: string, sender: string, cmd: SlashCommand, uuid: nat -> string, next: nat, now: string)
      returns (emissions: seq<Emission>, threw: bool, drawn: nat)
      requires db.Valid() && cmd.PollCommand?
      modifies db`messages, db`polls
      ensures db.Valid()
      ensures SlashOutcome(db.messages, db.polls, emissions, threw, drawn)
           == PollEffect(old(db.messages), old(db.polls), connectedUsers, channelId, sender, cmd, uuid, next, now)
    {
      var n := |cmd.options|;
      var poll := SlashPoll(channelId, sender, cmd, uuid, next, now);
      if poll.id in db.polls {
        return [], true, n + 1;
      }
      db.polls := db.polls[poll.id := poll];
      var msg := PollMessageOf(connectedUsers, channelId, sender, poll, uuid(next + n + 1), now);
      var ok;
      emissions, ok := Post(msg);
      threw, drawn := !ok, n + 2;
      PollEffectPosted(old(db.messages), old(db.polls), connectedUsers, channelId, sender, cmd, uuid, next, now, poll, msg);
    }

    /** `message:send` once the sender is known: `msg` is stored, and unless its id is taken
        (the insert throws and nothing else happens), it is sent to the channel and answered
        as `Reply` says. */
    method Send(env: TwinEnv, msg: Message, cmd: SlashCommand, quote: QuoteFetch)
      returns (emissions: seq<Emission>, twins: seq<TwinTurn>)
      requires db.Valid()
      requires env.users == db.users && env.configs == db.twinConfigs
      modifies db`messages, db`polls
      ensures db.Valid()
      ensures FindMessage(old(db.messages), msg.id).Some? ==>
        emissions == [] && twins == [] && db.messages == old(db.messages) && db.polls == old(db.polls)
      ensures FindMessage(old(db.messages), msg.id).None? ==>
        var r := Reply(env, db.channelMembers, connectedUsers, old(db.messages) + [msg], old(db.polls), msg, cmd, quote);
        && twins == r.twins && db.polls == r.polls && db.messages == r.messages
        && emissions == [ToChannel(msg.channelId, MessageNew(msg))] + r.emissions
    {
      emissions, twins := [], [];
      var ok := db.InsertMessage(msg);
      if !ok {
        return;
      }
      assert db.messages == old(db.messages) + [msg] && db.polls == old(db.polls);
      var more;
      more, twins := RespondTo(env, msg, cmd, quote);
      emissions := [ToChannel(msg.channelId, MessageNew(msg))] + more;
    }

    /** What `message:send` does after storing `msg`, as `Reply` says. */
    method RespondTo(env: TwinEnv, msg: Message, cmd: SlashCommand, quote: QuoteFetch)
      returns (emissions: seq<Emission>, twins: seq<TwinTurn>)
      requires db.Valid()
      requires env.users == db.users && env.configs == db.twinConfigs
      modifies db`messages, db`polls
      ensures db.Valid()
      ensures ReplyOutcome(db.messages, db.polls, emissions, twins)
           == Reply(env, db.channelMembers, connectedUsers, old(db.messages), old(db.polls), msg, cmd, quote)
    {
      var threw, drawn;
      twins := [];
      ghost var members, conn := db.channelMembers, connectedUsers;
      ghost var messages, polls := db.messages, db.polls;
      emissions, threw, drawn := RunSlashCommand(msg.channelId, msg.sender, cmd, quote, env.uuid, 1, env.now);
      ghost var slash := SlashOutcome(db.messages, db.polls, emissions, threw, drawn);
      if threw {
        ReplyOf(env, members, conn, messages, polls, msg, cmd, quote, slash, twins);
        return;
      }
      assert db.users == env.users && db.twinConfigs == env.configs && db.channelMembers == members;
      var later;
      twins, later := CheckTwinResponses(env, msg, msg.channelId, 1 + drawn);
      emissions := emissions + later;
      assert db.channelMembers == members;
      ReplyOf(env, members, conn, messages, polls, msg, cmd, quote, slash, twins);
    }

    /** `checkTwinResponses(channelId, message)`, drawing uuids from `next` on. */
    method CheckTwinResponses(env: TwinEnv, message: Message, channelId: string, next: nat)
      returns (turns: seq<TwinTurn>, emissions: seq<Emission>)
      requires db.Valid()
      requires env.users == db.users && env.configs == db.twinConfigs
      modifies db`messages
      ensures db.Valid()
      ensures turns == ChannelTwinTurns(env, db.channelMembers, channelId, message, next, old(db.messages))
      ensures db.messages == old(db.messages) + PostedOf(turns)
      ensures emissions == Announce(PostedOf(turns))
    {
      if message.isTwin || message.kind != Text {
        return [], [];
      }
      var rows := ChannelRows(db.channelMembers, channelId);
      turns, emissions := AskTwins(env, message, channelId, |rows|, rows, next);
    }

    /** One turn of the loop for an eligible `member`: its twin is asked with the channel's
        last 20 stored messages, and a twin that speaks has its reply stored under uuid
        `drawn` and sent to the channel, unless that id is taken. */
    method TakeTwinTurn(env: TwinEnv, message: Message, channelId: string, memberCount: nat, member: string, drawn: nat)
      returns (t: TwinTurn, emissions: seq<Emission>)
      requires db.Valid()
      requires env.users == db.users && env.configs == db.twinConfigs
      requires member in db.users && member in db.twinConfigs
      modifies db`messages
      ensures db.Valid()
      ensures t == TakeTurn(env, RequestFor(env, member, message, channelId, memberCount, old(db.messages)),
                            env.uuid(drawn), old(db.messages))
      ensures db.messages == old(db.messages) + PostedOf([t])
      ensures emissions == Announce(PostedOf([t]))
    {
      var recent := TakeLast(ChannelMessages(db.messages, channelId), 20);
      var req := TwinRequest(member, db.users[member].displayName, message, db.twinConfigs[member],
                             recent, channelId, memberCount);
      var reply := env.agent(req);
      var posted: Option<Message> := None;
      emissions := [];
      if TwinSpeaks(reply) {
        var msg := TwinMessage(req, reply.response.value, env.uuid(drawn), env.now);
        var ok;
        emissions, ok := Post(msg);
        posted := if ok then Some(msg) else None;
      }
      t := TwinTurn(req, reply, posted);
      PostedOfOne(t);
    }

    /** The loop of `checkTwinResponses` over the channel's member rows: each eligible
        member's twin is asked with the channel's last 20 messages read at that turn, and a
        twin that speaks has its reply stored and sent to the channel (after a delay, not
        modelled); a taken id throws into the turn's `catch`. */
    method AskTwins(env: TwinEnv, message: Message, channelId: string, memberCount: nat, rows: seq<MemberRow>, next: nat)
      returns (turns: seq<TwinTurn>, emissions: seq<Emission>)
      requires db.Valid()
      requires env.users == db.users && env.configs == db.twinConfigs
      modifies db`messages
      ensures db.Valid()
      ensures turns == TwinTurns(env, message, channelId, memberCount, rows, next, old(db.messages))
      ensures db.messages == old(db.messages) + PostedOf(turns)
      ensures emissions == Announce(PostedOf(turns))
    {
      turns, emissions := [], [];
      var drawn: nat := next;
      var i := 0;
      assert rows[0..] == rows;
      assert old(db.messages) + [] == old(db.messages);
      while i < |rows|
        invariant 0 <= i <= |rows|
        invariant db.Valid()
        invariant db.messages == old(db.messages) + PostedOf(turns)
        invariant emissions == Announce(PostedOf(turns))
        invariant turns + TwinTurns(env, message, channelId, memberCount, rows[i..], drawn, db.messages)
               == TwinTurns(env, message, channelId, memberCount, rows, next, old(db.messages))
      {
        var member := rows[i].userAddress;
        if TwinEligible(member, message, db.users, db.twinConfigs, env.parsesAsJson) {
          ghost var before := db.messages;
          var t, more := TakeTwinTurn(env, message, channelId, memberCount, member, drawn);
          TwinTurnsAdvance(env, message, channelId, memberCount, rows, i, drawn, before, turns, t);
          PostedOfAppend(turns, [t]);
          AnnounceAppend(PostedOf(turns), PostedOf([t]));
          turns, emissions, drawn := turns + [t], emissions + more, drawn + Draws(t);
        } else {
          TwinTurnsSkip(env, message, channelId, memberCount, rows, i, drawn, db.messages);
        }
        i := i + 1;
      }
      assert rows[|rows|..] == [];
    }
  }

  // ---------------------------------------------------------------------------
  // Connections

  class Session {
    const socketId: string
    const server: Server
    /** The closure variable `userAddress`: set once `user:authenticate` succeeds. */
    var userAddress: Option<string>

    constructor (socketId: string, server: Server)
      ensures this.socketId == socketId && this.server == server && userAddress == None
    {
      this.socketId := socketId;
      this.server := server;
      userAddress := None;
    }

    /** `user:authenticate`: a failed or thrown verification, or a stale "Issued At" time,
        disconnects the socket and changes nothing; otherwise the session takes the address,
        the user is marked connected and online, and `user:join` is broadcast. */
    method Authenticate(address: string, message: string, verify: VerifyResult,
                        parseDate: string -> Option<int>, nowMs: int, now: string, uuid: string)
      returns (emissions: seq<Emission>)
      requires server.db.Valid()
      modifies this`userAddress, server`connectedUsers, server.db`users
      ensures server.db.Valid()
      ensures verify.VerifyThrew? || (verify.Verified? && verify.valid && SiweExpired(message, parseDate, nowMs)) ==>
        && emissions == [Disconnect]
        && userAddress == old(userAddress) && server.connectedUsers == old(server.connectedUsers)
        && server.db.users == old(server.db.users)
      ensures verify == Verified(false) ==>
        && emissions == [ToSocket(MessageNew(VerificationFailedMessage(uuid, now))), Disconnect]
        && userAddress == old(userAddress) && server.connectedUsers == old(server.connectedUsers)
        && server.db.users == old(server.db.users)
      ensures verify == Verified(true) && !SiweExpired(message, parseDate, nowMs) ==>
        && userAddress == Some(address)
        && server.connectedUsers == old(server.connectedUsers)[address := ConnectedUser(socketId, GenerateDisplayName(address))]
        && server.db.users == UpsertOnline(old(server.db.users), address, now)
        && emissions == [Broadcast(UserJoin(JoinedUser(old(server.db.users), address, now)))]
    {
      if verify.VerifyThrew? {
        return [Disconnect];
      }
      if !verify.valid {
        return [ToSocket(MessageNew(VerificationFailedMessage(uuid, now))), Disconnect];
      }
      if SiweExpired(message, parseDate, nowMs) {
        return [Disconnect];
      }
      userAddress := Some(address);
      var displayName := GenerateDisplayName(address);
      server.connectedUsers := server.connectedUsers[address := ConnectedUser(socketId, displayName)];
      var user := JoinedUser(server.db.users, address, now);
      server.db.users := UpsertOnline(server.db.users, address, now);
      emissions := [Broadcast(UserJoin(user))];
    }

    /** `channel:join`: an authenticated user is added to the channel once and sent the
        channel's members. */
    method ChannelJoin(channelId: string) returns (emissions: seq<Emission>)
      requires server.db.Valid()
      modifies server.db`channelMembers
      ensures server.db.Valid()
      ensures userAddress.None? ==> emissions == [] && server.db.channelMembers == old(server.db.channelMembers)
      ensures userAddress.Some? ==>
        var row := MemberRow(channelId, userAddress.value);
        && server.db.channelMembers == (if row in old(server.db.channelMembers) then old(server.db.channelMembers)
                                       else old(server.db.channelMembers) + [row])
        && emissions == [ToSocket(ChannelMembers(channelId, ChannelMembersOf(server.db.channelMembers, server.db.users, channelId)))]
    {
      if userAddress.None? {
        return [];
      }
      var row := MemberRow(channelId, userAddress.value);
      if row !in server.db.channelMembers {
        server.db.channelMembers := server.db.channelMembers + [row];
      }
      emissions := [ToSocket(ChannelMembers(channelId, ChannelMembersOf(server.db.channelMembers, server.db.users, channelId)))];
    }

    /** `message:send`: an authenticated user's message takes uuid 0, is stored and sent to
        the channel; a leading '/' runs the slash command with the uuids from 1 on, and
        unless that threw, the twins are asked with the uuids after the command's. */
    method SendMessage(channelId: string, content: string, kind: Option<MessageType>, quote: QuoteFetch,
                       agent: TwinRequest -> AgentReply, uuid: nat -> string, now: string, parsesAsJson: string -> bool)
      returns (emissions: seq<Emission>, twins: seq<TwinTurn>)
      requires server.db.Valid()
      modifies server.db`messages, server.db`polls
      ensures server.db.Valid()
      ensures userAddress.None? ==>
        emissions == [] && twins == [] && server.db.messages == old(server.db.messages) && server.db.polls == old(server.db.polls)
      ensures userAddress.Some? ==>
        var sender := userAddress.value;
        var msg := Message(uuid(0), channelId, sender, SenderName(server.connectedUsers, sender),
                           false, kind.GetOr(Text), Plain(content), map[], now);
        if FindMessage(old(server.db.messages), msg.id).Some? then
          emissions == [] && twins == [] && server.db.messages == old(server.db.messages) && server.db.polls == old(server.db.polls)
        else
          var env := TwinEnv(server.db.users, server.db.twinConfigs, parsesAsJson, agent, uuid, now);
          var r := Reply(env, server.db.channelMembers, server.connectedUsers, old(server.db.messages) + [msg],
                         old(server.db.polls), msg, CommandOf(content), quote);
          && twins == r.twins && server.db.polls == r.polls && server.db.messages == r.messages
          && emissions == [ToChannel(channelId, MessageNew(msg))] + r.emissions
    {
      emissions, twins := [], [];
      if userAddress.None? {
        return;
      }
      var sender := userAddress.value;
      var msg := Message(uuid(0), channelId, sender, SenderName(server.connectedUsers, sender),
                         false, kind.GetOr(Text), Plain(content), map[], now);
      var env := TwinEnv(server.db.users, server.db.twinConfigs, parsesAsJson, agent, uuid, now);
      ghost var members := server.db.channelMembers;
      emissions, twins := server.Send(env, msg, CommandOf(content), quote);
      assert server.db.users == env.users && server.db.twinConfigs == env.configs;
      assert server.db.channelMembers == members;
    }

    /** `message:react`: an authenticated user toggles their entry under `emoji` on a stored
        message, and the channel hears which way it went; an emoji naming an inherited
        member makes the handler throw before anything is written. */
    method React(messageId: string, emoji: string) returns (emissions: seq<Emission>)
      requires server.db.Valid()
      modifies server.db`messages
      ensures server.db.Valid()
      ensures userAddress.None? || FindMessage(old(server.db.messages), messageId).None? ==>
        emissions == [] && server.db.messages == old(server.db.messages)
      ensures userAddress.Some? && FindMessage(old(server.db.messages), messageId).Some? ==>
        var k := FindMessage(old(server.db.messages), messageId).value;
        var msg := old(server.db.messages)[k];
        var toggled := ToggleReaction(msg.reactions, emoji, userAddress.value);
        if toggled.None? then emissions == [] && server.db.messages == old(server.db.messages)
        else
          && server.db.messages == old(server.db.messages)[k := msg.(reactions := toggled.value.0)]
          && emissions == [ToChannel(msg.channelId, MessageReaction(messageId, emoji, userAddress.value, toggled.value.1))]
    {
      if userAddress.None? {
        return [];
      }
      var found := FindMessage(server.db.messages, messageId);
      if found.None? {
        return [];
      }
      var k := found.value;
      var msg := server.db.messages[k];
      var toggled := ToggleReaction(msg.reactions, emoji, userAddress.value);
      if toggled.None? {
        return [];
      }
      DistinctIdsUpdate(server.db.messages, k, msg.(reactions := toggled.value.0));
      server.db.messages := server.db.messages[k := msg.(reactions := toggled.value.0)];
      emissions := [ToChannel(msg.channelId, MessageReaction(messageId, emoji, userAddress.value, toggled.value.1))];
    }

    /** `user:status`: an authenticated user's status is stored and broadcast. */
    method UpdateStatus(status: Status) returns (emissions: seq<Emission>)
      requires server.db.Valid()
      modifies server.db`users
      ensures server.db.Valid()
      ensures userAddress.None? ==> emissions == [] && server.db.users == old(server.db.users)
      ensures userAddress.Some? ==>
        && server.db.users == SetStatus(old(server.db.users), userAddress.value, status)
        && emissions == [Broadcast(UserStatus(userAddress.value, status))]
    {
      if userAddress.None? {
        return [];
      }
      server.db.users := SetStatus(server.db.users, userAddress.value, status);
      emissions := [Broadcast(UserStatus(userAddress.value, status))];
    }

    /** `disconnect`: an authenticated user leaves `connectedUsers`, goes offline and
        `user:leave` is broadcast. */
    method OnDisconnect() returns (emissions: seq<Emission>)
      requires server.db.Valid()
      modifies server`connectedUsers, server.db`users
      ensures server.db.Valid()
      ensures userAddress.None? ==>
        emissions == [] && server.db.users == old(server.db.users) && server.connectedUsers == old(server.connectedUsers)
      ensures userAddress.Some? ==>
        && server.connectedUsers == old(server.connectedUsers) - {userAddress.value}
        && server.db.users == SetStatus(old(server.db.users), userAddress.value, Offline)
        && emissions == [Broadcast(UserLeave(userAddress.value))]
    {
      if userAddress.None? {
        return [];
      }
      var a := userAddress.value;
      server.connectedUsers := server.connectedUsers - {a};
      server.db.users := SetStatus(server.db.users, a, Offline);
      emissions := [Broadcast(UserLeave(a))];
    }
  }
}
