// The AI twin's decision and prompt assembly (ai-agent/src/twin-brain.ts): whether a
// twin answers a message, the system prompt with its defaults, and the conversation
// history sent along with the new message.
module TwinBrain {
  import opened Wrappers
  import opened Seqs
  import opened Strings

  /** The agent's view of a twin config. The cap is taken to be a whole number of dollars. */
  datatype AgentConfig = AgentConfig(
    ownerAddress: string,
    ownerDisplayName: Option<string>,
    personality: string,
    interests: string,
    responseStyle: string,
    autonomousCapUsd: int)

  /** One recent message, as the agent receives it. */
  datatype MessageContext = MessageContext(
    sender: string,
    content: string,
    isTwin: bool,
    timestamp: string,
    signalScore: Option<int>)

  // ---------------------------------------------------------------------------
  // shouldRespond

  /** `shouldRespond(message, sender, config, recent)`: only an explicit mention of the
      owner's display name, `@name`, is answered. */
  function ShouldRespond(message: string, sender: string, config: AgentConfig, recent: seq<MessageContext>): (r: bool)
    ensures config.ownerDisplayName.None? ==> !r
    ensures config.ownerDisplayName == Some("") ==> !r
    ensures config.ownerDisplayName.Some? && config.ownerDisplayName.value != "" ==>
      (r <==> Contains(message, "@" + config.ownerDisplayName.value))
  {
    match config.ownerDisplayName
    case None => false
    case Some(name) => name != "" && Contains(message, "@" + name)
  }

  /** A message that mentions `@name` anywhere gets an answer from that owner's twin. */
  lemma MentionResponds(before: string, name: string, after: string, sender: string, config: AgentConfig,
                        recent: seq<MessageContext>)
    requires config.ownerDisplayName == Some(name) && name != ""
    ensures ShouldRespond(before + "@" + name + after, sender, config, recent)
  {
    var message := before + "@" + name + after;
    assert OccursAt(message, "@" + name, |before|) by {
      assert message[|before|..|before| + |"@" + name|] == "@" + name;
    }
  }

  // ---------------------------------------------------------------------------
  // buildSystemPrompt

  const DefaultOwnerName: string := "your owner"
  const DefaultPersonality: string := "Helpful and engaged DAO participant."
  const DefaultInterests: string := "General DAO governance"
  const DefaultResponseStyle: string := "Keep it concise and helpful."

  /** JavaScript's `text || fallback` on strings: only the empty string is falsy. */
  function OrElse(text: string, fallback: string): (r: string)
    ensures text != "" ==> r == text
    ensures text == "" ==> r == fallback
  {
    if text == "" then fallback else text
  }

  /** `ownerDisplayName ?? 'your owner'`: the fallback is used only when the name is
      missing; an empty name stays empty. */
  function OwnerName(config: AgentConfig): (name: string)
    ensures config.ownerDisplayName.None? ==> name == DefaultOwnerName
    ensures config.ownerDisplayName.Some? ==> name == config.ownerDisplayName.value
  {
    config.ownerDisplayName.GetOr(DefaultOwnerName)
  }

  /** The text filled into each slot of the prompt. */
  datatype PromptFields = PromptFields(name: string, personality: string, interests: string, style: string)

  function FieldsOf(config: AgentConfig): PromptFields {
    PromptFields(OwnerName(config), OrElse(config.personality, DefaultPersonality),
                 OrElse(config.interests, DefaultInterests), OrElse(config.responseStyle, DefaultResponseStyle))
  }

  /** The personality, interests and style slots are never empty: what the owner wrote, or
      the default text when they wrote nothing. */
  lemma FieldsNeverEmpty(config: AgentConfig)
    ensures var f := FieldsOf(config);
      && f.personality != "" && f.interests != "" && f.style != ""
      && (config.personality != "" ==> f.personality == config.personality)
      && (config.interests != "" ==> f.interests == config.interests)
      && (config.responseStyle != "" ==> f.style == config.responseStyle)
      && (config.ownerDisplayName.Some? ==> f.name == config.ownerDisplayName.value)
  {
  }

  // The fixed text of the prompt, between its slots.
  const Opening: string := "You are the AI twin of "
  const MemberIntro: string := ", a DAO member. You are filling in for "
  const PersonalityHeading: string := " while they are away.\n\nYOUR PERSONALITY (this is how "
  const PersonalityHint: string := " acts -- match this tone and attitude closely):\n"
  const InterestsHeading: string := "\n\nYOUR INTERESTS (topics "
  const InterestsHint: string := " cares about -- lean into these):\n"
  const StyleHeading: string := "\n\nYOUR SPEAKING STYLE (this is how "
  const StyleHint: string := " talks -- mimic this closely):\n"
  const RulesHeading: string := "\n\nRULES:\n- Stay in character as "
  const CapRule: string :=
    "'s twin. Your personality, interests, and speaking style above define who you are. Do not break character.\n- You can act autonomously on proposals up to $"
  const CapUnit: string := " USD. For anything above that, say \""
  const WeighIn: string :=
    " needs to weigh in on that.\"\n- Don't make commitments or final decisions beyond your autonomous cap on behalf of "
  const ChannelRule: string := ".\n- Keep replies short and natural -- this is a group chat, not an essay.\n- Channel: #"
  const MembersOnline: string := ", Members online: "
  const SignalRule: string :=
    "\n- Messages with higher signal scores are considered more important by the community. Pay more attention to those.\n\nIMPORTANT: Write like you're chatting casually. No markdown, no headers, no bullet points. Just talk like "
  const Closing: string := " would."

  /** The prompt as its filled slots and the text between them, in order; the owner's
      name recurs inside the text between. */
  function PromptParts(f: PromptFields, capUsd: int, channelId: string, memberCount: nat): seq<string> {
    var n := f.name;
    [ Flatten([Opening, n, MemberIntro, n, PersonalityHeading, n, PersonalityHint]), f.personality,
      Flatten([InterestsHeading, n, InterestsHint]), f.interests,
      Flatten([StyleHeading, n, StyleHint]), f.style,
      Flatten([RulesHeading, n, CapRule]), IntToString(capUsd),
      Flatten([CapUnit, n, WeighIn, n, ChannelRule]), channelId,
      MembersOnline, NatToString(memberCount),
      Flatten([SignalRule, n, Closing]) ]
  }

  /** The pieces written one after another. */
  function Flatten(parts: seq<string>): string {
    if parts == [] then "" else parts[0] + Flatten(parts[1..])
  }

  /** `buildSystemPrompt(config, {channelId, memberCount})`: the prompt opens by naming
      whose twin it is. */
  function SystemPrompt(config: AgentConfig, channelId: string, memberCount: nat): (p: string)
    ensures StartsWith(p, Opening + OwnerName(config))
  {
    PromptOpens(FieldsOf(config), config.autonomousCapUsd, channelId, memberCount);
    Flatten(PromptParts(FieldsOf(config), config.autonomousCapUsd, channelId, memberCount))
  }

  /** The pieces before part `i`, part `i` itself, and the pieces after it. */
  lemma {:induction false} FlattenAt(parts: seq<string>, i: nat)
    requires i < |parts|
    ensures Flatten(parts) == Flatten(parts[..i]) + parts[i] + Flatten(parts[i + 1..])
  {
    if i == 0 {
      assert parts[..0] == [];
    } else {
      FlattenAt(parts[1..], i - 1);
      assert parts[1..][..i - 1] == parts[..i][1..];
      assert parts[1..][i - 1] == parts[i];
      assert parts[1..][i..] == parts[i + 1..];
      assert Flatten(parts[..i]) == parts[0] + Flatten(parts[1..][..i - 1]);
    }
  }

  /** Every part occurs in the flattened text, after the parts before it. */
  lemma ContainsPart(parts: seq<string>, i: nat)
    requires i < |parts|
    ensures OccursAt(Flatten(parts), parts[i], |Flatten(parts[..i])|)
    ensures Contains(Flatten(parts), parts[i])
  {
    FlattenAt(parts, i);
    var before := Flatten(parts[..i]);
    var text := Flatten(parts);
    assert text[|before|..|before| + |parts[i]|] == parts[i];
    assert OccursAt(text, parts[i], |before|);
  }

  /** The prompt carries every filled slot: the personality, interests and style (or their
      defaults), the cap, the channel and the member count. */
  lemma PromptCarriesFields(config: AgentConfig, channelId: string, memberCount: nat)
    ensures var p := SystemPrompt(config, channelId, memberCount);
      var f := FieldsOf(config);
      && Contains(p, f.personality) && Contains(p, f.interests) && Contains(p, f.style)
      && Contains(p, IntToString(config.autonomousCapUsd))
      && Contains(p, channelId) && Contains(p, NatToString(memberCount))
  {
    var f := FieldsOf(config);
    var parts := PromptParts(f, config.autonomousCapUsd, channelId, memberCount);
    ContainsPart(parts, 1);
    ContainsPart(parts, 3);
    ContainsPart(parts, 5);
    ContainsPart(parts, 7);
    ContainsPart(parts, 9);
    ContainsPart(parts, 11);
  }

  /** The flattened parts start with the opening and the owner's name. */
  lemma PromptOpens(f: PromptFields, capUsd: int, channelId: string, memberCount: nat)
    ensures StartsWith(Flatten(PromptParts(f, capUsd, channelId, memberCount)), Opening + f.name)
  {
    var n := f.name;
    var parts := PromptParts(f, capUsd, channelId, memberCount);
    var head := [Opening, n, MemberIntro, n, PersonalityHeading, n, PersonalityHint];
    FlattenStartsWithTwo(head);
    FlattenStartsWithTwo(parts);
    StartsWithPrefix(Flatten(parts), parts[0] + parts[1], Flatten(head), Opening + n);
  }

  /** The flattened text starts with its first two parts. */
  lemma FlattenStartsWithTwo(parts: seq<string>)
    requires |parts| >= 2
    ensures StartsWith(Flatten(parts), parts[0] + parts[1])
  {
    var rest := Flatten(parts[2..]);
    assert parts[1..][1..] == parts[2..];
    assert Flatten(parts[1..]) == parts[1] + rest;
    assert Flatten(parts) == parts[0] + (parts[1] + rest);
    PrefixOfConcat(parts[0] + parts[1], rest);
  }

  lemma PrefixOfConcat(a: string, b: string)
    ensures StartsWith(a + b, a)
  {
    assert (a + b)[..|a|] == a;
  }

  /** A prefix of a prefix of `s`, whether of `a + b` or of just `a`, is a prefix of `s`. */
  lemma StartsWithPrefix(s: string, ab: string, a: string, q: string)
    requires StartsWith(s, ab) && StartsWith(a, q) && StartsWith(ab, a)
    ensures StartsWith(s, q)
  {
    assert s[..|q|] == ab[..|q|] == a[..|q|];
  }

  // ---------------------------------------------------------------------------
  // The history inside generateResponse

  datatype Role = UserRole | AssistantRole

  /** One entry of the conversation sent to the model. */
  datatype Turn = Turn(role: Role, content: string)

  /** `[signal:+n] ` or `[signal:-n] ` for a non-zero score, nothing otherwise. */
  function SignalPrefix(score: Option<int>): (p: string)
    ensures p == "" <==> score.None? || score.value == 0
    ensures score.Some? && score.value > 0 ==> StartsWith(p, "[signal:+")
    ensures score.Some? && score.value < 0 ==> StartsWith(p, "[signal:-")
  {
    if score.Some? && score.value != 0 then
      var number := IntToString(score.value);
      var p := "[signal:" + (if score.value > 0 then "+" else "") + number + "] ";
      assert score.value < 0 ==> p[..9] == "[signal:" + [number[0]];
      assert score.value > 0 ==> p[..9] == "[signal:+";
      p
    else ""
  }

  /** A past message as a turn: the owner's own and any twin's messages are the model's
      side of the conversation. */
  function TurnOf(m: MessageContext, ownerAddress: string): (t: Turn)
    ensures t.role == AssistantRole <==> m.sender == ownerAddress || m.isTwin
    ensures StartsWith(t.content, SignalPrefix(m.signalScore))
    ensures |t.content| >= |m.content| && t.content[|t.content| - |m.content|..] == m.content
  {
    var head := SignalPrefix(m.signalScore) + "[" + m.sender + (if m.isTwin then " (AI Twin)" else "") + "]: ";
    assert (head + m.content)[..|SignalPrefix(m.signalScore)|] == SignalPrefix(m.signalScore);
    assert (head + m.content)[|head|..] == m.content;
    Turn(if m.sender == ownerAddress || m.isTwin then AssistantRole else UserRole, head + m.content)
  }

  /** `conversationHistory`: the last 15 recent messages as turns, then the new message
      from `sender` as a user turn. */
  function History(recent: seq<MessageContext>, ownerAddress: string, sender: string, message: string): (h: seq<Turn>)
    ensures |h| == Min(15, |recent|) + 1
    ensures h[|h| - 1] == Turn(UserRole, "[" + sender + "]: " + message)
    ensures forall k :: 0 <= k < |h| - 1 ==> h[k] == TurnOf(recent[|recent| - (|h| - 1) + k], ownerAddress)
  {
    var last := TakeLast(recent, 15);
    seq(|last|, k requires 0 <= k < |last| => TurnOf(last[k], ownerAddress)) + [Turn(UserRole, "[" + sender + "]: " + message)]
  }

  /** An earlier turn is the model's exactly when its message came from the owner or a twin,
      and it carries a signal prefix exactly when its score is non-zero. */
  lemma HistoryRoles(recent: seq<MessageContext>, ownerAddress: string, sender: string, message: string, k: nat)
    requires k < Min(15, |recent|)
    ensures var h := History(recent, ownerAddress, sender, message);
      var m := recent[|recent| - Min(15, |recent|) + k];
      && (h[k].role == AssistantRole <==> m.sender == ownerAddress || m.isTwin)
      && h[k].content == SignalPrefix(m.signalScore) + "[" + m.sender + (if m.isTwin then " (AI Twin)" else "") + "]: " + m.content
  {
  }

  /** The message being answered is always the final turn, from the user's side, even with
      no history at all. */
  lemma HistoryEndsWithMessage(recent: seq<MessageContext>, ownerAddress: string, sender: string, message: string)
    ensures var h := History(recent, ownerAddress, sender, message);
      && h != [] && h[|h| - 1].role == UserRole
      && StartsWith(h[|h| - 1].content, "[" + sender + "]: ")
      && (recent == [] ==> h == [Turn(UserRole, "[" + sender + "]: " + message)])
  {
    var h := History(recent, ownerAddress, sender, message);
    var c := "[" + sender + "]: " + message;
    assert c[..|"[" + sender + "]: "|] == "[" + sender + "]: ";
  }

  /** A block of the model's reply. */
  datatype ReplyBlock = TextBlock(text: string) | OtherBlock

  /** The reply `generateResponse` returns: the text of the first text block, or the empty
      string when the reply has none. */
  function ReplyText(blocks: seq<ReplyBlock>): (r: string)
    ensures (forall i :: 0 <= i < |blocks| ==> !blocks[i].TextBlock?) ==> r == ""
    ensures forall i :: (0 <= i < |blocks| && blocks[i].TextBlock? && (forall j :: 0 <= j < i ==> !blocks[j].TextBlock?)
                         ==> r == blocks[i].text)
  {
    if blocks == [] then ""
    else if blocks[0].TextBlock? then blocks[0].text
    else ReplyText(blocks[1..])
  }
}
