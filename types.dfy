// The shapes the backend, the web client and the AI agent exchange, after
// shared/types.ts. JSON-encoded fields (reactions, poll options, payloads)
// are kept as typed values.
module Types {
  import opened Wrappers

  datatype Status = Online | Away | Offline

  datatype User = User(
    address: string,
    ensName: Option<string>,
    displayName: string,
    avatarUrl: Option<string>,
    status: Status,
    twinEnabled: bool,
    joinedAt: string)

  datatype MessageType = Text | SwapProposal | PollMessage | Summary | Opportunity | System

  /** Emoji to the addresses that reacted with it. */
  type Reactions = map<string, seq<string>>

  /** The names every JavaScript object inherits from `Object.prototype`. Reading one of
      them from a parsed or spread JSON object that lacks it as its own key gives a function
      (for `__proto__`, the prototype object): never an array, and never a nullish value. */
  const ObjectPrototypeMembers: set<string> := {
    "constructor", "hasOwnProperty", "isPrototypeOf", "propertyIsEnumerable", "toString",
    "toLocaleString", "valueOf", "__proto__", "__defineGetter__", "__defineSetter__",
    "__lookupGetter__", "__lookupSetter__" }

  /** `reactions[emoji]` reads an inherited member rather than a list of addresses. */
  predicate InheritedKey(reactions: Reactions, emoji: string) {
    emoji !in reactions && emoji in ObjectPrototypeMembers
  }

  datatype TokenInfo = TokenInfo(address: string, symbol: string, name: string, decimals: nat)

  /** What a quote says about the output amount. Rendering it as a decimal string
      goes through floating point and is not modelled; the value it comes from is kept. */
  datatype AmountOut =
    | NoAmount                                      // the venue gave no output amount: '0'
    | VenueAmount(raw: int, decimals: nat)          // raw base units over 10^decimals
    | MockAmount(amountIn: string, inPriceTenths: nat, outPriceTenths: nat, fractionDigits: nat)

  datatype Quote = Quote(
    tokenIn: TokenInfo,
    tokenOut: TokenInfo,
    amountIn: string,
    amountOut: AmountOut,
    priceImpact: string,
    gasEstimate: string,
    route: string,
    timestamp: string)

  datatype PollOption = PollOption(id: string, text: string, votes: seq<string>)

  datatype Poll = Poll(
    id: string,
    channelId: string,
    creator: string,
    question: string,
    options: seq<PollOption>,
    createdAt: string)

  /** A message body: chat text, or one of the JSON payloads the backend writes. */
  datatype Content =
    | Plain(text: string)
    | SwapPayload(tokenIn: string, tokenOut: string, amount: string, quote: Option<Quote>)
    | PollPayload(poll: Poll)

  datatype Message = Message(
    id: string,
    channelId: string,
    sender: string,
    senderName: string,
    isTwin: bool,
    kind: MessageType,
    content: Content,
    reactions: Reactions,
    timestamp: string)

  datatype ReactionAction = Add | Remove

  /** A twin config as JSON between the backend and the web client. The routes disagree on
      its fields: GET /twin answers with the stored row, which has `maxSwapSizeEth` and no
      cap, PUT /twin with the submitted settings, which have `autonomousCapUsd` and no
      `maxSwapSizeEth`; a field a reply leaves out is None. */
  datatype TwinConfig = TwinConfig(
    ownerAddress: string,
    enabled: bool,
    personality: string,
    interests: string,
    responseStyle: string,
    autonomousCapUsd: Option<real>,
    maxSwapSizeEth: Option<real>,
    autoSummarize: bool,
    createdAt: string,
    updatedAt: string)

  datatype TwinStatus = TwinStatus(ownerAddress: string, enabled: bool, lastActive: Option<string>, messagesSent: nat)

  /** The server-to-client socket events. */
  datatype ServerEvent =
    | MessageNew(message: Message)
    | MessageReaction(messageId: string, emoji: string, address: string, action: ReactionAction)
    | UserJoin(user: User)
    | UserLeave(address: string)
    | UserStatus(address: string, status: Status)
    | TwinStatusEvent(twinStatus: TwinStatus)
    | PollUpdate(poll: Poll)
    | ChannelMembers(channelId: string, members: seq<User>)

  /** The client-to-server socket events the web client emits. */
  datatype ClientEvent =
    | SendMessage(channelId: string, content: string, kind: MessageType)
    | React(messageId: string, emoji: string)
    | JoinChannel(channelId: string)

  /** The messages of one channel, in stored order. */
  function ChannelMessages(messages: seq<Message>, channelId: string): (r: seq<Message>)
    ensures forall m :: m in r <==> m in messages && m.channelId == channelId
    ensures |r| <= |messages|
  {
    if messages == [] then []
    else (if messages[0].channelId == channelId then [messages[0]] else []) + ChannelMessages(messages[1..], channelId)
  }

  /** Filtering by channel keeps the stored order: it distributes over concatenation. */
  lemma {:induction false} ChannelMessagesAppend(a: seq<Message>, b: seq<Message>, channelId: string)
    ensures ChannelMessages(a + b, channelId) == ChannelMessages(a, channelId) + ChannelMessages(b, channelId)
  {
    if a == [] {
      assert a + b == b;
    } else {
      assert (a + b)[1..] == a[1..] + b;
      ChannelMessagesAppend(a[1..], b, channelId);
      var head := if a[0].channelId == channelId then [a[0]] else [];
      assert ChannelMessages(a + b, channelId) == head + (ChannelMessages(a[1..], channelId) + ChannelMessages(b, channelId));
      assert head + (ChannelMessages(a[1..], channelId) + ChannelMessages(b, channelId))
          == (head + ChannelMessages(a[1..], channelId)) + ChannelMessages(b, channelId);
    }
  }

  /** A single message survives the filter exactly when it is on the channel. */
  lemma ChannelMessagesSingle(m: Message, channelId: string)
    ensures ChannelMessages([m], channelId) == if m.channelId == channelId then [m] else []
  {
    assert [m][1..] == [];
  }
}
