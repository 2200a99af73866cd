# proxyGov chat core in Dafny

proxyGov is a chat app for DAO members. People sign in with an Ethereum wallet (SIWE) and
talk in channels. Slash commands in a channel post swap proposals priced by a Uniswap quote,
and create polls. A member who is away can leave an AI "twin" that answers when someone
mentions them.

This project models and proves the deterministic core of that system:

- the backend's socket handlers (`backend/src/socket.ts`);
- the Uniswap token table, amount scaling, quote fallback and price cache
  (`backend/src/uniswap.ts`);
- the poll, twin and user routes (`backend/src/routes/poll.ts`, `twin.ts`, `user.ts`);
- the twin's mention gate, prompt and history assembly (`ai-agent/src/twin-brain.ts`);
- the web client's chat store and twin settings store (`web/src/lib/stores/chat.svelte.ts`,
  `twin.svelte.ts`);
- the display helpers (`web/src/lib/utils/format.ts`).

## How the model is organised

- **Database.** The SQLite tables are fields of one `Db.Database` object.
  - Keyed tables (`users`, `twin_configs`, `polls`) are maps from the primary key.
  - `messages` and `channel_members` are sequences in the order the rows were inserted.
    The model reads them in that order; the source's queries have no `ORDER BY`, so
    this is an assumption about SQLite's row order (see "## Left out").
  - `Valid()` says that each row sits under its own key and that message ids are distinct.
- **State that the source updates in place is a class.**
  - The backend's `connectedUsers` map is `Socket.Server`.
  - A connection's `userAddress` closure variable is `Socket.Session`.
  - The module-level `priceCache` is `Uniswap.PriceCache`.
  - The two client stores are `ChatStore.Store` and `TwinStore.Store`.
  - Each handler is a method stating its whole new state and the events it emits.
- **Loops stay loops.**
  - The vote handler's retraction loop is `Polls.Vote`.
  - The member loop of `checkTwinResponses` is `Socket.Server.AskTwins`.
  - Each carries the invariants that tie it to a specification function.
- **Pure code is functions.** Parsing, formatting, reducers and prompts are functions with
  named results, and lemmas relate them.
- **Outside inputs are parameters.** These are:
  - clock readings and uuids;
  - the result of `verifyMessage`;
  - the date parser;
  - the answers of `fetch` calls (the quote venue, the backend's own quote route, the AI
    agent, the twin routes called by the client).
- **Socket sends are return values.** A handler returns the events it sends, tagged
  broadcast, room or own socket.
- **JSON columns hold typed values.** `reactions` and `options` are kept as typed values, so
  the `JSON.stringify`/`JSON.parse` round trip is the identity.
- **Display names have one definition.** `generateDisplayName` is written out identically in
  `backend/src/socket.ts` and `web/src/lib/utils/format.ts`, and both copies are
  `Format.GenerateDisplayName`. They therefore agree on every address by construction.

Where the code and the intended design disagree, the model follows the code:

- **The twin's cap is not stored.** `twin_configs` has no cap column, so PUT /twin answers
  with the cap it was sent but never stores it. GET /twin never returns one either.
  `TwinRoutes.PutThenGet` states this.
- **An empty owner name is kept.** The prompt writes `ownerDisplayName ?? 'your owner'`, so
  the default name replaces only a missing name. An empty name stays empty.
- **The price fallback table is dead code.** `getTokenPrice` consults its fallback price
  table only when `getQuote` throws. For the symbol and amount it passes, that happens only
  for an unknown symbol, so the fallback is always 0 (`Uniswap.FallbackPriceIsZero`).
- **The backend's twins never speak to the repository's own agent.** The agent request
  spreads the `twin_configs` row into `twinConfig` (backend/src/socket.ts:352-367). That
  table has no `ownerDisplayName` column (backend/src/db.ts:49-59), so the agent's
  `shouldRespond` (ai-agent/src/twin-brain.ts:56-60) is false for every request the
  backend sends. The model keeps the agent as an unconstrained input, so a turn that
  stores a reply (`Socket.TakeTurn`, `Socket.LaterTurnSeesReply`) covers agents that do
  answer. With this agent it never happens.

## Model

| member | source | states |
|---|---|---|
| Uniswap.Lookup | backend/src/uniswap.ts:23 | a property read on the token table finds an entry exactly when some row has that key, and the entry found is that row's |
| Uniswap.GetTokenAddress | backend/src/uniswap.ts:6-24 | a symbol resolves exactly when its upper-cased form is ETH, WETH, USDC or UNI; null otherwise |
| Uniswap.GetTokenAddressCaseInsensitive | backend/src/uniswap.ts:21-24 | symbols equal after upper-casing resolve to the same entry, on either network |
| Uniswap.IntegerLiteral | backend/src/uniswap.ts:30 | `BigInt` of a plain digit string is its decimal value |
| Uniswap.StringToBigInt | backend/src/uniswap.ts:30 | `BigInt` of blank text is 0, of trimmed digits their decimal value, and any failure is a SyntaxError |
| Uniswap.StringToBigIntDigits | backend/src/uniswap.ts:30 | `BigInt(text)` of a digit string succeeds with the decimal value of the text |
| Uniswap.NoWhitespaceTrims | backend/src/uniswap.ts:30 | trimming before the integer parse leaves a digit string unchanged |
| Uniswap.FractionDigits | backend/src/uniswap.ts:29 | the padded and cut fraction has exactly `decimals` digits: the fraction's own digits, then '0's |
| Uniswap.ParseAmount | backend/src/uniswap.ts:26-31 | a failure is always a SyntaxError; with 0 decimals the amount is `BigInt` of its whole part |
| Uniswap.ParseAmountScales | backend/src/uniswap.ts:26-31 | for digit strings, `parseAmount(whole.fraction, d)` is whole·10^d plus the fraction right-padded or cut to d digits |
| Uniswap.ParseAmountWhole | backend/src/uniswap.ts:26-31 | an amount without '.' is scaled to whole·10^d |
| Uniswap.ParseAmountTruncates | backend/src/uniswap.ts:29 | fraction digits beyond `decimals` are dropped, not rounded |
| Uniswap.ParseAmountIgnoresTail | backend/src/uniswap.ts:27-29 | anything after a second '.' does not change the result |
| Uniswap.MockQuote | backend/src/uniswap.ts:107-123 | the mock quote's route ends in " (mock)", both symbols are upper-cased and the amount is echoed |
| Uniswap.FormatQuoteResponse | backend/src/uniswap.ts:85-105 | a formatted venue quote describes both tokens from the table and echoes the amount; with no `quote` object the route defaults to "tokenIn → tokenOut" |
| Uniswap.GetQuote | backend/src/uniswap.ts:33-83 | "Unknown token: X" exactly when a symbol is unknown, X being tokenIn when it is unknown and tokenOut otherwise; a bad amount exactly when both are known and `parseAmount` throws; the request uses WETH's address for ETH and tokenIn's decimals; a thrown fetch, a non-2xx reply or an unparsable body gives the mock quote; an OK reply gives the formatted venue quote, or the mock when `BigInt(amountOut)` throws |
| Uniswap.GetQuoteErrorsPrecedeRequest | backend/src/uniswap.ts:37-45 | whether getQuote throws, and with what, does not depend on the venue's reply: the errors come before any request |
| Uniswap.UpperFixes | backend/src/uniswap.ts:23 | upper-casing leaves text without lower-case letters unchanged |
| Uniswap.KnownSymbolQuotes | backend/src/uniswap.ts:136 | `getQuote(symbol, 'USDC', '1')` never throws for a known symbol |
| Uniswap.FallbackPriceIsZero | backend/src/uniswap.ts:135-144 | `getQuote(symbol, 'USDC', '1')` either succeeds or the fallback price is 0 |
| Uniswap.PriceCache.constructor | backend/src/uniswap.ts:126 | the cache starts empty |
| Uniswap.PriceCache.GetTokenPrice | backend/src/uniswap.ts:128-145 | the cached price comes back, cache unchanged, exactly when an entry exists with now − timestamp < 60000; otherwise a successful quote's price is returned and written, and a thrown quote returns 0 and leaves the cache alone |
| Uniswap.GetAvailableTokens | backend/src/uniswap.ts:147-154 | one entry per table row, in order, with the row's symbol as symbol and name and its address and decimals |
| Uniswap.AvailableTokensResolve | backend/src/uniswap.ts:147-154 | every listed token resolves through getTokenAddress to the listed address and decimals |
| Uniswap.KnownSymbolsListed | backend/src/uniswap.ts:147-154 | every known symbol appears in the list |
| Polls.NewPoll | backend/src/routes/poll.ts:17-30 | the poll has one option per text, in input order, each with no votes; creator defaults to 'unknown' |
| Polls.ValidPollRequest | backend/src/routes/poll.ts:12-15 | the request is refused exactly when the channel id or question is missing or empty, or fewer than 2 options are given |
| Polls.Retracted | backend/src/routes/poll.ts:53 | filtering keeps id and text and removes every vote of a defined voter |
| Polls.RetractAll | backend/src/routes/poll.ts:52-54 | the loop retracts the voter from every option and keeps their number |
| Polls.FindOption | backend/src/routes/poll.ts:56 | `find` returns the first option with the id, or none when no option has it |
| Polls.FindOptionById | backend/src/routes/poll.ts:52-56 | retraction does not change which option `find` picks |
| Polls.ApplyVote | backend/src/routes/poll.ts:50-61 | a vote keeps the number of options and each option's id and text |
| Polls.VoteLeavesOneBallot | backend/src/routes/poll.ts:52-59 | after voting for an existing option, the voter is its last entry, holds exactly one entry there and is in no other option |
| Polls.UnknownOptionRetracts | backend/src/routes/poll.ts:56-59 | a vote for an unknown option is a pure retraction |
| Polls.VoteKeepsOtherVoters | backend/src/routes/poll.ts:50-61 | leaving out the voter, every option's votes are exactly what they were, other voters and their order included |
| Polls.TotalVotesZero | backend/src/routes/poll.ts:52-54 | a voter holds no vote in the poll exactly when no option lists them |
| Polls.TotalVotesUpdate | backend/src/routes/poll.ts:57-59 | replacing one option changes a voter's total by the difference in that option |
| Polls.AtMostOneVote | backend/src/routes/poll.ts:52-59 | after a vote by a defined voter, the voter holds one vote across the poll if the option exists and none otherwise |
| Polls.VoteIdempotent | backend/src/routes/poll.ts:50-61 | voting twice the same way is voting once |
| Polls.CreatePoll | backend/src/routes/poll.ts:9-38 | 400 and nothing stored unless channelId, question and at least 2 options are present; otherwise the new poll is stored under its id and returned |
| Polls.Vote | backend/src/routes/poll.ts:40-67 | 404 and nothing changed for an unknown poll; otherwise the loop retracts the voter and the vote is appended, giving the poll the options `ApplyVote` describes, stored and returned |
| Socket.RestOfLine | backend/src/socket.ts:52 | the capture runs to the next line terminator or the end of the text |
| Socket.IssuedAtFrom | backend/src/socket.ts:52 | the capture is non-empty, holds no line terminator and follows an "Issued At: " label; no label means no capture |
| Socket.IssuedAt | backend/src/socket.ts:52-53 | the "Issued At" capture is non-empty text that follows the label in the message; without the label there is none |
| Socket.SiweExpired | backend/src/socket.ts:52-60 | a message is stale only when it carries an "Issued At: " label |
| Socket.NoIssuedAtNeverExpires | backend/src/socket.ts:52-60 | a message without an "Issued At: " line skips the freshness check |
| Socket.ReactionList | backend/src/socket.ts:163-164 | `reactions[emoji] ?? []`: the stored list for an own key, [] for a missing one, and no list (the handler throws) for a key inherited from `Object.prototype` |
| Socket.ToggleReaction | backend/src/socket.ts:163-177 | none (the handler throws) exactly for an inherited key; otherwise the action is 'remove' exactly when the user is in the emoji's list, 'add' appends the user, 'remove' splices out the first occurrence, the emoji's key is added and other keys are unchanged |
| Socket.ToggleKeepsDistinct | backend/src/socket.ts:163-177 | toggling never puts an address twice into a list |
| Socket.ToggleTwice | backend/src/socket.ts:165-175 | toggling twice restores the user's membership in the list, and the whole list when they were absent |
| Socket.ClosingQuote | backend/src/socket.ts:273 | the lazy `(.+?)` stops at the first '"' after the question's first character |
| Socket.QuotedQuestion | backend/src/socket.ts:273-276 | a match splits the rest as quote, question, quote, tail, with a non-empty question holding no quote after its first character |
| Socket.QuotedQuestionRoundTrip | backend/src/socket.ts:273-276 | a quoted question on one line is read back with its tail |
| Socket.KeepNonEmpty | backend/src/socket.ts:277 | `filter(Boolean)` keeps only non-empty parts, taken from the list |
| Socket.TrimEach | backend/src/socket.ts:277 | each option is trimmed |
| Socket.PollOptions | backend/src/socket.ts:276-277 | every option is non-empty, comma-free and without surrounding whitespace |
| Socket.TrimKeepsOut | backend/src/socket.ts:277 | trimming adds no character to a part |
| Socket.PollOptionsRoundTrip | backend/src/socket.ts:276-277 | trimmed, non-empty, comma-free options joined by ',' are read back exactly |
| Socket.SplitJoin | backend/src/socket.ts:277 | splitting comma-free parts joined by ',' gives them back |
| Socket.KeepAllNonEmpty | backend/src/socket.ts:277 | a list without empty parts passes the filter unchanged |
| Socket.ParseSlashCommand | backend/src/socket.ts:231-278 | a swap exactly when there are at least 4 words and the first is '/swap' in any case, taking words 2 to 4; a poll exactly when the first word is '/poll' in any case, there are at least 2 words, the text after character 5 starts with a quoted question and at least 2 options follow, taking that question and those options |
| Socket.SwapCommandRoundTrip | backend/src/socket.ts:231-236 | non-empty, whitespace-free words joined by spaces, the first '/swap' in any case and at least 4 of them, are read back as the swap of words 2 to 4 |
| Socket.PollCommandRoundTrip | backend/src/socket.ts:270-278 | `/poll "q" o1,o2,…` with a single-line question free of later '"' and at least 2 trimmed, non-empty, comma-free, single-line options is read back as that question and those options |
| Socket.SwapProposalContent | backend/src/socket.ts:246-251 | the payload holds the upper-cased symbols and the quote, which is null when the reply is not OK |
| Socket.SenderName | backend/src/socket.ts:130 | the connected user's display name, or else the first 8 characters of the address (all of it when shorter) |
| Socket.SlashEffectMessages | backend/src/socket.ts:225-312 | a slash command appends at most one message and announces exactly what it appends; it appends exactly when a swap's quote was read and its uuid is free, or a poll's id is free and its message's uuid is free; distinct ids stay distinct |
| Socket.SlashEffectNewMessage | backend/src/socket.ts:253-266 | the appended message is the sender's, on the channel, at now, with no reactions: the swap proposal under the first uuid, or the poll message under the uuid after the options' with the poll as content |
| Socket.SlashEffectPolls | backend/src/socket.ts:279-308 | only a poll command throws, exactly when its poll id or its message id is taken; only a free poll id changes the polls, adding that poll; no command and a thrown quote change nothing; the number of uuids drawn; polls stay under their own ids |
| Socket.ChannelRows | backend/src/socket.ts:326-328 | exactly the member rows of the channel |
| Socket.TwinEligible | backend/src/socket.ts:331-357 | an asked member is not the sender, has a user row and an enabled twin config |
| Socket.TurnsAt | backend/src/socket.ts:330-395 | turn k of a loop over member rows is the step of one of the rows, taken with the uuids and the messages the turns before it left |
| Socket.TurnsChannelLog | backend/src/socket.ts:343-386 | when every step stores on the channel, the channel's messages after k turns are those before the loop followed by the first k turns' replies |
| Socket.TwinTurns | backend/src/socket.ts:330-395 | the loop takes at most one turn per member row |
| Socket.TwinTurnsStep | backend/src/socket.ts:330-395 | one pass of the loop: an eligible member's turn is taken at the next uuid with the messages stored so far and the loop goes on after its reply; any other member is skipped |
| Socket.TwinTurnsExactly | backend/src/socket.ts:330-340 | a member's twin is asked exactly when a row names the member and they are not the sender, known, not online, and have an enabled twin config whose interests parse |
| Socket.TwinTurnsContext | backend/src/socket.ts:336-386 | turn k asks an eligible, named member's twin with their stored name and config, the channel's last 20 messages as stored when the turn begins, the channel and the row count; the agent's reply is stored under the next unused uuid unless silent, failed or taken |
| Socket.TwinTurnsRecent | backend/src/socket.ts:343-346 | turn k is shown the last 20 of the channel's messages before the loop followed by the replies of the turns before it |
| Socket.LaterTurnSeesReply | backend/src/socket.ts:343-386 | a reply one turn stores is the newest message the next turn's twin is shown |
| Socket.ChannelTwinTurns | backend/src/socket.ts:314-346 | a twin's message or a non-text message asks no twin; otherwise at most one turn per member row of the channel |
| Socket.ChannelTwinsExactly | backend/src/socket.ts:320-340 | a member's twin is asked about a message exactly when the message is a person's text message, a member row ties the member to the channel, and the member is eligible |
| Socket.Reply | backend/src/socket.ts:148-154 | after the stored message, the slash command's messages, polls and emissions come first; the twins' replies follow, and no twin is asked when the command threw |
| Socket.TwinMessage | backend/src/socket.ts:373-383 | the twin's message is a text message marked as a twin's, in the owner's name and channel |
| Socket.TwinMessageAsksNoTwins | backend/src/socket.ts:320 | a twin's message sets off no further twin requests |
| Socket.ChannelMembersOf | backend/src/socket.ts:199-223 | each member of the channel that has a user row is listed, and only users of that channel |
| Socket.UpsertOnline | backend/src/socket.ts:68-84 | an existing row only turns 'online'; a new row gets the generated name, 'online', no twin, joined now; no other row changes |
| Socket.JoinedUser | backend/src/socket.ts:68-93 | the `user:join` record has the address, the generated name, 'online', no ENS name or avatar, and the stored twin flag and join time (false and now for a new user) |
| Socket.JoinedUserIsStoredRow | backend/src/socket.ts:68-93 | the broadcast record is the upserted row, except that it always has the generated name and no ENS name or avatar |
| Socket.SetStatus | backend/src/socket.ts:182-191 | only the address's row takes the new status; an unknown address changes nothing |
| Socket.SlashPoll | backend/src/socket.ts:279-288 | the poll has the sender as creator, the question and one empty option per parsed option, in order |
| Socket.Server.constructor | backend/src/socket.ts:10 | no user is connected at start |
| Socket.Server.Post | backend/src/socket.ts:265-266 | the message is stored and announced to its channel, or, when its id is taken, the insert throws and nothing is stored or sent |
| Socket.Server.HandleSlashCommand | backend/src/socket.ts:225-312 | the parsed command is run: a swap posts its proposal once the quote is read, a poll stores the poll and posts its message, and no stored message is lost |
| Socket.Server.RunSlashCommand | backend/src/socket.ts:234-311 | the stored messages, polls and emissions are those of the parsed command |
| Socket.Server.PostSwap | backend/src/socket.ts:246-266 | the swap-proposal message carries the payload and the sender's name and is posted |
| Socket.Server.PostPoll | backend/src/socket.ts:279-308 | the new state and emissions are those of `PollEffect`: the poll is stored under its id, then its poll message is posted; a taken id throws |
| Socket.Server.Send | backend/src/socket.ts:126-154 | a taken message id throws at the insert and nothing is stored or sent; otherwise the message is stored and sent to the channel, and the rest happens as `Reply` says |
| Socket.Server.RespondTo | backend/src/socket.ts:148-154 | the new messages, polls, emissions and twin turns are those of `Reply` |
| Socket.Server.CheckTwinResponses | backend/src/socket.ts:314-399 | the turns are those of `ChannelTwinTurns`; their replies are appended to the messages and announced |
| Socket.Server.TakeTwinTurn | backend/src/socket.ts:342-391 | the turn of `TakeTurn` for the member, asked with the messages as they stand; its reply, if any, is appended and announced |
| Socket.Server.AskTwins | backend/src/socket.ts:330-395 | the loop with its `continue` filters takes exactly the turns of `TwinTurns`, in row order; their replies are appended and announced |
| Socket.Session.constructor | backend/src/socket.ts:22 | a connection starts unauthenticated |
| Socket.Session.Authenticate | backend/src/socket.ts:25-96 | a thrown verification or a stale "Issued At" time disconnects; a failed signature also sends a system message; a valid, fresh one records the address and connected user, upserts the user as online and broadcasts `user:join` |
| Socket.Session.ChannelJoin | backend/src/socket.ts:100-116 | an authenticated user is added to the channel once and sent its member list; otherwise nothing is sent or stored |
| Socket.Session.SendMessage | backend/src/socket.ts:122-155 | ignored when unauthenticated; a taken uuid throws at the insert and nothing happens; otherwise the message, under the sender's name and of type 'text' unless given, is stored and sent to the channel, a content starting with '/' runs its command, and twins are asked unless the command threw, as `Reply` says |
| Socket.Session.React | backend/src/socket.ts:157-180 | ignored when unauthenticated or the message is unknown, and the handler throws with nothing written for an inherited emoji key; otherwise the toggle is stored and sent to the channel with its action |
| Socket.Session.UpdateStatus | backend/src/socket.ts:182-186 | ignored when unauthenticated; otherwise the status is stored and broadcast |
| Socket.Session.OnDisconnect | backend/src/socket.ts:188-195 | an authenticated user leaves `connectedUsers`, goes offline and `user:leave` is broadcast |
| Db.FindMessage | backend/src/socket.ts:160 | the first message with the id, or none when no message has it |
| Db.Database.constructor | backend/src/db.ts:1-81 | every table starts empty |
| Socket.Inserted | backend/src/socket.ts:139-143 | the insert appends exactly the message when its id is free and otherwise leaves the list; distinct ids stay distinct |
| Db.Database.InsertMessage | backend/src/socket.ts:139-143 | the insert succeeds and appends exactly when the id is not taken |
| Types.ChannelMessages | web/src/lib/stores/chat.svelte.ts:27 | exactly the messages of the channel |
| Types.ChannelMessagesAppend | web/src/lib/stores/chat.svelte.ts:27 | filtering by channel keeps stored order: it distributes over concatenation |
| Types.ChannelMessagesSingle | web/src/lib/stores/chat.svelte.ts:27 | a single message passes the filter exactly when it is on the channel |
| ChatStore.Visible | web/src/lib/stores/chat.svelte.ts:27 | the `messages` getter returns exactly the stored messages of the active channel |
| ChatStore.ClearUnread | web/src/lib/stores/chat.svelte.ts:39 | the channel's unread count becomes 0 and every other count is unchanged |
| ChatStore.SwitchChannel | web/src/lib/stores/chat.svelte.ts:43-45 | the channel becomes active with unread count 0; other counts, messages and members are unchanged |
| ChatStore.OnMessageNew | web/src/lib/stores/chat.svelte.ts:68-78 | the message is appended and its channel's count goes up by 1 unless the chat is viewed on that channel; other counts are unchanged |
| ChatStore.MessageNewVisible | web/src/lib/stores/chat.svelte.ts:68-69 | the visible list grows by the new message exactly when it is on the active channel |
| ChatStore.UpdatedList | web/src/lib/stores/chat.svelte.ts:84-90 | 'add' appends an absent address and leaves a present one; 'remove' splices out the first occurrence |
| ChatStore.AddKeepsDistinct | web/src/lib/stores/chat.svelte.ts:85-86 | 'add' never creates a duplicate address |
| ChatStore.DistinctCountOne | web/src/lib/stores/chat.svelte.ts:85-86 | in a list without duplicates a present address occurs once |
| ChatStore.RemoveDropsOne | web/src/lib/stores/chat.svelte.ts:87-89 | 'remove' takes away exactly one occurrence and leaves every other address's count |
| ChatStore.Reacted | web/src/lib/stores/chat.svelte.ts:83-92 | none (the spread throws) exactly for an inherited key; otherwise the emoji's entry is written with the updated list and other emojis are unchanged |
| ChatStore.ReactionMirrorsServer | web/src/lib/stores/chat.svelte.ts:83-92 | the client fails on exactly the keys the backend fails on, and applying the action the backend announced gives the backend's reactions |
| ChatStore.ApplyReaction | web/src/lib/stores/chat.svelte.ts:81-93 | only messages with the id change, and only in their reactions |
| ChatStore.OnMessageReaction | web/src/lib/stores/chat.svelte.ts:80-94 | the messages are updated and nothing else is |
| ChatStore.ReactionKeepsMessages | web/src/lib/stores/chat.svelte.ts:80-94 | a reaction changes no message's id, channel or content |
| ChatStore.WithoutAddress | web/src/lib/stores/chat.svelte.ts:97-101 | the filter keeps exactly the entries with another address |
| ChatStore.WithoutAbsentAddress | web/src/lib/stores/chat.svelte.ts:97-101 | filtering out an address nobody has changes nothing |
| ChatStore.OnUserJoin | web/src/lib/stores/chat.svelte.ts:96-98 | the members are the others followed by the joining user |
| ChatStore.UserJoinOnce | web/src/lib/stores/chat.svelte.ts:96-98 | after `user:join` exactly one entry has the address, and it is last |
| ChatStore.OnUserLeave | web/src/lib/stores/chat.svelte.ts:100-102 | the members lose the address's entries; nothing else changes |
| ChatStore.UserLeaveRemovesAll | web/src/lib/stores/chat.svelte.ts:100-102 | after `user:leave` no entry has the address, and leaving twice is leaving once |
| ChatStore.WithStatus | web/src/lib/stores/chat.svelte.ts:105-107 | matching entries take the status, others are kept, in order |
| ChatStore.OnUserStatus | web/src/lib/stores/chat.svelte.ts:104-108 | only the members change |
| ChatStore.UserStatusOnlyStatus | web/src/lib/stores/chat.svelte.ts:104-108 | `user:status` changes only the status field of matching members |
| ChatStore.OnChannelMembers | web/src/lib/stores/chat.svelte.ts:110-114 | the member list is replaced only when the event's channel is the active one |
| ChatStore.Handle | web/src/lib/stores/chat.svelte.ts:64-114 | no event changes the active channel; twin status and poll updates change nothing; only new messages and reactions touch messages and counts, and they leave the members; a reaction keeps the counts and the number of messages |
| ChatStore.FreshMessages | web/src/lib/stores/chat.svelte.ts:121-122 | exactly the loaded messages whose id is not stored |
| ChatStore.FreshMessagesAppend | web/src/lib/stores/chat.svelte.ts:122 | the filter keeps the loaded order: it distributes over concatenation |
| ChatStore.FreshMessagesSingle | web/src/lib/stores/chat.svelte.ts:122 | a single loaded message is kept exactly when its id is not stored |
| ChatStore.MergeMessages | web/src/lib/stores/chat.svelte.ts:119-124 | the stored messages are untouched and followed by the loaded ones with new ids, in loaded order (`FreshMessages`) |
| ChatStore.MergeIdempotent | web/src/lib/stores/chat.svelte.ts:119-124 | loading the same batch again changes nothing |
| ChatStore.NoneFresh | web/src/lib/stores/chat.svelte.ts:122 | a batch whose ids are all stored adds nothing |
| ChatStore.Store.constructor | web/src/lib/stores/chat.svelte.ts:14-24 | the initial state, unbound and not viewing |
| ChatStore.Store.SetViewingChat | web/src/lib/stores/chat.svelte.ts:35-41 | viewing clears the active channel's unread count; not viewing changes only the flag |
| ChatStore.Store.SetActiveChannel | web/src/lib/stores/chat.svelte.ts:43-48 | the state switches channel and `channel:join` is emitted |
| ChatStore.Store.SendMessage | web/src/lib/stores/chat.svelte.ts:50-57 | the emitted message is for the active channel, of type 'text' unless another is given |
| ChatStore.Store.BindSocket | web/src/lib/stores/chat.svelte.ts:64-116 | the store is bound after the call; a second call is a no-op |
| ChatStore.Store.Receive | web/src/lib/stores/chat.svelte.ts:68-114 | an event is handled by its handler once bound and ignored before |
| ChatStore.Store.LoadMessages | web/src/lib/stores/chat.svelte.ts:119-124 | the messages become the merge; nothing else changes |
| Format.LeadingDigitsIn | web/src/lib/utils/format.ts:36-37 | `parseInt` reads the longest prefix of hexadecimal digits |
| Format.ParseHexInt | web/src/lib/utils/format.ts:36-37 | a negative result needs a '-' after the leading whitespace; text starting with a hexadecimal digit and no `0x` prefix parses to a number ≥ 0 |
| Format.ParseHexDigits | web/src/lib/utils/format.ts:36-37 | a run of hexadecimal digits parses to its value |
| Format.AllLeadingDigits | web/src/lib/utils/format.ts:36-37 | a string of digits is its own leading run |
| Format.JsRem | web/src/lib/utils/format.ts:36-37 | JavaScript's `%`: the remainder has the dividend's sign and is Euclidean for non-negative values |
| Format.GenerateDisplayName | web/src/lib/utils/format.ts:32-39 | the name is an adjective of the list followed by a noun of the list, either of which may be `undefined` when the index is NaN or negative |
| Format.DisplayNameDependsOnHash | web/src/lib/utils/format.ts:32-39 | the name depends only on characters 2 to 9 of the lower-cased address (the backend copy at backend/src/socket.ts:12-19 is the same function) |
| Format.DisplayNameOfHexAddress | web/src/lib/utils/format.ts:32-39 | the adjective is hex(chars 2..6) mod 8 and the noun hex(chars 6..10) mod 8 |
| Format.TruncateAddress | web/src/lib/utils/format.ts:1-4 | '' for ''; otherwise the first chars+2 characters, "...", and the last chars (the whole address for chars 0) |
| Format.TruncateAddressLength | web/src/lib/utils/format.ts:3 | with room for both ends, the result has 2·chars+5 characters and starts with the first chars+2 |
| Format.FormatTimestamp | web/src/lib/utils/format.ts:6-16 | "just now" exactly below a minute; any other text ends in " ago" |
| Format.JustNow | web/src/lib/utils/format.ts:11 | any diff below a minute, negative ones included, is "just now" |
| Format.MinutesAgo | web/src/lib/utils/format.ts:12 | within the hour the text is the count of whole minutes, 1 to 59, then "m ago" |
| Format.HoursAgo | web/src/lib/utils/format.ts:13 | within the day the text is the count of whole hours, 1 to 23, then "h ago" |
| Format.LocaleDateBranch | web/src/lib/utils/format.ts:15 | the locale date is used exactly for diffs of a day or more |
| TwinBrain.ShouldRespond | ai-agent/src/twin-brain.ts:50-61 | false when the owner's name is missing or empty; otherwise true exactly when the message contains "@" + name |
| TwinBrain.MentionResponds | ai-agent/src/twin-brain.ts:57-58 | a message with "@name" anywhere in it is answered |
| TwinBrain.OrElse | ai-agent/src/twin-brain.ts:31-37 | `text || fallback`: the fallback replaces only the empty text |
| TwinBrain.OwnerName | ai-agent/src/twin-brain.ts:27 | `?? 'your owner'`: the default replaces only a missing name |
| TwinBrain.FieldsNeverEmpty | ai-agent/src/twin-brain.ts:27-37 | personality, interests and style are never empty: the owner's text, or the default when it is empty |
| TwinBrain.FlattenAt | ai-agent/src/twin-brain.ts:28-47 | the template's text is its parts in order: part i sits after the parts before it |
| TwinBrain.ContainsPart | ai-agent/src/twin-brain.ts:28-47 | every part occurs in the prompt at its place |
| TwinBrain.PromptCarriesFields | ai-agent/src/twin-brain.ts:28-47 | the prompt contains the personality, interests and style (or defaults), the cap, the channel and the member count |
| TwinBrain.SystemPrompt | ai-agent/src/twin-brain.ts:26-48 | the prompt begins "You are the AI twin of " followed by the owner's name |
| TwinBrain.SignalPrefix | ai-agent/src/twin-brain.ts:74 | the signal prefix is empty exactly for a missing or zero score, and has '+' for a positive one |
| TwinBrain.TurnOf | ai-agent/src/twin-brain.ts:73-75 | a past message is the assistant's exactly when the owner sent it or a twin did; its text starts with the signal prefix and ends with the message |
| TwinBrain.History | ai-agent/src/twin-brain.ts:72-80 | min(15, n) + 1 turns: the last 15 messages in order, then the new message as a user turn "[sender]: message" |
| TwinBrain.HistoryRoles | ai-agent/src/twin-brain.ts:73-74 | an earlier turn is the assistant's exactly when its sender is the owner or it is a twin message, with the signal prefix and twin tag in its text |
| TwinBrain.HistoryEndsWithMessage | ai-agent/src/twin-brain.ts:77-80 | the final turn is always the user's new message, even with no history |
| TwinBrain.ReplyText | ai-agent/src/twin-brain.ts:89-90 | the reply is the text of the first text block, or '' when there is none |
| TwinRoutes.RowJson | backend/src/routes/twin.ts:17-21 | the GET body carries every column of the row: owner, enabled, personality, interests, style, `maxSwapSizeEth`, autoSummarize and both stamps; it has no cap |
| TwinRoutes.GetTwin | backend/src/routes/twin.ts:8-22 | 404 "Twin config not found" exactly when the owner has no row; otherwise 200 with every column of the owner's row and no cap |
| TwinRoutes.SettingsOf | backend/src/routes/twin.ts:31-40 | `??` defaults only for missing fields: enabled false, texts '', cap 100, autoSummarize true; stamped now |
| TwinRoutes.StoredRow | backend/src/routes/twin.ts:42-46 | an existing row takes the settings and keeps createdAt and maxSwapSizeEth; a new row gets createdAt now and the column default |
| TwinRoutes.PutReply | backend/src/routes/twin.ts:51-54 | the reply echoes the cap and has no `maxSwapSizeEth` |
| TwinRoutes.PutTwin | backend/src/routes/twin.ts:24-55 | only the owner's config row changes; the owner's `twinEnabled` takes the stored flag if they have a user row; the reply's createdAt is the old row's or now |
| TwinRoutes.PutThenGet | backend/src/routes/twin.ts:8-55 | a GET after a PUT returns the submitted settings with defaults, the first createdAt and the old swap limit, never the cap; other owners' configs are untouched |
| TwinRoutes.PutReplyMatchesGet | backend/src/routes/twin.ts:17-54 | the PUT's reply and the next GET agree on every stored setting |
| TwinStore.DefaultConfig | web/src/lib/stores/twin.svelte.ts:44-54 | the fallback config: disabled, empty texts, cap 100, autoSummarize on, stamped now |
| TwinStore.WithField | web/src/lib/stores/twin.svelte.ts:74 | `updatedAt` is always the clock's, even when it was the key written |
| TwinStore.EditShowsAsChange | web/src/lib/stores/twin.svelte.ts:29-75 | from a state without changes, one edit shows as a change exactly when it gives personality, interests, style or cap a new value; `enabled` or `updatedAt` alone never do |
| TwinStore.WithFieldIdempotent | web/src/lib/stores/twin.svelte.ts:74 | writing a field twice is writing it once, and the other fields keep their values |
| TwinStore.BodyOf | web/src/lib/stores/twin.svelte.ts:65 | the saved body carries the config's cap, missing when the config has none |
| TwinStore.SaveEchoesSettings | web/src/lib/stores/twin.svelte.ts:61-70 | saving gets the edited settings back, with a missing cap as the server's 100 |
| TwinStore.Store.constructor | web/src/lib/stores/twin.svelte.ts:13-21 | no config, saved copy or status; not loading, saving or bound |
| TwinStore.Store.Enabled | web/src/lib/stores/twin.svelte.ts:28 | `config?.enabled ?? false`: false with no config, the config's flag otherwise |
| TwinStore.Store.HasChanges | web/src/lib/stores/twin.svelte.ts:29-35 | no changes without both configs, and none when they are equal |
| TwinStore.Store.Load | web/src/lib/stores/twin.svelte.ts:37-59 | the fetched config, or the defaults when the fetch threw; the saved copy equals it, loading is false and there are no changes |
| TwinStore.Store.Save | web/src/lib/stores/twin.svelte.ts:61-70 | with no config nothing happens; otherwise saving ends false, a reply replaces both copies, leaving no changes, and a failure leaves them |
| TwinStore.Store.UpdateField | web/src/lib/stores/twin.svelte.ts:72-75 | ignored with no config; otherwise the field is written and stamped |
| TwinStore.Store.BindSocket | web/src/lib/stores/twin.svelte.ts:77-84 | the store is bound after the call |
| TwinStore.Store.ReceiveStatus | web/src/lib/stores/twin.svelte.ts:80-82 | a `twin:status` event is recorded once bound |
| UserRoutes.GetUser | backend/src/routes/user.ts:9-25 | `{exists: false}` exactly for an unknown address; profileSetup exactly when the stored name is non-empty |
| UserRoutes.AcceptsName | backend/src/routes/user.ts:32-35 | a name is refused exactly when it is missing or whitespace only |
| UserRoutes.StoredUser | backend/src/routes/user.ts:40-53 | an existing user gets only the new name and avatar; a new user is offline, without a twin, joined now |
| UserRoutes.PutUser | backend/src/routes/user.ts:28-57 | 400 and nothing changed for a refused name; otherwise the trimmed name is stored under the address and echoed |
| UserRoutes.PutThenGetUser | backend/src/routes/user.ts:9-57 | after an accepted PUT the profile exists, is set up and has the trimmed name |

## Left out

- Transport and persistence plumbing is not modelled:
  - Socket.IO rooms, `socket.join`/`leave` and `disconnect(true)`;
  - the Express routers and SQLite/drizzle;
  - the client's `getSocket`.
  - Handlers return the events they send instead.
- Calls into code the model cannot see become inputs:
  - the SIWE signature check (`verifyMessage`) and the parsing of the "Issued At" date;
  - uuids and clock readings;
  - every `fetch` answer.
- The AI agent's model call is an input, and so is the `summarizer`/`opportunity` code. Only
  the reply's text-block selection is modelled. The model id, token limit and API client
  are left out.
- Floating point is not modelled:
  - the mock quote's amount;
  - the venue's `amountOut` formatting with `Number`/`toFixed`;
  - `parseFloat` of a quoted price.
  - Amounts appear as opaque values.
- Uniswap.PriceCache.GetTokenPrice: a quoted price is kept as the quote's amount, because
  `parseFloat` is not modelled.
- TwinBrain.PromptCarriesFields: the cap is taken to be a whole number of dollars, because
  JavaScript's number-to-text conversion of other values is not modelled.
- Socket.Server.TakeTwinTurn: the twin's message is announced at once. The random
  1.5 to 3.5 second delay before the emission (backend/src/socket.ts:388-390) is not
  modelled, so events sent in that time are not shown before it.
- Interleaving at `await` points is not modelled. The model runs `message:send` and
  `checkTwinResponses` to completion as one step. In the source, other socket handlers and
  routes can run at each `await` and change the users, twin configs, member rows and
  messages the rest of the handler reads. These points are:
  - the awaited slash command and twin check (backend/src/socket.ts:150, 154);
  - the quote `fetch` of `/swap` and its `res.json()` (backend/src/socket.ts:239, 244);
  - the dynamic `import` before the `/poll` insert (backend/src/socket.ts:290), which runs
    after the poll's uuids are drawn;
  - the dynamic `import` in the twin loop's config query (backend/src/socket.ts:336-337);
  - the agent `fetch` and its `res.json()` (backend/src/socket.ts:349, 371).
- Socket.Server.AskTwins: the users and twin configs are read once, when the loop starts
  (`TwinEnv`). The source queries them again on each turn, between the awaits above. Only
  the messages, which the loop itself writes, are re-read per turn.
- Socket.Server.AskTwins: member rows are taken in insertion order. The query at
  backend/src/socket.ts:326-328 has no `ORDER BY`, and SQLite may return the rows in
  another order, for instance by address through the `(channel_id, user_address)`
  primary-key index. The order of the turns fixes which uuid each reply takes and which
  earlier replies a later twin is shown, so the model follows one possible order.
- Socket.ChannelMembersOf: its contract states which users are listed, not their order.
  The join at backend/src/socket.ts:200-212 has no `ORDER BY`, so the source promises no
  order.
- `formatEth`, `formatUsd` and the locale date of `formatTimestamp` are not modelled; they
  depend on `Intl` and floating point. The locale branch is the `None` result of
  `Format.FormatTimestamp`.
- Case mapping (`toUpperCase`/`toLowerCase`) is ASCII only.
- JSON text is not modelled:
  - stored reactions and poll options are typed values;
  - the body of a venue reply is either unparsable or a typed quote.
- The `channel:leave` handler (backend/src/socket.ts:118-120) only removes the socket from
  a Socket.IO room, which is not modelled. The chat store's channel list and `loading`
  flag are also left out, because no code in the modelled files reads or sets them.
- The `await` states in the middle of the twin store's `load` and `save` are left out. Each
  method shows the state once its request has settled.
- The `summarizer.ts` and `opportunity.ts` modules, the `routes/swap.ts` and
  `routes/messages.ts` routes, the wallet store and the remaining setup files are not part
  of this model.
- Foreign keys are not modelled. The `REFERENCES` clauses of backend/src/db.ts are
  enforced, because better-sqlite3 turns foreign-key checking on. Only the channels
  `general`, `defi` and `governance` exist (backend/src/db.ts:74-77). The inserts below
  therefore throw in the source but succeed in the model; the lines after this one name
  the members whose contracts differ.
- Socket.Session.SendMessage: a message on any other channel makes the insert at
  backend/src/socket.ts:139 throw (backend/src/db.ts:39). The same holds for the
  slash-command messages (socket.ts:265, 307) and twin replies (socket.ts:386).
- Socket.Session.ChannelJoin: joining any other channel makes the member insert throw
  (backend/src/db.ts:32, socket.ts:108).
- Socket.Server.PostPoll: a poll on any other channel makes the poll insert throw
  (backend/src/db.ts:63, socket.ts:290).
- Polls.CreatePoll: for a channel other than the three, the insert of POST /poll
  (backend/src/routes/poll.ts:32) throws.
- TwinRoutes.PutTwin: for an owner without a `users` row, the insert at
  backend/src/routes/twin.ts:45 throws, because `owner_address` references `users`
  (backend/src/db.ts:50).
- Strings are sequences of Unicode characters. JavaScript's `length`, `slice` and
  `padEnd` count UTF-16 code units instead, so the two differ on text that holds
  characters outside the Basic Multilingual Plane.
- Format.TruncateAddress: its lengths count characters rather than UTF-16 code units. An
  address made of ASCII characters gives the same result either way.
- Socket.SenderName: `sender.slice(0, 8)` is taken over characters rather than UTF-16 code
  units. An address made of ASCII characters gives the same result either way.
- Socket.Server.PostPoll: one clock reading serves both the poll's `createdAt`
  (backend/src/socket.ts:287) and its message's timestamp (:304). The source reads the
  clock twice, and the two readings can differ.
- Socket.Session.SendMessage: one clock reading `now` timestamps the user's message
  (backend/src/socket.ts:135), the `/swap` proposal (:262), the `/poll` message (:304) and
  every twin reply (:383). In the source, the proposal's reading comes after the awaited
  quote fetch (:239, 244), and each twin reply's reading comes after its own awaited agent
  fetch (:349, 371), so those timestamps can be later than the user message's.
- Socket.Reply: the slash command's messages and each twin reply all carry `env.now`, the
  user message's time, for the same reason as above (backend/src/socket.ts:262, 304, 383).
- Socket.Server.TakeTwinTurn: the twin reply is stamped `env.now` rather than with a clock
  reading taken after the agent answered (backend/src/socket.ts:383).
- Socket.Session.React: a handler that throws is modelled as a handler with no effect,
  after which the server goes on serving. In the source, the `list.indexOf` throw for an
  inherited key (backend/src/socket.ts:165) is uncaught in a socket.io listener.
  backend/src/index.ts installs no `uncaughtException` handler, so under Node's defaults
  the process exits. That loses the in-memory database (backend/src/db.ts:6) and every
  connection.
- Socket.Session.SendMessage: the same holds for a taken id at the message insert
  (backend/src/socket.ts:139) and for the throws of `/poll` (:290, 307). They reject the
  async listener, nothing handles the rejection, and under Node's defaults the process
  exits. The model records only that nothing further happens in that handler.
- Socket.Server.Send: as for Socket.Session.SendMessage, a thrown insert ends the process
  in the source; the model changes nothing and continues.
- Socket.Server.PostPoll: as for Socket.Session.SendMessage, a taken poll id or message id
  ends the process in the source; the model returns `threw` and continues.
- Format.FormatTimestamp: the diff is taken to be a whole number of milliseconds. When
  `new Date(iso)` cannot parse its text, `diff` is NaN, every comparison is false, and the
  locale branch prints "Invalid Date" (web/src/lib/utils/format.ts:15). The model's
  `int` parameter has no NaN. That case is the `None` (locale) result, which stands for
  the locale text, whatever it is.
- TwinStore.DefaultConfig: one clock reading serves both `createdAt` and `updatedAt`. The
  source reads the clock twice (web/src/lib/stores/twin.svelte.ts:52-53).
