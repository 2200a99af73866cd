// The web client's chat store (web/src/lib/stores/chat.svelte.ts): one state record,
// updated by the handlers the store binds to the backend's socket events.
module ChatStore {
  import opened Wrappers
  import opened Seqs
  import opened Types
  import Socket

  /** The store's `state` record. The channel list is a constant and `loading` is never
      written, so neither is part of the model. */
  datatype ChatState = ChatState(
    messages: seq<Message>,
    activeChannel: string,
    members: seq<User>,
    unreadCounts: map<string, nat>)

  /** The record the store starts from. */
  const Initial: ChatState := ChatState([], "general", [], map[])

  /** `unreadCounts[channelId] ?? 0`. */
  function Unread(s: ChatState, channelId: string): nat {
    if channelId in s.unreadCounts then s.unreadCounts[channelId] else 0
  }

  // ---------------------------------------------------------------------------
  // Getters and local actions

  /** The `messages` getter: the messages of the active channel. */
  function Visible(s: ChatState): (r: seq<Message>)
    ensures forall m :: m in r <==> m in s.messages && m.channelId == s.activeChannel
  {
    ChannelMessages(s.messages, s.activeChannel)
  }

  /** The unread count of `channelId` becomes 0; nothing else changes. */
  function ClearUnread(s: ChatState, channelId: string): (r: ChatState)
    ensures Unread(r, channelId) == 0
    ensures forall c :: c != channelId ==> Unread(r, c) == Unread(s, c)
    ensures r.messages == s.messages && r.activeChannel == s.activeChannel && r.members == s.members
  {
    s.(unreadCounts := s.unreadCounts[channelId := 0])
  }

  /** `setActiveChannel(channelId)` on the state: the channel becomes active and read. */
  function SwitchChannel(s: ChatState, channelId: string): (r: ChatState)
    ensures r.activeChannel == channelId && Unread(r, channelId) == 0
    ensures forall c :: c != channelId ==> Unread(r, c) == Unread(s, c)
    ensures r.messages == s.messages && r.members == s.members
  {
    ClearUnread(s.(activeChannel := channelId), channelId)
  }

  // ---------------------------------------------------------------------------
  // message:new

  /** A new message is appended, and counts as unread unless the chat is being viewed
      and the message is on the active channel. */
  function OnMessageNew(s: ChatState, viewingChat: bool, m: Message): (r: ChatState)
    ensures r.messages == s.messages + [m]
    ensures r.activeChannel == s.activeChannel && r.members == s.members
    ensures Unread(r, m.channelId)
         == Unread(s, m.channelId) + (if viewingChat && m.channelId == s.activeChannel then 0 else 1)
    ensures forall c :: c != m.channelId ==> Unread(r, c) == Unread(s, c)
  {
    var messages := s.messages + [m];
    if viewingChat && m.channelId == s.activeChannel then s.(messages := messages)
    else s.(messages := messages, unreadCounts := s.unreadCounts[m.channelId := Unread(s, m.channelId) + 1])
  }

  /** The active channel's view grows by the new message exactly when it is on that
      channel, at the end. */
  lemma MessageNewVisible(s: ChatState, viewingChat: bool, m: Message)
    ensures Visible(OnMessageNew(s, viewingChat, m))
         == Visible(s) + (if m.channelId == s.activeChannel then [m] else [])
  {
    ChannelMessagesAppend(s.messages, [m], s.activeChannel);
    ChannelMessagesSingle(m, s.activeChannel);
  }

  // ---------------------------------------------------------------------------
  // message:reaction

  /** One emoji's address list after a reaction event: `add` appends an address not yet
      there, `remove` deletes its first occurrence. */
  function UpdatedList(list: seq<string>, address: string, action: ReactionAction): (r: seq<string>)
    ensures action == Add ==> address in r && (address in list ==> r == list) && (address !in list ==> r == list + [address])
    ensures action == Remove && address in list ==> r == RemoveAt(list, IndexOf(list, address))
    ensures action == Remove && address !in list ==> r == list
  {
    match action
    case Add => if address in list then list else list + [address]
    case Remove =>
      var idx := IndexOf(list, address);
      if idx >= 0 then RemoveAt(list, idx) else list
  }

  /** Adding never creates a duplicate address. */
  lemma AddKeepsDistinct(list: seq<string>, address: string)
    requires NoDuplicates(list)
    ensures NoDuplicates(UpdatedList(list, address, Add))
    ensures Count(UpdatedList(list, address, Add), address) == 1
  {
    var r := UpdatedList(list, address, Add);
    if address !in list {
      CountAppend(list, [address], address);
      assert Count([address], address) == 1 by { assert [address][1..] == []; }
    } else {
      DistinctCountOne(list, address);
    }
  }

  /** In a list without duplicates each present element occurs once. */
  lemma {:induction false} DistinctCountOne(list: seq<string>, x: string)
    requires NoDuplicates(list) && x in list
    ensures Count(list, x) == 1
  {
    if list[0] == x {
      assert x !in list[1..] by {
        forall k | 0 <= k < |list[1..]| ensures list[1..][k] != x {
          assert list[1..][k] == list[k + 1];
        }
      }
    } else {
      assert NoDuplicates(list[1..]) by {
        forall i, j | 0 <= i < j < |list[1..]| ensures list[1..][i] != list[1..][j] {
          assert list[1..][i] == list[i + 1] && list[1..][j] == list[j + 1];
        }
      }
      DistinctCountOne(list[1..], x);
    }
  }

  /** Removing takes away exactly one occurrence of a present address and leaves every
      other address's count as it was. */
  lemma RemoveDropsOne(list: seq<string>, address: string, other: string)
    requires address in list && other != address
    ensures Count(UpdatedList(list, address, Remove), address) == Count(list, address) - 1
    ensures Count(UpdatedList(list, address, Remove), other) == Count(list, other)
  {
    var i := IndexOf(list, address);
    var r := UpdatedList(list, address, Remove);
    assert list == list[..i] + [address] + list[i + 1..];
    assert r == list[..i] + list[i + 1..];
    CountAppend(list[..i] + [address], list[i + 1..], address);
    CountAppend(list[..i], [address], address);
    CountAppend(list[..i], list[i + 1..], address);
    CountAppend(list[..i] + [address], list[i + 1..], other);
    CountAppend(list[..i], [address], other);
    CountAppend(list[..i], list[i + 1..], other);
    assert [address][1..] == [];
  }

  /** The reactions of one message after the event: the emoji's entry is always written.
      `reactions[emoji] ? [...reactions[emoji]] : []` spreads whatever the lookup gives,
      so an emoji naming a member every object inherits (a function, or the prototype for
      `__proto__`) makes the spread throw: None. */
  function Reacted(reactions: Reactions, emoji: string, address: string, action: ReactionAction): (r: Option<Reactions>)
    ensures r.None? <==> InheritedKey(reactions, emoji)
    ensures r.Some? ==> r.value.Keys == reactions.Keys + {emoji}
    ensures r.Some? ==> forall e :: e in reactions && e != emoji ==> r.value[e] == reactions[e]
    ensures r.Some? ==> r.value[emoji] == UpdatedList(if emoji in reactions then reactions[emoji] else [], address, action)
  {
    if InheritedKey(reactions, emoji) then None
    else Some(reactions[emoji := UpdatedList(if emoji in reactions then reactions[emoji] else [], address, action)])
  }

  /** Some message with the id has no own entry for an inherited member's name. */
  predicate ReactionThrows(messages: seq<Message>, messageId: string, emoji: string) {
    exists i :: 0 <= i < |messages| && messages[i].id == messageId && InheritedKey(messages[i].reactions, emoji)
  }

  /** The stored messages after a reaction event: only those with the id change, and only
      in their reactions; None when the `map` callback throws on one of them, and then
      `state.messages` is not assigned. */
  function ApplyReaction(messages: seq<Message>, messageId: string, emoji: string, address: string,
                         action: ReactionAction): (r: Option<seq<Message>>)
    ensures r.None? <==> ReactionThrows(messages, messageId, emoji)
    ensures r.Some? ==> |r.value| == |messages|
    ensures r.Some? ==> forall i :: 0 <= i < |messages| && messages[i].id != messageId ==> r.value[i] == messages[i]
    ensures r.Some? ==> forall i :: 0 <= i < |messages| && messages[i].id == messageId ==>
      && Reacted(messages[i].reactions, emoji, address, action).Some?
      && r.value[i] == messages[i].(reactions := Reacted(messages[i].reactions, emoji, address, action).value)
  {
    if ReactionThrows(messages, messageId, emoji) then None
    else
      Some(seq(|messages|, i requires 0 <= i < |messages| =>
        if messages[i].id != messageId then messages[i]
        else messages[i].(reactions := Reacted(messages[i].reactions, emoji, address, action).GetOr(messages[i].reactions))))
  }

  /** The `message:reaction` handler: a thrown callback leaves the state as it was. */
  function OnMessageReaction(s: ChatState, messageId: string, emoji: string, address: string,
                             action: ReactionAction): (r: ChatState)
    ensures ReactionThrows(s.messages, messageId, emoji) ==> r == s
    ensures !ReactionThrows(s.messages, messageId, emoji) ==>
      r.messages == ApplyReaction(s.messages, messageId, emoji, address, action).value
    ensures r.activeChannel == s.activeChannel && r.members == s.members && r.unreadCounts == s.unreadCounts
  {
    match ApplyReaction(s.messages, messageId, emoji, address, action)
    case None => s
    case Some(messages) => s.(messages := messages)
  }

  /** A reaction event changes no message's id, channel or content. */
  lemma ReactionKeepsMessages(s: ChatState, messageId: string, emoji: string, address: string, action: ReactionAction)
    ensures var r := OnMessageReaction(s, messageId, emoji, address, action);
      && |r.messages| == |s.messages|
      && forall i :: 0 <= i < |r.messages| ==>
           r.messages[i].id == s.messages[i].id && r.messages[i].channelId == s.messages[i].channelId
           && r.messages[i].content == s.messages[i].content
  {
  }

  /** The store's update from a `message:reaction` event matches the backend's toggle that
      sent it: a toggle that went through and announced `action` leaves the same list in the
      store's copy of the reactions, and the store throws on exactly the emoji where the
      backend did. */
  lemma ReactionMirrorsServer(reactions: Reactions, emoji: string, address: string, action: ReactionAction)
    ensures Reacted(reactions, emoji, address, action).None? <==> Socket.ToggleReaction(reactions, emoji, address).None?
    ensures var toggled := Socket.ToggleReaction(reactions, emoji, address);
      toggled.Some? && toggled.value.1 == action ==> Reacted(reactions, emoji, address, action) == Some(toggled.value.0)
  {
  }

  // ---------------------------------------------------------------------------
  // Members

  /** `members.filter(m => m.address !== address)`. */
  function WithoutAddress(members: seq<User>, address: string): (r: seq<User>)
    ensures |r| <= |members|
    ensures forall u :: u in r <==> u in members && u.address != address
  {
    if members == [] then []
    else (if members[0].address != address then [members[0]] else []) + WithoutAddress(members[1..], address)
  }

  /** Some member entry has this address. */
  predicate HasAddress(members: seq<User>, address: string) {
    exists k :: 0 <= k < |members| && members[k].address == address
  }

  /** Filtering out an address nobody has changes nothing. */
  lemma {:induction false} WithoutAbsentAddress(members: seq<User>, address: string)
    requires !HasAddress(members, address)
    ensures WithoutAddress(members, address) == members
  {
    if members != [] {
      assert members[0].address != address;
      forall k | 0 <= k < |members[1..]| ensures members[1..][k].address != address {
        assert members[1..][k] == members[k + 1];
      }
      WithoutAbsentAddress(members[1..], address);
      assert members == [members[0]] + members[1..];
    }
  }

  function OnUserJoin(s: ChatState, user: User): (r: ChatState)
    ensures r.members == WithoutAddress(s.members, user.address) + [user]
    ensures r.messages == s.messages && r.activeChannel == s.activeChannel && r.unreadCounts == s.unreadCounts
  {
    s.(members := WithoutAddress(s.members, user.address) + [user])
  }

  /** After `user:join` the joining user has exactly one entry, the last one, and every
      other member entry is kept. */
  lemma UserJoinOnce(s: ChatState, user: User)
    ensures var ms := OnUserJoin(s, user).members;
      && |ms| >= 1 && ms[|ms| - 1] == user
      && (forall k :: 0 <= k < |ms| - 1 ==> ms[k].address != user.address)
      && (forall u :: u in s.members && u.address != user.address ==> u in ms)
  {
    var ms := OnUserJoin(s, user).members;
    var rest := WithoutAddress(s.members, user.address);
    forall k | 0 <= k < |ms| - 1 ensures ms[k].address != user.address {
      assert ms[k] == rest[k];
      assert rest[k] in rest;
    }
  }

  function OnUserLeave(s: ChatState, address: string): (r: ChatState)
    ensures r.members == WithoutAddress(s.members, address)
    ensures r.messages == s.messages && r.activeChannel == s.activeChannel && r.unreadCounts == s.unreadCounts
  {
    s.(members := WithoutAddress(s.members, address))
  }

  /** After `user:leave` no entry has the address, and leaving twice is leaving once. */
  lemma UserLeaveRemovesAll(s: ChatState, address: string)
    ensures !HasAddress(OnUserLeave(s, address).members, address)
    ensures OnUserLeave(OnUserLeave(s, address), address) == OnUserLeave(s, address)
  {
    var ms := OnUserLeave(s, address).members;
    forall k | 0 <= k < |ms| ensures ms[k].address != address {
      assert ms[k] in ms;
    }
    WithoutAbsentAddress(ms, address);
  }

  /** The `user:status` map: matching entries take the new status. */
  function WithStatus(members: seq<User>, address: string, status: Status): (r: seq<User>)
    ensures |r| == |members|
    ensures forall k :: 0 <= k < |r| ==>
      r[k] == if members[k].address == address then members[k].(status := status) else members[k]
  {
    seq(|members|, k requires 0 <= k < |members| =>
      if members[k].address == address then members[k].(status := status) else members[k])
  }

  function OnUserStatus(s: ChatState, address: string, status: Status): (r: ChatState)
    ensures r.members == WithStatus(s.members, address, status)
    ensures r.messages == s.messages && r.activeChannel == s.activeChannel && r.unreadCounts == s.unreadCounts
  {
    s.(members := WithStatus(s.members, address, status))
  }

  /** `user:status` changes nothing but the status of the matching entries: every entry
      keeps its address, name, avatar, twin flag and join time. */
  lemma UserStatusOnlyStatus(s: ChatState, address: string, status: Status)
    ensures var ms := OnUserStatus(s, address, status).members;
      && |ms| == |s.members|
      && forall k :: 0 <= k < |ms| ==>
           ms[k].(status := s.members[k].status) == s.members[k]
           && (ms[k].address == address ==> ms[k].status == status)
           && (ms[k].address != address ==> ms[k] == s.members[k])
  {
  }

  /** `channel:members` replaces the list only for the active channel. */
  function OnChannelMembers(s: ChatState, channelId: string, members: seq<User>): (r: ChatState)
    ensures r.members == if channelId == s.activeChannel then members else s.members
    ensures r.messages == s.messages && r.activeChannel == s.activeChannel && r.unreadCounts == s.unreadCounts
  {
    if channelId == s.activeChannel then s.(members := members) else s
  }

  // ---------------------------------------------------------------------------
  // The socket handlers and loadMessages

  /** The handler the store binds for each server event; the store binds none for twin
      status and poll updates. */
  function Handle(s: ChatState, viewingChat: bool, e: ServerEvent): (r: ChatState)
    ensures r.activeChannel == s.activeChannel
    ensures e.TwinStatusEvent? || e.PollUpdate? ==> r == s
    ensures !(e.MessageNew? || e.MessageReaction?) ==> r.messages == s.messages && r.unreadCounts == s.unreadCounts
    ensures e.MessageNew? || e.MessageReaction? ==> r.members == s.members
    ensures e.MessageReaction? ==> r.unreadCounts == s.unreadCounts && |r.messages| == |s.messages|
  {
    match e
    case MessageNew(m) => OnMessageNew(s, viewingChat, m)
    case MessageReaction(id, emoji, address, action) => OnMessageReaction(s, id, emoji, address, action)
    case UserJoin(u) => OnUserJoin(s, u)
    case UserLeave(a) => OnUserLeave(s, a)
    case UserStatus(a, st) => OnUserStatus(s, a, st)
    case ChannelMembers(c, ms) => OnChannelMembers(s, c, ms)
    case TwinStatusEvent(_) => s
    case PollUpdate(_) => s
  }

  /** The ids of the stored messages. */
  function Ids(messages: seq<Message>): set<string> {
    set m | m in messages :: m.id
  }

  /** The loaded messages whose id is not in `existing`, in their order. */
  function FreshMessages(loaded: seq<Message>, existing: set<string>): (r: seq<Message>)
    ensures forall m :: m in r <==> m in loaded && m.id !in existing
  {
    if loaded == [] then []
    else (if loaded[0].id !in existing then [loaded[0]] else []) + FreshMessages(loaded[1..], existing)
  }

  /** Filtering keeps the loaded order: it distributes over concatenation. */
  lemma {:induction false} FreshMessagesAppend(a: seq<Message>, b: seq<Message>, existing: set<string>)
    ensures FreshMessages(a + b, existing) == FreshMessages(a, existing) + FreshMessages(b, existing)
  {
    if a == [] {
      assert a + b == b;
    } else {
      assert (a + b)[1..] == a[1..] + b;
      FreshMessagesAppend(a[1..], b, existing);
      var head := if a[0].id !in existing then [a[0]] else [];
      assert FreshMessages(a + b, existing) == head + (FreshMessages(a[1..], existing) + FreshMessages(b, existing));
      assert head + (FreshMessages(a[1..], existing) + FreshMessages(b, existing))
          == (head + FreshMessages(a[1..], existing)) + FreshMessages(b, existing);
    }
  }

  /** A single loaded message is kept exactly when its id is not stored. */
  lemma FreshMessagesSingle(m: Message, existing: set<string>)
    ensures FreshMessages([m], existing) == if m.id !in existing then [m] else []
  {
    assert [m][1..] == [];
  }

  /** `loadMessages(messages)`: the stored messages followed by the loaded ones whose id is
      not already stored, in their loaded order. */
  function MergeMessages(stored: seq<Message>, loaded: seq<Message>): (r: seq<Message>)
    ensures |r| >= |stored| && r[..|stored|] == stored
    ensures r[|stored|..] == FreshMessages(loaded, Ids(stored))
    ensures forall m :: m in r[|stored|..] <==> m in loaded && m.id !in Ids(stored)
  {
    var r := stored + FreshMessages(loaded, Ids(stored));
    assert r[|stored|..] == FreshMessages(loaded, Ids(stored));
    r
  }

  /** Every loaded message's id is stored after the merge, so loading the same batch again
      adds nothing. */
  lemma MergeIdempotent(stored: seq<Message>, loaded: seq<Message>)
    ensures MergeMessages(MergeMessages(stored, loaded), loaded) == MergeMessages(stored, loaded)
  {
    var once := MergeMessages(stored, loaded);
    forall m | m in loaded ensures m.id in Ids(once) {
      if m.id in Ids(stored) {
        var n :| n in stored && n.id == m.id;
        assert n == once[..|stored|][IndexOf(stored, n)];
        assert n in once;
      } else {
        assert m in once[|stored|..];
        assert m in once;
      }
    }
    NoneFresh(loaded, Ids(once));
  }

  lemma {:induction false} NoneFresh(loaded: seq<Message>, existing: set<string>)
    requires forall m :: m in loaded ==> m.id in existing
    ensures FreshMessages(loaded, existing) == []
  {
    if loaded != [] {
      assert loaded[0] in loaded;
      assert forall m :: m in loaded[1..] ==> m in loaded;
      NoneFresh(loaded[1..], existing);
    }
  }

  // ---------------------------------------------------------------------------
  // The store object

  /** The `chat` store with its module variables `socketBound` and `viewingChat`. */
  class Store {
    var state: ChatState
    var socketBound: bool
    var viewingChat: bool

    constructor ()
      ensures state == Initial && !socketBound && !viewingChat
    {
      state := Initial;
      socketBound := false;
      viewingChat := false;
    }

    /** `setViewingChat(viewing)`: viewing clears the active channel's unread count. */
    method SetViewingChat(viewing: bool)
      modifies this`viewingChat, this`state
      ensures viewingChat == viewing
      ensures state == if viewing then ClearUnread(old(state), old(state).activeChannel) else old(state)
    {
      viewingChat := viewing;
      if viewing {
        state := ClearUnread(state, state.activeChannel);
      }
    }

    /** `setActiveChannel(channelId)`, returning the `channel:join` it emits. */
    method SetActiveChannel(channelId: string) returns (sent: ClientEvent)
      modifies this`state
      ensures state == SwitchChannel(old(state), channelId)
      ensures sent == JoinChannel(channelId)
    {
      state := SwitchChannel(state, channelId);
      sent := JoinChannel(channelId);
    }

    /** `sendMessage(content, type)`: a message for the active channel, 'text' unless
        another type is given; the state is not touched. */
    method SendMessage(content: string, kind: Option<MessageType>) returns (sent: ClientEvent)
      ensures sent.SendMessage? && sent.channelId == state.activeChannel && sent.content == content
      ensures kind.None? ==> sent.kind == Text
      ensures kind.Some? ==> sent.kind == kind.value
    {
      sent := ClientEvent.SendMessage(state.activeChannel, content, kind.GetOr(Text));
    }

    /** `bindSocket()`: binds the handlers on the first call only. */
    method BindSocket()
      modifies this`socketBound
      ensures socketBound
    {
      if socketBound {
        return;
      }
      socketBound := true;
    }

    /** A server event reaching the store: handled once the socket is bound, ignored
        before. */
    method Receive(e: ServerEvent)
      modifies this`state
      ensures state == if socketBound then Handle(old(state), viewingChat, e) else old(state)
    {
      if socketBound {
        state := Handle(state, viewingChat, e);
      }
    }

    /** `loadMessages(messages)`. */
    method LoadMessages(loaded: seq<Message>)
      modifies this`state
      ensures state == old(state).(messages := MergeMessages(old(state).messages, loaded))
    {
      state := state.(messages := MergeMessages(state.messages, loaded));
    }
  }
}
