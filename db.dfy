// The SQLite tables of the backend (backend/src/schema.ts, backend/src/db.ts)
// as fields of one object. Keyed tables are maps from the primary key; the
// tables the code reads in insertion order are sequences.
module Db {
  import opened Wrappers
  import opened Types

  /** A row of `twin_configs`. The table has no column for an autonomous spending cap. */
  datatype TwinConfigRow = TwinConfigRow(
    ownerAddress: string,
    enabled: bool,
    personality: string,
    interests: string,
    responseStyle: string,
    maxSwapSizeEth: real,
    autoSummarize: bool,
    createdAt: string,
    updatedAt: string)

  /** The column default of `twin_configs.max_swap_size_eth`. */
  const DefaultMaxSwapSizeEth: real := 0.1

  /** A row of `channel_members`. */
  datatype MemberRow = MemberRow(channelId: string, userAddress: string)

  /** The index of the first message with this id. */
  function FindMessage(messages: seq<Message>, id: string): (r: Option<nat>)
    ensures r.Some? ==> r.value < |messages| && messages[r.value].id == id
    ensures r.Some? ==> forall k :: 0 <= k < r.value ==> messages[k].id != id
    ensures r.None? <==> forall k :: 0 <= k < |messages| ==> messages[k].id != id
  {
    if |messages| == 0 then None
    else if messages[0].id == id then Some(0)
    else
      match FindMessage(messages[1..], id)
      case None => None
      case Some(k) => Some(k + 1)
  }

  /** The id of the message at index `i`. */
  function IdAt(messages: seq<Message>, i: nat): string
    requires i < |messages|
  {
    messages[i].id
  }

  /** Message ids are a primary key. The quantifier fires only on `IdAt` terms, so that
      proofs about the rest of a message sequence do not instantiate it. */
  predicate DistinctIds(messages: seq<Message>) {
    forall i, j {:trigger IdAt(messages, i), IdAt(messages, j)} ::
      0 <= i < j < |messages| ==> IdAt(messages, i) != IdAt(messages, j)
  }

  /** Appending a message whose id is not taken keeps the ids distinct. */
  lemma DistinctIdsAppend(messages: seq<Message>, msg: Message)
    requires DistinctIds(messages) && FindMessage(messages, msg.id).None?
    ensures DistinctIds(messages + [msg])
  {
    var r := messages + [msg];
    forall i, j | 0 <= i < j < |r| ensures IdAt(r, i) != IdAt(r, j) {
      assert IdAt(r, i) == IdAt(messages, i);
      if j < |messages| {
        assert IdAt(r, j) == IdAt(messages, j);
      } else {
        assert messages[i].id != msg.id;
      }
    }
  }

  /** Replacing a message by one with the same id keeps the ids distinct. */
  lemma DistinctIdsUpdate(messages: seq<Message>, k: nat, msg: Message)
    requires DistinctIds(messages) && k < |messages| && msg.id == messages[k].id
    ensures DistinctIds(messages[k := msg])
  {
    var r := messages[k := msg];
    forall i, j | 0 <= i < j < |r| ensures IdAt(r, i) != IdAt(r, j) {
      assert IdAt(r, i) == IdAt(messages, i);
      assert IdAt(r, j) == IdAt(messages, j);
    }
  }

  class Database {
    var users: map<string, User>
    var twinConfigs: map<string, TwinConfigRow>
    var channelMembers: seq<MemberRow>
    var messages: seq<Message>
    var polls: map<string, Poll>

    /** Each keyed row is stored under its own key and message ids are distinct. */
    ghost predicate Valid()
      reads this
    {
      && (forall a :: a in users ==> users[a].address == a)
      && (forall a :: a in twinConfigs ==> twinConfigs[a].ownerAddress == a)
      && (forall id :: id in polls ==> polls[id].id == id)
      && DistinctIds(messages)
    }

    /** The freshly created, empty database. */
    constructor ()
      ensures Valid()
      ensures users == map[] && twinConfigs == map[] && channelMembers == []
      ensures messages == [] && polls == map[]
    {
      users, twinConfigs, channelMembers, messages, polls := map[], map[], [], [], map[];
    }

    /** `db.insert(messages).values(msg)`: fails on a taken primary key, otherwise appends. */
    method InsertMessage(msg: Message) returns (ok: bool)
      requires Valid()
      modifies this`messages
      ensures Valid()
      ensures ok <==> FindMessage(old(messages), msg.id).None?
      ensures messages == if ok then old(messages) + [msg] else old(messages)
    {
      ok := FindMessage(messages, msg.id).None?;
      if ok {
        DistinctIdsAppend(messages, msg);
        messages := messages + [msg];
      }
    }
  }
}
