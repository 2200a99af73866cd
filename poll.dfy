// Poll creation and vote accounting of backend/src/routes/poll.ts. The uuids and the
// clock are parameters; the JSON text of the `options` column is kept as the typed list.
module Polls {
  import opened Wrappers
  import opened Seqs
  import opened Types
  import opened Db

  /** The HTTP replies of the two poll routes. */
  datatype PollReply =
    | BadRequest(error: string)   // 400
    | NotFound(error: string)     // 404
    | InsertFailed                // the insert hit a taken primary key and threw
    | PollOk(poll: Poll)          // 200 with the poll and its options

  /** The guard of POST /poll: a non-empty channel id and question, and at least two options. */
  predicate ValidPollRequest(channelId: Option<string>, question: Option<string>, options: Option<seq<string>>)
    ensures !ValidPollRequest(channelId, question, options) <==>
      || channelId.None? || channelId.value == ""
      || question.None? || question.value == ""
      || options.None? || |options.value| < 2
  {
    && channelId.Some? && channelId.value != ""
    && question.Some? && question.value != ""
    && options.Some? && |options.value| >= 2
  }

  /** The poll POST /poll builds: option `k` gets the `k`-th uuid, the poll the one after. */
  function NewPoll(channelId: string, question: string, texts: seq<string>, creator: Option<string>,
                   uuid: nat -> string, now: string): (p: Poll)
    ensures |p.options| == |texts|
    ensures forall k :: 0 <= k < |texts| ==> p.options[k].text == texts[k] && p.options[k].votes == []
    ensures p.creator == creator.GetOr("unknown")
    ensures p.channelId == channelId && p.question == question && p.createdAt == now
  {
    Poll(
      uuid(|texts|),
      channelId,
      creator.GetOr("unknown"),
      question,
      seq(|texts|, k requires 0 <= k < |texts| => PollOption(uuid(k), texts[k], [])),
      now)
  }

  // ---------------------------------------------------------------------------
  // Vote accounting

  /** One option after `opt.votes.filter(v => v !== voter)`; an undefined voter matches no
      stored vote. */
  function Retracted(opt: PollOption, voter: Option<string>): (r: PollOption)
    ensures r.id == opt.id && r.text == opt.text
    ensures voter.Some? ==> voter.value !in r.votes
  {
    if voter.Some? then opt.(votes := Without(opt.votes, voter.value)) else opt
  }

  /** Every option with the voter's earlier votes taken out. */
  function RetractAll(options: seq<PollOption>, voter: Option<string>): (r: seq<PollOption>)
    ensures |r| == |options|
    ensures forall k :: 0 <= k < |r| ==> r[k] == Retracted(options[k], voter)
  {
    seq(|options|, k requires 0 <= k < |options| => Retracted(options[k], voter))
  }

  /** `options.find(o => o.id === optionId)`, as an index; an undefined id matches nothing. */
  function FindOption(options: seq<PollOption>, optionId: Option<string>): (r: Option<nat>)
    ensures r.Some? ==> optionId.Some? && r.value < |options| && options[r.value].id == optionId.value
    ensures r.Some? ==> forall k :: 0 <= k < r.value ==> options[k].id != optionId.value
    ensures r.None? ==> forall k :: 0 <= k < |options| ==> optionId.None? || options[k].id != optionId.value
  {
    if optionId.None? || |options| == 0 then None
    else if options[0].id == optionId.value then Some(0)
    else
      match FindOption(options[1..], optionId)
      case None => None
      case Some(k) => Some(k + 1)
  }

  /** Option lists with the same ids in the same order find the same option. */
  lemma {:induction false} FindOptionById(a: seq<PollOption>, b: seq<PollOption>, optionId: Option<string>)
    requires |a| == |b| && forall k :: 0 <= k < |a| ==> a[k].id == b[k].id
    ensures FindOption(a, optionId) == FindOption(b, optionId)
  {
    if optionId.Some? && |a| > 0 && a[0].id != optionId.value {
      FindOptionById(a[1..], b[1..], optionId);
    }
  }

  /** The options after PUT /poll/:pollId/vote: the voter is retracted everywhere, then
      `voter ?? 'unknown'` is appended to the first option with the given id. */
  function ApplyVote(options: seq<PollOption>, optionId: Option<string>, voter: Option<string>): (r: seq<PollOption>)
    ensures |r| == |options|
    ensures forall k :: 0 <= k < |options| ==> r[k].id == options[k].id && r[k].text == options[k].text
  {
    var cleared := RetractAll(options, voter);
    match FindOption(cleared, optionId)
    case None => cleared
    case Some(k) => cleared[k := cleared[k].(votes := cleared[k].votes + [voter.GetOr("unknown")])]
  }

  /** After voting for an existing option, the voter is the last entry of that option, holds
      exactly one entry there, and appears in no other option. */
  lemma {:induction false} VoteLeavesOneBallot(options: seq<PollOption>, optionId: Option<string>, v: string)
    requires FindOption(options, optionId).Some?
    ensures var r := ApplyVote(options, optionId, Some(v));
      var k := FindOption(options, optionId).value;
      && r[k].votes != [] && r[k].votes[|r[k].votes| - 1] == v
      && Count(r[k].votes, v) == 1
      && forall j :: 0 <= j < |r| && j != k ==> v !in r[j].votes
  {
    var cleared := RetractAll(options, Some(v));
    FindOptionById(cleared, options, optionId);
    var k := FindOption(options, optionId).value;
    var r := ApplyVote(options, optionId, Some(v));
    assert r[k].votes == cleared[k].votes + [v];
    CountAppend(cleared[k].votes, [v], v);
  }

  /** Voting for an option that does not exist only retracts the voter's earlier vote. */
  lemma UnknownOptionRetracts(options: seq<PollOption>, optionId: Option<string>, voter: Option<string>)
    requires FindOption(options, optionId).None?
    ensures ApplyVote(options, optionId, voter) == RetractAll(options, voter)
    ensures voter.Some? ==> forall j :: 0 <= j < |options| ==> voter.value !in ApplyVote(options, optionId, voter)[j].votes
  {
    FindOptionById(RetractAll(options, voter), options, optionId);
  }

  /** Every other voter keeps their entries, in their order: with the voter's own entries
      dropped, each option lists what it listed before. */
  lemma {:induction false} VoteKeepsOtherVoters(options: seq<PollOption>, optionId: Option<string>, v: string)
    ensures forall j :: 0 <= j < |options| ==>
      Without(ApplyVote(options, optionId, Some(v))[j].votes, v) == Without(options[j].votes, v)
  {
    var cleared := RetractAll(options, Some(v));
    forall j | 0 <= j < |options|
      ensures Without(ApplyVote(options, optionId, Some(v))[j].votes, v) == Without(options[j].votes, v)
    {
      WithoutIdempotent(options[j].votes, v);
      var f := FindOption(cleared, optionId);
      if f.Some? && f.value == j {
        WithoutAppend(cleared[j].votes, [v], v);
      }
    }
  }

  /** The number of entries of `v` summed over all options. */
  function TotalVotes(options: seq<PollOption>, v: string): nat {
    if |options| == 0 then 0 else Count(options[0].votes, v) + TotalVotes(options[1..], v)
  }

  /** `v` has no entry in any option exactly when the total is 0. */
  lemma {:induction false} TotalVotesZero(options: seq<PollOption>, v: string)
    ensures TotalVotes(options, v) == 0 <==> forall j :: 0 <= j < |options| ==> v !in options[j].votes
  {
    if |options| > 0 {
      TotalVotesZero(options[1..], v);
      if TotalVotes(options, v) == 0 {
        forall j | 0 <= j < |options| ensures v !in options[j].votes {
          if j > 0 { assert options[j] == options[1..][j - 1]; }
        }
      } else if Count(options[0].votes, v) == 0 {
        var j :| 0 <= j < |options[1..]| && v in options[1..][j].votes;
        assert v in options[j + 1].votes;
      }
    }
  }

  /** Replacing one option changes the total by the difference at that option. */
  lemma {:induction false} TotalVotesUpdate(options: seq<PollOption>, k: nat, o: PollOption, v: string)
    requires k < |options|
    ensures TotalVotes(options[k := o], v) == TotalVotes(options, v) - Count(options[k].votes, v) + Count(o.votes, v)
  {
    if k > 0 {
      TotalVotesUpdate(options[1..], k - 1, o, v);
      assert options[k := o][1..] == options[1..][k - 1 := o];
    }
  }

  /** A defined voter holds at most one vote in the whole poll after voting, and one exactly
      when the option exists; so repeated votes never add up. */
  lemma AtMostOneVote(options: seq<PollOption>, optionId: Option<string>, v: string)
    ensures TotalVotes(ApplyVote(options, optionId, Some(v)), v) == if FindOption(options, optionId).Some? then 1 else 0
  {
    var cleared := RetractAll(options, Some(v));
    TotalVotesZero(cleared, v);
    FindOptionById(cleared, options, optionId);
    var f := FindOption(cleared, optionId);
    if f.Some? {
      var k := f.value;
      TotalVotesUpdate(cleared, k, cleared[k].(votes := cleared[k].votes + [v]), v);
      CountAppend(cleared[k].votes, [v], v);
    }
  }

  /** Casting the same vote twice is casting it once. */
  lemma VoteIdempotent(options: seq<PollOption>, optionId: Option<string>, v: string)
    ensures ApplyVote(ApplyVote(options, optionId, Some(v)), optionId, Some(v)) == ApplyVote(options, optionId, Some(v))
  {
    var once := ApplyVote(options, optionId, Some(v));
    var cleared := RetractAll(options, Some(v));
    FindOptionById(cleared, options, optionId);
    FindOptionById(RetractAll(once, Some(v)), once, optionId);
    FindOptionById(once, options, optionId);
    assert RetractAll(once, Some(v)) == cleared by {
      forall j | 0 <= j < |options| ensures RetractAll(once, Some(v))[j] == cleared[j] {
        WithoutIdempotent(options[j].votes, v);
        var f := FindOption(cleared, optionId);
        if f.Some? && f.value == j {
          WithoutAppend(cleared[j].votes, [v], v);
        }
      }
    }
  }

  // ---------------------------------------------------------------------------
  // Routes

  /** POST /poll. */
  method CreatePoll(db: Database, channelId: Option<string>, question: Option<string>, options: Option<seq<string>>,
                    creator: Option<string>, uuid: nat -> string, now: string) returns (reply: PollReply)
    requires db.Valid()
    modifies db`polls
    ensures db.Valid()
    ensures !ValidPollRequest(channelId, question, options) ==>
      reply == BadRequest("channelId, question, and at least 2 options required") && db.polls == old(db.polls)
    ensures ValidPollRequest(channelId, question, options) ==>
      var p := NewPoll(channelId.value, question.value, options.value, creator, uuid, now);
      if p.id in old(db.polls) then reply == InsertFailed && db.polls == old(db.polls)
      else reply == PollOk(p) && db.polls == old(db.polls)[p.id := p]
  {
    if !ValidPollRequest(channelId, question, options) {
      return BadRequest("channelId, question, and at least 2 options required");
    }
    var p := NewPoll(channelId.value, question.value, options.value, creator, uuid, now);
    if p.id in db.polls {
      return InsertFailed;
    }
    db.polls := db.polls[p.id := p];
    reply := PollOk(p);
  }

  /** PUT /poll/:pollId/vote: a loop retracts the voter from every option, then the vote is
      appended to the target option and the poll written back. */
  method Vote(db: Database, pollId: string, optionId: Option<string>, voter: Option<string>) returns (reply: PollReply)
    requires db.Valid()
    modifies db`polls
    ensures db.Valid()
    ensures pollId !in old(db.polls) ==> reply == NotFound("Poll not found") && db.polls == old(db.polls)
    ensures pollId in old(db.polls) ==>
      var p := old(db.polls)[pollId].(options := ApplyVote(old(db.polls)[pollId].options, optionId, voter));
      reply == PollOk(p) && db.polls == old(db.polls)[pollId := p]
  {
    if pollId !in db.polls {
      return NotFound("Poll not found");
    }
    var poll := db.polls[pollId];
    var opts := poll.options;
    var i := 0;
    while i < |opts|
      invariant 0 <= i <= |opts| == |poll.options|
      invariant forall k :: 0 <= k < i ==> opts[k] == Retracted(poll.options[k], voter)
      invariant forall k :: i <= k < |opts| ==> opts[k] == poll.options[k]
    {
      if voter.Some? {
        opts := opts[i := opts[i].(votes := Without(opts[i].votes, voter.value))];
      }
      i := i + 1;
    }
    assert opts == RetractAll(poll.options, voter);
    var target := FindOption(opts, optionId);
    if target.Some? {
      var k := target.value;
      opts := opts[k := opts[k].(votes := opts[k].votes + [voter.GetOr("unknown")])];
    }
    var updated := poll.(options := opts);
    db.polls := db.polls[pollId := updated];
    reply := PollOk(updated);
  }
}
