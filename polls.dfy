/**
 * The poll store (src/stores/poll.store.ts): an ordered list of polls that
 * grows by creation and whose vote counters grow by single-choice votes.
 * Identifiers the source draws from `crypto.randomUUID()` are supplied by
 * the caller, fresh.
 */
module Polls {
  import opened Wrappers
  import opened Lookup
  import opened PollTypes

  /** The predicate the source hands to `find`: "this poll has id `id`". */
  function PollHasId(id: string): Poll -> bool
  {
    (p: Poll) => p.id == id
  }

  /** No two polls share an id. */
  ghost predicate UniquePollIds(polls: seq<Poll>)
  {
    forall i, j :: 0 <= i < j < |polls| ==> polls[i].id != polls[j].id
  }

  /** The options of a poll have pairwise distinct ids. */
  ghost predicate UniqueOptionIds(p: Poll)
  {
    forall a, b :: 0 <= a < b < |p.options| ==> p.options[a].id != p.options[b].id
  }

  /** What every store state satisfies: unique poll ids, and every poll consistent. */
  ghost predicate ValidPolls(polls: seq<Poll>)
  {
    && UniquePollIds(polls)
    && forall k :: 0 <= k < |polls| ==> Consistent(polls[k]) && UniqueOptionIds(polls[k])
  }

  /** Every identifier already handed out: poll ids and option ids. */
  ghost function UsedIds(polls: seq<Poll>): set<string>
  {
    (set p | p in polls :: p.id) + (set p, o | p in polls && o in p.options :: o.id)
  }

  /** The ids for a new poll and its options are pairwise distinct and unused. */
  ghost predicate FreshIds(polls: seq<Poll>, pollId: string, optionIds: seq<string>)
  {
    && Distinct([pollId] + optionIds)
    && forall x :: x in [pollId] + optionIds ==> x !in UsedIds(polls)
  }

  /** The poll `createPoll` builds: one unvoted option per label, in order. */
  function NewPoll(pollId: string, question: string, texts: seq<string>, optionIds: seq<string>): (p: Poll)
    requires |optionIds| == |texts|
    ensures p.id == pollId && p.question == question && p.totalVotes == 0
    ensures |p.options| == |texts|
    ensures forall i :: 0 <= i < |texts| ==>
              p.options[i].id == optionIds[i] && p.options[i].text == texts[i] && p.options[i].votes == 0
    ensures Consistent(p)
  {
    var options := seq(|texts|, i requires 0 <= i < |texts| => PollOption(optionIds[i], texts[i], 0));
    SumVotesOfUnvoted(options);
    Poll(pollId, question, options, 0)
  }

  /** Poll `p` after one vote for option `i`: that counter and the total go up by one. */
  function Vote(p: Poll, i: nat): (r: Poll)
    requires i < |p.options|
    ensures r.id == p.id && r.question == p.question && |r.options| == |p.options|
    ensures Consistent(p) ==> Consistent(r)
  {
    SumVotesAfterVote(p.options, i);
    p.(options := p.options[i := p.options[i].(votes := p.options[i].votes + 1)],
       totalVotes := p.totalVotes + 1)
  }

  /** The store's polls after `submitResponse(pollId, optionIndex)`. */
  function SubmitVote(polls: seq<Poll>, pollId: string, optionIndex: int): (r: seq<Poll>)
    ensures |r| == |polls|
  {
    match FindIndex(polls, PollHasId(pollId))
    case Some(k) =>
      if 0 <= optionIndex < |polls[k].options| then polls[k := Vote(polls[k], optionIndex)] else polls
    case None => polls
  }

  /** Under unique ids, the poll `find` selects is the one carrying the id. */
  lemma FindPoll(polls: seq<Poll>, k: nat)
    requires UniquePollIds(polls) && k < |polls|
    ensures FindIndex(polls, PollHasId(polls[k].id)) == Some(k)
  {
    FindIndexOfOnly(polls, PollHasId(polls[k].id), k);
  }

  /** Creation appends a poll that keeps every store invariant. */
  lemma CreateKeepsValid(polls: seq<Poll>, pollId: string, question: string, texts: seq<string>, optionIds: seq<string>)
    requires ValidPolls(polls)
    requires |optionIds| == |texts| && FreshIds(polls, pollId, optionIds)
    ensures ValidPolls(polls + [NewPoll(pollId, question, texts, optionIds)])
  {
    var p := NewPoll(pollId, question, texts, optionIds);
    var all := polls + [p];
    assert pollId in [pollId] + optionIds;
    forall i | 0 <= i < |polls| ensures all[i].id != p.id {
      assert polls[i] in polls;
      assert polls[i].id in UsedIds(polls);
    }
    forall a, b | 0 <= a < b < |p.options| ensures p.options[a].id != p.options[b].id {
      assert ([pollId] + optionIds)[a + 1] == optionIds[a];
      assert ([pollId] + optionIds)[b + 1] == optionIds[b];
    }
  }

  /** A vote keeps every store invariant, in particular the vote-sum invariant. */
  lemma {:induction false} SubmitVoteKeepsValid(polls: seq<Poll>, pollId: string, optionIndex: int)
    requires ValidPolls(polls)
    ensures ValidPolls(SubmitVote(polls, pollId, optionIndex))
  {
    match FindIndex(polls, PollHasId(pollId))
    case Some(k) =>
      if 0 <= optionIndex < |polls[k].options| {
        assert Consistent(Vote(polls[k], optionIndex));
      }
    case None =>
  }

  /**
   * A vote for an option in range of the first poll with the given id adds one
   * to that option and to the poll's total; every other option and every
   * other poll is left as it was.
   */
  lemma SubmitVoteRecords(polls: seq<Poll>, pollId: string, optionIndex: int, k: nat)
    requires IsFirst(polls, PollHasId(pollId), k)
    requires 0 <= optionIndex < |polls[k].options|
    ensures var r := SubmitVote(polls, pollId, optionIndex);
      && |r| == |polls|
      && r[k].id == polls[k].id && r[k].question == polls[k].question
      && |r[k].options| == |polls[k].options|
      && r[k].options[optionIndex].votes == polls[k].options[optionIndex].votes + 1
      && r[k].options[optionIndex].id == polls[k].options[optionIndex].id
      && r[k].options[optionIndex].text == polls[k].options[optionIndex].text
      && r[k].totalVotes == polls[k].totalVotes + 1
      && (forall o :: 0 <= o < |polls[k].options| && o != optionIndex ==> r[k].options[o] == polls[k].options[o])
      && (forall j :: 0 <= j < |polls| && j != k ==> r[j] == polls[j])
  {
    assert FindIndex(polls, PollHasId(pollId)) == Some(k);
  }

  /**
   * A vote changes the store exactly when some poll has the id and the index
   * lies in its option range; otherwise (unknown id, negative index, index
   * past the last option) it is a no-op.
   */
  lemma SubmitVoteIgnored(polls: seq<Poll>, pollId: string, optionIndex: int)
    requires UniquePollIds(polls)
    ensures SubmitVote(polls, pollId, optionIndex) == polls <==>
      !exists k :: 0 <= k < |polls| && polls[k].id == pollId && 0 <= optionIndex < |polls[k].options|
  {
    var r := SubmitVote(polls, pollId, optionIndex);
    if k :| 0 <= k < |polls| && polls[k].id == pollId && 0 <= optionIndex < |polls[k].options| {
      FindPoll(polls, k);
      assert r[k].totalVotes != polls[k].totalVotes;
    }
  }

  /**
   * A vote never changes the number of polls, any poll's id or question, or
   * the number, ids and texts of its options, and no counter goes down.
   */
  lemma SubmitVoteKeepsShape(polls: seq<Poll>, pollId: string, optionIndex: int)
    ensures var r := SubmitVote(polls, pollId, optionIndex);
      && |r| == |polls|
      && (forall k :: 0 <= k < |polls| ==>
            && r[k].id == polls[k].id && r[k].question == polls[k].question
            && |r[k].options| == |polls[k].options|
            && r[k].totalVotes >= polls[k].totalVotes)
      && (forall k, o :: 0 <= k < |polls| && 0 <= o < |polls[k].options| ==>
            && r[k].options[o].id == polls[k].options[o].id
            && r[k].options[o].text == polls[k].options[o].text
            && r[k].options[o].votes >= polls[k].options[o].votes)
  {
  }

  /** The in-memory poll store. */
  class PollStore {
    var polls: seq<Poll>

    ghost predicate Valid()
      reads this
    {
      ValidPolls(polls)
    }

    /** A store starts with no polls. */
    constructor ()
      ensures Valid() && polls == []
    {
      polls := [];
    }

    /** `createPoll`: build a poll from the question and labels and push it at the end. */
    method CreatePoll(question: string, options: seq<string>, pollId: string, optionIds: seq<string>)
      returns (newPoll: Poll)
      requires Valid()
      requires |optionIds| == |options| && FreshIds(polls, pollId, optionIds)
      modifies this
      ensures Valid()
      ensures newPoll == NewPoll(pollId, question, options, optionIds)
      ensures polls == old(polls) + [newPoll]
    {
      newPoll := NewPoll(pollId, question, options, optionIds);
      CreateKeepsValid(polls, pollId, question, options, optionIds);
      polls := polls + [newPoll];
    }

    /** `submitResponse`: one vote for option `optionIndex` of poll `pollId`, ignored when invalid. */
    method SubmitResponse(pollId: string, optionIndex: int)
      requires Valid()
      modifies this
      ensures Valid()
      ensures polls == SubmitVote(old(polls), pollId, optionIndex)
    {
      SubmitVoteKeepsValid(polls, pollId, optionIndex);
      var found := FindIndex(polls, PollHasId(pollId));
      if found.Some? && 0 <= optionIndex < |polls[found.value].options| {
        var k := found.value;
        var poll := polls[k];
        var chosen := poll.options[optionIndex];
        poll := poll.(options := poll.options[optionIndex := chosen.(votes := chosen.votes + 1)]);
        poll := poll.(totalVotes := poll.totalVotes + 1);
        polls := polls[k := poll];
      }
    }

    /** `getPoll`: the first poll with the id, or None. */
    function GetPoll(id: string): (r: Option<Poll>)
      reads this
      ensures r.None? <==> forall k :: 0 <= k < |polls| ==> polls[k].id != id
      ensures r.Some? ==> r.value.id == id && exists k :: IsFirst(polls, PollHasId(id), k) && r.value == polls[k]
    {
      Find(polls, PollHasId(id))
    }

    /** `getAllPolls`: the stored list itself, in insertion order. */
    function GetAllPolls(): (r: seq<Poll>)
      reads this
      ensures r == polls
    {
      polls
    }
  }

  /** The poll scenario: two options, one vote for the second. */
  method FavoriteColorScenario()
  {
    var store := new PollStore();
    assert UsedIds(store.polls) == {};
    var poll := store.CreatePoll("Favorite color?", ["Red", "Blue"], "p", ["red", "blue"]);
    assert |poll.options| == 2 && poll.options[0].votes == 0 && poll.options[1].votes == 0;
    assert poll.totalVotes == 0;
    FindPoll(store.polls, 0);
    store.SubmitResponse("p", 1);
    var after := store.GetPoll("p");
    assert after == Some(store.polls[0]);
    assert after.value.options[1].votes == 1 && after.value.options[0].votes == 0;
    assert after.value.totalVotes == 1;
  }
}
