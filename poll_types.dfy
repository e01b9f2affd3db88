/** The records a poll is made of (src/types/poll.types.ts). */
module PollTypes {

  /** One answer of a poll and the number of votes it received. */
  datatype PollOption = PollOption(id: string, text: string, votes: nat)

  /** A question with its ordered, fixed list of options and a running vote total. */
  datatype Poll = Poll(id: string, question: string, options: seq<PollOption>, totalVotes: nat)

  /** Sum of the vote counts of `options`. */
  function SumVotes(options: seq<PollOption>): nat
  {
    if options == [] then 0 else options[0].votes + SumVotes(options[1..])
  }

  /** The data-model invariant of a poll: its total is the sum of its options' votes. */
  ghost predicate Consistent(p: Poll)
  {
    p.totalVotes == SumVotes(p.options)
  }

  /** Options that nobody has voted for yet add up to zero votes. */
  lemma {:induction false} SumVotesOfUnvoted(options: seq<PollOption>)
    requires forall i :: 0 <= i < |options| ==> options[i].votes == 0
    ensures SumVotes(options) == 0
  {
    if options != [] {
      assert forall i :: 0 <= i < |options[1..]| ==> options[1..][i] == options[i + 1];
      SumVotesOfUnvoted(options[1..]);
    }
  }

  /** One more vote for option `i` adds exactly one to the sum. */
  lemma {:induction false} SumVotesAfterVote(options: seq<PollOption>, i: nat)
    requires i < |options|
    ensures SumVotes(options[i := options[i].(votes := options[i].votes + 1)]) == SumVotes(options) + 1
  {
    var voted := options[i := options[i].(votes := options[i].votes + 1)];
    if i == 0 {
      assert voted[1..] == options[1..];
    } else {
      assert voted[1..] == options[1..][i - 1 := options[i].(votes := options[i].votes + 1)];
      SumVotesAfterVote(options[1..], i - 1);
    }
  }
}
