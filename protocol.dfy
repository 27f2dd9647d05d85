/** The messages exchanged between the browser pages and the Socket.IO server,
    and the vote-count record both sides build from a list of option labels. */
module Protocol {

  datatype Option<T> = None | Some(value: T)

  /** Per-option vote counts, keyed by option label (a plain object in the source). */
  type Tally = map<string, nat>

  /** Who receives an emission: every connected socket (`io.emit`) or only the
      socket whose message is being handled (`socket.emit`). */
  datatype Audience = All | Sender

  /** Events the server emits. */
  datatype Outbound =
    | Connected(userId: string)
    | PollStarted(pollId: string, options: seq<string>)
    | VoteUpdate(pollId: string, votes: Tally, totalVotes: nat)
    | VoteConfirmed(pollId: string, option: string)
    | PollClosed(pollId: string, finalResults: Tally, totalVotes: nat)
    | PollReset(pollId: string)
    | ErrorEvent(message: string)

  datatype Emission = Emission(audience: Audience, event: Outbound)

  /** Events a page emits to the server. */
  datatype Intent =
    | JoinGame
    | StartPoll(pollId: string, options: seq<string>)
    | SubmitVote(pollId: string, option: string, userId: string)
    | ClosePoll(pollId: string)
    | GetResults(pollId: string)
    | ResetPoll(pollId: string)
    | RequestState

  /** The record a `forEach` over the options builds: every label mapped to 0
      (a repeated label just writes the same key again). */
  function ZeroTally(options: seq<string>): (t: Tally)
    ensures t.Keys == set o | o in options
    ensures forall o :: o in t ==> t[o] == 0
  {
    map o | o in options :: 0
  }

  /** The `forEach` loop itself: starts from the empty record and sets one key per label. */
  method BuildZeroTally(options: seq<string>) returns (votes: Tally)
    ensures votes.Keys == set o | o in options
    ensures forall o :: o in votes ==> votes[o] == 0
    ensures votes == ZeroTally(options)
  {
    votes := map[];
    var i := 0;
    while i < |options|
      invariant 0 <= i <= |options|
      invariant votes.Keys == set o | o in options[..i]
      invariant forall o :: o in votes ==> votes[o] == 0
    {
      assert options[..i + 1] == options[..i] + [options[i]];
      votes := votes[options[i] := 0];
      i := i + 1;
    }
    assert options[..i] == options;
  }
}
