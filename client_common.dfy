/** What the two page components (src/app/page.tsx and its older copy
    src/app/page-old.tsx) share: the game phase, the component state as one
    value, and the two pure helpers both define. */
module ClientCommon {
  import opened Protocol
  import opened Catalogue

  datatype Phase = Waiting | Voting | Revealing | Results

  /** The component state a page's transitions read and write. */
  datatype ViewState = ViewState(
    currentPollIndex: nat,
    currentPoll: Option<Poll>,
    gamePhase: Phase,
    votes: Tally,
    totalVotes: nat,
    userVote: Option<string>,
    timer: nat,
    isHost: bool)

  /** JavaScript truthiness of a string that may be null: null and "" are false. */
  predicate Truthy(s: Option<string>)
  {
    s.Some? && s.value != ""
  }

  /** The reset every move to another poll performs: that poll becomes current,
      the phase goes back to waiting and votes, total, own vote and timer are cleared. */
  function MovedTo(v: ViewState, k: nat): ViewState
    requires k < |GameData|
  {
    v.(currentPollIndex := k, currentPoll := Some(GameData[k]), gamePhase := Waiting,
       votes := map[], totalVotes := 0, userVote := None, timer := 0)
  }

  /** `getPercentage`: 0 when nobody voted; otherwise the option's share of the
      total in percent, rounded to the nearest integer with halves going up as
      `Math.round` does. None stands for NaN (an option missing from `votes`). */
  function GetPercentage(votes: Tally, totalVotes: nat, option: string): (r: Option<nat>)
    ensures totalVotes == 0 ==> r == Some(0)
    ensures totalVotes > 0 ==> (r.Some? <==> option in votes)
    ensures totalVotes > 0 && r.Some? ==>
      200 * votes[option] - totalVotes < 2 * r.value * totalVotes <= 200 * votes[option] + totalVotes
  {
    if totalVotes == 0 then Some(0)
    else if option !in votes then None
    else Some((200 * votes[option] + totalVotes) / (2 * totalVotes))
  }

  /** An option that holds no more than the total votes gets at most 100 percent. */
  lemma PercentageAtMost100(votes: Tally, totalVotes: nat, option: string)
    requires option in votes && votes[option] <= totalVotes
    ensures GetPercentage(votes, totalVotes, option).Some?
    ensures GetPercentage(votes, totalVotes, option).value <= 100
  {
    if totalVotes > 0 {
      var r := GetPercentage(votes, totalVotes, option).value;
      assert 2 * r * totalVotes <= 201 * totalVotes;
    }
  }

  /** `isCorrectAnswer`: membership when the answer is a list, equality otherwise;
      false while no poll is loaded. */
  function IsCorrectAnswer(currentPoll: Option<Poll>, option: string): (r: bool)
    ensures r ==> currentPoll.Some?
    ensures currentPoll.Some? && currentPoll.value.correctAnswer.Single? ==>
      (r <==> option == currentPoll.value.correctAnswer.answer)
    ensures currentPoll.Some? && currentPoll.value.correctAnswer.AnyOf? ==>
      (r <==> option in currentPoll.value.correctAnswer.answers)
  {
    match currentPoll
    case None => false
    case Some(p) =>
      match p.correctAnswer
      case AnyOf(xs) => option in xs
      case Single(x) => x == option
  }

  /** Every catalogue poll shows at least one option that is marked correct. */
  lemma EveryPollHasACorrectOption(i: nat)
    requires i < |GameData|
    ensures exists o :: o in GameData[i].options && IsCorrectAnswer(Some(GameData[i]), o)
  {
    CorrectLabelsAreOptions();
    var p := GameData[i];
    var c := CorrectLabels(p.correctAnswer)[0];
    assert c in p.options && IsCorrectAnswer(Some(p), c);
  }
}
