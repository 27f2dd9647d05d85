/** The state logic of the earlier page component, src/app/page-old.tsx. It
    differs from src/app/page.tsx in three ways: its start, close, next and
    previous handlers do not check the host flag (only the rendering hides
    their buttons from non-hosts), it has no `game-state-sync` listener, and
    its error listener raises an alert instead of only logging. Whether a
    socket exists and the user id come from the socket context; they are
    passed in where a handler reads them. */
module GameViewOld {
  import opened Protocol
  import opened Catalogue
  import opened ClientCommon

  class OldGamePage {
    var currentPollIndex: nat
    var currentPoll: Option<Poll>
    var gamePhase: Phase
    var votes: Tally
    var totalVotes: nat
    var userVote: Option<string>
    var timer: nat
    var isHost: bool

    ghost function State(): ViewState
      reads this
    {
      ViewState(currentPollIndex, currentPoll, gamePhase, votes, totalVotes, userVote, timer, isHost)
    }

    /** The index stays inside the catalogue and, once a poll is loaded, names it. */
    ghost predicate Valid()
      reads this
    {
      currentPollIndex < |GameData| &&
      (currentPoll.Some? ==> currentPoll.value == GameData[currentPollIndex])
    }

    /** The `useState` initial values. */
    constructor ()
      ensures Valid()
      ensures State() == ViewState(0, None, Waiting, map[], 0, None, 0, false)
    {
      currentPollIndex, currentPoll, gamePhase := 0, None, Waiting;
      votes, totalVotes, userVote, timer, isHost := map[], 0, None, 0, false;
    }

    /** The mount effect that loads the first poll (page-old.tsx:23-27); it runs once,
        while the index is still 0. */
    method LoadFirstPoll()
      requires Valid() && currentPollIndex == 0
      modifies this
      ensures Valid()
      ensures State() == old(State()).(currentPoll := Some(GameData[0]))
    {
      if |GameData| > 0 {
        currentPoll := Some(GameData[0]);
      }
    }

    /** The host checkbox (page-old.tsx:255). */
    method SetHost(checked: bool)
      requires Valid()
      modifies this
      ensures Valid()
      ensures State() == old(State()).(isHost := checked)
    {
      isHost := checked;
    }

    // -------------------------------------------------------------------------
    // Server events (page-old.tsx:33-79). The page does not compare the event's
    // pollId with its current poll, and it has no listener for `poll-reset`.

    method OnPollStarted(options: seq<string>)
      requires Valid()
      modifies this
      ensures Valid()
      ensures State() == old(State()).(gamePhase := Voting, userVote := None,
                                       votes := ZeroTally(options), totalVotes := 0)
    {
      gamePhase := Voting;
      userVote := None;
      var initialVotes := BuildZeroTally(options);
      votes := initialVotes;
      totalVotes := 0;
    }

    method OnVoteUpdate(newVotes: Tally, newTotal: nat)
      requires Valid()
      modifies this
      ensures Valid()
      ensures State() == old(State()).(votes := newVotes, totalVotes := newTotal)
    {
      votes := newVotes;
      totalVotes := newTotal;
    }

    method OnVoteConfirmed(option: string)
      requires Valid()
      modifies this
      ensures Valid()
      ensures State() == old(State()).(userVote := Some(option))
    {
      userVote := Some(option);
    }

    method OnPollClosed(finalResults: Tally, newTotal: nat)
      requires Valid()
      modifies this
      ensures Valid()
      ensures State() == old(State()).(gamePhase := Revealing, votes := finalResults,
                                       totalVotes := newTotal, timer := 3)
    {
      gamePhase := Revealing;
      votes := finalResults;
      totalVotes := newTotal;
      timer := 3;
    }

    // -------------------------------------------------------------------------
    // The countdown (page-old.tsx:96-146)

    /** One second of the countdown. An interval runs only while the timer is
        positive; above 1 it counts down. At expiry the phase decides: voting
        asks the server to close the poll, revealing moves to results for the
        poll's reveal time, results moves to the next poll if there is one.
        `autoStart` is the index whose deferred start (see AutoStart) the host
        schedules. */
    method Tick(socket: bool) returns (out: seq<Intent>, autoStart: Option<nat>)
      requires Valid()
      modifies this
      ensures Valid()
      ensures old(timer) == 0 ==> State() == old(State()) && out == [] && autoStart == None
      ensures old(timer) > 1 ==>
        State() == old(State()).(timer := old(timer) - 1) && out == [] && autoStart == None
      ensures old(timer) == 1 && old(gamePhase) == Voting ==>
        && State() == old(State()).(timer := 0)
        && out == (if socket && old(currentPoll).Some? then [ClosePoll(old(currentPoll).value.id)] else [])
        && autoStart == None
      ensures old(timer) == 1 && old(gamePhase) == Revealing ==>
        && State() == old(State()).(gamePhase := Results,
             timer := if old(currentPoll).Some? then old(currentPoll).value.revealTime else 0)
        && out == [] && autoStart == None
      ensures old(timer) == 1 && old(gamePhase) == Results && old(currentPollIndex) + 1 < |GameData| ==>
        && State() == MovedTo(old(State()), old(currentPollIndex) + 1)
        && out == []
        && autoStart == if isHost then Some(old(currentPollIndex) + 1) else None
      ensures old(timer) == 1 && old(gamePhase) == Results && old(currentPollIndex) + 1 >= |GameData| ==>
        State() == old(State()).(timer := 0) && out == [] && autoStart == None
      ensures old(timer) == 1 && old(gamePhase) == Waiting ==>
        State() == old(State()).(timer := 0) && out == [] && autoStart == None
    {
      out, autoStart := [], None;
      if timer == 0 {
        return;
      }
      if timer > 1 {
        timer := timer - 1;
        return;
      }
      timer := 0;
      if gamePhase == Voting {
        if socket && currentPoll.Some? {
          out := [ClosePoll(currentPoll.value.id)];
        }
      } else if gamePhase == Revealing {
        gamePhase := Results;
        // Assumed order: the `setTimer` issued inside the updater takes
        // effect after the updater's own `return 0`.
        if currentPoll.Some? {
          timer := currentPoll.value.revealTime;
        }
      } else if gamePhase == Results {
        var nextIndex := currentPollIndex + 1;
        if nextIndex < |GameData| {
          MoveTo(nextIndex);
          if isHost {
            autoStart := Some(nextIndex);
          }
        }
      }
    }

    /** The start the host's tick schedules two seconds after moving on
        (page-old.tsx:126-135): voting on the poll at `nextIndex` begins. */
    method AutoStart(socket: bool, nextIndex: nat) returns (out: seq<Intent>)
      requires Valid()
      modifies this
      ensures Valid()
      ensures socket && nextIndex < |GameData| ==>
        && State() == old(State()).(gamePhase := Voting, timer := GameData[nextIndex].votingTime)
        && out == [StartPoll(GameData[nextIndex].id, GameData[nextIndex].options)]
      ensures !(socket && nextIndex < |GameData|) ==> State() == old(State()) && out == []
    {
      out := [];
      if socket && nextIndex < |GameData| {
        gamePhase := Voting;
        timer := GameData[nextIndex].votingTime;
        out := [StartPoll(GameData[nextIndex].id, GameData[nextIndex].options)];
      }
    }

    // -------------------------------------------------------------------------
    // Actions (page-old.tsx:148-205)

    /** Start voting on the current poll locally and on the server; any page
        may do so. */
    method HandleStartPoll(socket: bool) returns (out: seq<Intent>)
      requires Valid()
      modifies this
      ensures Valid()
      ensures !(socket && old(currentPoll).Some?) ==> State() == old(State()) && out == []
      ensures socket && old(currentPoll).Some? ==>
        var p := old(currentPoll).value;
        && State() == old(State()).(gamePhase := Voting, timer := p.votingTime,
                                    userVote := None, votes := map[], totalVotes := 0)
        && out == [StartPoll(p.id, p.options)]
    {
      out := [];
      if !socket || currentPoll.None? {
        return;
      }
      gamePhase := Voting;
      timer := currentPoll.value.votingTime;
      userVote := None;
      votes := map[];
      totalVotes := 0;
      out := [StartPoll(currentPoll.value.id, currentPoll.value.options)];
    }

    /** Send a vote, only with a socket, a user id and a loaded poll, and only
        while no vote of this user is recorded. */
    method HandleVote(socket: bool, userId: Option<string>, option: string) returns (out: seq<Intent>)
      ensures out != [] <==> socket && Truthy(userId) && currentPoll.Some? && !Truthy(userVote)
      ensures out != [] ==> out == [SubmitVote(currentPoll.value.id, option, userId.value)]
    {
      if !socket || !Truthy(userId) || currentPoll.None? || Truthy(userVote) {
        return [];
      }
      out := [SubmitVote(currentPoll.value.id, option, userId.value)];
    }

    /** Ask the server to close the current poll early; any page may do so. */
    method HandleClosePoll(socket: bool) returns (out: seq<Intent>)
      ensures out != [] <==> socket && currentPoll.Some?
      ensures out != [] ==> out == [ClosePoll(currentPoll.value.id)]
    {
      if !socket || currentPoll.None? {
        return [];
      }
      out := [ClosePoll(currentPoll.value.id)];
    }

    method HandleNextPoll()
      requires Valid()
      modifies this
      ensures Valid()
      ensures old(currentPollIndex) + 1 < |GameData| ==>
        State() == MovedTo(old(State()), old(currentPollIndex) + 1)
      ensures old(currentPollIndex) + 1 >= |GameData| ==> State() == old(State())
    {
      var nextIndex := currentPollIndex + 1;
      if nextIndex < |GameData| {
        MoveTo(nextIndex);
      }
    }

    method HandlePreviousPoll()
      requires Valid()
      modifies this
      ensures Valid()
      ensures old(currentPollIndex) >= 1 ==>
        State() == MovedTo(old(State()), old(currentPollIndex) - 1)
      ensures old(currentPollIndex) == 0 ==> State() == old(State())
    {
      var prevIndex := currentPollIndex - 1;
      if prevIndex >= 0 {
        MoveTo(prevIndex);
      }
    }

    /** The block of setters every move to another poll runs. */
    method MoveTo(k: nat)
      requires k < |GameData|
      modifies this
      ensures Valid()
      ensures State() == MovedTo(old(State()), k)
    {
      currentPollIndex := k;
      currentPoll := Some(GameData[k]);
      gamePhase := Waiting;
      votes := map[];
      totalVotes := 0;
      userVote := None;
      timer := 0;
    }
  }
}
