/** The server's poll store (the module-level `pollStates` map of server.mjs) and
    the Socket.IO handlers that read and change it.

    Each handler is specified by a pure step function from the store to the new
    store and the list of emissions (audience, event) it sends; the class
    `Server` holds the store in a field and its methods do what the handlers do,
    statement by statement, proved equal to those step functions. */
module PollServer {
  import opened Protocol

  /** One entry of `pollStates`. */
  datatype PollState = PollState(
    pollId: string,
    votes: Tally,
    totalVotes: nat,
    voters: set<string>,
    isActive: bool)

  type Store = map<string, PollState>

  /** What a handler leaves behind: the new store and what it emitted, in order. */
  datatype Step = Step(store: Store, out: seq<Emission>)

  /** The four rejections of `submit-vote`, in the order the handler tests them. */
  datatype VoteError = PollNotFound | PollInactive | AlreadyVoted | InvalidOption

  function Message(e: VoteError): string
  {
    match e
    case PollNotFound => "Poll not found"
    case PollInactive => "Poll is closed"
    case AlreadyVoted => "You have already voted"
    case InvalidOption => "Invalid option"
  }

  /** The four texts are pairwise different, so a client can tell the
      rejections apart by their message. */
  lemma MessagesDistinct(e1: VoteError, e2: VoteError)
    requires e1 != e2
    ensures Message(e1) != Message(e2)
  {
  }

  // ---------------------------------------------------------------------------
  // Sum of a tally and the store invariant

  ghost function SumOf(m: Tally): nat
    decreases |m|
  {
    if m == map[] then 0
    else
      var k :| k in m;
      assert |m - {k}| < |m| by { assert (m - {k}).Keys == m.Keys - {k}; }
      m[k] + SumOf(m - {k})
  }

  /** Whichever key the sum starts from, it adds up the same. */
  lemma {:induction false} SumOfRemove(m: Tally, k: string)
    requires k in m
    ensures SumOf(m) == m[k] + SumOf(m - {k})
    decreases |m|
  {
    var j :| j in m && SumOf(m) == m[j] + SumOf(m - {j});
    if j != k {
      assert (m - {j}).Keys == m.Keys - {j};
      assert (m - {k}).Keys == m.Keys - {k};
      SumOfRemove(m - {j}, k);
      SumOfRemove(m - {k}, j);
      assert m - {j} - {k} == m - {k} - {j};
    }
  }

  lemma SumOfIncrement(m: Tally, k: string)
    requires k in m
    ensures SumOf(m[k := m[k] + 1]) == SumOf(m) + 1
  {
    var m' := m[k := m[k] + 1];
    SumOfRemove(m, k);
    SumOfRemove(m', k);
    assert m' - {k} == m - {k};
  }

  lemma {:induction false} SumOfAllZero(m: Tally)
    requires forall o :: o in m ==> m[o] == 0
    ensures SumOf(m) == 0
    decreases |m|
  {
    if m != map[] {
      var j :| j in m && SumOf(m) == m[j] + SumOf(m - {j});
      assert (m - {j}).Keys == m.Keys - {j};
      SumOfAllZero(m - {j});
    }
  }

  /** The counts agree with each other: the total is the sum of the per-option
      counts and the number of distinct voters. */
  ghost predicate Consistent(p: PollState)
  {
    p.totalVotes == SumOf(p.votes) && p.totalVotes == |p.voters|
  }

  ghost predicate StoreValid(s: Store)
  {
    forall id :: id in s ==> s[id].pollId == id && Consistent(s[id])
  }

  // ---------------------------------------------------------------------------
  // The handlers as step functions (server.mjs:37-134)

  /** `join-game`: tell the sender the identity it should vote with. */
  function JoinGameStep(s: Store, socketId: string): (r: Step)
    ensures r.store == s
    ensures r.out == [Emission(Sender, Connected(socketId))]
  {
    Step(s, [Emission(Sender, Connected(socketId))])
  }

  function FreshPoll(pollId: string, options: seq<string>): PollState
  {
    PollState(pollId, ZeroTally(options), 0, {}, true)
  }

  /** `start-poll`: replace whatever entry `pollId` had with a fresh active one. */
  function StartPollStep(s: Store, pollId: string, options: seq<string>): (r: Step)
    ensures r.store.Keys == s.Keys + {pollId}
    ensures forall id :: id in s && id != pollId ==> r.store[id] == s[id]
    ensures var p := r.store[pollId];
      && p.pollId == pollId
      && p.votes.Keys == (set o | o in options)
      && (forall o :: o in p.votes ==> p.votes[o] == 0)
      && p.totalVotes == 0 && p.voters == {} && p.isActive
    ensures r.out == [Emission(All, PollStarted(pollId, options))]
  {
    Step(s[pollId := FreshPoll(pollId, options)], [Emission(All, PollStarted(pollId, options))])
  }

  /** The first guard of `submit-vote` that fails, or None when the vote is accepted. */
  function Rejection(s: Store, pollId: string, option: string, userId: string): (r: Option<VoteError>)
    ensures r == Some(PollNotFound) <==> pollId !in s
    ensures r == Some(PollInactive) <==> pollId in s && !s[pollId].isActive
    ensures r == Some(AlreadyVoted) <==>
      pollId in s && s[pollId].isActive && userId in s[pollId].voters
    ensures r == Some(InvalidOption) <==>
      pollId in s && s[pollId].isActive && userId !in s[pollId].voters && option !in s[pollId].votes
    ensures r == None <==>
      pollId in s && s[pollId].isActive && userId !in s[pollId].voters && option in s[pollId].votes
  {
    if pollId !in s then Some(PollNotFound)
    else if !s[pollId].isActive then Some(PollInactive)
    else if userId in s[pollId].voters then Some(AlreadyVoted)
    else if option !in s[pollId].votes then Some(InvalidOption)
    else None
  }

  /** The three updates of an accepted vote. */
  function RecordVote(p: PollState, option: string, userId: string): PollState
    requires option in p.votes
  {
    p.(votes := p.votes[option := p.votes[option] + 1],
       totalVotes := p.totalVotes + 1,
       voters := p.voters + {userId})
  }

  /** `submit-vote`: a rejection is replied to the sender alone and changes
      nothing; an accepted vote adds one to its option and to the total,
      records the voter, broadcasts the new counts and confirms to the sender. */
  function SubmitVoteStep(s: Store, pollId: string, option: string, userId: string): (r: Step)
    ensures Rejection(s, pollId, option, userId).Some? ==>
      && r.store == s
      && r.out == [Emission(Sender, ErrorEvent(Message(Rejection(s, pollId, option, userId).value)))]
    ensures Rejection(s, pollId, option, userId).None? ==>
      r.store.Keys == s.Keys && pollId in r.store
    ensures Rejection(s, pollId, option, userId).None? ==>
      var p, q := s[pollId], r.store[pollId];
      && (forall id :: id in s && id != pollId ==> r.store[id] == s[id])
      && q.pollId == p.pollId && q.isActive == p.isActive
      && q.votes.Keys == p.votes.Keys
      && q.votes[option] == p.votes[option] + 1
      && (forall o :: o in p.votes && o != option ==> q.votes[o] == p.votes[o])
      && q.totalVotes == p.totalVotes + 1
      && q.voters == p.voters + {userId}
      && r.out == [Emission(All, VoteUpdate(pollId, q.votes, q.totalVotes)),
                   Emission(Sender, VoteConfirmed(pollId, option))]
  {
    match Rejection(s, pollId, option, userId)
    case Some(e) => Step(s, [Emission(Sender, ErrorEvent(Message(e)))])
    case None =>
      var q := RecordVote(s[pollId], option, userId);
      Step(s[pollId := q], [Emission(All, VoteUpdate(pollId, q.votes, q.totalVotes)),
                            Emission(Sender, VoteConfirmed(pollId, option))])
  }

  /** `close-poll`: mark an existing poll inactive and broadcast its counts;
      an unknown id is ignored without an error. */
  function ClosePollStep(s: Store, pollId: string): (r: Step)
    ensures pollId !in s ==> r == Step(s, [])
    ensures pollId in s ==>
      && r.store.Keys == s.Keys
      && (forall id :: id in s && id != pollId ==> r.store[id] == s[id])
      && r.store[pollId] == s[pollId].(isActive := false)
      && r.out == [Emission(All, PollClosed(pollId, s[pollId].votes, s[pollId].totalVotes))]
  {
    if pollId in s then
      var p := s[pollId];
      Step(s[pollId := p.(isActive := false)], [Emission(All, PollClosed(pollId, p.votes, p.totalVotes))])
    else
      Step(s, [])
  }

  /** `get-results`: reply the current counts to the sender; never changes the store. */
  function GetResultsStep(s: Store, pollId: string): (r: Step)
    ensures r.store == s
    ensures pollId !in s <==> r.out == []
    ensures pollId in s ==>
      r.out == [Emission(Sender, VoteUpdate(pollId, s[pollId].votes, s[pollId].totalVotes))]
  {
    if pollId in s then
      Step(s, [Emission(Sender, VoteUpdate(pollId, s[pollId].votes, s[pollId].totalVotes))])
    else
      Step(s, [])
  }

  /** `reset-poll`: drop the entry, whether or not it existed, and tell everyone. */
  function ResetPollStep(s: Store, pollId: string): (r: Step)
    ensures pollId !in r.store
    ensures r.store.Keys == s.Keys - {pollId}
    ensures forall id :: id in r.store ==> r.store[id] == s[id]
    ensures r.out == [Emission(All, PollReset(pollId))]
  {
    Step(s - {pollId}, [Emission(All, PollReset(pollId))])
  }

  /** Routes one inbound message from socket `socketId`. The server registers no
      listener for `request-state`, so it is dropped. Note that `submit-vote`
      keys the voter on the `userId` of the payload, not on the sending socket. */
  function Dispatch(s: Store, socketId: string, intent: Intent): (r: Step)
    ensures r.store != s ==>
      intent.StartPoll? || intent.SubmitVote? || intent.ClosePoll? || intent.ResetPoll?
    ensures forall id :: id in s && id !in r.store ==> intent == ResetPoll(id)
    ensures forall id :: id in r.store && id !in s ==> intent.StartPoll? && intent.pollId == id
    ensures |r.out| <= 2
    ensures forall k :: 0 <= k < |r.out| && r.out[k].event.ErrorEvent? ==> intent.SubmitVote?
  {
    match intent
    case JoinGame => JoinGameStep(s, socketId)
    case StartPoll(pollId, options) => StartPollStep(s, pollId, options)
    case SubmitVote(pollId, option, userId) => SubmitVoteStep(s, pollId, option, userId)
    case ClosePoll(pollId) => ClosePollStep(s, pollId)
    case GetResults(pollId) => GetResultsStep(s, pollId)
    case ResetPoll(pollId) => ResetPollStep(s, pollId)
    case RequestState => Step(s, [])
  }

  /** The store after handling a sequence of (socket, message) pairs in order,
      as the single-threaded event loop does. */
  function Run(s: Store, trace: seq<(string, Intent)>): (r: Store)
    ensures forall id :: id in s && id !in r ==>
      exists k :: 0 <= k < |trace| && trace[k].1 == ResetPoll(id)
    ensures forall id :: id in r && id !in s ==>
      exists k :: 0 <= k < |trace| && trace[k].1.StartPoll? && trace[k].1.pollId == id
    decreases |trace|
  {
    if trace == [] then s
    else
      var r := Run(Dispatch(s, trace[0].0, trace[0].1).store, trace[1..]);
      assert forall k :: 0 <= k < |trace| - 1 ==> trace[1..][k] == trace[k + 1];
      r
  }

  // ---------------------------------------------------------------------------
  // Properties of the handlers

  lemma RecordVoteKeepsConsistent(p: PollState, option: string, userId: string)
    requires Consistent(p) && option in p.votes && userId !in p.voters
    ensures Consistent(RecordVote(p, option, userId))
  {
    SumOfIncrement(p.votes, option);
  }

  lemma StartPollPreservesValid(s: Store, pollId: string, options: seq<string>)
    requires StoreValid(s)
    ensures StoreValid(StartPollStep(s, pollId, options).store)
  {
    SumOfAllZero(ZeroTally(options));
  }

  lemma SubmitVotePreservesValid(s: Store, pollId: string, option: string, userId: string)
    requires StoreValid(s)
    ensures StoreValid(SubmitVoteStep(s, pollId, option, userId).store)
  {
    if Rejection(s, pollId, option, userId).None? {
      RecordVoteKeepsConsistent(s[pollId], option, userId);
    }
  }

  lemma ClosePollPreservesValid(s: Store, pollId: string)
    requires StoreValid(s)
    ensures StoreValid(ClosePollStep(s, pollId).store)
  {
  }

  lemma ResetPollPreservesValid(s: Store, pollId: string)
    requires StoreValid(s)
    ensures StoreValid(ResetPollStep(s, pollId).store)
  {
  }

  /** Every handler keeps, for every stored poll, total == sum of counts == number of voters. */
  lemma DispatchPreservesValid(s: Store, socketId: string, intent: Intent)
    requires StoreValid(s)
    ensures StoreValid(Dispatch(s, socketId, intent).store)
  {
    match intent
    case StartPoll(pollId, options) => StartPollPreservesValid(s, pollId, options);
    case SubmitVote(pollId, option, userId) => SubmitVotePreservesValid(s, pollId, option, userId);
    case ClosePoll(pollId) => ClosePollPreservesValid(s, pollId);
    case ResetPoll(pollId) => ResetPollPreservesValid(s, pollId);
    case _ =>
  }

  /** ... and so does any sequence of handlers. */
  lemma {:induction false} RunPreservesValid(s: Store, trace: seq<(string, Intent)>)
    requires StoreValid(s)
    ensures StoreValid(Run(s, trace))
    decreases |trace|
  {
    if trace != [] {
      DispatchPreservesValid(s, trace[0].0, trace[0].1);
      RunPreservesValid(Dispatch(s, trace[0].0, trace[0].1).store, trace[1..]);
    }
  }

  /** Errors go to the sender only, and a handler that emits one changes nothing. */
  lemma ErrorsReachOnlyTheSender(s: Store, socketId: string, intent: Intent)
    ensures var r := Dispatch(s, socketId, intent);
      forall k :: 0 <= k < |r.out| && r.out[k].event.ErrorEvent? ==>
        r.out[k].audience == Sender && r.store == s
  {
  }

  /** A second vote by the same user on the same poll is rejected and changes nothing. */
  lemma SecondVoteRejected(s: Store, pollId: string, first: string, second: string, userId: string)
    requires Rejection(s, pollId, first, userId).None?
    ensures var s1 := SubmitVoteStep(s, pollId, first, userId).store;
      && Rejection(s1, pollId, second, userId) == Some(AlreadyVoted)
      && SubmitVoteStep(s1, pollId, second, userId) ==
         Step(s1, [Emission(Sender, ErrorEvent("You have already voted"))])
  {
  }

  /** An inactive poll is changed by no handler except `start-poll`, which
      replaces it with zeroed counts, and `reset-poll`, which removes it. */
  lemma InactivePollStaysFrozen(s: Store, socketId: string, intent: Intent, pollId: string)
    requires pollId in s && !s[pollId].isActive
    ensures var s' := Dispatch(s, socketId, intent).store;
      && (intent != ResetPoll(pollId) && !(intent.StartPoll? && intent.pollId == pollId) ==>
            pollId in s' && s'[pollId] == s[pollId])
      && (pollId in s' && s'[pollId].isActive ==>
            intent.StartPoll? && intent.pollId == pollId &&
            s'[pollId] == FreshPoll(pollId, intent.options))
  {
    match intent
    case SubmitVote(id, option, userId) =>
      if id == pollId {
        assert Rejection(s, id, option, userId) == Some(PollInactive);
      }
    case _ =>
  }

  /** Closing twice leaves the same store and broadcasts the same payload as closing once. */
  lemma ClosePollIdempotent(s: Store, pollId: string)
    ensures var once := ClosePollStep(s, pollId);
      ClosePollStep(once.store, pollId) == once
  {
  }

  /** After a reset, the id is absent: votes are refused with "Poll not found",
      and close and get-results emit nothing. */
  lemma ResetMakesPollUnknown(s: Store, pollId: string, option: string, userId: string)
    ensures var s' := ResetPollStep(s, pollId).store;
      && SubmitVoteStep(s', pollId, option, userId) ==
         Step(s', [Emission(Sender, ErrorEvent("Poll not found"))])
      && ClosePollStep(s', pollId) == Step(s', [])
      && GetResultsStep(s', pollId) == Step(s', [])
  {
  }

  /** The opening of the scenario below: "p1" is started with options A and
      B, and u1 votes A. */
  lemma ScenarioFirstVote()
    ensures var s1 := StartPollStep(map[], "p1", ["A", "B"]).store;
      SubmitVoteStep(s1, "p1", "A", "u1").store ==
        map["p1" := PollState("p1", map["A" := 1, "B" := 0], 1, {"u1"}, true)]
  {
    var s1 := StartPollStep(map[], "p1", ["A", "B"]).store;
    assert ZeroTally(["A", "B"]) == map["A" := 0, "B" := 0];
    assert s1 == map["p1" := PollState("p1", map["A" := 0, "B" := 0], 0, {}, true)];
    assert Rejection(s1, "p1", "A", "u1") == None;
    assert map["A" := 0, "B" := 0]["A" := 1] == map["A" := 1, "B" := 0];
    assert {} + {"u1"} == {"u1"};
  }

  /** Start "p1" with options A and B; u1 votes A, u2 votes B, u1 tries B again
      and is refused; then the poll is closed. */
  lemma EndToEndScenario()
    ensures var s1 := StartPollStep(map[], "p1", ["A", "B"]).store;
      var s2 := SubmitVoteStep(s1, "p1", "A", "u1").store;
      var s3 := SubmitVoteStep(s2, "p1", "B", "u2").store;
      var r4 := SubmitVoteStep(s3, "p1", "B", "u1");
      var r5 := ClosePollStep(r4.store, "p1");
      && r4 == Step(s3, [Emission(Sender, ErrorEvent("You have already voted"))])
      && r5.store == map["p1" := PollState("p1", map["A" := 1, "B" := 1], 2, {"u1", "u2"}, false)]
      && r5.out == [Emission(All, PollClosed("p1", map["A" := 1, "B" := 1], 2))]
  {
    ScenarioFirstVote();
    var s2 := map["p1" := PollState("p1", map["A" := 1, "B" := 0], 1, {"u1"}, true)];
    assert Rejection(s2, "p1", "B", "u2") == None;
    assert map["A" := 1, "B" := 0]["B" := 1] == map["A" := 1, "B" := 1];
    assert {"u1"} + {"u2"} == {"u1", "u2"};
    var s3 := SubmitVoteStep(s2, "p1", "B", "u2").store;
    assert s3 == map["p1" := PollState("p1", map["A" := 1, "B" := 1], 2, {"u1", "u2"}, true)];
  }

  // ---------------------------------------------------------------------------
  // The server object

  class Server {
    /** `pollStates` of server.mjs:13. */
    var pollStates: Store

    ghost predicate Valid()
      reads this
    {
      StoreValid(pollStates)
    }

    constructor ()
      ensures Valid() && pollStates == map[]
    {
      pollStates := map[];
    }

    method JoinGame(socketId: string) returns (out: seq<Emission>)
      ensures out == [Emission(Sender, Connected(socketId))]
    {
      out := [Emission(Sender, Connected(socketId))];
    }

    method StartPoll(pollId: string, options: seq<string>) returns (out: seq<Emission>)
      requires Valid()
      modifies this
      ensures Valid()
      ensures Step(pollStates, out) == StartPollStep(old(pollStates), pollId, options)
    {
      StartPollPreservesValid(pollStates, pollId, options);
      var votes := BuildZeroTally(options);
      pollStates := pollStates[pollId := PollState(pollId, votes, 0, {}, true)];
      out := [Emission(All, PollStarted(pollId, options))];
    }

    method SubmitVote(pollId: string, option: string, userId: string) returns (out: seq<Emission>)
      requires Valid()
      modifies this
      ensures Valid()
      ensures Step(pollStates, out) == SubmitVoteStep(old(pollStates), pollId, option, userId)
    {
      SubmitVotePreservesValid(pollStates, pollId, option, userId);
      if pollId !in pollStates {
        return [Emission(Sender, ErrorEvent("Poll not found"))];
      }
      var p := pollStates[pollId];
      if !p.isActive {
        return [Emission(Sender, ErrorEvent("Poll is closed"))];
      }
      if userId in p.voters {
        return [Emission(Sender, ErrorEvent("You have already voted"))];
      }
      if option in p.votes {
        p := p.(votes := p.votes[option := p.votes[option] + 1]);
        p := p.(totalVotes := p.totalVotes + 1);
        p := p.(voters := p.voters + {userId});
        pollStates := pollStates[pollId := p];
        out := [Emission(All, VoteUpdate(pollId, p.votes, p.totalVotes)),
                Emission(Sender, VoteConfirmed(pollId, option))];
      } else {
        out := [Emission(Sender, ErrorEvent("Invalid option"))];
      }
    }

    method ClosePoll(pollId: string) returns (out: seq<Emission>)
      requires Valid()
      modifies this
      ensures Valid()
      ensures Step(pollStates, out) == ClosePollStep(old(pollStates), pollId)
    {
      ClosePollPreservesValid(pollStates, pollId);
      out := [];
      if pollId in pollStates {
        var p := pollStates[pollId];
        p := p.(isActive := false);
        pollStates := pollStates[pollId := p];
        out := [Emission(All, PollClosed(pollId, p.votes, p.totalVotes))];
      }
    }

    method GetResults(pollId: string) returns (out: seq<Emission>)
      ensures Step(pollStates, out) == GetResultsStep(pollStates, pollId)
    {
      out := [];
      if pollId in pollStates {
        var p := pollStates[pollId];
        out := [Emission(Sender, VoteUpdate(pollId, p.votes, p.totalVotes))];
      }
    }

    method ResetPoll(pollId: string) returns (out: seq<Emission>)
      requires Valid()
      modifies this
      ensures Valid()
      ensures Step(pollStates, out) == ResetPollStep(old(pollStates), pollId)
    {
      pollStates := pollStates - {pollId};
      out := [Emission(All, PollReset(pollId))];
    }

    /** The listeners registered for one connection (server.mjs:34-138). */
    method Handle(socketId: string, intent: Intent) returns (out: seq<Emission>)
      requires Valid()
      modifies this
      ensures Valid()
      ensures Step(pollStates, out) == Dispatch(old(pollStates), socketId, intent)
    {
      match intent
      case JoinGame => out := JoinGame(socketId);
      case StartPoll(pollId, options) => out := StartPoll(pollId, options);
      case SubmitVote(pollId, option, userId) => out := SubmitVote(pollId, option, userId);
      case ClosePoll(pollId) => out := ClosePoll(pollId);
      case GetResults(pollId) => out := GetResults(pollId);
      case ResetPoll(pollId) => out := ResetPoll(pollId);
      case RequestState => out := [];
    }
  }
}
