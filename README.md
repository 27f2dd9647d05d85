# Live poll game: a Dafny model

The system is a live audience game about optical illusions. A Node server
(`server.mjs`) keeps one vote record per poll in a map called `pollStates`.
It answers six Socket.IO messages:

- `join-game`: tells the sender its identity.
- `start-poll`: starts or restarts a poll with every option at zero.
- `submit-vote`: checks the vote against four guards, then records it.
- `close-poll`: freezes a poll and broadcasts its results.
- `get-results`: replies the current counts to the sender.
- `reset-poll`: deletes a poll's record.

Each reply goes either to every connected client or to the sender only. Two
browser pages (`src/app/page.tsx` and the older `src/app/page-old.tsx`) run
the game for a host and for voters:

- they walk through the 19-poll catalogue of `src/lib/game-data.ts`;
- they move through the phases waiting → voting → revealing → results with a
  one-second countdown;
- they show percentages and the correct answers.

`src/lib/utils.ts` adds four pure helpers: error wording, image-URL checking,
timer colour and time formatting.

The model has seven modules:

- `Protocol` (protocol.dfy): the messages in both directions, and the zeroed
  vote record both sides build.
- `PollServer` (poll_server.dfy):
  - one pure step function per handler over the store
    `map<string, PollState>`, each returning the new store and the list of
    emissions (audience and event);
  - the lemmas about those step functions;
  - the class `Server`, whose field `pollStates` its methods update. Each
    method is proved equal to its step function.
- `Catalogue` (catalogue.dfy): the catalogue `gameData` (src/lib/game-data.ts:15-289)
  as the constant `GameData`, its three lookups, and the data facts about it.
  The lemmas SegmentLayout, DistinctIds, DistinctOptions and
  CorrectLabelsAreOptions state what the constant holds.
- `Utils` (utils.dfy): the four helpers of `src/lib/utils.ts` and their properties.
- `ClientCommon` (client_common.dfy): what both pages share:
  - the phase;
  - the component state as one value, `ViewState`;
  - `getPercentage` and `isCorrectAnswer`, which the two pages define
    identically (src/app/page.tsx:272-289 and src/app/page-old.tsx:207-218).
- `GameView` (game_view.dfy) and `GameViewOld` (game_view_old.dfy): one class
  per page. The fields are the React state variables. There is one method per
  listener, per countdown tick and per button handler. Each method states its
  whole new state as an update of `State()` and keeps the invariant `Valid()`:
  the poll index stays in the catalogue and names the loaded poll.

Whether a socket exists and the user id come from the socket context. They
are passed to the page methods as parameters. What a page sends to the server
is returned as a list of `Intent` values. The countdown's deferred auto-start
is returned as the index it is scheduled for, and runs as its own method
(`AutoStart`).

## Model

| member | source | states |
|---|---|---|
| Protocol.ZeroTally | server.mjs:45-48 | the record has exactly the listed options as keys, each mapped to 0 (a repeated option is one key) |
| Protocol.BuildZeroTally | src/app/page.tsx:61-64 | the `forEach` loop that builds the record yields exactly the listed options as keys, all 0, equal to ZeroTally |
| PollServer.MessagesDistinct | server.mjs:66-97 | the four rejection texts ("Poll not found", "Poll is closed", "You have already voted", "Invalid option") are pairwise different |
| PollServer.JoinGameStep | server.mjs:37-40 | the store is unchanged and the sender alone receives `connected` carrying its own socket id |
| PollServer.StartPollStep | server.mjs:42-60 | the id gets a fresh entry whatever it held before: every option 0, total 0, no voters, active; other polls unchanged; `poll-started` broadcast to all |
| PollServer.Rejection | server.mjs:62-81 | the first failing guard in source order, each as an if-and-only-if: no entry, then inactive, then voter already present, then option not a key; None exactly when all four pass |
| PollServer.SubmitVoteStep | server.mjs:62-98 | a rejection changes nothing and sends only the sender its message. An accepted vote adds 1 to exactly that option and to the total and adds the voter; other options, other polls, the id and the active flag are kept; `vote-update` goes to all, then `vote-confirmed` to the sender |
| PollServer.ClosePollStep | server.mjs:100-114 | an unknown id changes nothing and emits nothing; otherwise only the active flag of that entry turns false and `poll-closed` with the current counts goes to all |
| PollServer.GetResultsStep | server.mjs:116-127 | the store never changes; the sender receives `vote-update` exactly when the poll exists, otherwise nothing is emitted |
| PollServer.ResetPollStep | server.mjs:129-134 | the id is removed whether or not it existed, every other entry is kept, and `poll-reset` goes to all |
| PollServer.Dispatch | server.mjs:34-138 | only start-poll, submit-vote, close-poll and reset-poll can change the store; an id disappears only by a reset-poll on it and appears only by a start-poll on it; at most two emissions; an `error` comes only from submit-vote |
| PollServer.Run | server.mjs:34-138 | over any sequence of messages, a poll present at the start and missing at the end was reset by one of them, and a poll present only at the end was started by one of them |
| PollServer.RecordVoteKeepsConsistent | server.mjs:81-84 | the three updates of an accepted vote keep total == sum of counts == number of voters |
| PollServer.StartPollPreservesValid | server.mjs:45-56 | start-poll keeps every stored entry consistent and keyed by its own id |
| PollServer.SubmitVotePreservesValid | server.mjs:62-98 | submit-vote keeps every stored entry consistent and keyed by its own id |
| PollServer.ClosePollPreservesValid | server.mjs:100-114 | close-poll keeps every stored entry consistent |
| PollServer.ResetPollPreservesValid | server.mjs:129-134 | reset-poll keeps every remaining entry consistent |
| PollServer.DispatchPreservesValid | server.mjs:34-138 | whatever message arrives, every stored poll still has total == sum of counts == number of voters |
| PollServer.RunPreservesValid | server.mjs:34-138 | the same holds after any sequence of messages handled one after another |
| PollServer.ErrorsReachOnlyTheSender | server.mjs:66-97 | every `error` emission of any handler goes to the sender alone, and a handler that emits one leaves the store unchanged |
| PollServer.SecondVoteRejected | server.mjs:76-79 | after an accepted vote, the same user's next vote on that poll, for any option, is refused with "You have already voted" and changes nothing |
| PollServer.InactivePollStaysFrozen | server.mjs:71-74 | an inactive poll is left as it is by every message except start-poll and reset-poll on its id, and only a start-poll that restarts it with zeroed counts makes it active again |
| PollServer.ClosePollIdempotent | server.mjs:100-114 | closing a second time leaves the same store and emits the same payload as the first close |
| PollServer.ResetMakesPollUnknown | server.mjs:129-134 | after a reset, a vote on that id is refused with "Poll not found", and close and get-results emit nothing |
| PollServer.ScenarioFirstVote | server.mjs:42-94 | starting p1 with A and B and a vote A by u1 leaves p1 with A=1, B=0, total 1, voters {u1}, active |
| PollServer.EndToEndScenario | server.mjs:42-114 | start with A and B, votes A by u1 and B by u2, a repeat by u1 refused, then close: final counts A=1 and B=1, total 2, voters {u1, u2}, inactive |
| PollServer.Server.constructor | server.mjs:13 | the store starts empty and valid |
| PollServer.Server.JoinGame | server.mjs:37-40 | replies `connected` with the socket id to the sender only |
| PollServer.Server.StartPoll | server.mjs:42-60 | the in-place update yields exactly StartPollStep's store and emissions and keeps the store valid |
| PollServer.Server.SubmitVote | server.mjs:62-98 | the guard chain and the in-place increments yield exactly SubmitVoteStep's store and emissions and keep the store valid |
| PollServer.Server.ClosePoll | server.mjs:100-114 | the in-place update yields exactly ClosePollStep's store and emissions and keeps the store valid |
| PollServer.Server.GetResults | server.mjs:116-127 | the emissions are exactly GetResultsStep's, and the store is only read |
| PollServer.Server.ResetPoll | server.mjs:129-134 | the deletion yields exactly ResetPollStep's store and emissions and keeps the store valid |
| PollServer.Server.Handle | server.mjs:34-138 | routing one message to its listener yields exactly Dispatch's store and emissions; `request-state` has no listener and changes nothing |
| Catalogue.FindIndex | src/app/page.tsx:106 | a found index is in range and holds a poll with that id |
| Catalogue.FindIndexSpec | src/app/page.tsx:106 | the search finds nothing exactly when no poll has the id; a found index is the first with it |
| Catalogue.Find | src/app/page.tsx:104-106 | `find` finds nothing exactly when `findIndex` does, and otherwise yields the poll at that index |
| Catalogue.FilterSegment | src/lib/game-data.ts:292 | the filter is no longer than its input and every poll it returns has the requested segment |
| Catalogue.FilterSegmentSpec | src/lib/game-data.ts:291-293 | the segment filter keeps exactly the polls of that segment, as a subsequence of the input in its order |
| Catalogue.GetSegmentPolls | src/lib/game-data.ts:291-293 | a poll is returned exactly when it is a catalogue poll of that segment, and the result keeps catalogue order |
| Catalogue.GetPollById | src/lib/game-data.ts:299-301 | None exactly when no catalogue poll has the id; otherwise a catalogue poll with that id |
| Catalogue.GetTotalPolls | src/lib/game-data.ts:295-297 | the length of the catalogue, 19 polls |
| Catalogue.SegmentLayout | src/lib/game-data.ts:15-289 | polls 0-2 are segment 1, 3-9 segment 2, 10-14 segment 3 and 15-18 segment 4 |
| Catalogue.SegmentBlock | src/lib/game-data.ts:291-293 | in a list sorted by segment, the filter for one segment returns exactly that segment's block |
| Catalogue.SegmentSizes | src/lib/game-data.ts:16-232 | getSegmentPolls(1..4) return exactly catalogue positions 0-2, 3-9, 10-14 and 15-18, so 3, 7, 5 and 4 polls as the segment comments say |
| Catalogue.DistinctIds | src/lib/game-data.ts:15-289 | no two catalogue polls share an id |
| Catalogue.FindOwnId | src/lib/game-data.ts:299-301 | in any list with distinct ids, looking a poll up by its own id returns that poll |
| Catalogue.GetPollByIdIsLeftInverse | src/lib/game-data.ts:299-301 | getPollById(p.id) returns p for every catalogue poll p |
| Catalogue.DistinctOptions | src/lib/game-data.ts:15-289 | every poll has at least one option and no option twice |
| Catalogue.CorrectLabelsAreOptions | src/lib/game-data.ts:15-289 | every poll marks at least one label correct, and each correct label is one of its options |
| Utils.HandleSocketError | src/lib/utils.ts:3-14 | the four possible texts, each as an if-and-only-if: "timeout" wins first, then "refused", then "already voted"; a missing message or none of the three gives the generic text |
| Utils.DuplicateVoteWording | src/lib/utils.ts:10-11 | the server's "You have already voted" maps to "You've already voted on this poll." |
| Utils.OtherServerErrorsWording | src/lib/utils.ts:3-14 | the server's other three error messages map to the generic text |
| Utils.ToLower | src/lib/utils.ts:32 | same length, every character lower-cased |
| Utils.ToLowerIdempotent | src/lib/utils.ts:32 | lower-casing twice is lower-casing once |
| Utils.IsValidImageUrl | src/lib/utils.ts:16-39 | false for the empty string; otherwise true exactly when the lower-cased URL ends with one of the seven extensions |
| Utils.IsValidImageUrlIgnoresCase | src/lib/utils.ts:31-33 | two URLs that agree after lower-casing get the same answer |
| Utils.ValidImageUrlEnding | src/lib/utils.ts:22-33 | a URL judged valid ends, lower-cased, with a listed extension |
| Utils.SomeSuffixSpec | src/lib/utils.ts:31-33 | the `some` over the extension list holds exactly when one of them is a suffix |
| Utils.GetTimerColor | src/lib/utils.ts:41-45 | green exactly above 66, yellow exactly in (33, 66], red exactly at or below 33 |
| Utils.NatToString | src/lib/utils.ts:48-51 | decimal text is non-empty, all digits, one digit exactly below 10, and without a leading zero for a positive number |
| Utils.IntToString | src/lib/utils.ts:48 | the template literal of an integer: a minus sign exactly for a negative number, digits after it; all digits otherwise |
| Utils.PadStart2 | src/lib/utils.ts:51 | padding gives length 2, or the input's length when already longer, and keeps digit text all digits |
| Utils.ParseNatToString | src/lib/utils.ts:48-51 | reading the decimal text back gives the number |
| Utils.ParsePadStart2 | src/lib/utils.ts:51 | zero padding keeps the text all digits and does not change the number it reads as |
| Utils.FormatTime | src/lib/utils.ts:47-52 | the text ends in "s" exactly below a minute and contains ":" exactly from a minute on |
| Utils.FormatTimeReadsBack | src/lib/utils.ts:47-52 | below 60 (including negatives) the text is the number then "s"; from 60 on it is m:ss with exactly two digits after the colon, ss < 60 and m*60 + ss = the input, and m has no leading zero |
| ClientCommon.GetPercentage | src/app/page.tsx:272-278 | 0 when the total is 0; otherwise a value exactly when the option has a count; the value is the nearest whole percentage, with halves rounded up |
| ClientCommon.PercentageAtMost100 | src/app/page.tsx:272-278 | a count no larger than the total gives at most 100 |
| ClientCommon.IsCorrectAnswer | src/app/page.tsx:280-289 | false with no poll loaded; membership for a list answer and equality for a single answer |
| ClientCommon.EveryPollHasACorrectOption | src/app/page.tsx:280-289 | every catalogue poll shows at least one option that the page marks correct |
| GameView.GamePage.constructor | src/app/page.tsx:13-20 | the `useState` initial values: index 0, no poll, waiting, empty votes, all counters 0, not host |
| GameView.GamePage.LoadFirstPoll | src/app/page.tsx:27-31 | the first catalogue poll is loaded, nothing else changes |
| GameView.GamePage.SetHost | src/app/page.tsx:338 | only the host flag changes |
| GameView.GamePage.OnPollStarted | src/app/page.tsx:55-67 | voting, own vote cleared, every announced option at 0 and total 0; poll, index and timer unchanged |
| GameView.GamePage.OnVoteUpdate | src/app/page.tsx:69-77 | counts and total replaced by the payload; the phase and everything else unchanged |
| GameView.GamePage.OnVoteConfirmed | src/app/page.tsx:79-82 | own vote set to the confirmed option, nothing else changes |
| GameView.GamePage.OnPollClosed | src/app/page.tsx:84-94 | revealing, counts and total from the final results, timer armed at 3 |
| GameView.GamePage.OnGameStateSync | src/app/page.tsx:96-113 | an id outside the catalogue changes nothing; otherwise the index is that poll's first position, the poll is the catalogue poll at it, and phase, counts and total come from the payload |
| GameView.GamePage.SyncTo | src/app/page.tsx:107-111 | the five setters of a successful sync and nothing else |
| GameView.GamePage.Tick | src/app/page.tsx:139-200 | no running countdown at 0; above 1 it counts down; at expiry: voting asks to close the current poll; revealing moves to results for the poll's reveal time; results moves to the next poll in waiting only if one exists, scheduling the auto-start when host; waiting just stops |
| GameView.GamePage.AutoStart | src/app/page.tsx:175-184 | with a socket and an index inside the catalogue: voting for that poll's voting time and a start-poll for it; otherwise nothing |
| GameView.GamePage.HandleStartPoll | src/app/page.tsx:202-215 | only a host with a socket and a poll: voting, timer at the voting time, own vote, counts and total cleared, start-poll sent; otherwise nothing changes or is sent |
| GameView.GamePage.HandleVote | src/app/page.tsx:217-228 | a vote is sent exactly when there is a socket, a non-empty user id and a poll, and no own vote is recorded; it names the current poll, the option and that user id |
| GameView.GamePage.HandleClosePoll | src/app/page.tsx:230-236 | close-poll for the current poll is sent exactly when host, with a socket and a poll |
| GameView.GamePage.HandleNextPoll | src/app/page.tsx:238-253 | only a host moves, and only when a next poll exists: that poll in waiting with everything cleared; otherwise nothing changes |
| GameView.GamePage.HandlePreviousPoll | src/app/page.tsx:255-270 | only a host moves, and only from index 1 or more: the previous poll in waiting with everything cleared; otherwise nothing changes |
| GameView.GamePage.MoveTo | src/app/page.tsx:243-249 | the setter block of a move: the index and poll of the target, waiting, votes empty, total, own vote and timer cleared |
| GameViewOld.OldGamePage.constructor | src/app/page-old.tsx:13-20 | the `useState` initial values as in the current page |
| GameViewOld.OldGamePage.LoadFirstPoll | src/app/page-old.tsx:23-27 | the first catalogue poll is loaded, nothing else changes |
| GameViewOld.OldGamePage.SetHost | src/app/page-old.tsx:255 | only the host flag changes |
| GameViewOld.OldGamePage.OnPollStarted | src/app/page-old.tsx:33-45 | voting, own vote cleared, every announced option at 0 and total 0 |
| GameViewOld.OldGamePage.OnVoteUpdate | src/app/page-old.tsx:47-58 | counts and total replaced; phase unchanged |
| GameViewOld.OldGamePage.OnVoteConfirmed | src/app/page-old.tsx:60-63 | own vote set to the confirmed option |
| GameViewOld.OldGamePage.OnPollClosed | src/app/page-old.tsx:65-79 | revealing, final counts and total, timer armed at 3 |
| GameViewOld.OldGamePage.Tick | src/app/page-old.tsx:96-146 | the same countdown rules as the current page: count down, then close, then results for the reveal time, then the next poll if one exists |
| GameViewOld.OldGamePage.AutoStart | src/app/page-old.tsx:126-135 | with a socket and an index inside the catalogue: voting for that poll's time and a start-poll for it |
| GameViewOld.OldGamePage.HandleStartPoll | src/app/page-old.tsx:148-161 | any page with a socket and a poll (no host check) enters voting with the poll's voting time and sends start-poll |
| GameViewOld.OldGamePage.HandleVote | src/app/page-old.tsx:163-171 | a vote is sent exactly when there is a socket, a non-empty user id and a poll, and no own vote is recorded |
| GameViewOld.OldGamePage.HandleClosePoll | src/app/page-old.tsx:173-179 | close-poll is sent exactly when there is a socket and a poll (no host check) |
| GameViewOld.OldGamePage.HandleNextPoll | src/app/page-old.tsx:181-192 | without a host check: moves to the next poll when one exists, otherwise nothing changes |
| GameViewOld.OldGamePage.HandlePreviousPoll | src/app/page-old.tsx:194-205 | without a host check: moves to the previous poll from index 1 or more, otherwise nothing changes |
| GameViewOld.OldGamePage.MoveTo | src/app/page-old.tsx:184-190 | the setter block of a move, as in the current page |

## Left out

- HTTP request handling, Next.js preparation, Socket.IO server construction, CORS, `listen` and process exit in server.mjs. These are I/O plumbing. Each handler is a method call, and handling messages one at a time stands for the single-threaded event loop.
- The `connection` and `disconnect` logging in server.mjs has no effect on state.
- Every `console.log`, `console.error` and the `alert` of page-old.tsx's error listener are left out. They do not change state. page.tsx's error listener only logs.
- Malformed payloads are not modelled. The model assumes every payload field is present and typed, so these paths of the source are left out:
  - a message with no payload object throws at the destructuring (server.mjs:43, 63, 101, 117, 130);
  - a start-poll whose `options` is missing or not an array throws at `options.forEach` (server.mjs:46);
  - a missing `pollId` becomes the key `undefined`. start-poll stores and broadcasts an entry under it (server.mjs:50-59), and submit-vote answers "Poll not found" (server.mjs:64-68);
  - a missing `option` is refused with "Invalid option" (server.mjs:81, 96);
  - a missing `userId` is accepted once, and later votes without a `userId` are refused as already voted (server.mjs:76, 84).
- Property-name quirks of `votes[option] !== undefined` on a plain JavaScript object are not modelled. A vote for `"constructor"` would pass that test. `votes` is a map whose keys are exactly the announced options.
- Objects are modelled as values. The source broadcasts the live `votes` object and the pages keep the received object. Sharing one object has no visible effect here, because each emitted payload is serialised when it is sent.
- src/contexts/SocketContext.tsx is not part of this model. That covers transport setup, reconnection settings and the connection flags. Its `request-state` emission meets no listener in server.mjs, so `Handle` treats it as a no-op and no server resync is modelled.
- src/app/layout.tsx, all rendering, animation, the image loaded/error flags and the reconnect banner are UI and are left out. So is the fact that page-old.tsx offers its start, close, next and previous buttons to hosts only through rendering.
- Real-time scheduling is left out: `setInterval`, the two-second `setTimeout`, and clearing the interval on unmount. `Tick` is one interval callback and `AutoStart` is the deferred callback. Both run on the state they are called in, not on values captured in a closure when the effect ran.
- When revealing ends, the model sets the timer to the poll's reveal time. This is an assumption about React, not a fact of the source. The source calls `setTimer(revealTime)` inside the updater of another `setTimer` that returns 0 (src/app/page.tsx:146-158, src/app/page-old.tsx:99-111). The outcome depends on when React runs that updater. If it runs during render, the inner update is queued after the outer one and the timer ends at the reveal time. If React computes it eagerly when the update is dispatched, the inner update is queued first, the outer `return 0` is applied after it, and the timer ends at 0.
- GameView.GamePage.OnGameStateSync: the payload's `phase` is an unchecked string cast in the source, so any string can arrive. The model takes a `Phase` value.
- ClientCommon.GetPercentage: the floating-point division, multiplication and `Math.round` are modelled exactly as nearest-integer rounding with halves up. A last-bit float error that rounds `x.5` down is not modelled. An option missing from `votes` gives NaN in the source and None here.
- Utils.ToLower: only ASCII letters are lower-cased. JavaScript's `toLowerCase` also maps non-ASCII letters. No listed extension contains one, but a URL ending in, for example, a non-ASCII capital before the extension would be lower-cased differently.
- Utils.IsValidImageUrl: the `typeof url !== "string"` test and the `try`/`catch` cannot fire on a Dafny string and are left out.
- Utils.GetTimerColor: takes a real, so NaN and infinities are not modelled. NaN gives red in the source.
- Utils.FormatTime: takes an integer number of seconds. A fractional input would print a fraction in the source.
- `debounce`, `throttle`, `safeLocalStorage`, `isMobile`, `isIOS`, `supportsWebSocket`, `vibrate`, `copyToClipboard`, `getNetworkQuality` and `measurePerformance` in utils.ts are timer closures or browser-API wrappers and are left out.
- The display fields of each poll (segment name, title, image path, question and explanation) are only read by the rendering. They live in the parallel constant `Catalogue.GameText`, not in `Poll`. `GameData[i]` and `GameText[i]` together are the source's i-th poll. No function, method or lemma of the model reads `GameText`.
