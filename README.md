# Imposter: the room and game engine

This project models the in-memory core of the "Imposter" party-game server
(`server.js`). The model covers:

- the **room registry**: four-letter room codes, creating and joining rooms,
  disconnection and host hand-over;
- the **pre-game countdown**: start and cancel by the host;
- the **phase state machine** of one game, with its phases choose, talk, vote
  and score. A game lasts three game rounds, and each game round has up to
  three vote rounds;
- **scoring**: the first vote of the game round counts, and the imposter loses a
  share of 900 per correct vote;
- the **scoreboard**: a stable sort by descending score;
- the **per-player phase view** and the resync snapshot sent to a reconnecting
  player.

The modules follow the program's structure:

| module | file | what it holds |
|---|---|---|
| `Wrappers` | wrappers.dfy | `Option`, `Outcome`, `Result` |
| `Names` | names.dfy | `sanitizeUpperLetters`, name and code cleaning, `pickColor`, the room-code letters |
| `Roster` | roster.dfy | the player record and the roster queries and updates the handlers use |
| `PhaseTimer` | phase_timer.dfy | the per-room countdown timer, driven by one-second ticks |
| `TalkOrder` | talk_order.dfy | `shuffle` (in place, on an array) and the rotation of the talk order |
| `Scoring` | scoring.dfy | first votes, points, and the tally loop of `startScorePhase` |
| `Scoreboard` | scoreboard.dfy | the ranked scoreboard and the winner |
| `GameSession` | game.dfy | the game record and its invariant, the vote predicates and transitions, `sendPhaseStateToPlayer`, `serializeGameState` |
| `Rooms` | room.dfy | `class Room`: each socket handler and timer callback that changes a room, in place |
| `Registry` | registry.dfy | `class Registry` (the `rooms` map) and `class Connection` (a socket's `currentRoomCode`/`currentName`) |

Each random draw is a parameter whose range is stated, such as `IndexDraw(k, n)`
or `SwapDraws(js, n)`. Each one-second interval tick is a method call:
`CountdownTick` and `PhaseTick`. Where the source emits a message another part
needs, the method returns it instead: the join resync, the scoreboard and the
end-of-game result.

These behaviours of the code may surprise a reader:

- The voted flag is cleared only when a game round starts and when the game
  ends (server.js:438, 633), not at each vote round. So a player votes at
  most once per game round, and no later vote is ever recorded.
- Vote completion and the start check count every roster entry, connected or
  not (server.js:234, 536, 543).
- The chooser is recognised by the socket id recorded at round start
  (server.js:275), so a chooser who reconnects under a new socket cannot choose.
- The reconnection branch for a started room (server.js:190-203) can never
  be reached, because a disconnected entry of that name is reconnected earlier
  (server.js:159-178). `Rooms.Room.Join` asserts this.

## Model

| member | source | states |
|---|---|---|
| `Names.ToUpper` | server.js:39 | A lower-case ASCII letter becomes its capital, 32 code points lower; every other character is kept. So the result is a capital exactly when the input is an ASCII letter. |
| `Names.Sanitize` | server.js:37-40 | The result holds only letters A-Z and is never longer than the input. Its content is pinned down character by character by `Names.SanitizeSingle` and `Names.SanitizeAppend`. |
| `Names.SanitizeSingle` | server.js:39 | One character sanitises to its capital when it is an ASCII letter, and to nothing otherwise. |
| `Names.SanitizeKeepsUpper` | server.js:37-40 | A string of capitals comes back unchanged. |
| `Names.SanitizeIdempotent` | server.js:37-40 | Sanitising twice gives the same as sanitising once. |
| `Names.SanitizeAppend` | server.js:37-40 | Sanitising works character by character: it distributes over concatenation. |
| `Names.SanitizeEmptyIff` | server.js:37-40 | The result is empty exactly when the input holds no ASCII letter (the "Name required" case). |
| `Names.CleanName` | server.js:118-119 | The clean name is the first min(n, 20) letters of the sanitised input, n being its length. So it is empty (and refused) exactly when sanitising leaves nothing, and otherwise a valid name of 1 to 20 capitals. |
| `Names.CleanCode` | server.js:147 | The looked-up code is the first min(n, 4) letters of the sanitised input, n being its length: at most four capitals. |
| `Names.FirstFreeColor` | server.js:43-45 | Finds the first palette entry at or after `k` that is not in use. Every entry before it is in use, and "none" means every entry is in use. |
| `Names.PickColor` | server.js:42-47 | The colour is from the palette. It is the first unused entry when one exists, else the entry at the random fallback index. |
| `Names.ColorsDistinct` | server.js:26-31 | The palette has 20 distinct colours, as many as the room capacity. |
| `Names.PickColorFresh` | server.js:214-215 | With fewer colours in use than palette entries, the picked colour is unused. |
| `Names.CodeOf` | server.js:53 | Four letter draws spell a valid room code. |
| `Names.CodeDrawRoundTrip` | server.js:53 | Draws and codes correspond one to one, so every four-letter code can be generated. |
| `Roster.RosterAppend` | server.js:209-216 | Appending an entry with a fresh valid name to a roster below capacity keeps the roster invariant: 1 to 20 entries with unique valid names. |
| `Roster.FindByName` | server.js:158 | Finds an entry with that name; "none" exactly when no entry has it. |
| `Roster.FindById` | server.js:336 | Finds the FIRST entry with that socket id; "none" exactly when no entry has it. |
| `Roster.MarkDisconnected` | server.js:336-339 | Only the first entry with the socket id goes offline; everything else is unchanged. |
| `Roster.FirstConnected` | server.js:342 | Finds the first connected entry in roster order; "none" exactly when nobody is connected. |
| `Roster.ConnectedAmongMembers` | server.js:425-426 | A name is among the connected names exactly when some connected entry carries it. |
| `Roster.UsedColorsCard` | server.js:214 | A roster of n entries uses at most n colours. |
| `Roster.ClearRoundFlags` | server.js:438 | Every entry keeps all its fields except the two round flags, which are cleared. |
| `Roster.ClearGoAgain` | server.js:326 | Every entry keeps all its fields except the go-around flag, which is cleared. |
| `Roster.ClearVoted` | server.js:633 | Every entry keeps all its fields except the voted flag, which is cleared. |
| `Roster.SetHostFlags` | server.js:345 | Exactly the entries holding the new host's socket id are flagged host; nothing else changes. |
| `PhaseTimer.Stop` | server.js:61-68 | A stopped timer has no pending callback and keeps its remaining seconds. |
| `PhaseTimer.Start` | server.js:70-75 | A started timer carries the new callback and the new seconds, whatever ran before. |
| `PhaseTimer.Tick` | server.js:76-86 | A tick changes nothing without a pending callback. Otherwise the seconds go down by one, and the callback fires, leaving the timer stopped, exactly when the seconds were at most 1. |
| `PhaseTimer.StoppedNeverFires` | server.js:76-78 | A stopped timer never fires and does not change, however many ticks arrive. |
| `PhaseTimer.RunningFiresOnce` | server.js:76-86 | A running timer with s seconds left fires its callback exactly once, on tick max(s, 1). |
| `PhaseTimer.RunningCountsDown` | server.js:79-81 | Until it expires, a running timer counts down by one per tick. |
| `PhaseTimer.StartFiresOnce` | server.js:70-86 | After a restart only the new callback runs, exactly once, on tick max(s, 1); the old one is discarded. |
| `PhaseTimer.TickAfterStop` | server.js:78 | A tick after a stop changes nothing and fires nothing. |
| `TalkOrder.SwapPermutes` | server.js:640 | One swap permutes the sequence. |
| `TalkOrder.ShuffledPermutes` | server.js:636-643 | The shuffle is a permutation of its input. |
| `TalkOrder.Shuffle` | server.js:636-643 | The in-place array loop computes exactly the specified swap sequence, and the result is a permutation of the input. |
| `TalkOrder.RotateFacts` | server.js:460-461 | The rotation starts at entry k, wraps around to the front, and keeps every entry. |
| `TalkOrder.TalkOrderPermutes` | server.js:458-462 | The talk order is a permutation of the connected names, with the same names. |
| `TalkOrder.DrawTalkOrder` | server.js:458-461 | The talk order is the shuffle of the names rotated by the drawn offset. |
| `Scoring.FirstVoteIndex` | server.js:575-580 | Finds the earliest vote cast by the voter; "none" exactly when they never voted. |
| `Scoring.FirstVoteByPrefix` | server.js:576-579 | Appending a vote changes a voter's first vote only when they had none. |
| `Scoring.IndexFirstVotes` | server.js:575-580 | The loop builds a map holding exactly the voters who voted, each with their first vote. |
| `Scoring.RoundPoints` | server.js:589-591 | A correct vote is worth 900 in vote round 1, 600 in round 2, and 300 otherwise. |
| `Scoring.VotePoints` | server.js:587-592 | A first vote earns points exactly when it exists and names the imposter. |
| `Scoring.DeductionIsProduct` | server.js:603 | The deduction is `perCorrect * correctVotes`. |
| `Scoring.ImposterPoints` | server.js:601-604 | The imposter gets at most 900, and exactly 900 when nobody voted correctly. |
| `Scoring.ImposterAward` | server.js:602-604 | The source's arithmetic, including the clamp at 0, gives the specified imposter award. |
| `Scoring.ScoreEntry` | server.js:583-592 | One entry gets the specified points, and its vote counts as correct exactly when the points are positive. |
| `Scoring.ComputeTally` | server.js:575-604 | The two loops of the score phase compute the specified tally: per-entry points, correct-vote count and imposter award. |
| `Scoring.TallyOf` | server.js:575-604 | The tally has points for every roster entry, at most one correct vote per entry, and an imposter award of at most 900. |
| `Scoring.TallyPoints` | server.js:583-592 | An entry earns points exactly when it is not the imposter and its first vote named the imposter. The amount is set by that vote's round. |
| `Scoring.LaterVotesIgnored` | server.js:576-579 | A second vote by someone who already voted never changes the tally. |
| `Scoring.CorrectCountBound` | server.js:581-588 | With the imposter on the roster, at most n-1 votes are correct. |
| `Scoring.PerCorrectBound` | server.js:602-603 | floor(900/m) times at most m correct votes never exceeds 900. |
| `Scoring.ImposterPointsExact` | server.js:601-604 | With the imposter on the roster the clamp never applies: the award is exactly 900 - floor(900/(n-1)) * correctVotes. |
| `Scoring.ImposterPointsMonotone` | server.js:602-604 | More correct votes never raise the imposter's award. |
| `Scoreboard.RowsOf` | server.js:611 | One row per entry, in roster order, holding its name and score. |
| `Scoreboard.InsertPoint` | server.js:612 | The insertion point is past every row that outscores the new row and at the first one that does not. |
| `Scoreboard.Insert` | server.js:612 | Insertion adds exactly one row and keeps every other. The head is the new row when the board is empty or the new row scores at least as much as the old head, and the old head otherwise. Its exact place, before the first row that does not outscore it with both sides in order, is stated by `Scoreboard.InsertSplice`. |
| `Scoreboard.InsertSplice` | server.js:612 | The new row lands at the insertion point; the rows before and after it keep their order. |
| `Scoreboard.InsertWithScore` | server.js:612 | Among the rows of any one score, insertion puts the new row first when it has that score and otherwise leaves them as they were. |
| `Scoreboard.InsertSorted` | server.js:612 | Inserting into a board sorted by descending score keeps it sorted. |
| `Scoreboard.SortDesc` | server.js:612 | The sort is a permutation of the rows, in descending score order. |
| `Scoreboard.SortDescStable` | server.js:612 | The sort is stable: for every score, the rows with that score appear in roster order. |
| `Scoreboard.SortDescHead` | server.js:627-628 | The top row is the first roster row with the highest score, so ties go to roster order. |
| `Scoreboard.Ranked` | server.js:612 | Places are 1, 2, ... in board order, with names and scores kept. |
| `Scoreboard.WinnerIsFirstTop` | server.js:627-628 | There is no winner only for an empty roster. Otherwise the winner is the earliest entry with the highest score. |
| `Scoreboard.ScoreBoardIsRanking` | server.js:610-613 | The board lists every player exactly once, with places 1..n and scores in descending order. |
| `GameSession.PromptFor` | server.js:454-455 | The prompt is non-empty and is either listed for the subject or the placeholder. It is the drawn list entry whenever the list and that entry are non-empty, and the placeholder when the list is empty. |
| `GameSession.Speaker` | server.js:473 | There is a speaker exactly when the talk index is inside the talk order, and it is the name at that index. |
| `GameSession.CanVoteIsFirstVote` | server.js:294-303 | A vote the guards accept is the voter's first of the game round, cast in vote round 1 to 3. |
| `GameSession.ConnectedIdOf` | server.js:431 | The chooser's recorded socket id belongs to a connected entry of that name. |
| `GameSession.NewRoundRoles` | server.js:425-431 | Imposter and chooser both exist exactly when someone is connected. Both are connected players, and the chooser's socket id is recorded. |
| `GameSession.NewRound` | server.js:423-447 | A new round is in the choose phase with no subject, prompt, ballots or tally, vote round 0, and a 10-second choose timer. Game round, talk order and index are kept, and the chooser's socket id is recorded. |
| `GameSession.NewRoundInv` | server.js:423-438 | A new game round satisfies the game invariant against the cleared roster: no ballots, nobody voted, the imposter on the roster. |
| `GameSession.SubjectKeepsInv` | server.js:449-466 | Fixing the subject keeps the game invariant. |
| `GameSession.WithTalkTimer` | server.js:474-478 | The talk turn gets a fresh 10-second timer that advances the talk; nothing else changes. |
| `GameSession.WithVoteTimer` | server.js:510-512 | The vote gets a fresh 10-second timer that handles the vote timeout; nothing else changes. |
| `GameSession.AfterAdvance` | server.js:494-505 | The talk index moves on by one. The talk moves to the vote exactly when the last speaker is done, and only then does the vote round go up. A fresh 10-second timer runs: the vote timeout in the vote, the next advance in the talk. Nothing else changes. |
| `GameSession.AdvanceKeepsInv` | server.js:494-505 | Advancing the talk keeps the game invariant, so the vote round never exceeds 3. |
| `GameSession.BackToTalkKeepsInv` | server.js:554-559 | Going back to talk before vote round 3 keeps the invariant with the go-around flags cleared. |
| `GameSession.ScoredKeepsInv` | server.js:568-571 | Entering the score phase keeps the invariant, and the tally covers the whole roster. |
| `GameSession.TimerKeepsInv` | server.js:70-87 | No timer start, stop or tick breaks the game invariant. |
| `GameSession.NewGame` | server.js:418-419 | A new game starts at game round 1. |
| `GameSession.AppendBallot` | server.js:305-306 | Recording a non-imposter's first ballot and setting their flag keeps the vote invariant. No one has two ballots, and voted flags match the ballots. |
| `GameSession.RecordVote` | server.js:305-306 | The ballot is appended to the game's ballots, nothing else in the game changes, and only the voter's entry gets its voted flag set. |
| `GameSession.RecordVoteKeepsInv` | server.js:305-306 | An accepted vote keeps the invariant, adds exactly that ballot, and leaves the names alone. |
| `GameSession.RecordedVoteCounts` | server.js:305-306 | The recorded ballot is the voter's first of the game round, the one the score phase counts. |
| `GameSession.VoteProgress` | server.js:546-566 | Ballots, vote round, game round, imposter and talk order are kept, and the roster keeps its length. |
| `GameSession.VoteProgressOutcome` | server.js:546-566 | After a vote the game scores exactly when every non-imposter has voted. It returns to talk exactly when not all voted, all voted or asked to go around, and the vote round is below 3; it then restarts from the first speaker with the go-around flags cleared. Otherwise it stays in the vote: in vote round 3 with a restarted vote timer, before it unchanged. Ballots, vote round and the invariant are kept. |
| `GameSession.GoAroundKeepsInv` | server.js:311-330 | Asking to go around keeps the invariant and never touches a ballot or a voted flag. |
| `GameSession.GoAround` | server.js:311-330 | The game either stays as it is or goes back to talk; ballots, vote round and talk order are kept, and the roster keeps its length. |
| `GameSession.GoAroundOutcome` | server.js:319-329 | The talk restarts exactly when, counting this request, every other non-imposter has voted or asked. Otherwise the game is unchanged and the requester counts as having acted. |
| `GameSession.VoteExpired` | server.js:512-522 | An expired vote always ends in the talk or the score phase, with ballots and vote round kept and the roster length kept. |
| `GameSession.VoteExpiredOutcome` | server.js:512-522 | An expired vote always leaves the vote phase. It scores exactly when everyone voted or it is vote round 3, and otherwise returns to talk. The invariant is kept. |
| `GameSession.GameInvFrame` | server.js:336-347 | Changes to roster fields the game does not read (connection, host, id, colour, score, go-around) keep the game invariant. |
| `GameSession.TimerNoteOf` | server.js:375-379 | The remaining seconds are sent exactly when they are positive. |
| `GameSession.TalkViewHidesPrompt` | server.js:385-399 | In the talk phase the imposter never gets the prompt and everyone else does. Exactly the current speaker gets the speaker view, with their own name and the imposter or the ordinary talk message by role. Every listener is told the current speaker and whether they are the imposter. |
| `GameSession.VoteViewBallot` | server.js:400-411 | In the vote phase only a non-imposter who has not voted gets a ballot. It lists every roster name, carries the current vote round, and offers go-around before vote round 3. |
| `GameSession.Serialize` | server.js:356-370 | The snapshot is absent exactly when there is no game. It carries the game's round, phase, subject, chooser, imposter, talk order, talk index, vote round and ballots. |
| `GameSession.SerializeRoundTrip` | server.js:356-370 | The snapshot and the fields it leaves out (chooser id, prompt, timer, tally) together rebuild the game exactly. |
| `GameSession.PhaseView` | server.js:372-412 | The view kind follows the phase: choose, talk (speaker or listener), vote (ballot, imposter or already voted), score reveal. The timer note is sent outside the score phase as `TimerNoteOf` gives it. The choose view names the chooser with the subjects. The listener view names the speaker and tells the imposter its role; the speaker view carries the speaker's name and the message for its role. The ballot carries the vote round, and the score view names the imposter. |
| `Rooms.JoinRefusal` | server.js:179-213 | A name that is not reconnected is refused unless the room is not started, below 20 entries, and the name is new. |
| `Rooms.AfterDisconnect` | server.js:336-347 | The roster keeps its length. The host changes only when the host itself leaves, and a new host is a connected entry. |
| `Rooms.DisconnectKeepsNames` | server.js:336-347 | A disconnection changes only connection and host flags, never a name, score or voted flag. |
| `Rooms.DisconnectMarks` | server.js:336-339 | Exactly one entry goes offline: the first holding the socket id. Every other entry keeps its connection. |
| `Rooms.DisconnectHandsOver` | server.js:340-347 | The host is kept when another socket leaves. When the host leaves, the role passes to the first connected entry, the only one then flagged host. With nobody connected, no one holds the role. |
| `Rooms.Paid` | server.js:595-608 | Only scores change, and the connected names are kept. |
| `Rooms.PaidScores` | server.js:583-608 | A non-imposter gains the round points of a correct first vote and nothing otherwise. The imposter gains the award for the number of correct votes. |
| `Rooms.CreditPoints` | server.js:595-608 | The crediting loop pays every entry its tally points in roster order, then the imposter its award. |
| `Rooms.SubjectedTalkOrder` | server.js:449-469 | Choosing a subject opens the talk phase at the first speaker with a fresh 10-second turn. The prompt is `PromptFor`'s draw for the subject. The talk order is a permutation of the names drawn from (the connected names, in `SetSubjectAndPrompt`). Round, vote round, ballots and imposter are kept. |
| `Rooms.Subjected` | server.js:449-469 | Fixing the subject opens the talk phase at index 0, with that subject and a talk order as long as the names drawn from. |
| `Rooms.Room.constructor` | server.js:124-134 | A new room has the creator as host and sole entry, with the first palette colour, not started, no countdown, no game. |
| `Rooms.Room.Join` | server.js:156-223 | A disconnected entry of that name is reconnected exactly when one exists. A refusal carries `JoinRefusal`'s message and changes nothing. A fresh join appends one entry with an unused colour. |
| `Rooms.Room.Disconnect` | server.js:336-347 | The roster and host become `AfterDisconnect`'s, and the room invariant is kept. |
| `Rooms.Room.StartGame` | server.js:230-241 | Only the host with at least 3 entries (connected or not) may start. A running countdown is left alone; otherwise one starts at 3. |
| `Rooms.Room.CancelStart` | server.js:259-267 | Only the host may cancel, and a cancel always leaves no countdown running. |
| `Rooms.Room.CountdownTick` | server.js:242-252 | The countdown goes 3, 2, 1, and the next tick starts the room and begins game round 1. |
| `Rooms.Room.StartNewGame` | server.js:418-421 | A new game begins game round 1 in the choose phase. |
| `Rooms.Room.StartRound` | server.js:423-447 | Roles are drawn from the connected players and the round flags are cleared. The choose phase runs with a 10-second timer, and the invariant holds. |
| `Rooms.Room.ChooseSubject` | server.js:271-278 | Only the chooser's socket, in the choose phase, with a listed subject, moves the game to talk. Otherwise nothing changes. |
| `Rooms.Room.SetSubjectAndPrompt` | server.js:449-469 | The game becomes `Subjected` (see `Rooms.SubjectedTalkOrder`), with the talk order drawn by the in-place shuffle. |
| `Rooms.Room.AdvanceTalk` | server.js:494-505 | The game becomes `AfterAdvance` of the old game, and the invariant is kept. |
| `Rooms.Room.DoneTalk` | server.js:280-287 | Only the current speaker, in the talk phase, advances the talk. Otherwise nothing changes. |
| `Rooms.Room.VoteFor` | server.js:289-309 | A vote the guards reject changes nothing. An accepted one records the ballot and then resolves the vote progress. |
| `Rooms.Room.CheckVoteProgress` | server.js:546-566 | Game and roster become `VoteProgress`'s (see `GameSession.VoteProgressOutcome`). |
| `Rooms.Room.GoAroundAgain` | server.js:311-330 | A request the guards reject changes nothing. An accepted one has `GoAround`'s effect (see `GameSession.GoAroundOutcome`). |
| `Rooms.Room.StartScorePhase` | server.js:568-608 | The timer stops, the score phase begins, and the tally of the roster and ballots is recorded. |
| `Rooms.Room.ChooseExpired` | server.js:441-446 | When the choose timer expires with no subject chosen, the drawn subject is set as if chosen. |
| `Rooms.Room.TalkExpired` | server.js:476-478 | When the talk timer expires, the talk advances if it is still the talk phase. |
| `Rooms.Room.VoteExpiredTick` | server.js:512-522 | When the vote timer expires in the vote phase, the game follows `VoteExpired` (see `GameSession.VoteExpiredOutcome`). Otherwise nothing changes. |
| `Rooms.Room.PhaseTick` | server.js:76-86 | One tick counts the timer down; without a game or a pending callback nothing else happens. On expiry it runs exactly the pending callback: the choose timeout sets the drawn subject if none was chosen, the talk timeout advances a talk still under way, and the vote timeout resolves a vote still under way. |
| `Rooms.Room.PayOut` | server.js:595-608 | The score timeouts pay every entry as `Rooms.PaidScores` states. |
| `Rooms.Room.NextRound` | server.js:615-623 | Before game round 3 the next round starts. After it the game ends with the sorted board and the winner, and the room returns to the lobby. |
| `Rooms.Room.RevealScores` | server.js:595-623 | The payout, then the ranked board of the paid roster, then the next round or the end of the game. |
| `Rooms.Room.EndGame` | server.js:626-634 | The final board is the sorted roster with the first top scorer as winner. The room is no longer started and has no game; voted flags are cleared and scores kept. |
| `Registry.Connection.constructor` | server.js:114-115 | A new connection has no room and no name. |
| `Registry.Registry.constructor` | server.js:23 | The registry starts empty. |
| `Registry.Registry.GenerateRoomCode` | server.js:49-56 | The code is the first drawn code not in use; every earlier draw was taken. |
| `Registry.Registry.CreateRoom` | server.js:117-143 | An empty clean name is refused and changes nothing. Otherwise one fresh room is filed under a new, first-free code, with the creator as host and sole entry; it is not started and has no countdown and no game. The connection remembers room and name. |
| `Registry.Registry.JoinRoom` | server.js:145-224 | Errors come in order: name required, then room not found, and an empty name leaves the room untouched. The outcome is a reconnection or a fresh join exactly as the room's state decides. A refusal carries the room's reason and leaves the roster and host alone. A fresh join appends one entry with the picked colour; a reconnection updates the entry in place and restores its host role. Start flag, countdown and game never change, and the connection is updated unless the join was refused. |
| `Registry.Registry.StartGame` | server.js:226-241 | Without a room nothing happens. Otherwise the room's host and size checks decide. A start with no countdown running begins one at 3, and roster, host, start flag and game are kept. |
| `Registry.Registry.CancelStart` | server.js:255-268 | Without a room nothing happens. Otherwise only the host cancels, leaving no countdown; a refused cancel leaves the countdown as it was. Roster, host, start flag and game are kept. |
| `Registry.Registry.Disconnect` | server.js:332-352 | The socket's entry goes offline with host hand-over, and the room's start flag, countdown and game stay. The room is removed exactly when nobody in it is connected any more. |
| `Registry.Registry.ChooseSubject` | server.js:271-278 | Roster, host, start flag and countdown are untouched. Only the chooser's socket, in the choose phase and with a listed subject, changes the game: to `Subjected`, with its talk order, prompt and talk timer. Otherwise nothing changes. |
| `Registry.Registry.DoneTalk` | server.js:280-287 | Only the connection whose name is the current speaker's advances the talk; otherwise the game stays. Roster, host, start flag and countdown stay. |
| `Registry.Registry.VoteFor` | server.js:289-309 | The room's vote handling, with the voter identified by the connection's name: a rejected vote changes neither game nor roster, and an accepted one is recorded and then resolved by `VoteProgress`. Host, start flag and countdown stay. |
| `Registry.Registry.GoAroundAgain` | server.js:311-330 | The room's go-around handling, with the requester identified by the connection's name: a rejected request changes nothing, and an accepted one has `GoAround`'s effect. Host, start flag and countdown stay. |

## Left out

- socket.io and express are not modelled: joining socket rooms, and emitting
  messages to sockets and rooms. Nor are the broadcasts that only inform
  clients: `playersUpdate`, `countdown`, `phaseChosen`, `voteUpdate`,
  `phaseTimer`, the reveal messages, and the per-player talk and vote
  messages of `emitTalkState` and `emitVoteState`. Their content per player is
  modelled once, by `GameSession.PhaseView`.
- Real time is not modelled: each `setInterval` tick is an explicit call.
- Rooms.Room.RevealScores: the staggered `setTimeout`s of the score phase
  (server.js:595-623) are collapsed into one step. Actions that arrive between
  those timeouts are not interleaved.
- `Math.random` is not modelled. Every draw is a caller-supplied index in
  range: imposter, chooser, auto-chosen subject, prompt, swap partners, talk
  offset, fallback colour and room-code letters.
- Registry.Registry.GenerateRoomCode: the unbounded retry loop is a finite
  sequence of draws that holds a free code. Termination on truly random
  draws is not claimed.
- Loading `prompts.json` is not modelled. The catalogue of subjects and
  prompts is a parameter.
- GameSession.CatalogValid: the catalogue is assumed to have at least one
  subject, no subject twice, and a prompt list for each subject. The source
  takes the keys of a JSON object, so they are distinct; an empty file would
  make the automatic subject draw index an empty list, which is not modelled.
- The `try { ... } catch (e) {}` around timer callbacks (server.js:84) is left
  out. No modelled callback throws.
- Rooms.Room.DoneTalk, Registry.Registry.DoneTalk: the source throws a
  TypeError when the socket has no room or the room no game
  (server.js:281-283), which would bring the process down. Both preconditions
  exclude it.
- Rooms.Room.PayOut: the imposter timeout reads `imposter.name` and throws when
  the round had no imposter. That happens only when nobody was connected at
  round start (server.js:601, 606-607), and the precondition excludes it.
- Names.Sanitize: only ASCII upper-casing is modelled. Unicode case mappings
  of `toUpperCase` that yield A-Z (for example 'ß' to "SS") are not, and
  neither are non-string payloads, which the source maps to "".
- Rooms.Room.CountdownTick: a countdown may be started while a game is
  running (the start handler does not check the start flag, server.js:226-241),
  and its last tick replaces the game (server.js:419). In the source the old
  game's interval (server.js:76-86) then keeps running: it stops the new
  game's timer and re-runs the old callback against the new game every
  second. The model drops the old game's timer with the old game.
- Rooms.Room.StartNewGame: for the same reason, the score-phase timeouts of a
  replaced game (server.js:595-623) would still credit points and start or
  end rounds of the new game in the source. The model has no pending
  timeouts outside the game it replaces, so this interleaving is not
  modelled.
- GameSession.Serialize: in the choose phase of game round 1 the source's game
  has no talk order or talk index yet (server.js:419, 423-447), so its
  snapshot leaves both keys out. The model's game always has them, and its
  snapshot carries the empty order and index 0 instead.
- Timers of a room removed from the registry keep running in the source.
  Ticks are `Rooms.Room` methods and the registry has none, so which rooms
  tick, a removed one included, is left to the caller.
- `removeFromRoom` (server.js:93-107) and `expandPromptsTo`
  (server.js:644-669) are never called by the server and are not modelled.
- TalkOrder.DrawTalkOrder: the permutation property is not in its own
  contract. `TalkOrder.TalkOrderPermutes` states it about the same expression.
- The HTTP routes, the server start-up and the browser client are not part of
  this model.
- The fields `talkStartIndex`, `talkStartName` and `countdownTimer` are written
  but never read by the source (server.js:435, 463-464), and are not modelled.
