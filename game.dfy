/**
 * The per-room game record (`room.game`), the prompt catalogue, the vote
 * predicates, the per-player phase view (`sendPhaseStateToPlayer`,
 * server.js:372-416) and the resync snapshot (`serializeGameState`,
 * server.js:356-370).
 */
module GameSession {
  import opened Wrappers
  import opened Names
  import opened Roster
  import opened Scoring
  import opened PhaseTimer

  const PHASE_SECONDS: int := 10
  const MAX_ROUNDS: int := 3
  const MAX_VOTE_ROUNDS: int := 3
  const START_COUNT: int := 3
  const MYSTERY_PROMPT: string := "Mystery Prompt"
  const MSG_IMPOSTER_TALK: string := "You are the imposter, blend in."
  const MSG_TALK: string := "Say something related to the prompt"

  datatype Phase = Choose | Talk | Vote | Score

  /** Which `onExpire` closure the running phase timer carries. */
  datatype Expiry = AutoChoose | AutoAdvance | VoteTimeout

  /** The prompt lists by subject and the subjects in key order, loaded once at start-up (server.js:34-35). */
  datatype Catalog = Catalog(subjects: seq<string>, prompts: map<string, seq<string>>)

  ghost predicate CatalogValid(c: Catalog) {
    && |c.subjects| > 0
    && (forall i, j :: 0 <= i < j < |c.subjects| ==> c.subjects[i] != c.subjects[j])
    && (forall s :: s in c.prompts <==> s in c.subjects)
  }

  /** The prompt list of a subject, empty for a subject the catalog lacks (server.js:454). */
  function PromptsOf(c: Catalog, subject: string): seq<string> {
    if subject in c.prompts then c.prompts[subject] else []
  }

  predicate PromptDraw(c: Catalog, subject: string, k: nat) {
    IndexDraw(k, |PromptsOf(c, subject)|)
  }

  /** The drawn prompt of the list, or the placeholder for an empty list or an empty prompt (server.js:455). */
  function PromptFor(c: Catalog, subject: string, k: nat): (p: string)
    requires PromptDraw(c, subject, k)
    ensures p != []
    ensures p == MYSTERY_PROMPT || p in PromptsOf(c, subject)
    ensures p == MYSTERY_PROMPT <== PromptsOf(c, subject) == []
    ensures |PromptsOf(c, subject)| > 0 && PromptsOf(c, subject)[k] != [] ==> p == PromptsOf(c, subject)[k]
  {
    var list := PromptsOf(c, subject);
    if |list| == 0 || list[k] == [] then MYSTERY_PROMPT else list[k]
  }

  /**
   * `room.game`. `talkOrder` and `talkIndex` are unset until the first
   * subject is chosen (empty and 0 here) and carry over into the next
   * round's choose phase; `tally` is what the score-phase timeouts will pay out.
   */
  datatype Game = Game(
    round: int,
    phase: Phase,
    imposterName: Option<string>,
    chooserName: Option<string>,
    chooserId: Option<SocketId>,
    subject: Option<string>,
    prompt: Option<string>,
    talkOrder: seq<string>,
    talkIndex: int,
    voteRound: int,
    votes: seq<VoteRecord>,
    timer: Timer<Expiry>,
    tally: Option<Tally>)

  /** The name at the talk index of the talk order, none when the index is out of range. */
  function Speaker(g: Game): (r: Option<string>)
    ensures r.Some? <==> 0 <= g.talkIndex < |g.talkOrder|
    ensures r.Some? ==> r.value == g.talkOrder[g.talkIndex]
  {
    if 0 <= g.talkIndex < |g.talkOrder| then Some(g.talkOrder[g.talkIndex]) else None
  }

  function Voters(votes: seq<VoteRecord>): (r: seq<string>)
    ensures |r| == |votes|
    ensures forall k :: 0 <= k < |votes| ==> r[k] == votes[k].voter
  {
    seq(|votes|, k requires 0 <= k < |votes| => votes[k].voter)
  }

  /** `allNonImpostersVoted`: every roster entry but the imposter, connected or not, has voted. */
  predicate AllNonImpostersVoted(ps: seq<Player>, imposter: Option<string>) {
    forall i :: 0 <= i < |ps| && Some(ps[i].name) != imposter ==> ps[i].hasVotedThisRound
  }

  /** `allNonImpostersActioned`: every roster entry but the imposter has voted or asked to go around. */
  predicate AllNonImpostersActioned(ps: seq<Player>, imposter: Option<string>) {
    forall i :: 0 <= i < |ps| && Some(ps[i].name) != imposter ==>
      ps[i].hasVotedThisRound || ps[i].clickedGoAgainThisRound
  }

  /** The voted flag of each roster entry, in roster order. */
  function VotedOf(ps: seq<Player>): (r: seq<bool>)
    ensures |r| == |ps|
    ensures forall i :: 0 <= i < |ps| ==> r[i] == ps[i].hasVotedThisRound
  {
    seq(|ps|, i requires 0 <= i < |ps| => ps[i].hasVotedThisRound)
  }

  /**
   * The recorded votes agree with the roster (its names and voted flags,
   * entry by entry); nobody votes twice in a game round.
   */
  ghost predicate VotesInv(votes: seq<VoteRecord>, names: seq<string>, voted: seq<bool>,
                           imposter: Option<string>, voteRound: int) {
    && |voted| == |names|
    && (forall k :: 0 <= k < |votes| ==>
         && votes[k].voter in names
         && votes[k].target in names
         && Some(votes[k].voter) != imposter
         && 1 <= votes[k].round <= voteRound)
    && (forall k, l :: 0 <= k < l < |votes| ==> votes[k].voter != votes[l].voter)
    && (forall i :: 0 <= i < |names| ==> (voted[i] <==> names[i] in Voters(votes)))
  }

  /** The invariant of a live game record against the roster's names and voted flags. */
  ghost predicate GameState(g: Game, names: seq<string>, voted: seq<bool>) {
    && 1 <= g.round <= MAX_ROUNDS
    && 0 <= g.voteRound <= MAX_VOTE_ROUNDS
    && (g.phase == Choose ==> g.voteRound == 0)
    && (g.phase == Talk ==> g.voteRound < MAX_VOTE_ROUNDS)
    && (g.phase == Vote || g.phase == Score ==> g.voteRound >= 1)
    && (g.imposterName.Some? ==> g.imposterName.value in names)
    && VotesInv(g.votes, names, voted, g.imposterName, g.voteRound)
    && (g.tally.Some? <==> g.phase == Score)
    && (g.tally.Some? ==> |g.tally.value.points| == |names|)
  }

  /** The invariant of a live game record against its room's roster. */
  ghost predicate GameInv(g: Game, ps: seq<Player>) {
    GameState(g, NamesOf(ps), VotedOf(ps))
  }

  /** The guards `voteFor` applies before recording a vote. */
  predicate CanVote(g: Game, ps: seq<Player>, voter: string, target: string) {
    && g.phase == Vote
    && FindByName(ps, voter).Some?
    && Some(voter) != g.imposterName
    && !ps[FindByName(ps, voter).value].hasVotedThisRound
    && FindByName(ps, target).Some?
  }

  /** A vote the guards let through is the voter's first vote of the game round. */
  lemma CanVoteIsFirstVote(g: Game, ps: seq<Player>, voter: string, target: string)
    requires GameInv(g, ps)
    requires CanVote(g, ps, voter, target)
    ensures FirstVoteBy(g.votes, voter).None?
    ensures 1 <= g.voteRound <= MAX_VOTE_ROUNDS
  {
    var i := FindByName(ps, voter).value;
    assert voter !in Voters(g.votes);
    forall k | 0 <= k < |g.votes| ensures g.votes[k].voter != voter {
      assert Voters(g.votes)[k] == g.votes[k].voter;
    }
  }

  /** The socket id of the first connected entry with that name, if any (server.js:431). */
  function ConnectedIdOf(ps: seq<Player>, name: Option<string>): (r: Option<SocketId>)
    ensures r.Some? ==> exists i :: 0 <= i < |ps| && ps[i].connected && Some(ps[i].name) == name && ps[i].id == r.value
  {
    match name
    case None => None
    case Some(n) =>
      match FindFrom(ps, (p: Player) => p.connected && p.name == n, 0)
      case None => None
      case Some(i) => Some(ps[i].id)
  }

  /**
   * `startRound`'s update of the game record: imposter and chooser drawn
   * (independently) from the connected names, subject, prompt and votes
   * reset, and a 10-second choose timer. Talk order and index carry over.
   */
  function NewRound(g: Game, ps: seq<Player>, impPick: nat, choPick: nat): (r: Game)
    requires IndexDraw(impPick, |ConnectedNames(ps)|) && IndexDraw(choPick, |ConnectedNames(ps)|)
    ensures r.phase == Choose && r.subject.None? && r.prompt.None? && r.tally.None?
    ensures r.votes == [] && r.voteRound == 0
    ensures r.timer.pending == Some(AutoChoose) && r.timer.secondsLeft == PHASE_SECONDS
    ensures r.round == g.round && r.talkOrder == g.talkOrder && r.talkIndex == g.talkIndex
    ensures r.chooserId == ConnectedIdOf(ps, r.chooserName)
  {
    var names := ConnectedNames(ps);
    var imposter := if |names| > 0 then Some(names[impPick]) else None;
    var chooser := if |names| > 0 then Some(names[choPick]) else None;
    g.(phase := Choose, imposterName := imposter, chooserName := chooser,
       chooserId := ConnectedIdOf(ps, chooser), subject := None, prompt := None,
       votes := [], voteRound := 0, tally := None,
       timer := Start(g.timer, PHASE_SECONDS, AutoChoose))
  }

  /**
   * Both roles go to players connected at round start, and exist exactly
   * when someone is connected; the chooser's recorded socket id is theirs.
   */
  lemma NewRoundRoles(g: Game, ps: seq<Player>, impPick: nat, choPick: nat)
    requires IndexDraw(impPick, |ConnectedNames(ps)|) && IndexDraw(choPick, |ConnectedNames(ps)|)
    ensures var r := NewRound(g, ps, impPick, choPick);
      && (r.imposterName.Some? <==> AnyConnected(ps))
      && (r.chooserName.Some? <==> AnyConnected(ps))
      && (r.imposterName.Some? ==> exists i :: 0 <= i < |ps| && ps[i].connected && ps[i].name == r.imposterName.value)
      && (r.chooserName.Some? ==> exists i :: 0 <= i < |ps| && ps[i].connected && ps[i].name == r.chooserName.value)
      && (r.chooserName.Some? ==> r.chooserId.Some?)
  {
    var names := ConnectedNames(ps);
    ConnectedAmongMembers(ps, |ps|);
    if |names| > 0 {
      assert names[0] in names;
    }
    if AnyConnected(ps) {
      var i :| 0 <= i < |ps| && ps[i].connected;
      assert ps[i].name in names;
      var m := names[impPick];
      assert m in names;
      var c := names[choPick];
      assert c in names;
      var j :| 0 <= j < |ps| && ps[j].connected && ps[j].name == c;
      var f := FindFrom(ps, (p: Player) => p.connected && p.name == c, 0);
      assert f.Some?;
    }
  }

  /** A new round's record satisfies the game invariant against the cleared roster. */
  lemma NewRoundInv(g: Game, ps: seq<Player>, impPick: nat, choPick: nat)
    requires IndexDraw(impPick, |ConnectedNames(ps)|) && IndexDraw(choPick, |ConnectedNames(ps)|)
    requires 1 <= g.round <= MAX_ROUNDS
    ensures GameInv(NewRound(g, ps, impPick, choPick), ClearRoundFlags(ps))
  {
    var r := NewRound(g, ps, impPick, choPick);
    var ps' := ClearRoundFlags(ps);
    var names := NamesOf(ps);
    assert NamesOf(ps') == names;
    assert forall i :: 0 <= i < |ps'| ==> !VotedOf(ps')[i];
    assert Voters([]) == [];
    if r.imposterName.Some? {
      NewRoundRoles(g, ps, impPick, choPick);
      var i :| 0 <= i < |ps| && ps[i].connected && ps[i].name == r.imposterName.value;
      assert names[i] == ps[i].name;
    }
  }

  /** `setSubjectAndPrompt`'s update: subject, prompt and talk order set, first speaker, talk timer. */
  function WithSubject(g: Game, subject: string, prompt: string, order: seq<string>): Game {
    g.(timer := Start(g.timer, PHASE_SECONDS, AutoAdvance), subject := Some(subject),
       prompt := Some(prompt), talkOrder := order, talkIndex := 0, phase := Talk)
  }

  /** `emitTalkState`'s timer: a fresh 10-second turn that advances the talk on expiry. */
  function WithTalkTimer(g: Game): (r: Game)
    ensures r.timer.pending == Some(AutoAdvance) && r.timer.secondsLeft == PHASE_SECONDS
    ensures r.(timer := g.timer) == g
  {
    g.(timer := Start(g.timer, PHASE_SECONDS, AutoAdvance))
  }

  /** `emitVoteState`'s timer: a fresh 10-second vote timer. */
  function WithVoteTimer(g: Game): (r: Game)
    ensures r.timer.pending == Some(VoteTimeout) && r.timer.secondsLeft == PHASE_SECONDS
    ensures r.(timer := g.timer) == g
  {
    g.(timer := Start(g.timer, PHASE_SECONDS, VoteTimeout))
  }

  /** `advanceTalk`: next speaker, or the vote once every speaker has had a turn. */
  function AfterAdvance(g: Game): (r: Game)
    requires g.phase == Talk
    ensures r.phase == Vote || r.phase == Talk
    ensures r.phase == Vote <==> g.talkIndex + 1 >= |g.talkOrder|
    ensures r.talkIndex == g.talkIndex + 1
    ensures r.voteRound == if r.phase == Vote then g.voteRound + 1 else g.voteRound
    ensures r.timer.pending == Some(if r.phase == Vote then VoteTimeout else AutoAdvance)
    ensures r.timer.secondsLeft == PHASE_SECONDS
    ensures r.(phase := g.phase, talkIndex := g.talkIndex, voteRound := g.voteRound, timer := g.timer) == g
  {
    var idx := g.talkIndex + 1;
    if idx >= |g.talkOrder| then WithVoteTimer(g.(talkIndex := idx, phase := Vote, voteRound := g.voteRound + 1))
    else WithTalkTimer(g.(talkIndex := idx))
  }

  /** The go-around path: back to the first speaker of the same talk order, same prompt. */
  function BackToTalk(g: Game): Game {
    WithTalkTimer(g.(phase := Talk, talkIndex := 0))
  }

  /** `startScorePhase`'s update: timer stopped, score phase, the tally recorded for the reveals. */
  function Scored(g: Game, ps: seq<Player>): Game {
    g.(timer := Stop(g.timer), phase := Score, tally := Some(TallyOf(ps, g.imposterName, g.votes)))
  }

  /** Fixing the subject keeps the invariant: the talk phase opens in vote round 0. */
  lemma SubjectKeepsInv(g: Game, ps: seq<Player>, subject: string, prompt: string, order: seq<string>)
    requires GameInv(g, ps) && g.phase == Choose
    ensures GameInv(WithSubject(g, subject, prompt, order), ps)
  {
  }

  /** Advancing the talk keeps the invariant: from the last speaker the vote round goes up from below 3. */
  lemma AdvanceKeepsInv(g: Game, ps: seq<Player>)
    requires GameInv(g, ps) && g.phase == Talk
    ensures GameInv(AfterAdvance(g), ps)
  {
  }

  /** Going back to talk keeps the invariant, before vote round 3. */
  lemma BackToTalkKeepsInv(g: Game, ps: seq<Player>)
    requires GameInv(g, ps) && g.phase == Vote && g.voteRound < MAX_VOTE_ROUNDS
    ensures GameInv(BackToTalk(g), ClearGoAgain(ps))
  {
    var ps' := ClearGoAgain(ps);
    assert SameNamesAndVotes(ps, ps');
    GameInvFrame(g, ps, ps');
  }

  /** Scoring keeps the invariant: the tally covers the whole roster. */
  lemma ScoredKeepsInv(g: Game, ps: seq<Player>)
    requires GameInv(g, ps) && g.phase == Vote
    ensures GameInv(Scored(g, ps), ps)
  {
  }

  /** Restarting a timer keeps the invariant. */
  lemma TimerKeepsInv(g: Game, ps: seq<Player>, t: Timer<Expiry>)
    requires GameInv(g, ps)
    ensures GameInv(g.(timer := t), ps)
  {
  }

  /** `startNewGame`'s `{ round: 1 }`, before `startRound` fills it in. */
  function NewGame(): (g: Game)
    ensures g.round == 1 && g.talkOrder == [] && g.talkIndex == 0
  {
    Game(1, Choose, None, None, None, None, None, [], 0, 0, [], Idle(), None)
  }

  /** `voteFor`'s recording step: the ballot is appended and the voter's flag set. */
  function RecordVote(g: Game, ps: seq<Player>, voter: string, target: string): (r: (Game, seq<Player>))
    requires FindByName(ps, voter).Some?
    ensures r.0 == g.(votes := g.votes + [VoteRecord(voter, target, g.voteRound)])
    ensures |r.1| == |ps|
    ensures forall j :: 0 <= j < |ps| ==>
      r.1[j] == if j == FindByName(ps, voter).value then ps[j].(hasVotedThisRound := true) else ps[j]
  {
    var i := FindByName(ps, voter).value;
    (g.(votes := g.votes + [VoteRecord(voter, target, g.voteRound)]),
     ps[i := ps[i].(hasVotedThisRound := true)])
  }

  /** Appending the first ballot of a non-imposter entry `i` and setting its flag keeps the vote invariant. */
  lemma AppendBallot(votes: seq<VoteRecord>, names: seq<string>, voted: seq<bool>,
                     imposter: Option<string>, voteRound: int, i: nat, target: string)
    requires VotesInv(votes, names, voted, imposter, voteRound)
    requires i < |names| && !voted[i] && Some(names[i]) != imposter
    requires target in names && 1 <= voteRound
    requires forall j :: 0 <= j < |names| && j != i ==> names[j] != names[i]
    ensures VotesInv(votes + [VoteRecord(names[i], target, voteRound)], names, voted[i := true], imposter, voteRound)
  {
    var voter := names[i];
    var votes' := votes + [VoteRecord(voter, target, voteRound)];
    assert Voters(votes') == Voters(votes) + [voter];
    assert voter !in Voters(votes);
    forall k | 0 <= k < |votes| ensures votes[k].voter != voter {
      assert Voters(votes)[k] == votes[k].voter;
    }
  }

  /**
   * A vote the guards accept keeps the invariant; the ballot list grows by
   * exactly that ballot.
   */
  lemma RecordVoteKeepsInv(g: Game, ps: seq<Player>, voter: string, target: string)
    requires RosterInv(ps) && GameInv(g, ps) && CanVote(g, ps, voter, target)
    ensures var (g', ps') := RecordVote(g, ps, voter, target);
      && GameInv(g', ps') && g'.phase == Vote
      && g'.votes == g.votes + [VoteRecord(voter, target, g.voteRound)]
      && SameNames(ps, ps')
  {
    var i := FindByName(ps, voter).value;
    var (g', ps') := RecordVote(g, ps, voter, target);
    var names, voted := NamesOf(ps), VotedOf(ps);
    assert NamesOf(ps') == names;
    assert VotedOf(ps') == voted[i := true];
    assert target in names by {
      assert names[FindByName(ps, target).value] == target;
    }
    AppendBallot(g.votes, names, voted, g.imposterName, g.voteRound, i, target);
  }

  /** The recorded ballot is the voter's first of the game round: the one the score phase counts. */
  lemma RecordedVoteCounts(g: Game, ps: seq<Player>, voter: string, target: string)
    requires GameInv(g, ps) && CanVote(g, ps, voter, target)
    ensures FirstVoteBy(RecordVote(g, ps, voter, target).0.votes, voter) == Some(VoteRecord(voter, target, g.voteRound))
  {
    CanVoteIsFirstVote(g, ps, voter, target);
    var votes := g.votes + [VoteRecord(voter, target, g.voteRound)];
    FirstVoteByPrefix(votes, |g.votes|, voter);
    assert votes[..|g.votes|] == g.votes;
    assert votes[..|g.votes| + 1] == votes;
  }

  /** `checkVoteProgress`: the game record and roster after a vote was recorded. */
  function VoteProgress(g: Game, ps: seq<Player>): (r: (Game, seq<Player>))
    ensures r.0.votes == g.votes && r.0.voteRound == g.voteRound && r.0.round == g.round
    ensures r.0.imposterName == g.imposterName && r.0.talkOrder == g.talkOrder
    ensures |r.1| == |ps|
  {
    if AllNonImpostersVoted(ps, g.imposterName) then (Scored(g, ps), ps)
    else if AllNonImpostersActioned(ps, g.imposterName) && g.voteRound < MAX_VOTE_ROUNDS then
      (BackToTalk(g), ClearGoAgain(ps))
    else if g.voteRound >= MAX_VOTE_ROUNDS then (WithVoteTimer(g), ps)
    else (g, ps)
  }

  /**
   * The vote ends in scoring exactly when every non-imposter has voted; it
   * goes back to talk only before vote round 3, from the first speaker; the
   * ballots and the vote round are kept either way.
   */
  lemma VoteProgressOutcome(g: Game, ps: seq<Player>)
    requires GameInv(g, ps) && g.phase == Vote
    ensures var (g', ps') := VoteProgress(g, ps);
      && GameInv(g', ps') && SameNamesAndVotes(ps, ps')
      && (g'.phase == Score <==> AllNonImpostersVoted(ps, g.imposterName))
      && (g'.phase == Talk <==>
            !AllNonImpostersVoted(ps, g.imposterName) && AllNonImpostersActioned(ps, g.imposterName)
            && g.voteRound < MAX_VOTE_ROUNDS)
      && (g'.phase == Talk ==> g' == BackToTalk(g) && ps' == ClearGoAgain(ps))
      && (g'.phase == Vote && g.voteRound >= MAX_VOTE_ROUNDS ==> g' == WithVoteTimer(g) && ps' == ps)
      && (g'.phase == Vote && g.voteRound < MAX_VOTE_ROUNDS ==> g' == g && ps' == ps)
      && (g'.phase == Vote || g'.phase == Talk || g'.phase == Score)
      && g'.voteRound == g.voteRound && g'.votes == g.votes
  {
    if AllNonImpostersVoted(ps, g.imposterName) {
      ScoredKeepsInv(g, ps);
    } else if AllNonImpostersActioned(ps, g.imposterName) && g.voteRound < MAX_VOTE_ROUNDS {
      BackToTalkKeepsInv(g, ps);
    }
  }

  /** The guards `goAroundAgain` applies: vote phase before vote round 3, a roster name, not the imposter. */
  predicate CanGoAround(g: Game, ps: seq<Player>, name: string) {
    && g.phase == Vote
    && g.voteRound < MAX_VOTE_ROUNDS
    && FindByName(ps, name).Some?
    && Some(name) != g.imposterName
  }

  /** `goAroundAgain` once its guards pass. */
  function GoAround(g: Game, ps: seq<Player>, name: string): (r: (Game, seq<Player>))
    requires CanGoAround(g, ps, name)
    ensures r.0 == g || r.0 == BackToTalk(g)
    ensures r.0.votes == g.votes && r.0.voteRound == g.voteRound && r.0.talkOrder == g.talkOrder
    ensures |r.1| == |ps|
  {
    var i := FindByName(ps, name).value;
    var ps1 := if ps[i].hasVotedThisRound then ps else ps[i := ps[i].(clickedGoAgainThisRound := true)];
    if AllNonImpostersActioned(ps1, g.imposterName) then (BackToTalk(g), ClearGoAgain(ps1)) else (g, ps1)
  }

  /** Going around keeps the invariant and never touches a ballot or a voted flag. */
  lemma GoAroundKeepsInv(g: Game, ps: seq<Player>, name: string)
    requires GameInv(g, ps) && CanGoAround(g, ps, name)
    ensures var (g', ps') := GoAround(g, ps, name);
      && GameInv(g', ps') && SameNamesAndVotes(ps, ps')
      && g'.votes == g.votes && g'.voteRound == g.voteRound
  {
    var i := FindByName(ps, name).value;
    var ps1 := if ps[i].hasVotedThisRound then ps else ps[i := ps[i].(clickedGoAgainThisRound := true)];
    assert SameNamesAndVotes(ps, ps1);
    GameInvFrame(g, ps, ps1);
    if AllNonImpostersActioned(ps1, g.imposterName) {
      BackToTalkKeepsInv(g, ps1);
    }
  }

  /**
   * The talk restarts (from the first speaker) exactly when, counting this
   * request, every non-imposter has voted or asked to go around; otherwise
   * the game record is unchanged and the requester is marked as having acted.
   */
  lemma GoAroundOutcome(g: Game, ps: seq<Player>, name: string)
    requires CanGoAround(g, ps, name)
    ensures var (g', ps') := GoAround(g, ps, name);
      var i := FindByName(ps, name).value;
      && (g' == BackToTalk(g) <==>
            forall j :: 0 <= j < |ps| && j != i && Some(ps[j].name) != g.imposterName ==>
              ps[j].hasVotedThisRound || ps[j].clickedGoAgainThisRound)
      && (g' != BackToTalk(g) ==> g' == g && (ps'[i].hasVotedThisRound || ps'[i].clickedGoAgainThisRound))
  {
    var i := FindByName(ps, name).value;
    var ps1 := if ps[i].hasVotedThisRound then ps else ps[i := ps[i].(clickedGoAgainThisRound := true)];
    assert ps1[i].hasVotedThisRound || ps1[i].clickedGoAgainThisRound;
    assert forall j :: 0 <= j < |ps| && j != i ==> ps1[j] == ps[j];
    assert BackToTalk(g) != g by {
      assert BackToTalk(g).phase == Talk != g.phase;
    }
  }

  /** The vote timer's expiry in the vote phase: back to talk before round 3 unless all voted, else scoring. */
  function VoteExpired(g: Game, ps: seq<Player>): (r: (Game, seq<Player>))
    ensures r.0.phase == Talk || r.0.phase == Score
    ensures r.0.votes == g.votes && r.0.voteRound == g.voteRound
    ensures |r.1| == |ps|
  {
    if g.voteRound < MAX_VOTE_ROUNDS && !AllNonImpostersVoted(ps, g.imposterName) then (BackToTalk(g), ClearGoAgain(ps))
    else (Scored(g, ps), ps)
  }

  /**
   * An expired vote always leaves the vote phase: to scoring when everyone
   * voted or in vote round 3, otherwise back to talk; the invariant holds.
   */
  lemma VoteExpiredOutcome(g: Game, ps: seq<Player>)
    requires GameInv(g, ps) && g.phase == Vote
    ensures var (g', ps') := VoteExpired(g, ps);
      && GameInv(g', ps') && SameNamesAndVotes(ps, ps')
      && (g'.phase == Score <==> g.voteRound >= MAX_VOTE_ROUNDS || AllNonImpostersVoted(ps, g.imposterName))
      && (g'.phase == Score || g'.phase == Talk)
  {
    if g.voteRound < MAX_VOTE_ROUNDS && !AllNonImpostersVoted(ps, g.imposterName) {
      BackToTalkKeepsInv(g, ps);
    } else {
      ScoredKeepsInv(g, ps);
    }
  }

  /** Changing only fields the invariant does not mention keeps it. */
  lemma GameInvFrame(g: Game, ps: seq<Player>, ps': seq<Player>)
    requires GameInv(g, ps) && SameNamesAndVotes(ps, ps')
    ensures GameInv(g, ps')
  {
    assert NamesOf(ps') == NamesOf(ps);
    assert VotedOf(ps') == VotedOf(ps);
  }

  /** The timer message `{ phase, secondsLeft }`. */
  datatype TimerNote = TimerNote(phase: Phase, secondsLeft: int)

  /** What one player is shown for the current phase. */
  datatype View =
    | PhaseChoose(chooser: Option<string>, subjects: seq<string>)
    | PhaseTalkYou(message: string, prompt: Option<string>, you: string)
    | PhaseTalkOther(speaker: Option<string>, prompt: Option<string>, youAreImposter: bool)
    | PhaseVoteImposter
    | PhaseVoteAlready
    | PhaseVote(candidates: seq<string>, voteRound: int, canGoAround: bool)
    | PhaseScoreReveal(imposter: Option<string>)

  datatype Resync = Resync(view: View, timer: Option<TimerNote>)

  /** `sendTimer`: only while the remaining seconds are positive. */
  function TimerNoteOf(g: Game): (r: Option<TimerNote>)
    ensures r.Some? <==> g.timer.secondsLeft > 0
  {
    if g.timer.secondsLeft > 0 then Some(TimerNote(g.phase, g.timer.secondsLeft)) else None
  }

  /** `sendPhaseStateToPlayer`: the view of the current phase for roster entry `p`. */
  function PhaseView(g: Game, ps: seq<Player>, p: Player, subjects: seq<string>): (r: Resync)
    ensures r.view.PhaseChoose? <==> g.phase == Choose
    ensures r.view.PhaseTalkYou? || r.view.PhaseTalkOther? <==> g.phase == Talk
    ensures r.view.PhaseVote? || r.view.PhaseVoteImposter? || r.view.PhaseVoteAlready? <==> g.phase == Vote
    ensures r.view.PhaseScoreReveal? <==> g.phase == Score
    ensures r.timer == if g.phase == Score then None else TimerNoteOf(g)
    ensures r.view.PhaseChoose? ==> r.view.chooser == g.chooserName && r.view.subjects == subjects
    ensures r.view.PhaseScoreReveal? ==> r.view.imposter == g.imposterName
    ensures r.view.PhaseTalkOther? ==>
      r.view.speaker == Speaker(g) && (r.view.youAreImposter <==> Some(p.name) == g.imposterName)
    ensures r.view.PhaseTalkYou? ==>
      r.view.you == p.name
      && r.view.message == if Some(p.name) == g.imposterName then MSG_IMPOSTER_TALK else MSG_TALK
    ensures r.view.PhaseVote? ==> r.view.voteRound == g.voteRound
  {
    var isImposter := Some(p.name) == g.imposterName;
    match g.phase
    case Choose => Resync(PhaseChoose(g.chooserName, subjects), TimerNoteOf(g))
    case Talk =>
      var speaker := Speaker(g);
      if Some(p.name) == speaker then
        Resync(PhaseTalkYou(if isImposter then MSG_IMPOSTER_TALK else MSG_TALK,
                            if isImposter then None else g.prompt, p.name),
               TimerNoteOf(g))
      else
        Resync(PhaseTalkOther(speaker, if !isImposter then g.prompt else None, isImposter),
               TimerNoteOf(g))
    case Vote =>
      var v :=
        if isImposter then PhaseVoteImposter
        else if p.hasVotedThisRound then PhaseVoteAlready
        else PhaseVote(NamesOf(ps), g.voteRound, g.voteRound < MAX_VOTE_ROUNDS);
      Resync(v, TimerNoteOf(g))
    case Score => Resync(PhaseScoreReveal(g.imposterName), None)
  }

  /**
   * During the talk phase the imposter never receives the prompt and every
   * other player does; exactly the current speaker gets the speaker view.
   */
  lemma TalkViewHidesPrompt(g: Game, ps: seq<Player>, p: Player, subjects: seq<string>)
    requires g.phase == Talk
    ensures var v := PhaseView(g, ps, p, subjects).view;
      && (v.PhaseTalkYou? <==> Speaker(g) == Some(p.name))
      && (v.PhaseTalkYou? || v.PhaseTalkOther?)
      && v.prompt == (if Some(p.name) == g.imposterName then None else g.prompt)
      && (v.PhaseTalkOther? ==> v.speaker == Speaker(g) && (v.youAreImposter <==> Some(p.name) == g.imposterName))
      && (v.PhaseTalkYou? ==>
            v.you == p.name && v.message == if Some(p.name) == g.imposterName then MSG_IMPOSTER_TALK else MSG_TALK)
  {
  }

  /**
   * During the vote phase only a non-imposter who has not voted gets a
   * ballot, listing every roster name, with go-around offered before vote round 3.
   */
  lemma VoteViewBallot(g: Game, ps: seq<Player>, p: Player, subjects: seq<string>)
    requires g.phase == Vote
    ensures var v := PhaseView(g, ps, p, subjects).view;
      && (v.PhaseVote? <==> Some(p.name) != g.imposterName && !p.hasVotedThisRound)
      && (v.PhaseVoteImposter? <==> Some(p.name) == g.imposterName)
      && (v.PhaseVote? ==> v.candidates == NamesOf(ps) && (v.canGoAround <==> g.voteRound < MAX_VOTE_ROUNDS))
      && (v.PhaseVote? ==> v.voteRound == g.voteRound)
  {
  }

  /** The `gameState` snapshot sent to a reconnecting player. */
  datatype Snapshot = Snapshot(
    round: int,
    phase: Phase,
    subject: Option<string>,
    chooser: Option<string>,
    imposter: Option<string>,
    talkOrder: seq<string>,
    talkIndex: int,
    voteRound: int,
    votes: seq<VoteRecord>)

  /** `serializeGameState`: `null` without a game, else the routing fields of the game. */
  function Serialize(game: Option<Game>): (r: Option<Snapshot>)
    ensures r.None? <==> game.None?
    ensures r.Some? ==>
      && r.value.round == game.value.round && r.value.phase == game.value.phase
      && r.value.subject == game.value.subject && r.value.chooser == game.value.chooserName
      && r.value.imposter == game.value.imposterName
      && r.value.talkOrder == game.value.talkOrder && r.value.talkIndex == game.value.talkIndex
      && r.value.voteRound == game.value.voteRound && r.value.votes == game.value.votes
  {
    match game
    case None => None
    case Some(g) =>
      Some(Snapshot(g.round, g.phase, g.subject, g.chooserName, g.imposterName,
                    g.talkOrder, g.talkIndex, g.voteRound, g.votes))
  }

  /** The fields of a game the snapshot leaves out: the chooser's socket, the prompt, the timer and the tally. */
  datatype Unsent = Unsent(chooserId: Option<SocketId>, prompt: Option<string>, timer: Timer<Expiry>, tally: Option<Tally>)

  function UnsentOf(g: Game): Unsent {
    Unsent(g.chooserId, g.prompt, g.timer, g.tally)
  }

  /** A game rebuilt from a snapshot and the fields it leaves out. */
  function Restore(s: Snapshot, u: Unsent): Game {
    Game(s.round, s.phase, s.imposter, s.chooser, u.chooserId, s.subject, u.prompt,
         s.talkOrder, s.talkIndex, s.voteRound, s.votes, u.timer, u.tally)
  }

  /**
   * The snapshot loses nothing but the chooser's socket, the prompt, the
   * timer and the tally: with those it rebuilds the game exactly.
   */
  lemma SerializeRoundTrip(g: Game)
    ensures Serialize(Some(g)).Some?
    ensures Restore(Serialize(Some(g)).value, UnsentOf(g)) == g
  {
  }
}
