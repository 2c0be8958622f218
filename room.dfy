/**
 * One room of the registry (server.js:117-352, 418-634): roster, host,
 * pre-game countdown and live game record, with the socket handlers and
 * the timer callbacks that update them in place.
 *
 * Random draws are parameters (`IndexDraw` states their range), each
 * one-second interval tick is a method call, and what the source emits to
 * the sockets is returned where a caller needs it (the rejoin resync, the
 * scoreboard, the end-of-game result).
 */
module Rooms {
  import opened Wrappers
  import opened Names
  import opened Roster
  import opened Scoring
  import opened Scoreboard
  import opened PhaseTimer
  import opened TalkOrder
  import opened GameSession

  const ERR_GAME_STARTED: string := "Game already started."
  const ERR_NAME_IN_USE: string := "Player name already in use."
  const ERR_ROOM_FULL: string := "Room is full (max 20)."
  const ERR_NAME_TAKEN: string := "Name already taken in this room."
  const ERR_ONLY_HOST_START: string := "Only host can start."
  const ERR_NEED_PLAYERS: string := "Need at least 3 players."
  const ERR_ONLY_HOST_CANCEL: string := "Only host can cancel."

  /** How `joinRoom` answered: a fresh entry, a reconnection (with the game resync), or an error message. */
  datatype JoinResult =
    | Joined
    | Rejoined(snapshot: Option<Snapshot>, resync: Option<Resync>)
    | Rejected(reason: string)

  /** The `gameEnded` message. */
  datatype GameEnd = GameEnd(scoreboard: seq<Row>, winner: Option<Row>)

  /** A disconnected entry carries this name: `joinRoom` reconnects it, started or not. */
  predicate Reconnectable(ps: seq<Player>, name: string) {
    var f := FindByName(ps, name);
    f.Some? && !ps[f.value].connected
  }

  /** The error `joinRoom` sends for a name it does not reconnect, if any. */
  function JoinRefusal(started: bool, ps: seq<Player>, name: string): (r: Option<string>)
    ensures r.None? <==> !started && |ps| < MAX_PLAYERS && FindByName(ps, name).None?
  {
    if started then
      if FindByName(ps, name).None? then Some(ERR_GAME_STARTED) else Some(ERR_NAME_IN_USE)
    else if |ps| >= MAX_PLAYERS then Some(ERR_ROOM_FULL)
    else if FindByName(ps, name).Some? then Some(ERR_NAME_TAKEN)
    else None
  }

  /**
   * `disconnect` on the roster and the host: the first entry with the socket
   * id is marked disconnected; if that socket was the host, the first entry
   * still connected becomes host (and the only entry flagged host), or the
   * room is left without a host.
   */
  function AfterDisconnect(ps: seq<Player>, hostId: Option<SocketId>, id: SocketId): (r: (seq<Player>, Option<SocketId>))
    ensures |r.0| == |ps|
    ensures r.1 != hostId ==> hostId == Some(id)
    ensures r.1.Some? && r.1 != hostId ==> exists k :: 0 <= k < |r.0| && r.0[k].connected && r.0[k].id == r.1.value
  {
    var marked := MarkDisconnected(ps, id);
    if hostId != Some(id) then (marked, hostId)
    else match FirstConnected(marked)
      case None => (marked, None)
      case Some(k) => (SetHostFlags(marked, marked[k].id), Some(marked[k].id))
  }

  /** A disconnection changes only connection and host flags, and never a name or a voted flag. */
  lemma DisconnectKeepsNames(ps: seq<Player>, hostId: Option<SocketId>, id: SocketId)
    ensures var ps' := AfterDisconnect(ps, hostId, id).0;
      && |ps'| == |ps|
      && (forall i :: 0 <= i < |ps| ==> ps'[i] == ps[i].(connected := ps'[i].connected, isHost := ps'[i].isHost))
      && SameNamesAndVotes(ps, ps')
  {
    var marked := MarkDisconnected(ps, id);
    assert forall i :: 0 <= i < |ps| ==> marked[i] == ps[i].(connected := marked[i].connected);
    if hostId == Some(id) && FirstConnected(marked).Some? {
      var ps' := SetHostFlags(marked, marked[FirstConnected(marked).value].id);
      assert forall i :: 0 <= i < |ps| ==> ps'[i] == marked[i].(isHost := ps'[i].isHost);
    }
  }

  /**
   * Exactly one entry goes offline, the first one holding the socket id
   * (none if no entry holds it); every other entry keeps its connection.
   */
  lemma DisconnectMarks(ps: seq<Player>, hostId: Option<SocketId>, id: SocketId)
    ensures var ps' := AfterDisconnect(ps, hostId, id).0;
      forall i :: 0 <= i < |ps| ==>
        (ps'[i].connected <==> ps[i].connected && (ps[i].id != id || exists j :: 0 <= j < i && ps[j].id == id))
  {
    var ps' := AfterDisconnect(ps, hostId, id).0;
    var f := FindById(ps, id);
    forall i | 0 <= i < |ps|
      ensures ps'[i].connected <==> ps[i].connected && (ps[i].id != id || exists j :: 0 <= j < i && ps[j].id == id)
    {
      if f.Some? && f.value < i {
        assert ps[f.value].id == id;
      }
    }
  }

  /**
   * The host role: kept when another socket left; when the host left, it
   * passes to the first connected entry, which becomes the only entry
   * flagged host, or to nobody (flags unchanged) when none is connected.
   */
  lemma DisconnectHandsOver(ps: seq<Player>, hostId: Option<SocketId>, id: SocketId)
    ensures var (ps', h') := AfterDisconnect(ps, hostId, id);
      && (hostId != Some(id) ==>
            h' == hostId && forall i :: 0 <= i < |ps| ==> ps'[i].isHost == ps[i].isHost)
      && (hostId == Some(id) && FirstConnected(ps').Some? ==>
            h' == Some(ps'[FirstConnected(ps').value].id)
            && forall i :: 0 <= i < |ps'| ==> (ps'[i].isHost <==> ps'[i].id == h'.value))
      && (hostId == Some(id) && FirstConnected(ps').None? ==>
            h'.None? && forall i :: 0 <= i < |ps| ==> ps'[i].isHost == ps[i].isHost)
  {
    var marked := MarkDisconnected(ps, id);
    if hostId == Some(id) {
      var f := FirstConnected(marked);
      if f.Some? {
        FirstConnectedFrame(marked, SetHostFlags(marked, marked[f.value].id));
      }
    }
  }

  /** Every entry credited with its tally points, the imposter (entry `k`) also with the imposter award. */
  function Paid(ps: seq<Player>, t: Tally, k: nat): (r: seq<Player>)
    requires |t.points| == |ps| && k < |ps|
    ensures |r| == |ps|
    ensures forall i :: 0 <= i < |ps| ==> r[i].(score := ps[i].score) == ps[i]
    ensures ConnectedNames(r) == ConnectedNames(ps)
  {
    var r := seq(|ps|, i requires 0 <= i < |ps| =>
      ps[i].(score := ps[i].score + t.points[i] + (if i == k then t.imposterPoints else 0)));
    ConnectedAmongFrame(ps, r, |ps|);
    r
  }

  /**
   * What the reveal pays: a non-imposter gains the round points of a first
   * vote that named the imposter and nothing otherwise; the imposter gains
   * the imposter award for the number of such votes.
   */
  lemma PaidScores(ps: seq<Player>, imposter: string, votes: seq<VoteRecord>, k: nat)
    requires NamesUnique(ps) && k < |ps| && ps[k].name == imposter
    ensures var paid := Paid(ps, TallyOf(ps, Some(imposter), votes), k);
      forall i :: 0 <= i < |ps| ==>
        paid[i].score == ps[i].score +
          if i == k then ImposterPoints(|ps|, CorrectCount(ps, Some(imposter), votes))
          else VotePoints(FirstVoteBy(votes, ps[i].name), Some(imposter))
  {
    var t := TallyOf(ps, Some(imposter), votes);
    forall i | 0 <= i < |ps|
      ensures Paid(ps, t, k)[i].score == ps[i].score +
        if i == k then ImposterPoints(|ps|, CorrectCount(ps, Some(imposter), votes))
        else VotePoints(FirstVoteBy(votes, ps[i].name), Some(imposter))
    {
      TallyPoints(ps, Some(imposter), votes, i);
      if i != k {
        assert ps[i].name != imposter;
      }
    }
  }

  /** The first loop of the score timeouts: every entry's score raised by its points, in roster order (server.js:597). */
  method CreditPoints(ps: seq<Player>, t: Tally, k: nat) returns (paid: seq<Player>)
    requires |t.points| == |ps| && k < |ps|
    ensures paid == Paid(ps, t, k)
  {
    paid := ps;
    var i := 0;
    while i < |ps|
      invariant 0 <= i <= |ps| && |paid| == |ps|
      invariant forall j :: 0 <= j < |ps| ==>
        paid[j] == ps[j].(score := ps[j].score + (if j < i then t.points[j] else 0))
    {
      CreditStep(ps, t, i, paid);
      paid := paid[i := paid[i].(score := paid[i].score + t.points[i])];
      i := i + 1;
    }
    paid := paid[k := paid[k].(score := paid[k].score + t.imposterPoints)];
  }

  /** Crediting entry `i` extends the credited prefix by one. */
  lemma CreditStep(ps: seq<Player>, t: Tally, i: nat, paid: seq<Player>)
    requires |t.points| == |ps| && i < |ps| && |paid| == |ps|
    requires forall j :: 0 <= j < |ps| ==>
      paid[j] == ps[j].(score := ps[j].score + (if j < i then t.points[j] else 0))
    ensures var paid' := paid[i := paid[i].(score := paid[i].score + t.points[i])];
      forall j :: 0 <= j < |ps| ==>
        paid'[j] == ps[j].(score := ps[j].score + (if j < i + 1 then t.points[j] else 0))
  {
  }

  /** The invariant of a room, on its field values. */
  ghost predicate RoomInv(catalog: Catalog, ps: seq<Player>, started: bool,
                          countdown: Option<int>, game: Option<Game>) {
    && CatalogValid(catalog)
    && RosterInv(ps)
    && (countdown.Some? ==> 1 <= countdown.value <= START_COUNT)
    && (game.Some? ==> started && GameInv(game.value, ps))
  }

  /** Changing roster fields the game does not read keeps the room invariant. */
  lemma RoomInvFrame(catalog: Catalog, ps: seq<Player>, ps': seq<Player>, started: bool,
                     countdown: Option<int>, game: Option<Game>)
    requires RoomInv(catalog, ps, started, countdown, game) && SameNamesAndVotes(ps, ps')
    ensures RoomInv(catalog, ps', started, countdown, game)
  {
    RosterInvFrame(ps, ps');
    if game.Some? {
      GameInvFrame(game.value, ps, ps');
    }
  }

  /** A game step that keeps the names and the game invariant keeps the room invariant. */
  lemma RoomStep(catalog: Catalog, ps: seq<Player>, ps': seq<Player>, started: bool,
                 countdown: Option<int>, game: Option<Game>, g': Game)
    requires RoomInv(catalog, ps, started, countdown, game) && game.Some?
    requires SameNames(ps, ps') && GameInv(g', ps')
    ensures RoomInv(catalog, ps', started, countdown, Some(g'))
  {
    RosterInvFrame(ps, ps');
  }

  /**
   * `setSubjectAndPrompt`'s game: the subject, a prompt drawn for it, the
   * talk order (a rotated shuffle of `names`) and the first turn of the talk phase.
   */
  function Subjected(catalog: Catalog, g: Game, names: seq<string>, subject: string,
                     promptPick: nat, swaps: seq<nat>, offset: nat): (r: Game)
    requires PromptDraw(catalog, subject, promptPick)
    requires SwapDraws(swaps, |names|) && IndexDraw(offset, |names|)
    ensures r.phase == Talk && r.talkIndex == 0 && r.subject == Some(subject)
    ensures |r.talkOrder| == |names|
  {
    WithSubject(g, subject, PromptFor(catalog, subject, promptPick),
                Rotate(Shuffled(names, swaps, |names| - 1), offset))
  }

  /**
   * After the subject is set, the talk phase runs from the first of an order
   * that holds every connected name exactly once, on a fresh 10-second turn,
   * with a prompt listed for the subject (or the placeholder).
   */
  lemma SubjectedTalkOrder(catalog: Catalog, g: Game, names: seq<string>, subject: string,
                           promptPick: nat, swaps: seq<nat>, offset: nat)
    requires PromptDraw(catalog, subject, promptPick)
    requires SwapDraws(swaps, |names|) && IndexDraw(offset, |names|)
    ensures var r := Subjected(catalog, g, names, subject, promptPick, swaps, offset);
      && r.phase == Talk && r.talkIndex == 0 && r.subject == Some(subject)
      && r.prompt.Some? && (r.prompt.value == MYSTERY_PROMPT || r.prompt.value in PromptsOf(catalog, subject))
      && r.prompt == Some(PromptFor(catalog, subject, promptPick))
      && multiset(r.talkOrder) == multiset(names)
      && r.timer.pending == Some(AutoAdvance) && r.timer.secondsLeft == PHASE_SECONDS
      && r.round == g.round && r.voteRound == g.voteRound && r.votes == g.votes && r.imposterName == g.imposterName
  {
    var order := Rotate(Shuffled(names, swaps, |names| - 1), offset);
    TalkOrderPermutes(names, swaps, offset);
    assert Subjected(catalog, g, names, subject, promptPick, swaps, offset).talkOrder == order;
  }

  /** Fixing the subject in the choose phase keeps the room invariant. */
  lemma SubjectStep(catalog: Catalog, ps: seq<Player>, started: bool, countdown: Option<int>,
                    g: Game, subject: string, prompt: string, order: seq<string>)
    requires RoomInv(catalog, ps, started, countdown, Some(g)) && g.phase == Choose
    ensures RoomInv(catalog, ps, started, countdown, Some(WithSubject(g, subject, prompt, order)))
  {
    SubjectKeepsInv(g, ps, subject, prompt, order);
  }

  class Room {
    const code: string
    const catalog: Catalog
    var players: seq<Player>
    var hostId: Option<SocketId>
    var started: bool
    /** The count the running `setInterval` of `startGame` will decrement next; `None` when none runs. */
    var countdown: Option<int>
    var game: Option<Game>

    ghost predicate Valid()
      reads this
    {
      RoomInv(catalog, players, started, countdown, game)
    }

    /** `createRoom`: the creator is the host and the only entry, with the first palette colour. */
    constructor (code: string, catalog: Catalog, creator: SocketId, name: string)
      requires CatalogValid(catalog) && IsName(name)
      ensures Valid()
      ensures this.code == code && this.catalog == catalog
      ensures players == [Player(creator, name, COLORS[0], true, 0, true, false, false)]
      ensures hostId == Some(creator) && !started && countdown.None? && game.None?
    {
      this.code := code;
      this.catalog := catalog;
      var color := PickColor({}, 0);
      players := [Player(creator, name, color, true, 0, true, false, false)];
      hostId := Some(creator);
      started := false;
      countdown := None;
      game := None;
    }

    /**
     * `joinRoom` once the name is clean and the room found. A disconnected
     * entry of that name is reconnected in place (host restored if the room
     * has none and it was host), with the game resync when a game runs;
     * otherwise a started room, a full room or a taken name is refused, and
     * anything else appends a new entry with an unused colour.
     */
    method Join(id: SocketId, name: string, colorDraw: nat) returns (r: JoinResult)
      requires Valid() && IsName(name) && colorDraw < |COLORS|
      modifies this
      ensures Valid()
      ensures started == old(started) && countdown == old(countdown) && game == old(game)
      ensures r.Rejoined? <==> Reconnectable(old(players), name)
      ensures r.Rejected? <==>
        !Reconnectable(old(players), name) && JoinRefusal(old(started), old(players), name).Some?
      ensures r.Rejected? ==>
        && r.reason == JoinRefusal(old(started), old(players), name).value
        && players == old(players) && hostId == old(hostId)
      ensures r.Joined? ==>
        && hostId == old(hostId)
        && players == old(players) + [Player(id, name, PickColor(UsedColors(old(players)), colorDraw), false, 0, true, false, false)]
        && players[|players| - 1].color !in UsedColors(old(players))
      ensures r.Rejoined? ==>
        var i := FindByName(old(players), name).value;
        && players == old(players)[i := old(players)[i].(id := id, connected := true)]
        && hostId == (if old(hostId).None? && old(players)[i].isHost then Some(id) else old(hostId))
        && r.snapshot == Serialize(game)
        && r.resync == (if game.Some? then Some(PhaseView(game.value, players, players[i], catalog.subjects)) else None)
    {
      var existing := FindByName(players, name);
      if existing.Some? && !players[existing.value].connected {
        var i := existing.value;
        var ps := players[i := players[i].(id := id, connected := true)];
        assert SameNamesAndVotes(players, ps);
        RoomInvFrame(catalog, players, ps, started, countdown, game);
        if hostId.None? && players[i].isHost {
          hostId := Some(id);
        }
        players := ps;
        r := Rejoined(Serialize(game),
                      if game.Some? then Some(PhaseView(game.value, ps, ps[i], catalog.subjects)) else None);
        return;
      }
      if started {
        if existing.None? {
          r := Rejected(ERR_GAME_STARTED);
          return;
        }
        // The source's reconnection branch for a started room (server.js:190-203)
        // is never reached: a disconnected entry of this name was reconnected above.
        assert players[existing.value].connected;
        r := Rejected(ERR_NAME_IN_USE);
        return;
      }
      if |players| >= MAX_PLAYERS {
        r := Rejected(ERR_ROOM_FULL);
        return;
      }
      if existing.Some? {
        r := Rejected(ERR_NAME_TAKEN);
        return;
      }
      var used := UsedColors(players);
      UsedColorsCard(players);
      PickColorFresh(used, colorDraw);
      var color := PickColor(used, colorDraw);
      RosterAppend(players, Player(id, name, color, false, 0, true, false, false));
      players := players + [Player(id, name, color, false, 0, true, false, false)];
      r := Joined;
    }

    /** `disconnect` for a socket whose room is this one. */
    method Disconnect(id: SocketId)
      requires Valid()
      modifies this
      ensures Valid()
      ensures started == old(started) && countdown == old(countdown) && game == old(game)
      ensures (players, hostId) == AfterDisconnect(old(players), old(hostId), id)
    {
      var ps := MarkDisconnected(players, id);
      var h := hostId;
      if hostId == Some(id) {
        var next := FirstConnected(ps);
        h := if next.Some? then Some(ps[next.value].id) else None;
        if next.Some? {
          ps := SetHostFlags(ps, ps[next.value].id);
        }
      }
      DisconnectKeepsNames(players, hostId, id);
      RoomInvFrame(catalog, players, ps, started, countdown, game);
      players, hostId := ps, h;
    }

    /**
     * `startGame`: only the host, only with at least 3 entries (connected
     * or not); a countdown already running is left alone, otherwise one starts at 3.
     */
    method StartGame(sender: SocketId) returns (r: Outcome<string>)
      requires Valid()
      modifies this
      ensures Valid()
      ensures players == old(players) && hostId == old(hostId) && started == old(started) && game == old(game)
      ensures r == if hostId != Some(sender) then Fail(ERR_ONLY_HOST_START)
                   else if |players| < MIN_TO_START then Fail(ERR_NEED_PLAYERS)
                   else Pass
      ensures countdown == if r.Pass? && old(countdown).None? then Some(START_COUNT) else old(countdown)
    {
      if hostId != Some(sender) {
        return Fail(ERR_ONLY_HOST_START);
      }
      if |players| < MIN_TO_START {
        return Fail(ERR_NEED_PLAYERS);
      }
      if countdown.None? {
        countdown := Some(START_COUNT);
      }
      r := Pass;
    }

    /** `cancelStart`: only the host; clears a running countdown. */
    method CancelStart(sender: SocketId) returns (r: Outcome<string>)
      requires Valid()
      modifies this
      ensures Valid()
      ensures players == old(players) && hostId == old(hostId) && started == old(started) && game == old(game)
      ensures r == if hostId != Some(sender) then Fail(ERR_ONLY_HOST_CANCEL) else Pass
      ensures countdown == if r.Pass? then None else old(countdown)
    {
      if hostId != Some(sender) {
        return Fail(ERR_ONLY_HOST_CANCEL);
      }
      countdown := None;
      r := Pass;
    }

    /**
     * One second of the pre-game countdown: it counts 3, 2, 1 and on the
     * next tick marks the room started and begins game round 1.
     */
    method CountdownTick(impPick: nat, choPick: nat)
      requires Valid()
      requires IndexDraw(impPick, |ConnectedNames(players)|) && IndexDraw(choPick, |ConnectedNames(players)|)
      modifies this
      ensures Valid()
      ensures hostId == old(hostId)
      ensures old(countdown).None? ==>
        countdown.None? && players == old(players) && started == old(started) && game == old(game)
      ensures old(countdown).Some? && old(countdown).value > 1 ==>
        && countdown == Some(old(countdown).value - 1)
        && players == old(players) && started == old(started) && game == old(game)
      ensures old(countdown).Some? && old(countdown).value <= 1 ==>
        && countdown.None? && started
        && game == Some(NewRound(NewGame(), old(players), impPick, choPick))
        && players == ClearRoundFlags(old(players))
    {
      if countdown.None? {
        return;
      }
      var count := countdown.value - 1;
      if count > 0 {
        countdown := Some(count);
      } else {
        countdown := None;
        started := true;
        StartNewGame(impPick, choPick);
      }
    }

    /** `startNewGame`: a fresh record for game round 1, then `startRound`. */
    method StartNewGame(impPick: nat, choPick: nat)
      requires CatalogValid(catalog) && RosterInv(players) && started
      requires countdown.Some? ==> 1 <= countdown.value <= START_COUNT
      requires IndexDraw(impPick, |ConnectedNames(players)|) && IndexDraw(choPick, |ConnectedNames(players)|)
      modifies this
      ensures Valid()
      ensures game == Some(NewRound(NewGame(), old(players), impPick, choPick))
      ensures players == ClearRoundFlags(old(players))
      ensures hostId == old(hostId) && started && countdown == old(countdown)
    {
      game := Some(NewGame());
      StartRound(impPick, choPick);
    }

    /**
     * `startRound`: imposter and chooser drawn from the connected names,
     * round flags cleared, the choose phase with its 10-second timer.
     */
    method StartRound(impPick: nat, choPick: nat)
      requires CatalogValid(catalog) && RosterInv(players) && started
      requires countdown.Some? ==> 1 <= countdown.value <= START_COUNT
      requires game.Some? && 1 <= game.value.round <= MAX_ROUNDS
      requires IndexDraw(impPick, |ConnectedNames(players)|) && IndexDraw(choPick, |ConnectedNames(players)|)
      modifies this
      ensures Valid()
      ensures game == Some(NewRound(old(game).value, old(players), impPick, choPick))
      ensures players == ClearRoundFlags(old(players))
      ensures hostId == old(hostId) && started && countdown == old(countdown)
    {
      NewRoundInv(game.value, players, impPick, choPick);
      var ps := ClearRoundFlags(players);
      assert SameNames(players, ps);
      RosterInvFrame(players, ps);
      game := Some(NewRound(game.value, players, impPick, choPick));
      players := ps;
    }

    /** `chooseSubject`: only the chooser's socket, only in the choose phase, only a listed subject. */
    method ChooseSubject(sender: SocketId, subject: string, promptPick: nat, swaps: seq<nat>, offset: nat)
      requires Valid()
      requires PromptDraw(catalog, subject, promptPick)
      requires SwapDraws(swaps, |ConnectedNames(players)|) && IndexDraw(offset, |ConnectedNames(players)|)
      modifies this
      ensures Valid()
      ensures players == old(players) && hostId == old(hostId) && started == old(started) && countdown == old(countdown)
      ensures var accepted := old(game).Some? && old(game).value.phase == Choose
                              && old(game).value.chooserId == Some(sender) && subject in catalog.subjects;
        && (accepted ==> game == Some(Subjected(catalog, old(game).value, ConnectedNames(players), subject, promptPick, swaps, offset)))
        && (!accepted ==> game == old(game))
    {
      if game.None? {
        return;
      }
      var g := game.value;
      if g.phase != Choose || g.chooserId != Some(sender) {
        return;
      }
      if subject !in catalog.subjects {
        return;
      }
      SetSubjectAndPrompt(subject, promptPick, swaps, offset);
    }

    /**
     * `setSubjectAndPrompt`: the subject and a prompt for it are fixed, the
     * talk order is a rotated shuffle of the connected names, and the talk
     * phase starts with its first speaker.
     */
    method SetSubjectAndPrompt(subject: string, promptPick: nat, swaps: seq<nat>, offset: nat)
      requires Valid() && game.Some? && game.value.phase == Choose
      requires PromptDraw(catalog, subject, promptPick)
      requires SwapDraws(swaps, |ConnectedNames(players)|) && IndexDraw(offset, |ConnectedNames(players)|)
      modifies this
      ensures Valid()
      ensures players == old(players) && hostId == old(hostId) && started == old(started) && countdown == old(countdown)
      ensures game == Some(Subjected(catalog, old(game).value, ConnectedNames(players), subject, promptPick, swaps, offset))
    {
      var names := ConnectedNames(players);
      var order := DrawTalkOrder(names, swaps, offset);
      var g := WithSubject(game.value, subject, PromptFor(catalog, subject, promptPick), order);
      SubjectStep(catalog, players, started, countdown, game.value, subject, PromptFor(catalog, subject, promptPick), order);
      assert g == Subjected(catalog, game.value, names, subject, promptPick, swaps, offset);
      game := Some(g);
    }

    /** `advanceTalk`: the next speaker's turn, or the vote once the last speaker is done. */
    method AdvanceTalk()
      requires Valid() && game.Some? && game.value.phase == Talk
      modifies this
      ensures Valid()
      ensures players == old(players) && hostId == old(hostId) && started == old(started) && countdown == old(countdown)
      ensures game == Some(AfterAdvance(old(game).value))
    {
      AdvanceKeepsInv(game.value, players);
      var g := game.value;
      g := g.(talkIndex := g.talkIndex + 1);
      if g.talkIndex >= |g.talkOrder| {
        g := g.(phase := Vote, voteRound := g.voteRound + 1);
        g := WithVoteTimer(g);
      } else {
        g := WithTalkTimer(g);
      }
      game := Some(g);
    }

    /**
     * `doneTalk`: only the current speaker ends their turn, only in the talk
     * phase. The source throws when the sender has no room or the room no
     * game, hence the precondition.
     */
    method DoneTalk(sender: string)
      requires Valid() && game.Some?
      modifies this
      ensures Valid()
      ensures players == old(players) && hostId == old(hostId) && started == old(started) && countdown == old(countdown)
      ensures var g0 := old(game).value;
        game == if g0.phase == Talk && Speaker(g0) == Some(sender) then Some(AfterAdvance(g0)) else old(game)
    {
      var g := game.value;
      if g.phase != Talk {
        return;
      }
      if Speaker(g) != Some(sender) {
        return;
      }
      AdvanceTalk();
    }

    /**
     * `voteFor`: a roster entry that is not the imposter and has not voted
     * in this game round votes for a roster name (after sanitising); the
     * ballot is recorded and the vote progress checked. Anything else is ignored.
     */
    method VoteFor(sender: string, rawTarget: string)
      requires Valid()
      modifies this
      ensures Valid()
      ensures hostId == old(hostId) && started == old(started) && countdown == old(countdown)
      ensures old(game).None? || !CanVote(old(game).value, old(players), sender, Sanitize(rawTarget)) ==>
        game == old(game) && players == old(players)
      ensures old(game).Some? && CanVote(old(game).value, old(players), sender, Sanitize(rawTarget)) ==>
        game.Some? && (game.value, players) ==
          VoteProgress(RecordVote(old(game).value, old(players), sender, Sanitize(rawTarget)).0,
                       RecordVote(old(game).value, old(players), sender, Sanitize(rawTarget)).1)
    {
      if game.None? {
        return;
      }
      var g := game.value;
      if g.phase != Vote {
        return;
      }
      var voter := FindByName(players, sender);
      if voter.None? || Some(sender) == g.imposterName {
        return;
      }
      if players[voter.value].hasVotedThisRound {
        return;
      }
      var target := Sanitize(rawTarget);
      if FindByName(players, target).None? {
        return;
      }
      RecordVoteKeepsInv(g, players, sender, target);
      var i := voter.value;
      var g1 := g.(votes := g.votes + [VoteRecord(sender, target, g.voteRound)]);
      var ps1 := players[i := players[i].(hasVotedThisRound := true)];
      RoomStep(catalog, players, ps1, started, countdown, game, g1);
      game, players := Some(g1), ps1;
      CheckVoteProgress();
    }

    /**
     * `checkVoteProgress`: score once every non-imposter has voted; back to
     * talk once every non-imposter has voted or asked to go around, before
     * vote round 3; in vote round 3 the vote state is re-sent (timer restarted).
     */
    method CheckVoteProgress()
      requires Valid() && game.Some? && game.value.phase == Vote
      modifies this
      ensures Valid()
      ensures hostId == old(hostId) && started == old(started) && countdown == old(countdown)
      ensures game.Some? && (game.value, players) == VoteProgress(old(game).value, old(players))
    {
      var g := game.value;
      VoteProgressOutcome(g, players);
      if AllNonImpostersVoted(players, g.imposterName) {
        TimerKeepsInv(g, players, Stop(g.timer));
        game := Some(g.(timer := Stop(g.timer)));
        StartScorePhase();
        return;
      }
      if AllNonImpostersActioned(players, g.imposterName) && g.voteRound < MAX_VOTE_ROUNDS {
        var g1 := g.(timer := Stop(g.timer), phase := Talk);
        var ps := ClearGoAgain(players);
        g1 := WithTalkTimer(g1.(talkIndex := 0));
        RoomStep(catalog, players, ps, started, countdown, game, g1);
        game, players := Some(g1), ps;
        return;
      }
      if g.voteRound >= MAX_VOTE_ROUNDS {
        game := Some(WithVoteTimer(g));
      }
    }

    /**
     * `goAroundAgain`: before vote round 3, a non-imposter entry that has not
     * voted asks to go around; once every non-imposter has voted or asked,
     * the talk phase restarts from the first speaker.
     */
    method GoAroundAgain(sender: string)
      requires Valid()
      modifies this
      ensures Valid()
      ensures hostId == old(hostId) && started == old(started) && countdown == old(countdown)
      ensures old(game).None? || !CanGoAround(old(game).value, old(players), sender) ==>
        game == old(game) && players == old(players)
      ensures old(game).Some? && CanGoAround(old(game).value, old(players), sender) ==>
        game.Some? && (game.value, players) == GoAround(old(game).value, old(players), sender)
    {
      if game.None? {
        return;
      }
      var g := game.value;
      if g.phase != Vote || g.voteRound >= MAX_VOTE_ROUNDS {
        return;
      }
      var player := FindByName(players, sender);
      if player.None? || Some(sender) == g.imposterName {
        return;
      }
      var i := player.value;
      var ps := players;
      if !ps[i].hasVotedThisRound {
        ps := ps[i := ps[i].(clickedGoAgainThisRound := true)];
      }
      var g1 := g;
      if AllNonImpostersActioned(ps, g.imposterName) {
        g1, ps := BackToTalk(g), ClearGoAgain(ps);
      }
      assert (g1, ps) == GoAround(g, players, sender);
      GoAroundKeepsInv(g, players, sender);
      RoomStep(catalog, players, ps, started, countdown, game, g1);
      game, players := Some(g1), ps;
    }

    /** `startScorePhase`: the timer stops, the score phase begins and the payouts are tallied. */
    method StartScorePhase()
      requires Valid() && game.Some? && game.value.phase == Vote
      modifies this
      ensures Valid()
      ensures players == old(players) && hostId == old(hostId) && started == old(started) && countdown == old(countdown)
      ensures game == Some(Scored(old(game).value, players))
    {
      ScoredKeepsInv(game.value, players);
      var g := game.value;
      g := g.(timer := Stop(g.timer), phase := Score);
      var t := ComputeTally(players, g.imposterName, g.votes);
      game := Some(g.(tally := Some(t)));
    }

    /** The choose timer's callback: with no subject chosen yet, a drawn subject is set. */
    method ChooseExpired(subjectPick: nat, promptPick: nat, swaps: seq<nat>, offset: nat)
      requires Valid() && game.Some?
      requires subjectPick < |catalog.subjects|
      requires PromptDraw(catalog, catalog.subjects[subjectPick], promptPick)
      requires SwapDraws(swaps, |ConnectedNames(players)|) && IndexDraw(offset, |ConnectedNames(players)|)
      modifies this
      ensures Valid()
      ensures players == old(players) && hostId == old(hostId) && started == old(started) && countdown == old(countdown)
      ensures var g0 := old(game).value;
        if g0.phase == Choose && g0.subject.None? then
          var s := catalog.subjects[subjectPick];
          game == Some(Subjected(catalog, g0, ConnectedNames(players), s, promptPick, swaps, offset))
        else game == old(game)
    {
      var g := game.value;
      if g.phase == Choose && g.subject.None? {
        SetSubjectAndPrompt(catalog.subjects[subjectPick], promptPick, swaps, offset);
      }
    }

    /** The talk timer's callback: the talk advances if still in the talk phase. */
    method TalkExpired()
      requires Valid() && game.Some?
      modifies this
      ensures Valid()
      ensures players == old(players) && hostId == old(hostId) && started == old(started) && countdown == old(countdown)
      ensures game == if old(game).value.phase == Talk then Some(AfterAdvance(old(game).value)) else old(game)
    {
      if game.value.phase == Talk {
        AdvanceTalk();
      }
    }

    /** The vote timer's callback: back to talk before vote round 3 unless everyone voted, else scoring. */
    method VoteExpiredTick()
      requires Valid() && game.Some?
      modifies this
      ensures Valid()
      ensures hostId == old(hostId) && started == old(started) && countdown == old(countdown)
      ensures old(game).value.phase != Vote ==> game == old(game) && players == old(players)
      ensures old(game).value.phase == Vote ==>
        game.Some? && (game.value, players) == VoteExpired(old(game).value, old(players))
    {
      var g := game.value;
      if g.phase != Vote {
        return;
      }
      VoteExpiredOutcome(g, players);
      if g.voteRound < MAX_VOTE_ROUNDS && !AllNonImpostersVoted(players, g.imposterName) {
        var g1 := g.(phase := Talk);
        var ps := ClearGoAgain(players);
        g1 := WithTalkTimer(g1.(talkIndex := 0));
        RoomStep(catalog, players, ps, started, countdown, game, g1);
        game, players := Some(g1), ps;
      } else {
        StartScorePhase();
      }
    }

    /** One second of the phase timer; on expiry the timer's callback runs. */
    method PhaseTick(subjectPick: nat, promptPick: nat, swaps: seq<nat>, offset: nat)
      requires Valid()
      requires subjectPick < |catalog.subjects|
      requires PromptDraw(catalog, catalog.subjects[subjectPick], promptPick)
      requires SwapDraws(swaps, |ConnectedNames(players)|) && IndexDraw(offset, |ConnectedNames(players)|)
      modifies this
      ensures Valid()
      ensures hostId == old(hostId) && started == old(started) && countdown == old(countdown)
      ensures old(game).None? ==> game == old(game) && players == old(players)
      ensures old(game).Some? && Tick(old(game).value.timer).1.None? ==>
        game == Some(old(game).value.(timer := Tick(old(game).value.timer).0)) && players == old(players)
      ensures old(game).Some? && Tick(old(game).value.timer).1 == Some(VoteTimeout) ==>
        var g1 := old(game).value.(timer := Tick(old(game).value.timer).0);
        if g1.phase == Vote then game.Some? && (game.value, players) == VoteExpired(g1, old(players))
        else game == Some(g1) && players == old(players)
      ensures old(game).Some? && Tick(old(game).value.timer).1 == Some(AutoAdvance) ==>
        var g1 := old(game).value.(timer := Tick(old(game).value.timer).0);
        players == old(players) && game == Some(if g1.phase == Talk then AfterAdvance(g1) else g1)
      ensures old(game).Some? && Tick(old(game).value.timer).1 == Some(AutoChoose) ==>
        var g1 := old(game).value.(timer := Tick(old(game).value.timer).0);
        players == old(players) &&
        game == Some(if g1.phase == Choose && g1.subject.None?
                     then Subjected(catalog, g1, ConnectedNames(players), catalog.subjects[subjectPick], promptPick, swaps, offset)
                     else g1)
    {
      if game.None? {
        return;
      }
      var (t, fired) := Tick(game.value.timer);
      TimerKeepsInv(game.value, players, t);
      game := Some(game.value.(timer := t));
      if fired == Some(AutoChoose) {
        ChooseExpired(subjectPick, promptPick, swaps, offset);
      } else if fired == Some(AutoAdvance) {
        TalkExpired();
      } else if fired == Some(VoteTimeout) {
        VoteExpiredTick();
      }
    }

    /**
     * The per-entry and imposter timeouts of the score phase, in one step:
     * every entry is credited with its tally points in roster order, then the
     * imposter with the imposter award. The source throws when the round had
     * no imposter, hence the precondition.
     */
    method PayOut()
      requires Valid() && game.Some? && game.value.phase == Score && game.value.imposterName.Some?
      modifies this
      ensures Valid()
      ensures game == old(game) && hostId == old(hostId) && started == old(started) && countdown == old(countdown)
      ensures var g0 := old(game).value;
        && FindByName(old(players), g0.imposterName.value).Some?
        && players == Paid(old(players), g0.tally.value, FindByName(old(players), g0.imposterName.value).value)
    {
      var g := game.value;
      assert g.imposterName.value in NamesOf(players);
      var k := FindByName(players, g.imposterName.value).value;
      var paid := CreditPoints(players, g.tally.value, k);
      assert SameNamesAndVotes(players, paid);
      RoomInvFrame(catalog, players, paid, started, countdown, game);
      players := paid;
    }

    /** The last timeout of the score phase: the next game round, or after round 3 the end of the game. */
    method NextRound(impPick: nat, choPick: nat) returns (end: Option<GameEnd>)
      requires Valid() && game.Some?
      requires IndexDraw(impPick, |ConnectedNames(players)|) && IndexDraw(choPick, |ConnectedNames(players)|)
      modifies this
      ensures Valid()
      ensures hostId == old(hostId) && countdown == old(countdown)
      ensures old(game).value.round < MAX_ROUNDS ==>
        && end.None? && started && game.Some?
        && game.value == NewRound(old(game).value.(round := old(game).value.round + 1), old(players), impPick, choPick)
        && players == ClearRoundFlags(old(players))
      ensures old(game).value.round >= MAX_ROUNDS ==>
        && end == Some(GameEnd(SortDesc(RowsOf(old(players))), Winner(old(players))))
        && !started && game.None? && players == ClearVoted(old(players))
    {
      var g := game.value;
      if g.round < MAX_ROUNDS {
        game := Some(g.(round := g.round + 1));
        StartRound(impPick, choPick);
        end := None;
      } else {
        var e := EndGame();
        end := Some(e);
      }
    }

    /**
     * The score-phase timeouts: the payout, the ranked scoreboard of the
     * paid roster, then the next game round or the end of the game.
     */
    method RevealScores(impPick: nat, choPick: nat) returns (board: seq<RankedRow>, end: Option<GameEnd>)
      requires Valid() && game.Some? && game.value.phase == Score && game.value.imposterName.Some?
      requires IndexDraw(impPick, |ConnectedNames(players)|) && IndexDraw(choPick, |ConnectedNames(players)|)
      modifies this
      ensures Valid()
      ensures hostId == old(hostId) && countdown == old(countdown)
      ensures FindByName(old(players), old(game).value.imposterName.value).Some?
      ensures var paid := Paid(old(players), old(game).value.tally.value,
                               FindByName(old(players), old(game).value.imposterName.value).value);
        && board == ScoreBoard(paid)
        && (old(game).value.round < MAX_ROUNDS ==>
             && end.None? && started && game.Some?
             && game.value == NewRound(old(game).value.(round := old(game).value.round + 1), paid, impPick, choPick)
             && players == ClearRoundFlags(paid))
        && (old(game).value.round >= MAX_ROUNDS ==>
             && end == Some(GameEnd(SortDesc(RowsOf(paid)), Winner(paid)))
             && !started && game.None? && players == ClearVoted(paid))
    {
      PayOut();
      board := ScoreBoard(players);
      end := NextRound(impPick, choPick);
    }

    /** `endGame`: the final ranking and winner; the room returns to the lobby. */
    method EndGame() returns (e: GameEnd)
      requires Valid()
      modifies this
      ensures Valid()
      ensures e == GameEnd(SortDesc(RowsOf(old(players))), Winner(old(players)))
      ensures !started && game.None? && players == ClearVoted(old(players))
      ensures hostId == old(hostId) && countdown == old(countdown)
    {
      var scoreboard := SortDesc(RowsOf(players));
      var winner := if |scoreboard| > 0 then Some(scoreboard[0]) else None;
      e := GameEnd(scoreboard, winner);
      var ps := ClearVoted(players);
      assert SameNames(players, ps);
      RosterInvFrame(players, ps);
      started := false;
      game := None;
      players := ps;
    }
  }
}
