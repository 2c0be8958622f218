/**
 * The room registry (server.js:23, 58-60) and the per-socket state kept by
 * the connection handler (the current room code and name, server.js:113-115),
 * with the socket handlers that look a room up and hand the event to it (server.js:114-352).
 */
module Registry {
  import opened Wrappers
  import opened Names
  import opened Roster
  import opened GameSession
  import opened TalkOrder
  import opened Rooms

  const ERR_NAME_REQUIRED: string := "Name required (letters A-Z only)."
  const ERR_ROOM_NOT_FOUND: string := "Room not found."

  /** One socket's closure state: the room and name it last created or joined. */
  class Connection {
    const id: SocketId
    var roomCode: Option<string>
    var name: Option<string>

    /** The two are always set together. */
    ghost predicate Valid()
      reads this
    {
      roomCode.Some? <==> name.Some?
    }

    constructor (id: SocketId)
      ensures Valid()
      ensures this.id == id && roomCode.None? && name.None?
    {
      this.id := id;
      roomCode := None;
      name := None;
    }
  }

  /** The live rooms by code (server.js:23). */
  class Registry {
    const catalog: Catalog
    var rooms: map<string, Room>

    /** Every entry is a valid room filed under its own four-letter code; no room is filed twice. */
    ghost predicate Valid()
      reads this, rooms.Values
    {
      && CatalogValid(catalog)
      && (forall c :: c in rooms ==>
            IsRoomCode(c) && rooms[c].code == c && rooms[c].catalog == catalog && rooms[c].Valid())
      && (forall c, d :: c in rooms && d in rooms && c != d ==> rooms[c] != rooms[d])
    }

    /** The room a handler of this connection may change: the room under its current code, if any. */
    function RoomAt(code: Option<string>): set<Room>
      reads this
    {
      if code.Some? && code.value in rooms then {rooms[code.value]} else {}
    }

    constructor (catalog: Catalog)
      requires CatalogValid(catalog)
      ensures Valid()
      ensures this.catalog == catalog && rooms == map[]
    {
      this.catalog := catalog;
      rooms := map[];
    }

    /**
     * `generateRoomCode`: draw four letters, again while the code is taken.
     * `draws` are the successive draws; one of them spells a free code.
     */
    method GenerateRoomCode(draws: seq<seq<nat>>) returns (code: string, attempts: nat)
      requires forall k :: 0 <= k < |draws| ==> IsDraw(draws[k])
      requires exists k :: 0 <= k < |draws| && CodeOf(draws[k]) !in rooms
      ensures attempts < |draws| && code == CodeOf(draws[attempts])
      ensures IsRoomCode(code) && code !in rooms
      ensures forall j :: 0 <= j < attempts ==> CodeOf(draws[j]) in rooms
    {
      attempts := 0;
      code := CodeOf(draws[0]);
      while code in rooms
        invariant attempts < |draws| && code == CodeOf(draws[attempts])
        invariant forall j :: 0 <= j < attempts ==> CodeOf(draws[j]) in rooms
        invariant exists k :: attempts <= k < |draws| && CodeOf(draws[k]) !in rooms
        decreases |draws| - attempts
      {
        attempts := attempts + 1;
        code := CodeOf(draws[attempts]);
      }
    }

    /**
     * `createRoom`: a clean name is required; the room is filed under the
     * first free drawn code with the creator as host and only entry, and the
     * connection remembers both.
     */
    method CreateRoom(conn: Connection, rawName: string, draws: seq<seq<nat>>) returns (r: Result<string, string>)
      requires Valid() && conn.Valid()
      requires forall k :: 0 <= k < |draws| ==> IsDraw(draws[k])
      requires exists k :: 0 <= k < |draws| && CodeOf(draws[k]) !in rooms
      modifies this, conn
      ensures Valid() && conn.Valid()
      ensures CleanName(rawName) == [] ==>
        r == Err(ERR_NAME_REQUIRED) && rooms == old(rooms)
        && conn.roomCode == old(conn.roomCode) && conn.name == old(conn.name)
      ensures CleanName(rawName) != [] ==>
        && r.Ok? && IsRoomCode(r.value) && r.value !in old(rooms)
        && (exists a :: 0 <= a < |draws| && r.value == CodeOf(draws[a])
                        && forall j :: 0 <= j < a ==> CodeOf(draws[j]) in old(rooms))
        && r.value in rooms && rooms == old(rooms)[r.value := rooms[r.value]]
        && fresh(rooms[r.value])
        && rooms[r.value].players == [Player(conn.id, CleanName(rawName), COLORS[0], true, 0, true, false, false)]
        && rooms[r.value].hostId == Some(conn.id)
        && !rooms[r.value].started && rooms[r.value].countdown.None? && rooms[r.value].game.None?
        && conn.roomCode == Some(r.value) && conn.name == Some(CleanName(rawName))
    {
      var name := CleanName(rawName);
      if name == [] {
        return Err(ERR_NAME_REQUIRED);
      }
      var code, attempts := GenerateRoomCode(draws);
      var room := new Room(code, catalog, conn.id, name);
      rooms := rooms[code := room];
      conn.roomCode := Some(code);
      conn.name := Some(name);
      r := Ok(code);
    }

    /**
     * `joinRoom`: a clean name is required, then a room under the clean
     * code; the room decides the rest, and the connection remembers room and
     * name unless the room refused.
     */
    method JoinRoom(conn: Connection, rawName: string, rawCode: string, colorDraw: nat) returns (r: JoinResult)
      requires Valid() && conn.Valid() && colorDraw < |COLORS|
      modifies conn, RoomAt(Some(CleanCode(rawCode)))
      ensures Valid() && conn.Valid()
      ensures CleanName(rawName) == [] ==> r == Rejected(ERR_NAME_REQUIRED)
      ensures CleanName(rawName) != [] && CleanCode(rawCode) !in rooms ==> r == Rejected(ERR_ROOM_NOT_FOUND)
      ensures r.Rejected? ==> conn.roomCode == old(conn.roomCode) && conn.name == old(conn.name)
      ensures !r.Rejected? ==>
        && CleanName(rawName) != [] && CleanCode(rawCode) in rooms
        && conn.roomCode == Some(CleanCode(rawCode)) && conn.name == Some(CleanName(rawName))
      ensures CleanName(rawName) != [] && CleanCode(rawCode) in rooms ==>
        && (r.Rejoined? <==> Reconnectable(old(rooms[CleanCode(rawCode)].players), CleanName(rawName)))
        && (r.Joined? <==>
              !Reconnectable(old(rooms[CleanCode(rawCode)].players), CleanName(rawName))
              && JoinRefusal(old(rooms[CleanCode(rawCode)].started), old(rooms[CleanCode(rawCode)].players), CleanName(rawName)).None?)
      ensures CleanName(rawName) == [] && CleanCode(rawCode) in rooms ==> unchanged(rooms[CleanCode(rawCode)])
      ensures CleanName(rawName) != [] && CleanCode(rawCode) in rooms ==>
        var room := rooms[CleanCode(rawCode)];
        var name := CleanName(rawName);
        && room.started == old(room.started) && room.countdown == old(room.countdown) && room.game == old(room.game)
        && (r.Rejected? ==>
              && r.reason == JoinRefusal(old(room.started), old(room.players), name).value
              && room.players == old(room.players) && room.hostId == old(room.hostId))
        && (r.Joined? ==>
              && room.hostId == old(room.hostId)
              && room.players == old(room.players) + [Player(conn.id, name, PickColor(UsedColors(old(room.players)), colorDraw), false, 0, true, false, false)])
        && (r.Rejoined? ==>
              var i := FindByName(old(room.players), name).value;
              && room.players == old(room.players)[i := old(room.players)[i].(id := conn.id, connected := true)]
              && room.hostId == (if old(room.hostId).None? && old(room.players)[i].isHost then Some(conn.id) else old(room.hostId)))
    {
      var name := CleanName(rawName);
      var code := CleanCode(rawCode);
      if name == [] {
        return Rejected(ERR_NAME_REQUIRED);
      }
      if code !in rooms {
        return Rejected(ERR_ROOM_NOT_FOUND);
      }
      var room := rooms[code];
      r := room.Join(conn.id, name, colorDraw);
      forall c | c in rooms && c != code
        ensures rooms[c].Valid()
      {
        assert rooms[c] != room;
      }
      if !r.Rejected? {
        conn.roomCode := Some(code);
        conn.name := Some(name);
      }
    }

    /** `startGame` from this connection; nothing happens without a room. */
    method StartGame(conn: Connection) returns (r: Outcome<string>)
      requires Valid()
      modifies RoomAt(conn.roomCode)
      ensures Valid()
      ensures RoomAt(conn.roomCode) == {} ==> r == Pass
      ensures RoomAt(conn.roomCode) != {} ==>
        var room := rooms[conn.roomCode.value];
        && r == (if room.hostId != Some(conn.id) then Fail(ERR_ONLY_HOST_START)
                 else if |room.players| < MIN_TO_START then Fail(ERR_NEED_PLAYERS)
                 else Pass)
        && room.countdown == (if r.Pass? && old(room.countdown).None? then Some(START_COUNT) else old(room.countdown))
        && room.players == old(room.players) && room.hostId == old(room.hostId)
        && room.started == old(room.started) && room.game == old(room.game)
    {
      if conn.roomCode.None? || conn.roomCode.value !in rooms {
        return Pass;
      }
      var room := rooms[conn.roomCode.value];
      r := room.StartGame(conn.id);
    }

    /** `cancelStart` from this connection; nothing happens without a room. */
    method CancelStart(conn: Connection) returns (r: Outcome<string>)
      requires Valid()
      modifies RoomAt(conn.roomCode)
      ensures Valid()
      ensures RoomAt(conn.roomCode) == {} ==> r == Pass
      ensures RoomAt(conn.roomCode) != {} ==>
        var room := rooms[conn.roomCode.value];
        && r == (if room.hostId != Some(conn.id) then Fail(ERR_ONLY_HOST_CANCEL) else Pass)
        && room.countdown == (if r.Pass? then None else old(room.countdown))
        && room.players == old(room.players) && room.hostId == old(room.hostId)
        && room.started == old(room.started) && room.game == old(room.game)
    {
      if conn.roomCode.None? || conn.roomCode.value !in rooms {
        return Pass;
      }
      var room := rooms[conn.roomCode.value];
      r := room.CancelStart(conn.id);
    }

    /**
     * `disconnect`: the room marks the socket's entry offline and hands the
     * host role on; a room with nobody connected is removed from the registry.
     */
    method Disconnect(conn: Connection)
      requires Valid()
      modifies this, RoomAt(conn.roomCode)
      ensures Valid()
      ensures conn.roomCode.None? || conn.roomCode.value !in old(rooms) ==> rooms == old(rooms)
      ensures conn.roomCode.Some? && conn.roomCode.value in old(rooms) ==>
        var room := old(rooms)[conn.roomCode.value];
        && (room.players, room.hostId) == AfterDisconnect(old(room.players), old(room.hostId), conn.id)
        && room.started == old(room.started) && room.countdown == old(room.countdown) && room.game == old(room.game)
        && rooms == if AnyConnected(room.players) then old(rooms) else old(rooms) - {conn.roomCode.value}
    {
      if conn.roomCode.None? || conn.roomCode.value !in rooms {
        return;
      }
      var code := conn.roomCode.value;
      var room := rooms[code];
      room.Disconnect(conn.id);
      if !AnyConnected(room.players) {
        rooms := rooms - {code};
      }
    }

    /** `chooseSubject` from this connection: the room checks the chooser's socket id. */
    method ChooseSubject(conn: Connection, subject: string, promptPick: nat, swaps: seq<nat>, offset: nat)
      requires Valid()
      requires RoomAt(conn.roomCode) != {} ==>
        && PromptDraw(catalog, subject, promptPick)
        && SwapDraws(swaps, |ConnectedNames(rooms[conn.roomCode.value].players)|)
        && IndexDraw(offset, |ConnectedNames(rooms[conn.roomCode.value].players)|)
      modifies RoomAt(conn.roomCode)
      ensures Valid()
      ensures RoomAt(conn.roomCode) != {} ==>
        var room := rooms[conn.roomCode.value];
        var accepted := old(room.game).Some? && old(room.game).value.phase == Choose
                        && old(room.game).value.chooserId == Some(conn.id) && subject in catalog.subjects;
        && room.players == old(room.players) && room.hostId == old(room.hostId)
        && room.started == old(room.started) && room.countdown == old(room.countdown)
        && (!accepted ==> room.game == old(room.game))
        && (accepted ==> room.game == Some(Subjected(catalog, old(room.game).value, ConnectedNames(room.players),
                                                      subject, promptPick, swaps, offset)))
    {
      if conn.roomCode.None? || conn.roomCode.value !in rooms {
        return;
      }
      var room := rooms[conn.roomCode.value];
      room.ChooseSubject(conn.id, subject, promptPick, swaps, offset);
      forall c | c in rooms && c != conn.roomCode.value
        ensures rooms[c].Valid()
      {
        assert rooms[c] != room;
      }
    }

    /**
     * `doneTalk` from this connection. The source reads the phase of the room's game
     * without checking that the room or the game exists, hence the precondition.
     */
    method DoneTalk(conn: Connection)
      requires Valid() && conn.Valid()
      requires RoomAt(conn.roomCode) != {} && rooms[conn.roomCode.value].game.Some?
      modifies RoomAt(conn.roomCode)
      ensures Valid()
      ensures var room := rooms[conn.roomCode.value];
        && room.players == old(room.players) && room.hostId == old(room.hostId)
        && room.started == old(room.started) && room.countdown == old(room.countdown)
        && room.game == if old(room.game).value.phase == Talk && Speaker(old(room.game).value) == conn.name
                        then Some(AfterAdvance(old(room.game).value)) else old(room.game)
    {
      var room := rooms[conn.roomCode.value];
      room.DoneTalk(conn.name.value);
    }

    /** `voteFor` from this connection: the room checks the voter by name. */
    method VoteFor(conn: Connection, rawTarget: string)
      requires Valid() && conn.Valid()
      modifies RoomAt(conn.roomCode)
      ensures Valid()
      ensures RoomAt(conn.roomCode) != {} ==>
        var room := rooms[conn.roomCode.value];
        && room.hostId == old(room.hostId) && room.started == old(room.started) && room.countdown == old(room.countdown)
        && (old(room.game).None? || !CanVote(old(room.game).value, old(room.players), conn.name.value, Sanitize(rawTarget)) ==>
              room.game == old(room.game) && room.players == old(room.players))
        && (old(room.game).Some? && CanVote(old(room.game).value, old(room.players), conn.name.value, Sanitize(rawTarget)) ==>
              room.game.Some? && (room.game.value, room.players) ==
                VoteProgress(RecordVote(old(room.game).value, old(room.players), conn.name.value, Sanitize(rawTarget)).0,
                             RecordVote(old(room.game).value, old(room.players), conn.name.value, Sanitize(rawTarget)).1))
    {
      if conn.roomCode.None? || conn.roomCode.value !in rooms {
        return;
      }
      var room := rooms[conn.roomCode.value];
      room.VoteFor(conn.name.value, rawTarget);
    }

    /** `goAroundAgain` from this connection: the room checks the requester by name. */
    method GoAroundAgain(conn: Connection)
      requires Valid() && conn.Valid()
      modifies RoomAt(conn.roomCode)
      ensures Valid()
      ensures RoomAt(conn.roomCode) != {} ==>
        var room := rooms[conn.roomCode.value];
        && room.hostId == old(room.hostId) && room.started == old(room.started) && room.countdown == old(room.countdown)
        && (old(room.game).None? || !CanGoAround(old(room.game).value, old(room.players), conn.name.value) ==>
              room.game == old(room.game) && room.players == old(room.players))
        && (old(room.game).Some? && CanGoAround(old(room.game).value, old(room.players), conn.name.value) ==>
              room.game.Some? && (room.game.value, room.players) == GoAround(old(room.game).value, old(room.players), conn.name.value))
    {
      if conn.roomCode.None? || conn.roomCode.value !in rooms {
        return;
      }
      var room := rooms[conn.roomCode.value];
      room.GoAroundAgain(conn.name.value);
    }
  }
}
