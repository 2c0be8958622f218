/**
 * The player record and the roster queries the handlers use: lookups by
 * name and by socket id, the connected entries, and the per-player flag
 * updates applied to the whole roster.
 */
module Roster {
  import opened Wrappers
  import opened Names

  /** A socket.io connection id; it changes when a player reconnects. */
  type SocketId = nat

  /**
   * One roster entry. `hasVotedThisRound` and `clickedGoAgainThisRound` are
   * absent (falsy) on freshly pushed players in the source; here they start false.
   */
  datatype Player = Player(
    id: SocketId,
    name: string,
    color: string,
    isHost: bool,
    score: nat,
    connected: bool,
    hasVotedThisRound: bool,
    clickedGoAgainThisRound: bool)

  /** No two roster entries share a name. */
  ghost predicate NamesUnique(ps: seq<Player>) {
    forall i, j :: 0 <= i < j < |ps| ==> ps[i].name != ps[j].name
  }

  /** The room's roster invariant: at least the creator, at most 20, unique valid names. */
  ghost predicate RosterInv(ps: seq<Player>) {
    && 1 <= |ps| <= MAX_PLAYERS
    && (forall i :: 0 <= i < |ps| ==> IsName(ps[i].name))
    && NamesUnique(ps)
  }

  /** Entries changed in fields other than the name keep the roster invariant. */
  lemma RosterInvFrame(ps: seq<Player>, ps': seq<Player>)
    requires RosterInv(ps) && SameNames(ps, ps')
    ensures RosterInv(ps')
  {
  }

  /** Entry by entry the same names. */
  ghost predicate SameNames(a: seq<Player>, b: seq<Player>) {
    |a| == |b| && forall i :: 0 <= i < |a| ==> a[i].name == b[i].name
  }

  /** Entry by entry the same names and the same voted flags. */
  ghost predicate SameNamesAndVotes(a: seq<Player>, b: seq<Player>) {
    && |a| == |b|
    && forall i :: 0 <= i < |a| ==>
         a[i].name == b[i].name && a[i].hasVotedThisRound == b[i].hasVotedThisRound
  }

  /** Appending an entry with a fresh valid name to a roster with room keeps the invariant. */
  lemma RosterAppend(ps: seq<Player>, p: Player)
    requires RosterInv(ps) && |ps| < MAX_PLAYERS && IsName(p.name)
    requires forall j :: 0 <= j < |ps| ==> ps[j].name != p.name
    ensures RosterInv(ps + [p])
  {
  }

  /** The names of the roster, in roster order. */
  function NamesOf(ps: seq<Player>): (r: seq<string>)
    ensures |r| == |ps|
    ensures forall i :: 0 <= i < |ps| ==> r[i] == ps[i].name
  {
    seq(|ps|, i requires 0 <= i < |ps| => ps[i].name)
  }

  /** A linear search as an index: the first entry at or after `k` satisfying `f`. */
  function FindFrom(ps: seq<Player>, f: Player -> bool, k: nat): (r: Option<nat>)
    requires k <= |ps|
    ensures r.Some? ==> k <= r.value < |ps| && f(ps[r.value])
    ensures r.Some? ==> forall j :: k <= j < r.value ==> !f(ps[j])
    ensures r.None? ==> forall j :: k <= j < |ps| ==> !f(ps[j])
    decreases |ps| - k
  {
    if k == |ps| then None
    else if f(ps[k]) then Some(k)
    else FindFrom(ps, f, k + 1)
  }

  /** The first entry with this name (server.js:158, 294, 317). */
  function FindByName(ps: seq<Player>, name: string): (r: Option<nat>)
    ensures r.Some? ==> r.value < |ps| && ps[r.value].name == name
    ensures r.None? <==> forall j :: 0 <= j < |ps| ==> ps[j].name != name
  {
    FindFrom(ps, (p: Player) => p.name == name, 0)
  }

  /** The FIRST entry with this socket id (server.js:336). */
  function FindById(ps: seq<Player>, id: SocketId): (r: Option<nat>)
    ensures r.Some? ==> r.value < |ps| && ps[r.value].id == id
    ensures r.Some? ==> forall j :: 0 <= j < r.value ==> ps[j].id != id
    ensures r.None? <==> forall j :: 0 <= j < |ps| ==> ps[j].id != id
  {
    FindFrom(ps, (p: Player) => p.id == id, 0)
  }

  /** `disconnect`'s first step: the first entry with this socket id, if any, is marked disconnected. */
  function MarkDisconnected(ps: seq<Player>, id: SocketId): (r: seq<Player>)
    ensures |r| == |ps|
    ensures forall i :: 0 <= i < |ps| ==> r[i] == ps[i].(connected := ps[i].connected && FindById(ps, id) != Some(i))
  {
    var f := FindById(ps, id);
    if f.Some? then ps[f.value := ps[f.value].(connected := false)] else ps
  }

  /** The first connected entry in roster order (server.js:342). */
  function FirstConnected(ps: seq<Player>): (r: Option<nat>)
    ensures r.Some? ==> r.value < |ps| && ps[r.value].connected
    ensures r.Some? ==> forall j :: 0 <= j < r.value ==> !ps[j].connected
    ensures r.None? <==> forall j :: 0 <= j < |ps| ==> !ps[j].connected
  {
    FindFrom(ps, (p: Player) => p.connected, 0)
  }

  /** Whether any entry is connected (server.js:349). */
  predicate AnyConnected(ps: seq<Player>) {
    exists i :: 0 <= i < |ps| && ps[i].connected
  }

  /** The names of the connected entries, in roster order (server.js:425, 458). */
  function ConnectedNames(ps: seq<Player>): (r: seq<string>)
    ensures |r| <= |ps|
  {
    ConnectedAmong(ps, |ps|)
  }

  /** The names of the connected entries among the first `k`, in roster order. */
  function ConnectedAmong(ps: seq<Player>, k: nat): (r: seq<string>)
    requires k <= |ps|
    ensures |r| <= k
    decreases k
  {
    if k == 0 then []
    else
      var rest := ConnectedAmong(ps, k - 1);
      if ps[k - 1].connected then rest + [ps[k - 1].name] else rest
  }

  /** The connected names among the first `k` are exactly the names of connected entries there. */
  lemma {:induction false} ConnectedAmongMembers(ps: seq<Player>, k: nat)
    requires k <= |ps|
    ensures forall x :: x in ConnectedAmong(ps, k) <==> exists i :: 0 <= i < k && ps[i].connected && ps[i].name == x
    decreases k
  {
    if k > 0 {
      ConnectedAmongMembers(ps, k - 1);
    }
  }

  /** Same names and connection flags entry by entry: same connected names among the first `k`. */
  lemma {:induction false} ConnectedAmongFrame(a: seq<Player>, b: seq<Player>, k: nat)
    requires |a| == |b| && k <= |a|
    requires forall i :: 0 <= i < |a| ==> a[i].name == b[i].name && a[i].connected == b[i].connected
    ensures ConnectedAmong(a, k) == ConnectedAmong(b, k)
    decreases k
  {
    if k > 0 {
      ConnectedAmongFrame(a, b, k - 1);
    }
  }

  /** Same connection flags entry by entry: same first connected entry. */
  lemma FirstConnectedFrame(a: seq<Player>, b: seq<Player>)
    requires |a| == |b|
    requires forall i :: 0 <= i < |a| ==> a[i].connected == b[i].connected
    ensures FirstConnected(a) == FirstConnected(b)
  {
    var fa, fb := FirstConnected(a), FirstConnected(b);
    if fa.Some? { assert b[fa.value].connected; }
    if fb.Some? { assert a[fb.value].connected; }
  }

  /** The colours already taken by roster entries (server.js:214). */
  function UsedColors(ps: seq<Player>): set<string> {
    set i | 0 <= i < |ps| :: ps[i].color
  }

  /** A roster of n entries uses at most n colours. */
  lemma {:induction false} UsedColorsCard(ps: seq<Player>)
    ensures |UsedColors(ps)| <= |ps|
  {
    if ps != [] {
      var init := ps[..|ps| - 1];
      UsedColorsCard(init);
      assert UsedColors(ps) == UsedColors(init) + {ps[|ps| - 1].color} by {
        forall c | c in UsedColors(ps) ensures c in UsedColors(init) + {ps[|ps| - 1].color} {
          var i :| 0 <= i < |ps| && ps[i].color == c;
          if i < |ps| - 1 { assert init[i] == ps[i]; }
        }
        forall c | c in UsedColors(init) ensures c in UsedColors(ps) {
          var i :| 0 <= i < |init| && init[i].color == c;
          assert ps[i] == init[i];
        }
      }
    }
  }

  /** Clears every entry's voted and go-again flags (server.js:438). */
  function ClearRoundFlags(ps: seq<Player>): (r: seq<Player>)
    ensures |r| == |ps|
    ensures forall i :: 0 <= i < |ps| ==>
      r[i] == ps[i].(hasVotedThisRound := false, clickedGoAgainThisRound := false)
  {
    seq(|ps|, i requires 0 <= i < |ps| =>
      ps[i].(hasVotedThisRound := false, clickedGoAgainThisRound := false))
  }

  /** Clears every entry's go-again flag (server.js:326, 516, 557). */
  function ClearGoAgain(ps: seq<Player>): (r: seq<Player>)
    ensures |r| == |ps|
    ensures forall i :: 0 <= i < |ps| ==> r[i] == ps[i].(clickedGoAgainThisRound := false)
  {
    seq(|ps|, i requires 0 <= i < |ps| => ps[i].(clickedGoAgainThisRound := false))
  }

  /** Clears every entry's voted flag (server.js:633). */
  function ClearVoted(ps: seq<Player>): (r: seq<Player>)
    ensures |r| == |ps|
    ensures forall i :: 0 <= i < |ps| ==> r[i] == ps[i].(hasVotedThisRound := false)
  {
    seq(|ps|, i requires 0 <= i < |ps| => ps[i].(hasVotedThisRound := false))
  }

  /** Marks as host exactly the entries with the host's socket id (server.js:345). */
  function SetHostFlags(ps: seq<Player>, hostId: SocketId): (r: seq<Player>)
    ensures |r| == |ps|
    ensures forall i :: 0 <= i < |ps| ==> r[i] == ps[i].(isHost := ps[i].id == hostId)
  {
    seq(|ps|, i requires 0 <= i < |ps| => ps[i].(isHost := ps[i].id == hostId))
  }
}
