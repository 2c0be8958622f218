/**
 * Score arithmetic of the score phase (`startScorePhase`, server.js:568-608):
 * each non-imposter's FIRST recorded vote of the game round decides their
 * points, and the imposter loses a share per correct vote.
 */
module Scoring {
  import opened Wrappers
  import opened Roster

  /** One recorded ballot: voter, target and the vote round it was cast in (server.js:305). */
  datatype VoteRecord = VoteRecord(voter: string, target: string, round: int)

  /** What the score phase awards: per roster entry, the number of correct votes, the imposter's points. */
  datatype Tally = Tally(points: seq<nat>, correctVotes: nat, imposterPoints: nat)

  /** The index of the first vote cast by `voter`, if any. */
  function FirstVoteIndex(votes: seq<VoteRecord>, voter: string): (r: Option<nat>)
    ensures r.Some? ==> r.value < |votes| && votes[r.value].voter == voter
    ensures r.Some? ==> forall k :: 0 <= k < r.value ==> votes[k].voter != voter
    ensures r.None? <==> forall k :: 0 <= k < |votes| ==> votes[k].voter != voter
  {
    if votes == [] then None
    else if votes[0].voter == voter then Some(0)
    else match FirstVoteIndex(votes[1..], voter)
      case None => None
      case Some(k) => Some(k + 1)
  }

  /** The first vote `voter` cast (server.js:575-580). */
  function FirstVoteBy(votes: seq<VoteRecord>, voter: string): Option<VoteRecord> {
    match FirstVoteIndex(votes, voter)
    case None => None
    case Some(k) => Some(votes[k])
  }

  /** Appending a vote changes a voter's first vote only if they had none. */
  lemma FirstVoteByPrefix(votes: seq<VoteRecord>, i: nat, voter: string)
    requires i < |votes|
    ensures FirstVoteBy(votes[..i + 1], voter) ==
      if FirstVoteBy(votes[..i], voter).Some? then FirstVoteBy(votes[..i], voter)
      else if votes[i].voter == voter then Some(votes[i])
      else None
  {
    var pre, ext := votes[..i], votes[..i + 1];
    assert forall k :: 0 <= k < i ==> ext[k] == pre[k];
    var a, b := FirstVoteIndex(pre, voter), FirstVoteIndex(ext, voter);
    if a.Some? {
      assert b.Some? && b.value <= a.value;
      assert b.value == a.value;
    } else if votes[i].voter == voter {
      assert b == Some(i);
    }
  }

  /** Points for a correct vote by the vote round it was cast in. */
  function RoundPoints(round: int): (pts: nat)
    ensures pts == 900 || pts == 600 || pts == 300
    ensures pts == 900 <==> round == 1
    ensures pts == 600 <==> round == 2
  {
    if round == 1 then 900 else if round == 2 then 600 else 300
  }

  /** Points a non-imposter earns from their first vote `v`. */
  function VotePoints(v: Option<VoteRecord>, imposter: Option<string>): (pts: nat)
    ensures pts > 0 <==> v.Some? && Some(v.value.target) == imposter
  {
    if v.Some? && Some(v.value.target) == imposter then RoundPoints(v.value.round) else 0
  }

  /** Points of one roster entry; the imposter's own slot carries 0 (it is paid separately). */
  function PlayerPoints(p: Player, imposter: Option<string>, votes: seq<VoteRecord>): nat {
    if Some(p.name) == imposter then 0 else VotePoints(FirstVoteBy(votes, p.name), imposter)
  }

  /** How many roster entries earn points. */
  function CorrectCount(ps: seq<Player>, imposter: Option<string>, votes: seq<VoteRecord>): (c: nat)
    ensures c <= |ps|
  {
    if ps == [] then 0
    else CorrectCount(ps[..|ps| - 1], imposter, votes)
         + (if PlayerPoints(ps[|ps| - 1], imposter, votes) > 0 then 1 else 0)
  }

  /** 900 divided by the number of non-imposters, rounded down, or 0 when there are none (server.js:602). */
  function PerCorrect(nonImposters: int): nat {
    if nonImposters > 0 then 900 / nonImposters else 0
  }

  /** `perCorrect * correctVotes`, spelled as repeated addition. */
  function Deduction(perCorrect: nat, correct: nat): nat {
    if correct == 0 then 0 else Deduction(perCorrect, correct - 1) + perCorrect
  }

  lemma {:induction false} DeductionIsProduct(perCorrect: nat, correct: nat)
    ensures Deduction(perCorrect, correct) == perCorrect * correct
  {
    if correct > 0 {
      DeductionIsProduct(perCorrect, correct - 1);
    }
  }

  /** 900 less the per-correct deduction for each correct vote, never below 0, with one fewer non-imposter than roster entries (server.js:581, 602-604). */
  function ImposterPoints(playerCount: int, correct: nat): (pts: nat)
    ensures pts <= 900
    ensures correct == 0 ==> pts == 900
  {
    var raw := 900 - Deduction(PerCorrect(playerCount - 1), correct);
    if raw < 0 then 0 else raw
  }

  /** The award the score phase computes from the roster, the imposter and the votes. */
  function TallyOf(ps: seq<Player>, imposter: Option<string>, votes: seq<VoteRecord>): (t: Tally)
    ensures |t.points| == |ps| && t.correctVotes <= |ps| && t.imposterPoints <= 900
  {
    var correct := CorrectCount(ps, imposter, votes);
    Tally(
      seq(|ps|, i requires 0 <= i < |ps| => PlayerPoints(ps[i], imposter, votes)),
      correct,
      ImposterPoints(|ps|, correct))
  }

  /** The first loop of `startScorePhase`: `voteByPlayer`, each voter's first vote. */
  method IndexFirstVotes(votes: seq<VoteRecord>) returns (byVoter: map<string, VoteRecord>)
    ensures forall n :: n in byVoter <==> FirstVoteBy(votes, n).Some?
    ensures forall n :: n in byVoter ==> Some(byVoter[n]) == FirstVoteBy(votes, n)
  {
    byVoter := map[];
    var i := 0;
    while i < |votes|
      invariant 0 <= i <= |votes|
      invariant forall n :: n in byVoter <==> FirstVoteBy(votes[..i], n).Some?
      invariant forall n :: n in byVoter ==> Some(byVoter[n]) == FirstVoteBy(votes[..i], n)
    {
      forall n ensures FirstVoteBy(votes[..i + 1], n) ==
        if FirstVoteBy(votes[..i], n).Some? then FirstVoteBy(votes[..i], n)
        else if votes[i].voter == n then Some(votes[i]) else None
      {
        FirstVoteByPrefix(votes, i, n);
      }
      if votes[i].voter !in byVoter {
        byVoter := byVoter[votes[i].voter := votes[i]];
      }
      i := i + 1;
    }
    assert votes[..|votes|] == votes;
  }

  /** The imposter's award as `startScorePhase` computes it (server.js:602-604). */
  method ImposterAward(playerCount: int, correct: nat) returns (pts: nat)
    ensures pts == ImposterPoints(playerCount, correct)
    ensures pts <= 900
  {
    var nonImpostersCount := playerCount - 1;
    var perCorrect := if nonImpostersCount > 0 then 900 / nonImpostersCount else 0;
    var impPts := 900 - perCorrect * correct;
    if impPts < 0 {
      impPts := 0;
    }
    pts := impPts;
    DeductionIsProduct(perCorrect, correct);
  }

  /**
   * The per-entry step of the score phase for one roster entry, given its
   * first vote: its points, and whether its vote was correct (server.js:583-592).
   */
  method ScoreEntry(p: Player, imposter: Option<string>, votes: seq<VoteRecord>, first: Option<VoteRecord>)
    returns (pts: nat, correct: bool)
    requires first == FirstVoteBy(votes, p.name)
    ensures pts == PlayerPoints(p, imposter, votes)
    ensures correct <==> pts > 0
  {
    pts, correct := 0, false;
    if Some(p.name) == imposter {
      return;
    }
    if first.Some? && Some(first.value.target) == imposter {
      correct := true;
      if first.value.round == 1 {
        pts := 900;
      } else if first.value.round == 2 {
        pts := 600;
      } else {
        pts := 300;
      }
    }
  }

  /**
   * `startScorePhase`'s tally: index each voter's first vote, then walk the
   * roster accumulating points and the correct-vote count.
   */
  method ComputeTally(ps: seq<Player>, imposter: Option<string>, votes: seq<VoteRecord>)
    returns (t: Tally)
    ensures t == TallyOf(ps, imposter, votes)
  {
    var byVoter := IndexFirstVotes(votes);
    var points: seq<nat> := [];
    var correctVotes: nat := 0;
    var j := 0;
    while j < |ps|
      invariant 0 <= j <= |ps|
      invariant |points| == j
      invariant forall k :: 0 <= k < j ==> points[k] == PlayerPoints(ps[k], imposter, votes)
      invariant correctVotes == CorrectCount(ps[..j], imposter, votes)
    {
      var name := ps[j].name;
      var first := if name in byVoter then Some(byVoter[name]) else None;
      var pts, correct := ScoreEntry(ps[j], imposter, votes, first);
      TallyStep(ps, imposter, votes, j, points, correctVotes, pts);
      if correct {
        correctVotes := correctVotes + 1;
      }
      points := points + [pts];
      j := j + 1;
    }
    var impPts := ImposterAward(|ps|, correctVotes);
    TallyOfParts(ps, imposter, votes, points, correctVotes);
    t := Tally(points, correctVotes, impPts);
  }

  /** A tally assembled entry by entry is the specified one. */
  lemma TallyOfParts(ps: seq<Player>, imposter: Option<string>, votes: seq<VoteRecord>, points: seq<nat>, correct: nat)
    requires |points| == |ps|
    requires forall k :: 0 <= k < |ps| ==> points[k] == PlayerPoints(ps[k], imposter, votes)
    requires correct == CorrectCount(ps[..|ps|], imposter, votes)
    ensures TallyOf(ps, imposter, votes) == Tally(points, correct, ImposterPoints(|ps|, correct))
  {
    assert ps[..|ps|] == ps;
  }

  /** One more roster entry added to a partial tally. */
  lemma TallyStep(ps: seq<Player>, imposter: Option<string>, votes: seq<VoteRecord>, j: nat,
                  points: seq<nat>, correct: nat, pts: nat)
    requires j < |ps| && |points| == j
    requires forall k :: 0 <= k < j ==> points[k] == PlayerPoints(ps[k], imposter, votes)
    requires correct == CorrectCount(ps[..j], imposter, votes)
    requires pts == PlayerPoints(ps[j], imposter, votes)
    ensures forall k :: 0 <= k < j + 1 ==> (points + [pts])[k] == PlayerPoints(ps[k], imposter, votes)
    ensures correct + (if pts > 0 then 1 else 0) == CorrectCount(ps[..j + 1], imposter, votes)
  {
    CorrectCountStep(ps, imposter, votes, j);
  }

  lemma CorrectCountStep(ps: seq<Player>, imposter: Option<string>, votes: seq<VoteRecord>, j: nat)
    requires j < |ps|
    ensures CorrectCount(ps[..j + 1], imposter, votes) ==
      CorrectCount(ps[..j], imposter, votes) + (if PlayerPoints(ps[j], imposter, votes) > 0 then 1 else 0)
  {
    assert ps[..j + 1][..j] == ps[..j];
  }

  /**
   * A roster entry earns points exactly when it is not the imposter and its
   * first vote named the imposter; the amount depends on that vote's round.
   */
  lemma TallyPoints(ps: seq<Player>, imposter: Option<string>, votes: seq<VoteRecord>, i: nat)
    requires i < |ps|
    ensures var t := TallyOf(ps, imposter, votes);
      var first := FirstVoteBy(votes, ps[i].name);
      && |t.points| == |ps|
      && (t.points[i] > 0 <==>
           Some(ps[i].name) != imposter && first.Some? && Some(first.value.target) == imposter)
      && (t.points[i] > 0 ==> t.points[i] == RoundPoints(first.value.round))
  {
  }

  /** Later votes never count: only the first vote of the game round is scored. */
  lemma LaterVotesIgnored(ps: seq<Player>, imposter: Option<string>, votes: seq<VoteRecord>, v: VoteRecord)
    requires FirstVoteBy(votes, v.voter).Some?
    ensures TallyOf(ps, imposter, votes + [v]) == TallyOf(ps, imposter, votes)
  {
    var ext := votes + [v];
    assert ext[..|votes|] == votes;
    forall n ensures FirstVoteBy(ext, n) == FirstVoteBy(votes, n) {
      FirstVoteByPrefix(ext, |votes|, n);
      assert ext[..|votes| + 1] == ext;
    }
    assert forall q: Player :: PlayerPoints(q, imposter, ext) == PlayerPoints(q, imposter, votes);
    CorrectCountSame(ps, imposter, votes, ext);
  }

  lemma {:induction false} CorrectCountSame(ps: seq<Player>, imposter: Option<string>, a: seq<VoteRecord>, b: seq<VoteRecord>)
    requires forall q: Player :: PlayerPoints(q, imposter, a) == PlayerPoints(q, imposter, b)
    ensures CorrectCount(ps, imposter, a) == CorrectCount(ps, imposter, b)
  {
    if ps != [] {
      CorrectCountSame(ps[..|ps| - 1], imposter, a, b);
    }
  }

  /** The correct-vote count leaves out the imposter's own entry. */
  lemma {:induction false} CorrectCountBound(ps: seq<Player>, imposter: Option<string>, votes: seq<VoteRecord>, k: nat)
    requires k < |ps| && Some(ps[k].name) == imposter
    ensures CorrectCount(ps, imposter, votes) <= |ps| - 1
  {
    if k < |ps| - 1 {
      CorrectCountBound(ps[..|ps| - 1], imposter, votes, k);
    }
  }

  /** 900 / m copies of m make at most 900. */
  lemma PerCorrectBound(m: int, c: nat)
    requires 0 < m && c <= m
    ensures PerCorrect(m) * c <= 900
  {
    var q := 900 / m;
    assert q * m <= 900;
    DeductionIsProduct(q, c);
    DeductionIsProduct(q, m);
    DeductionMonotone(q, c, m);
  }

  /**
   * With the imposter on the roster the clamp at 0 never applies:
   * the imposter gets exactly 900 - floor(900 / (n - 1)) * correctVotes.
   */
  lemma ImposterPointsExact(ps: seq<Player>, imposter: Option<string>, votes: seq<VoteRecord>, k: nat)
    requires 2 <= |ps|
    requires k < |ps| && Some(ps[k].name) == imposter
    ensures var t := TallyOf(ps, imposter, votes);
      t.imposterPoints == 900 - (900 / (|ps| - 1)) * t.correctVotes
  {
    var c := CorrectCount(ps, imposter, votes);
    CorrectCountBound(ps, imposter, votes, k);
    PerCorrectBound(|ps| - 1, c);
    DeductionIsProduct(PerCorrect(|ps| - 1), c);
  }

  lemma {:induction false} DeductionMonotone(p: nat, c1: nat, c2: nat)
    requires c1 <= c2
    ensures Deduction(p, c1) <= Deduction(p, c2)
    decreases c2
  {
    if c1 < c2 {
      DeductionMonotone(p, c1, c2 - 1);
    }
  }

  /** More correct votes never raise the imposter's points. */
  lemma ImposterPointsMonotone(n: int, c1: nat, c2: nat)
    requires c1 <= c2
    ensures ImposterPoints(n, c2) <= ImposterPoints(n, c1)
  {
    DeductionMonotone(PerCorrect(n - 1), c1, c2);
  }
}
