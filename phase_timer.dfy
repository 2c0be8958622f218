/**
 * The per-room phase timer (`startPhaseTimer` / `stopPhaseTimer`,
 * server.js:61-87), driven by explicit one-second tick events instead of
 * `setInterval`. `C` is the kind of callback run on expiry.
 */
module PhaseTimer {
  import opened Wrappers

  /**
   * `pending` is the expiry callback while an interval is running (the
   * source's non-null `g.phaseTimer`); `secondsLeft` is
   * `g.timerSecondsLeft`, which keeps its last value after a stop.
   */
  datatype Timer<C> = Timer(pending: Option<C>, secondsLeft: int)

  function Idle<C>(): Timer<C> { Timer(None, 0) }

  /** `stopPhaseTimer`: cancel the interval, keep the remaining seconds. */
  function Stop<C>(t: Timer<C>): (r: Timer<C>)
    ensures r.pending.None?
    ensures r.secondsLeft == t.secondsLeft
  {
    t.(pending := None)
  }

  /** `startPhaseTimer`: stop whatever runs, then count down from `seconds`. */
  function Start<C>(t: Timer<C>, seconds: int, onExpire: C): (r: Timer<C>)
    ensures r.pending == Some(onExpire)
    ensures r.secondsLeft == seconds
  {
    Stop(t).(pending := Some(onExpire), secondsLeft := seconds)
  }

  /**
   * One interval tick: decrement; once the value is no longer positive the
   * timer stops itself and hands back its callback to be run.
   */
  function Tick<C>(t: Timer<C>): (r: (Timer<C>, Option<C>))
    ensures t.pending.None? ==> r == (t, None)
    ensures t.pending.Some? ==> r.0.secondsLeft == t.secondsLeft - 1
    ensures r.1.Some? <==> t.pending.Some? && t.secondsLeft <= 1
    ensures r.1.Some? ==> r.1 == t.pending && r.0.pending.None?
    ensures r.1.None? ==> r.0.pending == t.pending
  {
    match t.pending
    case None => (t, None)
    case Some(cb) =>
      var left := t.secondsLeft - 1;
      if left > 0 then (Timer(Some(cb), left), None)
      else (Stop(Timer(Some(cb), left)), Some(cb))
  }

  /** `n` consecutive ticks: the final timer and what each tick fired. */
  function Run<C>(t: Timer<C>, n: nat): (r: (Timer<C>, seq<Option<C>>))
    ensures |r.1| == n
    decreases n
  {
    if n == 0 then (t, [])
    else
      var (t1, fired) := Tick(t);
      var (t2, rest) := Run(t1, n - 1);
      (t2, [fired] + rest)
  }

  function Max(a: int, b: int): int { if a >= b then a else b }

  /** A stopped timer stays stopped and never fires, however many ticks arrive. */
  lemma {:induction false} StoppedNeverFires<C>(t: Timer<C>, n: nat)
    requires t.pending.None?
    ensures Run(t, n).0 == t
    ensures forall k :: 0 <= k < n ==> Run(t, n).1[k].None?
    decreases n
  {
    if n > 0 {
      StoppedNeverFires(t, n - 1);
    }
  }

  /**
   * A running timer with `s` seconds left fires its callback exactly once,
   * on tick number max(s, 1), and on no other tick.
   */
  lemma {:induction false} RunningFiresOnce<C>(t: Timer<C>, n: nat)
    requires t.pending.Some?
    ensures forall k :: 0 <= k < n ==>
      Run(t, n).1[k] == if k + 1 == Max(t.secondsLeft, 1) then t.pending else None
    decreases n
  {
    if n > 0 {
      var (t1, fired) := Tick(t);
      var rest := Run(t1, n - 1).1;
      assert Run(t, n).1 == [fired] + rest;
      if t.secondsLeft - 1 > 0 {
        RunningFiresOnce(t1, n - 1);
      } else {
        StoppedNeverFires(t1, n - 1);
      }
    }
  }

  /** While it has not expired, a running timer counts down by one per tick. */
  lemma {:induction false} RunningCountsDown<C>(t: Timer<C>, n: nat)
    requires t.pending.Some?
    requires n < t.secondsLeft
    ensures Run(t, n).0 == t.(secondsLeft := t.secondsLeft - n)
    decreases n
  {
    if n > 0 {
      RunningCountsDown(Tick(t).0, n - 1);
    }
  }

  /**
   * After `Start(t, s, cb)` the callback `cb` runs exactly on tick max(s, 1),
   * whatever timer ran before: the old callback is discarded.
   */
  lemma StartFiresOnce<C>(t: Timer<C>, s: int, cb: C, n: nat)
    ensures forall k :: 0 <= k < n ==>
      Run(Start(t, s, cb), n).1[k] == if k + 1 == Max(s, 1) then Some(cb) else None
  {
    RunningFiresOnce(Start(t, s, cb), n);
  }

  /** A tick after a stop changes nothing. */
  lemma TickAfterStop<C>(t: Timer<C>)
    ensures Tick(Stop(t)) == (Stop(t), None)
  {
  }
}
