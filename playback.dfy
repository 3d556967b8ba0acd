/** The playback state machine of the session display
    (src/app/components/session-display/session-display.component.ts), as functions from one
    state to the next over the session's steps. `timer` says whether a one-second interval
    subscription is live; a `Tick` is one emission of that interval. */
module Playback {
  import opened Collections
  import opened Models

  datatype Player = Player(
    index: nat,        // currentPoseIndex
    remaining: nat,    // poseTimeRemaining, in seconds
    playing: bool,     // isPlaying
    paused: bool,      // isPaused
    complete: bool,    // isSessionComplete
    timer: bool)       // a live interval subscription

  /** The state right after a session is loaded (which resets it). */
  const Initial: Player := Player(0, 0, false, false, false, false)

  /** The states playback can reach: the index stays on a step (or at 0 when there is none),
      the countdown never exceeds the current step's duration, a live timer means playing
      and not paused, and only a playing session is paused. */
  predicate Valid(p: Player, ps: seq<SessionPose>) {
    && (if |ps| == 0 then p.index == 0 && p.remaining == 0 else p.index < |ps| && p.remaining <= ps[p.index].duration)
    && (p.timer ==> p.playing && !p.paused && p.index < |ps|)
    && (p.paused ==> p.playing)
  }

  /** The `currentPose` getter. */
  function CurrentPose(p: Player, ps: seq<SessionPose>): (r: Option<SessionPose>)
    ensures r.Some? <==> p.index < |ps|
    ensures r.Some? ==> r.value == ps[p.index]
  {
    if p.index >= |ps| then None else Some(ps[p.index])
  }

  function StopTimer(p: Player): Player {
    p.(timer := false)
  }

  /** Loads the current step's duration only when the countdown is at 0, then replaces any
      running interval by a fresh one; without a current step it does nothing. */
  function StartPoseTimer(p: Player, ps: seq<SessionPose>): Player {
    match CurrentPose(p, ps)
    case None => p
    case Some(current) =>
      var remaining := if p.remaining == 0 then current.duration else p.remaining;
      p.(remaining := remaining, timer := true)
  }

  function StartSession(p: Player, ps: seq<SessionPose>): Player {
    StartPoseTimer(p.(playing := true, paused := false), ps)
  }

  function TogglePause(p: Player, ps: seq<SessionPose>): Player {
    var q := p.(paused := !p.paused);
    if q.paused then StopTimer(q) else StartPoseTimer(q, ps)
  }

  function ToggleSession(p: Player, ps: seq<SessionPose>): Player {
    if !p.playing then StartSession(p, ps) else TogglePause(p, ps)
  }

  function NextPose(p: Player, ps: seq<SessionPose>): Player {
    if p.index >= |ps| - 1 then p
    else
      var q := p.(index := p.index + 1, remaining := 0);
      if q.playing && !q.paused then StartPoseTimer(q, ps) else q
  }

  function PreviousPose(p: Player, ps: seq<SessionPose>): Player {
    if p.index <= 0 then p
    else
      var q := p.(index := p.index - 1, remaining := 0);
      if q.playing && !q.paused then StartPoseTimer(q, ps) else q
  }

  function CompleteSession(p: Player): Player {
    StopTimer(p.(playing := false, complete := true))
  }

  function OnPoseComplete(p: Player, ps: seq<SessionPose>): Player {
    if p.index < |ps| - 1 then NextPose(p, ps) else CompleteSession(p)
  }

  /** One emission of the interval: when the countdown is over or playback is paused the
      subscription ends; otherwise the countdown drops by one and, on reaching 0, the step
      is complete. */
  function Tick(p: Player, ps: seq<SessionPose>): Player
    requires p.timer
  {
    if !(p.remaining > 0 && !p.paused) then p.(timer := false)
    else
      var q := p.(remaining := p.remaining - 1);
      if q.remaining == 0 then OnPoseComplete(q, ps) else q
  }

  function ResetSession(p: Player): Player {
    Initial
  }

  lemma InitialValid(ps: seq<SessionPose>)
    ensures Valid(Initial, ps)
  {
  }

  lemma StartPoseTimerValid(p: Player, ps: seq<SessionPose>)
    requires Valid(p, ps) && p.playing && !p.paused
    ensures Valid(StartPoseTimer(p, ps), ps)
  {
  }

  /** Every transition the user or the interval can cause keeps the state valid. */
  lemma TransitionsPreserveValid(p: Player, ps: seq<SessionPose>)
    requires Valid(p, ps)
    ensures Valid(ToggleSession(p, ps), ps)
    ensures Valid(NextPose(p, ps), ps)
    ensures Valid(PreviousPose(p, ps), ps)
    ensures p.timer ==> Valid(Tick(p, ps), ps)
    ensures Valid(ResetSession(p), ps)
    ensures Valid(StopTimer(p), ps)
  {
    if !p.playing {
      StartPoseTimerValid(p.(playing := true, paused := false), ps);
    } else if p.paused {
      StartPoseTimerValid(p.(paused := false), ps);
    }
    if p.index < |ps| - 1 && p.playing && !p.paused {
      StartPoseTimerValid(p.(index := p.index + 1, remaining := 0), ps);
    }
    if p.index > 0 && p.playing && !p.paused {
      StartPoseTimerValid(p.(index := p.index - 1, remaining := 0), ps);
    }
    if p.timer && p.remaining == 1 && p.index < |ps| - 1 {
      StartPoseTimerValid(p.(index := p.index + 1, remaining := 0), ps);
    }
  }

  /** Next moves one step forward and clears the countdown; it does nothing on the last step. */
  lemma NextPoseEffect(p: Player, ps: seq<SessionPose>)
    requires Valid(p, ps)
    ensures var q := NextPose(p, ps);
            && (p.index + 1 >= |ps| ==> q == p)
            && (p.index + 1 < |ps| ==>
                  && q.index == p.index + 1
                  && q.playing == p.playing && q.paused == p.paused && q.complete == p.complete
                  && q.remaining == (if p.playing && !p.paused then ps[q.index].duration else 0)
                  && q.timer == (p.playing && !p.paused))
  {
  }

  /** Previous moves one step back and clears the countdown; it does nothing on the first step. */
  lemma PreviousPoseEffect(p: Player, ps: seq<SessionPose>)
    requires Valid(p, ps)
    ensures var q := PreviousPose(p, ps);
            && (p.index == 0 ==> q == p)
            && (p.index > 0 ==>
                  && q.index == p.index - 1
                  && q.playing == p.playing && q.paused == p.paused && q.complete == p.complete
                  && q.remaining == (if p.playing && !p.paused then ps[q.index].duration else 0)
                  && q.timer == (p.playing && !p.paused))
  {
  }

  /**Away from the ends, Previous undoes Next and Next undoes Previous, up to the countdown. */
  lemma NextPreviousInverse(p: Player, ps: seq<SessionPose>)
    requires Valid(p, ps) && (!p.playing || p.paused)
    ensures p.index + 1 < |ps| ==> PreviousPose(NextPose(p, ps), ps) == p.(remaining := 0)
    ensures p.index > 0 ==> NextPose(PreviousPose(p, ps), ps) == p.(remaining := 0)
  {
  }

  /** Pausing stops the countdown where it is; resuming restarts the interval from that value. */
  lemma PauseThenResume(p: Player, ps: seq<SessionPose>)
    requires Valid(p, ps) && p.playing && !p.paused && p.remaining > 0
    ensures var paused := ToggleSession(p, ps);
            && paused == p.(paused := true, timer := false)
            && ToggleSession(paused, ps) == p.(timer := true)
  {
  }

  /** Starting (or restarting after the end) loads the current step's duration only when the
      countdown is at 0; a session that finished stays flagged complete while it replays its
      last step. */
  lemma StartEffect(p: Player, ps: seq<SessionPose>)
    requires Valid(p, ps) && !p.playing && |ps| > 0
    ensures var q := ToggleSession(p, ps);
            && q.playing && !q.paused && q.timer && q.index == p.index && q.complete == p.complete
            && q.remaining == (if p.remaining == 0 then ps[p.index].duration else p.remaining)
  {
  }

  /** A tick takes exactly one second off the countdown; at 0 it moves to the next step with
      that step's full duration, or ends the session after the last step. */
  lemma TickEffect(p: Player, ps: seq<SessionPose>)
    requires Valid(p, ps) && p.timer
    ensures p.remaining == 0 ==> Tick(p, ps) == p.(timer := false)
    ensures p.remaining > 1 ==> Tick(p, ps) == p.(remaining := p.remaining - 1)
    ensures p.remaining == 1 && p.index + 1 < |ps| ==>
              Tick(p, ps) == p.(index := p.index + 1, remaining := ps[p.index + 1].duration)
    ensures p.remaining == 1 && p.index + 1 == |ps| ==>
              Tick(p, ps) == p.(remaining := 0, playing := false, complete := true, timer := false)
  {
  }

  /** Resetting forgets everything, so a second reset changes nothing. */
  lemma ResetIdempotent(p: Player)
    ensures ResetSession(p) == Initial
    ensures ResetSession(ResetSession(p)) == ResetSession(p)
  {
  }

  /** `n` emissions of the interval, or fewer if the subscription ends first. */
  function Ticks(p: Player, ps: seq<SessionPose>, n: nat): Player
    decreases n
  {
    if n == 0 || !p.timer then p else Ticks(Tick(p, ps), ps, n - 1)
  }

  lemma {:induction false} TicksAdd(p: Player, ps: seq<SessionPose>, a: nat, b: nat)
    ensures Ticks(p, ps, a + b) == Ticks(Ticks(p, ps, a), ps, b)
    decreases a
  {
    if a > 0 && p.timer {
      TicksAdd(Tick(p, ps), ps, a - 1, b);
      assert a + b - 1 == (a - 1) + b;
    }
  }

  /** Playing step `i` with `r` seconds left. */
  function Running(i: nat, r: nat): Player {
    Player(i, r, true, false, false, true)
  }

  /** Where playback is once step `i` runs out: the next step, or the end. */
  function After(i: nat, ps: seq<SessionPose>): Player
    requires i < |ps|
  {
    if i + 1 < |ps| then Running(i + 1, ps[i + 1].duration)
    else Player(i, 0, false, false, true, false)
  }

  predicate PositiveDurations(ps: seq<SessionPose>) {
    forall k :: 0 <= k < |ps| ==> ps[k].duration > 0
  }

  /** Within one step the countdown drops by one per tick, and when it runs out the
      playback moves on. */
  lemma {:induction false} TicksWithinStep(ps: seq<SessionPose>, i: nat, r: nat, n: nat)
    requires i < |ps| && PositiveDurations(ps) && 0 < r && n <= r
    ensures Ticks(Running(i, r), ps, n) == if n < r then Running(i, r - n) else After(i, ps)
    decreases n
  {
    if n > 0 {
      if r > 1 {
        assert Tick(Running(i, r), ps) == Running(i, r - 1);
        TicksWithinStep(ps, i, r - 1, n - 1);
      } else {
        assert Tick(Running(i, r), ps) == After(i, ps);
        assert !After(i, ps).timer || n - 1 == 0;
      }
    }
  }

  /** Seconds taken by the steps before step `i`. */
  function Elapsed(ps: seq<SessionPose>, i: nat): nat
    requires i <= |ps|
  {
    TotalSeconds(ps[..i])
  }

  lemma ElapsedStep(ps: seq<SessionPose>, i: nat)
    requires i < |ps|
    ensures Elapsed(ps, i + 1) == Elapsed(ps, i) + ps[i].duration
  {
    assert ps[..i + 1] == ps[..i] + [ps[i]];
    TotalSecondsAppend(ps[..i], [ps[i]]);
  }

  /** Started from a freshly loaded state and left to run, step `i` begins after exactly
      the durations of the steps before it. */
  lemma {:induction false} StepStartsOnTime(ps: seq<SessionPose>, i: nat)
    requires PositiveDurations(ps) && i < |ps|
    ensures Ticks(ToggleSession(Initial, ps), ps, Elapsed(ps, i)) == Running(i, ps[i].duration)
    decreases i
  {
    var start := ToggleSession(Initial, ps);
    assert start == Running(0, ps[0].duration);
    if i > 0 {
      StepStartsOnTime(ps, i - 1);
      ElapsedStep(ps, i - 1);
      TicksAdd(start, ps, Elapsed(ps, i - 1), ps[i - 1].duration);
      TicksWithinStep(ps, i - 1, ps[i - 1].duration, ps[i - 1].duration);
    }
  }

  /** A session with no steps can still be started: it shows as playing, but there is no
      step to count down, so no interval runs and however long one waits it never
      completes. */
  lemma EmptySessionNeverCompletes(n: nat)
    ensures ToggleSession(Initial, []) == Player(0, 0, true, false, false, false)
    ensures Ticks(ToggleSession(Initial, []), [], n) == Player(0, 0, true, false, false, false)
  {
  }

  /** The full run: with every duration positive, start followed only by ticks shows step
      `i` exactly during the ticks from `Elapsed(i)` up to `Elapsed(i + 1)`, counting down
      from its duration, so the steps are visited in order, each once; after exactly the
      total duration the session is complete, and further ticks change nothing. */
  lemma FullRun(ps: seq<SessionPose>, i: nat, j: nat, extra: nat)
    requires PositiveDurations(ps) && |ps| > 0
    ensures i < |ps| && j < ps[i].duration ==>
              Ticks(ToggleSession(Initial, ps), ps, Elapsed(ps, i) + j) == Running(i, ps[i].duration - j)
    ensures Ticks(ToggleSession(Initial, ps), ps, TotalSeconds(ps) + extra)
         == Player(|ps| - 1, 0, false, false, true, false)
  {
    var start := ToggleSession(Initial, ps);
    if i < |ps| && j < ps[i].duration {
      StepStartsOnTime(ps, i);
      TicksAdd(start, ps, Elapsed(ps, i), j);
      TicksWithinStep(ps, i, ps[i].duration, j);
    }
    var last := |ps| - 1;
    StepStartsOnTime(ps, last);
    ElapsedStep(ps, last);
    assert ps[..|ps|] == ps;
    TicksAdd(start, ps, Elapsed(ps, last), ps[last].duration);
    TicksWithinStep(ps, last, ps[last].duration, ps[last].duration);
    TicksAdd(start, ps, TotalSeconds(ps), extra);
  }
}
