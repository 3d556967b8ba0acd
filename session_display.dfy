/** The session display component
    (src/app/components/session-display/session-display.component.ts) once its session has
    loaded: its playback fields, updated in place by the methods the page and the interval
    call, each proved to move the fields as the `Playback` functions say, and `formatTime`. */
module SessionDisplay {
  import opened Collections
  import opened Text
  import opened Models
  import opened Playback

  class SessionDisplayComponent {
    var session: YogaSession
    var currentPoseIndex: nat
    var poseTimeRemaining: nat
    var isPlaying: bool
    var isPaused: bool
    var isSessionComplete: bool
    /** Whether the interval subscription is live. */
    var timerActive: bool

    function State(): Player
      reads this
    {
      Player(currentPoseIndex, poseTimeRemaining, isPlaying, isPaused, isSessionComplete, timerActive)
    }

    predicate Valid()
      reads this
    {
      Playback.Valid(State(), session.poses)
    }

    /** `loadSession` once the lookup has found the session: store it and reset. */
    constructor(loaded: YogaSession)
      ensures session == loaded
      ensures State() == Initial && Valid()
    {
      session := loaded;
      currentPoseIndex := 0;
      poseTimeRemaining := 0;
      isPlaying := false;
      isPaused := false;
      isSessionComplete := false;
      timerActive := false;
      new;
      InitialValid(session.poses);
    }

    function CurrentPose(): (r: Option<SessionPose>)
      reads this
      ensures r.Some? <==> currentPoseIndex < |session.poses|
      ensures r.Some? ==> r.value == session.poses[currentPoseIndex]
    {
      Playback.CurrentPose(State(), session.poses)
    }

    method ToggleSession()
      requires Valid()
      modifies this
      ensures session == old(session)
      ensures State() == Playback.ToggleSession(old(State()), session.poses)
      ensures Valid()
    {
      TransitionsPreserveValid(State(), session.poses);
      if !isPlaying {
        StartSession();
      } else {
        TogglePause();
      }
    }

    method StartSession()
      modifies this
      ensures session == old(session)
      ensures State() == Playback.StartSession(old(State()), session.poses)
    {
      isPlaying := true;
      isPaused := false;
      StartPoseTimer();
    }

    method TogglePause()
      modifies this
      ensures session == old(session)
      ensures State() == Playback.TogglePause(old(State()), session.poses)
    {
      isPaused := !isPaused;
      if isPaused {
        StopTimer();
      } else {
        StartPoseTimer();
      }
    }

    method StartPoseTimer()
      modifies this
      ensures session == old(session)
      ensures State() == Playback.StartPoseTimer(old(State()), session.poses)
    {
      var current := CurrentPose();
      if current.None? {
        return;
      }
      if poseTimeRemaining == 0 {
        poseTimeRemaining := current.value.duration;
      }
      StopTimer();
      timerActive := true;
    }

    method StopTimer()
      modifies this
      ensures session == old(session)
      ensures State() == Playback.StopTimer(old(State()))
    {
      timerActive := false;
    }

    /** One emission of the one-second interval; it fires only while the subscription is live. */
    method Tick()
      requires Valid() && timerActive
      modifies this
      ensures session == old(session)
      ensures State() == Playback.Tick(old(State()), session.poses)
      ensures Valid()
    {
      TransitionsPreserveValid(State(), session.poses);
      if !(poseTimeRemaining > 0 && !isPaused) {
        timerActive := false;
        return;
      }
      poseTimeRemaining := poseTimeRemaining - 1;
      if poseTimeRemaining == 0 {
        OnPoseComplete();
      }
    }

    method OnPoseComplete()
      modifies this
      ensures session == old(session)
      ensures State() == Playback.OnPoseComplete(old(State()), session.poses)
    {
      if currentPoseIndex < |session.poses| - 1 {
        NextPose();
      } else {
        CompleteSession();
      }
    }

    method CompleteSession()
      modifies this
      ensures session == old(session)
      ensures State() == Playback.CompleteSession(old(State()))
    {
      isPlaying := false;
      isSessionComplete := true;
      StopTimer();
    }

    method NextPose()
      modifies this
      ensures session == old(session)
      ensures State() == Playback.NextPose(old(State()), session.poses)
      ensures old(Valid()) ==> Valid()
    {
      ghost var valid := Valid();
      if valid {
        TransitionsPreserveValid(State(), session.poses);
      }
      if currentPoseIndex >= |session.poses| - 1 {
        return;
      }
      currentPoseIndex := currentPoseIndex + 1;
      poseTimeRemaining := 0;
      if isPlaying && !isPaused {
        StartPoseTimer();
      }
    }

    method PreviousPose()
      modifies this
      ensures session == old(session)
      ensures State() == Playback.PreviousPose(old(State()), session.poses)
      ensures old(Valid()) ==> Valid()
    {
      ghost var valid := Valid();
      if valid {
        TransitionsPreserveValid(State(), session.poses);
      }
      if currentPoseIndex <= 0 {
        return;
      }
      currentPoseIndex := currentPoseIndex - 1;
      poseTimeRemaining := 0;
      if isPlaying && !isPaused {
        StartPoseTimer();
      }
    }

    method ResetSession()
      modifies this
      ensures session == old(session)
      ensures State() == Playback.ResetSession(old(State()))
      ensures Valid()
    {
      currentPoseIndex := 0;
      isPlaying := false;
      isPaused := false;
      isSessionComplete := false;
      poseTimeRemaining := 0;
      StopTimer();
      InitialValid(session.poses);
    }

    /** `ngOnDestroy`: the interval is cancelled, nothing else changes. */
    method Destroy()
      modifies this
      ensures session == old(session)
      ensures State() == Playback.StopTimer(old(State()))
    {
      StopTimer();
    }
  }

  /** `formatTime`: whole minutes, a colon, then the seconds padded to two digits. */
  function FormatTime(seconds: nat): (r: string)
    ensures |r| >= 4 && r[|r| - 3] == ':'
    ensures AllDigits(r[..|r| - 3]) && AllDigits(r[|r| - 2..])
    ensures DigitsValue(r[|r| - 2..]) < 60
    ensures 60 * DigitsValue(r[..|r| - 3]) + DigitsValue(r[|r| - 2..]) == seconds
    ensures r[..|r| - 3] == NatToString(seconds / 60)
  {
    var mins := NatToString(seconds / 60);
    var secs := Pad2(seconds % 60);
    var r := mins + ":" + secs;
    assert r[..|r| - 3] == mins && r[|r| - 2..] == secs;
    NatToStringRoundTrip(seconds / 60);
    r
  }

  /** Reads `"<digits>:<two digits below 60>"` back as a number of seconds. */
  function ParseTime(t: string): Option<nat> {
    match IndexOf(t, ':')
    case None => None
    case Some(i) =>
      var mins := t[..i];
      var secs := t[i + 1..];
      if |mins| >= 1 && AllDigits(mins) && |secs| == 2 && AllDigits(secs) && DigitsValue(secs) < 60
      then Some(60 * DigitsValue(mins) + DigitsValue(secs))
      else None
  }

  /** Reading a formatted time back gives the seconds it was made from. */
  lemma FormatTimeRoundTrip(seconds: nat)
    ensures ParseTime(FormatTime(seconds)) == Some(seconds)
  {
    var mins := NatToString(seconds / 60);
    var secs := Pad2(seconds % 60);
    assert ':' !in mins;
    IndexOfJoin(mins, ':', secs);
    var t := mins + [':'] + secs;
    assert t == FormatTime(seconds);
    assert t[..|mins|] == mins && t[|mins| + 1..] == secs;
    NatToStringRoundTrip(seconds / 60);
  }

  /** Different durations are shown differently. */
  lemma FormatTimeInjective(a: nat, b: nat)
    requires FormatTime(a) == FormatTime(b)
    ensures a == b
  {
    FormatTimeRoundTrip(a);
    FormatTimeRoundTrip(b);
  }
}
