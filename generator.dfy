/** Session generation in src/app/services/yoga.service.ts: the eligibility gates, the
    per-phase greedy packing and the three-phase flow with its closing Savasana.

    The two uses of `Math.random` are inputs here: the shuffle of a phase's candidates is
    any permutation of them the caller supplies, and each transition phrase is chosen by
    a supplied index into the phase's three phrases. */
module Generator {
  import opened Collections
  import opened Text
  import opened Models

  // ----- Level gate -----

  function LevelRank(d: Difficulty): nat {
    match d
    case Beginner => 1
    case Intermediate => 2
    case Advanced => 3
  }

  /** Beginners get beginner poses only; everyone else may go one rank above their own,
      which with three ranks admits every pose. */
  function IsLevelAppropriate(poseLevel: Difficulty, userLevel: Level): (ok: bool)
    ensures ok <==> (userLevel == Beginner ==> poseLevel == Beginner)
  {
    LevelRank(poseLevel) <= LevelRank(userLevel) + (if userLevel == Beginner then 0 else 1)
  }

  // ----- Goal gate -----

  /** The service's goal -> categories table. */
  function GoalCategories(goal: Goal): seq<Category> {
    match goal
    case Relaxation => [Category.Relaxation, Stretching]
    case Energy => [Strengthening, Cardio]
    case Strength => [Strengthening, Core]
    case Flexibility => [Stretching]
    case Balance => [Balancing]
    case Focus => [Balancing, Category.Relaxation]
  }

  /** The same table read from the category side: which goals a category serves. */
  function GoalsServedBy(c: Category): set<Goal> {
    match c
    case Strengthening => {Energy, Strength}
    case Stretching => {Goal.Relaxation, Flexibility}
    case Balancing => {Balance, Focus}
    case Relaxation => {Goal.Relaxation, Focus}
    case Core => {Strength}
    case Cardio => {Energy}
  }

  function DoesPoseMatchGoal(pose: YogaPose, goal: Goal): (ok: bool)
    ensures ok <==> goal in GoalsServedBy(pose.category)
  {
    pose.category in GoalCategories(goal)
  }

  // ----- Focus gate and the combined filter -----

  /** Some target, lowercased, contains some requested area, lowercased. */
  predicate FocusMatch(pose: YogaPose, areas: seq<string>) {
    exists area :: area in areas &&
      exists target :: target in pose.targets && Includes(ToLower(target), ToLower(area))
  }

  /** Warm-up and cool-down poses are exempt from the focus and goal gates. */
  predicate IsExempt(t: PoseType) {
    t == WarmUp || t == CoolDown
  }

  /** The predicate `filterPosesByInput` keeps a pose by. */
  predicate Admits(input: UserInput, pose: YogaPose) {
    && IsLevelAppropriate(pose.difficulty, input.level)
    && (|input.focusAreas| > 0 ==> FocusMatch(pose, input.focusAreas) || IsExempt(pose.poseType))
    && (input.goal.Some? ==> DoesPoseMatchGoal(pose, input.goal.value) || IsExempt(pose.poseType))
  }

  function FilterPosesByInput(poses: seq<YogaPose>, input: UserInput): (r: seq<YogaPose>)
    ensures IsSubsequence(r, poses)
    ensures forall p :: p in r <==> p in poses && Admits(input, p)
  {
    var admits := (p: YogaPose) => Admits(input, p);
    FilterIsSubsequence(poses, admits);
    FilterMembership(poses, admits);
    Filter(poses, admits)
  }

  /** Exempt poses face the level gate and nothing else. */
  lemma ExemptPosesPassOnLevelAlone(poses: seq<YogaPose>, input: UserInput, pose: YogaPose)
    requires pose in poses && IsExempt(pose.poseType)
    ensures pose in FilterPosesByInput(poses, input) <==> IsLevelAppropriate(pose.difficulty, input.level)
  {
  }

  /** No pose escapes the level gate. */
  lemma FilterRespectsLevel(poses: seq<YogaPose>, input: UserInput, pose: YogaPose)
    requires pose in FilterPosesByInput(poses, input)
    ensures IsLevelAppropriate(pose.difficulty, input.level)
    ensures input.level == Beginner ==> pose.difficulty == Beginner
  {
  }

  /** Without focus areas and without a goal only the level gate applies. */
  lemma UngatedInputFiltersByLevel(poses: seq<YogaPose>, input: UserInput)
    requires input.focusAreas == [] && input.goal.None?
    ensures forall p :: p in FilterPosesByInput(poses, input) <==>
                        p in poses && IsLevelAppropriate(p.difficulty, input.level)
  {
  }

  // ----- Phase candidates -----

  function PhasePoses(poses: seq<YogaPose>, phase: FlowPhase): (r: seq<YogaPose>)
    ensures forall p :: p in r <==> p in poses && p.poseType in phase.poseTypes
  {
    var eligible := (p: YogaPose) => p.poseType in phase.poseTypes;
    FilterMembership(poses, eligible);
    Filter(poses, eligible)
  }

  predicate IsGentle(p: YogaPose) {
    p.poseType == WarmUp || p.difficulty == Beginner
  }

  /** For the warm-up phase, the candidates narrowed to gentle poses when there are any. */
  function WarmUpPreference(poses: seq<YogaPose>, phaseName: string): (r: seq<YogaPose>)
    ensures forall p :: p in r ==> p in poses
    ensures phaseName == "Warm-up" && (exists p :: p in poses && IsGentle(p)) ==>
              forall p :: p in r ==> IsGentle(p)
    ensures phaseName == "Warm-up" ==> forall p :: p in poses && IsGentle(p) ==> p in r
    ensures phaseName == "Warm-up" && (forall p :: p in poses ==> !IsGentle(p)) ==> r == poses
    ensures phaseName != "Warm-up" ==> r == poses
    ensures IsSubsequence(r, poses)
  {
    FilterMembership(poses, IsGentle);
    FilterIsSubsequence(poses, IsGentle);
    SubsequenceReflexive(poses);
    if phaseName == "Warm-up" then
      var gentle := Filter(poses, IsGentle);
      if |gentle| > 0 then assert gentle[0] in gentle; gentle else poses
    else poses
  }

  /** The Warm-up phase admits warm-up poses only, which are all gentle: the preference
      never narrows anything. */
  lemma WarmUpPreferenceChangesNothing(poses: seq<YogaPose>)
    ensures var candidates := PhasePoses(poses, FlowPhases[0]);
            WarmUpPreference(candidates, FlowPhases[0].name) == candidates
  {
    var candidates := PhasePoses(poses, FlowPhases[0]);
    FilterKeepsAll(candidates, IsGentle);
  }

  // ----- Transitions -----

  /** The outcome of `Math.floor(Math.random() * 3)`. */
  newtype PhraseIndex = k: int | 0 <= k < 3

  /** The transition table; an unknown phase name falls back to the Main Practice row. */
  function TransitionPhrases(phaseName: string): (r: seq<string>)
    ensures |r| == 3
    ensures forall i, j :: 0 <= i < j < 3 ==> r[i] != r[j]
  {
    if phaseName == "Warm-up" then
      ["Take a deep breath as you move into this pose",
       "Move slowly and mindfully",
       "Listen to your body"]
    else if phaseName == "Cool Down" then
      ["Soften into this pose",
       "Let your body relax",
       "Release any tension"]
    else
      ["Engage your core as you transition",
       "Use your breath to guide the movement",
       "Find stability before deepening"]
  }

  function GenerateTransition(phaseName: string, pick: PhraseIndex): (r: string)
    ensures r in TransitionPhrases(phaseName)
  {
    TransitionPhrases(phaseName)[pick]
  }

  // ----- Per-phase packing -----

  function Min(a: int, b: int): int {
    if a <= b then a else b
  }

  /** Each step lasts at least 30 s, at most its pose's base time and at most `limit`. */
  predicate StepsWithin(steps: seq<SessionPose>, limit: int) {
    forall i :: 0 <= i < |steps| ==>
      30 <= steps[i].duration <= steps[i].pose.durationS && steps[i].duration <= limit
  }

  /** The walk of `selectPosesForPhase` over an already shuffled candidate list: take
      `min(base, remaining)` seconds of each pose, skip a pose that would get under 30 s,
      stop once no time remains.
      There are never more steps than candidates. */
  function Pack(shuffled: seq<YogaPose>, picks: seq<PhraseIndex>, remaining: int, phaseName: string): (r: seq<SessionPose>)
    requires |picks| == |shuffled|
    ensures |r| <= |shuffled|
    decreases |shuffled|
  {
    if shuffled == [] || remaining <= 0 then []
    else
      var duration := Min(shuffled[0].durationS, remaining);
      if duration >= 30 then
        [Entry(shuffled[0], duration, GenerateTransition(phaseName, picks[0]))]
          + Pack(shuffled[1..], picks[1..], remaining - duration, phaseName)
      else
        Pack(shuffled[1..], picks[1..], remaining, phaseName)
  }

  /** Every packed step lasts at least 30 s, no longer than its pose's base time and no
      longer than the phase's time. */
  lemma {:induction false} PackStepBounds(shuffled: seq<YogaPose>, picks: seq<PhraseIndex>, remaining: int, phaseName: string)
    requires |picks| == |shuffled|
    ensures StepsWithin(Pack(shuffled, picks, remaining, phaseName), remaining)
    decreases |shuffled|
  {
    if shuffled != [] && remaining > 0 {
      var duration := Min(shuffled[0].durationS, remaining);
      if duration >= 30 {
        var step := Entry(shuffled[0], duration, GenerateTransition(phaseName, picks[0]));
        var rest := Pack(shuffled[1..], picks[1..], remaining - duration, phaseName);
        PackStepBounds(shuffled[1..], picks[1..], remaining - duration, phaseName);
        var r := [step] + rest;
        assert r == Pack(shuffled, picks, remaining, phaseName);
        forall i | 0 <= i < |r|
          ensures 30 <= r[i].duration <= r[i].pose.durationS && r[i].duration <= remaining
        {
          if i > 0 {
            assert r[i] == rest[i - 1];
          }
        }
      } else {
        PackStepBounds(shuffled[1..], picks[1..], remaining, phaseName);
      }
    }
  }

  /** Each step carries one of the phase's phrases. */
  predicate PhrasedBy(steps: seq<SessionPose>, phaseName: string) {
    forall i :: 0 <= i < |steps| ==>
      steps[i].transition.Some? && steps[i].transition.value in TransitionPhrases(phaseName)
  }

  lemma {:induction false} PackTransitions(shuffled: seq<YogaPose>, picks: seq<PhraseIndex>, remaining: int, phaseName: string)
    requires |picks| == |shuffled|
    ensures PhrasedBy(Pack(shuffled, picks, remaining, phaseName), phaseName)
    decreases |shuffled|
  {
    if shuffled != [] && remaining > 0 {
      var duration := Min(shuffled[0].durationS, remaining);
      if duration >= 30 {
        var step := Entry(shuffled[0], duration, GenerateTransition(phaseName, picks[0]));
        var rest := Pack(shuffled[1..], picks[1..], remaining - duration, phaseName);
        PackTransitions(shuffled[1..], picks[1..], remaining - duration, phaseName);
        var r := [step] + rest;
        assert r == Pack(shuffled, picks, remaining, phaseName);
        forall i | 0 <= i < |r|
          ensures r[i].transition.Some? && r[i].transition.value in TransitionPhrases(phaseName)
        {
          if i > 0 {
            assert r[i] == rest[i - 1];
          }
        }
      } else {
        PackTransitions(shuffled[1..], picks[1..], remaining, phaseName);
      }
    }
  }

  /** The packed steps never exceed the phase's time; with no time, nothing is packed. */
  lemma {:induction false} PackBudget(shuffled: seq<YogaPose>, picks: seq<PhraseIndex>, remaining: int, phaseName: string)
    requires |picks| == |shuffled|
    ensures remaining <= 0 ==> Pack(shuffled, picks, remaining, phaseName) == []
    ensures remaining >= 0 ==> TotalSeconds(Pack(shuffled, picks, remaining, phaseName)) <= remaining
    decreases |shuffled|
  {
    if shuffled != [] && remaining > 0 {
      var duration := Min(shuffled[0].durationS, remaining);
      if duration >= 30 {
        var step := Entry(shuffled[0], duration, GenerateTransition(phaseName, picks[0]));
        var rest := Pack(shuffled[1..], picks[1..], remaining - duration, phaseName);
        PackBudget(shuffled[1..], picks[1..], remaining - duration, phaseName);
        TotalSecondsAppend([step], rest);
        assert TotalSeconds([step]) == duration;
      } else {
        PackBudget(shuffled[1..], picks[1..], remaining, phaseName);
      }
    }
  }

  /** The steps follow the shuffled order. */
  lemma {:induction false} PackSubsequence(shuffled: seq<YogaPose>, picks: seq<PhraseIndex>, remaining: int, phaseName: string)
    requires |picks| == |shuffled|
    ensures IsSubsequence(PosesOf(Pack(shuffled, picks, remaining, phaseName)), shuffled)
    decreases |shuffled|
  {
    var r := Pack(shuffled, picks, remaining, phaseName);
    if shuffled == [] || remaining <= 0 {
      assert r == [];
    } else {
      var duration := Min(shuffled[0].durationS, remaining);
      if duration >= 30 {
        var step := Entry(shuffled[0], duration, GenerateTransition(phaseName, picks[0]));
        var rest := Pack(shuffled[1..], picks[1..], remaining - duration, phaseName);
        assert r == [step] + rest;
        PackSubsequence(shuffled[1..], picks[1..], remaining - duration, phaseName);
        assert PosesOf(r) == [shuffled[0]] + PosesOf(rest);
        assert PosesOf(r)[1..] == PosesOf(rest);
      } else {
        assert r == Pack(shuffled[1..], picks[1..], remaining, phaseName);
        PackSubsequence(shuffled[1..], picks[1..], remaining, phaseName);
        SubsequenceSkip(PosesOf(r), shuffled[0], shuffled[1..]);
        assert shuffled == [shuffled[0]] + shuffled[1..];
      }
    }
  }

  /** The steps follow the shuffled order and use each candidate at most once. */
  lemma PackOrder(shuffled: seq<YogaPose>, picks: seq<PhraseIndex>, remaining: int, phaseName: string)
    requires |picks| == |shuffled|
    ensures var r := Pack(shuffled, picks, remaining, phaseName);
            IsSubsequence(PosesOf(r), shuffled) && multiset(PosesOf(r)) <= multiset(shuffled)
  {
    var r := Pack(shuffled, picks, remaining, phaseName);
    PackSubsequence(shuffled, picks, remaining, phaseName);
    SubsequenceMultiset(PosesOf(r), shuffled);
  }

  /** The walk is maximal: if 30 s or more are left over, every candidate with a base time
      of 30 s or more was scheduled. */
  lemma {:induction false} PackUsesEveryFittingPose(shuffled: seq<YogaPose>, picks: seq<PhraseIndex>, remaining: int, phaseName: string)
    requires |picks| == |shuffled|
    requires remaining - TotalSeconds(Pack(shuffled, picks, remaining, phaseName)) >= 30
    ensures forall p :: p in shuffled && p.durationS >= 30 ==> p in PosesOf(Pack(shuffled, picks, remaining, phaseName))
    decreases |shuffled|
  {
    var r := Pack(shuffled, picks, remaining, phaseName);
    if shuffled != [] {
      var duration := Min(shuffled[0].durationS, remaining);
      if duration >= 30 {
        var step := Entry(shuffled[0], duration, GenerateTransition(phaseName, picks[0]));
        var rest := Pack(shuffled[1..], picks[1..], remaining - duration, phaseName);
        assert r == [step] + rest;
        assert TotalSeconds(r) == duration + TotalSeconds(rest) by {
          TotalSecondsAppend([step], rest);
          assert TotalSeconds([step]) == duration;
        }
        PackUsesEveryFittingPose(shuffled[1..], picks[1..], remaining - duration, phaseName);
        assert PosesOf(r) == [shuffled[0]] + PosesOf(rest);
        forall p | p in shuffled && p.durationS >= 30
          ensures p in PosesOf(r)
        {
          if p != shuffled[0] {
            assert p in shuffled[1..];
          }
        }
      } else {
        assert r == Pack(shuffled[1..], picks[1..], remaining, phaseName);
        PackUsesEveryFittingPose(shuffled[1..], picks[1..], remaining, phaseName);
        forall p | p in shuffled && p.durationS >= 30
          ensures p in PosesOf(r)
        {
          assert p != shuffled[0];
          assert p in shuffled[1..];
        }
      }
    }
  }

  /** One step of the walk, seen from position `i` of the shuffled list. */
  lemma PackAdvance(shuffled: seq<YogaPose>, picks: seq<PhraseIndex>, i: nat, remaining: int, phaseName: string)
    requires |picks| == |shuffled| && i < |shuffled| && remaining > 0
    ensures var duration := Min(shuffled[i].durationS, remaining);
            Pack(shuffled[i..], picks[i..], remaining, phaseName)
            == if duration >= 30
               then [Entry(shuffled[i], duration, GenerateTransition(phaseName, picks[i]))]
                    + Pack(shuffled[i + 1..], picks[i + 1..], remaining - duration, phaseName)
               else Pack(shuffled[i + 1..], picks[i + 1..], remaining, phaseName)
  {
    assert shuffled[i..][1..] == shuffled[i + 1..] && picks[i..][1..] == picks[i + 1..];
  }

  /** `selectPosesForPhase`: `shuffled` is the random reordering of the (for Warm-up,
      narrowed) candidates and `picks` the random phrase choices, one per candidate. */
  method SelectPosesForPhase(poses: seq<YogaPose>, phaseDuration: int, phaseName: string,
                             shuffled: seq<YogaPose>, picks: seq<PhraseIndex>)
    returns (sessionPoses: seq<SessionPose>)
    requires multiset(shuffled) == multiset(WarmUpPreference(poses, phaseName))
    requires |picks| == |shuffled|
    ensures sessionPoses == Pack(shuffled, picks, phaseDuration, phaseName)
    ensures StepsWithin(sessionPoses, phaseDuration)
    ensures phaseDuration >= 0 ==> TotalSeconds(sessionPoses) <= phaseDuration
    ensures IsSubsequence(PosesOf(sessionPoses), shuffled)
  {
    sessionPoses := [];
    var remainingTime := phaseDuration;
    var i := 0;
    while i < |shuffled|
      invariant 0 <= i <= |shuffled|
      invariant sessionPoses + Pack(shuffled[i..], picks[i..], remainingTime, phaseName)
                == Pack(shuffled, picks, phaseDuration, phaseName)
    {
      if remainingTime <= 0 {
        break;
      }
      var pose := shuffled[i];
      var duration := Min(pose.durationS, remainingTime);
      ghost var todo := Pack(shuffled[i..], picks[i..], remainingTime, phaseName);
      PackAdvance(shuffled, picks, i, remainingTime, phaseName);
      if duration >= 30 {
        var step := Entry(pose, duration, GenerateTransition(phaseName, picks[i]));
        ghost var rest := Pack(shuffled[i + 1..], picks[i + 1..], remainingTime - duration, phaseName);
        assert todo == [step] + rest;
        assert sessionPoses + todo == (sessionPoses + [step]) + rest;
        sessionPoses := sessionPoses + [step];
        remainingTime := remainingTime - duration;
      } else {
        assert todo == Pack(shuffled[i + 1..], picks[i + 1..], remainingTime, phaseName);
      }
      i := i + 1;
    }
    assert Pack(shuffled[i..], picks[i..], remainingTime, phaseName) == [];
    PackStepBounds(shuffled, picks, phaseDuration, phaseName);
    PackBudget(shuffled, picks, phaseDuration, phaseName);
    PackOrder(shuffled, picks, phaseDuration, phaseName);
  }

  // ----- The three-phase flow -----

  /** Seconds a phase gets: `Math.floor(total * percentage / 100)`. */
  function Share(total: nat, percentage: nat): nat {
    total * percentage / 100
  }

  /** With the total a whole number of minutes, the 15/70/15 shares are exact and add up
      to the total: 9, 42 and 9 seconds per minute. */
  lemma PhaseSharesExact(minutes: nat)
    ensures Share(minutes * 60, FlowPhases[0].durationPercentage) == 9 * minutes
    ensures Share(minutes * 60, FlowPhases[1].durationPercentage) == 42 * minutes
    ensures Share(minutes * 60, FlowPhases[2].durationPercentage) == 9 * minutes
    ensures Share(minutes * 60, FlowPhases[0].durationPercentage)
          + Share(minutes * 60, FlowPhases[1].durationPercentage)
          + Share(minutes * 60, FlowPhases[2].durationPercentage) == minutes * 60
  {
    assert minutes * 60 * 15 == (9 * minutes) * 100;
    assert minutes * 60 * 70 == (42 * minutes) * 100;
  }

  /** The candidates phase `k` shuffles: its eligible poses, narrowed for Warm-up. */
  function PhaseCandidates(poses: seq<YogaPose>, k: nat): seq<YogaPose>
    requires k < |FlowPhases|
  {
    WarmUpPreference(PhasePoses(poses, FlowPhases[k]), FlowPhases[k].name)
  }

  /** The random choices of one generation: a reordering of each phase's candidates and
      one phrase choice per candidate. */
  datatype Randomness = Randomness(shuffles: seq<seq<YogaPose>>, picks: seq<seq<PhraseIndex>>)

  predicate FitsRandomness(rnd: Randomness, poses: seq<YogaPose>) {
    && |rnd.shuffles| == |FlowPhases|
    && |rnd.picks| == |FlowPhases|
    && forall k :: 0 <= k < |FlowPhases| ==>
         && multiset(rnd.shuffles[k]) == multiset(PhaseCandidates(poses, k))
         && |rnd.picks[k]| == |rnd.shuffles[k]|
  }

  /** The steps phase `k` contributes; a phase with no eligible pose contributes none. */
  function PhaseEntries(poses: seq<YogaPose>, total: nat, rnd: Randomness, k: nat): seq<SessionPose>
    requires FitsRandomness(rnd, poses) && k < |FlowPhases|
  {
    if |PhasePoses(poses, FlowPhases[k])| > 0 then
      Pack(rnd.shuffles[k], rnd.picks[k], Share(total, FlowPhases[k].durationPercentage), FlowPhases[k].name)
    else []
  }

  /** The steps of the first `n` phases, in phase order. */
  function PhasesUpTo(poses: seq<YogaPose>, total: nat, rnd: Randomness, n: nat): seq<SessionPose>
    requires FitsRandomness(rnd, poses) && n <= |FlowPhases|
  {
    if n == 0 then [] else PhasesUpTo(poses, total, rnd, n - 1) + PhaseEntries(poses, total, rnd, n - 1)
  }

  predicate IsSavasana(p: YogaPose) {
    p.id == "savasana"
  }

  predicate StepIsSavasana(sp: SessionPose) {
    IsSavasana(sp.pose)
  }

  const SavasanaTransition: string := "Rest and integrate your practice"

  /** `Math.min(300, Math.floor(total * 0.1))`. */
  function SavasanaDuration(total: nat): nat {
    if total / 10 < 300 then total / 10 else 300
  }

  /** Appends the first Savasana of `poses` unless the steps already hold one. */
  function WithSavasana(poses: seq<YogaPose>, steps: seq<SessionPose>, total: nat): (r: seq<SessionPose>)
    ensures |steps| <= |r| <= |steps| + 1 && r[..|steps|] == steps
    ensures |r| > |steps| <==>
              (exists p :: p in poses && IsSavasana(p)) && forall i :: 0 <= i < |steps| ==> !StepIsSavasana(steps[i])
    ensures |r| > |steps| ==>
              && IsSavasana(r[|steps|].pose)
              && (exists k :: 0 <= k < |poses| && poses[k] == r[|steps|].pose &&
                    forall j :: 0 <= j < k ==> !IsSavasana(poses[j]))
              && r[|steps|] == Entry(r[|steps|].pose, SavasanaDuration(total), SavasanaTransition)
  {
    match Find(poses, IsSavasana)
    case Some(savasana) =>
      if Any(steps, StepIsSavasana) then steps
      else steps + [Entry(savasana, SavasanaDuration(total), SavasanaTransition)]
    case None => steps
  }

  /** `createSessionFlow` over the filtered poses. */
  function SessionFlow(poses: seq<YogaPose>, input: UserInput, rnd: Randomness): (r: seq<SessionPose>)
    requires FitsRandomness(rnd, poses)
    ensures var phases := PhasesUpTo(poses, input.duration * 60, rnd, |FlowPhases|);
            |phases| <= |r| <= |phases| + 1 && r[..|phases|] == phases
  {
    var total := input.duration * 60;
    WithSavasana(poses, PhasesUpTo(poses, total, rnd, |FlowPhases|), total)
  }

  method CreateSessionFlow(poses: seq<YogaPose>, input: UserInput, rnd: Randomness)
    returns (sessionPoses: seq<SessionPose>)
    requires FitsRandomness(rnd, poses)
    ensures sessionPoses == SessionFlow(poses, input, rnd)
  {
    sessionPoses := [];
    var totalDurationSeconds := input.duration * 60;
    for k := 0 to |FlowPhases|
      invariant sessionPoses == PhasesUpTo(poses, totalDurationSeconds, rnd, k)
    {
      var phase := FlowPhases[k];
      var phaseDuration := Share(totalDurationSeconds, phase.durationPercentage);
      var phasePoses := PhasePoses(poses, phase);
      if |phasePoses| > 0 {
        var selected := SelectPosesForPhase(phasePoses, phaseDuration, phase.name, rnd.shuffles[k], rnd.picks[k]);
        sessionPoses := sessionPoses + selected;
      }
    }
    var savasana := Find(poses, IsSavasana);
    if savasana.Some? && !Any(sessionPoses, StepIsSavasana) {
      sessionPoses := sessionPoses + [Entry(savasana.value, SavasanaDuration(totalDurationSeconds), SavasanaTransition)];
    }
  }

  // ----- Properties of the flow -----

  /** Phase `k`'s steps are drawn from that phase's eligible poses. */
  lemma PhaseEntriesFromPhase(poses: seq<YogaPose>, total: nat, rnd: Randomness, k: nat)
    requires FitsRandomness(rnd, poses) && k < |FlowPhases|
    ensures var steps := PhaseEntries(poses, total, rnd, k);
            forall i :: 0 <= i < |steps| ==> steps[i].pose in PhasePoses(poses, FlowPhases[k])
  {
    var steps := PhaseEntries(poses, total, rnd, k);
    if |PhasePoses(poses, FlowPhases[k])| > 0 {
      var share := Share(total, FlowPhases[k].durationPercentage);
      PackOrder(rnd.shuffles[k], rnd.picks[k], share, FlowPhases[k].name);
      forall i | 0 <= i < |steps| ensures steps[i].pose in PhasePoses(poses, FlowPhases[k]) {
        assert PosesOf(steps)[i] == steps[i].pose;
        SubsequenceMembership(PosesOf(steps), rnd.shuffles[k], steps[i].pose);
        assert steps[i].pose in multiset(rnd.shuffles[k]);
      }
    }
  }

  /** Phase `k`'s steps each last at least 30 s and at most their pose's base time, and
      together fit in the phase's share. */
  lemma PhaseEntriesBounds(poses: seq<YogaPose>, total: nat, rnd: Randomness, k: nat)
    requires FitsRandomness(rnd, poses) && k < |FlowPhases|
    ensures var steps := PhaseEntries(poses, total, rnd, k);
            && (forall i :: 0 <= i < |steps| ==> 30 <= steps[i].duration <= steps[i].pose.durationS)
            && TotalSeconds(steps) <= Share(total, FlowPhases[k].durationPercentage)
  {
    var share := Share(total, FlowPhases[k].durationPercentage);
    PackStepBounds(rnd.shuffles[k], rnd.picks[k], share, FlowPhases[k].name);
    PackBudget(rnd.shuffles[k], rnd.picks[k], share, FlowPhases[k].name);
  }

  /** The seconds the first `n` phases get together. */
  function SharesUpTo(total: nat, n: nat): nat
    requires n <= |FlowPhases|
  {
    if n == 0 then 0 else SharesUpTo(total, n - 1) + Share(total, FlowPhases[n - 1].durationPercentage)
  }

  /** The steps of the first `n` phases come from the poses and each lasts 30 s to its
      base time. */
  lemma {:induction false} PhasesUpToSteps(poses: seq<YogaPose>, total: nat, rnd: Randomness, n: nat)
    requires FitsRandomness(rnd, poses) && n <= |FlowPhases|
    ensures StepsFrom(PhasesUpTo(poses, total, rnd, n), poses)
  {
    if n > 0 {
      var prev := PhasesUpTo(poses, total, rnd, n - 1);
      var cur := PhaseEntries(poses, total, rnd, n - 1);
      PhasesUpToSteps(poses, total, rnd, n - 1);
      PhaseEntriesBounds(poses, total, rnd, n - 1);
      PhaseEntriesFromPhase(poses, total, rnd, n - 1);
      assert PhasesUpTo(poses, total, rnd, n) == prev + cur;
      StepsFromAppend(prev, cur, poses);
    }
  }

  /** The first `n` phases never run past their summed shares. */
  lemma {:induction false} PhasesUpToBudget(poses: seq<YogaPose>, total: nat, rnd: Randomness, n: nat)
    requires FitsRandomness(rnd, poses) && n <= |FlowPhases|
    ensures TotalSeconds(PhasesUpTo(poses, total, rnd, n)) <= SharesUpTo(total, n)
  {
    if n > 0 {
      var prev := PhasesUpTo(poses, total, rnd, n - 1);
      var cur := PhaseEntries(poses, total, rnd, n - 1);
      PhasesUpToBudget(poses, total, rnd, n - 1);
      PhaseEntriesBounds(poses, total, rnd, n - 1);
      assert PhasesUpTo(poses, total, rnd, n) == prev + cur;
      TotalSecondsAppend(prev, cur);
    }
  }

  /** Each step uses one of `poses` and lasts 30 s to its pose's base time. */
  predicate StepsFrom(steps: seq<SessionPose>, poses: seq<YogaPose>) {
    forall i :: 0 <= i < |steps| ==> steps[i].pose in poses && 30 <= steps[i].duration <= steps[i].pose.durationS
  }

  lemma StepsFromAppend(a: seq<SessionPose>, b: seq<SessionPose>, poses: seq<YogaPose>)
    requires StepsFrom(a, poses) && StepsFrom(b, poses)
    ensures StepsFrom(a + b, poses)
  {
    forall i | 0 <= i < |a + b|
      ensures (a + b)[i].pose in poses && 30 <= (a + b)[i].duration <= (a + b)[i].pose.durationS
    {
      if i >= |a| {
        assert (a + b)[i] == b[i - |a|];
      }
    }
  }

  /** The three phases together never run past the requested duration. */
  lemma PhasesFitDuration(poses: seq<YogaPose>, input: UserInput, rnd: Randomness)
    requires FitsRandomness(rnd, poses)
    ensures TotalSeconds(PhasesUpTo(poses, input.duration * 60, rnd, |FlowPhases|)) <= input.duration * 60
  {
    var total := input.duration * 60;
    PhasesUpToBudget(poses, total, rnd, |FlowPhases|);
    PhaseSharesExact(input.duration);
    assert SharesUpTo(total, 1) == Share(total, FlowPhases[0].durationPercentage);
    assert SharesUpTo(total, 2) == SharesUpTo(total, 1) + Share(total, FlowPhases[1].durationPercentage);
    assert SharesUpTo(total, 3) == SharesUpTo(total, 2) + Share(total, FlowPhases[2].durationPercentage);
  }

  /** The closing-pose rule. Savasana is looked up among the poses given (the filtered
      ones), and is appended, last, with `min(300, total/10)` seconds only when none of
      the phases already scheduled it. */
  lemma SavasanaRule(poses: seq<YogaPose>, input: UserInput, rnd: Randomness)
    requires FitsRandomness(rnd, poses)
    ensures var total := input.duration * 60;
            var phases := PhasesUpTo(poses, total, rnd, |FlowPhases|);
            var flow := SessionFlow(poses, input, rnd);
            && ((forall p :: p in poses ==> !IsSavasana(p)) ==>
                  flow == phases && forall i :: 0 <= i < |flow| ==> !StepIsSavasana(flow[i]))
            && ((exists i :: 0 <= i < |phases| && StepIsSavasana(phases[i])) ==> flow == phases)
            && ((exists p :: p in poses && IsSavasana(p)) ==>
                  exists i :: 0 <= i < |flow| && StepIsSavasana(flow[i]))
            && ((exists p :: p in poses && IsSavasana(p)) && (forall i :: 0 <= i < |phases| ==> !StepIsSavasana(phases[i])) ==>
                  && |flow| == |phases| + 1
                  && flow[..|phases|] == phases
                  && flow[|phases|] == Entry(Find(poses, IsSavasana).value, SavasanaDuration(total), SavasanaTransition))
  {
    var total := input.duration * 60;
    var phases := PhasesUpTo(poses, total, rnd, |FlowPhases|);
    var flow := SessionFlow(poses, input, rnd);
    PhasesUpToSteps(poses, total, rnd, |FlowPhases|);
    if Any(phases, StepIsSavasana) {
      var step :| step in phases && StepIsSavasana(step);
      var i :| 0 <= i < |phases| && phases[i] == step;
    } else {
      assert forall i :: 0 <= i < |phases| ==> !StepIsSavasana(phases[i]);
      if Find(poses, IsSavasana).Some? {
        assert flow[|phases|] == Entry(Find(poses, IsSavasana).value, SavasanaDuration(total), SavasanaTransition);
        assert StepIsSavasana(flow[|phases|]);
      }
    }
  }

  /** The whole session can run past the requested duration only by the appended
      Savasana's time. */
  lemma SessionFlowBudget(poses: seq<YogaPose>, input: UserInput, rnd: Randomness)
    requires FitsRandomness(rnd, poses)
    ensures var total := input.duration * 60;
            TotalSeconds(SessionFlow(poses, input, rnd)) <= total + SavasanaDuration(total)
  {
    var total := input.duration * 60;
    var phases := PhasesUpTo(poses, total, rnd, |FlowPhases|);
    PhasesFitDuration(poses, input, rnd);
    match Find(poses, IsSavasana)
    case Some(savasana) =>
      var step := Entry(savasana, SavasanaDuration(total), SavasanaTransition);
      TotalSecondsAppend(phases, [step]);
      assert TotalSeconds([step]) == SavasanaDuration(total);
    case None =>
  }

  /** Every step of the flow uses one of the poses given; phase steps last between 30 s
      and their base time, and the Savasana step `min(300, total/10)`. */
  lemma SessionFlowSteps(poses: seq<YogaPose>, input: UserInput, rnd: Randomness)
    requires FitsRandomness(rnd, poses)
    ensures var total := input.duration * 60;
            var flow := SessionFlow(poses, input, rnd);
            forall i :: 0 <= i < |flow| ==>
              && flow[i].pose in poses
              && (30 <= flow[i].duration <= flow[i].pose.durationS ||
                  (StepIsSavasana(flow[i]) && flow[i].duration == SavasanaDuration(total)))
  {
    var total := input.duration * 60;
    PhasesUpToSteps(poses, total, rnd, |FlowPhases|);
  }
}
