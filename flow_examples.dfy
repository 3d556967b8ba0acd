/** Two small catalogs on which `createSessionFlow` shows the behaviour its contracts allow
    for: the appended Savasana runs past the requested duration, and a supine pose is
    scheduled both in Main Practice and in Cool Down. The poses are described only by the
    fields the generator looks at. */
module FlowExamples {
  import opened Collections
  import opened Models
  import opened Generator

  /** A ten-minute beginner request with no goal and no focus areas: 600 s, shared out as
      90 s, 420 s and 90 s. */
  const TenMinutes: UserInput := UserInput(None, None, [], 10, Beginner, [], None, None)

  const WarmUpPhrase: string := "Take a deep breath as you move into this pose"
  const MainPhrase: string := "Engage your core as you transition"
  const CoolDownPhrase: string := "Soften into this pose"

  lemma PhasePosesAppend(a: seq<YogaPose>, b: seq<YogaPose>, phase: FlowPhase)
    ensures PhasePoses(a + b, phase) == PhasePoses(a, phase) + PhasePoses(b, phase)
  {
    FilterAppend(a, b, (p: YogaPose) => p.poseType in phase.poseTypes);
  }

  /** The pose alone if the phase admits its type, nothing otherwise. */
  lemma PhasePosesOfOne(pose: YogaPose, phase: FlowPhase)
    ensures PhasePoses([pose], phase) == if pose.poseType in phase.poseTypes then [pose] else []
  {
  }

  lemma PhrasesOfPhases()
    ensures GenerateTransition(FlowPhases[0].name, 0) == WarmUpPhrase
    ensures GenerateTransition(FlowPhases[1].name, 0) == MainPhrase
    ensures GenerateTransition(FlowPhases[2].name, 0) == CoolDownPhrase
  {
  }

  /** A pose that fits the phase's time whole, alone or followed by another, fills it. */
  lemma PackFirstFits(p: YogaPose, rest: seq<YogaPose>, picks: seq<PhraseIndex>, phaseName: string)
    requires 30 <= p.durationS && |picks| == 1 + |rest| && |rest| <= 1
    ensures Pack([p] + rest, picks, p.durationS, phaseName)
         == [Entry(p, p.durationS, GenerateTransition(phaseName, picks[0]))]
  {
    assert ([p] + rest)[1..] == rest;
  }

  /** A pose shorter than the phase's time is taken whole. */
  lemma PackOne(p: YogaPose, pick: PhraseIndex, budget: int, phaseName: string)
    requires 30 <= p.durationS <= budget
    ensures Pack([p], [pick], budget, phaseName) == [Entry(p, p.durationS, GenerateTransition(phaseName, pick))]
  {
    assert [p][1..] == [];
  }

  lemma TenMinuteShares()
    ensures TenMinutes.duration * 60 == 600
    ensures Share(600, FlowPhases[0].durationPercentage) == 90
    ensures Share(600, FlowPhases[1].durationPercentage) == 420
    ensures Share(600, FlowPhases[2].durationPercentage) == 90
  {
    PhaseSharesExact(10);
  }

  /** Which of the four pose types each phase admits. */
  lemma PhaseAdmits()
    ensures WarmUp in FlowPhases[0].poseTypes && Standing !in FlowPhases[0].poseTypes
    ensures CoolDown !in FlowPhases[0].poseTypes && Supine !in FlowPhases[0].poseTypes
    ensures WarmUp !in FlowPhases[1].poseTypes && Standing in FlowPhases[1].poseTypes
    ensures CoolDown !in FlowPhases[1].poseTypes && Supine in FlowPhases[1].poseTypes
    ensures WarmUp !in FlowPhases[2].poseTypes && Standing !in FlowPhases[2].poseTypes
    ensures CoolDown in FlowPhases[2].poseTypes && Supine in FlowPhases[2].poseTypes
  {
  }

  lemma KeepFirst(pose: YogaPose, rest: seq<YogaPose>, phase: FlowPhase)
    requires pose.poseType in phase.poseTypes
    ensures PhasePoses([pose] + rest, phase) == [pose] + PhasePoses(rest, phase)
  {
    PhasePosesAppend([pose], rest, phase);
  }

  lemma DropFirst(pose: YogaPose, rest: seq<YogaPose>, phase: FlowPhase)
    requires pose.poseType !in phase.poseTypes
    ensures PhasePoses([pose] + rest, phase) == PhasePoses(rest, phase)
  {
    PhasePosesAppend([pose], rest, phase);
    assert [] + PhasePoses(rest, phase) == PhasePoses(rest, phase);
  }

  lemma ConsFour(a: YogaPose, b: YogaPose, c: YogaPose, d: YogaPose)
    ensures [a, b, c, d] == [a] + [b, c, d] && [b, c, d] == [b] + [c, d] && [c, d] == [c] + [d]
  {
  }

  predicate FourTypes(warm: YogaPose, standing: YogaPose, cool: YogaPose, supine: YogaPose) {
    warm.poseType == WarmUp && standing.poseType == Standing && cool.poseType == CoolDown && supine.poseType == Supine
  }

  /** Which of four poses a phase keeps, by which of their types it admits. */
  lemma KeepsFirstOfFour(a: YogaPose, b: YogaPose, c: YogaPose, d: YogaPose, phase: FlowPhase)
    requires a.poseType in phase.poseTypes && b.poseType !in phase.poseTypes
    requires c.poseType !in phase.poseTypes && d.poseType !in phase.poseTypes
    ensures PhasePoses([a, b, c, d], phase) == [a]
  {
    ConsFour(a, b, c, d);
    KeepFirst(a, [b, c, d], phase);
    DropFirst(b, [c, d], phase);
    DropFirst(c, [d], phase);
    PhasePosesOfOne(d, phase);
    assert [a] + [] == [a];
  }

  lemma KeepsSecondAndFourthOfFour(a: YogaPose, b: YogaPose, c: YogaPose, d: YogaPose, phase: FlowPhase)
    requires a.poseType !in phase.poseTypes && b.poseType in phase.poseTypes
    requires c.poseType !in phase.poseTypes && d.poseType in phase.poseTypes
    ensures PhasePoses([a, b, c, d], phase) == [b, d]
  {
    ConsFour(a, b, c, d);
    DropFirst(a, [b, c, d], phase);
    KeepFirst(b, [c, d], phase);
    DropFirst(c, [d], phase);
    PhasePosesOfOne(d, phase);
  }

  lemma KeepsLastTwoOfFour(a: YogaPose, b: YogaPose, c: YogaPose, d: YogaPose, phase: FlowPhase)
    requires a.poseType !in phase.poseTypes && b.poseType !in phase.poseTypes
    requires c.poseType in phase.poseTypes && d.poseType in phase.poseTypes
    ensures PhasePoses([a, b, c, d], phase) == [c, d]
  {
    ConsFour(a, b, c, d);
    DropFirst(a, [b, c, d], phase);
    DropFirst(b, [c, d], phase);
    KeepFirst(c, [d], phase);
    PhasePosesOfOne(d, phase);
  }

  /** The candidates of the three phases for a catalog of one warm-up pose, one standing
      pose, one cool-down pose and one supine pose. */
  lemma FourPoseWarmUp(warm: YogaPose, standing: YogaPose, cool: YogaPose, supine: YogaPose)
    requires FourTypes(warm, standing, cool, supine)
    ensures PhasePoses([warm, standing, cool, supine], FlowPhases[0]) == [warm]
  {
    PhaseAdmits();
    KeepsFirstOfFour(warm, standing, cool, supine, FlowPhases[0]);
  }

  lemma FourPoseMain(warm: YogaPose, standing: YogaPose, cool: YogaPose, supine: YogaPose)
    requires FourTypes(warm, standing, cool, supine)
    ensures PhasePoses([warm, standing, cool, supine], FlowPhases[1]) == [standing, supine]
  {
    PhaseAdmits();
    KeepsSecondAndFourthOfFour(warm, standing, cool, supine, FlowPhases[1]);
  }

  lemma FourPoseCoolDown(warm: YogaPose, standing: YogaPose, cool: YogaPose, supine: YogaPose)
    requires FourTypes(warm, standing, cool, supine)
    ensures PhasePoses([warm, standing, cool, supine], FlowPhases[2]) == [cool, supine]
  {
    PhaseAdmits();
    KeepsLastTwoOfFour(warm, standing, cool, supine, FlowPhases[2]);
  }

  /** Shuffles that keep each phase's candidates in order, with matching picks, fit. */
  lemma ShufflesAsListed(poses: seq<YogaPose>, c0: seq<YogaPose>, c1: seq<YogaPose>, c2: seq<YogaPose>,
                         q0: seq<PhraseIndex>, q1: seq<PhraseIndex>, q2: seq<PhraseIndex>)
    requires WarmUpPreference(PhasePoses(poses, FlowPhases[0]), FlowPhases[0].name) == c0
    requires PhasePoses(poses, FlowPhases[1]) == c1 && PhasePoses(poses, FlowPhases[2]) == c2
    requires |q0| == |c0| && |q1| == |c1| && |q2| == |c2|
    ensures FitsRandomness(Randomness([c0, c1, c2], [q0, q1, q2]), poses)
  {
    assert PhaseCandidates(poses, 0) == c0;
    assert PhaseCandidates(poses, 1) == c1;
    assert PhaseCandidates(poses, 2) == c2;
  }

  // ----- The Savasana on top -----

  predicate SavasanaShape(warm: YogaPose, standing: YogaPose, cool: YogaPose, savasana: YogaPose) {
    && warm.poseType == WarmUp && warm.durationS == 90 && !IsSavasana(warm)
    && standing.poseType == Standing && standing.durationS == 420 && !IsSavasana(standing)
    && cool.poseType == CoolDown && cool.durationS == 90 && !IsSavasana(cool)
    && savasana.poseType == Supine && IsSavasana(savasana)
  }

  /** Each phase draws its first candidate, and the Savasana comes second in both phases
      where it is eligible. */
  function SavasanaLastChoices(warm: YogaPose, standing: YogaPose, cool: YogaPose, savasana: YogaPose): Randomness {
    Randomness([[warm], [standing, savasana], [cool, savasana]], [[0], [0, 0], [0, 0]])
  }

  lemma SavasanaLastChoicesFit(warm: YogaPose, standing: YogaPose, cool: YogaPose, savasana: YogaPose)
    requires SavasanaShape(warm, standing, cool, savasana)
    ensures FitsRandomness(SavasanaLastChoices(warm, standing, cool, savasana), [warm, standing, cool, savasana])
  {
    var catalog := [warm, standing, cool, savasana];
    FourPoseWarmUp(warm, standing, cool, savasana);
    WarmUpPreferenceChangesNothing(catalog);
    FourPoseMain(warm, standing, cool, savasana);
    FourPoseCoolDown(warm, standing, cool, savasana);
    ShufflesAsListed(catalog, [warm], [standing, savasana], [cool, savasana], [0], [0, 0], [0, 0]);
  }

  lemma SavasanaLastWarmUp(warm: YogaPose, standing: YogaPose, cool: YogaPose, savasana: YogaPose)
    requires SavasanaShape(warm, standing, cool, savasana)
    requires FitsRandomness(SavasanaLastChoices(warm, standing, cool, savasana), [warm, standing, cool, savasana])
    ensures PhaseEntries([warm, standing, cool, savasana], 600, SavasanaLastChoices(warm, standing, cool, savasana), 0)
         == [Entry(warm, 90, WarmUpPhrase)]
  {
    FourPoseWarmUp(warm, standing, cool, savasana);
    TenMinuteShares();
    PhrasesOfPhases();
    assert [warm] == [warm] + [];
    PackFirstFits(warm, [], [0], FlowPhases[0].name);
  }

  lemma SavasanaLastMain(warm: YogaPose, standing: YogaPose, cool: YogaPose, savasana: YogaPose)
    requires SavasanaShape(warm, standing, cool, savasana)
    requires FitsRandomness(SavasanaLastChoices(warm, standing, cool, savasana), [warm, standing, cool, savasana])
    ensures PhaseEntries([warm, standing, cool, savasana], 600, SavasanaLastChoices(warm, standing, cool, savasana), 1)
         == [Entry(standing, 420, MainPhrase)]
  {
    FourPoseMain(warm, standing, cool, savasana);
    TenMinuteShares();
    PhrasesOfPhases();
    assert [standing, savasana] == [standing] + [savasana];
    PackFirstFits(standing, [savasana], [0, 0], FlowPhases[1].name);
  }

  lemma SavasanaLastCoolDown(warm: YogaPose, standing: YogaPose, cool: YogaPose, savasana: YogaPose)
    requires SavasanaShape(warm, standing, cool, savasana)
    requires FitsRandomness(SavasanaLastChoices(warm, standing, cool, savasana), [warm, standing, cool, savasana])
    ensures PhaseEntries([warm, standing, cool, savasana], 600, SavasanaLastChoices(warm, standing, cool, savasana), 2)
         == [Entry(cool, 90, CoolDownPhrase)]
  {
    FourPoseCoolDown(warm, standing, cool, savasana);
    TenMinuteShares();
    PhrasesOfPhases();
    assert [cool, savasana] == [cool] + [savasana];
    PackFirstFits(cool, [savasana], [0, 0], FlowPhases[2].name);
  }

  /** Three phases of one step each make a flow of three steps. */
  lemma ThreeSteps(poses: seq<YogaPose>, total: nat, rnd: Randomness, a: SessionPose, b: SessionPose, c: SessionPose)
    requires FitsRandomness(rnd, poses)
    requires PhaseEntries(poses, total, rnd, 0) == [a]
    requires PhaseEntries(poses, total, rnd, 1) == [b]
    requires PhaseEntries(poses, total, rnd, 2) == [c]
    ensures PhasesUpTo(poses, total, rnd, 3) == [a, b, c]
  {
    assert PhasesUpTo(poses, total, rnd, 1) == [a];
    assert PhasesUpTo(poses, total, rnd, 2) == [a] + [b];
    assert PhasesUpTo(poses, total, rnd, 3) == [a] + [b] + [c];
  }

  lemma SavasanaLastPhases(warm: YogaPose, standing: YogaPose, cool: YogaPose, savasana: YogaPose)
    requires SavasanaShape(warm, standing, cool, savasana)
    ensures FitsRandomness(SavasanaLastChoices(warm, standing, cool, savasana), [warm, standing, cool, savasana])
    ensures PhasesUpTo([warm, standing, cool, savasana], 600, SavasanaLastChoices(warm, standing, cool, savasana), 3)
         == [Entry(warm, 90, WarmUpPhrase), Entry(standing, 420, MainPhrase), Entry(cool, 90, CoolDownPhrase)]
  {
    SavasanaLastChoicesFit(warm, standing, cool, savasana);
    SavasanaLastWarmUp(warm, standing, cool, savasana);
    SavasanaLastMain(warm, standing, cool, savasana);
    SavasanaLastCoolDown(warm, standing, cool, savasana);
    ThreeSteps([warm, standing, cool, savasana], 600, SavasanaLastChoices(warm, standing, cool, savasana),
               Entry(warm, 90, WarmUpPhrase), Entry(standing, 420, MainPhrase), Entry(cool, 90, CoolDownPhrase));
  }

  /** The ten-minute request's flow is the three phases' steps with the Savasana rule applied. */
  lemma TenMinuteFlow(poses: seq<YogaPose>, rnd: Randomness)
    requires FitsRandomness(rnd, poses)
    ensures SessionFlow(poses, TenMinutes, rnd) == WithSavasana(poses, PhasesUpTo(poses, 600, rnd, 3), 600)
  {
  }

  lemma SavasanaFound(warm: YogaPose, standing: YogaPose, cool: YogaPose, savasana: YogaPose)
    requires SavasanaShape(warm, standing, cool, savasana)
    ensures Find([warm, standing, cool, savasana], IsSavasana) == Some(savasana)
  {
    assert [warm, standing, cool, savasana][1..][1..][1..] == [savasana];
  }

  lemma NoSavasanaStep(warm: YogaPose, standing: YogaPose, cool: YogaPose, savasana: YogaPose)
    requires SavasanaShape(warm, standing, cool, savasana)
    ensures !Any([Entry(warm, 90, WarmUpPhrase), Entry(standing, 420, MainPhrase), Entry(cool, 90, CoolDownPhrase)], StepIsSavasana)
  {
    var steps := [Entry(warm, 90, WarmUpPhrase), Entry(standing, 420, MainPhrase), Entry(cool, 90, CoolDownPhrase)];
    assert steps[1..][1..][1..] == [];
  }

  /** The 600 s are filled exactly by poses drawn before the Savasana in both phases where it
      is eligible, so the Savasana is appended on top with `min(300, 600/10)` seconds. */
  lemma SavasanaAppended(warm: YogaPose, standing: YogaPose, cool: YogaPose, savasana: YogaPose)
    requires SavasanaShape(warm, standing, cool, savasana)
    ensures var catalog := [warm, standing, cool, savasana];
            var rnd := SavasanaLastChoices(warm, standing, cool, savasana);
            && FitsRandomness(rnd, catalog)
            && SessionFlow(catalog, TenMinutes, rnd)
               == [Entry(warm, 90, WarmUpPhrase), Entry(standing, 420, MainPhrase),
                   Entry(cool, 90, CoolDownPhrase), Entry(savasana, 60, SavasanaTransition)]
  {
    var catalog := [warm, standing, cool, savasana];
    var rnd := SavasanaLastChoices(warm, standing, cool, savasana);
    SavasanaLastPhases(warm, standing, cool, savasana);
    TenMinuteFlow(catalog, rnd);
    SavasanaFound(warm, standing, cool, savasana);
    NoSavasanaStep(warm, standing, cool, savasana);
    SavasanaOnTop(catalog, savasana, Entry(warm, 90, WarmUpPhrase), Entry(standing, 420, MainPhrase),
                  Entry(cool, 90, CoolDownPhrase));
  }

  /** Three steps without a Savasana get the catalog's Savasana appended, for 60 s of 600. */
  lemma SavasanaOnTop(poses: seq<YogaPose>, savasana: YogaPose, a: SessionPose, b: SessionPose, c: SessionPose)
    requires Find(poses, IsSavasana) == Some(savasana) && !Any([a, b, c], StepIsSavasana)
    ensures WithSavasana(poses, [a, b, c], 600) == [a, b, c, Entry(savasana, 60, SavasanaTransition)]
  {
    assert SavasanaDuration(600) == 60;
    assert [a, b, c] + [Entry(savasana, 60, SavasanaTransition)] == [a, b, c, Entry(savasana, 60, SavasanaTransition)];
  }

  lemma FourStepsTotal(a: SessionPose, b: SessionPose, c: SessionPose, d: SessionPose)
    ensures TotalSeconds([a, b, c, d]) == a.duration + b.duration + c.duration + d.duration
  {
    assert [d][1..] == [];
    assert TotalSeconds([d]) == d.duration;
    assert [c, d][1..] == [d];
    assert TotalSeconds([c, d]) == c.duration + d.duration;
    assert [b, c, d][1..] == [c, d];
    assert TotalSeconds([b, c, d]) == b.duration + c.duration + d.duration;
    assert [a, b, c, d][1..] == [b, c, d];
  }

  /** So a ten-minute request yields a 660-second session. */
  lemma SavasanaRunsPastDuration(warm: YogaPose, standing: YogaPose, cool: YogaPose, savasana: YogaPose)
    requires SavasanaShape(warm, standing, cool, savasana)
    ensures var catalog := [warm, standing, cool, savasana];
            var rnd := SavasanaLastChoices(warm, standing, cool, savasana);
            && FitsRandomness(rnd, catalog)
            && TotalSeconds(SessionFlow(catalog, TenMinutes, rnd)) == 660 > TenMinutes.duration * 60
  {
    SavasanaAppended(warm, standing, cool, savasana);
    FourStepsTotal(Entry(warm, 90, WarmUpPhrase), Entry(standing, 420, MainPhrase),
                   Entry(cool, 90, CoolDownPhrase), Entry(savasana, 60, SavasanaTransition));
  }

  // ----- A supine pose twice -----

  predicate SupineShape(warm: YogaPose, supine: YogaPose) {
    && warm.poseType == WarmUp && warm.durationS == 90 && !IsSavasana(warm)
    && supine.poseType == Supine && supine.durationS == 60 && !IsSavasana(supine)
  }

  function SupineChoices(warm: YogaPose, supine: YogaPose): Randomness {
    Randomness([[warm], [supine], [supine]], [[0], [0], [0]])
  }

  lemma TwoPosePhases(warm: YogaPose, supine: YogaPose)
    requires warm.poseType == WarmUp && supine.poseType == Supine
    ensures PhasePoses([warm, supine], FlowPhases[0]) == [warm]
    ensures PhasePoses([warm, supine], FlowPhases[1]) == [supine]
    ensures PhasePoses([warm, supine], FlowPhases[2]) == [supine]
  {
    PhaseAdmits();
    assert [warm] + [supine] == [warm, supine];
    KeepFirst(warm, [supine], FlowPhases[0]);
    DropFirst(supine, [], FlowPhases[0]);
    DropFirst(warm, [supine], FlowPhases[1]);
    DropFirst(warm, [supine], FlowPhases[2]);
    PhasePosesOfOne(supine, FlowPhases[1]);
    PhasePosesOfOne(supine, FlowPhases[2]);
  }

  lemma SupineChoicesFit(warm: YogaPose, supine: YogaPose)
    requires SupineShape(warm, supine)
    ensures FitsRandomness(SupineChoices(warm, supine), [warm, supine])
  {
    TwoPosePhases(warm, supine);
    WarmUpPreferenceChangesNothing([warm, supine]);
    ShufflesAsListed([warm, supine], [warm], [supine], [supine], [0], [0], [0]);
  }

  lemma SupineWarmUp(warm: YogaPose, supine: YogaPose)
    requires SupineShape(warm, supine)
    requires FitsRandomness(SupineChoices(warm, supine), [warm, supine])
    ensures PhaseEntries([warm, supine], 600, SupineChoices(warm, supine), 0) == [Entry(warm, 90, WarmUpPhrase)]
  {
    TwoPosePhases(warm, supine);
    TenMinuteShares();
    PhrasesOfPhases();
    assert [warm] == [warm] + [];
    PackFirstFits(warm, [], [0], FlowPhases[0].name);
  }

  lemma SupineMain(warm: YogaPose, supine: YogaPose)
    requires SupineShape(warm, supine)
    requires FitsRandomness(SupineChoices(warm, supine), [warm, supine])
    ensures PhaseEntries([warm, supine], 600, SupineChoices(warm, supine), 1) == [Entry(supine, 60, MainPhrase)]
  {
    TwoPosePhases(warm, supine);
    TenMinuteShares();
    PhrasesOfPhases();
    PackOne(supine, 0, Share(600, FlowPhases[1].durationPercentage), FlowPhases[1].name);
  }

  lemma SupineCoolDown(warm: YogaPose, supine: YogaPose)
    requires SupineShape(warm, supine)
    requires FitsRandomness(SupineChoices(warm, supine), [warm, supine])
    ensures PhaseEntries([warm, supine], 600, SupineChoices(warm, supine), 2) == [Entry(supine, 60, CoolDownPhrase)]
  {
    TwoPosePhases(warm, supine);
    TenMinuteShares();
    PhrasesOfPhases();
    PackOne(supine, 0, Share(600, FlowPhases[2].durationPercentage), FlowPhases[2].name);
  }

  /** A supine pose is a candidate of two phases, so one session can hold it twice. */
  lemma SupinePoseRepeats(warm: YogaPose, supine: YogaPose)
    requires SupineShape(warm, supine)
    ensures FitsRandomness(SupineChoices(warm, supine), [warm, supine])
    ensures SessionFlow([warm, supine], TenMinutes, SupineChoices(warm, supine))
         == [Entry(warm, 90, WarmUpPhrase), Entry(supine, 60, MainPhrase), Entry(supine, 60, CoolDownPhrase)]
  {
    var catalog := [warm, supine];
    var rnd := SupineChoices(warm, supine);
    SupineChoicesFit(warm, supine);
    SupineWarmUp(warm, supine);
    SupineMain(warm, supine);
    SupineCoolDown(warm, supine);
    ThreeSteps(catalog, 600, rnd, Entry(warm, 90, WarmUpPhrase), Entry(supine, 60, MainPhrase), Entry(supine, 60, CoolDownPhrase));
    TenMinuteFlow(catalog, rnd);
    assert Find(catalog, IsSavasana) == None by {
      assert catalog[1..][1..] == [];
    }
  }
}
