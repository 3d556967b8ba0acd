/** The records of src/app/models/yoga.models.ts, with the string unions as closed enumerations. */
module Models {
  import opened Collections

  datatype Difficulty = Beginner | Intermediate | Advanced

  /** A user's experience level uses the same three names as a pose's difficulty. */
  type Level = Difficulty

  datatype PoseType =
    | WarmUp | Standing | Seated | Supine | Prone | Inversion
    | Backbend | ForwardFold | Twist | ArmBalance | CoolDown

  datatype Category = Strengthening | Stretching | Balancing | Relaxation | Core | Cardio

  /** The category's spelling in the catalog data. */
  function CategoryName(c: Category): string {
    match c
    case Strengthening => "strengthening"
    case Stretching => "stretching"
    case Balancing => "balancing"
    case Relaxation => "relaxation"
    case Core => "core"
    case Cardio => "cardio"
  }

  lemma CategoryNameInjective(a: Category, b: Category)
    ensures CategoryName(a) == CategoryName(b) <==> a == b
  {
    match a
    case Strengthening =>
    case Stretching =>
    case Balancing =>
    case Relaxation =>
    case Core =>
    case Cardio =>
  }

  datatype Goal = Relaxation | Energy | Strength | Flexibility | Balance | Focus

  datatype EnergyLevel = Low | Medium | High

  datatype Side = Left | Right | Both

  /** One catalog entry; `durationS` is the pose's base hold time in seconds. */
  datatype YogaPose = YogaPose(
    id: string,
    nameEnglish: string,
    nameSanskrit: string,
    difficulty: Difficulty,
    poseType: PoseType,
    category: Category,
    targets: seq<string>,
    durationS: nat,
    imageUrl: string,
    benefits: seq<string>,
    instructions: seq<string>,
    modifications: seq<string>,
    contraindications: seq<string>,
    tags: seq<string>)

  /** What the form submits; an absent `focusAreas` or `painPoints` list is the empty list. */
  datatype UserInput = UserInput(
    description: Option<string>,
    goal: Option<Goal>,
    focusAreas: seq<string>,
    duration: nat,
    level: Level,
    painPoints: seq<string>,
    mood: Option<string>,
    energy: Option<EnergyLevel>)

  /** One scheduled step of a session; `duration` is in seconds. */
  datatype SessionPose = SessionPose(
    pose: YogaPose,
    duration: nat,
    side: Option<Side>,
    repetitions: Option<nat>,
    transition: Option<string>,
    notes: Option<string>)

  /** A generated session; `duration` is in minutes, `createdAt` a clock reading. */
  datatype YogaSession = YogaSession(
    id: string,
    title: string,
    description: string,
    duration: nat,
    level: Level,
    poses: seq<SessionPose>,
    createdAt: int,
    userInput: UserInput)

  datatype FlowPhase = FlowPhase(
    name: string,
    durationPercentage: nat,
    poseTypes: seq<PoseType>,
    description: string)

  /** The service's three phases, in the order a session plays them. */
  const FlowPhases: seq<FlowPhase> := [
    FlowPhase("Warm-up", 15, [WarmUp], "Gentle movements to prepare the body"),
    FlowPhase("Main Practice", 70,
              [Standing, Seated, Supine, Prone, Backbend, ForwardFold, Twist, ArmBalance],
              "Core poses targeting your specific needs"),
    FlowPhase("Cool Down", 15, [CoolDown, Supine], "Relaxing poses to integrate the practice")
  ]

  /** A step with only the fields the generator fills in. */
  function Entry(pose: YogaPose, duration: nat, transition: string): SessionPose {
    SessionPose(pose, duration, None, None, Some(transition), None)
  }

  /** Sum of the steps' durations, in seconds. */
  function TotalSeconds(entries: seq<SessionPose>): nat {
    if entries == [] then 0 else entries[0].duration + TotalSeconds(entries[1..])
  }

  lemma {:induction false} TotalSecondsAppend(a: seq<SessionPose>, b: seq<SessionPose>)
    ensures TotalSeconds(a + b) == TotalSeconds(a) + TotalSeconds(b)
    decreases |a|
  {
    if a == [] {
      assert a + b == b;
    } else {
      assert (a + b)[1..] == a[1..] + b;
      TotalSecondsAppend(a[1..], b);
    }
  }

  /** The poses the steps refer to, in step order. */
  function PosesOf(entries: seq<SessionPose>): (r: seq<YogaPose>)
    ensures |r| == |entries|
  {
    seq(|entries|, i requires 0 <= i < |entries| => entries[i].pose)
  }
}
