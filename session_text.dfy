/** The session's title and description (src/app/services/yoga.service.ts), built from the
    user's goal, duration, level and focus areas, and a reading of the title back into
    those parts. */
module SessionText {
  import opened Collections
  import opened Text
  import opened Models

  function LevelName(level: Level): string {
    match level
    case Beginner => "beginner"
    case Intermediate => "intermediate"
    case Advanced => "advanced"
  }

  /** The goal -> title table; a session without a goal gets a generic title. */
  function GoalTitle(goal: Option<Goal>): string {
    match goal
    case None => "Personalized Yoga Session"
    case Some(g) =>
      match g
      case Relaxation => "Calming Flow"
      case Energy => "Energizing Practice"
      case Strength => "Power Yoga Session"
      case Flexibility => "Deep Stretch Flow"
      case Balance => "Balance & Focus"
      case Focus => "Mindful Movement"
  }

  const Bullet: char := '\U{2022}'


  datatype TitleParts = TitleParts(goal: Option<Goal>, duration: nat, level: Level)

  function GoalFromTitle(s: string): Option<Option<Goal>> {
    if s == "Personalized Yoga Session" then Some(None)
    else if s == "Calming Flow" then Some(Some(Goal.Relaxation))
    else if s == "Energizing Practice" then Some(Some(Energy))
    else if s == "Power Yoga Session" then Some(Some(Strength))
    else if s == "Deep Stretch Flow" then Some(Some(Flexibility))
    else if s == "Balance & Focus" then Some(Some(Balance))
    else if s == "Mindful Movement" then Some(Some(Focus))
    else None
  }

  function LevelFromTitle(s: string): Option<Level> {
    if s == "Beginner" then Some(Beginner)
    else if s == "Intermediate" then Some(Intermediate)
    else if s == "Advanced" then Some(Advanced)
    else None
  }

  /** Reads `"<goal title> • <digits> min • <Level>"` back into its parts. */
  function ParseTitle(t: string): Option<TitleParts> {
    match IndexOf(t, Bullet)
    case None => None
    case Some(i) =>
      var tail := t[i + 1..];
      match IndexOf(tail, Bullet)
      case None => None
      case Some(j) => ParseFields(t[..i], tail[..j], tail[j + 1..])
  }

  /** The three bullet-separated fields: `"<goal title> "`, `" <digits> min "`, `" <Level>"`,
      the digits written as a number is rendered (no leading zero, not empty). */
  function ParseFields(head: string, middle: string, last: string): Option<TitleParts> {
    if && |head| >= 1 && head[|head| - 1] == ' '
       && |middle| >= 6 && middle[0] == ' ' && middle[|middle| - 5..] == " min "
       && Canonical(middle[1..|middle| - 5])
       && |last| >= 1 && last[0] == ' '
    then
      match (GoalFromTitle(head[..|head| - 1]), LevelFromTitle(last[1..]))
      case (Some(goal), Some(level)) =>
        Some(TitleParts(goal, DigitsValue(middle[1..|middle| - 5]), level))
      case _ => None
    else None
  }

  /** The duration field is read only in the form the title writes it: an accepted middle
      field is exactly `" " + <the duration rendered> + " min "`. */
  lemma ParseFieldsDuration(head: string, middle: string, last: string)
    requires ParseFields(head, middle, last).Some?
    ensures middle == " " + NatToString(ParseFields(head, middle, last).value.duration) + " min "
  {
    var d := middle[1..|middle| - 5];
    CanonicalIsRendering(d);
    assert middle == [middle[0]] + d + middle[|middle| - 5..];
  }

  lemma GoalTitleHasNoBullet(goal: Option<Goal>)
    ensures Bullet !in GoalTitle(goal)
  {
    match goal
    case None =>
    case Some(g) =>
      match g
      case Relaxation =>
      case Energy =>
      case Strength =>
      case Flexibility =>
      case Balance =>
      case Focus =>
  }

  lemma GoalTitleRoundTrip(goal: Option<Goal>)
    ensures GoalFromTitle(GoalTitle(goal)) == Some(goal)
  {
    match goal
    case None =>
    case Some(g) =>
      match g
      case Relaxation =>
      case Energy =>
      case Strength =>
      case Flexibility =>
      case Balance =>
      case Focus =>
  }

  lemma LevelTitleRoundTrip(level: Level)
    ensures LevelFromTitle(Capitalize(LevelName(level))) == Some(level)
  {
    match level
    case Beginner =>
      assert Capitalize(LevelName(level)) == "Beginner";
    case Intermediate =>
      assert Capitalize(LevelName(level)) == "Intermediate";
    case Advanced =>
      assert Capitalize(LevelName(level)) == "Advanced";
  }

  lemma SplitAtBullet(a: string, b: string)
    requires Bullet !in a
    ensures IndexOf(a + [Bullet] + b, Bullet) == Some(|a|)
    ensures (a + [Bullet] + b)[..|a|] == a && (a + [Bullet] + b)[|a| + 1..] == b
  {
    IndexOfJoin(a, Bullet, b);
  }

  lemma DurationField(d: string)
    requires |d| >= 1 && AllDigits(d)
    ensures var middle := " " + d + " min ";
            && |middle| >= 6 && middle[0] == ' ' && middle[|middle| - 5..] == " min "
            && middle[1..|middle| - 5] == d && Bullet !in middle
  {
    var middle := " " + d + " min ";
    assert forall k :: 0 <= k < |d| ==> middle[k + 1] == d[k];
    assert middle[1..|middle| - 5] == d;
  }

  /** The reading splits at the first two bullets. */
  lemma ParseTitleSplits(head: string, middle: string, last: string)
    requires Bullet !in head && Bullet !in middle
    ensures ParseTitle(head + [Bullet] + (middle + [Bullet] + last)) == ParseFields(head, middle, last)
  {
    SplitAtBullet(head, middle + [Bullet] + last);
    SplitAtBullet(middle, last);
  }

  lemma ParseFieldsParts(g: string, d: string, l: string)
    requires Canonical(d)
    ensures ParseFields(g + " ", " " + d + " min ", " " + l)
         == match (GoalFromTitle(g), LevelFromTitle(l))
            case (Some(goal), Some(level)) => Some(TitleParts(goal, DigitsValue(d), level))
            case _ => None
  {
    var head := g + " ";
    var last := " " + l;
    DurationField(d);
    assert head[..|head| - 1] == g;
    assert last[1..] == l;
  }

  /** The parts of a title, put together, read back as themselves. */
  lemma TitleFromParts(goal: Option<Goal>, duration: nat, level: Level)
    ensures ParseTitle(GoalTitle(goal) + " " + [Bullet] + " " + (NatToString(duration) + " min") + " "
                       + [Bullet] + " " + Capitalize(LevelName(level)))
         == Some(TitleParts(goal, duration, level))
  {
    var g := GoalTitle(goal);
    var d := NatToString(duration);
    var l := Capitalize(LevelName(level));
    assert Canonical(d);
    assert g + " " + [Bullet] + " " + (d + " min") + " " + [Bullet] + " " + l
        == (g + " ") + [Bullet] + ((" " + d + " min ") + [Bullet] + (" " + l));
    GoalTitleHasNoBullet(goal);
    assert Bullet !in g + " ";
    DurationField(d);
    ParseTitleSplits(g + " ", " " + d + " min ", " " + l);
    ParseFieldsParts(g, d, l);
    GoalTitleRoundTrip(goal);
    LevelTitleRoundTrip(level);
    NatToStringRoundTrip(duration);
  }

  /** `"<goal title> • <d> min • <Level>"`. The title names the goal, the duration and the
      level: reading it back recovers them. */
  function GenerateSessionTitle(input: UserInput): (r: string)
    ensures ParseTitle(r) == Some(TitleParts(input.goal, input.duration, input.level))
  {
    var baseTitle := GoalTitle(input.goal);
    var duration := NatToString(input.duration) + " min";
    var level := Capitalize(LevelName(input.level));
    TitleFromParts(input.goal, input.duration, input.level);
    baseTitle + " " + [Bullet] + " " + duration + " " + [Bullet] + " " + level
  }

  lemma GoalFromTitleExact(s: string)
    requires GoalFromTitle(s).Some?
    ensures GoalTitle(GoalFromTitle(s).value) == s
  {
  }

  lemma LevelFromTitleExact(s: string)
    requires LevelFromTitle(s).Some?
    ensures Capitalize(LevelName(LevelFromTitle(s).value)) == s
  {
    LevelTitleRoundTrip(LevelFromTitle(s).value);
  }

  /** Accepted fields are written exactly as their parts would be. */
  lemma ParseFieldsExact(head: string, middle: string, last: string)
    requires ParseFields(head, middle, last).Some?
    ensures var p := ParseFields(head, middle, last).value;
            head + [Bullet] + (middle + [Bullet] + last)
            == GoalTitle(p.goal) + " " + [Bullet] + " " + (NatToString(p.duration) + " min") + " "
               + [Bullet] + " " + Capitalize(LevelName(p.level))
  {
    var p := ParseFields(head, middle, last).value;
    var g := head[..|head| - 1];
    var l := last[1..];
    GoalFromTitleExact(g);
    LevelFromTitleExact(l);
    ParseFieldsDuration(head, middle, last);
    assert head == g + " " && last == " " + l;
    var d := NatToString(p.duration);
    assert g + " " + [Bullet] + " " + (d + " min") + " " + [Bullet] + " " + l
        == (g + " ") + [Bullet] + ((" " + d + " min ") + [Bullet] + (" " + l));
  }

  /** The reading accepts only titles written exactly as the parts it returns would be
      written, so no other spelling (a zero-padded or empty duration, say) reads back. */
  lemma ParseTitleExact(t: string)
    requires ParseTitle(t).Some?
    ensures var p := ParseTitle(t).value;
            t == GoalTitle(p.goal) + " " + [Bullet] + " " + (NatToString(p.duration) + " min") + " "
                 + [Bullet] + " " + Capitalize(LevelName(p.level))
  {
    var i := IndexOf(t, Bullet).value;
    var tail := t[i + 1..];
    var j := IndexOf(tail, Bullet).value;
    var head, middle, last := t[..i], tail[..j], tail[j + 1..];
    assert ParseTitle(t) == ParseFields(head, middle, last);
    ParseFieldsExact(head, middle, last);
    SplitAround(tail, j);
    SplitAround(t, i);
    assert t == head + [Bullet] + (middle + [Bullet] + last);
  }

  /** A string is its part before position `i`, the character there, and the rest. */
  lemma SplitAround(s: string, i: nat)
    requires i < |s|
    ensures s == s[..i] + [s[i]] + s[i + 1..]
  {
  }

  /** Two inputs get the same title exactly when they agree on goal, duration and level. */
  lemma TitleDeterminesGoalDurationLevel(a: UserInput, b: UserInput)
    ensures GenerateSessionTitle(a) == GenerateSessionTitle(b) <==>
            a.goal == b.goal && a.duration == b.duration && a.level == b.level
  {
  }

  function GoalDescription(goal: Goal): string {
    match goal
    case Relaxation => "designed to calm your mind and release tension"
    case Energy => "to energize your body and boost your mood"
    case Strength => "focused on building strength and stability"
    case Flexibility => "to increase flexibility and ease"
    case Balance => "for improving balance and concentration"
    case Focus => "to enhance mindfulness and mental clarity"
  }

  /** `"A <d>-minute <level> level practice"`. */
  function DescriptionOpening(input: UserInput): string {
    "A " + NatToString(input.duration) + "-minute " + LevelName(input.level) + " level practice"
  }

  const FocusLead: string := ", with special attention to your "

  function GenerateSessionDescription(input: UserInput): (description: string)
    ensures |description| > |DescriptionOpening(input)|
    ensures description[..|DescriptionOpening(input)|] == DescriptionOpening(input)
    ensures description[|description| - 1] == '.'
    ensures input.focusAreas == [] && input.goal.None? ==> description == DescriptionOpening(input) + "."
    ensures input.focusAreas == [] && input.goal.Some? ==>
              description == DescriptionOpening(input) + " " + GoalDescription(input.goal.value) + "."
  {
    var opening := DescriptionOpening(input);
    var withGoal := if input.goal.Some? then opening + " " + GoalDescription(input.goal.value) else opening;
    var withFocus := if |input.focusAreas| > 0 then withGoal + FocusLead + Join(input.focusAreas, ", ") else withGoal;
    assert (withFocus + ".")[..|opening|] == opening;
    withFocus + "."
  }

  /** The focus clause appears only when focus areas were chosen, right before the final
      period, naming the areas joined by commas. */
  lemma DescriptionFocusClause(input: UserInput)
    requires |input.focusAreas| > 0
    ensures var plain := GenerateSessionDescription(input.(focusAreas := []));
            GenerateSessionDescription(input)
            == plain[..|plain| - 1] + FocusLead + Join(input.focusAreas, ", ") + "."
  {
    var plain := GenerateSessionDescription(input.(focusAreas := []));
    assert DescriptionOpening(input.(focusAreas := [])) == DescriptionOpening(input);
    assert plain[..|plain| - 1] == (if input.goal.Some?
      then DescriptionOpening(input) + " " + GoalDescription(input.goal.value)
      else DescriptionOpening(input));
  }
}
