/** The service object of src/app/services/yoga.service.ts: the pose catalog and the list of
    generated sessions it holds, session generation with its empty-catalog error, lookup,
    deletion and the catalog queries. The catalog fetch, the browser-storage copy of the
    list and the observable plumbing are not modelled: the catalog and the list are fields. */
module Store {
  import opened Collections
  import opened Text
  import opened Models
  import opened Generator
  import opened SessionText

  /** What `createSessionFromInput` builds from an input, the catalog, a fresh id, the
      clock reading and the random choices: the session keeps the id, the clock reading,
      the input and its duration and level, carries a title that reads back as the input's
      goal, duration and level, and a description that opens with the duration and level. */
  function BuildSession(input: UserInput, catalog: seq<YogaPose>, id: string, createdAt: int, rnd: Randomness): (s: YogaSession)
    requires FitsRandomness(rnd, FilterPosesByInput(catalog, input))
    ensures s.id == id && s.createdAt == createdAt && s.userInput == input
    ensures s.duration == input.duration && s.level == input.level
    ensures ParseTitle(s.title) == Some(TitleParts(input.goal, input.duration, input.level))
    ensures |s.description| > |DescriptionOpening(input)|
    ensures s.description[..|DescriptionOpening(input)|] == DescriptionOpening(input)
  {
    YogaSession(
      id,
      GenerateSessionTitle(input),
      GenerateSessionDescription(input),
      input.duration,
      input.level,
      SessionFlow(FilterPosesByInput(catalog, input), input, rnd),
      createdAt,
      input)
  }

  method CreateSessionFromInput(userInput: UserInput, poses: seq<YogaPose>, sessionId: string, createdAt: int, rnd: Randomness)
    returns (session: YogaSession)
    requires FitsRandomness(rnd, FilterPosesByInput(poses, userInput))
    ensures session == BuildSession(userInput, poses, sessionId, createdAt, rnd)
  {
    var filteredPoses := FilterPosesByInput(poses, userInput);
    var sessionPoses := CreateSessionFlow(filteredPoses, userInput, rnd);
    session := YogaSession(
      sessionId,
      GenerateSessionTitle(userInput),
      GenerateSessionDescription(userInput),
      userInput.duration,
      userInput.level,
      sessionPoses,
      createdAt,
      userInput);
  }

  /** Every step of a generated session uses a catalog pose that passed all of the input's
      gates; in particular a beginner is only ever given beginner poses. */
  lemma GeneratedStepsPassGates(input: UserInput, catalog: seq<YogaPose>, id: string, createdAt: int, rnd: Randomness)
    requires FitsRandomness(rnd, FilterPosesByInput(catalog, input))
    ensures var steps := BuildSession(input, catalog, id, createdAt, rnd).poses;
            forall i :: 0 <= i < |steps| ==>
              && steps[i].pose in catalog
              && Admits(input, steps[i].pose)
              && (input.level == Beginner ==> steps[i].pose.difficulty == Beginner)
  {
    SessionFlowSteps(FilterPosesByInput(catalog, input), input, rnd);
  }

  /** With the form's minimum of five minutes every step lasts at least 30 s; the session
      lasts at most the requested time plus the Savasana's `min(300, total/10)`. */
  lemma GeneratedStepDurations(input: UserInput, catalog: seq<YogaPose>, id: string, createdAt: int, rnd: Randomness)
    requires FitsRandomness(rnd, FilterPosesByInput(catalog, input))
    ensures var steps := BuildSession(input, catalog, id, createdAt, rnd).poses;
            && (input.duration >= 5 ==> forall i :: 0 <= i < |steps| ==> steps[i].duration >= 30)
            && TotalSeconds(steps) <= input.duration * 60 + SavasanaDuration(input.duration * 60)
  {
    var filtered := FilterPosesByInput(catalog, input);
    SessionFlowSteps(filtered, input, rnd);
    SessionFlowBudget(filtered, input, rnd);
  }

  /** `sessions.find(session => session.id === id)`. */
  function SessionWithId(sessions: seq<YogaSession>, id: string): (r: Option<YogaSession>)
    ensures r.None? <==> forall s :: s in sessions ==> s.id != id
    ensures r.Some? ==> exists k :: 0 <= k < |sessions| && sessions[k] == r.value && r.value.id == id
                                    && forall j :: 0 <= j < k ==> sessions[j].id != id
  {
    Find(sessions, (s: YogaSession) => s.id == id)
  }

  /** `sessions.filter(session => session.id !== id)`. */
  function WithoutSession(sessions: seq<YogaSession>, id: string): (r: seq<YogaSession>)
    ensures IsSubsequence(r, sessions)
    ensures forall s :: s in r <==> s in sessions && s.id != id
  {
    var keep := (s: YogaSession) => s.id != id;
    FilterIsSubsequence(sessions, keep);
    FilterMembership(sessions, keep);
    Filter(sessions, keep)
  }

  /** Deleting twice is deleting once. */
  lemma DeleteIdempotent(sessions: seq<YogaSession>, id: string)
    ensures WithoutSession(WithoutSession(sessions, id), id) == WithoutSession(sessions, id)
  {
    FilterIdempotent(sessions, (s: YogaSession) => s.id != id);
  }

  /** After a deletion the id is gone, and every other id finds what it found before. */
  lemma {:induction false} DeleteThenFind(sessions: seq<YogaSession>, id: string, other: string)
    ensures SessionWithId(WithoutSession(sessions, id), id) == None
    ensures other != id ==> SessionWithId(WithoutSession(sessions, id), other) == SessionWithId(sessions, other)
    decreases |sessions|
  {
    if sessions != [] {
      DeleteThenFind(sessions[1..], id, other);
      var keep := (s: YogaSession) => s.id != id;
      assert WithoutSession(sessions, id) == Filter(sessions, keep);
      assert WithoutSession(sessions[1..], id) == Filter(sessions[1..], keep);
      if sessions[0].id != id {
        assert Filter(sessions, keep) == [sessions[0]] + Filter(sessions[1..], keep);
        assert ([sessions[0]] + Filter(sessions[1..], keep))[1..] == Filter(sessions[1..], keep);
      }
    }
  }

  /** After an append, a lookup of the new session's id finds the new session unless an
      older session already had that id, in which case it still finds the older one. */
  lemma AppendThenFind(sessions: seq<YogaSession>, session: YogaSession)
    ensures SessionWithId(sessions + [session], session.id)
         == if SessionWithId(sessions, session.id).Some? then SessionWithId(sessions, session.id) else Some(session)
  {
    var all := sessions + [session];
    var r := SessionWithId(all, session.id);
    assert all[|sessions|] == session;
    assert forall s :: s in sessions ==> s in all;
    var k :| 0 <= k < |all| && all[k] == r.value && r.value.id == session.id
             && forall j :: 0 <= j < k ==> all[j].id != session.id;
    if k < |sessions| {
      assert sessions[k] == r.value;
      assert forall j :: 0 <= j < k ==> sessions[j] == all[j];
      assert SessionWithId(sessions, session.id).Some?;
      var q := SessionWithId(sessions, session.id);
      var k' :| 0 <= k' < |sessions| && sessions[k'] == q.value && q.value.id == session.id
                && forall j :: 0 <= j < k' ==> sessions[j].id != session.id;
      assert k' == k by {
        assert all[k'] == sessions[k'];
      }
    } else {
      assert forall s :: s in sessions ==> s.id != session.id by {
        forall s | s in sessions ensures s.id != session.id {
          var j :| 0 <= j < |sessions| && sessions[j] == s;
          assert all[j] == s;
        }
      }
    }
  }

  /** `pose.category === category`, the category compared by its spelling. */
  predicate InCategory(category: string, pose: YogaPose) {
    CategoryName(pose.category) == category
  }

  /** A string that spells no category matches no pose; each spelling matches exactly
      the poses of its category. */
  lemma CategorySpelling(category: string, pose: YogaPose)
    ensures InCategory(category, pose) <==> exists c :: CategoryName(c) == category && pose.category == c
  {
    if InCategory(category, pose) {
      assert CategoryName(pose.category) == category;
    } else {
      forall c | CategoryName(c) == category ensures pose.category != c {
        CategoryNameInjective(c, pose.category);
      }
    }
  }

  /** The search test: the query, lowercased, occurs in the English name, the Sanskrit
      name or some target, all lowercased. */
  predicate MatchesQuery(query: string, pose: YogaPose) {
    var q := ToLower(query);
    || Includes(ToLower(pose.nameEnglish), q)
    || Includes(ToLower(pose.nameSanskrit), q)
    || exists target :: target in pose.targets && Includes(ToLower(target), q)
  }

  lemma EmptyOccursEverywhere(hay: string)
    ensures Includes(hay, "")
  {
    assert OccursAt(hay, "", 0);
  }

  class YogaService {
    /** The current catalog (the value of the pose observable). */
    var poses: seq<YogaPose>
    /** The generated sessions, oldest first (the value of the session observable). */
    var sessions: seq<YogaSession>

    /** The service once the catalog fetch and the stored-list read have delivered. */
    constructor(catalog: seq<YogaPose>, saved: seq<YogaSession>)
      ensures poses == catalog && sessions == saved
    {
      poses := catalog;
      sessions := saved;
    }

    /** Generates a session from the current catalog and appends it to the list; with an
        empty catalog it fails and the list is left as it was. */
    method GenerateSession(userInput: UserInput, sessionId: string, createdAt: int, rnd: Randomness)
      returns (r: Result<YogaSession, string>)
      requires FitsRandomness(rnd, FilterPosesByInput(poses, userInput))
      modifies this
      ensures poses == old(poses)
      ensures old(poses) == [] ==> r == Failure("No poses available") && sessions == old(sessions)
      ensures old(poses) != [] ==>
                && r == Success(BuildSession(userInput, old(poses), sessionId, createdAt, rnd))
                && sessions == old(sessions) + [r.value]
    {
      if |poses| == 0 {
        return Failure("No poses available");
      }
      var session := CreateSessionFromInput(userInput, poses, sessionId, createdAt, rnd);
      var updatedSessions := sessions + [session];
      sessions := updatedSessions;
      r := Success(session);
    }

    /** The first stored session with the id, if any. */
    function GetSessionById(id: string): (r: Option<YogaSession>)
      reads this
      ensures r.None? <==> forall s :: s in sessions ==> s.id != id
      ensures r.Some? ==> exists k :: 0 <= k < |sessions| && sessions[k] == r.value && r.value.id == id
                                      && forall j :: 0 <= j < k ==> sessions[j].id != id
    {
      SessionWithId(sessions, id)
    }

    /** Removes every stored session with the id, keeping the others in order. */
    method DeleteSession(id: string)
      modifies this
      ensures poses == old(poses)
      ensures sessions == WithoutSession(old(sessions), id)
    {
      var updatedSessions := WithoutSession(sessions, id);
      sessions := updatedSessions;
    }

    function GetPosesByCategory(category: string): (r: seq<YogaPose>)
      reads this
      ensures IsSubsequence(r, poses)
      ensures forall p :: p in r <==> p in poses && InCategory(category, p)
    {
      var inCategory := (p: YogaPose) => InCategory(category, p);
      FilterIsSubsequence(poses, inCategory);
      FilterMembership(poses, inCategory);
      Filter(poses, inCategory)
    }

    function SearchPoses(query: string): (r: seq<YogaPose>)
      reads this
      ensures IsSubsequence(r, poses)
      ensures forall p :: p in r <==> p in poses && MatchesQuery(query, p)
      ensures query == "" ==> r == poses
    {
      var matches := (p: YogaPose) => MatchesQuery(query, p);
      FilterIsSubsequence(poses, matches);
      FilterMembership(poses, matches);
      if query == "" then
        EmptyOccursEverywhere(ToLower(query));
        forall p | p in poses ensures matches(p) {
          EmptyOccursEverywhere(ToLower(p.nameEnglish));
        }
        FilterKeepsAll(poses, matches);
        Filter(poses, matches)
      else
        Filter(poses, matches)
    }
  }
}
