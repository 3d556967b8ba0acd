# YogaInstructor session generator and player, in Dafny

This project models the two parts of the YogaInstructor Angular app that hold its logic.

- **The yoga service** (`src/app/services/yoga.service.ts`):
  - turns a user's request into a session: it filters the pose catalog through a level gate, a focus gate and a goal gate, then splits the requested minutes over three fixed phases (Warm-up 15 %, Main Practice 70 %, Cool Down 15 %);
  - packs each phase greedily from a shuffled list of that phase's eligible poses, and closes with a Savasana;
  - builds the session's title and description;
  - keeps the list of generated sessions, with append-on-generate, lookup by id and delete by id, and answers the catalog queries by category and by search text.
- **The session display component** (`src/app/components/session-display/session-display.component.ts`): the player that walks through a session. Its fields are the pose index, the countdown, the playing, paused and complete flags, and a one-second interval. Its operations are start, pause and resume, next, previous, the interval's tick, completion and reset. It also has `formatTime`.

The records of `src/app/models/yoga.models.ts` are datatypes (`Models`). The string unions for difficulty and level, pose type, category and goal become closed enumerations.

The two uses of `Math.random` in the service are inputs:
- The shuffle of a phase's candidates is any permutation the caller supplies (`Generator.Randomness.shuffles`).
- Each transition phrase is picked by an index 0..2 (`Generator.PhraseIndex`).

The session id and the creation time are also parameters.

Modules, in dependency order:
- `Collections`: Option/Result, `Filter`, `Find`, `Any`, subsequences.
- `Text`: ASCII lowercasing, `includes`, decimal rendering, `padStart(2, '0')`, join.
- `Models`: the records.
- `Generator`: the gates, packing and three-phase flow.
- `SessionText`: title and description.
- `Store`: the service object with its catalog and session list.
- `Playback`: the player's transitions as functions on a state value.
- `SessionDisplay`: the component as a class whose methods update its fields, each proved to follow `Playback`.
- `FlowExamples`: two concrete catalogs showing what the flow rules allow.

The looping code is written as methods with loop invariants, each proved equal to a function that specifies it:
- `Generator.SelectPosesForPhase` equals `Pack`.
- `Generator.CreateSessionFlow` equals `SessionFlow`.

The properties are proved about those functions.

Behaviour of the code that the contracts state as it is, rather than as one might expect:
- The Savasana is looked up in the *filtered* catalog (yoga.service.ts:96, 179), so a Savasana that fails a gate is not appended.
- The three phases fill at most the requested time. The Savasana goes on top of that, so a session can last longer than requested (`Generator.SessionFlowBudget`; `FlowExamples.SavasanaRunsPastDuration` shows 660 s for a 10-minute request).
- Supine poses are eligible in Main Practice and in Cool Down, so one pose can be scheduled twice (`FlowExamples.SupinePoseRepeats`).
- The Savasana step's `min(300, total/10)` seconds can exceed the pose's own base duration.
- Pressing play after a session completes replays its last step while `isSessionComplete` stays true (`Playback.StartEffect`).
- Generation yields a session with no steps when every pose fails a gate; it fails only when the catalog itself is empty. Such a session can be started and then shows as playing, but no interval runs, so it never completes (`Playback.EmptySessionNeverCompletes`).

## Model

| member | source | states |
|---|---|---|
| Generator.IsLevelAppropriate | src/app/services/yoga.service.ts:140-147 | a pose passes the level gate exactly when the user is not a beginner or the pose is a beginner pose; one rank above an intermediate's covers all three ranks |
| Generator.DoesPoseMatchGoal | src/app/services/yoga.service.ts:149-161 | the goal table read from the category side: a pose serves a goal exactly when its category is mapped to that goal |
| Generator.FilterPosesByInput | src/app/services/yoga.service.ts:112-138 | the result is an order-preserving subsequence of the catalog, and holds exactly the catalog poses that pass the level gate, the focus gate (when areas are given) and the goal gate (when a goal is given), warm-up and cool-down poses being exempt from the last two |
| Generator.ExemptPosesPassOnLevelAlone | src/app/services/yoga.service.ts:119-134 | a warm-up or cool-down pose is kept exactly when it passes the level gate, whatever the focus areas and goal |
| Generator.FilterRespectsLevel | src/app/services/yoga.service.ts:114-115 | every kept pose passes the level gate, so a beginner only ever gets beginner poses |
| Generator.UngatedInputFiltersByLevel | src/app/services/yoga.service.ts:118-135 | with no focus areas and no goal, the filter keeps exactly the poses at the right level |
| Generator.PhasePoses | src/app/services/yoga.service.ts:170 | a phase's candidates are exactly the poses whose type the phase lists |
| Generator.WarmUpPreference | src/app/services/yoga.service.ts:195-201 | for Warm-up, the result keeps every gentle (warm-up-typed or beginner) candidate and, whenever one exists, only gentle ones; with no gentle candidate it is the candidates unchanged; other phases keep their candidates; the result is always an order-preserving subsequence of the candidates |
| Generator.WarmUpPreferenceChangesNothing | src/app/services/yoga.service.ts:17-23 | the Warm-up phase only admits warm-up poses, which are all gentle, so the narrowing never removes one |
| Generator.TransitionPhrases | src/app/services/yoga.service.ts:223-242 | each phase has three phrases, all different, so the three possible picks give three different transitions |
| Generator.GenerateTransition | src/app/services/yoga.service.ts:223-244 | each transition is one of its phase's three phrases, an unknown phase name using the Main Practice phrases |
| Generator.Pack | src/app/services/yoga.service.ts:206-218 | the walk never yields more steps than there are candidates |
| Generator.PackStepBounds | src/app/services/yoga.service.ts:206-217 | every packed step lasts at least 30 s, at most its pose's base time and at most the phase's time |
| Generator.PackTransitions | src/app/services/yoga.service.ts:210-215 | every packed step carries one of the phase's phrases |
| Generator.PackBudget | src/app/services/yoga.service.ts:193-218 | the packed steps never exceed the phase's time in total, and a phase with no time gets no step |
| Generator.PackOrder | src/app/services/yoga.service.ts:206-218 | the packed steps follow the shuffled order and use each candidate at most once |
| Generator.PackUsesEveryFittingPose | src/app/services/yoga.service.ts:206-218 | if 30 s or more are left over, every candidate of 30 s or more was scheduled |
| Generator.PackAdvance | src/app/services/yoga.service.ts:206-218 | one iteration of the walk: take `min(base, remaining)` if that is at least 30 s, otherwise skip the pose |
| Generator.SelectPosesForPhase | src/app/services/yoga.service.ts:191-221 | the loop over the shuffled candidates produces the packed steps, so they stay within bounds, total at most the phase's time and keep the shuffled order |
| Generator.PhaseSharesExact | src/app/services/yoga.service.ts:169 | for a whole number of minutes the floor shares are 9, 42 and 9 seconds per minute, and they add up to the total |
| Generator.CreateSessionFlow | src/app/services/yoga.service.ts:163-189 | the loop over the three phases plus the Savasana step produce the phases' steps in phase order, then the Savasana rule |
| Generator.PhaseEntriesFromPhase | src/app/services/yoga.service.ts:169-174 | each phase's steps use poses eligible for that phase |
| Generator.PhaseEntriesBounds | src/app/services/yoga.service.ts:168-174 | each phase's steps last 30 s to their base time each and fit in the phase's floor share |
| Generator.PhasesUpToSteps | src/app/services/yoga.service.ts:167-176 | every step of the first n phases uses one of the given poses and lasts 30 s to its base time |
| Generator.PhasesUpToBudget | src/app/services/yoga.service.ts:167-176 | the first n phases never exceed the sum of their shares |
| Generator.PhasesFitDuration | src/app/services/yoga.service.ts:163-176 | the three phases together never exceed `duration*60` seconds |
| Generator.WithSavasana | src/app/services/yoga.service.ts:178-186 | the steps are kept as a prefix and at most one step is added; a step is added exactly when some given pose is a Savasana and no step is one; the added step is the first Savasana of the poses, for `min(300, total/10)` seconds, with the closing phrase |
| Generator.SessionFlow | src/app/services/yoga.service.ts:163-189 | the flow starts with the three phases' steps in phase order and adds at most one step after them |
| Generator.SavasanaRule | src/app/services/yoga.service.ts:178-186 | without a Savasana among the filtered poses nothing is appended; if a phase already scheduled a Savasana nothing is appended; with one, the flow contains a Savasana step; if the phases scheduled none, exactly one step is appended last, with the first Savasana, `min(300, total/10)` seconds and the closing phrase |
| Generator.SessionFlowBudget | src/app/services/yoga.service.ts:163-189 | the whole flow lasts at most `duration*60` plus the Savasana's time |
| Generator.SessionFlowSteps | src/app/services/yoga.service.ts:163-189 | every step uses a given pose, and lasts 30 s to its base time, or is the Savasana with `min(300, total/10)` seconds |
| SessionText.GenerateSessionTitle | src/app/services/yoga.service.ts:246-261 | reading the title back recovers the goal (or its absence), the duration and the level it was made from; the reading accepts the duration only as it is rendered, with no leading zero and not empty |
| SessionText.ParseFieldsDuration | src/app/services/yoga.service.ts:257 | an accepted duration field is exactly a space, the duration's decimal rendering and `" min "` |
| SessionText.ParseTitleExact | src/app/services/yoga.service.ts:246-261 | every title the reading accepts is spelt exactly as the title of the parts it returns, so the title determines its spelling |
| SessionText.TitleFromParts | src/app/services/yoga.service.ts:256-260 | a goal title, `"<d> min"` and a capitalized level joined by ` • ` read back as that goal, duration and level |
| SessionText.TitleDeterminesGoalDurationLevel | src/app/services/yoga.service.ts:246-261 | two requests get the same title exactly when they agree on goal, duration and level |
| SessionText.GoalTitleRoundTrip | src/app/services/yoga.service.ts:247-256 | the goal-title table is one-to-one, the generic title included |
| SessionText.GenerateSessionDescription | src/app/services/yoga.service.ts:263-283 | the description starts with `"A <d>-minute <level> level practice"`, is longer than that opening and ends with a period; without focus areas it is the opening, then the goal's phrase after a space when a goal is given, then the period |
| SessionText.DescriptionFocusClause | src/app/services/yoga.service.ts:278-282 | with focus areas, the description is the one without them with the focus clause, naming the areas joined by commas, inserted before the final period |
| Store.BuildSession | src/app/services/yoga.service.ts:93-110 | the session keeps the given id and time, the request and its duration and level; its title reads back as the request's goal, duration and level, and its description opens with the duration and level |
| Store.CreateSessionFromInput | src/app/services/yoga.service.ts:93-110 | the session is the filtered catalog's flow with the request's title, description, duration and level, the given id and time, and the request itself |
| Store.GeneratedStepsPassGates | src/app/services/yoga.service.ts:93-97 | every step of a generated session uses a catalog pose that passes every gate, so a beginner gets beginner poses only |
| Store.GeneratedStepDurations | src/app/services/yoga.service.ts:93-97 | for the form's minimum of five minutes every step lasts 30 s or more; the session lasts at most the requested time plus the Savasana's |
| Store.SessionWithId | src/app/services/yoga.service.ts:289-293 | the lookup gives nothing exactly when no session has the id, and otherwise gives the first session with it |
| Store.WithoutSession | src/app/services/yoga.service.ts:295-300 | the remaining list is an order-preserving subsequence holding exactly the sessions with another id |
| Store.DeleteIdempotent | src/app/services/yoga.service.ts:295-300 | deleting an id twice leaves the same list as deleting it once |
| Store.DeleteThenFind | src/app/services/yoga.service.ts:289-300 | after a deletion the id finds nothing, and every other id finds what it found before |
| Store.AppendThenFind | src/app/services/yoga.service.ts:73-91 | after generation appends a session, its id finds it, unless an older session already had that id |
| Store.CategorySpelling | src/app/services/yoga.service.ts:306-310 | a category string selects exactly the poses whose category has that spelling, so a string that spells no category selects none |
| Store.YogaService.constructor | src/app/services/yoga.service.ts:38-41 | the service starts from the delivered catalog and stored list |
| Store.YogaService.GenerateSession | src/app/services/yoga.service.ts:73-91 | with an empty catalog it fails with "No poses available" and the list is unchanged; otherwise it returns the built session and the list becomes the old list plus that session; the catalog never changes |
| Store.YogaService.GetSessionById | src/app/services/yoga.service.ts:289-293 | the first stored session with the id, or nothing when there is none |
| Store.YogaService.DeleteSession | src/app/services/yoga.service.ts:295-300 | the list loses exactly the sessions with the id and keeps the rest in order; the catalog is unchanged |
| Store.YogaService.GetPosesByCategory | src/app/services/yoga.service.ts:306-310 | an order-preserving subsequence of the catalog with exactly the poses of that category |
| Store.YogaService.SearchPoses | src/app/services/yoga.service.ts:312-320 | an order-preserving subsequence of the catalog with exactly the poses whose English name, Sanskrit name or some target contains the query, all compared lowercased; the empty query returns the whole catalog |
| Playback.CurrentPose | src/app/components/session-display/session-display.component.ts:730-735 | the current step exists exactly when the index is within the session, and is the step at that index |
| Playback.InitialValid | src/app/components/session-display/session-display.component.ts:719-728 | a freshly loaded (reset) player is in a valid state |
| Playback.StartPoseTimerValid | src/app/components/session-display/session-display.component.ts:763-782 | starting the timer while playing keeps the state valid: the countdown is at most the step's duration and only one timer is live |
| Playback.TransitionsPreserveValid | src/app/components/session-display/session-display.component.ts:737-844 | play/pause, next, previous, a tick, reset and stopping the timer keep the index on a step, the countdown within the step's duration, a live timer only while playing and unpaused, and paused only while playing |
| Playback.NextPoseEffect | src/app/components/session-display/session-display.component.ts:805-818 | next does nothing on the last step; otherwise it moves one step on with the countdown cleared (reloaded with the new step's duration when playing), flags unchanged |
| Playback.PreviousPoseEffect | src/app/components/session-display/session-display.component.ts:820-833 | previous does nothing on the first step; otherwise it moves one step back with the countdown cleared (reloaded when playing), flags unchanged, and a timer running exactly when playing and unpaused |
| Playback.NextPreviousInverse | src/app/components/session-display/session-display.component.ts:805-833 | away from the ends and while stopped or paused, previous undoes next and next undoes previous, up to the cleared countdown |
| Playback.PauseThenResume | src/app/components/session-display/session-display.component.ts:737-761 | pausing stops the timer and keeps the countdown and index; resuming restarts the timer from that countdown |
| Playback.StartEffect | src/app/components/session-display/session-display.component.ts:737-751 | starting sets playing and unpaused, starts the timer at the same index and loads the step's duration only when the countdown is 0; the complete flag is kept |
| Playback.TickEffect | src/app/components/session-display/session-display.component.ts:771-803 | a tick with the countdown at 0 ends the subscription; otherwise it takes one second off; on reaching 0 it moves to the next step with its full duration, or after the last step stops playing and marks the session complete |
| Playback.ResetIdempotent | src/app/components/session-display/session-display.component.ts:835-844 | reset returns to the initial state, so resetting twice is resetting once |
| Playback.TicksAdd | src/app/components/session-display/session-display.component.ts:771-781 | a + b ticks are a ticks followed by b ticks |
| Playback.TicksWithinStep | src/app/components/session-display/session-display.component.ts:771-781 | while a step runs, each tick takes one second off, and when it runs out the player moves on |
| Playback.ElapsedStep | src/app/components/session-display/session-display.component.ts:771-797 | the time before step i+1 is the time before step i plus step i's duration |
| Playback.StepStartsOnTime | src/app/components/session-display/session-display.component.ts:745-818 | after start, step i begins after exactly the durations of the steps before it |
| Playback.FullRun | src/app/components/session-display/session-display.component.ts:745-818 | with positive durations, start followed by ticks shows step i exactly from `Elapsed(i)` to `Elapsed(i+1)` ticks, counting down, so the steps are visited in order, each once; after exactly the total duration the session is complete and idle |
| Playback.EmptySessionNeverCompletes | src/app/components/session-display/session-display.component.ts:745-764 | starting a session with no steps sets playing with no countdown and no interval, so no number of ticks changes it and it never completes |
| SessionDisplay.SessionDisplayComponent.constructor | src/app/components/session-display/session-display.component.ts:719-728 | loading a session stores it and resets the player to the initial, valid state |
| SessionDisplay.SessionDisplayComponent.CurrentPose | src/app/components/session-display/session-display.component.ts:730-735 | the current step exists exactly when the index is within the session, and is the step at that index |
| SessionDisplay.SessionDisplayComponent.ToggleSession | src/app/components/session-display/session-display.component.ts:737-743 | the fields move as `Playback.ToggleSession` says and stay valid |
| SessionDisplay.SessionDisplayComponent.StartSession | src/app/components/session-display/session-display.component.ts:745-751 | the fields move as `Playback.StartSession` says |
| SessionDisplay.SessionDisplayComponent.TogglePause | src/app/components/session-display/session-display.component.ts:753-761 | the fields move as `Playback.TogglePause` says |
| SessionDisplay.SessionDisplayComponent.StartPoseTimer | src/app/components/session-display/session-display.component.ts:763-782 | the fields move as `Playback.StartPoseTimer` says |
| SessionDisplay.SessionDisplayComponent.StopTimer | src/app/components/session-display/session-display.component.ts:784-789 | the interval is cancelled and nothing else changes |
| SessionDisplay.SessionDisplayComponent.Tick | src/app/components/session-display/session-display.component.ts:771-781 | one interval emission moves the fields as `Playback.Tick` says and keeps them valid |
| SessionDisplay.SessionDisplayComponent.OnPoseComplete | src/app/components/session-display/session-display.component.ts:791-797 | the fields move as `Playback.OnPoseComplete` says |
| SessionDisplay.SessionDisplayComponent.CompleteSession | src/app/components/session-display/session-display.component.ts:799-803 | the fields move as `Playback.CompleteSession` says |
| SessionDisplay.SessionDisplayComponent.NextPose | src/app/components/session-display/session-display.component.ts:805-818 | the fields move as `Playback.NextPose` says, and a valid state stays valid |
| SessionDisplay.SessionDisplayComponent.PreviousPose | src/app/components/session-display/session-display.component.ts:820-833 | the fields move as `Playback.PreviousPose` says, and a valid state stays valid |
| SessionDisplay.SessionDisplayComponent.ResetSession | src/app/components/session-display/session-display.component.ts:835-844 | the fields return to the initial, valid state |
| SessionDisplay.SessionDisplayComponent.Destroy | src/app/components/session-display/session-display.component.ts:715-717 | leaving the page cancels the interval and changes nothing else |
| SessionDisplay.FormatTime | src/app/components/session-display/session-display.component.ts:864-868 | the text is the whole minutes in decimal without leading zeros, a colon and two digits; the two-digit field is below 60 and 60 times the minutes plus the seconds is the input |
| SessionDisplay.FormatTimeRoundTrip | src/app/components/session-display/session-display.component.ts:864-868 | reading a formatted time back gives the seconds it was made from |
| SessionDisplay.FormatTimeInjective | src/app/components/session-display/session-display.component.ts:864-868 | different durations are shown differently |
| Text.Pad2 | src/app/components/session-display/session-display.component.ts:867 | `padStart(2, '0')` of a number below 100 is two digits with that value |
| Text.NatToString | src/app/services/yoga.service.ts:257 | a number renders as one or more decimal digits, with no leading zero unless the number is 0 |
| Text.NatToStringRoundTrip | src/app/services/yoga.service.ts:257 | a number's decimal rendering reads back as that number |
| Text.CanonicalIsRendering | src/app/services/yoga.service.ts:257 | a numeral of one or more digits with no leading zero is the rendering of its value, so such numerals and renderings are the same strings |
| FlowExamples.SavasanaAppended | src/app/services/yoga.service.ts:163-186 | for a 10-minute request over one warm-up, one standing, one cool-down pose and a Savasana, with the Savasana shuffled last, the flow is the three phase poses for 90, 420 and 90 s followed by the Savasana for 60 s |
| FlowExamples.SavasanaRunsPastDuration | src/app/services/yoga.service.ts:178-186 | that session lasts 660 s, more than the 600 s requested |
| FlowExamples.SupinePoseRepeats | src/app/services/yoga.service.ts:17-36 | over one warm-up pose and one supine pose, the supine pose is scheduled both in Main Practice and in Cool Down |

## Left out

- The HTTP catalog fetch, the browser-storage read and write of the session list, JSON parsing and the RxJS subjects and observables are not modelled. The catalog and the session list are fields of `Store.YogaService`, and `getAllPoses`, which only returns the catalog, has no member.
- `generateSessionId` and `new Date()` are not modelled: the id and the creation time are parameters of `Store.YogaService.GenerateSession`.
- `Math.random` is not modelled. The shuffle is a caller-supplied permutation and each phrase pick a caller-supplied index; `Generator.FitsRandomness` says which choices are possible.
- `Math.floor(total * 0.1)` is modelled as `total / 10`, which is equal for whole totals. The phase shares are exact integer floor division.
- `toLowerCase` is modelled on ASCII letters only (`Text.ToLower`).
- Several fallbacks cannot happen once difficulty, level and goal are closed enumerations, so they are not modelled: the `|| 1` and `|| []` defaults of the level and goal tables, the 'Custom Yoga Flow' title, and an undefined goal description.
- `updateProgress`, `updateCircleProgress`, `overallProgress`, `circumference` and `circleOffset` are floating-point display values and are not modelled. `onImageError` edits the DOM and is not modelled.
- The component is modelled only once its session has loaded. The `!this.session` guards, the navigation home when the id is unknown, the route subscription and a re-emission of the session list re-running the reset are not modelled.
- The wall-clock timing of `interval(1000)` is not modelled: one emission is one call of `Tick`, callable only while the subscription is live.
- SessionDisplay.SessionDisplayComponent.NextPose: its validity guarantee is stated only for a state that was valid before; the field updates themselves are stated for every state.
- SessionDisplay.SessionDisplayComponent.PreviousPose: as for `NextPose`, validity is promised only from a valid state.
