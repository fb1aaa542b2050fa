# Verified model of the convention signup allocator

A convention has events; an event has runs; people sign up for a run. The registration policy of an
event gives each of its runs *buckets* with limited or unlimited slots. A bucket may not count
towards the total, and at most one bucket is the *anything* (flex) bucket. A signup is confirmed,
waitlisted or withdrawn, and requests a bucket or states no preference. Five services place and
move signups; this project models them and proves what they keep over all histories of calls.

Five smaller, self-contained parts of the repository are modelled too: splitting a timespan into
days, compacting the change log, grouped signup counts, the edit log of a select control, and
completing a translation.

## How it is built

Every service appears twice. On *rows* (`seq<Signup>`) it is a function, and the theorems are about
these functions. On *records* (classes whose fields are updated in place) it is a method with the
loops and the recursion of the source, proved to do exactly what the function says. Rows carry the
position of the signup in its run as their id.

| file | what it holds |
|---|---|
| Sorting, Registration | options, filters and the stable sort; keys, buckets, policies, signups, counting |
| BucketFinder, Choices | choosing a bucket, with or without bumping; and which one a request gets, told from which are free and which hold somebody who can be bumped |
| VacancyFill, VacancyChain, VacancyInvariants, VacancyFairness | the chain of moves that fills a vacancy, and what it does and keeps |
| Allocation | capacity, shape, stability and preferences of the signups of a run |
| EventSignup, Placements, Vacating | placing a signup, and where that puts it; withdrawing and becoming a team member |
| PolicyChange, PolicyChangeResults, PolicyChangeExactly, Replacement | re-placing everybody against a new policy, what that establishes, exactly when it keeps the rest, and where it puts whom |
| Promotions, LoadChanges | who a call will move, told from the rows before it: when calls raise, and what they do to loads |
| RunSteps, ConventionRuns, AnyHistories, FixedPolicies, Settling, SignupLimit | service calls as steps, and all histories of them |
| CallsExactly | exactly when a call succeeds |
| Records, VacancyFillService, SlotServices, SignupRequests, PolicyChangeService | the services on records |
| ServiceSteps | the services on records perform the steps of a convention |
| HarmlessPolicies, Boundaries, ChangeBoundaries, LoadBoundaries | where a promise ends: which policies can do harm, and small runs that show it |
| Timespans, Compaction, SignupCounts, ChangeSets, Translations | the smaller parts |

An exception in the source (a missing bucket, a record that does not save) is the outcome `Raised`;
a failed validation is `Rejected`. Either leaves a convention as it was.

## What was found

Policies in which every limited bucket counts, and requests for buckets the policy has, keep every
invariant. In general:

1. Signing up looks for a bucket among counted signups only (app/services/event_signup_service.rb:189)
   but tests fullness on all of them (line 46). In any run the service raises exactly when the bucket
   found is full and, among counted signups, either nobody in it can be bumped or no other counted
   limited bucket is free (`EventSignup.PlaceRaises`). In a run in shape that means exactly that the
   bucket does not count (`EventSignup.PlaceRaisesInShape`, `Boundaries.SigningUpRaises`); in a run
   whose shape a policy change has broken, a bucket that counts raises too
   (`ChangeBoundaries.SigningUpRaisesAfterChange`).
2. A policy change may drop a bucket that a waiting signup asked for. When a later chain moves such a
   signup, saving it fails; the withdrawal that opened the vacancy raises, and so does a team conversion,
   which undoes the whole joining of the team. Either raises exactly when one of its movers, who are told
   from the rows before the call, has such a request (`Promotions.WithdrawRaises`,
   `Promotions.ConvertRaises`). That holds in every state any history leads to, harmful policy changes
   included (`AnyHistories.EveryHistoryIsSafe`); `Boundaries.WithdrawingRaises` shows a withdrawal that
   raises.
3. The simulator of a policy change moves a bumped copy without touching its counted flag
   (app/services/event_change_registration_policy_service.rb:114). From a run in shape, a successful
   change leaves every flag right exactly when its simulation bumps nobody out of a bucket that does
   not count (`PolicyChangeExactly.ChangeKeepsShapeExactly`); `ChangeBoundaries.BumpLosesCount` is a run
   that is in shape, within capacity and stable, and a change that leaves a flag wrong
   (`ChangeBoundaries.SceneExists` gives such a run).
4. From any run, a successful policy change leaves a waitlist that is stable, as signing up sees it,
   exactly when everybody who found no bucket in the simulation is kept out of what looks free to one
   who sees counted signups only (`PolicyChangeExactly.ChangeStabilisesExactly`). There are two ways to
   fail. Somebody is left waiting who may be given a bucket with slots that does not count
   (`ChangeBoundaries.ChangeLeavesUncountedRoom`); this is the only way when nobody is bumped out of a
   bucket that does not count (`PolicyChangeExactly.ChangeStabilisesUnbumped`). Or somebody who was so
   bumped is not counted where they sit (`ChangeBoundaries.BumpUnsettlesWaitlist`).
   A change is *harmless* if it bumps nobody out of a bucket that does not count and leaves nobody
   waiting who may be given such a bucket with slots. Over whole histories, everything stays good after
   every call exactly when every policy change is harmless (`ConventionRuns.EveryHistoryIsGood`). A change
   to a policy never harms a good run exactly when its limited buckets that do not count have no slots
   (`HarmlessPolicies.HarmlessExactlyWithoutHiddenSlots`). Schedule safety needs no such care: it holds
   after any history (`AnyHistories.EveryHistoryIsSafe`).
5. A signup that waits for a bucket that does not count does not load its profile's limit, but does once
   it is promoted to the anything bucket, so the limit can be passed: a history of four calls, all made
   under a maximum of one, ends with a load of two (`LoadBoundaries.LimitIsPassed`). From a good state
   within the maximum, a withdrawal takes somebody past it exactly when the signup it will promote waits
   for a bucket that does not count and is another profile's, which is at the maximum already
   (`SignupLimit.CancelPassesLimit`). Over whole histories under a fixed maximum and fixed policies, nobody
   is ever past the maximum exactly when every withdrawal and every conversion leaves room for those it
   moves (`SignupLimit.EveryHistoryWithinExactly`); with every limited bucket counted they always do.
6. Compacting the change log a second time changes no group, but may reorder changes of the same time;
   it does so exactly when their groups first appear in the other order
   (`Compaction.CompactingAgainExactly`, `Compaction.CompactingAgainReorders`).
7. For an edit log no generated id needs to be fresh (`ChangeSets.EveryEditing`).
8. Merging a translation difference leaves no difference exactly when the empty texts of the complete
   translation were translated before (`Translations.MergingCompletes`).
9. Splitting a timespan works for every unit and duration whose steps lead forward, also where periods
   differ in length, and for negative offsets too, as long as the last boundary is not pulled before the
   finish. It is cut exactly at the hops in between, but for the first: an offset that pushes the first
   hop past the start of the timespan leaves a first part that reaches to the second hop. It is cut at
   all its hops exactly when the first one does not lie inside it (`Timespans.GetTimespansWithin`,
   `Timespans.FirstHopIsCutExactly`, `Timespans.FirstHopInside`).
10. A withdrawal does not fill the slot it frees in an over-full bucket; becoming a team member does
   (`VacancyFairness.OverfullShrinks`, `VacancyFairness.SlotsAreFilled`).

## Model

| member | source | states |
|---|---|---|
| BucketFinder.FindBucketNone | app/services/signup_bucket_finder.rb:12-19 | the finder answers nothing exactly when every bucket the request may be given is full and bumping would free none |
| BucketFinder.BumpCoherence | app/services/signup_bucket_finder.rb:12-58 | a full bucket is answered only for a request with a preference, when all its buckets are full, one holds a movable signup and another counted limited bucket has a free slot |
| BucketFinder.PrioritizedRequested | app/services/signup_bucket_finder.rb:62-68 | a preference may be given its bucket, and the anything bucket unless the requested one is not counted |
| BucketFinder.PrioritizedNoPreference | app/services/signup_bucket_finder.rb:70-74 | no preference may be given exactly the counted limited buckets |
| BucketFinder.RequestIsHonoured | app/services/signup_bucket_finder.rb:12-19 | a request gets its own bucket if that has a free slot, otherwise the anything bucket; only when both are full is anybody bumped, first out of the requested bucket |
| BucketFinder.AnythingComesFirst | app/services/signup_bucket_finder.rb:46-58 | without a preference, and for somebody bumped, a free anything bucket comes first |
| Choices.FinderGets | app/services/signup_bucket_finder.rb:12-29 | told only from which buckets are free and which hold somebody who can be bumped: a free bucket first, the requested one before the anything bucket; one to be bumped out of only when none is free; and nothing exactly when there is neither |
| Choices.BumpedTakesFirst | app/services/signup_bucket_finder.rb:46-58 | somebody bumped goes to a free limited bucket that counts, other than the one left, the anything bucket first |
| VacancyFill.FillVacancy | app/services/event_vacancy_fill_service.rb:27-40 | filling a vacancy changes only state, bucket and flag of signups and brings nobody back from withdrawal |
| VacancyChain.BestTaker | app/services/event_vacancy_fill_service.rb:120-129 | the mover goes before every other candidate that could take the vacancy: waiting first, oldest first; then confirmed with a preference, then without, latest first |
| VacancyChain.TakersWant | app/services/event_vacancy_fill_service.rb:59-88 | the first taker is the first candidate the vacancy is something for: one that waits or sits in a limited bucket that counts, not there nor where it asked to, and asked for it, or has no preference, or it is the anything bucket |
| VacancyChain.FillWanted | app/services/event_vacancy_fill_service.rb:59-88 | each move of a chain is to a vacancy that is something for its mover |
| VacancyChain.FillMoves | app/services/event_vacancy_fill_service.rb:42-57 | moves link up, name nobody twice and tell truly where each mover was and is; the unnamed are untouched |
| VacancyChain.FillConserves | app/services/event_vacancy_fill_service.rb:42-57 | the vacancy's bucket gains one, buckets passed through keep their number, the last one left loses one unless a waiting signup ended the chain |
| VacancyChain.FillConfirms | app/services/event_vacancy_fill_service.rb:42-57 | the number of confirmed signups grows by one exactly when the chain ends in a promotion |
| VacancyChain.FillFair | app/services/event_vacancy_fill_service.rb:59-68 | at every link the mover goes before each candidate, not moved yet, for whom that vacancy is something |
| VacancyChain.FillExhausts | app/services/event_vacancy_fill_service.rb:42-68 | a chain that stops without a promotion leaves a vacancy that is nothing for any remaining candidate |
| VacancyFairness.VacancyFair | app/services/event_vacancy_fill_service.rb:59-68 | nobody for whom a vacancy is something is passed over; if one of them waits, the mover waited at least as long and ends the chain |
| VacancyFairness.VacancyExhausts | app/services/event_vacancy_fill_service.rb:42-88 | a chain that stops without a promotion leaves open only what is nothing for anybody active off the team whom it did not move |
| VacancyFairness.VacancyHarmsNobody | app/services/event_vacancy_fill_service.rb:42-57 | a chain withdraws nobody, takes no confirmed signup back, touches no team member's or immovable signup, and promotes at most one |
| VacancyFairness.WithdrawingHarmsNobody | app/services/event_withdraw_service.rb:32-70 | exactly the one signup is withdrawn; others change only by staying or becoming confirmed, and only if a counted confirmed one left |
| VacancyFairness.ConvertingHarmsNobody | app/services/create_team_member_service.rb:63-74 | the same for a signup that becomes a team member's |
| VacancyFairness.OverfullShrinks | app/services/event_withdraw_service.rb:57-64 | a withdrawal from an over-full bucket, or one without a limit, moves nobody, and the bucket holds one less |
| VacancyFairness.SlotsAreFilled | app/services/create_team_member_service.rb:63-74 | otherwise a counted slot given up is filled if it is something for anybody; one given up by a new team member even in an over-full bucket |
| VacancyFairness.VacancySatisfies | app/services/event_vacancy_fill_service.rb:70-88 | the number of signups in the bucket they asked for never drops |
| VacancyInvariants.VacancyKeepsShape | app/services/event_vacancy_fill_service.rb:42-57 | a chain keeps state, bucket and counted flag of every signup consistent |
| VacancyInvariants.VacancyKeepsPreferences | app/services/event_vacancy_fill_service.rb:70-88 | nobody in their requested bucket is moved, and a confirmed signup with a preference moves only into its requested bucket |
| VacancyInvariants.VacancyCompletes | app/services/event_vacancy_fill_service.rb:42-57 | filling never raises while every request names a bucket of the policy |
| VacancyInvariants.FillStabilises | app/services/event_vacancy_fill_service.rb:42-88 | from an open vacancy in a stable run, the chain ends with nobody waiting who could be placed |
| VacancyInvariants.MemoisedOrderAgrees | app/services/event_vacancy_fill_service.rb:94-118 | the order remembered before the chain gives the same chain as sorting anew at every link |
| VacancyFillService.Service.BestSignup | app/services/event_vacancy_fill_service.rb:59-68 | the search over the remembered order finds the first taker, or there is none |
| VacancyFillService.Service.MoveInto | app/services/event_vacancy_fill_service.rb:46-52 | exactly the mover's record changes, the move is recorded, and the mover is no candidate any more |
| VacancyFillService.Service.FillBucketVacancy | app/services/event_vacancy_fill_service.rb:42-57 | the recursion on records makes the chain of the rows, ends on every input, and raises when the chain does |
| VacancyFillService.Service.Memoise | app/services/event_vacancy_fill_service.rb:94-116 | the remembered list holds the records of the sorted active signups outside the team |
| VacancyFillService.Service.Call | app/services/event_vacancy_fill_service.rb:27-40 | the whole call: nothing for an unlimited bucket, an exception for an unknown one, otherwise the chain |
| EventSignup.PlaceRaises | app/services/event_signup_service.rb:41-59 | in any run, signing up raises exactly when the bucket found is full and, among counted signups, nobody in it can be bumped or no other counted limited bucket is free |
| EventSignup.PlaceRaisesInShape | app/services/event_signup_service.rb:41-59 | in a run in shape that is exactly when the bucket found is full and does not count |
| EventSignup.PlaceDisplaces | app/services/event_signup_service.rb:243-253 | at most one existing signup changes; it has no preference, stays confirmed and counted, and none changes for a signup without preference |
| EventSignup.PlaceAdds | app/services/event_signup_service.rb:162-196 | the new signup waits exactly when its profile is not on the team and there is no room; otherwise it sits in a bucket the request may be given, counted as that bucket says |
| Placements.PlaceHonours | app/services/event_signup_service.rb:41-63 | told from the counted signups of the run: a free requested bucket, then a free anything bucket it may be given, without preference a free limited bucket that counts, the anything bucket first; else where somebody can be bumped, the requested one first; else it waits. Only the first signup that can be bumped changes, and only if the bucket is full |
| Placements.DisplacesLast | app/services/event_signup_service.rb:41-46 | in a run in shape somebody is displaced only when all buckets the request may be given are full of counted signups |
| Placements.PlaceTeamMember | app/services/event_signup_service.rb:155-172 | a team member is confirmed without a bucket, uncounted, and displaces nobody |
| Placements.RefusesExactly | app/services/event_signup_service.rb:144-160 | a request is refused exactly when a team member states a preference, or somebody else states none where one is asked for, or one for no bucket or the anything bucket |
| Placements.PlaceRaisesOutside | app/services/event_signup_service.rb:41-59 | in a run in shape signing up raises exactly when the request gets a bucket that is full and does not count |
| EventSignup.PlaceKeepsShape | app/services/event_signup_service.rb:162-172 | the new signup's state, bucket and flag are consistent, and so are the others' |
| EventSignup.PlaceKeepsCapacity | app/services/event_signup_service.rb:41-59 | no limited bucket becomes over-full, or more over-full, by signing up |
| EventSignup.PlaceKeepsStable | app/services/event_signup_service.rb:41-59 | signing up leaves nobody waiting who could be placed |
| EventSignup.PlaceKeepsPreferences | app/services/event_signup_service.rb:144-160 | the new and the bumped signup sit where their request allows |
| SlotServices.SignupService.Call | app/services/event_signup_service.rb:41-63 | on records: the validations, the bump and the new record are those of the rows |
| SlotServices.SignupService.MoveSignup | app/services/event_signup_service.rb:243-253 | exactly the bumped record changes its bucket; false where the source raises |
| SlotServices.SignupService.Create | app/services/event_signup_service.rb:48-56 | one new record is appended to the run |
| Vacating.WithdrawKeeps | app/services/event_withdraw_service.rb:32-70 | withdrawing and filling the vacancy keep the shape, over-fill nothing and keep the waitlist stable |
| Vacating.ConvertKeeps | app/services/create_team_member_service.rb:63-74 | so does turning a signup into a team member's |
| SlotServices.WithdrawService.Call | app/services/event_withdraw_service.rb:32-43 | on records: withdraws the signup and fills its slot as the rows do |
| SlotServices.WithdrawService.MoveSignups | app/services/event_withdraw_service.rb:57-70 | fills the vacancy only for a counted confirmed signup whose bucket was not over-full |
| SlotServices.CreateTeamMemberService.ConvertSignup | app/services/create_team_member_service.rb:63-74 | on records: one signup is converted and its slot filled if it was counted and confirmed |
| SlotServices.CreateTeamMemberService.ConvertRun | app/services/create_team_member_service.rb:50-61 | every active signup of the new member in a run is converted in turn, and the moves are gathered |
| SlotServices.CreateTeamMemberService.ConvertSignups | app/services/create_team_member_service.rb:50-61 | the same over all runs of the event, each run as if alone, and the moves of all runs are gathered |
| SlotServices.CreateTeamMemberService.Call | app/services/create_team_member_service.rb:20-37 | the team grows by the profile and every run of the event is converted |
| SignupRequests.WithdrawReplaced | app/services/accept_signup_request_service.rb:49-58 | the replaced signup, if any, is withdrawn; the target run stays as it is when it is another one |
| SignupRequests.CreateSignup | app/services/accept_signup_request_service.rb:60-71 | the requested signup is made in the target run and in no other |
| SignupRequests.Accept | app/services/accept_signup_request_service.rb:20-33 | withdrawal first, then the signup sees the run as the withdrawal left it; accepted exactly when both succeed, with the new signup as the result |
| PolicyChange.SimulateCases | app/services/event_change_registration_policy_service.rb:41-92 | simulating a signup seats it, seats it after one bump into a free counted limited bucket, or finds no room |
| Replacement.SimulationPlaces | app/services/event_change_registration_policy_service.rb:41-116 | a signup stays in its bucket if that exists and has a free slot; otherwise it gets the requested bucket if free, then the anything bucket if it may be given that, without preference a limited bucket that counts; only when all are full is the first that can be bumped moved, first out of the requested bucket; it is left exactly when there is nothing |
| Replacement.PlacementOrder | app/services/event_change_registration_policy_service.rb:27-38 | confirmed signups without a bucket are kept, all other active ones placed, the confirmed before the waiting and the oldest first |
| Replacement.ChangePlaces | app/services/event_change_registration_policy_service.rb:167-235 | in a changed run everybody sits where they were put at their turn; only who has no preference may have been bumped since, into a limited bucket that counts; who got nothing is as before |
| Replacement.ChangeFitsExactly | app/services/event_change_registration_policy_service.rb:61-71 | a change strands nobody exactly when there is something for every confirmed signup at its turn |
| Replacement.ChangeGivesAsAsked | app/services/event_change_registration_policy_service.rb:41-71 | whoever a change moves or promotes sits where their request allows |
| PolicyChange.SimulateFits | app/services/event_change_registration_policy_service.rb:27-92 | among the copies no limited bucket of the new policy is ever over-full |
| PolicyChange.NoRoomLasts | app/services/event_change_registration_policy_service.rb:41-71 | a request without room has none at the end either |
| PolicyChange.PlacedOrNoRoom | app/services/event_change_registration_policy_service.rb:27-71 | every signup gets a copy or has no room among the final copies; a confirmed one without a copy is immovable |
| PolicyChangeResults.ChangeEstablishes | app/services/event_change_registration_policy_service.rb:167-218 | from any occupancy: a change that strands nobody fits every limited bucket, keeps the confirmed confirmed, and leaves nobody waiting with room |
| PolicyChangeResults.ChangeStabilises | app/services/event_change_registration_policy_service.rb:167-218 | with no limited bucket that does not count, the waitlist is stable as signing up sees it |
| PolicyChangeResults.ChangeKeepsShape | app/services/event_change_registration_policy_service.rb:220-235 | and every signup has its shape under the new policy |
| PolicyChangeResults.RaisingStrandsNobody | app/services/event_change_registration_policy_service.rb:41-71 | raising only the slots of the buckets strands nobody |
| PolicyChangeResults.ReapplyingChangesNothing | app/services/event_change_registration_policy_service.rb:41-71 | re-applying a policy to a stable run within capacity strands nobody and changes nothing |
| PolicyChangeService.SignupSimulator.Keep | app/services/event_change_registration_policy_service.rb:27-36 | signups without a bucket are kept uncopied, the rest are to be placed, in order |
| PolicyChangeService.SignupSimulator.SimulateSignup | app/services/event_change_registration_policy_service.rb:41-71 | only copies change; the copies and the immovable are those of the rows |
| PolicyChangeService.SignupSimulator.PlaceSignup | app/services/event_change_registration_policy_service.rb:75-92 | a fresh copy takes the place, after a bump if the bucket is full |
| PolicyChangeService.SignupSimulator.MoveSignup | app/services/event_change_registration_policy_service.rb:104-116 | what is bumped is a copy, never a real signup |
| PolicyChangeService.SignupSimulator.PlaceAll | app/services/event_change_registration_policy_service.rb:38-38 | the whole simulation of a run, with every real signup as before |
| PolicyChangeService.ChangeService.SimulateAll | app/services/event_change_registration_policy_service.rb:196-209 | every run is simulated and no run changes |
| PolicyChangeService.ChangeService.ApplyRun | app/services/event_change_registration_policy_service.rb:211-218 | exactly the signups with a copy get its state, bucket and flag |
| PolicyChangeService.ChangeService.ApplyAll | app/services/event_change_registration_policy_service.rb:211-218 | the copies of each run are applied to that run only |
| PolicyChangeService.ChangeService.Call | app/services/event_change_registration_policy_service.rb:167-194 | all or nothing: it succeeds exactly when no run strands anybody, and otherwise policy and signups are as before |
| RunSteps.ConvertCases | app/services/create_team_member_service.rb:50-61 | with one active signup per profile, joining a team converts exactly that one, or none |
| ConventionRuns.PerformIsGood | app/services/accept_signup_request_service.rb:20-33 | each service call, also one that replaces a signup in another run, keeps all the invariants in all runs exactly when it is not a harmful policy change |
| ConventionRuns.EveryHistoryIsGood | app/services/event_signup_service.rb:41-59 | over any history: after every call capacity, shape, a stable waitlist, one active signup per profile and run, and no signups of a profile in two runs on at once that both forbid it except between teams, exactly when every policy change is harmless |
| AnyHistories.EveryHistoryIsSafe | app/services/event_signup_service.rb:99-142 | after any history, harmful policy changes included: one active signup per profile and run, none in two runs on at once that both forbid it except between teams, only the confirmed hold buckets, which exist; and exactly when withdrawing and joining a team fail |
| HarmlessPolicies.HarmlessExactlyWithoutHiddenSlots | app/services/event_change_registration_policy_service.rb:167-194 | changing to a policy never harms a good run exactly when each of its limited buckets that do not count has no slots |
| ConventionRuns.ReapplyingIsIdle | app/services/event_change_registration_policy_service.rb:167-194 | in every state reached without harm re-applying an event's policy succeeds and changes nothing |
| ConventionRuns.RaisingSucceeds | app/services/event_change_registration_policy_service.rb:167-194 | in every state reached without harm raising the slots of an event's buckets succeeds |
| FixedPolicies.EveryHistoryPrefers | app/services/event_vacancy_fill_service.rb:70-88 | while policies are fixed everybody sits where their request allows, no withdrawal raises, and joining a team fails only for who is on it |
| Settling.EveryHistorySettles | app/services/event_vacancy_fill_service.rb:42-88 | while policies are fixed, nobody sits in a limited bucket that counts, such as the anything bucket, while another that counts, which they asked for, has a free slot |
| Settling.FillSettles | app/services/event_vacancy_fill_service.rb:42-88 | a chain leaves everybody settled in that sense, from any open vacancy |
| CallsExactly.SignUpSucceedsExactly | app/services/event_signup_service.rb:41-63 | in a good convention a sign-up succeeds exactly when it is allowed, its request is understood, and it does not get a bucket that is full and does not count |
| CallsExactly.MaySignUpExactly | app/services/event_signup_service.rb:77-142 | it is allowed exactly when no check outside the allocator refuses it, the profile is not signed up for the run, is not busy in another run, and, if the signup would count, the number of its other signups the limit counts is below the limit |
| CallsExactly.ConflictMeans | app/services/event_signup_service.rb:99-105 | a conflict is an active signup in another run that is on at the same time and forbids concurrent play too, unless the profile is on both teams |
| CallsExactly.LoadElsewhereIsNumber | app/services/event_signup_service.rb:174-187 | the limit counts the profile's other active signups that are counted, or wait and do not ask for a bucket that does not count |
| CallsExactly.NobodyAtTwoPlaces | app/services/event_signup_service.rb:216-233 | after any history, a profile with active signups in two runs that are both on at an instant, of events that both forbid concurrent play, is on both teams |
| CallsExactly.CancelSucceedsExactly | app/services/event_withdraw_service.rb:32-43 | in any state a history leads to, a withdrawal succeeds exactly when it is let and moves nobody whose requested bucket is gone |
| CallsExactly.ChangeSucceedsExactly | app/services/event_change_registration_policy_service.rb:167-194 | a policy change succeeds exactly when the policy is valid and in every run of the event there is something for every confirmed signup at its turn |
| SignupLimit.CancelWithinExactly | app/services/event_signup_service.rb:77-97 | in any state a history leads to, nobody is past the maximum after a withdrawal exactly when every profile's load, less the withdrawn signup and with the movers that do not load yet, is within it |
| SignupLimit.CancelPassesLimit | app/services/event_signup_service.rb:77-97 | from a good state within the maximum, exactly when the signup to be promoted waits for a bucket that does not count and is of another profile at the maximum, somebody is past it |
| SignupLimit.JoinWithinExactly | app/services/create_team_member_service.rb:50-61 | the same for joining a team, over all runs of the event |
| SignupLimit.SignUpStaysWithin | app/services/event_signup_service.rb:77-97 | a signup made under the maximum neither passes it nor brings anybody back within it |
| SignupLimit.EveryHistoryWithinExactly | app/services/event_signup_service.rb:77-97 | under a fixed maximum and fixed policies, nobody is ever past the maximum exactly when every withdrawal and conversion leaves room for those it moves |
| SignupLimit.EveryHistoryWithinLimit | app/services/event_signup_service.rb:77-97 | with every limited bucket counted, nobody ever is |
| LoadChanges.FillLoads | app/services/event_vacancy_fill_service.rb:42-57 | a chain adds to each profile's load exactly its movers that did not load it |
| LoadChanges.WithdrawLoads | app/services/event_signup_service.rb:174-183 | a withdrawal takes the withdrawn signup from the load of its profile and adds the movers that did not load theirs |
| LoadChanges.ConvertLoads | app/services/create_team_member_service.rb:63-74 | so does a team conversion |
| LoadChanges.PlaceLoads | app/services/event_signup_service.rb:77-97 | signing up adds the new signup, if it loads its profile, and nothing to others |
| Promotions.PromoteeIsConfirmed | app/services/event_vacancy_fill_service.rb:42-57 | of those who wait, a chain confirms exactly the one told beforehand |
| Promotions.FillMovers | app/services/event_vacancy_fill_service.rb:42-57 | a chain moves exactly those told beforehand, in that order |
| Promotions.FillRaises | app/services/event_vacancy_fill_service.rb:50-50 | a chain raises exactly when one of them has a request for a bucket the policy does not have |
| Promotions.WithdrawRaises | app/services/event_withdraw_service.rb:57-70 | so does a withdrawal, also in runs with wrong counted flags |
| Promotions.ConvertRaises | app/services/create_team_member_service.rb:63-74 | so does a team conversion |
| Promotions.NoStaleNoRaise | app/models/signup.rb:112-129 | neither raises while no active signup asks for a bucket the policy does not have |
| Promotions.MissingBucketRaises | app/services/event_vacancy_fill_service.rb:27-29 | giving up a counted slot where the policy has no such bucket raises |
| Boundaries.SigningUpRaises | app/services/event_signup_service.rb:46-46 | a run in which signing up raises |
| Boundaries.WithdrawingRaises | app/models/signup.rb:112-129 | a policy change after which a withdrawal raises |
| PolicyChangeExactly.SimulationMiscounts | app/services/event_change_registration_policy_service.rb:75-116 | over a whole simulation, a copy is left uncounted in a bucket that counts exactly when one was before or some step bumps out of a bucket that does not count |
| PolicyChangeExactly.ChangeKeepsShapeExactly | app/services/event_change_registration_policy_service.rb:104-116 | from a run in shape, a change that strands nobody leaves every signup in shape exactly when its simulation bumps nobody out of a bucket that does not count |
| PolicyChangeExactly.WaitingAfterwards | app/services/event_change_registration_policy_service.rb:61-71 | after the change exactly those wait who found no bucket in the simulation |
| PolicyChangeExactly.ChangeStabilisesExactly | app/services/event_change_registration_policy_service.rb:41-71 | from any run, the waitlist is stable after the change exactly when whoever found no bucket is kept out of what looks free to one who sees counted signups only |
| PolicyChangeExactly.ChangeStabilisesUnbumped | app/services/event_change_registration_policy_service.rb:41-71 | when nobody is bumped out of a bucket that does not count, exactly when nobody left waiting may be given such a bucket with slots |
| PolicyChangeExactly.ChangeKeepsSound | app/services/event_change_registration_policy_service.rb:220-235 | harmful or not, a change leaves only confirmed signups in buckets, which exist, and nobody counted where the bucket does not count |
| PolicyChangeExactly.OlderIsPlacedFirst | app/services/event_change_registration_policy_service.rb:277-281 | of two waiting signups with the same request, the younger is never confirmed by a change while the older is left |
| PolicyChangeExactly.HarmlessExactly | app/services/event_change_registration_policy_service.rb:27-116 | from a run in shape, shape and stability both survive exactly when the change is harmless |
| ChangeBoundaries.ChangeLeavesUncountedRoom | app/services/event_change_registration_policy_service.rb:41-71 | a change that bumps nobody and leaves the waitlist unstable |
| ChangeBoundaries.BumpLosesCount | app/services/event_change_registration_policy_service.rb:104-116 | a run in shape, within capacity and stable, and a successful change that leaves a flag wrong |
| ChangeBoundaries.SceneExists | app/services/event_change_registration_policy_service.rb:41-71 | the run and the policies of that scene, written out |
| ChangeBoundaries.BumpUnsettlesWaitlist | app/services/event_change_registration_policy_service.rb:104-116 | the same change leaves the waitlist unstable although nobody waiting may be given a bucket that does not count |
| ChangeBoundaries.SigningUpRaisesAfterChange | app/services/event_signup_service.rb:243-253 | after that change signing up for a bucket that counts raises |
| LoadBoundaries.LimitIsPassed | app/services/event_signup_service.rb:77-97 | a history of calls, all under a maximum of one, that ends with a load of two |
| ServiceSteps.SignUpOnRecords | app/services/event_signup_service.rb:41-63 | called on the records of a convention, the signup service succeeds exactly when the sign-up step does, and leaves the run as the step says |
| ServiceSteps.WithdrawOnRecords | app/services/event_withdraw_service.rb:32-43 | so does the withdraw service |
| ServiceSteps.AcceptOnRecords | app/services/accept_signup_request_service.rb:20-33 | so does accepting a request that replaces a signup, also when both are in one run |
| ServiceSteps.AcceptNewOnRecords | app/services/accept_signup_request_service.rb:20-33 | and one that replaces none |
| ServiceSteps.JoinOnRecords | app/services/create_team_member_service.rb:20-61 | so does the team member service, for all runs of the event |
| ServiceSteps.ChangeOnRecords | app/services/event_change_registration_policy_service.rb:167-209 | so does the policy change service, for all runs of the event |
| Timespans.Timespan.Intersection | app/javascript/Timespan.ts:120-129 | exactly the common instants, and nothing only when there are none; the constructor never throws |
| Timespans.Timespan.Union | app/javascript/Timespan.ts:131-136 | the least timespan that includes both |
| Timespans.OverlapIsCommon | app/javascript/Timespan.ts:106-111 | timespans that hold an instant overlap exactly when they have a common one |
| Timespans.IncludingIsPointwise | app/javascript/Timespan.ts:99-104 | including a timespan that holds an instant is including all its instants |
| Timespans.GetTimeHopsWithin | app/javascript/Timespan.ts:222-243 | the hop loop gives from the start of the period the timespan starts in, step by step up to the finish, each with the offset; units, durations and offsets may be of any kind whose steps lead forward |
| Timespans.LoopNeverEnds | app/javascript/Timespan.ts:234-241 | where steps do not lead forward, a hop loop that begins before the finish never ends, so the splitting asks that they do |
| Timespans.FixedLengthIsCalendar | app/javascript/Timespan.ts:231-240 | periods of a fixed length, counted from any instant, make a calendar |
| Timespans.CalendarWillDo | app/javascript/Timespan.ts:231-240 | whole numbers of the periods of any calendar, without an offset, meet what the splitting asks for |
| Timespans.CalendarHops | app/javascript/Timespan.ts:231-241 | the hops are then every so many period beginnings, every one where no duration is given |
| Timespans.CalendarCuts | app/javascript/Timespan.ts:245-280 | so that without a duration the cuts of a timespan are the period beginnings in it |
| Timespans.SpansTile | app/javascript/Timespan.ts:245-280 | clipping the hops to the timespan leaves non-empty timespans end to end, cut exactly at the later hops |
| Timespans.GetTimespansWithin | app/javascript/Timespan.ts:245-280 | the timespan is split end to end from start to finish exactly when the last boundary reaches the finish, as with every offset that is not negative; it is cut at every hop in between but the first, and nowhere else |
| Timespans.FirstHopIsCutExactly | app/javascript/Timespan.ts:256-259 | so it is cut at all its hops exactly when the first one does not lie inside it |
| Timespans.FirstHopInside | app/javascript/Timespan.ts:256-259 | with equal periods and a positive offset below their length, the first hop lies inside a timespan of one period |
| Timespans.TilesPartition | app/javascript/Timespan.ts:93-97 | every instant of the timespan lies in exactly one part, any other in none |
| Compaction.CompactionPreserves | app/presenters/compacting_form_response_changes_presenter.rb:8-46 | a group chained from a first to a last value is compacted to one chained from and to the same values, at least an hour apart, in order of time |
| Compaction.SlicesAreBursts | app/presenters/compacting_form_response_changes_presenter.rb:37-41 | the slices joined are the changes; within a slice each change comes less than an hour after the one before, between slices an hour or more passes |
| Compaction.KeptAreBursts | app/presenters/compacting_form_response_changes_presenter.rb:8-30 | exactly the slices that change something are kept, each as one change from its first value to its last with the latest notice |
| Compaction.CompactionTells | app/presenters/compacting_form_response_changes_presenter.rb:8-46 | from beginning to end: what one person changed in one field, told about or not, falls by time into bursts cut where an hour or more passes, and each burst that changes something becomes one change; all in order of time |
| Compaction.CompactedOfGroup | app/presenters/compacting_form_response_changes_presenter.rb:32-46 | what the result holds of a group depends on that group alone |
| Compaction.GroupCompacts | app/presenters/compacting_form_response_changes_presenter.rb:17-30 | kept changes belong to the group, change something, and are an hour or more apart |
| Compaction.CompactingAgain | app/presenters/compacting_form_response_changes_presenter.rb:8-13 | compacting again changes no group |
| Compaction.CompactingAgainExactly | app/presenters/compacting_form_response_changes_presenter.rb:8-13 | and nothing at all exactly when changes of the same time stand in the order in which their groups appear |
| Compaction.CompactingAgainReorders | app/presenters/compacting_form_response_changes_presenter.rb:8-13 | three changes that a second pass reorders |
| SignupCounts.ProcessSignupCountData | app/presenters/signup_count_presenter.rb:23-37 | the loop builds a table that answers every selection as the grouped data do, with an entry for every bucket and one for no bucket, in every state |
| SignupCounts.GroupedIsDirect | app/presenters/signup_count_presenter.rb:182-189 | selecting from signups grouped and counted, in any order of the groups, is counting the signups |
| SignupCounts.CountsAgree | app/presenters/signup_count_presenter.rb:165-180 | for every combination of given and omitted selectors the count is the number of matching signups, a waiting one matched by the bucket it asks for; and all cells sum to all signups |
| SignupCounts.AvailabilityAgrees | app/presenters/run_availability_presenter.rb:10-26 | the presenter and the run agree on which buckets are full, and on the free slots of each bucket exactly when it is not over-full |
| ChangeSets.EveryEditing | app/javascript/ChangeSet.ts:28-89 | after any edits, applying the log drops the removed originals and appends the added values |
| ChangeSets.AddingAppends | app/javascript/ChangeSet.ts:41-49 | adding a value that is not an original appends it with its generated id |
| ChangeSets.AddingRestores | app/javascript/ChangeSet.ts:28-39 | adding a value that equals originals only brings the first of them back |
| ChangeSets.RemovingHides | app/javascript/ChangeSet.ts:52-63 | removing the id of an addition drops just that addition; any other id drops whatever has it |
| ChangeSets.ApplyIsAtOnce | app/javascript/ChangeSet.ts:65-77 | for any log, that holds exactly when no addition is followed by a removal of its id |
| ChangeSets.EditedIsNormal | app/javascript/ChangeSet.ts:28-63 | adding and removing never make a log in which one is |
| Translations.DiffFindsMissing | script/diffTranslations.ts:20-42 | the difference is empty exactly when the partial translation has something at every leaf |
| Translations.MergedLeaf | script/mergeTranslations.ts:14-25 | merging the difference keeps what was translated and fills in what was not |
| Translations.MergingCompletes | script/mergeTranslations.ts:14-25 | then no difference is left, exactly when the empty texts of the complete translation were translated before |
| Translations.MergingKeeps | script/mergeTranslations.ts:14-25 | every non-empty text of the partial translation is kept |

## Left out

- Notifications, mail, signup change rows, tickets and their validations, policy-change move results (used only for notices and the change log).
- The registration freeze, the self-service mode and ticket requirements of a signup or a withdrawal are one flag of the call. A freeze that makes a team conversion fail is a call that changes nothing.
- Transactions and locks: each call is one atomic step, and one that raises changes nothing. In particular a team conversion covers all runs of the event in one step, although the source commits run by run.
- Ruby's `sort_by` is not stable and rows come in database order; the model sorts stably and takes rows in the order in which they were made. Times of creation are whole seconds, as the vacancy chain compares them.
- Bucket keys are taken as normalised and not blank, and total slots as not negative.
- Policies given to a policy change satisfy the two policy validations, which the event checks when it is saved (app/models/event.rb:147, 240-247).
- `allow_movement` of the finder is always true; no caller passes anything else.
- Edits by administrators (force-confirming, changing the bucket or counted flag), removing a team member and merging users.
- SlotServices.CreateTeamMemberService.Call: the source's list of moves also holds a nil for each converted signup that gave up no slot.
- CallsExactly.ConflictMeans: how two timespans overlap is defined by a library; it is taken as each beginning before the other ends, so that a run of no length clashes with a run it lies in the middle of. Runs do not end before they start (app/models/event.rb:158).
- Among free buckets other than the anything bucket, a request without preference gets one of them; the source sorts them with an unstable sort.
- Copies made by the simulator carry the id of their signup, which the source keeps as the key of a hash.
- FixedPolicies.EveryHistoryPrefers: histories without policy changes, because a change may drop a requested bucket (`Boundaries.WithdrawingRaises`).
- SignupLimit.EveryHistoryWithinExactly: histories without policy changes, because a change may redefine what counts towards the limit.
- Totals of slots and the other readers of a policy (app/models/registration_policy.rb:33-57), capacity fractions and the texts of the signup count presenter.
- Timespans.GetTimeHopsWithin: instants are integers. Adding a unit leads to a later instant (where it does not, Timespans.LoopNeverEnds), and an offset keeps the order of the instants it is added to and can be taken away again; an offset of months added to days does not, at the end of a month.
- Absent ends of a timespan are null, not undefined.
- Translations.MergingCompletes: only shapes in which the partial translation has no text where the complete one branches; the source indexes into such a text.
- User interface, GraphQL, Liquid, CMS rendering, permissions and migrations.
