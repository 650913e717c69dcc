# Naval engagement controllers: a verified model

This project models the per-tick decision logic of four controllers from a
discrete-event naval engagement simulation. A surface ship defends itself
with decoys and evasive manoeuvres against a torpedo that tries to tell the
ship from the decoys. The four controllers are:

- **Attacking torpedo target selector** (`AttackTorpedo`, from
  `project/attack/model/torpedo_controller.py`). It keeps, for each contact:
  - a window of the last four positions;
  - a window of the last three velocities.

  It drops contacts whose mean speed lies outside the surface-ship band
  [2.5, 3.5], falling back to all contacts when every contact fails. It
  scores the candidates on range and on how often they were tracked. It
  keeps its locked contact unless a rival beats it by 15%, once the lock has
  lasted one tick.
- **Defending torpedo target selector** (`DefenseTorpedo`, from
  `project/defense/model/torpedo_controller.py`). It scores contacts on
  range, on movement by kind (rewarding a ship's standard speed of 3.0) and
  on persistence. It keeps its lock unless a rival beats it by 10%, once the
  lock has lasted three ticks. Keeping the lock changes nothing.
- **Attacking command and control threat tracker** (`AttackCommand`, from
  `project/attack/model/command_control.py`). It records each contact in a
  history with a five-position window, detects a decoy salvo (three or more
  contacts first seen in the same cycle) and marks the contact nearest the
  salvo's centroid as the ship. It classifies every entry by a first-match
  rule cascade, chooses one of three engagement strategies, ranks contacts
  by priority, and requests evasion when a contact is nearer than 15.
- **Defending command and control pattern machine** (`DefenseCommand`, from
  `project/defense/model/command_control.py`). It keeps a window of four
  samples of the nearest torpedo and infers a "distance priority" or a
  "movement tracking" pattern, with a confidence that rises in steps and is
  capped at 1. It latches an escape heading under distance priority and
  deploys decoys once.

Shared pieces live in their own modules:

- `Common`: identities, points, contacts, the scan for a locked identity.
- `Window`: bounded append-and-evict windows.
- `Ranking`: the stable descending sort both selectors and the prioritiser
  use. Python's `sort(reverse=True)` keeps equal keys in input order, and so
  does this sort.
- `Hysteresis`: the keep-or-switch test both selectors share.

Each source class is a Dafny `class` with the source's fields. The methods
follow the source's statements and loops. Each method's postcondition ties
the new state, and any result, to a pure specification function of the old
state and the inputs (`Select`, `Analyze`, `Evade`, `Deploy`, …). The
properties the code promises are lemmas about those functions:

- window caps and order;
- keep and switch outcomes;
- the fallback list;
- the salvo latch;
- rule order;
- strategy choice;
- permutation and order of the prioritised list;
- the evasion trigger;
- confidence bounds;
- the escape-heading latch;
- the one-shot decoy latch.

Geometry comes from the host and enters the model as inputs:

- Each contact carries its range from the own platform, its kind and its
  speed.
- The Euclidean norm of a velocity (`norm`, `speed`) and the angle between
  two movement vectors (`turn`, `angle`) are functions fixed when a
  controller is built.
- The torpedo's bearing and the wall clock's whole seconds are parameters of
  the evasion.

Contact identities are abstract integers. The source derives them from
positions.

## Model

| member | source | states |
|---|---|---|
| Common.Bump | project/attack/model/torpedo_controller.py:243-244 | one more tracking of an identity: its count rises by one, every other count is unchanged |
| Common.Locate | project/defense/model/torpedo_controller.py:165-169 | index of the first ranked contact with the locked identity, or the list length; no earlier contact has it |
| Common.FindFirst | project/attack/model/torpedo_controller.py:216-220 | the scan of the ranked list for the locked identity stops at the first match (equals Locate) |
| Window.Push | project/attack/model/torpedo_controller.py:64-68 | append then keep the newest `cap`: the length is min(len+1, cap) and the new sample is last |
| Window.PushEvictsOldest | project/defense/model/command_control.py:71-75 | below the cap nothing is evicted; at the cap exactly the oldest entry is dropped and the rest keep their order |
| Window.Append | project/attack/model/command_control.py:81-86 | the in-place append-and-truncate equals Push |
| Window.PushNewest | project/attack/model/torpedo_controller.py:62-68 | pushing onto the window of a stream gives the window of the extended stream |
| Window.PushAllKeepsNewest | project/attack/model/torpedo_controller.py:62-68 | after any run of pushes from empty, the window is exactly the newest `cap` samples in arrival order |
| Ranking.SortDescending | project/defense/model/torpedo_controller.py:159 | the sort keeps the length |
| Ranking.SortPermutes | project/attack/model/torpedo_controller.py:194 | the ranking is a permutation of its input |
| Ranking.SortSorted | project/attack/model/command_control.py:322 | the ranking is in non-increasing key order |
| Ranking.SortedFromInput | project/defense/model/torpedo_controller.py:159-160 | every ranked element is an input, and the first has the largest key of all inputs |
| Ranking.InsertWithKey | project/defense/model/torpedo_controller.py:159 | insertion puts the new element ahead of every element that shares its key and reorders no others of that key |
| Ranking.SortStable | project/defense/model/torpedo_controller.py:159 | the sort is stable: for every key, the elements carrying it keep their input order (as Python's `list.sort` with `reverse=True` does) |
| Ranking.SortHeadEarliest | project/attack/model/torpedo_controller.py:194 | the top of the ranking is the earliest input element of largest key: every earlier input has a strictly smaller key |
| Ranking.WithKeyHead | project/defense/model/torpedo_controller.py:159 | the first element of a given key is preceded only by elements of other keys |
| Hysteresis.KeptIndex | project/attack/model/torpedo_controller.py:214-224 | the lock is kept only for a locked identity with lock count at least the minimum, found first in the ranking at the returned index; an index is returned iff the shared keep condition (Keeps: locked, lock count reached, found, improvement ratio below the threshold) holds and the locked key is non-zero |
| AttackTorpedo.Sample | project/attack/model/torpedo_controller.py:71-83 | the velocity sample of the last two fixes is stamped with the newer fix's tick |
| AttackTorpedo.PushInTickOrder | project/attack/model/torpedo_controller.py:64-68 | pushing a sample no older than the newest keeps a window in tick order |
| AttackTorpedo.PushPosition | project/attack/model/torpedo_controller.py:62-68 | a position window stays at one to four fixes, in tick order, ending with the new fix |
| AttackTorpedo.PushVelocity | project/attack/model/torpedo_controller.py:81-87 | a velocity window stays at most three samples, strictly increasing in tick, and the push changes it |
| AttackTorpedo.ObserveKeepsTracksValid | project/attack/model/torpedo_controller.py:51-87 | recording a contact keeps every position and velocity window invariant |
| AttackTorpedo.ObserveMovedSample | project/attack/model/torpedo_controller.py:71-83 | when a push leaves two or more fixes, the fix before the new one is the old window's newest, recorded at an earlier tick, so a velocity can be formed |
| AttackTorpedo.ObserveRecords | project/attack/model/torpedo_controller.py:51-87 | the contact's position window is its old window with the new fix pushed (capped at four) and ends with that fix; when the last two ticks differ its velocity window is its old one with the new sample pushed (capped at three), and the velocity map changes exactly then; the position and velocity windows of every other contact are untouched |
| AttackTorpedo.SpeedFilterIsMeanSpeedBand | project/attack/model/torpedo_controller.py:98-117 | with two or more velocity samples a contact passes iff its mean speed lies in [2.5, 3.5] |
| AttackTorpedo.ScreenKeepsTracksValid | project/attack/model/torpedo_controller.py:162-175 | the screening pass keeps every window invariant |
| AttackTorpedo.ScreenStepPartitions | project/attack/model/torpedo_controller.py:164-175 | each contact is either appended to the passing list or its identity added to the rejected set |
| AttackTorpedo.ScreenValidFromInput | project/attack/model/torpedo_controller.py:163-170 | passing contacts are input contacts |
| AttackTorpedo.ScreenRejectedFromInput | project/attack/model/torpedo_controller.py:171-175 | every rejected identity is an input contact's |
| AttackTorpedo.ScreenCovers | project/attack/model/torpedo_controller.py:164-175 | every input contact passes or has its identity rejected |
| AttackTorpedo.Score | project/attack/model/torpedo_controller.py:133-146 | the weighted score always lies in [19, 55] |
| AttackTorpedo.ScoreMonotone | project/attack/model/torpedo_controller.py:133-146 | a nearer or more often tracked contact never scores lower |
| AttackTorpedo.SelectEmpty | project/attack/model/torpedo_controller.py:157-158 | an empty list selects nothing and changes no state, tick counter included |
| AttackTorpedo.DecideOutcome | project/attack/model/torpedo_controller.py:214-247 | only the lock, the lock count and the tracking counts change; the chosen contact's tracking count rises by one |
| AttackTorpedo.DecideKeepsLock | project/attack/model/torpedo_controller.py:214-234 | keep branch: the first ranked contact with the locked identity is returned, the lock stays and its count rises by one |
| AttackTorpedo.DecideSwitches | project/attack/model/torpedo_controller.py:236-247 | switch branch: the top-ranked contact is returned and locked; the lock count ends at 1 on a new identity, else rises by one |
| AttackTorpedo.DecideSwitchesToBest | project/attack/model/torpedo_controller.py:208-211 | on a switch the chosen contact scores at least as high as every ranked contact |
| AttackTorpedo.SelectScreens | project/attack/model/torpedo_controller.py:157-175 | a non-empty list advances the tick by exactly one, installs the screened windows and adds every rejected identity to the suspected decoys |
| AttackTorpedo.SelectOnScreened | project/attack/model/torpedo_controller.py:160-175 | the decision installs the screening's tick, windows and suspected decoys |
| AttackTorpedo.SelectChoosesCandidate | project/attack/model/torpedo_controller.py:177-181 | the chosen contact passed the filter if any did, else is one of all contacts |
| AttackTorpedo.CandidatesFromInput | project/attack/model/torpedo_controller.py:177-181 | every candidate is an input contact |
| AttackTorpedo.SelectOnChoosesCandidate | project/attack/model/torpedo_controller.py:208-247 | the decision returns one of the candidates |
| AttackTorpedo.TorpedoCommandControl.constructor | project/attack/model/torpedo_controller.py:31-47 | no lock, lock count 0, tick 0, empty windows, counts and suspected decoys |
| AttackTorpedo.TorpedoCommandControl.UpdateTargetHistory | project/attack/model/torpedo_controller.py:51-87 | the windows become Observe of the old windows; window invariants are kept |
| AttackTorpedo.TorpedoCommandControl.IsValidShipTarget | project/attack/model/torpedo_controller.py:89-117 | the result is the speed filter on the current velocity window |
| AttackTorpedo.TorpedoCommandControl.ScreenOne | project/attack/model/torpedo_controller.py:164-175 | one screening step: record, test, add to the suspected decoys on failure; lock and counters unchanged |
| AttackTorpedo.TorpedoCommandControl.ScreenContacts | project/attack/model/torpedo_controller.py:162-175 | the loop's passing list, windows and suspected decoys are those of Screen |
| AttackTorpedo.TorpedoCommandControl.ApplyHysteresis | project/attack/model/torpedo_controller.py:213-247 | the new state and returned contact are Decide of the old state |
| AttackTorpedo.TorpedoCommandControl.SelectBestTarget | project/attack/model/torpedo_controller.py:150-247 | the new state and returned contact are Select of the old state; window invariants are kept |
| DefenseTorpedo.DistanceScore | project/defense/model/torpedo_controller.py:50 | the distance score lies in [0, 30] and is 0 from range 60 on |
| DefenseTorpedo.DistanceScoreAntitone | project/defense/model/torpedo_controller.py:50 | the distance score never increases with range |
| DefenseTorpedo.MovementScore | project/defense/model/torpedo_controller.py:81-104 | in [0, 40] for every kind; at most 25 for non-ships; 40 for a ship within 0.1 of speed 3 |
| DefenseTorpedo.MovementFavoursShip | project/defense/model/torpedo_controller.py:81-104 | a ship at the standard speed outscores every other kind and every straying ship on movement |
| DefenseTorpedo.DistanceFactor | project/defense/model/torpedo_controller.py:132 | the attenuation factor lies in [0.3, 1] |
| DefenseTorpedo.DistanceFactorAntitone | project/defense/model/torpedo_controller.py:132 | the factor never increases with range |
| DefenseTorpedo.SignatureStrength | project/defense/model/torpedo_controller.py:106-137 | the strength lies in [0, 30], between 0.3 times and 1 times the kind's base strength |
| DefenseTorpedo.TargetScore | project/defense/model/torpedo_controller.py:37-67 | total is the sum of the parts; distance in [0, 30], movement in [0, 40]; persistence 30 iff the contact is locked; total in [0, 100] |
| DefenseTorpedo.LockAddsBonus | project/defense/model/torpedo_controller.py:57-59 | locking a contact raises its total by exactly 30 |
| DefenseTorpedo.SelectEmpty | project/defense/model/torpedo_controller.py:146-147 | an empty list selects nothing and changes nothing |
| DefenseTorpedo.DecideKeepsLock | project/defense/model/torpedo_controller.py:163-179 | keep branch: the locked contact is returned and no state changes, lock count included |
| DefenseTorpedo.DecideSwitches | project/defense/model/torpedo_controller.py:181-190 | switch branch: the top contact is locked; the lock count ends at 1 on a new identity, else rises by one |
| DefenseTorpedo.SelectChoosesInput | project/defense/model/torpedo_controller.py:139-190 | a non-empty list yields one of its contacts |
| DefenseTorpedo.SelectSwitchPicksBest | project/defense/model/torpedo_controller.py:159-160 | on a switch the chosen contact has the highest total of all |
| DefenseTorpedo.SelectKeepsWithinMargin | project/defense/model/torpedo_controller.py:171-179 | when the lock is kept, no contact beats the kept one by the 10% margin |
| DefenseTorpedo.WithinMargin | project/defense/model/torpedo_controller.py:173-174 | below-threshold improvement of the best bounds every score's improvement |
| DefenseTorpedo.SelectKeepsLockConsistent | project/defense/model/torpedo_controller.py:181-189 | a contact is locked iff the lock count is positive, and after a non-empty list one is locked |
| DefenseTorpedo.TorpedoCommandControl.constructor | project/defense/model/torpedo_controller.py:31-32 | no lock and lock count 0 |
| DefenseTorpedo.TorpedoCommandControl.SelectBestTarget | project/defense/model/torpedo_controller.py:139-190 | the new state and returned contact are Select of the old state |
| AttackCommand.ObserveRecords | project/attack/model/command_control.py:69-86 | a new contact starts unknown, 0.5, first and last seen now; the position is pushed to the newest five; no other entry changes |
| AttackCommand.ObserveKeepsValid | project/attack/model/command_control.py:69-86 | recording a contact keeps the history well formed |
| AttackCommand.ObserveAllKeepsValid | project/attack/model/command_control.py:63-86 | recording every contact keeps the history well formed |
| AttackCommand.ObserveAllMarksSeen | project/attack/model/command_control.py:69-82 | every contact of the cycle is last seen now; every new entry first seen now, unknown, 0.5 |
| AttackCommand.ObserveAllKeepsOthers | project/attack/model/command_control.py:63-86 | entries of undetected contacts are untouched |
| AttackCommand.CurrentPositionsDistinct | project/attack/model/command_control.py:60-66 | the cycle's identities are listed once each and are the keys of the position map |
| AttackCommand.CurrentPositionsKeys | project/attack/model/command_control.py:60-66 | an identity is a key of the cycle's position map iff it is listed among the cycle's identities |
| AttackCommand.CurrentPositionsCover | project/attack/model/command_control.py:60-66 | the cycle's identities are exactly the detected contacts' |
| AttackCommand.NewTargets | project/attack/model/command_control.py:106-111 | at most one new target per current identity |
| AttackCommand.NewTargetsMembers | project/attack/model/command_control.py:106-111 | a point is a new target iff it is the cycle position of a listed identity recorded with first detection in this cycle |
| AttackCommand.NewTargetsCount | project/attack/model/command_control.py:106-114 | over the cycle's identities (listed once each) the number of new targets is the number of those identities first detected in this cycle |
| AttackCommand.NearestTo | project/attack/model/command_control.py:147-160 | a found entry is listed, recorded and has a position |
| AttackCommand.NearestExists | project/attack/model/command_control.py:150-163 | an entry is found iff some listed entry has a position |
| AttackCommand.NearestMinimal | project/attack/model/command_control.py:150-160 | no listed entry is nearer the centroid than the one found |
| AttackCommand.NearestFirst | project/attack/model/command_control.py:158-160 | every entry before the one found is strictly farther (first wins ties) |
| AttackCommand.SalvoLatch | project/attack/model/command_control.py:103-115 | the latch is never reset and is set by a cycle only with more than one contact and at least three new; a cycle with at most one contact or fewer than three new ones changes nothing at all |
| AttackCommand.SalvoMarksNearest | project/attack/model/command_control.py:114-166 | on a salvo the entry nearest the centroid becomes SHIP with 0.8 (its other fields kept) and its last position is remembered; the order, the key set and every other entry are unchanged |
| AttackCommand.SalvoHasEntry | project/attack/model/command_control.py:108-111 | a new target implies a non-empty history |
| AttackCommand.SalvoKeepsValid | project/attack/model/command_control.py:96-125 | salvo detection keeps the history well formed and leaves positions and detections alone |
| AttackCommand.Movements | project/attack/model/command_control.py:181-192 | at most one movement per fix |
| AttackCommand.MovementsExist | project/attack/model/command_control.py:181-195 | there are movements iff two successive fixes have different cycles |
| AttackCommand.RulesExclusive | project/attack/model/command_control.py:219-235 | no motion matches two of the ship, self-propelled and stationary rules |
| AttackCommand.CascadeMatchesRules | project/attack/model/command_control.py:214-239 | each label is given iff its rule matches, unknown iff none does; confidences 0.9, 0.8, 0.9, 0.5 |
| AttackCommand.ClassifiedOutcome | project/attack/model/command_control.py:169-239 | without movement nothing changes; otherwise only label and confidence, one of four outcomes; classifying is idempotent |
| AttackCommand.ClassifyAllEntries | project/attack/model/command_control.py:92-94 | the pass classifies every listed entry and leaves the others alone |
| AttackCommand.AnalyzeEmpty | project/attack/model/command_control.py:56-57 | an empty list changes nothing, cycle counter included |
| AttackCommand.CycleSalvoKeepsValid | project/attack/model/command_control.py:59-89 | recording and salvo detection keep the history well formed and never reset the latch |
| AttackCommand.CycleSalvoRecords | project/attack/model/command_control.py:59-89 | after recording and salvo detection every contact is recorded and last seen now, new ones first seen now |
| AttackCommand.ConcludeClassifies | project/attack/model/command_control.py:91-94 | the cycle ends with every entry classified and the history well formed |
| AttackCommand.AnalyzeAdvances | project/attack/model/command_control.py:49-94 | a non-empty list advances the cycle by exactly one, marks contacts seen, keeps the history well formed, never resets the latch |
| AttackCommand.ClassifyKeepsValid | project/attack/model/command_control.py:92-94 | classification keeps the history well formed |
| AttackCommand.AnalyzeSalvoMark | project/attack/model/command_control.py:89-94 | every entry left by the salvo check is then reclassified; an entry without movement keeps the salvo check's label, so the SHIP/0.8 mark survives only then |
| AttackCommand.CountActiveIsCard | project/attack/model/command_control.py:244-245 | over distinct identities the count is the number of active entries |
| AttackCommand.CountShipsPositive | project/attack/model/command_control.py:249-250 | the ship count is positive iff some entry is SHIP with confidence above 0.7 |
| AttackCommand.DensityCountsActive | project/attack/model/command_control.py:244-246 | the density is the number of entries last seen at most two cycles ago |
| AttackCommand.StrategyRules | project/attack/model/command_control.py:241-264 | smart selection iff some confident ship; else bypass iff latch and two confirmed decoys; else aggressive hunt |
| AttackCommand.BypassUnreachable | project/attack/model/command_control.py:253-260 | with no confirmed decoys the bypass strategy is never chosen |
| AttackCommand.ClosenessScore | project/attack/model/command_control.py:282 | the distance component lies in [0, 50] and is 50 less the range within 50 |
| AttackCommand.PrioritizeRanks | project/attack/model/command_control.py:266-333 | the result is a permutation of the input in non-increasing priority, empty iff the input is |
| AttackCommand.SmartSelectionPrefersShips | project/attack/model/command_control.py:285-302 | under smart selection every recorded ship outranks every other contact |
| AttackCommand.MinRange | project/attack/model/command_control.py:410-413 | the least range of a non-empty list, attained by some contact |
| AttackCommand.EvasionDueIff | project/attack/model/command_control.py:405-421 | evasion is requested iff some detected contact is nearer than 15 |
| AttackCommand.CommandControl.constructor | project/attack/model/command_control.py:30-45 | empty history, cycle 0, no latch, no ship estimate, no confirmed decoys, density 0, smart selection |
| AttackCommand.CommandControl.AnalyzeThreatPattern | project/attack/model/command_control.py:49-94 | the new state is Analyze of the old; the history stays well formed |
| AttackCommand.CommandControl.AnalyzeCycle | project/attack/model/command_control.py:59-94 | a non-empty cycle: record, detect the salvo, classify |
| AttackCommand.CommandControl.ObserveContacts | project/attack/model/command_control.py:59-89 | the cycle advances by one and history, latch and ship estimate are those of the salvo check |
| AttackCommand.CommandControl.RecordThreats | project/attack/model/command_control.py:63-86 | the recording loop yields ObserveAll of the old history |
| AttackCommand.CommandControl.CollectPositions | project/attack/model/command_control.py:60-66 | the positions dictionary built by the loop is CurrentPositions |
| AttackCommand.CommandControl.DetectDecoyDeployment | project/attack/model/command_control.py:96-125 | history, latch and ship estimate become DetectSalvo of the old ones |
| AttackCommand.CommandControl.EstimateShipPosition | project/attack/model/command_control.py:127-167 | the nearest-entry loop yields MarkShip of the old history and estimate |
| AttackCommand.CommandControl.ClassifyThreats | project/attack/model/command_control.py:92-94 | the classification loop yields ClassifyAll of the old history |
| AttackCommand.CommandControl.SelectOptimalStrategy | project/attack/model/command_control.py:241-264 | the new state is SelectStrategy of the old; bypass is never chosen |
| DefenseCommand.InitialSound | project/defense/model/command_control.py:32-42 | the initial state satisfies the invariant |
| DefenseCommand.Closest | project/defense/model/command_control.py:57-59 | the nearest torpedo is a contact with the least range |
| DefenseCommand.ClosestFirst | project/defense/model/command_control.py:57-59 | ties go to the earliest contact |
| DefenseCommand.ChangesTelescope | project/defense/model/command_control.py:93-95 | the successive range changes sum to the overall change |
| DefenseCommand.AverageIsOverallRate | project/defense/model/command_control.py:93-95 | the average change is (last − first) / (samples − 1) |
| DefenseCommand.DirectionChangesBound | project/defense/model/command_control.py:99-121 | n positions give at most n − 2 changes of direction |
| DefenseCommand.InferKeepsSound | project/defense/model/command_control.py:124-144 | the pattern rule keeps confidence in [0, 1] and the latch invariant, and touches nothing else |
| DefenseCommand.InferOutcome | project/defense/model/command_control.py:124-144 | entering sets 0.6 or 0.5 and releases the latch; staying adds 0.2 or 0.15 capped at 1 and keeps it; otherwise nothing changes |
| DefenseCommand.InferPattern | project/defense/model/command_control.py:124-137 | distance priority iff closing faster than 0.5 with at most one turn; else tracking iff two or more turns; else unchanged |
| DefenseCommand.DeterminePatternSticks | project/defense/model/command_control.py:124-144 | once named, a pattern never returns to unknown |
| DefenseCommand.TrackingNeedsFullWindow | project/defense/model/command_control.py:135-141 | movement tracking can only be entered with a full window of four samples |
| DefenseCommand.AnalyzeKeepsSound | project/defense/model/command_control.py:44-81 | the analysis keeps the invariant (window at most 4, confidence in [0, 1], latch consistent) |
| DefenseCommand.AnalyzeEmpty | project/defense/model/command_control.py:51-52 | an empty list changes nothing |
| DefenseCommand.AnalyzeWindow | project/defense/model/command_control.py:57-81 | the nearest contact's sample is pushed to the window of four and its position remembered; decoy latch and heading untouched |
| DefenseCommand.DetermineKeepsRecords | project/defense/model/command_control.py:83-144 | inference changes only pattern, confidence and escape latch |
| DefenseCommand.AnalyzeNeedsThreeSamples | project/defense/model/command_control.py:77-79 | with fewer than three samples pattern, confidence and latch are unchanged |
| DefenseCommand.Mod360 | project/defense/model/command_control.py:185-188 | the remainder lies in [0, 360) and differs from the input by a multiple of 360 |
| DefenseCommand.ConfidenceGateAlwaysOpen | project/defense/model/command_control.py:160-171 | in any reachable state a named pattern has confidence above 0.2 |
| DefenseCommand.EvadeKeepsSound | project/defense/model/command_control.py:146-191 | every heading is defined and lies in [0, 360); only the latch and its heading change |
| DefenseCommand.EscapeHeadingFixed | project/defense/model/command_control.py:160-168 | under distance priority the first evasion latches the reciprocal bearing and later evasions reuse it unchanged |
| DefenseCommand.EvadeDefault | project/defense/model/command_control.py:185-188 | with an unknown pattern the heading is (bearing + 180) mod 360 and nothing changes |
| DefenseCommand.LatchSurvivesAnalysis | project/defense/model/command_control.py:126-144 | while the pattern stays the same, the latched heading stays |
| DefenseCommand.DeployRule | project/defense/model/command_control.py:193-208 | deploy iff not yet deployed and range at most 35; only the latch changes |
| DefenseCommand.DeployAtMostOnce | project/defense/model/command_control.py:200-206 | over any run of calls decoys are deployed at most once, and only at range at most 35 |
| DefenseCommand.CommandControl.constructor | project/defense/model/command_control.py:32-42 | unknown pattern, confidence 0, empty window, no latches |
| DefenseCommand.CommandControl.AnalyzeTorpedoPattern | project/defense/model/command_control.py:44-81 | the new state is Analyze of the old; the invariant is kept |
| DefenseCommand.CommandControl.DetermineTorpedoPattern | project/defense/model/command_control.py:83-144 | the direction-change loop and the rule give Determine of the old state |
| DefenseCommand.CommandControl.ExecutePatternBasedEvasion | project/defense/model/command_control.py:146-191 | the new state and heading are Evade of the old state; the invariant is kept |
| DefenseCommand.CommandControl.ShouldDeployDecoys | project/defense/model/command_control.py:193-208 | the new state and answer are Deploy of the old state |

## Left out

- The simulation engine is not modelled. This covers `BehaviorModel`, the
  states, ports and messages, and `ext_trans`, `int_trans` and the message
  assembly of each `output`. The model has no message passing.
- The launcher (`project/attack/model/launcher.py`) is not part of this
  model. It only creates decoy objects and registers them with the engine.
- Platform collaborators become inputs:
  - positions, ranges and speeds are fields of each contact;
  - norms, angles and bearings are host-supplied functions or parameters;
  - `threat_evaluation` is not modelled.

  The `sqrt`, `atan2`, `acos` and `degrees` arithmetic, and floating-point
  rounding, are not modelled. Reals are exact here. For example, 0.6 + 0.2
  is exactly 0.8, and a mod-360 result is never 360.
- Nearest-to-centroid and nearest-contact comparisons use squared
  distances. This orders candidates exactly as the square roots do.
- Contact identities are abstract integers. The source uses `str(position)`,
  which also merges contacts at the same position.
- `_calculate_movement_score` sniffs class names. The model replaces this
  with a contact-kind enumeration.
- `print` output is not modelled. So is dead computation: the
  `angles`/`distances` lists of `estimate_ship_position`, and the unused
  fields `target_history`, `min_observation_cycles`,
  `confirmed_ship_targets`, `decoy_signatures`, `potential_ship_targets`,
  `battle_phase`, `movement_pattern` and `threats`.
- `execute_evasion_maneuver` on the attack side is not modelled: its
  heading uses `random.uniform` jitter. Only the `< 15` trigger that calls it
  is modelled (EvasionDue). The defence side's `output` loop is not
  modelled either: it depends on the foreign `threat_evaluation`.
- The wall clock of the defence zigzag becomes a parameter: its whole
  seconds.
- `prioritize_threats` builds and sorts a fresh list, so it is modelled as
  a function (Prioritize), not as a method.
- A contact without an `xy_speed` attribute is scored by the defending
  selector as moving at 3.0 (project/defense/model/torpedo_controller.py:75).
  The model's contacts always carry a speed, so the host passes 3.0 for
  such a contact.
- DefenseTorpedo.SignatureStrength is modelled and bounded. The selector
  never calls it, so it plays no part in selection.

## Notes on the source

Behaviours of the source worth knowing:

- On a switch, both selectors reset the lock count to 0 and then add 1, so
  it ends at 1 (DecideSwitches).
- The defending selector's keep branch does not add to the lock count
  (DefenseTorpedo.DecideKeepsLock).
- `confirmed_decoys` is never filled, so BYPASS_DECOYS can never be chosen
  (BypassUnreachable, SelectOptimalStrategy).
- The SHIP/0.8 mark a salvo sets is overwritten by the classification pass
  later in the same call whenever the marked entry has a movement
  (AnalyzeSalvoMark).

Consequences of the code that the model proves:

- The classification rules exclude each other, so their order never
  matters (RulesExclusive).
- A named pattern's confidence never falls below 0.5, so the evasion's
  `> 0.2` gate is always open (ConfidenceGateAlwaysOpen).
- Movement tracking needs two turns and so four samples
  (TrackingNeedsFullWindow).
- The mean distance change depends only on the first and last samples of
  the window (AverageIsOverallRate).
- The final `return False` of `should_deploy_decoys` is unreachable.
