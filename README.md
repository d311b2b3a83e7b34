# Video entity tracker and event log, modelled in Dafny

This project models the logic between the object detector and the event log of a
small video-analysis tool. The tool tracks laboratory objects across video frames:
petri dishes (empty, filled, filled with a lid), left and right hands, bottles and
bottle caps.

Each frame, the tracker (`WorldState` in world_state.py) does five things, in order:

1. It associates each detected box with the first known object of the same label whose
   centroid lies strictly within the movement threshold.
2. It appends a new object for every detection that matched nothing.
3. It culls stale objects and unconfirmed ones.
4. For each registered label, it counts the objects whose observation count is exactly 5.
5. For each registered rule, it reports one `(a, b, verb)` tuple per pair of boxes that
   overlap by at least the rule's fraction of the smaller box.

The event log (`EventLog` in event_log.py) turns each frame's report into timestamped
lines:

- the running new-instance totals;
- the interactions that started or stopped;
- one summary line per label when the log is closed.

The earlier tracker in state_manager.py differs in four ways. It keeps per-label
counters instead of returning them, prints the interaction lines itself, uses a
90-frame staleness window, and its `update` returns the confirmed-object summary
(state_manager.py:42) instead of the frame's report.

Modules:

- `Geometry` (geometry.dfy): boxes, centroids, distance and rectangle intersection
  (utils.py).
- `Text` (text.dfy): decimal rendering of integers and the zero-padded frame stamp
  `f"{t:05}"`.
- `Tracking` (tracking.dfy): what the two trackers share.
  - The `InstanceObject` record.
  - The association, spawn and cull steps, new-instance counting, interaction
    detection and the confirmed-object summary.
  - Each step is a specification function. The steps that loop in the source
    (association, spawn, new-instance counting, interaction detection, the summary)
    also have a loop method proved against that function. The cull is a list
    comprehension in the source, so it is only a function.
- `World` (world_state.py's `WorldState` class) and `StateManager` (state_manager.py's
  `WorldState` class). Each is a class whose fields the methods update.
- `Events` (event_log.py's `EventLog` class). Standard output and the output file are
  sequences of lines. What is logged is described by `Message` values, one case per
  f-string of the source; `Render` gives each its text and `Lines` stamps them.
- `Pipeline`: the per-frame wiring of analyse_video.py, where the tracker's `update`
  feeds the log's `update_state`.

The model follows the code. Several of its behaviours are easy to miss on a first
reading of the code, and are proved here as they are:

- world_state.py sets the staleness window to 5 frames (world_state.py:22), not 90.
  The rule "unconfirmed and not seen for 10 frames" therefore never decides anything
  there (`World.CullIsStaleness`). In state_manager.py the window is 90
  (state_manager.py:26), and both rules matter (`StateManager.CullTiming`).
- Two detections in one frame can match the same object. Its count then rises by 2 and
  can jump over 5, so that object is never reported as a new instance
  (`Tracking.TwoDetectionsMatchOneObject`, `Tracking.CountCanSkipConfirmation`).
- Graduation can happen more than once. An object that stays at count 5 is reported
  again in every frame until it is culled (`World.GraduationRepeatsWhileUnseen`).
- Nothing excludes self-pairs. A rule pairing a label with itself fires on a single
  object against its own box (`Tracking.SelfPairIsReported`).
- In state_manager.py, registering a label again resets its counter to 0
  (state_manager.py:49).
- No input is validated anywhere. No operation has a precondition on its data, apart
  from the file being open when one is configured.

## Model

| member | source | states |
|---|---|---|
| Geometry.Area | utils.py:15-17 | a box of non-negative extent has non-negative area; a flat box has area 0 |
| Geometry.Centroid | world_state.py:14-16 | the centroid is midway between the left and right edges and between the top and bottom ones, so it lies inside a box of non-negative extent |
| Geometry.Near | world_state.py:114-115 | no pair is near for a threshold ≤ 0; boxes with the same centroid are near for every positive threshold |
| Geometry.Overlap | utils.py:30-36 | the overlap of two intervals is clamped at zero, so it is never negative |
| Geometry.IntersectionArea | utils.py:29-38 | the intersection area is never negative |
| Geometry.IntersectionSymmetric | utils.py:29-38 | the intersection area does not depend on the order of the two boxes |
| Geometry.DisjointIntersectionIsZero | utils.py:32-36 | boxes that are apart, or only share an edge, have intersection 0 |
| Geometry.IntersectionAtMostArea | utils.py:29-38 | for non-negative extents, the intersection is at most the area of each box |
| Geometry.SelfIntersectionIsArea | utils.py:29-38 | for non-negative extents, a box intersected with itself gives its own area |
| Geometry.IntersectionExamples | utils.py:29-38 | (0,0,10,10) against (5,5,10,10) gives 25; against (2,2,10,10) it gives 64 |
| Geometry.DistanceSymmetric | utils.py:25-26 | a value is the distance from p to q exactly when it is the distance from q to p |
| Geometry.DistanceZeroOnEqualPoints | utils.py:25-26 | the distance from a point to itself is 0 |
| Geometry.DistanceBelowIff | utils.py:25-26 | `d < T` holds exactly when T > 0 and the squared distance is below T² |
| Geometry.CentroidSquaredDistance | world_state.py:14-16 | the squared distance between the centroids is a quarter of the one on doubled integer coordinates |
| Geometry.NearIffCentroidDistanceBelow | world_state.py:108-115 | the integer test `Near` holds exactly when the Euclidean distance between the centroids is strictly below the threshold |
| Geometry.NearSymmetric | utils.py:25-26 | `Near` does not depend on the order of the two boxes |
| Text.NatToString | event_log.py:44-45 | `str(n)` is non-empty, all digits; it starts with '0' only for n = 0 |
| Text.NatToStringRoundTrip | event_log.py:44-45 | reading back the digits of `str(n)` gives n |
| Text.ZeroPad | event_log.py:27 | padding gives the wider of the string and the width, and the string is its suffix |
| Text.LeadingZerosValue | event_log.py:27 | leading zeros do not change the value of a digit string |
| Text.FormatFrameRoundTrip | event_log.py:27 | the stamp of a frame t ≥ 0 is at least 5 digits and reads back as t |
| Text.FormatFrameWidth | event_log.py:27 | the stamp is exactly as wide as `str(t)` when that is 5 or longer, and 5 wide otherwise |
| Text.FormatFrameNegative | event_log.py:27 | a negative frame is stamped as '-' and at least four digits that read back as its magnitude |
| Text.FormatFrameExamples | event_log.py:27 | 7 gives "00007", 123456 gives "123456", -3 gives "-0003" (the sign counts in the width) |
| Tracking.FirstMatch | world_state.py:112-120 | the result is the position of a matching object with no match before it; None means no object matches |
| Tracking.FirstMatchByDistance | world_state.py:112-120 | given the real distances, object i is chosen exactly when it has the label, is strictly closer than the threshold, and no earlier object of that label is |
| Tracking.Refresh | world_state.py:116-118 | a refreshed object keeps its label; it takes the new box, its count rises by 1 and it is last seen now |
| Tracking.AssociateOne | world_state.py:107-123 | a detection is queued exactly when no known object matches it; a queued detection leaves the objects unchanged |
| Tracking.AssociateAll | world_state.py:104-125 | association keeps the list length; at most one detection is queued per detection, and each queued one is an input |
| Tracking.UnmatchedObjectUnchanged | world_state.py:106-125 | an object that no detection of the frame matches leaves association unchanged |
| Tracking.AssociateDetections | world_state.py:104-125 | the nested loops with `break` compute the association over all (label, box) pairs in dict order: updated objects and queued detections |
| Tracking.AssociateOneEffect | world_state.py:112-123 | a matched detection refreshes only its first match: new box, count + 1, last seen now; nothing is queued. Without a match nothing changes and the detection is queued |
| Tracking.AssociationPreservesObjects | world_state.py:104-125 | association keeps the list length and every label; counts never decrease; last seen is unchanged or now; an object whose count is unchanged is unchanged; each queued detection is one of the inputs |
| Tracking.TwoDetectionsMatchOneObject | world_state.py:106-121 | two detections that both match one object refresh it twice, so its count rises by 2 |
| Tracking.CountCanSkipConfirmation | world_state.py:104-125 | an object at count 4 that is matched twice goes to 6 and is not counted as graduating |
| Tracking.Spawn | world_state.py:127-136 | there is one new object per unmatched detection |
| Tracking.AddNewObjects | world_state.py:127-136 | the new objects are appended in detection order, each with count 1 and last seen now |
| Tracking.ShouldCull | world_state.py:145-149 | an object seen this frame is never culled (for a non-negative window); a confirmed one is culled exactly when older than the window; an unconfirmed one exactly when older than 10 frames, when the window is at least 10 |
| Tracking.SpawnedSurviveCull | world_state.py:145-149 | objects created in a frame survive that frame's cull |
| Tracking.Cull | world_state.py:138-143 | the cull keeps only objects that are not to be culled, and never grows the list |
| Tracking.CullCounts | world_state.py:138-143 | each object is kept as often as it occurs, or dropped completely when it is to be culled. The cull is a filter that changes no fields |
| Tracking.CullAppend | world_state.py:138-143 | culling a concatenation is the concatenation of the culls, so order is preserved |
| Tracking.UpdateObjects | world_state.py:29-34 | after a frame the list holds at most the old objects plus one per detection, and no survivor is one to be culled |
| Tracking.UnrefreshedObjectSurvival | world_state.py:138-149 | an object that association leaves unchanged survives the frame exactly when it is not one to be culled |
| Tracking.UpdateAppendsSpawned | world_state.py:29-34 | after a frame, the list is the culled updated old objects followed by the new objects |
| Tracking.UpdateSurvivorsAreFresh | world_state.py:145-149 | every survivor was seen within the staleness window, and within 10 frames unless confirmed |
| Tracking.UpdateKeepsCountsPositive | world_state.py:116-143 | every object in the updated list has count ≥ 1 |
| Tracking.SilentFlattensToNothing | world_state.py:106-107 | a frame without boxes visits no detection |
| Tracking.SilentFrameOnlyCulls | world_state.py:104-136 | a frame without boxes adds no object and changes none: it only culls |
| Tracking.ReseenObjectIsRefreshed | world_state.py:112-120 | a lone object re-detected close to its box is refreshed and survives |
| Tracking.Dedup | world_state.py:48 | the dict keys are the registered labels, each once |
| Tracking.GraduationItems | world_state.py:48-54 | there is one dict entry per key, in key order, with a non-negative count |
| Tracking.GraduationItemsAt | world_state.py:47-56 | entry i holds key i and the number of that label's objects with count exactly 5 |
| Tracking.NewInstances | world_state.py:47-56 | every entry is a registered label with a non-negative count, and every registered label has an entry |
| Tracking.GraduatingIsCounted | world_state.py:47-56 | a known object at exactly count 5 makes its label's count at least 1 |
| Tracking.NewInstancesShape | world_state.py:47-56 | `new_instances` has exactly the registered labels as keys, each once, each valued by its graduating objects |
| Tracking.RegisteringTwiceChangesNothing | world_state.py:45-48 | registering a label a second time does not change `new_instances` |
| Tracking.CountGraduatingOfOne | world_state.py:49-54 | one object counts 1 exactly when it has the label and count 5 |
| Tracking.SummariseKnownObjects | world_state.py:91-102 | the summary has a key exactly for the labels with a confirmed object (count ≥ 5), valued by how many there are |
| Tracking.BoxesOf | world_state.py:73-78 | the box list is no longer than the object list |
| Tracking.BoxesOfMembers | world_state.py:73-78 | a box is listed exactly when some object of the label has it |
| Tracking.Qualifies | world_state.py:81-86 | for a positive threshold, boxes of positive area that do not intersect never qualify; for a threshold ≤ 0, any two boxes of non-negative area do |
| Tracking.Interactions | world_state.py:69-89 | every reported tuple is the (a, b, verb) of one of the registered rules |
| Tracking.PairHitsCount | world_state.py:80-87 | one a-box gives exactly as many tuples as there are b-boxes it overlaps by the threshold |
| Tracking.QualifyingRowSnoc | world_state.py:80-87 | the qualifying b-boxes of a longer list are those of its prefix plus the last box when it qualifies |
| Tracking.QualifyingPairsSnoc | world_state.py:80-87 | the qualifying index pairs of a longer a-list are those of its prefix plus the last a-box's row |
| Tracking.ProductHitsCount | world_state.py:80-87 | one rule's product loop gives exactly one tuple per qualifying (a-box, b-box) index pair |
| Tracking.RuleHitsCount | world_state.py:71-87 | one rule reports as many tuples as there are qualifying pairs of a-label and b-label boxes |
| Tracking.DetectInteractions | world_state.py:69-89 | the loops give the tuples rule by rule, in `itertools.product` order |
| Tracking.PairHitsShape | world_state.py:80-87 | one a-box gives at most \|B\| tuples, all (a, b, verb); it gives one exactly when some b-box qualifies |
| Tracking.ProductHitsShape | world_state.py:80-87 | one rule gives at most \|A\|·\|B\| tuples, all (a, b, verb); it gives one exactly when some pair overlaps by the threshold |
| Tracking.RuleHitIff | world_state.py:71-87 | a rule fires exactly when some object of label a and some object of label b overlap by the threshold |
| Tracking.InteractionsBound | world_state.py:69-89 | there are at most Σ\|A\|·\|B\| tuples |
| Tracking.InteractionsComeFromRules | world_state.py:69-89 | a tuple is reported exactly when it is the (a, b, verb) of a registered rule that fired |
| Tracking.SelfPairIsReported | world_state.py:80-87 | a rule pairing a label with itself fires on a single object of that label, for any threshold up to 1 |
| Tracking.ThresholdIsInclusive | world_state.py:82-86 | an overlap of exactly half the smaller box qualifies at 0.5; 49 of 100 does not |
| World.WorldState.constructor | world_state.py:20-27 | the movement threshold defaults to 30; the lists start empty |
| World.WorldState.Update | world_state.py:29-38 | the objects follow association, spawn and a 5-frame cull; the report holds `new_instances` and `interactions` computed on the culled list; the registrations are unchanged |
| World.WorldState.StartTrackingNewInstancesOfObjectType | world_state.py:40-45 | the label is appended to the registrations |
| World.WorldState.StartTrackingObjectInteractions | world_state.py:58-67 | the rule is appended; the threshold defaults to 0.5 and the verb to "interacting with" |
| World.WorldState.DetectNewInstances | world_state.py:47-56 | the dict loop gives one entry per registered label with its graduating objects |
| World.WorldState.SummariseKnownObjects | world_state.py:91-102 | the confirmed objects per label; labels with none are absent |
| World.CullIsStaleness | world_state.py:145-149 | with the 5-frame window, an object is culled exactly when it was last seen more than 5 frames ago |
| World.UnseenObjectLifetime | world_state.py:138-149 | an object that no detection refreshes, whatever the frame's other boxes, is present through frame s + 5 and gone from s + 6 on |
| World.GraduationRepeatsWhileUnseen | world_state.py:29-56 | an object at count 5 that no detection refreshes, whatever the frame's other boxes, stays and is reported again in each frame until it is culled |
| World.NewInstancesOfOne | world_state.py:47-56 | the report for one object and one label |
| World.StationaryObjectGraduatesInFifthFrame | world_state.py:29-56 | a still object seen in frames 0 to 4 reaches counts 1 to 5; it is reported as new in frame 4 and not at count 4 |
| World.FirstFrameSpawns | world_state.py:122-136 | with no known objects, a box becomes an object with count 1, last seen now |
| StateManager.InteractionLines | state_manager.py:89-90 | there is one printed line per qualifying pair |
| StateManager.WorldState.constructor | state_manager.py:22-31 | everything starts empty; the movement threshold defaults to 30 |
| StateManager.WorldState.Update | state_manager.py:33-42 | the objects follow association, spawn and a 90-frame cull; each counter grows by its graduating objects and no label is added; one line per qualifying pair is printed; the confirmed summary is returned |
| StateManager.WorldState.StartTrackingNewInstancesOfObjectType | state_manager.py:44-49 | the label's counter becomes 0, even when the label is already registered |
| StateManager.WorldState.UpdateNewInstanceCounts | state_manager.py:51-57 | each registered counter grows by the number of objects of its label with count exactly 5; unregistered labels are never counted |
| StateManager.WorldState.GetInstanceCounts | state_manager.py:59-60 | the stored counter, or None exactly when the label is not registered (the KeyError) |
| StateManager.WorldState.StartTrackingObjectInteractions | state_manager.py:62-71 | the rule is appended, with the same defaults |
| StateManager.WorldState.DetectInteractions | state_manager.py:73-90 | "{a} is {verb} {b}" is printed once per qualifying pair, in rule and product order |
| StateManager.WorldState.SummariseKnownObjects | state_manager.py:92-103 | the confirmed objects per label; labels with none are absent |
| StateManager.CullTiming | state_manager.py:146-150 | an object is culled exactly when unseen for more than 90 frames (if confirmed) or more than 10 frames (if not) |
| StateManager.UnseenObjectLifetime | state_manager.py:139-150 | an object that no detection refreshes, whatever the frame's other boxes, stays through s + 90 when confirmed and through s + 10 when not, and is gone after that |
| StateManager.PrintedLinesComeFromRules | state_manager.py:73-90 | every printed line names the labels and verb of a registered rule that fired |
| Events.FileLines | event_log.py:29-30 | the file receives each line followed by a newline |
| Events.NonZero | event_log.py:33-35 | zero entries are skipped; what remains are non-zero entries of the input |
| Events.AddCount | event_log.py:34-40 | one entry adds its count to its key's total and leaves every other total alone; the key order only grows, by the new key when one is added |
| Events.StampShape | event_log.py:27 | a line is the frame stamp, then " - ", then the event text |
| Events.RenderShape | event_log.py:42-59 | an interaction message names object A first and object B last; a stop message has " no longer " after A, a start message a space and then its verb, so a start message does not read as a stop one when its verb does not begin with 'n' (none of analyse.py's verbs does); a count message begins with the count; the total line of the exit (event_log.py:16) begins with its label |
| Events.StartCanReadAsStop | event_log.py:55-59 | the verb is not checked: a start message with the verb "no longer x" is the same text as a stop message with the verb "x" |
| Events.Totals | event_log.py:15-16 | there is one summary message per key, in insertion order |
| Events.ChangeMessages | event_log.py:53-59 | there is one message per visited change |
| Events.Lines | event_log.py:26-28 | one stamped line per message |
| Events.LineFormat | event_log.py:26-30 | every line is the frame stamp (at least five digits, reading back as the frame), " - " and the message text; the file copy adds a newline |
| Events.Enumerate | event_log.py:53 | iterating a set visits each element exactly once |
| Events.RemoveFirst | event_log.py:57 | `list.remove` on a duplicate-free list drops exactly that element and keeps the list duplicate-free |
| Events.EventLog.constructor | event_log.py:2-7 | the output file defaults to None; the totals and the active interactions start empty; the last frame starts at 0 |
| Events.EventLog.Enter | event_log.py:9-12 | the file is opened and truncated, only when a non-empty file name is configured |
| Events.EventLog.Exit | event_log.py:14-19 | one "{obj} total: {total}" line per key, in insertion order, stamped with the last frame; the file is then closed |
| Events.EventLog.LogEvent | event_log.py:26-30 | prints "{time:05} - {event}", and writes it with a newline when there is a file |
| Events.EventLog.UpdateState | event_log.py:21-24 | count lines come first, then the change lines for some visiting order of the symmetric difference; the active set becomes the frame's set, without duplicates; the frame becomes the last frame |
| Events.EventLog.UpdateNewInstanceCounts | event_log.py:32-46 | the totals are those of every entry received, in first-seen key order; the lines are those of the entries |
| Events.EventLog.AddInstanceCount | event_log.py:34-46 | a zero entry does nothing; otherwise the total grows or the key is added, and the new total is announced |
| Events.EventLog.UpdateInteractions | event_log.py:48-60 | each element of the symmetric difference is visited once; active ones are announced as stopped and removed, others as started and appended; the active set ends equal to the frame's |
| Events.EventLog.ApplyChange | event_log.py:54-60 | an active tuple is announced as stopped and removed; any other is announced as started and appended |
| Events.AccumulateTotals | event_log.py:32-40 | a label has a total exactly when it had one or some entry gave it a non-zero count; the total grows by the sum of its entries |
| Events.AccumulateWellFormed | event_log.py:37-40 | the key order lists every key once; old keys keep their place |
| Events.AccumulateAppend | event_log.py:32-40 | accumulating two batches one after the other is accumulating them together |
| Events.SumForAbsent | event_log.py:33-40 | a label with no entry gets nothing |
| Events.SumForUnique | event_log.py:33-40 | in a dict, a label's entry holds its whole increment |
| Events.CountMessagesOfDict | event_log.py:32-46 | for a dict, there is one message per non-zero entry, in order, carrying the count and the previous total plus that count |
| Events.TotalsMeaning | event_log.py:14-16 | on exit, there is one line per label that ever had a non-zero count, each once, in first-seen order, with the sum of its counts |
| Events.ContinuingIsSilent | event_log.py:49-53 | a tuple active before and present now produces no message |
| Events.ChangeMessagesAnnounce | event_log.py:53-60 | every change message is a vanished tuple announced as stopped or a new tuple announced as started |
| Events.ChangeMessagesCount | event_log.py:49-60 | there are exactly as many change messages as new plus vanished tuples, so repeated input tuples give one message |
| Events.EnumerationSize | event_log.py:49-53 | any visiting order of a set has the set's size |
| Events.InteractionAppearsPersistsVanishes | event_log.py:48-60 | an interaction that appears, persists (listed twice) and vanishes prints exactly a started line and then a stopped line |
| Events.TotalIsReportedOnExit | event_log.py:14-46 | n new instances in frame t print "n new instance … Total is now: n", and on exit "obj total: n", both stamped t |
| Pipeline.NewInstancesTotals | world_state.py:47-56 | in the tracker's report, a registered label's entry is its graduating objects; an unregistered label has none |
| Pipeline.ProcessFrame | analyse_video.py:59-60 | one frame through tracker and log: the objects follow the update; each registered label's total grows by its graduating objects and no other label's total changes; the active interactions are the reported tuples; the frame becomes the last frame |

## Left out

- Objects are values in a sequence, not mutable records. The source mutates the matched
  `InstanceObject` in place inside the list (world_state.py:116-118). Here the list
  element is replaced. No other reference to these records exists, so the two agree.
- `sqrt` is not computed. `Point.distance_to` (utils.py:25-26) becomes the predicate
  `IsDistance` (any non-negative d with d² equal to the squared distance), and the
  association uses the exact integer test `Near` on doubled centroids. The two are
  proved equivalent.
- Floating point is not modelled. The threshold product `intersection_thresh * min(areas)`
  (world_state.py:82-86) is computed in exact real arithmetic, so IEEE rounding at the
  boundary is not captured.
- Real I/O is replaced by sequences of lines. The event log keeps one sequence for
  standard output and one for the output file's lines. `open`, `write` and `close`
  become a flag and that sequence. A file that cannot be opened is not modelled.
- Events.EventLog.LogEvent, Events.EventLog.UpdateState and Events.EventLog.Exit
  require the file to be open when one is configured. The source fails in two cases
  that this excludes, and neither failure path is modelled:
  - a file is configured but `__enter__` was never called: an attribute error on
    `None.write`;
  - the log is written after `__exit__` closed the file: a `ValueError` from writing
    to a closed file.
- Events.EventLog.Exit does not model the exception arguments of `__exit__` or how it
  treats them. It returns nothing, so exceptions propagate.
- Events.EventLog.UpdateState states the interaction messages for some visiting order
  of the symmetric difference. A Python set's iteration order is unspecified. The model
  proves the messages for every order, but not which order CPython picks.
- Python dicts become sequences, maps and a `Tally`:
  - the detector's dict label → boxes and the tracker's `new_instances` dict are
    sequences of items in iteration order;
  - the log's totals are a map with its key insertion order (`Tally`).
- Events.CountMessagesOfDict requires distinct keys, as a dict has. `UpdateState` itself
  accepts any item sequence.
- `InstanceObject`'s field defaults (count 0, last seen -1) are not modelled. Every
  object is created with both fields given (world_state.py:130-135).
- The detectors (detection.py, src/detection.py), the command line, the YAML
  configuration, the video loop and the display window are not modelled. Only the
  per-frame wiring of analyse_video.py:59-60 is (`Pipeline.ProcessFrame`).
- `filled_dishes` (state_manager.py:23) is not modelled; nothing reads it. The numpy
  import is not modelled either; it only supplies `sqrt`.
- The wrap-around of the box arithmetic is not modelled. The detector hands over
  numpy `int32` values (src/detection.py:21,25-28), so `w * h`, `x + w` and the
  overlap product wrap around at 2^31 in the source; here they are unbounded `int`s.
  Pixel-sized boxes stay far below that bound.
