# Camera to Take — a Dafny model

`cameraToTake.py` is a Cinema 4D command. It does the following:

1. It collects the cameras of a scene: either all objects, or the selected ones.
2. It sorts them by the natural order of their names, so "Cam2" comes before "Cam10".
3. It works out a frame range for each camera from the animation tracks that move it.
4. If there are earlier render settings or takes and the user agrees, it removes them.
5. It appends one render-settings clone per camera, set to that camera's frame range.
6. It adds one take per camera under the main take, bound to the camera and its render settings.

This project models that core and proves properties about it.

Modules, one per file:

- `NaturalOrder` (`natural_keys.dfy`): `atoi` and `natural_keys`.
  - `re.split(r'(\d+)', …)` is written out as `SplitDigits`.
  - Python's list comparison is written out as `KeyLess`, and proved to be a strict total order.
- `StableSort` (`stable_sort.dfy`): Python's stable `sorted(…, key=…)`.
  - It is an insertion sort.
  - It is proved ordered, a permutation of its input and stable.
- `Scene` (`scene.dfy`): the scene the plugin reads.
  - Objects have a type id, a name, a parent and tags.
  - Tracks are a map from (object or tag, parameter) to the key times.
  - Also here: `getParents`, the camera filter and `GetTag`.
  - Acyclicity: a parent's id is smaller than its child's. This is how the model keeps the parent relation acyclic.
- `Intervals` (`intervals.dfy`): the running `(min, max, count)` of `resetMinMax` and `updateMinMax`.
  - This is a fold over the reported (first key, last key) pairs.
  - The fold is proved to span the least start and the greatest end.
- `FrameRange` (`frame_range.dfy`): the tracks the `frameRangeFrom*` loops visit, in visiting order (`VisitedKeys`).
  - It also describes, without any order, which tracks influence a camera (`Relevant`, `IsCameraRange`).
  - Two proofs connect these: the loops visit exactly the influencing tracks, and the computed range is their span.
- `Sequences` (`sequences.dfy`): two small facts about sequence concatenation, shared by the other modules.
- `Documents` (`documents.dfy`): the render-settings list and the main take's children.
  - The first render-settings entry is the default one.
  - Host objects are told apart by handles.
  - `Remove()` is modelled as `Without`.
- `CameraToTakePlugin` (`camera_to_take.dfy`): the class `CameraToTake`.
  - Its fields `min`, `max` and `count` are updated in place.
  - So is the camera data list. Each record gets its render-settings and take handles stored into it.
  - Each method is proved against functions of the old state.
  - `__init__` is the constructor. Its two dialog answers are boolean inputs.

Details of the model:

- **Hierarchy walk.** It is an input: the sequence of objects from the first object on.
- **Empty document.** With "convert all", an empty document ends in `HierarchyError` before anything changes. The walk returns nothing and the subsequent append fails.
- **"Convert all" quirk.** The first object is searched twice, so a first object that is a camera gets two takes (`FirstObjectTwice`). This is what the code does, and the model keeps it.
- **Take insertion.** `AddTake` puts the new take in front of the main take's children. The take is cloned from the child captured before the loop (`cloneOf`).

## Model

| member | source | states |
|---|---|---|
| NaturalOrder.Atoi | cameraToTake.py:9-10 | A digit run becomes a number whose `str()` (`Decimal`) gives the run back when it has no leading zero. A leading zero does not change the number. A digit-free run stays text |
| NaturalOrder.DigitsRoundTrip | cameraToTake.py:10 | `str(int(s))` is `s` for a digit string without leading zeros |
| NaturalOrder.LeadingZero | cameraToTake.py:10 | `int('0' + t)` equals `int(t)` |
| NaturalOrder.DigitsValue | cameraToTake.py:10 | `int()` of a digit string; no contract of its own: `DigitsRoundTrip` and `LeadingZero` pin it down against `Decimal` |
| NaturalOrder.SplitDigits | cameraToTake.py:13 | Non-digit runs alternate with digit runs. The digit runs are non-empty and maximal, the count is odd, and joined back the runs give the name |
| NaturalOrder.NaturalKeys | cameraToTake.py:12-13 | Even positions hold the digit-free runs as text; odd positions hold the integer values of the digit runs |
| NaturalOrder.KeysAlignedKinds | cameraToTake.py:12-13 | Two natural keys hold text at the same positions, so sorting never compares text with a number |
| NaturalOrder.TextLessIrreflexive | cameraToTake.py:149-150 | Python string `<` never relates a string to itself |
| NaturalOrder.TextLessTransitive | cameraToTake.py:149-150 | Python string `<` is transitive |
| NaturalOrder.TextLessTotal | cameraToTake.py:149-150 | Python string `<` orders any two different strings |
| NaturalOrder.PartLessIrreflexive | cameraToTake.py:149-150 | Comparing key elements is irreflexive |
| NaturalOrder.PartLessTransitive | cameraToTake.py:149-150 | Comparing key elements is transitive |
| NaturalOrder.PartLessTotal | cameraToTake.py:149-150 | Comparing key elements is total |
| NaturalOrder.TextLess | cameraToTake.py:149-150 | Python `<` on strings; no contract of its own: `TextLessIrreflexive`, `TextLessTransitive` and `TextLessTotal` state it is a strict total order |
| NaturalOrder.PartLess | cameraToTake.py:149-150 | Python `<` on key elements; no contract of its own: `PartLessIrreflexive`, `PartLessTransitive`, `PartLessTotal`, and `KeysAlignedKinds` shows text is never compared with a number |
| NaturalOrder.KeyLess | cameraToTake.py:149-150 | Python `<` on lists of key elements; no contract of its own: the `KeyLess*` lemmas state it is a strict total order |
| NaturalOrder.KeyLessIrreflexive | cameraToTake.py:149-150 | Python list `<` on natural keys is irreflexive |
| NaturalOrder.KeyLessTransitive | cameraToTake.py:149-150 | Python list `<` on natural keys is transitive |
| NaturalOrder.KeyLessTotal | cameraToTake.py:149-150 | Python list `<` on natural keys orders any two different keys |
| NaturalOrder.KeyAtMostTransitive | cameraToTake.py:149-150 | "Not below" on keys is transitive |
| NaturalOrder.SplitOfText | cameraToTake.py:13 | A digit-free name splits into itself alone |
| NaturalOrder.SplitOfDigitsThenText | cameraToTake.py:13 | Digits followed by digit-free text split into an empty run, the digits, and the text |
| NaturalOrder.SplitOfNumbered | cameraToTake.py:13 | "stem, digits, tail" (stem and tail digit-free) splits into exactly those three runs |
| NaturalOrder.NumberedNameKey | cameraToTake.py:12-13 | The key of "stem, digits, tail" is the stem, the digits' value, and the tail |
| NaturalOrder.NumberedNamesOrder | cameraToTake.py:12-13 | Names with the same stem sort by the value of their number, not by its characters |
| NaturalOrder.CamTwoBeforeCamTen | cameraToTake.py:12-13 | "Cam2" sorts before "Cam10", and "Cam1" before "Cam2" |
| NaturalOrder.Decimal | cameraToTake.py:162-165 | The count's decimal text has no leading zero and reads back as the count |
| StableSort.SortBy | cameraToTake.py:149-150 | `sorted(…, key=…)`; no contract of its own: `SortByCorrect` states it is ordered, a permutation and stable |
| StableSort.SortByCorrect | cameraToTake.py:149-150 | The sorted cameras are ordered by key, a permutation of the input, and keep input order within each key |
| StableSort.InsertSorted | cameraToTake.py:149-150 | Inserting into a sorted list keeps it sorted |
| StableSort.InsertMultiset | cameraToTake.py:149-150 | Inserting adds exactly the one element |
| StableSort.InsertWithKey | cameraToTake.py:149-150 | Inserting puts the element at the front of its key group and leaves other groups alone |
| StableSort.SortByMembers | cameraToTake.py:149-150 | An object is in the sorted list exactly when it is in the input |
| Scene.UpChain | cameraToTake.py:317-321 | Every object on the parent chain is in the scene |
| Scene.UpChainLinks | cameraToTake.py:317-321 | The chain starts at the given parent. Each entry is the parent of the one before, and the last has no parent |
| Scene.UpChainDecreasing | cameraToTake.py:317-321 | Ids strictly decrease along the chain, so the walk ends |
| Scene.Ancestors | cameraToTake.py:314-323 | The ancestors are objects of the scene |
| Scene.AncestorsSpec | cameraToTake.py:314-323 | Parent first, each entry the parent of the one before, the last a root; the object itself is not among them |
| Scene.GetParents | cameraToTake.py:314-323 | The loop collects exactly the strict ancestors, nearest first |
| Scene.IsCamera | cameraToTake.py:146 | The type id is one of the camera ids; used by `CamerasInSpec` |
| Scene.CamerasIn | cameraToTake.py:143-147 | The filtering loop's result; no contract of its own: `CamerasInSpec` states it keeps only cameras, each with its input multiplicity, and `FilterCameras` proves the loop computes it |
| Scene.NameKey | cameraToTake.py:150 | The sort key `natural_keys(n.GetName())`; its properties are those of `NaturalKeys` and the `KeyLess*` lemmas |
| Scene.CamerasInSpec | cameraToTake.py:145-147 | Only camera-type objects are kept, each as often as it occurs in the input |
| Scene.FirstTag | cameraToTake.py:100-101 | A found tag is on the object and of the asked type; "none" means no tag of that type |
| Scene.FirstTagIsFirst | cameraToTake.py:100-101 | Of several tags of one type, the one nearest the front is found |
| Intervals.Update | cameraToTake.py:81-88 | At count 0 both ends are overwritten. Otherwise the start never rises and the end never falls. The count grows by one |
| Intervals.Fold | cameraToTake.py:64-88 | A reset followed by one `updateMinMax` per contribution; no contract of its own: `FoldSpan` states the count and the span, `FoldOrderIrrelevant` the order independence |
| Intervals.FoldSpan | cameraToTake.py:64-67 | After a reset and any updates: the count is their number. With none the range is (0, 0); otherwise it runs from the least start to the greatest end |
| Intervals.FoldOrderIrrelevant | cameraToTake.py:81-88 | The order of the updates does not change the range |
| Intervals.FoldOrdered | cameraToTake.py:81-88 | If every update starts no later than it ends, so does the range |
| FrameRange.Present | cameraToTake.py:119-128 | Only existing tracks are reported |
| FrameRange.TrackBounds | cameraToTake.py:132-136 | The first and last key times of a present track; no contract of its own: `BoundsOfMembers` states the reported bounds are exactly these pairs for the reported tracks |
| FrameRange.PresentMembers | cameraToTake.py:119-128 | A track is reported exactly when it exists, belongs to the owner, and its parameter is asked for |
| FrameRange.PresentStep | cameraToTake.py:120-121 | One more parameter adds its track's bounds when the track exists, and nothing otherwise |
| FrameRange.BoundsOfMembers | cameraToTake.py:130-140 | The reported bounds are exactly the (first, last) key times of the reported tracks |
| FrameRange.ObjectKeys | cameraToTake.py:90-97 | Only existing tracks are reported; which ones exactly is stated by `PresentMembers` |
| FrameRange.LinkKeys | cameraToTake.py:112-116 | Only existing tracks are reported; which ones exactly is stated by `TagKeysMembers` |
| FrameRange.AlignTag | cameraToTake.py:100 | `GetTag(5699)`; no contract of its own: `FirstTag` and `FirstTagIsFirst` state which tag is found, `TagKeysMembers` which tracks it contributes |
| FrameRange.TargetTag | cameraToTake.py:101 | `GetTag(5676)`; no contract of its own: `FirstTag` and `FirstTagIsFirst` state which tag is found, `TagKeysMembers` which linked objects' tracks it contributes |
| FrameRange.TagKeys | cameraToTake.py:99-116 | Only existing tag-related tracks are reported |
| FrameRange.SplineKeys | cameraToTake.py:103-106 | Only existing align-to-spline tracks are reported |
| FrameRange.TargetKeys | cameraToTake.py:108-116 | Only existing tracks of the target and up-vector objects are reported |
| FrameRange.ChainKeys | cameraToTake.py:75-77 | Only existing tracks are reported along the chain |
| FrameRange.ChainBoundsStep | cameraToTake.py:75-77 | One more object adds its own tracks' bounds, then its tags' |
| FrameRange.Chain | cameraToTake.py:70-71 | The visited objects (ancestors, then the camera) are in the scene |
| FrameRange.VisitedKeys | cameraToTake.py:69-79 | The tracks the loops visit, in order; no contract of its own: `VisitedExactlyContributing` states they are exactly the contributing tracks |
| FrameRange.CameraRange | cameraToTake.py:69-79 | The range the loops compute; no contract of its own: `CameraRangeIsIntended` states it is the span of the contributing tracks, and `FrameRangeFromCamera` that the loops compute it |
| FrameRange.Contributing | cameraToTake.py:69-140 | Every contributing track exists |
| FrameRange.ChainKeysMembers | cameraToTake.py:75-77 | A track is visited exactly when it is one of some visited object's own tracks or tag tracks |
| FrameRange.TagKeysMembers | cameraToTake.py:99-116 | A tag track is visited exactly when it is a present align-to-spline track, or a present transform track of a target or up-vector object |
| FrameRange.VisitedExactlyContributing | cameraToTake.py:69-140 | The loops visit exactly the tracks that influence the camera. Links are not followed further |
| FrameRange.VisitedContributes | cameraToTake.py:69-140 | Every visited track exists and influences the camera |
| FrameRange.ContributingVisited | cameraToTake.py:69-140 | Every existing influencing track is visited |
| FrameRange.FoldIsSpan | cameraToTake.py:64-88 | Folding the bounds of a list of tracks spans the set of its members |
| FrameRange.CameraRangeIsIntended | cameraToTake.py:69-79 | The computed range is the span of the influencing tracks: (0, 0) without any, else (least first key, greatest last key) |
| FrameRange.SpanUnique | cameraToTake.py:69-79 | At most one range spans a set of tracks |
| FrameRange.CameraRangeUnique | cameraToTake.py:69-79 | The range does not depend on visiting order or repetition |
| FrameRange.CameraRangeOrdered | cameraToTake.py:69-79 | With time-ordered keys, the range starts no later than it ends |
| Documents.Without | cameraToTake.py:184 | `Remove()` never grows the list and leaves no entry with that handle |
| Documents.WithoutAt | cameraToTake.py:184 | Removing an object of the list takes out exactly that entry, in place |
| Documents.WithoutAbsent | cameraToTake.py:205 | Removing an object that is not listed changes nothing |
| Documents.AppendRenderDataConsistent | cameraToTake.py:214 | Appending a fresh clone keeps the default entry and distinct handles |
| Documents.PrependTakeConsistent | cameraToTake.py:270-271 | Adding a fresh take in front keeps distinct handles |
| Documents.RemoveRenderDataConsistent | cameraToTake.py:184 | Removing a non-default entry drops exactly it and keeps the lists consistent |
| Documents.RemoveTakeConsistent | cameraToTake.py:205 | Removing a take drops exactly it and keeps the lists consistent |
| Documents.RemoveFirstTakeConsistent | cameraToTake.py:204-205 | Removing the first remaining take leaves exactly the rest, consistent |
| CameraToTakePlugin.Objects | cameraToTake.py:22-28 | The objects searched; no contract of its own: `FirstObjectTwice` states the consequence of the first object being appended again, and the constructor's ensures use it |
| CameraToTakePlugin.RecordFor | cameraToTake.py:58-60 | One camera's record; no contract of its own: `RecordsForCameras` states its camera, name, intended range and empty handles |
| CameraToTakePlugin.Configured | cameraToTake.py:213-221 | One configured clone; no contract of its own: `ClonesForRecords` states its handle, name, frame sequence, from/to and other settings |
| CameraToTakePlugin.NewTake | cameraToTake.py:270-275 | One added take; no contract of its own: `TakesInRecordOrder` states its handle, name, camera, render settings and clone source |
| CameraToTakePlugin.FirstChild | cameraToTake.py:267 | `child_take`, captured once; `CreateTakeData` ensures every new take is cloned from it |
| CameraToTakePlugin.Clears | cameraToTake.py:40-41 | The clearing condition; no contract of its own: the constructor's and `Generate`'s ensures state both outcomes under it |
| CameraToTakePlugin.RecordsFor | cameraToTake.py:54-62 | One record per camera |
| CameraToTakePlugin.RecordsForStep | cameraToTake.py:57-62 | Each pass appends the record of the next camera |
| CameraToTakePlugin.RecordsForAt | cameraToTake.py:57-62 | Record `i` is the record of camera `i` |
| CameraToTakePlugin.RecordsForCameras | cameraToTake.py:54-62 | Record `i` holds camera `i`, its name and its intended frame range, and no handles yet |
| CameraToTakePlugin.ClonesFor | cameraToTake.py:212-223 | The clones `createRenderData` appends, in record order; no contract of its own: `ClonesForRecords` states each clone's handle, name, frame sequence, from/to and other settings |
| CameraToTakePlugin.WithRenderData | cameraToTake.py:223 | The records once each holds its clone's handle; no contract of its own: `GeneratedTakesMatchRecords` states the handle each record ends with |
| CameraToTakePlugin.ClonesForRecords | cameraToTake.py:209-225 | One clone per record, in order, each with a fresh handle. Each is named after its take and set to the manual range with the record's from/to. All other settings are the default's |
| CameraToTakePlugin.ClonesForStep | cameraToTake.py:212-223 | Each pass appends the next record's clone |
| CameraToTakePlugin.WithRenderDataStep | cameraToTake.py:223 | Each pass stores the clone's handle in its record only |
| CameraToTakePlugin.TakesFor | cameraToTake.py:269-277 | The takes `createTakeData` adds, top to bottom; no contract of its own: `TakesInRecordOrder` states they are in record order with each take's handle, name, camera, render settings and clone source |
| CameraToTakePlugin.TakesInRecordOrder | cameraToTake.py:264-279 | Reverse iteration with front insertion leaves the takes in record order. Each take has the record's name, camera and render settings, and the captured child as clone source |
| CameraToTakePlugin.TakesForStep | cameraToTake.py:269-271 | Adding record `i`'s take puts it in front of the later records' takes |
| CameraToTakePlugin.TakeDataFrom | cameraToTake.py:269-277 | The records keep their number while take handles are stored |
| CameraToTakePlugin.TakeDataFromStep | cameraToTake.py:277 | Each pass stores the new take's handle in its record only |
| CameraToTakePlugin.WithTakeData | cameraToTake.py:277 | The records once each holds its take's handle; no contract of its own: `GeneratedTakesMatchRecords` states the handle each record ends with |
| CameraToTakePlugin.GeneratedRecords | cameraToTake.py:209-279 | The records after a whole run; no contract of its own: `GeneratedTakesMatchRecords` states their camera, name and both handles |
| CameraToTakePlugin.GeneratedTakes | cameraToTake.py:209-279 | The takes a whole run adds; no contract of its own: `GeneratedTakesMatchRecords` states that take `k` matches record `k` and their handles are distinct |
| CameraToTakePlugin.GeneratedTakesMatchRecords | cameraToTake.py:209-279 | Take `k` and record `k` agree on name, camera and render settings. The record holds the take's handle. Take `k` has handle `h0 + 2·n - 1 - k`, so takes are numbered after the clones, last record first, all distinct |
| CameraToTakePlugin.PrettyStats | cameraToTake.py:154-167 | The summary starts "Successfully Generated " and ends in "s" exactly when the count is not 1 |
| CameraToTakePlugin.PrettyStatsCount | cameraToTake.py:154-167 | The summary's number reads back as the count, followed by " Take" exactly when the count is 1, else " Takes" |
| CameraToTakePlugin.PrettyStatsExamples | cameraToTake.py:154-167 | 1 gives "… 1 Take", 0 gives "… 0 Takes", 12 gives "… 12 Takes" |
| CameraToTakePlugin.FirstObjectTwice | cameraToTake.py:22-30 | With "convert all", a first object that is a camera is found at least twice |
| CameraToTakePlugin.FilterCameras | cameraToTake.py:142-152 | The camera-type objects, duplicates kept, stably sorted by the natural key of their names |
| CameraToTakePlugin.CameraToTake.constructor | cameraToTake.py:16-52 | Empty document with "convert all": HierarchyError, the document (both lists and the handle counter) unchanged. No cameras: NoCameras, the document unchanged. Otherwise one record per camera, clearing only if something exists and the user confirms, then clones and takes as below and the summary |
| CameraToTakePlugin.CameraToTake.Convert | cameraToTake.py:36-52 | Builds the records, then the document and records end as `Generate` states |
| CameraToTakePlugin.CameraToTake.Generate | cameraToTake.py:38-52 | When cleared: the default plus one clone per record, and only the new takes. Otherwise the clones are appended and the new takes come before the old ones. Records end up holding their handles |
| CameraToTakePlugin.CameraToTake.ResetMinMax | cameraToTake.py:64-67 | (min, max, count) = (0, 0, 0), the fold of no contribution |
| CameraToTakePlugin.CameraToTake.UpdateMinMax | cameraToTake.py:81-88 | The interval becomes `Update` of the old one, and stays the fold of what was reported |
| CameraToTakePlugin.CameraToTake.GetTrackRange | cameraToTake.py:123-140 | A missing track returns none and reports nothing. A present one returns and reports its (first, last) key times |
| CameraToTakePlugin.CameraToTake.IterateTrackIDs | cameraToTake.py:119-121 | Reports the bounds of the owner's existing tracks among the parameters, in order |
| CameraToTakePlugin.CameraToTake.FrameRangeFromObject | cameraToTake.py:90-97 | Reports the bounds of the object's existing transform tracks |
| CameraToTakePlugin.CameraToTake.FrameRangeFromTags | cameraToTake.py:99-116 | Reports the align-to-spline tracks, then the transform tracks of the target and up-vector objects |
| CameraToTakePlugin.CameraToTake.FrameRangeFromCamera | cameraToTake.py:69-79 | Returns the camera's intended frame range |
| CameraToTakePlugin.CameraToTake.BuildCameraDataList | cameraToTake.py:54-62 | The data list is one record per camera, in camera order |
| CameraToTakePlugin.CameraToTake.GetAllRenderData | cameraToTake.py:169-178 | Every render-settings entry after the default, in list order |
| CameraToTakePlugin.CameraToTake.DeleteAllRenderData | cameraToTake.py:180-186 | Only the default entry is left; takes are unchanged |
| CameraToTakePlugin.CameraToTake.GetAllTakeData | cameraToTake.py:188-199 | The main take's children, in order |
| CameraToTakePlugin.CameraToTake.DeleteAllTakes | cameraToTake.py:201-207 | The main take has no children left; render settings are unchanged |
| CameraToTakePlugin.CameraToTake.CreateRenderData | cameraToTake.py:209-225 | The clones for the records are appended after the old entries, which are unchanged. Each record holds its clone's handle |
| CameraToTakePlugin.CameraToTake.AddRenderDataFor | cameraToTake.py:212-223 | One pass appends one configured clone and stores its handle in that record only |
| CameraToTakePlugin.CameraToTake.CreateTakeData | cameraToTake.py:264-279 | The new takes, in record order, come in front of the old ones. Each record holds its take's handle; render settings are unchanged |
| CameraToTakePlugin.CameraToTake.AddTakeFor | cameraToTake.py:269-277 | One pass puts one bound take in front and stores its handle in that record only |

## Left out

- `IterateHierarchy` (pre-order walk over the object tree) is not modelled. Its result is an input of the constructor, in the order the walk gives.
- The dialogs (`QuestionDialog`, `MessageDialog`) are not modelled. Their answers are boolean inputs, and the messages are the `Outcome`.
- `writeLogInformation` is not modelled: file system, wall clock, path strings, and the host's time-to-frame conversion.
- `GetFps` is not modelled; it is only used by the log.
- `StartUndo`, `EndUndo` and `EventAdd` are not modelled: the host's undo and redraw machinery.
- Plugin registration (`CommandData`, `main`) is not modelled: host glue.
- `GetClone`, `AddTake` and `Remove` are modelled only by their effect on the two lists. Their internals are not modelled.
- `FindCTrack`, `GetCurve` and `GetKey` are modelled as a map lookup from (owner, parameter) to key times.
- A track with no keys is excluded by the scene's well-formedness. The code would fail on one.
- The parameter ids are names, not the host's numeric constants.
- The tags modelled are only the align-to-spline tag and the target tag. Only their target and up-vector links are modelled.
- Times are integer ticks. The code only compares them.
- `NaturalOrder.IsDigit` recognises ASCII digits only. Other Unicode decimal digits, which Python's `\d` and `isdigit` accept, are not modelled.
- `NaturalOrder.Atoi`: a text run made only of characters that `isdigit` accepts but `\d` does not match (superscript or circled digits, as in "Cam1²") makes `int()` raise, which aborts the whole command. The model keeps such a run as text and sorts normally.
- `Scene.NameKey`: objects outside the scene get an empty key. Every object sorted is in the scene, so this case never arises.
- The order of the setter calls on a new clone or take is not modelled. Only the final values are.
- The document is assumed to hold a default render-settings entry. The host always has one, and the code reads it unconditionally.
- Takes are the main take's direct children. Removing a take removes its sub-takes with it, which the flat list does not show.
- Render settings are the top-level list only. Child render settings are never collected or removed by the plugin, and a clone of the default entry also copies the default's children; neither is shown by the flat list.
