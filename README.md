# PDollar-Unity recognizer: stroke capture and template bookkeeping

This project models the `PDollarRecognizer` Unity component of PDollar-Unity.
The component captures pointer strokes through LeanTouch finger events. It
classifies each finished stroke with the $P point-cloud recognizer against a
library of labelled templates, and emits a recognition event when the score
reaches `MinScore`. The model covers the component's own logic:

- the finger-down, finger-update and finger-up handlers;
- the shared candidate buffer `points`, the vertex counter and the line's position count;
- the finger table, with each finger's own `Points` list and its `EndPoint`;
- the template library: loaded from the pattern managers in `Start`, extended by `SaveToTest`;
- `ClearLine`, and the acceptance test in `Recognize`.

The $P algorithm itself is outside the model. Its normalisation (the `Gesture`
constructor), `PointCloudRecognizer.Classify` and `GestureIO.ReadGestureFromXML`
are the three function values of `Gestures.Collaborators`. The parser returns
`None` for a string it cannot read, which stands for the exception
`ReadGestureFromXML` throws. Normalisation and classification are taken to be
total: they return a value for every input, the empty cloud included.

Layout:

- `wrappers.dfy`: `Option`.
- `geometry.dfy`: positions, samples and the movement test `Beyond`. It compares
  squared distances, so no square root is needed, and it is exact for every real
  threshold, negative ones included.
- `gestures.dfy`: the $P types and the collaborators. It also holds library
  loading (`AllXml` gives the strings in visiting order, `LoadAll` the templates
  loaded up to the first parse failure) and the acceptance decision (`Decide`).
- `capture.dfy`: the component's state as a value (`Session`) and one function
  per handler. It also holds the invariant `Inv`, runs over event traces and
  the lemmas about them.
- `recognizer.dfy`: the class `PDollarRecognizer`. Its fields are updated in
  place by its methods, and each method is proved to match the `Capture`
  function for its handler.

Behaviour the model reproduces from the code as written. Where a general
description of the system says otherwise, the code is followed:

- The movement filter is strict: a move exactly `stepThreshold` away from the
  anchor is not recorded.
- The filter's anchor is `EndPoint`, the last element of the finger's own `Points`.
  Only `AddFinger` writes that list, so the anchor is the pointer-down position
  for the whole stroke, not the last recorded sample. A finger that rests
  anywhere beyond the threshold therefore records a sample on every update.
- `strokeId` is never incremented, so every sample carries stroke id 0.
- The pointer-down position never enters `points`. A tap (down, then up, with
  no move) therefore classifies an empty cloud, not a one-point cloud.
- `points` is a single buffer shared by all fingers. Any accepted finger-down
  empties it.
- `Start` has no exception handling. A string the parser rejects throws out of
  `Start`, so that string and every later one stay unloaded. The design instead
  asks that a bad template not stop the others from loading.
- `SaveToTest` accepts any name, the empty one included. Only the demo UI
  (`Demo2D.SaveTest`) refuses an empty name; the component does not.
- A finger-up for a finger that the filter accepts but that has no record
  dereferences null in the source. The model makes that a precondition; it
  does not treat the event as an ignored no-op.

## Model

| member | source | states |
|---|---|---|
| Geometry.BeyondIsDistanceTest | Assets/PDollar/Scripts/PDollarRecognizer.cs:115 | the squared-distance test holds exactly when the true distance is strictly greater than the step threshold, for any real threshold |
| Geometry.Beyond | Assets/PDollar/Scripts/PDollarRecognizer.cs:115 | a negative threshold is exceeded by every position; with a non-negative threshold, a finger still at its anchor is never beyond it |
| Gestures.MakeGesture | Assets/PDollar/Scripts/PDollarRecognizer.cs:160 | the gesture carries the given label and the normalised cloud of exactly the given points |
| Gestures.AllXml | Assets/PDollar/Scripts/PDollarRecognizer.cs:61-63 | the strings Start visits, manager by manager; there are as many as the GestureXML lengths add up to |
| Gestures.AllXmlOrder | Assets/PDollar/Scripts/PDollarRecognizer.cs:61-63 | string j of manager i is visited right after all strings of managers 0..i-1 and strings 0..j-1 of manager i |
| Gestures.ParsedRun | Assets/PDollar/Scripts/PDollarRecognizer.cs:65 | the number of strings loaded before the first one the parser rejects: all before it parse, and it does not |
| Gestures.Loaded | Assets/PDollar/Scripts/PDollarRecognizer.cs:63-66 | the templates are the parsed gestures of the strings, in order, up to the first rejected string |
| Gestures.LoadAll | Assets/PDollar/Scripts/PDollarRecognizer.cs:61-66 | the template at position k is the parse of the k-th string Start visits; there are at most as many templates as strings |
| Gestures.LoadAllCount | Assets/PDollar/Scripts/PDollarRecognizer.cs:58-68 | when every string parses, loading adds as many templates as there are serialized gestures over all pattern managers |
| Gestures.LoadAllOrder | Assets/PDollar/Scripts/PDollarRecognizer.cs:61-66 | when a string and every string before it parse, string j of manager i becomes the template right after all strings of managers 0..i-1 and strings 0..j-1 of manager i |
| Gestures.LoadAllStopsAtFailure | Assets/PDollar/Scripts/PDollarRecognizer.cs:61-66 | a string the parser rejects stops the load: no template comes from it or from any later string |
| Gestures.Decide | Assets/PDollar/Scripts/PDollarRecognizer.cs:143-148 | an event is produced iff score >= MinScore/100, and it carries the classifier's label and score |
| Gestures.DecideMonotone | Assets/PDollar/Scripts/PDollarRecognizer.cs:143 | lowering MinScore never withdraws or changes an event that a higher MinScore produces |
| Capture.Initial | Assets/PDollar/Scripts/PDollarRecognizer.cs:50-53 | the initial state (no templates, empty buffer, stroke id 0, counter 0, no fingers) satisfies the invariant |
| Capture.EndPoint | Assets/PDollar/Scripts/PDollarRecognizer.cs:20-26 | the end point is one of the finger's positions; for a record holding one position, it is that position |
| Capture.AddFinger | Assets/PDollar/Scripts/PDollarRecognizer.cs:177-184 | the finger's record is found or created and its Points become exactly [position]; other records, buffer and library are untouched |
| Capture.Down | Assets/PDollar/Scripts/PDollarRecognizer.cs:96-108 | an accepted finger-down empties the buffer, zeroes the counters and sets the finger's Points to [down position]; a rejected one changes nothing; the invariant is kept |
| Capture.Move | Assets/PDollar/Scripts/PDollarRecognizer.cs:110-121 | exactly one sample (x, y, strokeId) is appended iff the finger is tracked and strictly beyond the threshold from its EndPoint, else nothing changes; finger records never change; the invariant is kept |
| Capture.Up | Assets/PDollar/Scripts/PDollarRecognizer.cs:123-136 | an accepted finger-up removes exactly that finger's record; buffer, counters and library are unchanged; the invariant is kept |
| Capture.Cleared | Assets/PDollar/Scripts/PDollarRecognizer.cs:164-169 | ClearLine empties the buffer and zeroes both counters, leaving fingers and library alone |
| Capture.ClearedIdempotent | Assets/PDollar/Scripts/PDollarRecognizer.cs:164-169 | clearing twice is the same as clearing once |
| Capture.Saved | Assets/PDollar/Scripts/PDollarRecognizer.cs:159-162 | SaveToTest appends exactly one template, the normalised current buffer under the given name, keeping earlier templates, the buffer and the counters |
| Capture.Recognition | Assets/PDollar/Scripts/PDollarRecognizer.cs:138-149 | the buffer, normalised, is classified against the library; an event is produced iff score >= MinScore/100 and carries the label and score |
| Capture.Emits | Assets/PDollar/Scripts/PDollarRecognizer.cs:123-136 | only a finger-up that the filter accepts produces an event, and it produces exactly what Recognize decides on the state before the record is removed |
| Capture.RunKeepsInv | Assets/PDollar/Scripts/PDollarRecognizer.cs:96-169 | after any trace of down, update, up, clear and save events: vertexCount and positionCount equal the length of points, every sample has stroke id 0, every finger record holds one position |
| Capture.ThresholdLaw | Assets/PDollar/Scripts/PDollarRecognizer.cs:143 | over any event trace, every event emitted under a higher MinScore is emitted identically under a lower one |
| Capture.TapClassifiesEmptyCloud | Assets/PDollar/Scripts/PDollarRecognizer.cs:123-149 | an accepted down followed by its up emits the decision for the normalised empty cloud |
| Capture.MovesAppendCaptured | Assets/PDollar/Scripts/PDollarRecognizer.cs:110-121 | updates of a tracked finger append, in order, exactly the positions strictly beyond the threshold from the finger's single recorded position, and leave the finger table unchanged |
| Capture.StrokeCapture | Assets/PDollar/Scripts/PDollarRecognizer.cs:96-121 | after an accepted down at p and any updates of that finger, the buffer is exactly the update positions farther than the threshold from p, tagged 0, and EndPoint is still p |
| Capture.QuietMovesCaptureNothing | Assets/PDollar/Scripts/PDollarRecognizer.cs:115 | updates that all stay within the threshold of the anchor capture no sample |
| Capture.RestingFarFingerRecordsEveryUpdate | Assets/PDollar/Scripts/PDollarRecognizer.cs:20-26 | since the anchor stays at the down position, n updates at one position beyond the threshold record n copies of it |
| Recognizer.PDollarRecognizer.constructor | Assets/PDollar/Scripts/PDollarRecognizer.cs:36-53 | a new component is in the initial state, with StepThreshold 1 and MinScore 80 |
| Recognizer.PDollarRecognizer.Start | Assets/PDollar/Scripts/PDollarRecognizer.cs:58-68 | the nested loops append LoadAll of the pattern managers to the library, stopping at the first string the parser rejects; when every string parses, the library grows by the total number of serialized gestures |
| Recognizer.PDollarRecognizer.AddFinger | Assets/PDollar/Scripts/PDollarRecognizer.cs:177-184 | the finger table maps the finger to [its position]; it matches Capture.AddFinger |
| Recognizer.PDollarRecognizer.HandleFingerDown | Assets/PDollar/Scripts/PDollarRecognizer.cs:96-108 | the new state is Capture.Down of the old one: an accepted finger empties the buffer and counters and records [position]; otherwise nothing changes |
| Recognizer.PDollarRecognizer.HandleFingerUpdate | Assets/PDollar/Scripts/PDollarRecognizer.cs:110-121 | the new state is Capture.Move of the old one; the buffer grows by the sample (x, y, 0) iff the finger is tracked and strictly beyond the threshold from its EndPoint |
| Recognizer.PDollarRecognizer.HandleFingerUp | Assets/PDollar/Scripts/PDollarRecognizer.cs:123-136 | the new state is Capture.Up of the old one; the returned event is what Recognize emits, or none for a rejected finger |
| Recognizer.PDollarRecognizer.Recognize | Assets/PDollar/Scripts/PDollarRecognizer.cs:138-149 | returns an event iff the classifier's score for the normalised buffer reaches MinScore/100, carrying its label and score; changes nothing |
| Recognizer.PDollarRecognizer.SaveToTest | Assets/PDollar/Scripts/PDollarRecognizer.cs:159-162 | the library gains exactly the normalised buffer under the name at its end; it matches Capture.Saved |
| Recognizer.PDollarRecognizer.ClearLine | Assets/PDollar/Scripts/PDollarRecognizer.cs:164-169 | the buffer is empty and both counters are 0; it matches Capture.Cleared |

## Left out

- The $P algorithm is not modelled: `Gesture` normalisation, `PointCloudRecognizer.Classify` and `GestureIO.ReadGestureFromXML` are opaque function values. Their source is not part of this model, so no property of scores, such as a self-match, is claimed. The parser may fail, which is modelled; normalisation and classification are taken to be total.
- Capture.TapClassifiesEmptyCloud, Recognizer.PDollarRecognizer.Recognize and Recognizer.PDollarRecognizer.SaveToTest: normalisation is applied to the empty cloud after a tap or after `ClearLine`. Whether the real `Gesture` constructor accepts an empty cloud or throws is not part of this model; these contracts hold because `normalize` is treated as total.
- Capture.Initial and Recognizer.PDollarRecognizer.constructor: the line renderer's `positionCount` is taken to start at 0. In the scene it keeps its serialized value until the first accepted down, recorded update or `ClearLine`, so `positionCount == vertexCount` is assumed, not established, before that.
- The candidate gesture's label is taken to be `""`, the default of the `Gesture` constructor, whose source is not part of this model. Only the classifier sees that label.
- `GetXML` is not modelled. It only forwards the buffer to `GestureIO.GetXML`, which is not part of this model, so an export/parse round trip cannot be stated.
- LeanTouch is reduced to what the handlers see. `Use.UpdateAndGetFingers()` becomes the `fingers` parameter, the set of finger indices the filter accepts at that event. `LeanFingerData.Find`, `FindOrCreate` and `Remove` become map lookup, update and removal. The static `fingerDataPool` is an allocation optimisation and is not modelled.
- HandleFingerUp: the null dereference for an accepted but untracked finger is a precondition, not behaviour. Its local copy of the finger's `Points` is never used and is not modelled.
- Rendering is not modelled: `DrawLine.SetPosition` and the z = 10 vertex are left out. Only `positionCount` is kept.
- Unity wiring is left out: `OnEnable`/`OnDisable` subscriptions, the empty `Update`, and `InvokeREcognized`/`UnityEvent.Invoke`. The event becomes the `Option` result of `Recognize` and `HandleFingerUp`.
- The `StepThreshold` property is a plain field, since its setter only assigns it. The `CreateTouch` editor menu, the `Demo2D` UI script and the `Range` inspector attribute are not modelled.
- Coordinates, scores and thresholds are exact reals. Unity's single-precision rounding, including in `Vector2.Distance` and `MinScore/100`, is not modelled.
- Multi-threaded access is not modelled; the component runs on Unity's main thread.
