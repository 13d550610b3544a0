/**
 * The recognizer's stroke-capture state machine as values: its state, one
 * function per event handler, runs over event traces, and the properties
 * those runs keep. The class in module Recognizer is proved against these
 * functions.
 */
module Capture {
  import opened Wrappers
  import opened Geometry
  import opened Gestures

  /** A LeanFinger as the handlers see it: its identity and current screen position. */
  datatype Finger = Finger(index: int, screenPosition: Vec2)

  /**
   * The recognizer's mutable state: the shared candidate buffer `points`,
   * the stroke id it tags samples with, the vertex counter, the line
   * renderer's position count, the finger table (finger index to the
   * finger's own Points list) and the template library.
   */
  datatype Session = Session(
    points: seq<Point>,
    strokeId: int,
    vertexCount: int,
    positionCount: int,
    fingers: map<int, seq<Vec2>>,
    templates: seq<Gesture>)

  /** The state a freshly created recognizer starts in. */
  function Initial(): (s: Session)
    ensures Inv(s)
  {
    Session([], 0, 0, 0, map[], [])
  }

  /**
   * What every reachable state satisfies: the stroke id is still 0 and tags
   * every sample, the counters agree with the buffer, and each tracked
   * finger's Points holds exactly one position.
   */
  predicate Inv(s: Session)
  {
    && s.strokeId == 0
    && s.vertexCount == |s.points|
    && s.positionCount == s.vertexCount
    && (forall k :: 0 <= k < |s.points| ==> s.points[k].strokeId == s.strokeId)
    && (forall id :: id in s.fingers ==> |s.fingers[id]| == 1)
  }

  /** FingerData.EndPoint: the last position of a finger's Points list. */
  function EndPoint(pts: seq<Vec2>): (e: Vec2)
    requires pts != []
    ensures e in pts
    ensures |pts| == 1 ==> e == pts[0]
  {
    pts[|pts| - 1]
  }

  /** AddFinger: find or create the finger's record and make its Points exactly [position]. */
  function AddFinger(s: Session, f: Finger): (r: Session)
    ensures r.fingers.Keys == s.fingers.Keys + {f.index}
    ensures r.fingers[f.index] == [f.screenPosition]
    ensures forall id :: id in s.fingers && id != f.index ==> r.fingers[id] == s.fingers[id]
    ensures r.points == s.points && r.vertexCount == s.vertexCount && r.templates == s.templates
    ensures r.positionCount == s.positionCount && r.strokeId == s.strokeId
    ensures Inv(s) ==> Inv(r)
  {
    s.(fingers := s.fingers[f.index := [f.screenPosition]])
  }

  /**
   * HandleFingerDown: when the finger filter accepts the finger, start its
   * record and empty the shared buffer; otherwise nothing happens.
   */
  function Down(s: Session, f: Finger, used: set<int>): (r: Session)
    ensures f.index in used ==>
      && r.points == [] && r.vertexCount == 0 && r.positionCount == 0
      && r.fingers == s.fingers[f.index := [f.screenPosition]]
    ensures f.index !in used ==> r == s
    ensures r.templates == s.templates && r.strokeId == s.strokeId
    ensures Inv(s) ==> Inv(r)
  {
    if f.index in used then
      AddFinger(s, f).(points := [], positionCount := 0, vertexCount := 0)
    else
      s
  }

  /** The finger is tracked and has moved strictly farther than the threshold from its EndPoint. */
  predicate Records(s: Session, f: Finger, threshold: real)
    requires f.index in s.fingers ==> s.fingers[f.index] != []
  {
    f.index in s.fingers && Beyond(f.screenPosition, EndPoint(s.fingers[f.index]), threshold)
  }

  /**
   * HandleFingerUpdate: append one sample at the finger's position, tagged
   * with the stroke id, exactly when `Records` holds; the finger table is
   * never touched, so EndPoint does not move.
   */
  function Move(s: Session, f: Finger, threshold: real): (r: Session)
    requires f.index in s.fingers ==> s.fingers[f.index] != []
    ensures Records(s, f, threshold) <==>
      r.points == s.points + [Point(f.screenPosition.x, f.screenPosition.y, s.strokeId)]
    ensures Records(s, f, threshold) ==>
      r.vertexCount == s.vertexCount + 1 && r.positionCount == r.vertexCount
    ensures !Records(s, f, threshold) ==> r == s
    ensures r.fingers == s.fingers && r.templates == s.templates && r.strokeId == s.strokeId
    ensures Inv(s) ==> Inv(r)
  {
    if Records(s, f, threshold) then
      s.(points := s.points + [Point(f.screenPosition.x, f.screenPosition.y, s.strokeId)],
         vertexCount := s.vertexCount + 1,
         positionCount := s.vertexCount + 1)
    else
      s
  }

  /** HandleFingerUp's state change: an accepted finger's record is removed. */
  function Up(s: Session, f: Finger, used: set<int>): (r: Session)
    requires f.index in used ==> f.index in s.fingers
    ensures r.fingers.Keys == if f.index in used then s.fingers.Keys - {f.index} else s.fingers.Keys
    ensures forall id :: id in r.fingers ==> r.fingers[id] == s.fingers[id]
    ensures r.points == s.points && r.vertexCount == s.vertexCount && r.templates == s.templates
    ensures r.positionCount == s.positionCount && r.strokeId == s.strokeId
    ensures Inv(s) ==> Inv(r)
  {
    if f.index in used then s.(fingers := s.fingers - {f.index}) else s
  }

  /** ClearLine: the buffer and both counters return to empty and zero. */
  function Cleared(s: Session): (r: Session)
    ensures r.points == [] && r.vertexCount == 0 && r.positionCount == 0
    ensures r.fingers == s.fingers && r.templates == s.templates && r.strokeId == s.strokeId
    ensures Inv(s) ==> Inv(r)
  {
    s.(points := [], positionCount := 0, vertexCount := 0)
  }

  lemma ClearedIdempotent(s: Session)
    ensures Cleared(Cleared(s)) == Cleared(s)
  {
  }

  /** SaveToTest: one template, built from the current buffer under `name`, goes at the end of the library. */
  function Saved(s: Session, normalize: seq<Point> -> seq<Point>, name: string): (r: Session)
    ensures |r.templates| == |s.templates| + 1
    ensures r.templates[..|s.templates|] == s.templates
    ensures r.templates[|s.templates|] == Gesture(name, normalize(s.points))
    ensures r.points == s.points && r.vertexCount == s.vertexCount && r.fingers == s.fingers
    ensures r.positionCount == s.positionCount && r.strokeId == s.strokeId
    ensures Inv(s) ==> Inv(r)
  {
    s.(templates := s.templates + [MakeGesture(normalize, s.points, name)])
  }

  /** Recognize: classify the shared buffer against the library and apply the MinScore test. */
  function Recognition(c: Collaborators, minScore: real, s: Session): (r: Option<PDollarResult>)
    ensures var m := c.classify(Gesture("", c.normalize(s.points)), s.templates);
      && (r.Some? <==> Accepts(m.score, minScore))
      && (r.Some? ==> r.value == PDollarResult(m.gestureClass, m.score))
  {
    Decide(c.classify(MakeGesture(c.normalize, s.points, ""), s.templates), minScore)
  }

  /** The inputs the recognizer reacts to; `used` is what the finger filter returns at that moment. */
  datatype Event =
    | PointerDown(finger: Finger, used: set<int>)
    | PointerMove(finger: Finger)
    | PointerUp(finger: Finger, used: set<int>)
    | ClearLine
    | SaveToTest(name: string)

  /**
   * Whether the handler can run without dereferencing a missing record:
   * HandleFingerUp looks up an accepted finger without a null check, and
   * EndPoint indexes the last element of the finger's Points.
   */
  predicate Enabled(s: Session, e: Event)
  {
    match e
    case PointerMove(f) => f.index in s.fingers ==> s.fingers[f.index] != []
    case PointerUp(f, used) => f.index in used ==> f.index in s.fingers
    case _ => true
  }

  function Step(c: Collaborators, threshold: real, s: Session, e: Event): Session
    requires Enabled(s, e)
  {
    match e
    case PointerDown(f, used) => Down(s, f, used)
    case PointerMove(f) => Move(s, f, threshold)
    case PointerUp(f, used) => Up(s, f, used)
    case ClearLine => Cleared(s)
    case SaveToTest(name) => Saved(s, c.normalize, name)
  }

  /** The recognition event an event triggers: only an accepted pointer-up classifies. */
  function Emits(c: Collaborators, minScore: real, s: Session, e: Event): (r: Option<PDollarResult>)
    requires Enabled(s, e)
    ensures r.Some? ==> e.PointerUp? && e.finger.index in e.used
    ensures e.PointerUp? && e.finger.index in e.used ==> r == Recognition(c, minScore, s)
  {
    match e
    case PointerUp(f, used) => if f.index in used then Recognition(c, minScore, Up(s, f, used)) else None
    case _ => None
  }

  /** Every event of the trace is enabled in the state it reaches. */
  predicate Playable(c: Collaborators, threshold: real, s: Session, evs: seq<Event>)
    decreases |evs|
  {
    evs == [] || (Enabled(s, evs[0]) && Playable(c, threshold, Step(c, threshold, s, evs[0]), evs[1..]))
  }

  function Run(c: Collaborators, threshold: real, s: Session, evs: seq<Event>): Session
    requires Playable(c, threshold, s, evs)
    decreases |evs|
  {
    if evs == [] then s else Run(c, threshold, Step(c, threshold, s, evs[0]), evs[1..])
  }

  /** The recognition events of a trace, one entry per event. */
  function Outputs(c: Collaborators, threshold: real, minScore: real, s: Session, evs: seq<Event>): (out: seq<Option<PDollarResult>>)
    requires Playable(c, threshold, s, evs)
    ensures |out| == |evs|
    decreases |evs|
  {
    if evs == [] then []
    else [Emits(c, minScore, s, evs[0])] + Outputs(c, threshold, minScore, Step(c, threshold, s, evs[0]), evs[1..])
  }

  /** Every reachable state keeps the invariant. */
  lemma {:induction false} RunKeepsInv(c: Collaborators, threshold: real, s: Session, evs: seq<Event>)
    requires Inv(s) && Playable(c, threshold, s, evs)
    ensures Inv(Run(c, threshold, s, evs))
    decreases |evs|
  {
    if evs != [] {
      var e := evs[0];
      var s' := Step(c, threshold, s, e);
      assert Inv(s') by {
        match e
        case PointerDown(f, used) =>
        case PointerMove(f) =>
        case PointerUp(f, used) =>
        case ClearLine =>
        case SaveToTest(name) =>
      }
      RunKeepsInv(c, threshold, s', evs[1..]);
    }
  }

  /**
   * The threshold law: for the same trace, every recognition event emitted
   * under a higher MinScore is emitted, identically, under a lower one.
   */
  lemma {:induction false} ThresholdLaw(c: Collaborators, threshold: real, lower: real, higher: real, s: Session, evs: seq<Event>)
    requires lower <= higher && Playable(c, threshold, s, evs)
    ensures forall k :: 0 <= k < |evs| && Outputs(c, threshold, higher, s, evs)[k].Some? ==>
      Outputs(c, threshold, lower, s, evs)[k] == Outputs(c, threshold, higher, s, evs)[k]
    decreases |evs|
  {
    if evs != [] {
      var s' := Step(c, threshold, s, evs[0]);
      ThresholdLaw(c, threshold, lower, higher, s', evs[1..]);
      var lo := Outputs(c, threshold, lower, s, evs);
      var hi := Outputs(c, threshold, higher, s, evs);
      forall k | 0 <= k < |evs| && hi[k].Some?
        ensures lo[k] == hi[k]
      {
        if k == 0 {
          match evs[0]
          case PointerUp(f, used) =>
            if f.index in used {
              var m := c.classify(MakeGesture(c.normalize, Up(s, f, used).points, ""), Up(s, f, used).templates);
              DecideMonotone(m, lower, higher);
            }
          case _ =>
        } else {
          assert lo[k] == Outputs(c, threshold, lower, s', evs[1..])[k - 1];
          assert hi[k] == Outputs(c, threshold, higher, s', evs[1..])[k - 1];
        }
      }
    }
  }

  /**
   * A tap (accepted down, then up, with no move) classifies an empty cloud:
   * the down position is kept only in the finger's own record, and
   * Recognize reads the shared buffer, which the down emptied.
   */
  lemma TapClassifiesEmptyCloud(c: Collaborators, threshold: real, minScore: real, s: Session, f: Finger, used: set<int>)
    requires f.index in used
    ensures Playable(c, threshold, s, [PointerDown(f, used), PointerUp(f, used)])
    ensures Outputs(c, threshold, minScore, s, [PointerDown(f, used), PointerUp(f, used)])
      == [None, Decide(c.classify(Gesture("", c.normalize([])), s.templates), minScore)]
  {
  }

  /** One pointer-move event per position, all for finger `index`. */
  function Moves(index: int, positions: seq<Vec2>): (evs: seq<Event>)
    ensures |evs| == |positions|
    ensures forall k :: 0 <= k < |positions| ==> evs[k] == PointerMove(Finger(index, positions[k]))
  {
    if positions == [] then [] else [PointerMove(Finger(index, positions[0]))] + Moves(index, positions[1..])
  }

  /**
   * The samples a stroke records: in order, each position lying strictly
   * farther than `threshold` from `anchor`, tagged with `strokeId`.
   */
  function Captured(anchor: Vec2, threshold: real, strokeId: int, positions: seq<Vec2>): seq<Point>
  {
    if positions == [] then []
    else
      (if Beyond(positions[0], anchor, threshold) then [Point(positions[0].x, positions[0].y, strokeId)] else [])
      + Captured(anchor, threshold, strokeId, positions[1..])
  }

  /**
   * Moves of a tracked finger append exactly the captured samples, measured
   * against the finger's single recorded position, and leave the finger
   * table as it was.
   */
  lemma {:induction false} MovesAppendCaptured(c: Collaborators, threshold: real, s: Session, index: int, positions: seq<Vec2>)
    requires index in s.fingers && |s.fingers[index]| == 1
    ensures Playable(c, threshold, s, Moves(index, positions))
    ensures var r := Run(c, threshold, s, Moves(index, positions));
      && r.points == s.points + Captured(s.fingers[index][0], threshold, s.strokeId, positions)
      && r.vertexCount == s.vertexCount + |Captured(s.fingers[index][0], threshold, s.strokeId, positions)|
      && r.fingers == s.fingers && r.templates == s.templates && r.strokeId == s.strokeId
    decreases |positions|
  {
    if positions != [] {
      var evs := Moves(index, positions);
      assert evs[1..] == Moves(index, positions[1..]);
      var s' := Move(s, Finger(index, positions[0]), threshold);
      MovesAppendCaptured(c, threshold, s', index, positions[1..]);
    }
  }

  /**
   * A stroke: an accepted pointer-down at `start` followed by moves of the
   * same finger. The buffer ends up holding exactly the move positions
   * farther than the threshold from `start` (the down position itself is
   * never sampled), all tagged with stroke id 0, and the finger's EndPoint
   * is still `start`.
   */
  lemma StrokeCapture(c: Collaborators, threshold: real, s: Session, f: Finger, used: set<int>, positions: seq<Vec2>)
    requires Inv(s) && f.index in used
    ensures Playable(c, threshold, s, [PointerDown(f, used)] + Moves(f.index, positions))
    ensures var r := Run(c, threshold, s, [PointerDown(f, used)] + Moves(f.index, positions));
      && r.points == Captured(f.screenPosition, threshold, 0, positions)
      && r.vertexCount == |r.points|
      && f.index in r.fingers && r.fingers[f.index] == [f.screenPosition]
      && EndPoint(r.fingers[f.index]) == f.screenPosition
  {
    var evs := [PointerDown(f, used)] + Moves(f.index, positions);
    var s' := Down(s, f, used);
    assert evs[1..] == Moves(f.index, positions);
    MovesAppendCaptured(c, threshold, s', f.index, positions);
  }

  /** Positions that all stay within the threshold of the anchor capture nothing. */
  lemma {:induction false} QuietMovesCaptureNothing(anchor: Vec2, threshold: real, strokeId: int, positions: seq<Vec2>)
    requires forall k :: 0 <= k < |positions| ==> !Beyond(positions[k], anchor, threshold)
    ensures Captured(anchor, threshold, strokeId, positions) == []
  {
    if positions != [] {
      QuietMovesCaptureNothing(anchor, threshold, strokeId, positions[1..]);
    }
  }

  /**
   * Because the anchor is the down position and not the last sample, a
   * finger resting anywhere beyond the threshold records a sample on every
   * update: n updates at one far position capture n copies of it.
   */
  lemma {:induction false} RestingFarFingerRecordsEveryUpdate(anchor: Vec2, threshold: real, strokeId: int, p: Vec2, n: nat)
    requires Beyond(p, anchor, threshold)
    ensures Captured(anchor, threshold, strokeId, seq(n, _ => p)) == seq(n, _ => Point(p.x, p.y, strokeId))
  {
    if n > 0 {
      var ps := seq(n, _ => p);
      assert ps[1..] == seq(n - 1, _ => p);
      RestingFarFingerRecordsEveryUpdate(anchor, threshold, strokeId, p, n - 1);
      assert [Point(p.x, p.y, strokeId)] + seq(n - 1, _ => Point(p.x, p.y, strokeId)) == seq(n, _ => Point(p.x, p.y, strokeId));
    }
  }
}
