/**
 * The PDollarRecognizer component: its fields, updated in place by the
 * LeanTouch finger handlers and by the public operations, each proved
 * against the corresponding function of module Capture.
 */
module Recognizer {
  import opened Wrappers
  import opened Geometry
  import opened Gestures
  import opened Capture

  class PDollarRecognizer {
    /** Gesture normalisation, the classifier and the template parser. */
    const collaborators: Collaborators

    /** The movement a finger must exceed, in scaled pixels, before a sample is recorded. */
    var stepThreshold: real
    /** The acceptance threshold on a 0-100 scale. */
    var minScore: real
    /** The pre-made pattern managers assigned to the component. */
    var patterns: seq<PatternManager>

    var gesturePatterns: seq<Gesture>
    var points: seq<Point>
    var strokeId: int
    var vertexCount: int
    /** DrawLine.positionCount. */
    var positionCount: int
    /** The active finger data: finger index to that finger's Points. */
    var fingerDatas: map<int, seq<Vec2>>

    ghost function Model(): Session
      reads this
    {
      Session(points, strokeId, vertexCount, positionCount, fingerDatas, gesturePatterns)
    }

    ghost predicate Valid()
      reads this
    {
      Inv(Model())
    }

    /** A component as created, with the serialized defaults StepThreshold 1 and MinScore 80. */
    constructor (collaborators: Collaborators, patterns: seq<PatternManager>)
      ensures Valid() && Model() == Initial()
      ensures this.collaborators == collaborators && this.patterns == patterns
      ensures stepThreshold == 1.0 && minScore == 80.0
    {
      this.collaborators := collaborators;
      this.patterns := patterns;
      stepThreshold := 1.0;
      minScore := 80.0;
      gesturePatterns := [];
      points := [];
      strokeId := 0;
      vertexCount := 0;
      positionCount := 0;
      fingerDatas := map[];
    }

    /**
     * Start: parse every serialized gesture of every pattern manager into the
     * library, in order. A string the parser rejects throws out of Start, so
     * it and every later string stay unloaded.
     */
    method Start()
      requires Valid()
      modifies this`gesturePatterns
      ensures Valid()
      ensures gesturePatterns == old(gesturePatterns) + LoadAll(collaborators.parse, patterns)
      ensures AllParse(collaborators.parse, AllXml(patterns)) ==>
        |gesturePatterns| == |old(gesturePatterns)| + XmlCount(patterns)
    {
      var parse := collaborators.parse;
      var managers := patterns;
      for i := 0 to |managers|
        invariant Valid()
        invariant AllParse(parse, AllXml(managers[..i]))
        invariant gesturePatterns == old(gesturePatterns) + Loaded(parse, AllXml(managers[..i]))
      {
        var xmls := managers[i].gestureXml;
        ghost var done := AllXml(managers[..i]);
        AllXmlExtend(managers, i);
        AllXmlPrefix(managers, i + 1);
        assert done + xmls[..0] == done;
        ghost var all := AllXml(managers);
        for j := 0 to |xmls|
          invariant Valid()
          invariant AllParse(parse, done + xmls[..j])
          invariant gesturePatterns == old(gesturePatterns) + Loaded(parse, done + xmls[..j])
        {
          var gesture := parse(xmls[j]);
          if gesture.None? {
            LoadedHalts(parse, all, done, xmls, j);
            return;
          }
          LoadedNext(parse, done, xmls, j);
          gesturePatterns := gesturePatterns + [gesture.value];
        }
        assert xmls[..|xmls|] == xmls;
      }
      assert managers[..|managers|] == managers;
    }

    /** AddFinger: the finger's record (found or created) now holds exactly its current position. */
    method AddFinger(finger: Finger)
      requires Valid()
      modifies this`fingerDatas
      ensures Valid()
      ensures fingerDatas == old(fingerDatas)[finger.index := [finger.screenPosition]]
      ensures Model() == Capture.AddFinger(old(Model()), finger)
    {
      fingerDatas := fingerDatas[finger.index := [finger.screenPosition]];
    }

    /** HandleFingerDown; `fingers` holds the indices the finger filter returns. */
    method HandleFingerDown(finger: Finger, fingers: set<int>)
      requires Valid()
      modifies this`fingerDatas, this`points, this`positionCount, this`vertexCount
      ensures Valid()
      ensures Model() == Down(old(Model()), finger, fingers)
      ensures finger.index in fingers ==>
        points == [] && vertexCount == 0 && fingerDatas == old(fingerDatas)[finger.index := [finger.screenPosition]]
      ensures finger.index !in fingers ==> unchanged(this)
    {
      if finger.index in fingers {
        AddFinger(finger);
        points := [];
        positionCount := 0;
        vertexCount := 0;
      }
    }

    /** HandleFingerUpdate: record a sample when the finger is tracked and has moved beyond the step threshold. */
    method HandleFingerUpdate(finger: Finger)
      requires Valid()
      modifies this`points, this`vertexCount, this`positionCount
      ensures Valid()
      ensures Model() == Move(old(Model()), finger, stepThreshold)
      ensures points == old(points) + [Point(finger.screenPosition.x, finger.screenPosition.y, 0)]
        <==> finger.index in fingerDatas && Beyond(finger.screenPosition, EndPoint(fingerDatas[finger.index]), stepThreshold)
    {
      if finger.index in fingerDatas && Beyond(finger.screenPosition, EndPoint(fingerDatas[finger.index]), stepThreshold) {
        points := points + [Point(finger.screenPosition.x, finger.screenPosition.y, strokeId)];
        vertexCount := vertexCount + 1;
        positionCount := vertexCount;
      }
    }

    /**
     * HandleFingerUp: an accepted finger's record is removed and the shared
     * buffer is classified. An accepted finger must be tracked: the handler
     * dereferences its record without a check.
     */
    method HandleFingerUp(finger: Finger, fingers: set<int>) returns (emitted: Option<PDollarResult>)
      requires Valid()
      requires finger.index in fingers ==> finger.index in fingerDatas
      modifies this`fingerDatas
      ensures Valid()
      ensures Model() == Up(old(Model()), finger, fingers)
      ensures emitted == Emits(collaborators, minScore, old(Model()), PointerUp(finger, fingers))
      ensures finger.index !in fingers ==> emitted == None
    {
      if finger.index in fingers {
        fingerDatas := fingerDatas - {finger.index};
        emitted := Recognize();
      } else {
        emitted := None;
      }
    }

    /** Recognize: classify the buffer against the library; an event is emitted iff the score reaches MinScore / 100. */
    method Recognize() returns (emitted: Option<PDollarResult>)
      ensures var m := collaborators.classify(Gesture("", collaborators.normalize(points)), gesturePatterns);
        && (emitted.Some? <==> m.score >= minScore / 100.0)
        && (emitted.Some? ==> emitted.value == PDollarResult(m.gestureClass, m.score))
      ensures emitted == Recognition(collaborators, minScore, Model())
    {
      var candidate := MakeGesture(collaborators.normalize, points, "");
      var gestureResult := collaborators.classify(candidate, gesturePatterns);
      emitted := Decide(gestureResult, minScore);
    }

    /** SaveToTest: append the current buffer, under `name`, to the template library. */
    method SaveToTest(name: string)
      requires Valid()
      modifies this`gesturePatterns
      ensures Valid()
      ensures gesturePatterns == old(gesturePatterns) + [Gesture(name, collaborators.normalize(points))]
      ensures Model() == Saved(old(Model()), collaborators.normalize, name)
    {
      var candidate := MakeGesture(collaborators.normalize, points, name);
      gesturePatterns := gesturePatterns + [candidate];
    }

    /** ClearLine: discard the stroke in progress without classifying it. */
    method ClearLine()
      requires Valid()
      modifies this`points, this`positionCount, this`vertexCount
      ensures Valid()
      ensures points == [] && vertexCount == 0 && positionCount == 0
      ensures Model() == Cleared(old(Model()))
    {
      points := [];
      positionCount := 0;
      vertexCount := 0;
    }
  }
}
