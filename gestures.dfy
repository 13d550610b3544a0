/**
 * The $P library's types as the recognizer uses them, the collaborators whose
 * source is not part of this model (the Gesture constructor's normalisation,
 * PointCloudRecognizer.Classify, GestureIO.ReadGestureFromXML) as function
 * values, the loading of the pre-made pattern library, and the acceptance
 * test applied to a classification.
 */
module Gestures {
  import opened Wrappers
  import opened Geometry

  /** A template or candidate: its label and its (normalised) point cloud. */
  datatype Gesture = Gesture(name: string, cloud: seq<Point>)

  /** What PointCloudRecognizer.Classify returns: the best label and its score in [0, 1]. */
  datatype Match = Match(gestureClass: string, score: real)

  /** The payload of the OnRecognized event. */
  datatype PDollarResult = PDollarResult(gestureName: string, score: real)

  /** A PDollarPatternManager asset: a name and its serialized gestures. */
  datatype PatternManager = PatternManager(name: string, gestureXml: seq<string>)

  /**
   * The code the recognizer calls but whose source is not modelled. `parse`
   * returns None where GestureIO.ReadGestureFromXML throws on a string it
   * cannot read; `normalize` and `classify` are taken to be total.
   */
  datatype Collaborators = Collaborators(
    normalize: seq<Point> -> seq<Point>,
    classify: (Gesture, seq<Gesture>) -> Match,
    parse: string -> Option<Gesture>)

  /** `new Gesture(points, name)`: the gesture carries the label and the normalised cloud of exactly these points. */
  function MakeGesture(normalize: seq<Point> -> seq<Point>, pts: seq<Point>, name: string): (g: Gesture)
    ensures g.name == name
    ensures g.cloud == normalize(pts)
  {
    Gesture(name, normalize(pts))
  }

  /** The total number of serialized gestures over a list of pattern managers. */
  function XmlCount(patterns: seq<PatternManager>): nat
  {
    if patterns == [] then 0
    else XmlCount(patterns[..|patterns| - 1]) + |patterns[|patterns| - 1].gestureXml|
  }

  /** The serialized gestures in the order Start visits them: manager by manager, string by string. */
  function AllXml(patterns: seq<PatternManager>): (r: seq<string>)
    ensures |r| == XmlCount(patterns)
  {
    if patterns == [] then []
    else AllXml(patterns[..|patterns| - 1]) + patterns[|patterns| - 1].gestureXml
  }

  lemma AllXmlExtend(patterns: seq<PatternManager>, i: nat)
    requires i < |patterns|
    ensures AllXml(patterns[..i + 1]) == AllXml(patterns[..i]) + patterns[i].gestureXml
  {
    assert patterns[..i + 1][..i] == patterns[..i];
  }

  /** The strings of the first i managers are a prefix of all strings. */
  lemma {:induction false} AllXmlPrefix(patterns: seq<PatternManager>, i: nat)
    requires i <= |patterns|
    ensures |AllXml(patterns[..i])| <= |AllXml(patterns)|
    ensures AllXml(patterns)[..|AllXml(patterns[..i])|] == AllXml(patterns[..i])
    decreases |patterns|
  {
    if i < |patterns| {
      var init := patterns[..|patterns| - 1];
      assert init[..i] == patterns[..i];
      AllXmlPrefix(init, i);
      assert AllXml(patterns)[..|AllXml(init)|] == AllXml(init);
    } else {
      assert patterns[..i] == patterns;
    }
  }

  /** String j of manager i sits right after the strings of managers 0..i-1 and strings 0..j-1 of manager i. */
  lemma {:induction false} AllXmlOrder(patterns: seq<PatternManager>, i: nat, j: nat)
    requires i < |patterns| && j < |patterns[i].gestureXml|
    ensures XmlCount(patterns[..i]) + j < XmlCount(patterns)
    ensures AllXml(patterns)[XmlCount(patterns[..i]) + j] == patterns[i].gestureXml[j]
    decreases |patterns|
  {
    var init := patterns[..|patterns| - 1];
    if i == |patterns| - 1 {
      assert patterns[..i] == init;
    } else {
      assert init[..i] == patterns[..i];
      AllXmlOrder(init, i, j);
    }
  }

  /** Every string parses. */
  predicate AllParse(parse: string -> Option<Gesture>, xmls: seq<string>)
  {
    forall k :: 0 <= k < |xmls| ==> parse(xmls[k]).Some?
  }

  /** How many strings parse before the first one that does not. */
  function ParsedRun(parse: string -> Option<Gesture>, xmls: seq<string>): (n: nat)
    ensures n <= |xmls|
    ensures forall k :: 0 <= k < n ==> parse(xmls[k]).Some?
    ensures n < |xmls| ==> parse(xmls[n]).None?
  {
    if xmls == [] || parse(xmls[0]).None? then 0 else 1 + ParsedRun(parse, xmls[1..])
  }

  /**
   * The templates loaded from a sequence of strings: each parsed gesture, in
   * order, up to the first string that fails to parse, where loading stops.
   */
  function Loaded(parse: string -> Option<Gesture>, xmls: seq<string>): (r: seq<Gesture>)
    ensures |r| == ParsedRun(parse, xmls)
    ensures forall k :: 0 <= k < |r| ==> parse(xmls[k]) == Some(r[k])
  {
    seq(ParsedRun(parse, xmls), k requires 0 <= k < ParsedRun(parse, xmls) => parse(xmls[k]).value)
  }

  /** One more string that parses adds its gesture at the end. */
  lemma LoadedExtend(parse: string -> Option<Gesture>, xmls: seq<string>, x: string)
    requires AllParse(parse, xmls) && parse(x).Some?
    ensures AllParse(parse, xmls + [x])
    ensures Loaded(parse, xmls + [x]) == Loaded(parse, xmls) + [parse(x).value]
  {
  }

  /** Once a string fails to parse, what follows it changes nothing. */
  lemma LoadedStops(parse: string -> Option<Gesture>, xmls: seq<string>, all: seq<string>)
    requires AllParse(parse, xmls)
    requires |xmls| < |all| && all[..|xmls|] == xmls && parse(all[|xmls|]).None?
    ensures Loaded(parse, all) == Loaded(parse, xmls)
  {
  }

  /** Start's inner step when string j of the current manager parses. */
  lemma LoadedNext(parse: string -> Option<Gesture>, done: seq<string>, xmls: seq<string>, j: nat)
    requires j < |xmls| && AllParse(parse, done + xmls[..j]) && parse(xmls[j]).Some?
    ensures AllParse(parse, done + xmls[..j + 1])
    ensures Loaded(parse, done + xmls[..j + 1]) == Loaded(parse, done + xmls[..j]) + [parse(xmls[j]).value]
  {
    assert done + xmls[..j + 1] == (done + xmls[..j]) + [xmls[j]];
    LoadedExtend(parse, done + xmls[..j], xmls[j]);
  }

  /** Start's inner step when string j of the current manager fails: the load is final. */
  lemma LoadedHalts(parse: string -> Option<Gesture>, all: seq<string>, done: seq<string>, xmls: seq<string>, j: nat)
    requires j < |xmls| && |done| + |xmls| <= |all| && all[..|done| + |xmls|] == done + xmls
    requires AllParse(parse, done + xmls[..j]) && parse(xmls[j]).None?
    ensures Loaded(parse, all) == Loaded(parse, done + xmls[..j])
  {
    var flat := done + xmls[..j];
    assert all[..|flat|] == flat;
    assert all[|flat|] == (done + xmls)[|flat|] == xmls[j];
    LoadedStops(parse, flat, all);
  }

  /** The templates Start loads from the pattern managers. */
  function LoadAll(parse: string -> Option<Gesture>, patterns: seq<PatternManager>): (r: seq<Gesture>)
    ensures |r| <= XmlCount(patterns)
    ensures forall k :: 0 <= k < |r| ==> parse(AllXml(patterns)[k]) == Some(r[k])
  {
    Loaded(parse, AllXml(patterns))
  }

  /** When every string parses, loading yields exactly one template per serialized gesture. */
  lemma LoadAllCount(parse: string -> Option<Gesture>, patterns: seq<PatternManager>)
    requires AllParse(parse, AllXml(patterns))
    ensures |LoadAll(parse, patterns)| == XmlCount(patterns)
  {
  }

  /**
   * When string j of manager i and every string before it parse, its gesture
   * is the template at position (strings of managers 0..i-1) + j.
   */
  lemma LoadAllOrder(parse: string -> Option<Gesture>, patterns: seq<PatternManager>, i: nat, j: nat)
    requires i < |patterns| && j < |patterns[i].gestureXml|
    requires forall k :: 0 <= k <= XmlCount(patterns[..i]) + j && k < |AllXml(patterns)| ==> parse(AllXml(patterns)[k]).Some?
    ensures XmlCount(patterns[..i]) + j < |LoadAll(parse, patterns)|
    ensures Some(LoadAll(parse, patterns)[XmlCount(patterns[..i]) + j]) == parse(patterns[i].gestureXml[j])
  {
    AllXmlOrder(patterns, i, j);
  }

  /** A string that fails to parse stops the load: neither it nor any later string is loaded. */
  lemma LoadAllStopsAtFailure(parse: string -> Option<Gesture>, patterns: seq<PatternManager>, i: nat, j: nat)
    requires i < |patterns| && j < |patterns[i].gestureXml|
    requires parse(patterns[i].gestureXml[j]).None?
    ensures |LoadAll(parse, patterns)| <= XmlCount(patterns[..i]) + j
  {
    AllXmlOrder(patterns, i, j);
  }

  /** The acceptance test of Recognize: a score in [0, 1] against MinScore on a 0-100 scale. */
  predicate Accepts(score: real, minScore: real)
  {
    score >= minScore / 100.0
  }

  /** The event Recognize emits for a classification, if any. */
  function Decide(m: Match, minScore: real): (r: Option<PDollarResult>)
    ensures r.Some? <==> Accepts(m.score, minScore)
    ensures r.Some? ==> r.value.gestureName == m.gestureClass && r.value.score == m.score
  {
    if m.score >= minScore / 100.0 then Some(PDollarResult(m.gestureClass, m.score)) else None
  }

  /** Lowering MinScore never withdraws an event a higher MinScore emits. */
  lemma DecideMonotone(m: Match, lower: real, higher: real)
    requires lower <= higher
    ensures Decide(m, higher).Some? ==> Decide(m, lower) == Decide(m, higher)
  {
  }
}
