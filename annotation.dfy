/** The annotation state of the image viewer as a value, and what one pointer
    press or one reset does to it (GUI/imageviewer.cpp, mousePressEvent and
    reset).  The class in image_viewer.dfy keeps the same three containers in
    fields and is proved to follow Step. */
module Annotation {

  /** A pointer position, already mapped to image space. */
  datatype Point = Point(x: int, y: int)

  /** The button that caused a press.  OtherButton stands for every Qt mouse
      button other than the left and the right one. */
  datatype MouseButton = LeftButton | RightButton | OtherButton

  /** What the user can do to the annotation containers. */
  datatype Event = Press(button: MouseButton, pos: Point) | ResetEvent

  /** The room outline, the pending (half-entered) door and the finished doors. */
  datatype AnnotationState = AnnotationState(points: seq<Point>, door: seq<Point>, doors: seq<seq<Point>>)

  /** The state of a freshly constructed viewer: every container is empty. */
  const EMPTY := AnnotationState([], [], [])

  /** The invariant kept between presses: the pending door holds fewer than
      two points and every finished door holds exactly two. */
  predicate Valid(s: AnnotationState)
  {
    |s.door| < 2 && forall k :: 0 <= k < |s.doors| ==> |s.doors[k]| == 2
  }

  /** One press: the left button extends the outline; the right button extends
      the pending door and moves it into the door list once it has two points;
      any other button changes nothing. */
  function PressStep(s: AnnotationState, button: MouseButton, pos: Point): AnnotationState
  {
    match button
    case LeftButton => s.(points := s.points + [pos])
    case RightButton =>
      var door := s.door + [pos];
      if |door| == 2 then s.(door := [], doors := s.doors + [door]) else s.(door := door)
    case OtherButton => s
  }

  /** reset clears the outline and the door list; the pending door is kept. */
  function ResetStep(s: AnnotationState): AnnotationState
  {
    s.(points := [], doors := [])
  }

  function Step(s: AnnotationState, e: Event): AnnotationState
  {
    match e
    case Press(button, pos) => PressStep(s, button, pos)
    case ResetEvent => ResetStep(s)
  }

  /** The state after the events `es`, in order. */
  function Run(s: AnnotationState, es: seq<Event>): AnnotationState
    decreases |es|
  {
    if es == [] then s else Run(Step(s, es[0]), es[1..])
  }

  /** All points of a door list, door by door, in click order. */
  function Flatten(doors: seq<seq<Point>>): seq<Point>
    decreases |doors|
  {
    if doors == [] then [] else Flatten(doors[..|doors| - 1]) + doors[|doors| - 1]
  }

  /** The position of `e` if it is a press of `button`. */
  function ClickOf(e: Event, button: MouseButton): seq<Point>
  {
    match e
    case Press(b, pos) => if b == button then [pos] else []
    case ResetEvent => []
  }

  /** The positions of the presses of `button` among `es`, in order. */
  function Clicks(es: seq<Event>, button: MouseButton): seq<Point>
    decreases |es|
  {
    if es == [] then [] else ClickOf(es[0], button) + Clicks(es[1..], button)
  }

  predicate NoReset(es: seq<Event>)
  {
    forall k :: 0 <= k < |es| ==> es[k].Press?
  }

  lemma NoResetTail(es: seq<Event>)
    requires es != [] && NoReset(es)
    ensures NoReset(es[1..])
  {
  }

  lemma SplitConcat<T>(a: seq<T>, b: seq<T>, r: seq<T>)
    requires a + b == r
    ensures a == r[..|a|] && b == r[|a|..]
  {
  }

  lemma FlattenAppend(doors: seq<seq<Point>>, d: seq<Point>)
    ensures Flatten(doors + [d]) == Flatten(doors) + d
  {
  }

  /** Under the invariant, the door list holds exactly twice as many points as doors. */
  lemma {:induction false} FlattenOfPairs(doors: seq<seq<Point>>)
    requires forall k :: 0 <= k < |doors| ==> |doors[k]| == 2
    ensures |Flatten(doors)| == 2 * |doors|
    decreases |doors|
  {
    if doors != [] {
      FlattenOfPairs(doors[..|doors| - 1]);
    }
  }

  /** Every press and every reset preserves the invariant (the empty start
      state satisfies it outright). */
  lemma StepPreservesValid(s: AnnotationState, e: Event)
    requires Valid(s)
    ensures Valid(Step(s, e))
  {
  }

  lemma {:induction false} RunPreservesValid(s: AnnotationState, es: seq<Event>)
    requires Valid(s)
    ensures Valid(Run(s, es))
    decreases |es|
  {
    if es != [] {
      StepPreservesValid(s, es[0]);
      RunPreservesValid(Step(s, es[0]), es[1..]);
    }
  }

  /** Reset is idempotent, and a half-entered door survives it. */
  lemma ResetIdempotent(s: AnnotationState)
    ensures Step(Step(s, ResetEvent), ResetEvent) == Step(s, ResetEvent)
    ensures Step(s, ResetEvent).door == s.door
    ensures Step(s, ResetEvent).points == [] && Step(s, ResetEvent).doors == []
  {
  }

  /** Without a reset in between, the outline is the old outline followed by
      the left clicks, in click order. */
  lemma {:induction false} RunPoints(s: AnnotationState, es: seq<Event>)
    requires NoReset(es)
    ensures Run(s, es).points == s.points + Clicks(es, LeftButton)
    decreases |es|
  {
    if es != [] {
      NoResetTail(es);
      RunPoints(Step(s, es[0]), es[1..]);
    }
  }

  /** Without a reset in between, the finished doors followed by the pending
      door are the old ones followed by the right clicks, in click order:
      right clicks are paired up and nothing is lost, reordered or invented. */
  lemma {:induction false} RunDoorClicks(s: AnnotationState, es: seq<Event>)
    requires NoReset(es)
    ensures Flatten(Run(s, es).doors) + Run(s, es).door == Flatten(s.doors) + s.door + Clicks(es, RightButton)
    decreases |es|
  {
    if es != [] {
      var t := Step(s, es[0]);
      NoResetTail(es);
      if es[0].button == RightButton && |s.door + [es[0].pos]| == 2 {
        FlattenAppend(s.doors, s.door + [es[0].pos]);
      }
      RunDoorClicks(t, es[1..]);
    }
  }

  /** Without a reset in between, and starting from a valid state, every two
      right clicks complete one door and an odd one stays pending. */
  lemma {:induction false} RunDoorCounts(s: AnnotationState, es: seq<Event>)
    requires Valid(s) && NoReset(es)
    ensures |Run(s, es).doors| == |s.doors| + (|s.door| + |Clicks(es, RightButton)|) / 2
    ensures |Run(s, es).door| == (|s.door| + |Clicks(es, RightButton)|) % 2
    decreases |es|
  {
    if es != [] {
      StepPreservesValid(s, es[0]);
      NoResetTail(es);
      RunDoorCounts(Step(s, es[0]), es[1..]);
    }
  }

  /** Starting from the empty viewer without a reset, the finished doors hold
      the right clicks in click order except an odd last one, which is the
      pending door. */
  lemma RunDoorsFromEmpty(es: seq<Event>)
    requires NoReset(es)
    ensures var r := Clicks(es, RightButton);
      Flatten(Run(EMPTY, es).doors) == r[..|r| - |r| % 2] && Run(EMPTY, es).door == r[|r| - |r| % 2..]
  {
    var s := Run(EMPTY, es);
    var r := Clicks(es, RightButton);
    RunDoorClicks(EMPTY, es);
    RunDoorCounts(EMPTY, es);
    SplitConcat(Flatten(s.doors), s.door, r);
  }

  /** In a door list of pairs, door k holds points 2k and 2k + 1 of the flattened list. */
  lemma {:induction false} FlattenPairAt(doors: seq<seq<Point>>, k: nat)
    requires forall j :: 0 <= j < |doors| ==> |doors[j]| == 2
    requires k < |doors|
    ensures |Flatten(doors)| == 2 * |doors| && Flatten(doors)[2 * k..2 * k + 2] == doors[k]
    decreases |doors|
  {
    var n := |doors| - 1;
    FlattenOfPairs(doors);
    FlattenOfPairs(doors[..n]);
    if k < n {
      FlattenPairAt(doors[..n], k);
      assert Flatten(doors) == Flatten(doors[..n]) + doors[n];
      assert Flatten(doors)[2 * k..2 * k + 2] == Flatten(doors[..n])[2 * k..2 * k + 2];
    }
  }

  /** Starting from the empty viewer without a reset, door k consists of the
      right clicks 2k and 2k + 1, in click order. */
  lemma DoorsFromEmptyAt(es: seq<Event>, k: nat)
    requires NoReset(es)
    requires k < |Run(EMPTY, es).doors|
    ensures var r := Clicks(es, RightButton);
      2 * k + 2 <= |r| && Run(EMPTY, es).doors[k] == [r[2 * k], r[2 * k + 1]]
  {
    var ds := Run(EMPTY, es).doors;
    var r := Clicks(es, RightButton);
    RunPreservesValid(EMPTY, es);
    RunDoorsFromEmpty(es);
    FlattenPairAt(ds, k);
    assert Flatten(ds) == r[..|r| - |r| % 2];
  }
}
