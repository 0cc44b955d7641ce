/**
 * The per-frame gesture-to-motion policy of the gesture-control demo: a hand's
 * landmarks are reduced to a finger open/closed vector, the vector is looked up
 * in a fixed gesture table, the resulting command moves the target pose by one
 * step (or drives the gripper), the pose is clamped into the safety box, and a
 * motion command is sent only for the four directional gestures.
 */
module GestureControl {
  import opened Common

  // ---------------------------------------------------------------------------
  // Landmarks and the finger vector

  /** One hand landmark in normalised image coordinates; its depth is never read. */
  datatype Landmark = Landmark(x: real, y: real)

  const LANDMARK_COUNT: nat := 21

  /** The landmark set of one detected hand, as the hand-pose observer reports it. */
  type Hand = h: seq<Landmark> | |h| == LANDMARK_COUNT
    witness seq(21, _ => Landmark(0.0, 0.0))

  /** The thumb tip and the thumb's interphalangeal joint. */
  const THUMB_TIP: nat := 4
  const THUMB_IP: nat := 3

  /** Tips of index, middle, ring and pinky; each is compared with the PIP joint two landmarks below. */
  const FINGER_TIPS: seq<nat> := [8, 12, 16, 20]

  /** 1 for an open finger, 0 for a closed one. */
  function Bit(b: bool): int {
    if b then 1 else 0
  }

  /** Whether finger `k` (0 thumb, 1 index, 2 middle, 3 ring, 4 pinky) counts as open. */
  predicate FingerOpen(hand: Hand, k: nat)
    requires k < 5
  {
    if k == 0 then hand[THUMB_TIP].x < hand[THUMB_IP].x
    else hand[FINGER_TIPS[k - 1]].y < hand[FINGER_TIPS[k - 1] - 2].y
  }

  /**
   * The finger vector, in the order thumb, index, middle, ring, pinky: the thumb
   * is open when its tip lies left of its IP joint (an x comparison), every other
   * finger when its tip lies above its PIP joint (a y comparison, y grows downwards).
   */
  function FingerVector(hand: Hand): (v: seq<int>)
    ensures v == [Bit(hand[4].x < hand[3].x),
                  Bit(hand[8].y < hand[6].y),
                  Bit(hand[12].y < hand[10].y),
                  Bit(hand[16].y < hand[14].y),
                  Bit(hand[20].y < hand[18].y)]
  {
    seq(5, k requires 0 <= k < 5 => Bit(FingerOpen(hand, k)))
  }

  /** Builds the finger vector by appending the thumb's entry and then one entry per finger tip. */
  method FingerStates(hand: Hand) returns (fingers: seq<int>)
    ensures fingers == FingerVector(hand)
  {
    fingers := [];
    if hand[THUMB_TIP].x < hand[THUMB_IP].x {
      fingers := fingers + [1];
    } else {
      fingers := fingers + [0];
    }
    for i := 0 to |FINGER_TIPS|
      invariant |fingers| == i + 1
      invariant forall k :: 0 <= k <= i ==> fingers[k] == Bit(FingerOpen(hand, k))
    {
      var id := FINGER_TIPS[i];
      if hand[id].y < hand[id - 2].y {
        fingers := fingers + [1];
      } else {
        fingers := fingers + [0];
      }
    }
  }

  // ---------------------------------------------------------------------------
  // Commands and the gesture table

  datatype Command = Stop | Forward | Backward | Right | Left | OpenGripper | CloseGripper

  /** The text the script stores in `command` and shows on screen. */
  function Label(c: Command): string {
    match c
    case Stop => "STOP"
    case Forward => "FORWARD"
    case Backward => "BACKWARD"
    case Right => "RIGHT"
    case Left => "LEFT"
    case OpenGripper => "OPEN GRIPPER"
    case CloseGripper => "CLOSE GRIPPER"
  }

  /** The finger pattern that selects each gesture. */
  function Pattern(c: Command): seq<int>
    requires c != Stop
  {
    match c
    case Forward => [0, 1, 0, 0, 0]
    case Backward => [0, 1, 1, 0, 0]
    case Right => [0, 0, 0, 0, 1]
    case Left => [1, 0, 0, 0, 0]
    case OpenGripper => [1, 1, 1, 1, 1]
    case CloseGripper => [0, 0, 0, 0, 0]
  }

  /** Exact, order-sensitive lookup of a finger vector in the gesture table; STOP when nothing matches. */
  function Classify(fingers: seq<int>): (c: Command)
    ensures c != Stop ==> fingers == Pattern(c)
    ensures forall g :: g != Stop && fingers == Pattern(g) ==> c == g
  {
    if fingers == [0, 1, 0, 0, 0] then Forward
    else if fingers == [0, 1, 1, 0, 0] then Backward
    else if fingers == [0, 0, 0, 0, 1] then Right
    else if fingers == [1, 0, 0, 0, 0] then Left
    else if fingers == [1, 1, 1, 1, 1] then OpenGripper
    else if fingers == [0, 0, 0, 0, 0] then CloseGripper
    else Stop
  }

  /** The command of a frame: STOP when no hand was detected. */
  function Gesture(hand: Option<Hand>): Command {
    match hand
    case None => Stop
    case Some(h) => Classify(FingerVector(h))
  }

  predicate IsDirectional(c: Command) {
    c == Forward || c == Backward || c == Right || c == Left
  }

  /** Python's `t in s` on strings: `t` occurs in `s` as a contiguous substring. */
  predicate Contains(s: string, t: string)
    decreases |s|
  {
    |t| <= |s| && (s[..|t|] == t || Contains(s[1..], t))
  }

  /** The send guard on the command's label: no "GRIPPER" in it, and it is not "STOP". */
  predicate SendsMotion(c: Command) {
    !Contains(Label(c), "GRIPPER") && Label(c) != "STOP"
  }

  /** The gripper target the two gripper gestures request (850 open, 0 closed). */
  function GripperTarget(c: Command): (g: Option<int>)
    ensures g.Some? <==> c == OpenGripper || c == CloseGripper
    ensures c == OpenGripper ==> g == Some(850)
    ensures c == CloseGripper ==> g == Some(0)
  {
    match c
    case OpenGripper => Some(850)
    case CloseGripper => Some(0)
    case _ => None
  }

  // ---------------------------------------------------------------------------
  // Motion policy

  /** Velocity (mm/s) and frame time (s); one step is their exact product, 2 mm. */
  const VELOCITY: real := 100.0
  const DT: real := 0.02
  const STEP_SIZE: real := VELOCITY * DT

  /** The safety box in the x-y plane. */
  const X_MIN: real := 200.0
  const X_MAX: real := 600.0
  const Y_MIN: real := -300.0
  const Y_MAX: real := 300.0

  /** The start pose used when no robot position is available. */
  const HOME: Vec3 := Vec3(300.0, 0.0, 200.0)

  predicate InBox(p: Vec3) {
    X_MIN <= p.x <= X_MAX && Y_MIN <= p.y <= Y_MAX
  }

  /** The command's increment of the target pose, before clamping. */
  function Displace(p: Vec3, c: Command): (q: Vec3)
    ensures q.z == p.z
    ensures q.x == p.x || q.y == p.y
    ensures Abs(q.x - p.x) + Abs(q.y - p.y) == if IsDirectional(c) then STEP_SIZE else 0.0
    ensures c == Forward || c == Backward ==>
      q.y == p.y && q.x == p.x + (if c == Forward then STEP_SIZE else -STEP_SIZE)
    ensures c == Right || c == Left ==>
      q.x == p.x && q.y == p.y + (if c == Left then STEP_SIZE else -STEP_SIZE)
  {
    match c
    case Forward => p.(x := p.x + STEP_SIZE)
    case Backward => p.(x := p.x - STEP_SIZE)
    case Right => p.(y := p.y - STEP_SIZE)
    case Left => p.(y := p.y + STEP_SIZE)
    case _ => p
  }

  /** Ceiling first, then floor, as two successive guarded assignments. */
  function ClampAxis(v: real, lo: real, hi: real): (r: real)
    requires lo <= hi
    ensures lo <= r <= hi
    ensures r == v || (v < lo && r == lo) || (hi < v && r == hi)
  {
    var capped := if v > hi then hi else v;
    if capped < lo then lo else capped
  }

  /** Clamps x to [200, 600] and y to [-300, 300]; z is left alone. */
  function ClampPose(p: Vec3): (q: Vec3)
    ensures InBox(q) && q.z == p.z
    ensures InBox(p) ==> q == p
  {
    Vec3(ClampAxis(p.x, X_MIN, X_MAX), ClampAxis(p.y, Y_MIN, Y_MAX), p.z)
  }

  /** The target-pose transition of one frame whose command is `c`. */
  function Transition(p: Vec3, c: Command): Vec3 {
    ClampPose(Displace(p, c))
  }

  /** What one frame decides: its command, the new target pose, and the robot calls it issues. */
  datatype FrameResult = FrameResult(command: Command, pose: Vec3, motion: Option<Vec3>, gripper: Option<int>)

  /** The specification of one frame, for a robot that is (or is not) connected. */
  function FrameSpec(connected: bool, p: Vec3, hand: Option<Hand>): (r: FrameResult)
    ensures r.command == Gesture(hand)
    ensures hand.None? ==> r.command == Stop && r.motion.None? && r.gripper.None?
    ensures r.pose == Transition(p, r.command)
    ensures InBox(r.pose) && r.pose.z == p.z
    ensures !IsDirectional(r.command) ==> r.pose == ClampPose(p)
    ensures r.motion.Some? <==> connected && IsDirectional(r.command)
    ensures r.motion.Some? ==> r.motion.value == r.pose
    ensures r.gripper == if connected then GripperTarget(r.command) else None
  {
    var c := Gesture(hand);
    var q := Transition(p, c);
    SendsMotionIff(c);
    FrameResult(c, q,
                if connected && SendsMotion(c) then Some(q) else None,
                if connected then GripperTarget(c) else None)
  }

  /** One camera poll: either the capture failed or it yielded at most one hand and a key code. */
  datatype Frame = CaptureFailed | Captured(hand: Option<Hand>, key: int)

  /** `cv2.waitKey(1) & 0xFF == ord('q')`; `x & 0xFF` is `x mod 256` also for negative codes. */
  predicate QuitKey(key: int) {
    key % 256 == 113
  }

  datatype RunResult = RunResult(pose: Vec3, outputs: seq<FrameResult>, quit: bool)

  /** The specification of the control loop over a finite sequence of camera polls. */
  function RunSpec(connected: bool, p: Vec3, frames: seq<Frame>): RunResult
    decreases |frames|
  {
    if frames == [] then RunResult(p, [], false)
    else match frames[0]
      case CaptureFailed => RunSpec(connected, p, frames[1..])
      case Captured(hand, key) =>
        var r := FrameSpec(connected, p, hand);
        if QuitKey(key) then RunResult(r.pose, [r], true)
        else
          var rest := RunSpec(connected, r.pose, frames[1..]);
          RunResult(rest.pose, [r] + rest.outputs, rest.quit)
  }

  /** The start pose: the robot's reported position when one with three components is read, else HOME. */
  function InitialPose(connected: bool, reading: Option<seq<real>>): Vec3 {
    if connected && reading.Some? && |reading.value| >= 3
    then Vec3(reading.value[0], reading.value[1], reading.value[2])
    else HOME
  }

  // ---------------------------------------------------------------------------
  // The controller state and its frame loop

  class Controller {
    /** Whether a robot handle exists (the xArm7 constructor returned one; start-up may still have failed). */
    const connected: bool
    var currX: real
    var currY: real
    var currZ: real

    function Pose(): Vec3
      reads this
    {
      Vec3(currX, currY, currZ)
    }

    constructor (connected: bool, reading: Option<seq<real>>)
      ensures this.connected == connected
      ensures Pose() == InitialPose(connected, reading)
    {
      this.connected := connected;
      currX, currY, currZ := 300.0, 0.0, 200.0;
      if connected && reading.Some? && |reading.value| >= 3 {
        var pos := reading.value;
        currX, currY, currZ := pos[0], pos[1], pos[2];
      }
    }

    /** One frame: classify the hand (if any), update and clamp the pose, decide the robot calls. */
    method Step(hand: Option<Hand>) returns (result: FrameResult)
      modifies this
      ensures result == FrameSpec(connected, old(Pose()), hand)
      ensures Pose() == result.pose
    {
      var command := Stop;
      var gripper: Option<int> := None;
      if hand.Some? {
        var fingers := FingerStates(hand.value);
        command, gripper := ApplyGesture(fingers);
      }
      ClampToBox();

      SendsMotionIff(command);
      var motion: Option<Vec3> := None;
      if connected && !Contains(Label(command), "GRIPPER") && Label(command) != "STOP" {
        motion := Some(Vec3(currX, currY, currZ));
      }
      result := FrameResult(command, Pose(), motion, gripper);
    }

    /** The gesture table: a directional gesture increments x or y, a gripper gesture requests the gripper. */
    method ApplyGesture(fingers: seq<int>) returns (command: Command, gripper: Option<int>)
      modifies this
      ensures command == Classify(fingers)
      ensures Pose() == Displace(old(Pose()), command)
      ensures gripper == if connected then GripperTarget(command) else None
    {
      command, gripper := Stop, None;
      if fingers == [0, 1, 0, 0, 0] {
        currX := currX + STEP_SIZE;
        command := Forward;
      } else if fingers == [0, 1, 1, 0, 0] {
        currX := currX - STEP_SIZE;
        command := Backward;
      } else if fingers == [0, 0, 0, 0, 1] {
        currY := currY - STEP_SIZE;
        command := Right;
      } else if fingers == [1, 0, 0, 0, 0] {
        currY := currY + STEP_SIZE;
        command := Left;
      } else if fingers == [1, 1, 1, 1, 1] {
        command := OpenGripper;
        if connected { gripper := Some(850); }
      } else if fingers == [0, 0, 0, 0, 0] {
        command := CloseGripper;
        if connected { gripper := Some(0); }
      }
    }

    /** The safe box: x and y are capped at their ceilings and then raised to their floors. */
    method ClampToBox()
      modifies this
      ensures Pose() == ClampPose(old(Pose()))
    {
      if currX > X_MAX { currX := X_MAX; }
      if currX < X_MIN { currX := X_MIN; }
      if currY > Y_MAX { currY := Y_MAX; }
      if currY < Y_MIN { currY := Y_MIN; }
    }

    /** The `while cap.isOpened()` loop over a finite sequence of camera polls. */
    method Run(frames: seq<Frame>) returns (outputs: seq<FrameResult>, quit: bool)
      modifies this
      ensures RunResult(Pose(), outputs, quit) == RunSpec(connected, old(Pose()), frames)
    {
      outputs, quit := [], false;
      var i := 0;
      while i < |frames|
        invariant 0 <= i <= |frames|
        invariant var rest := RunSpec(connected, Pose(), frames[i..]);
          RunSpec(connected, old(Pose()), frames) == RunResult(rest.pose, outputs + rest.outputs, rest.quit)
      {
        var frame := frames[i];
        RunUnfold(connected, Pose(), frames, i);
        i := i + 1;
        if frame.CaptureFailed? {
          continue;
        }
        ghost var before := outputs;
        var result := Step(frame.hand);
        outputs := outputs + [result];
        if QuitKey(frame.key) {
          quit := true;
          break;
        }
        AppendAssoc(before, result, RunSpec(connected, Pose(), frames[i..]).outputs);
      }
    }
  }

  /** One camera poll of the loop, taken from the front of the remaining polls. */
  lemma RunUnfold(connected: bool, p: Vec3, frames: seq<Frame>, i: nat)
    requires i < |frames|
    ensures RunSpec(connected, p, frames[i..]) ==
      if frames[i].CaptureFailed? then RunSpec(connected, p, frames[i + 1..])
      else
        var r := FrameSpec(connected, p, frames[i].hand);
        if QuitKey(frames[i].key) then RunResult(r.pose, [r], true)
        else
          var rest := RunSpec(connected, r.pose, frames[i + 1..]);
          RunResult(rest.pose, [r] + rest.outputs, rest.quit)
  {
  }

  // ---------------------------------------------------------------------------
  // Properties

  /** The send guard on labels holds exactly for the four directional commands. */
  lemma SendsMotionIff(c: Command)
    ensures SendsMotion(c) <==> IsDirectional(c)
  {
    match c
    case OpenGripper =>
      assert Label(c)[5..12] == "GRIPPER";
      ContainsAt(Label(c), "GRIPPER", 5);
    case CloseGripper =>
      assert Label(c)[6..13] == "GRIPPER";
      ContainsAt(Label(c), "GRIPPER", 6);
    case Right =>
      assert |Label(c)| < |"GRIPPER"|;
    case Stop =>
    case Forward =>
      assert 'G' !in Label(c);
      NotContainsWithoutFirst(Label(c), "GRIPPER");
    case Backward =>
      assert 'G' !in Label(c);
      NotContainsWithoutFirst(Label(c), "GRIPPER");
    case Left =>
      assert |Label(c)| < |"GRIPPER"|;
  }

  /** An occurrence of `t` at offset `i` makes `s` contain `t`. */
  lemma {:induction false} ContainsAt(s: string, t: string, i: nat)
    requires i + |t| <= |s| && s[i..i + |t|] == t
    ensures Contains(s, t)
    decreases i
  {
    if i > 0 {
      assert s[1..][i - 1..i - 1 + |t|] == s[i..i + |t|];
      ContainsAt(s[1..], t, i - 1);
    }
  }

  /** A string in which the first character of `t` never occurs does not contain `t`. */
  lemma {:induction false} NotContainsWithoutFirst(s: string, t: string)
    requires |t| > 0 && t[0] !in s
    ensures !Contains(s, t)
    decreases |s|
  {
    if |t| <= |s| {
      assert s[0] in s;
      assert s[..|t|][0] != t[0];
      assert forall ch :: ch in s[1..] ==> ch in s;
      NotContainsWithoutFirst(s[1..], t);
    }
  }

  /** A clamped coordinate is the point of the interval nearest to the input. */
  lemma ClampIsNearest(v: real, lo: real, hi: real, b: real)
    requires lo <= b <= hi
    ensures Abs(ClampAxis(v, lo, hi) - v) <= Abs(b - v)
  {
  }

  /** Clamping twice is clamping once. */
  lemma ClampIdempotent(p: Vec3)
    ensures ClampPose(ClampPose(p)) == ClampPose(p)
  {
  }

  /** The directional command that undoes `c`. */
  function Opposite(c: Command): Command
    requires IsDirectional(c)
  {
    match c
    case Forward => Backward
    case Backward => Forward
    case Right => Left
    case Left => Right
  }

  /** Before clamping, each directional step is undone by the opposite step. */
  lemma DisplaceInverse(p: Vec3, c: Command)
    requires IsDirectional(c)
    ensures IsDirectional(Opposite(c)) && Displace(Displace(p, c), Opposite(c)) == p
  {
  }

  /** Inside the box, a frame without a directional command leaves the pose as it is. */
  lemma NonDirectionalKeepsPose(p: Vec3, c: Command)
    requires InBox(p) && !IsDirectional(c)
    ensures Transition(p, c) == p
  {
  }

  /** The pose after `n` frames that all carry command `c`. */
  function Iterate(p: Vec3, c: Command, n: nat): Vec3
    decreases n
  {
    if n == 0 then p else Iterate(Transition(p, c), c, n - 1)
  }

  function Min(a: real, b: real): real {
    if a <= b then a else b
  }

  /** Repeated FORWARD frames advance x by one step each until it stops at the ceiling 600. */
  lemma {:induction false} ForwardSaturates(p: Vec3, n: nat)
    requires InBox(p)
    ensures Iterate(p, Forward, n) == p.(x := Min(p.x + n as real * STEP_SIZE, X_MAX))
    decreases n
  {
    if n > 0 {
      var q := Transition(p, Forward);
      assert q == p.(x := Min(p.x + STEP_SIZE, X_MAX));
      ForwardSaturates(q, n - 1);
    }
  }

  /** From (590, 0, 200): 592 after one FORWARD frame, and 600 from the fifth frame on. */
  lemma ForwardFrom590(n: nat)
    ensures Iterate(Vec3(590.0, 0.0, 200.0), Forward, n)
         == Vec3(if n <= 5 then 590.0 + 2.0 * n as real else 600.0, 0.0, 200.0)
  {
    var start := Vec3(590.0, 0.0, 200.0);
    ForwardSaturates(start, n);
    assert STEP_SIZE == 2.0;
    if n <= 5 {
      assert 590.0 + n as real * STEP_SIZE <= X_MAX;
    } else {
      assert 590.0 + n as real * STEP_SIZE > X_MAX;
    }
  }

  /** Captured frames that all show the same gesture and never press `q`: one output each, ending at the iterated transition. */
  lemma {:induction false} RunIterates(connected: bool, p: Vec3, frames: seq<Frame>, c: Command)
    requires forall k :: 0 <= k < |frames| ==>
      frames[k].Captured? && Gesture(frames[k].hand) == c && !QuitKey(frames[k].key)
    ensures var r := RunSpec(connected, p, frames);
      r.pose == Iterate(p, c, |frames|) && |r.outputs| == |frames| && !r.quit
    decreases |frames|
  {
    if frames != [] {
      var q := Transition(p, c);
      assert FrameSpec(connected, p, frames[0].hand).pose == q;
      RunIterates(connected, q, frames[1..], c);
    }
  }

  /** The control loop from (590, 0, 200) on FORWARD frames without `q`: x is 590 + 2n up to the fifth frame and 600 after. */
  lemma ForwardRunFrom590(connected: bool, frames: seq<Frame>)
    requires forall k :: 0 <= k < |frames| ==>
      frames[k].Captured? && Gesture(frames[k].hand) == Forward && !QuitKey(frames[k].key)
    ensures var n := |frames|;
      RunSpec(connected, Vec3(590.0, 0.0, 200.0), frames).pose
        == Vec3(if n <= 5 then 590.0 + 2.0 * n as real else 600.0, 0.0, 200.0)
  {
    RunIterates(connected, Vec3(590.0, 0.0, 200.0), frames, Forward);
    ForwardFrom590(|frames|);
  }

  /** The final pose is the pose of the last processed frame, or the start pose when no frame was processed. */
  lemma {:induction false} RunFinalPose(connected: bool, p: Vec3, frames: seq<Frame>)
    ensures var r := RunSpec(connected, p, frames);
      r.pose == if r.outputs == [] then p else r.outputs[|r.outputs| - 1].pose
    decreases |frames|
  {
    if frames != [] {
      match frames[0]
      case CaptureFailed =>
        RunFinalPose(connected, p, frames[1..]);
      case Captured(hand, key) =>
        if !QuitKey(key) {
          RunFinalPose(connected, FrameSpec(connected, p, hand).pose, frames[1..]);
        }
    }
  }

  /** Every frame result's pose lies in the box and has height `z`. */
  predicate AllInBox(outputs: seq<FrameResult>, z: real) {
    forall k :: 0 <= k < |outputs| ==> InBox(outputs[k].pose) && outputs[k].pose.z == z
  }

  /** Every processed frame leaves the pose in the box, with z as it was at the start. */
  lemma {:induction false} RunOutputsInBox(connected: bool, p: Vec3, frames: seq<Frame>)
    ensures AllInBox(RunSpec(connected, p, frames).outputs, p.z)
    decreases |frames|
  {
    if frames != [] {
      match frames[0]
      case CaptureFailed =>
        RunOutputsInBox(connected, p, frames[1..]);
      case Captured(hand, key) =>
        if !QuitKey(key) {
          RunOutputsInBox(connected, FrameSpec(connected, p, hand).pose, frames[1..]);
        }
    }
  }

  /** After a run that processed at least one frame the pose is in the box; z never changes. */
  lemma RunKeepsBox(connected: bool, p: Vec3, frames: seq<Frame>)
    ensures var r := RunSpec(connected, p, frames);
      && r.pose.z == p.z
      && (r.outputs != [] ==> InBox(r.pose))
  {
    RunFinalPose(connected, p, frames);
    RunOutputsInBox(connected, p, frames);
  }
}
