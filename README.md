# Gesture and keyboard teleoperation rules of the xArm lab scripts

This project is a Dafny model of the two per-step control rules in the robot-arm lab scripts.

- **Gesture control** (`test3_gesture_control.py`, module `GestureControl`). Each camera frame gives at most one hand of 21 landmarks. The landmarks become a five-entry finger vector: the thumb uses an x-comparison of landmark 4 with landmark 3, and each other finger compares tip 8, 12, 16 or 20 in y with the landmark two below it. The vector is matched exactly against a six-entry gesture table. A directional gesture moves `curr_x` or `curr_y` by the step `100 * 0.02 = 2` mm. The gripper gestures request gripper position 850 (open) or 0 (close). The pose is then clamped into the safety box x ∈ [200, 600], y ∈ [−300, 300]. A motion command is sent only when the command's label is not `STOP` and does not contain `GRIPPER`. The controller is the class `Controller`. Its fields `currX`, `currY` and `currZ` are the script's globals. `Step` is one frame and `Run` is the `while cap.isOpened()` loop. The pure function `FrameSpec` specifies them.
- **Keyboard jog** (`test2_kinematics_verification.py`, module `KinematicsJog`). Each iteration reads the position. A missing reading, or one with fewer than three components, becomes (0, 0, 0) with status "Reading Error". Then the key decides the outcome:
  - w/s move x by ±10;
  - a/d move y by ±10;
  - q/e move z by ±10;
  - ESC ends the loop;
  - any other key skips to the next iteration.

  `Decide` is the pure decision. `JogLoop` is the `while True` loop, with its `break` and `continue`.

The camera, the hand detector, the keyboard and the robot are inputs and recorded outputs:
- a frame is `CaptureFailed` or `Captured(hand, key)`;
- a jog iteration is `Tick(reading, key)`;
- the calls to `set_position` and `set_gripper_position` are the `motion` and `gripper` fields of a `FrameResult`, or the `moves` of a jog session.

Coordinates are exact reals. The step is the exact product `100.0 * 0.02`.

From (590, 0, 200), x goes 592, 594, … and reaches 600 on the fifth FORWARD frame. It stays there after that (`ForwardFrom590` for the transition, `ForwardRunFrom590` for the control loop).

## Model

| member | source | states |
|---|---|---|
| `GestureControl.FingerVector` | test3_gesture_control.py:94-113 | the vector has five entries in the order thumb, index, middle, ring, pinky; the thumb is 1 exactly when `landmark[4].x < landmark[3].x`, and finger `id` ∈ {8, 12, 16, 20} is 1 exactly when `landmark[id].y < landmark[id-2].y`, otherwise 0 |
| `GestureControl.FingerStates` | test3_gesture_control.py:94-113 | the append loop over the thumb and the tips `[8, 12, 16, 20]` builds exactly that finger vector |
| `GestureControl.Classify` | test3_gesture_control.py:115-145 | exact table lookup: a non-STOP result's pattern equals the vector, and every vector equal to a table pattern yields that pattern's command; every other vector yields STOP |
| `GestureControl.GripperTarget` | test3_gesture_control.py:137-145 | only OPEN GRIPPER and CLOSE GRIPPER request the gripper, at 850 and 0 respectively |
| `GestureControl.Displace` | test3_gesture_control.py:117-135 | before clamping z never changes; FORWARD adds one step to x and BACKWARD subtracts one, both keeping y; LEFT adds one step to y and RIGHT subtracts one, both keeping x; STOP and the gripper commands do not move the pose |
| `GestureControl.DisplaceInverse` | test3_gesture_control.py:117-135 | FORWARD and BACKWARD, and RIGHT and LEFT, undo each other before clamping |
| `GestureControl.ClampAxis` | test3_gesture_control.py:147-152 | the two guarded assignments put the value inside the bounds, and they leave it unchanged unless it overshoots a bound, in which case the result is that bound |
| `GestureControl.ClampIsNearest` | test3_gesture_control.py:147-152 | the clamped value is the point of the interval nearest to the input |
| `GestureControl.ClampPose` | test3_gesture_control.py:147-152 | the clamped pose is in the safety box with z unchanged, and a pose already in the box is left as it is |
| `GestureControl.ClampIdempotent` | test3_gesture_control.py:147-152 | clamping twice equals clamping once |
| `GestureControl.SendsMotionIff` | test3_gesture_control.py:155-162 | the guard `"GRIPPER" not in command and command != "STOP"` on the command labels holds exactly for the four directional commands |
| `GestureControl.FrameSpec` | test3_gesture_control.py:83-162 | one frame: the command is the gesture (STOP with no hand); the new pose is the clamped displaced pose, lies in the box and keeps z; STOP and the gripper commands do not increment x, y; a motion is sent exactly when connected and directional, carrying the clamped x, y and unchanged z; the gripper is driven only when connected and only by the gripper gestures |
| `GestureControl.NonDirectionalKeepsPose` | test3_gesture_control.py:83-87 | inside the box, STOP (no hand or no match) and the gripper commands leave the pose unchanged |
| `GestureControl.Controller.constructor` | test3_gesture_control.py:54-66 | the start pose is the robot's reported position when a robot is connected and the reading has three components, otherwise (300, 0, 200) |
| `GestureControl.Controller.ApplyGesture` | test3_gesture_control.py:115-145 | the if-elif chain on the finger vector sets the command to the table's command, increments `curr_x`/`curr_y` by exactly the command's displacement, and requests gripper 850/0 only when connected |
| `GestureControl.Controller.ClampToBox` | test3_gesture_control.py:147-152 | the four in-place guarded assignments leave the fields equal to the clamped pose |
| `GestureControl.Controller.Step` | test3_gesture_control.py:83-162 | the in-place update, clamp and send guard of one frame produce exactly `FrameSpec` of the old pose, and the fields hold the new pose |
| `GestureControl.Controller.Run` | test3_gesture_control.py:72-178 | the frame loop skips failed captures, steps every captured frame and stops after a frame whose key is `q` (`key & 0xFF`); its outputs, final pose and quit flag are exactly `RunSpec` |
| `GestureControl.RunFinalPose` | test3_gesture_control.py:72-178 | the pose at the end of the loop is that of the last processed frame, or the start pose when no frame was processed (failed captures change nothing) |
| `GestureControl.RunOutputsInBox` | test3_gesture_control.py:147-152 | after every processed frame the pose is inside the safety box, with z as at the start |
| `GestureControl.RunKeepsBox` | test3_gesture_control.py:147-152 | z never changes over a run, and once a frame has been processed the pose is inside the box (a start pose read from the robot is not clamped before the first frame) |
| `GestureControl.ForwardSaturates` | test3_gesture_control.py:67-69 | from any pose in the box, n FORWARD transitions (displace, then clamp) give x = min(x + 2n, 600) with y and z kept |
| `GestureControl.ForwardFrom590` | test3_gesture_control.py:117-120 | from (590, 0, 200), FORWARD transitions reach x = 592 after one step and x = 600 from the fifth step on, and x stays at 600 afterwards |
| `GestureControl.RunIterates` | test3_gesture_control.py:72-178 | a loop over captured frames that all show the same gesture and never press `q` produces one output per frame, does not quit, and ends at the pose reached by applying that gesture's transition once per frame |
| `GestureControl.ForwardRunFrom590` | test3_gesture_control.py:72-178 | the control loop from (590, 0, 200), over n FORWARD frames without `q`, ends with x = 590 + 2n for n ≤ 5 and x = 600 after that, with y = 0 and z = 200 |
| `KinematicsJog.ReadCurrent` | test2_kinematics_verification.py:67-72 | the status is "Reading Error" exactly when the reading is missing or has fewer than three components, and then current is (0, 0, 0); otherwise current is the first three components and the status is OK |
| `KinematicsJog.ReadCurrentRoundTrip` | test2_kinematics_verification.py:67-72 | a reading that starts with a point's coordinates reads back as that point, whatever follows |
| `KinematicsJog.Decide` | test2_kinematics_verification.py:79-91 | a move is issued exactly for w/s/a/d/q/e, the loop exits exactly on key 27, and every other key skips; w/s move only x by +10/−10, a/d only y by +10/−10, and q/e only z by +10/−10 from current |
| `KinematicsJog.JogInverse` | test2_kinematics_verification.py:81-86 | w/s, a/d and q/e undo each other |
| `KinematicsJog.JogKeysDistinct` | test2_kinematics_verification.py:81-86 | the six jog keys lead to six different targets |
| `KinematicsJog.JogLoop` | test2_kinematics_verification.py:59-98 | the loop reads the position with its fallback, decides the key, `break`s on ESC and `continue`s on other keys; it issues exactly the targets of `SessionSpec` and exits exactly as it says |
| `KinematicsJog.ExitIffEsc` | test2_kinematics_verification.py:87-89 | the loop exits through ESC exactly when some iteration's key is 27 |
| `KinematicsJog.IssuersIssue` | test2_kinematics_verification.py:59-98 | from any iteration on, the targets the rest of the loop issues pair one-to-one, in order, with strictly increasing iterations at or after it, each of whose keys decides exactly that target |
| `KinematicsJog.IssuersExact` | test2_kinematics_verification.py:79-91 | an iteration issues a move exactly when its key is one of w/s/a/d/q/e and no earlier iteration pressed ESC: ESC ends the loop with no later move, and any other key goes on to the next iteration |
| `KinematicsJog.MovesAreSteps` | test2_kinematics_verification.py:59-98 | the k-th issued target comes from the k-th of a strictly increasing list of iterations, the key of that iteration decided on the position read in that same iteration gives exactly that target, so at most one target per iteration is issued, each exactly STEP_SIZE = 10 along one axis from that iteration's reading |

## Left out

- The camera, the hand detector (`mediapipe`), drawing, on-screen text, windows and key polling are foreign libraries. Frames, landmarks and key codes are inputs instead.
- Robot connection, start-up, gripper enabling, mode and state setting, and disconnection are I/O. They are modelled only as a `connected` flag and as recorded motion and gripper outputs. The model takes the robot methods the scripts call at face value. Whether the wrapper class `myLibs/ufactory/xarm_class_joint_space.py` provides them is not part of this model.
- Exceptions from robot calls are not modelled. A failed position query is the `None` reading. Its `except` gives `None` in the jog loop and keeps the home pose at gesture start-up. The `set_position` calls sit in `try/except` blocks whose failure the loop swallows, so a failed motion is still recorded as issued. The `set_gripper_position` calls of the gesture loop (test3_gesture_control.py:140, 145) have no `try`. They are assumed to return: an exception from them would end the run, and the model does not capture that.
- `mock_xarm.py` and the wrapper class are not part of this model. They only print, sleep, add random noise or pass calls through.
- The landmark depth, timing (`time.time`, the commented-out sleep) and IEEE floating-point rounding are not modelled. Coordinates and the step are exact reals.
- Only one hand is modelled, since the detector is configured with `max_num_hands=1`.
- `KinematicsJog.JogLoop`: the `+=`/`-=` chain on the three target locals is evaluated through the pure `Decide`, which has the same branches in the same order.
- The endless loops become loops over finite input sequences. The end of the sequence stands for a closed camera or for inputs that never come.
