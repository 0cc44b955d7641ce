/**
 * The keyboard jog rule of the Cartesian kinematics test: each iteration reads
 * the arm's position (falling back to the origin when the reading is missing or
 * short), waits for a key, and either moves one axis by a fixed step, exits on
 * ESC, or skips to the next iteration for any other key.
 */
module KinematicsJog {
  import opened Common

  /** Millimetres per key press. */
  const STEP_SIZE: real := 10.0

  /** Key codes as `cv2.waitKey` reports them (`ord` of the letter; 27 for ESC). */
  const KEY_W: int := 119
  const KEY_S: int := 115
  const KEY_A: int := 97
  const KEY_D: int := 100
  const KEY_Q: int := 113
  const KEY_E: int := 101
  const KEY_ESC: int := 27

  const JOG_KEYS: set<int> := {KEY_W, KEY_S, KEY_A, KEY_D, KEY_Q, KEY_E}

  const ORIGIN: Vec3 := Vec3(0.0, 0.0, 0.0)

  // ---------------------------------------------------------------------------
  // Reading the current position

  /** The two states the status line shows: "OK" and "Reading Error". */
  datatype Status = Ok | ReadingError

  datatype Reading = Reading(current: Vec3, status: Status)

  /** A missing reading (the position query raised) or one with fewer than three components reads as the origin. */
  function ReadCurrent(pos: Option<seq<real>>): (r: Reading)
    ensures r.status == ReadingError <==> pos.None? || |pos.value| < 3
    ensures r.status == ReadingError ==> r.current == ORIGIN
    ensures r.status == Ok ==> r.current == Vec3(pos.value[0], pos.value[1], pos.value[2])
  {
    if pos.None? || |pos.value| < 3 then Reading(ORIGIN, ReadingError)
    else Reading(Vec3(pos.value[0], pos.value[1], pos.value[2]), Ok)
  }

  /** A reading that begins with a point's three coordinates reads back as that point, whatever follows. */
  lemma ReadCurrentRoundTrip(v: Vec3, rest: seq<real>)
    ensures ReadCurrent(Some([v.x, v.y, v.z] + rest)) == Reading(v, Ok)
  {
  }

  // ---------------------------------------------------------------------------
  // The key-to-target decision

  datatype Outcome = Move(target: Vec3) | Exit | Skip

  /** Target and current differ by exactly one step on exactly one axis. */
  predicate OneAxisStep(current: Vec3, target: Vec3) {
    var dx, dy, dz := target.x - current.x, target.y - current.y, target.z - current.z;
    || (Abs(dx) == STEP_SIZE && dy == 0.0 && dz == 0.0)
    || (dx == 0.0 && Abs(dy) == STEP_SIZE && dz == 0.0)
    || (dx == 0.0 && dy == 0.0 && Abs(dz) == STEP_SIZE)
  }

  /** What one key press does, given the current position. */
  function Decide(current: Vec3, key: int): (o: Outcome)
    ensures o.Move? <==> key in JOG_KEYS
    ensures o == Exit <==> key == KEY_ESC
    ensures o.Move? ==> OneAxisStep(current, o.target)
    ensures key == KEY_W || key == KEY_S ==>
      o.Move? && o.target.y == current.y && o.target.z == current.z
      && o.target.x == current.x + (if key == KEY_W then STEP_SIZE else -STEP_SIZE)
    ensures key == KEY_A || key == KEY_D ==>
      o.Move? && o.target.x == current.x && o.target.z == current.z
      && o.target.y == current.y + (if key == KEY_A then STEP_SIZE else -STEP_SIZE)
    ensures key == KEY_Q || key == KEY_E ==>
      o.Move? && o.target.x == current.x && o.target.y == current.y
      && o.target.z == current.z + (if key == KEY_Q then STEP_SIZE else -STEP_SIZE)
  {
    if key == KEY_W then Move(current.(x := current.x + STEP_SIZE))
    else if key == KEY_S then Move(current.(x := current.x - STEP_SIZE))
    else if key == KEY_A then Move(current.(y := current.y + STEP_SIZE))
    else if key == KEY_D then Move(current.(y := current.y - STEP_SIZE))
    else if key == KEY_Q then Move(current.(z := current.z + STEP_SIZE))
    else if key == KEY_E then Move(current.(z := current.z - STEP_SIZE))
    else if key == KEY_ESC then Exit
    else Skip
  }

  /** The key of the same axis that moves the other way. */
  function OppositeKey(key: int): int
    requires key in JOG_KEYS
  {
    if key == KEY_W then KEY_S
    else if key == KEY_S then KEY_W
    else if key == KEY_A then KEY_D
    else if key == KEY_D then KEY_A
    else if key == KEY_Q then KEY_E
    else KEY_Q
  }

  /** A jog followed by the opposite jog returns to where it started. */
  lemma JogInverse(current: Vec3, key: int)
    requires key in JOG_KEYS
    ensures OppositeKey(key) in JOG_KEYS
    ensures Decide(Decide(current, key).target, OppositeKey(key)) == Move(current)
  {
  }

  /** Different jog keys lead to different targets. */
  lemma JogKeysDistinct(current: Vec3, k1: int, k2: int)
    requires k1 in JOG_KEYS && k2 in JOG_KEYS && k1 != k2
    ensures Decide(current, k1) != Decide(current, k2)
  {
  }

  // ---------------------------------------------------------------------------
  // The control loop

  /** One iteration's inputs: the position reading (None when the query raised) and the key pressed. */
  datatype Tick = Tick(reading: Option<seq<real>>, key: int)

  /** The targets sent to the arm, and whether the loop left through ESC. */
  datatype Session = Session(moves: seq<Vec3>, exited: bool)

  function SessionSpec(ticks: seq<Tick>): Session
    decreases |ticks|
  {
    if ticks == [] then Session([], false)
    else match Decide(ReadCurrent(ticks[0].reading).current, ticks[0].key)
      case Exit => Session([], true)
      case Skip => SessionSpec(ticks[1..])
      case Move(t) =>
        var rest := SessionSpec(ticks[1..]);
        Session([t] + rest.moves, rest.exited)
  }

  /**
   * The `while True` loop of `main` over a finite sequence of iterations: read the
   * position, then move, exit (`break`) or skip to the next iteration (`continue`).
   */
  method JogLoop(ticks: seq<Tick>) returns (moves: seq<Vec3>, exited: bool)
    ensures Session(moves, exited) == SessionSpec(ticks)
  {
    moves, exited := [], false;
    var i := 0;
    while i < |ticks|
      invariant 0 <= i <= |ticks|
      invariant var rest := SessionSpec(ticks[i..]);
        SessionSpec(ticks) == Session(moves + rest.moves, rest.exited)
    {
      var pos := ticks[i].reading;
      var key := ticks[i].key;
      SessionUnfold(ticks, i);
      ghost var rest := SessionSpec(ticks[i + 1..]);
      i := i + 1;

      var current := ReadCurrent(pos).current;

      match Decide(current, key)
      case Exit =>
        exited := true;
        break;
      case Skip =>
        continue;
      case Move(target) =>
        AppendAssoc(moves, target, rest.moves);
        moves := moves + [target];
    }
  }

  /** One iteration of the session, taken from the front of the remaining ticks. */
  lemma SessionUnfold(ticks: seq<Tick>, i: nat)
    requires i < |ticks|
    ensures var rest := SessionSpec(ticks[i + 1..]);
      SessionSpec(ticks[i..]) == match Decide(ReadCurrent(ticks[i].reading).current, ticks[i].key)
        case Exit => Session([], true)
        case Skip => rest
        case Move(t) => Session([t] + rest.moves, rest.exited)
  {
  }

  /** The loop ends through ESC exactly when some iteration's key is ESC. */
  lemma {:induction false} ExitIffEsc(ticks: seq<Tick>)
    ensures SessionSpec(ticks).exited <==> exists i :: 0 <= i < |ticks| && ticks[i].key == KEY_ESC
    decreases |ticks|
  {
    if ticks != [] {
      ExitIffEsc(ticks[1..]);
      if ticks[0].key != KEY_ESC {
        assert (exists i :: 0 <= i < |ticks| && ticks[i].key == KEY_ESC)
           <==> (exists i :: 0 <= i < |ticks[1..]| && ticks[1..][i].key == KEY_ESC)
        by {
          forall i | 0 <= i < |ticks| && ticks[i].key == KEY_ESC
            ensures 0 <= i - 1 < |ticks[1..]| && ticks[1..][i - 1].key == KEY_ESC
          {
          }
        }
      }
    }
  }

  /**
   * `idx` lists, in strictly increasing order and all at or after `from`, the
   * iterations that issued `moves`: the key of iteration `idx[k]`, decided on the
   * position read in that same iteration, is the move to `moves[k]`.
   */
  predicate IssuedBy(ticks: seq<Tick>, from: nat, idx: seq<nat>, moves: seq<Vec3>) {
    && |idx| == |moves|
    && (forall k :: 0 <= k < |idx| ==>
          from <= idx[k] < |ticks|
          && Decide(ReadCurrent(ticks[idx[k]].reading).current, ticks[idx[k]].key) == Move(moves[k]))
    && (forall j, k :: 0 <= j < k < |idx| ==> idx[j] < idx[k])
  }

  /** The iterations, from `from` on, whose key issued a move before the loop ended. */
  function Issuers(ticks: seq<Tick>, from: nat): seq<nat>
    requires from <= |ticks|
    decreases |ticks| - from
  {
    if from == |ticks| then []
    else match Decide(ReadCurrent(ticks[from].reading).current, ticks[from].key)
      case Exit => []
      case Skip => Issuers(ticks, from + 1)
      case Move(_) => [from] + Issuers(ticks, from + 1)
  }

  /** The moves issued from iteration `from` on come one each from distinct, increasing iterations. */
  lemma {:induction false} IssuersIssue(ticks: seq<Tick>, from: nat)
    requires from <= |ticks|
    ensures IssuedBy(ticks, from, Issuers(ticks, from), SessionSpec(ticks[from..]).moves)
    decreases |ticks| - from
  {
    if from < |ticks| {
      SessionUnfold(ticks, from);
      IssuersIssue(ticks, from + 1);
    }
  }

  /** No iteration before `from` is among the issuers from `from` on. */
  lemma {:induction false} IssuersAfter(ticks: seq<Tick>, from: nat, i: nat)
    requires from <= |ticks| && i < from
    ensures i !in Issuers(ticks, from)
    decreases |ticks| - from
  {
    if from < |ticks| {
      IssuersAfter(ticks, from + 1, i);
    }
  }

  /**
   * Iteration `i` issues a move exactly when its key is a jog key and no
   * iteration from `from` up to it pressed ESC: ESC ends the loop with no
   * later move, and every other key goes on to the next iteration.
   */
  lemma {:induction false} IssuersExact(ticks: seq<Tick>, from: nat, i: nat)
    requires from <= i < |ticks|
    ensures i in Issuers(ticks, from) <==>
      ticks[i].key in JOG_KEYS && forall j :: from <= j < i ==> ticks[j].key != KEY_ESC
    decreases |ticks| - from
  {
    var o := Decide(ReadCurrent(ticks[from].reading).current, ticks[from].key);
    if from == i {
      if o.Skip? {
        IssuersAfter(ticks, from + 1, i);
      }
    } else if o.Exit? {
      assert ticks[from].key == KEY_ESC;
    } else {
      IssuersExact(ticks, from + 1, i);
      assert (forall j :: from <= j < i ==> ticks[j].key != KEY_ESC)
        <==> (forall j :: from + 1 <= j < i ==> ticks[j].key != KEY_ESC);
    }
  }

  /**
   * At most one target per iteration is issued, and each issued target is one
   * step along one axis from the position read in the iteration that issued it.
   */
  lemma MovesAreSteps(ticks: seq<Tick>)
    ensures var idx, moves := Issuers(ticks, 0), SessionSpec(ticks).moves;
      && IssuedBy(ticks, 0, idx, moves)
      && |moves| <= |ticks|
      && forall k :: 0 <= k < |moves| ==> OneAxisStep(ReadCurrent(ticks[idx[k]].reading).current, moves[k])
  {
    assert ticks[0..] == ticks;
    IssuersIssue(ticks, 0);
    IncreasingBounded(Issuers(ticks, 0), |ticks|);
  }

  /** A strictly increasing sequence of indices below `n` has at most `n` elements. */
  lemma {:induction false} IncreasingBounded(idx: seq<nat>, n: nat)
    requires forall k :: 0 <= k < |idx| ==> idx[k] < n
    requires forall j, k :: 0 <= j < k < |idx| ==> idx[j] < idx[k]
    ensures |idx| <= n
    decreases n
  {
    if idx != [] {
      var last := idx[|idx| - 1];
      IncreasingBounded(idx[..|idx| - 1], last);
    }
  }
}
