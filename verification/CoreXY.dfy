/** CoreXY kinematics: motors A and B turn the sum and the difference of X and Y. */
module CoreXY {

  /** The three axes, or the three motors, in axis order. */
  type Triple = s: seq<int> | |s| == 3 witness [0, 0, 0]

  /** The axis bits of the direction invert setting. */
  datatype Invert = Invert(x: bool, y: bool, z: bool)

  function Sign(inverted: bool): int {
    if inverted then -1 else 1
  }

  function Abs(n: int): (a: nat)
    ensures a == n || a == -n
  {
    if n < 0 then -n else n
  }

  /** Division by two as C does it, toward zero. */
  function Half(n: int): int {
    if n < 0 then -(-n / 2) else n / 2
  }

  /** Motor steps of an axis displacement, as block planning computes them. */
  function ToMotors(inv: Invert, axes: Triple): Triple {
    var x, y := Sign(inv.x) * axes[0], Sign(inv.y) * axes[1];
    [x + y, x - y, Sign(inv.z) * axes[2]]
  }

  function ToXAxisSteps(inv: Invert, motors: Triple): int {
    Half(Sign(inv.x) * (motors[0] + motors[1]))
  }

  function ToYAxisSteps(inv: Invert, motors: Triple): int {
    Half(Sign(inv.y) * (motors[0] - motors[1]))
  }

  /** The planner position read back from motor steps; Z is copied as it is. */
  function SyncPosition(inv: Invert, motors: Triple): Triple {
    [ToXAxisSteps(inv, motors), ToYAxisSteps(inv, motors), motors[2]]
  }

  /** Reading back motor steps that come from an axis position gives that position, except that an
      inverted Z comes back negated. */
  lemma SyncInvertsToMotors(inv: Invert, axes: Triple)
    ensures SyncPosition(inv, ToMotors(inv, axes)) == axes[2 := Sign(inv.z) * axes[2]]
    ensures SyncPosition(inv, ToMotors(inv, axes)) == axes <==> !inv.z || axes[2] == 0
  {
    var m := ToMotors(inv, axes);
    assert Sign(inv.x) * (m[0] + m[1]) == 2 * axes[0];
    assert Sign(inv.y) * (m[0] - m[1]) == 2 * axes[1];
  }

  /** Synchronising from motor steps loses nothing exactly when the motor sum is even (and Z is not
      inverted, or zero): a cycle stopped between the motors' steps can be half a step off. */
  lemma SyncLossless(inv: Invert, motors: Triple)
    ensures ToMotors(inv, SyncPosition(inv, motors)) == motors <==>
      (motors[0] + motors[1]) % 2 == 0 && (!inv.z || motors[2] == 0)
  {
    var r := ToMotors(inv, SyncPosition(inv, motors));
    if (motors[0] + motors[1]) % 2 == 0 {
      assert (motors[0] - motors[1]) % 2 == 0;
      HalfEven(Sign(inv.x), motors[0] + motors[1]);
      HalfEven(Sign(inv.y), motors[0] - motors[1]);
      assert r[0] == motors[0] && r[1] == motors[1];
    } else {
      assert r[0] + r[1] == 2 * (Sign(inv.x) * ToXAxisSteps(inv, motors));
    }
  }

  lemma HalfEven(s: int, n: int)
    requires n % 2 == 0 && (s == 1 || s == -1)
    ensures s * Half(s * n) * 2 == n
  {
  }

  /** An axis read from twice its position, or from n where that is odd, reads as x after moving to x: always
      from an even n, and otherwise on the side of zero where n was cut off. */
  predicate ReadsBack(n: int, x: int) {
    n % 2 == 0 || (if n > 0 then x >= 0 else x <= 0)
  }

  lemma HalfAfterMove(n: int, x: int)
    ensures Half(n + 2 * (x - Half(n))) == x <==> ReadsBack(n, x)
  {
  }

  /** The motors have gone the way from the position first read to `axes`. */
  ghost predicate Followed(inv: Invert, start: Triple, axes: Triple, motors: Triple) {
    forall a :: 0 <= a < 3 ==> motors[a] - start[a] == ToMotors(inv, axes)[a] - ToMotors(inv, SyncPosition(inv, start))[a]
  }

  /** Reading the position back after such a move. */
  lemma SyncAfterMove(inv: Invert, start: Triple, axes: Triple, motors: Triple)
    requires Followed(inv, start, axes, motors)
    ensures var r := SyncPosition(inv, motors);
      && (r[0] == axes[0] <==> ReadsBack(Sign(inv.x) * (start[0] + start[1]), axes[0]))
      && (r[1] == axes[1] <==> ReadsBack(Sign(inv.y) * (start[0] - start[1]), axes[1]))
      && (r[2] == axes[2] <==> !inv.z || axes[2] == start[2])
      && ((start[0] + start[1]) % 2 == 0 ==> (r == axes <==> !inv.z || axes[2] == start[2]))
  {
    XAfterMove(inv, start, axes, motors);
    YAfterMove(inv, start, axes, motors);
    ZAfterMove(Sign(inv.z), start[2], motors[2], axes[2]);
    EvenReadsBack(Sign(inv.x), start[0] + start[1], axes[0]);
    EvenReadsBack(Sign(inv.y), start[0] - start[1], axes[1]);
    SameParity(start[0], start[1]);
    hide ToXAxisSteps, ToYAxisSteps, ReadsBack, Followed;
    var r := SyncPosition(inv, motors);
    assert r[0] == axes[0] && r[1] == axes[1] && r[2] == axes[2] ==> r == axes;
  }

  lemma SameParity(a: int, b: int)
    ensures (a + b) % 2 == 0 <==> (a - b) % 2 == 0
  {
    assert a + b == (a - b) + 2 * b;
  }

  lemma XAfterMove(inv: Invert, start: Triple, axes: Triple, motors: Triple)
    requires Followed(inv, start, axes, motors)
    ensures ToXAxisSteps(inv, motors) == axes[0] <==> ReadsBack(Sign(inv.x) * (start[0] + start[1]), axes[0])
  {
    MotorSums(inv, SyncPosition(inv, start));
    MotorSums(inv, axes);
    assert motors[0] - start[0] == ToMotors(inv, axes)[0] - ToMotors(inv, SyncPosition(inv, start))[0];
    hide ToMotors, Half, ReadsBack;
    AxisAfterMove(Sign(inv.x), start[0] + start[1], motors[0] + motors[1], axes[0]);
  }

  lemma YAfterMove(inv: Invert, start: Triple, axes: Triple, motors: Triple)
    requires Followed(inv, start, axes, motors)
    ensures ToYAxisSteps(inv, motors) == axes[1] <==> ReadsBack(Sign(inv.y) * (start[0] - start[1]), axes[1])
  {
    MotorSums(inv, SyncPosition(inv, start));
    MotorSums(inv, axes);
    hide ToMotors, Half, ReadsBack;
    AxisAfterMove(Sign(inv.y), start[0] - start[1], motors[0] - motors[1], axes[1]);
  }

  lemma ZAfterMove(s: int, n0: int, n: int, z: int)
    requires (s == 1 || s == -1) && n - n0 == s * z - s * n0
    ensures n == z <==> s == 1 || z == n0
  {
  }

  lemma MotorSums(inv: Invert, axes: Triple)
    ensures var m := ToMotors(inv, axes);
      m[0] + m[1] == 2 * (Sign(inv.x) * axes[0]) && m[0] - m[1] == 2 * (Sign(inv.y) * axes[1]) && m[2] == Sign(inv.z) * axes[2]
  {
  }

  lemma AxisAfterMove(s: int, n0: int, n: int, x: int)
    requires (s == 1 || s == -1) && n - n0 == 2 * (s * x) - 2 * (s * Half(s * n0))
    ensures Half(s * n) == x <==> ReadsBack(s * n0, x)
  {
    HalfAfterMove(s * n0, x);
  }

  lemma EvenReadsBack(s: int, n: int, x: int)
    requires s == 1 || s == -1
    ensures n % 2 == 0 ==> ReadsBack(s * n, x)
  {
  }

  /** Axis positions always give an even motor sum. */
  lemma MotorSumEven(inv: Invert, axes: Triple)
    ensures (ToMotors(inv, axes)[0] + ToMotors(inv, axes)[1]) % 2 == 0
  {
    assert ToMotors(inv, axes)[0] + ToMotors(inv, axes)[1] == 2 * (Sign(inv.x) * axes[0]);
  }

  lemma HomedPosition(inv: Invert, x: int, y: int, z: int)
    ensures var m: Triple := [Sign(inv.x) * x + Sign(inv.y) * y, Sign(inv.x) * x - Sign(inv.y) * y, z];
      ToXAxisSteps(inv, m) == x && ToYAxisSteps(inv, m) == y && (m[0] + m[1]) % 2 == 0
  {
    MotorSumEven(inv, [x, y, Sign(inv.z) * z]);
    SyncInvertsToMotors(inv, [x, y, Sign(inv.z) * z]);
  }

  class System {
    var position: Triple // motor steps

    /** A homing cycle has found the switch of axis idx: set its position, keeping the other axes. */
    method SetHomedAxis(inv: Invert, idx: nat, setAxisPosition: int)
      requires idx < 3
      modifies this
      ensures idx == 0 ==> ToXAxisSteps(inv, position) == setAxisPosition && ToYAxisSteps(inv, position) == ToYAxisSteps(inv, old(position))
      ensures idx == 1 ==> ToYAxisSteps(inv, position) == setAxisPosition && ToXAxisSteps(inv, position) == ToXAxisSteps(inv, old(position))
      ensures if idx == 2 then position == old(position)[2 := setAxisPosition] else position[2] == old(position)[2]
      ensures idx < 2 ==> (position[0] + position[1]) % 2 == 0
    {
      if idx == 0 {
        var offAxisPosition := ToYAxisSteps(inv, position);
        HomedPosition(inv, setAxisPosition, offAxisPosition, position[2]);
        position := [Sign(inv.x) * setAxisPosition + Sign(inv.y) * offAxisPosition,
                     Sign(inv.x) * setAxisPosition - Sign(inv.y) * offAxisPosition, position[2]];
      } else if idx == 1 {
        var offAxisPosition := ToXAxisSteps(inv, position);
        HomedPosition(inv, offAxisPosition, setAxisPosition, position[2]);
        position := [Sign(inv.x) * offAxisPosition + Sign(inv.y) * setAxisPosition,
                     Sign(inv.x) * offAxisPosition - Sign(inv.y) * setAxisPosition, position[2]];
      } else {
        position := position[2 := setAxisPosition];
      }
    }

    /** Before pulling off a switch, the homed axis is zeroed and the other one keeps its position. */
    method ZeroApproachedAxis(inv: Invert, idx: nat)
      requires idx < 3
      modifies this
      ensures idx == 0 ==> ToXAxisSteps(inv, position) == 0 && ToYAxisSteps(inv, position) == ToYAxisSteps(inv, old(position))
      ensures idx == 1 ==> ToYAxisSteps(inv, position) == 0 && ToXAxisSteps(inv, position) == ToXAxisSteps(inv, old(position))
      ensures if idx == 2 then position == old(position)[2 := 0] else position[2] == old(position)[2]
      ensures idx < 2 ==> (position[0] + position[1]) % 2 == 0
    {
      if idx == 0 {
        var axisPosition := Sign(inv.y) * ToYAxisSteps(inv, position);
        position := [axisPosition, -axisPosition, position[2]];
      } else if idx == 1 {
        var axisPosition := Sign(inv.x) * ToXAxisSteps(inv, position);
        position := [axisPosition, axisPosition, position[2]];
      } else {
        position := position[2 := 0];
      }
    }
  }
}
