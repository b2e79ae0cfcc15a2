/** The gripper-centric environment state sent to the external DoF model, and
    the request package with its deduplication test. */
module Observation {
  import opened Vectors

  /** Math.PI as a decimal literal. */
  const PI: real := 3.141592653589793

  /** `k` full turns. */
  function Turns(k: int): (t: real)
  {
    2.0 * PI * (k as real)
  }

  /** The remainder of a non-negative angle modulo a full turn (the `%` of
      the source on a non-negative left operand). */
  function FullTurnRemainder(a: real): (m: real)
    requires a >= 0.0
    ensures 0.0 <= m < 2.0 * PI
    ensures m == a - Turns((a / (2.0 * PI)).Floor)
  {
    a - 2.0 * PI * ((a / (2.0 * PI)).Floor as real)
  }

  /** `normaliseRotation`: reduce the magnitude modulo a full turn keeping the
      sign, then move anything of magnitude at least a half turn by one turn
      towards zero. */
  function NormaliseRotation(d: real): (r: real)
    ensures -PI <= r <= PI
  {
    var m := Sign(d) * FullTurnRemainder(Abs(d));
    if Abs(m) < PI then m else m - Sign(m) * 2.0 * PI
  }

  /** The normalised angle differs from the input by whole turns. */
  lemma NormaliseRotationCongruent(d: real)
    ensures exists k: int :: NormaliseRotation(d) == d + Turns(k)
  {
    var q := (Abs(d) / (2.0 * PI)).Floor;
    var m := Sign(d) * FullTurnRemainder(Abs(d));
    if d >= 0.0 {
      assert m == d - Turns(q);
      if Abs(m) < PI {
        assert NormaliseRotation(d) == d + Turns(-q);
      } else {
        assert NormaliseRotation(d) == d + Turns(-q - 1);
      }
    } else {
      assert m == d + Turns(q);
      if Abs(m) < PI {
        assert NormaliseRotation(d) == d + Turns(q);
      } else {
        assert NormaliseRotation(d) == d + Turns(q + 1);
      }
    }
  }

  /** Angles strictly inside a half turn are left as they are. */
  lemma NormaliseRotationFixesInterior(d: real)
    requires -PI < d < PI
    ensures NormaliseRotation(d) == d
  {
  }

  /** The two half turns are swapped rather than fixed, so the result range
      holds both ends and normalising twice is not the same as once there. */
  lemma NormaliseRotationHalfTurns()
    ensures NormaliseRotation(PI) == -PI && NormaliseRotation(-PI) == PI
    ensures NormaliseRotation(NormaliseRotation(PI)) != NormaliseRotation(PI)
  {
  }

  /** A position and heading in the gripper's frame (a Box2D local pose). */
  datatype Pose = Pose(x: real, y: real, angle: real)

  /** The eight environment values after the velocity: target position, then
      each of the two boxes with its heading normalised. */
  function StateTail(target: (real, real), box0: Pose, box1: Pose): (t: seq<real>)
    ensures |t| == 8
    ensures t[0] == target.0 && t[1] == target.1
    ensures t[2] == box0.x && t[3] == box0.y && t[5] == box1.x && t[6] == box1.y
    ensures -PI <= t[4] <= PI && -PI <= t[7] <= PI
  {
    [target.0, target.1,
     box0.x, box0.y, NormaliseRotation(box0.angle),
     box1.x, box1.y, NormaliseRotation(box1.angle)]
  }

  /** `getState`: the cached operator velocity followed by the tail. */
  function State(velocity: Vec, target: (real, real), box0: Pose, box1: Pose): (s: seq<real>)
    ensures |s| == 12 && s[..4] == velocity && s[4..] == StateTail(target, box0, box1)
  {
    velocity + StateTail(target, box0, box1)
  }

  /** What is sent to the DoF model: the selected model and the state tail. */
  datatype Request = Request(model: string, state: seq<real>)

  /** The package remembered before anything has been sent. */
  const INITIAL_REQUEST: Request := Request("", [0.0, 0.0, 0.0, 0.0, 0.0, 0.0, 0.0, 0.0])

  /** The source's "nothing changed" test: same model, and every state value
      equal to the one at the same place in the last package (a place past
      the end of the last package never matches). */
  predicate SameAsLast(pkg: Request, last: Request)
  {
    && pkg.model == last.model
    && forall i :: 0 <= i < |pkg.state| ==> i < |last.state| && pkg.state[i] == last.state[i]
  }

  /** A request goes out when none is in flight, a model is selected, and
      the package differs from the last one sent. */
  predicate ShouldSend(running: bool, model: string, tail: seq<real>, last: Request)
  {
    !running && model != "" && !SameAsLast(Request(model, tail), last)
  }

  /** For packages of one state length the test is plain equality, so a
      package is never sent twice in a row and any change is sent. */
  lemma SameAsLastIsEquality(pkg: Request, last: Request)
    requires |pkg.state| == |last.state|
    ensures SameAsLast(pkg, last) <==> pkg == last
  {
    if SameAsLast(pkg, last) {
      assert pkg.state == last.state;
    }
  }

  /** The first request with a selected model always goes out. */
  lemma FirstRequestSent(model: string, tail: seq<real>)
    requires model != ""
    ensures ShouldSend(false, model, tail, INITIAL_REQUEST)
  {
  }

  /** Right after a package is sent, the same package is not sent again. */
  lemma NoImmediateResend(model: string, tail: seq<real>)
    ensures !ShouldSend(false, model, tail, Request(model, tail))
  {
  }
}
