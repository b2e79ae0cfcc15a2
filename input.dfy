/** Operator input of the gripper: the gamepad dead zone, the key bindings,
    the local velocity that the held keys and the joystick ask for, and the
    speed clamp that turns a velocity into a motor command. */
module Input {
  import opened Vectors

  datatype Option<T> = None | Some(value: T)

  /** The adaptive keys, two per adaptive axis ("+" then "-"); the first
      2 * N of them are live when N adaptive axes are selected. */
  const ADAPTIVE_KEYS_ORIGIN: seq<string> := ["w", "s", "d", "a"]

  /** The standard keys, two per world axis ("+" then "-"), and the
      alternative binding of the same eight actions. */
  const KEYS_STD: seq<string> := ["ArrowUp", "ArrowDown", "ArrowRight", "ArrowLeft", "0", "Control", "3", "1"]
  const KEYS_STD_2: seq<string> := ["i", "k", "l", "j", "o", "u", "m", "n"]

  /** Per-axis speed factors: x, y, rotation, grip. */
  const SPEED_PER_DIM: Vec := [50.0, 50.0, 70.0, 0.05]

  /** Row `a` of the standard DoF matrix: the unit step along axis `a`. */
  function Unit(a: nat): (u: Vec)
    requires a < 4
    ensures u[a] == 1.0 && forall j :: 0 <= j < 4 && j != a ==> u[j] == 0.0
  {
    seq(4, j requires 0 <= j < 4 => if j == a then 1.0 else 0.0)
  }

  // ---------------------------------------------------------------------
  // Gamepad
  // ---------------------------------------------------------------------

  /** The gamepad dead zone: readings below 0.01 in magnitude are dropped,
      readings above 0.99 snap to full deflection. */
  function DeadZone(x: real): real
  {
    if Abs(x) < 0.01 then 0.0
    else if Abs(x) > 0.99 then 1.0 * Sign(x)
    else x
  }

  /** The dead zone keeps readings within full deflection, never reverses a
      direction, passes mid-range readings unchanged and is idempotent. */
  lemma DeadZoneProperties(x: real)
    ensures Abs(DeadZone(x)) <= 1.0
    ensures DeadZone(x) == 0.0 || Abs(DeadZone(x)) >= 0.01
    ensures DeadZone(x) == 0.0 || Sign(DeadZone(x)) == Sign(x)
    ensures 0.01 <= Abs(x) <= 0.99 ==> DeadZone(x) == x
    ensures DeadZone(DeadZone(x)) == DeadZone(x)
  {
  }

  /** What the gripper reads from a gamepad: its axes and the values of the
      left (6) and right (7) trigger buttons. */
  datatype Gamepad = Gamepad(axes: seq<real>, leftTrigger: real, rightTrigger: real)

  /** The joystick reading [-axis 1, axis 0, axis 2, right trigger - left
      trigger] passed through the dead zone. */
  function JoystickInput(axes: seq<real>, leftTrigger: real, rightTrigger: real): (j: Vec)
    requires |axes| >= 3
    ensures forall i :: 0 <= i < 4 ==> Abs(j[i]) <= 1.0 && (j[i] == 0.0 || Abs(j[i]) >= 0.01)
    ensures j[0] == DeadZone(-axes[1]) && j[1] == DeadZone(axes[0])
    ensures j[2] == DeadZone(axes[2]) && j[3] == DeadZone(rightTrigger - leftTrigger)
  {
    DeadZoneProperties(-axes[1]);
    DeadZoneProperties(axes[0]);
    DeadZoneProperties(axes[2]);
    DeadZoneProperties(rightTrigger - leftTrigger);
    [DeadZone(-axes[1]), DeadZone(axes[0]), DeadZone(axes[2]), DeadZone(rightTrigger - leftTrigger)]
  }

  // ---------------------------------------------------------------------
  // Keys and the adaptive-input test
  // ---------------------------------------------------------------------

  /** A key counts as held when it has been pressed and not released since;
      keys never seen read as not held. */
  predicate Held(keys: map<string, bool>, k: string)
  {
    k in keys && keys[k]
  }

  /** Adaptive input is active when a live adaptive key is held, or a
      joystick is attached and one of its first `n` axes is off zero. */
  predicate AdaptiveActive(keys: map<string, bool>, adaptiveKeys: seq<string>, joystick: Option<Vec>, n: nat)
  {
    || (exists k :: k in adaptiveKeys && Held(keys, k))
    || (joystick.Some? && exists i :: 0 <= i < n && i < 4 && joystick.value[i] != 0.0)
  }

  // ---------------------------------------------------------------------
  // The local velocity
  // ---------------------------------------------------------------------

  /** What adaptive axis `i` contributes to component `j` through its keys:
      plus its DoF vector when "+" is held, minus it when "-" is held. */
  function KeyTerm(keys: map<string, bool>, adaptiveKeys: seq<string>, d: Vec, i: nat, j: nat): real
    requires 2 * i + 1 < |adaptiveKeys| && j < 4
  {
    (if Held(keys, adaptiveKeys[2 * i]) then d[j] else 0.0)
      - (if Held(keys, adaptiveKeys[2 * i + 1]) then d[j] else 0.0)
  }

  /** Component `j` of the key contributions of the first `m` adaptive axes. */
  function KeySum(keys: map<string, bool>, adaptiveKeys: seq<string>, vs: seq<Vec>, j: nat, m: nat): real
    requires m <= |vs| && 2 * m <= |adaptiveKeys| && j < 4
  {
    if m == 0 then 0.0
    else KeySum(keys, adaptiveKeys, vs, j, m - 1) + KeyTerm(keys, adaptiveKeys, vs[m - 1], m - 1, j)
  }

  /** Component `j` of the joystick-weighted sum of the first `m` vectors. */
  function JoySum(joy: Vec, vs: seq<Vec>, j: nat, m: nat): real
    requires m <= |vs| && m <= 4 && j < 4
  {
    if m == 0 then 0.0
    else JoySum(joy, vs, j, m - 1) + joy[m - 1] * vs[m - 1][j]
  }

  /** What the standard keys contribute to axis `j`: +1 when either binding
      of its "+" key is held, -1 when either binding of its "-" key is. */
  function StdWeight(keys: map<string, bool>, j: nat): real
    requires j < 4
  {
    (if Held(keys, KEYS_STD[2 * j]) || Held(keys, KEYS_STD_2[2 * j]) then 1.0 else 0.0)
      - (if Held(keys, KEYS_STD[2 * j + 1]) || Held(keys, KEYS_STD_2[2 * j + 1]) then 1.0 else 0.0)
  }

  /** The velocity of the standard keys alone. */
  function StdVelocity(keys: map<string, bool>): Vec
  {
    seq(4, j requires 0 <= j < 4 => StdWeight(keys, j))
  }

  /** The gripper-local velocity requested by the operator, before the turn
      into world coordinates: with the adaptive model, the key and joystick
      weighted sum of the chosen DoF vectors; without it, the joystick reading
      itself; in both cases plus the standard keys. */
  function Velocity(keys: map<string, bool>, adaptiveKeys: seq<string>, joystick: Option<Vec>,
                    useModel: bool, vs: seq<Vec>): Vec
    requires |vs| <= 4 && |adaptiveKeys| == 2 * |vs|
  {
    seq(4, j requires 0 <= j < 4 =>
      (if useModel then
         KeySum(keys, adaptiveKeys, vs, j, |vs|)
           + (if joystick.Some? then JoySum(joystick.value, vs, j, |vs|) else 0.0)
       else if joystick.Some? then joystick.value[j]
       else 0.0)
      + StdWeight(keys, j))
  }

  /** With no adaptive key held the key sum vanishes. */
  lemma {:induction false} KeySumIdle(keys: map<string, bool>, adaptiveKeys: seq<string>, vs: seq<Vec>, j: nat, m: nat)
    requires m <= |vs| && 2 * m <= |adaptiveKeys| && j < 4
    requires forall k :: 0 <= k < 2 * m ==> !Held(keys, adaptiveKeys[k])
    ensures KeySum(keys, adaptiveKeys, vs, j, m) == 0.0
  {
    if m > 0 {
      KeySumIdle(keys, adaptiveKeys, vs, j, m - 1);
    }
  }

  /** With the first `m` joystick axes at zero the joystick sum vanishes. */
  lemma {:induction false} JoySumIdle(joy: Vec, vs: seq<Vec>, j: nat, m: nat)
    requires m <= |vs| && m <= 4 && j < 4
    requires forall i :: 0 <= i < m ==> joy[i] == 0.0
    ensures JoySum(joy, vs, j, m) == 0.0
  {
    if m > 0 {
      JoySumIdle(joy, vs, j, m - 1);
    }
  }

  /** When adaptive input is not active, the requested velocity is exactly
      that of the standard keys: the adaptive DoFs move nothing. */
  lemma InactiveMeansStandardOnly(keys: map<string, bool>, adaptiveKeys: seq<string>, joystick: Option<Vec>, vs: seq<Vec>)
    requires |vs| <= 4 && |adaptiveKeys| == 2 * |vs|
    requires !AdaptiveActive(keys, adaptiveKeys, joystick, |vs|)
    ensures Velocity(keys, adaptiveKeys, joystick, true, vs) == StdVelocity(keys)
  {
    forall j | 0 <= j < 4
      ensures Velocity(keys, adaptiveKeys, joystick, true, vs)[j] == StdVelocity(keys)[j]
    {
      assert forall k :: 0 <= k < 2 * |vs| ==> adaptiveKeys[k] in adaptiveKeys;
      KeySumIdle(keys, adaptiveKeys, vs, j, |vs|);
      if joystick.Some? {
        JoySumIdle(joystick.value, vs, j, |vs|);
      }
    }
  }

  /** The key sum when exactly one key, the "+" key of axis `a`, is held
      among the first `m` axes. */
  lemma {:induction false} KeySumSingle(keys: map<string, bool>, adaptiveKeys: seq<string>, vs: seq<Vec>, j: nat, m: nat, a: nat)
    requires m <= |vs| && 2 * m <= |adaptiveKeys| && j < 4 && 2 * a + 1 < |adaptiveKeys|
    requires forall k :: 0 <= k < |adaptiveKeys| ==> (Held(keys, adaptiveKeys[k]) <==> k == 2 * a)
    ensures KeySum(keys, adaptiveKeys, vs, j, m) == if a < m then vs[a][j] else 0.0
  {
    if m > 0 {
      KeySumSingle(keys, adaptiveKeys, vs, j, m - 1, a);
    }
  }

  /** Holding only the "+" key of adaptive axis `a` moves the gripper along
      exactly the DoF vector bound to that axis. */
  lemma SingleAdaptiveKey(keys: map<string, bool>, adaptiveKeys: seq<string>, vs: seq<Vec>, a: nat)
    requires |vs| <= 4 && |adaptiveKeys| == 2 * |vs| && a < |vs|
    requires forall k :: 0 <= k < |adaptiveKeys| ==> (Held(keys, adaptiveKeys[k]) <==> k == 2 * a)
    requires forall k :: k in KEYS_STD || k in KEYS_STD_2 ==> !Held(keys, k)
    ensures Velocity(keys, adaptiveKeys, None, true, vs) == vs[a]
  {
    forall j | 0 <= j < 4
      ensures Velocity(keys, adaptiveKeys, None, true, vs)[j] == vs[a][j]
    {
      KeySumSingle(keys, adaptiveKeys, vs, j, |vs|, a);
      assert KEYS_STD[2 * j] in KEYS_STD && KEYS_STD[2 * j + 1] in KEYS_STD;
      assert KEYS_STD_2[2 * j] in KEYS_STD_2 && KEYS_STD_2[2 * j + 1] in KEYS_STD_2;
    }
  }

  // ---------------------------------------------------------------------
  // The speed clamp
  // ---------------------------------------------------------------------

  /** Squared length of the planar (x, y) part. */
  function XYNormSq(v: Vec): real
  {
    v[0] * v[0] + v[1] * v[1]
  }

  /** The planar part divided by its length `norm` when it is longer than
      one; rotation and grip untouched. */
  function ClampXY(v: Vec, norm: real): Vec
    requires XYNormSq(v) > 1.0 ==> norm > 0.0
  {
    if XYNormSq(v) > 1.0 then [v[0] / norm, v[1] / norm, v[2], v[3]] else v
  }

  /** Every component multiplied by its speed factor. */
  function SpeedScaled(v: Vec): (w: Vec)
    ensures forall i :: 0 <= i < 4 ==> w[i] == v[i] * SPEED_PER_DIM[i]
  {
    seq(4, i requires 0 <= i < 4 => v[i] * SPEED_PER_DIM[i])
  }

  /** Scaling multiplies the planar speed by 50 (its square by 2500), the
      rotation by 70 and the grip by 0.05. */
  lemma SpeedScaledNorm(v: Vec)
    ensures var w := SpeedScaled(v);
      XYNormSq(w) == 2500.0 * XYNormSq(v) && w[2] == v[2] * 70.0 && w[3] == v[3] * 0.05
  {
    var w := SpeedScaled(v);
    calc {
      XYNormSq(w);
    ==
      (v[0] * 50.0) * (v[0] * 50.0) + (v[1] * 50.0) * (v[1] * 50.0);
    ==
      2500.0 * (v[0] * v[0] + v[1] * v[1]);
    ==
      2500.0 * XYNormSq(v);
    }
  }

  lemma SquareScaled(a: real, n: real)
    ensures (a * n) * (a * n) == (a * a) * (n * n)
  {
  }

  /** If `p` times a positive `q` is `q`, then `p` is one. */
  lemma CancelFactor(p: real, q: real)
    requires q > 0.0 && p * q == q
    ensures p == 1.0
  {
    if p > 1.0 {
      MulPos(p - 1.0, q);
    } else if p < 1.0 {
      MulPos(1.0 - p, q);
    }
  }

  /** The clamp: a planar part longer than one is scaled onto the unit circle
      along the same direction; a shorter one, and the rotation and grip
      components, are left as they are. */
  lemma ClampXYProperties(v: Vec, norm: real)
    requires XYNormSq(v) > 1.0 ==> norm > 0.0 && norm * norm == XYNormSq(v)
    ensures var w := ClampXY(v, norm);
      && XYNormSq(w) <= 1.0
      && w[2] == v[2] && w[3] == v[3]
      && (XYNormSq(v) > 1.0 ==> XYNormSq(w) == 1.0 && w[0] * norm == v[0] && w[1] * norm == v[1])
      && (XYNormSq(v) <= 1.0 ==> w == v)
  {
    if XYNormSq(v) > 1.0 {
      var a, b := v[0] / norm, v[1] / norm;
      assert a * norm == v[0] && b * norm == v[1];
      SquareScaled(a, norm);
      SquareScaled(b, norm);
      var nn := norm * norm;
      MulPos(norm, norm);
      assert (a * a + b * b) * nn == nn by {
        calc {
          (a * a + b * b) * nn;
        ==
          (a * a) * nn + (b * b) * nn;
        ==
          (a * norm) * (a * norm) + (b * norm) * (b * norm);
        ==
          v[0] * v[0] + v[1] * v[1];
        ==
          XYNormSq(v);
        ==
          nn;
        }
      }
      CancelFactor(a * a + b * b, nn);
      assert ClampXY(v, norm) == [a, b, v[2], v[3]];
    }
  }
}
