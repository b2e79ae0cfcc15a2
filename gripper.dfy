/** The adaptive-DoF control state of the gripper and the steps that change
    it: the per-tick update, the key handlers, the model's response and the
    idle-time rotation of the chosen DoFs. Physics, rendering and transport
    stay outside: the turn into world coordinates and the square root are
    parameters, the clock is the `now` argument, and the DOM selectors are the
    fields of `Config`. */
module Control {
  import opened Vectors
  import opened DofRotation
  import opened DofMatcher
  import opened Input
  import opened Observation

  /** The value of the DoF tracking selector. */
  datatype TrackingMode = TrackDofs | UpdateDofsOnlyIdle | OtherTracking

  /** The user interface settings read during a tick or a response. */
  datatype Config = Config(
    numDofs: nat,
    useModel: bool,
    model: string,
    tracking: TrackingMode,
    autoSwitch: bool,
    signPolicy: SignPolicy)

  /** `sqrt` is the non-negative square root on non-negative reals. */
  ghost predicate IsSqrt(sqrt: real -> real)
  {
    forall x :: x >= 0.0 ==> sqrt(x) >= 0.0 && sqrt(x) * sqrt(x) == x
  }

  /** The local velocity with its planar part turned into world coordinates. */
  function WorldVelocity(v: Vec, toWorld: (real, real) -> (real, real)): (w: Vec)
    ensures (w[0], w[1]) == toWorld(v[0], v[1]) && w[2] == v[2] && w[3] == v[3]
  {
    var p := toWorld(v[0], v[1]);
    [p.0, p.1, v[2], v[3]]
  }

  /** The norm handed to the clamp. */
  function ClampNorm(w: Vec, sqrt: real -> real): (norm: real)
    requires IsSqrt(sqrt)
    ensures XYNormSq(w) > 1.0 ==> norm > 0.0 && norm * norm == XYNormSq(w)
  {
    var s := XYNormSq(w);
    if s > 1.0 then
      assert sqrt(s) * sqrt(s) == s;
      sqrt(s)
    else sqrt(s)
  }

  /** The motor command of a tick: world velocity, clamped, speed-scaled. */
  function Command(v: Vec, toWorld: (real, real) -> (real, real), sqrt: real -> real): Vec
    requires IsSqrt(sqrt)
  {
    var w := WorldVelocity(v, toWorld);
    SpeedScaled(ClampXY(w, ClampNorm(w, sqrt)))
  }

  /** The commanded planar speed is at most 50, and exactly 50 when the
      requested planar speed in world coordinates exceeds one; a slower
      request is only speed-scaled. The rotation and grip commands are the
      requested ones times 70 and 0.05. */
  lemma CommandBounded(v: Vec, toWorld: (real, real) -> (real, real), sqrt: real -> real)
    requires IsSqrt(sqrt)
    ensures var w := WorldVelocity(v, toWorld);
      var c := Command(v, toWorld, sqrt);
      && XYNormSq(c) <= 2500.0 && c[2] == v[2] * 70.0 && c[3] == v[3] * 0.05
      && (XYNormSq(w) > 1.0 ==> XYNormSq(c) == 2500.0)
      && (XYNormSq(w) <= 1.0 ==> c == SpeedScaled(w))
  {
    var w := WorldVelocity(v, toWorld);
    var cl := ClampXY(w, ClampNorm(w, sqrt));
    ClampXYProperties(w, ClampNorm(w, sqrt));
    SpeedScaledNorm(cl);
  }

  /** The DoF set before any model response, with `h` = 0.5 / sqrt(0.5). */
  function InitialDofs(h: real): DofSet
  {
    [[0.0, 0.0, 1.0, 0.0], [h, h, 0.8, 0.0], [0.0, 1.0, 0.0, 0.0], ZERO]
  }

  /** The chosen DoFs and the DoF set that `storeMostSimilarChosenDofs`
      stores: the binding that moves the old chosen vectors least (taken
      over only when tracking), and the new set with its signs resolved. */
  function Matched(dofs: DofSet, chosen: seq<nat>, newDofs: DofSet, tracking: TrackingMode, policy: SignPolicy)
    : (r: (seq<nat>, DofSet))
    requires 1 <= |chosen| <= 2 && DistinctInRange(chosen)
    ensures |r.0| == |chosen| && DistinctInRange(r.0)
    ensures tracking != TrackDofs ==> r.0 == chosen
  {
    var table := DistanceTable(ChosenVectors(dofs, chosen), newDofs);
    var perm := BestPermutation(table, |chosen|);
    (if tracking == TrackDofs then perm else chosen, ResolveSigns(newDofs, perm, table, policy))
  }

  /** Under trackDofs the stored binding is one that moves the old chosen
      vectors least: no other valid binding has a smaller summed distance. */
  lemma TrackedBindingIsClosest(dofs: DofSet, chosen: seq<nat>, newDofs: DofSet, policy: SignPolicy)
    requires 1 <= |chosen| <= 2 && DistinctInRange(chosen)
    ensures var table := DistanceTable(ChosenVectors(dofs, chosen), newDofs);
      var tracked := Matched(dofs, chosen, newDofs, TrackDofs, policy).0;
      forall p :: IsAssignment(p, |chosen|) ==> Score(table, tracked) <= Score(table, p)
  {
    BestPermutationIsOptimal(DistanceTable(ChosenVectors(dofs, chosen), newDofs), |chosen|);
  }

  class Gripper {
    var numAdaptiveDofs: nat
    var adaptiveKeys: seq<string>
    var dofs: DofSet
    var eigVals: Vec
    var resetChosenDofs: bool
    var chosenDofs: seq<nat>
    var chosenDofTimer: int
    var velocity: Vec
    var keysPressed: map<string, bool>
    var joystickInput: Option<Vec>
    var requestRunning: bool
    var lastRequestPkg: Request
    /** Requests sent whose response has not arrived yet. */
    ghost var pending: nat

    /** One or two adaptive axes, their live keys, and as many distinct
        chosen DoF indices. */
    ghost predicate Valid()
      reads this
    {
      && 1 <= numAdaptiveDofs <= 2
      && adaptiveKeys == ADAPTIVE_KEYS_ORIGIN[..2 * numAdaptiveDofs]
      && |chosenDofs| == numAdaptiveDofs
      && DistinctInRange(chosenDofs)
    }

    /** The in-flight flag tells exactly whether one request is unanswered. */
    ghost predicate InFlightConsistent()
      reads this
    {
      pending <= 1 && (requestRunning <==> pending == 1)
    }

    /** The part of the state that `UpdateChosenDofs` works on. */
    function Rotation(): RotationState
      reads this
    {
      RotationState(chosenDofs, resetChosenDofs, chosenDofTimer)
    }

    constructor (n: nat, now: int, sqrt: real -> real)
      requires 1 <= n <= 2 && IsSqrt(sqrt)
      ensures Valid() && InFlightConsistent()
      ensures chosenDofs == Canonical(n) && !resetChosenDofs && chosenDofTimer == now
      ensures dofs == InitialDofs(0.5 / sqrt(0.5)) && eigVals == ZERO && velocity == ZERO
      ensures keysPressed == map k | k in adaptiveKeys + KEYS_STD :: false
      ensures joystickInput == None && !requestRunning && lastRequestPkg == INITIAL_REQUEST
    {
      numAdaptiveDofs := n;
      adaptiveKeys := ADAPTIVE_KEYS_ORIGIN[..2 * n];
      assert sqrt(0.5) * sqrt(0.5) == 0.5;
      dofs := InitialDofs(0.5 / sqrt(0.5));
      eigVals := ZERO;
      resetChosenDofs := true;
      chosenDofs := Canonical(n);
      chosenDofTimer := now;
      velocity := ZERO;
      keysPressed := map k | k in ADAPTIVE_KEYS_ORIGIN[..2 * n] + KEYS_STD :: false;
      joystickInput := None;
      requestRunning := false;
      lastRequestPkg := INITIAL_REQUEST;
      pending := 0;
      new;
      CanonicalIsValid(n);
      UpdateChosenDofs(true, now);
    }

    /** `updateChosenDofs`: the timer-gated reset or rotation of the chosen
        DoFs, slot by slot in place. */
    method UpdateChosenDofs(force: bool, now: int)
      requires Ready(Rotation(), numAdaptiveDofs, force)
      modifies this`chosenDofs, this`resetChosenDofs, this`chosenDofTimer
      ensures Rotation() == UpdateChosen(old(Rotation()), numAdaptiveDofs, force, now)
    {
      if force || now - chosenDofTimer > CHOSEN_DOF_UPDATE_TIME {
        chosenDofTimer := now;
        if resetChosenDofs {
          resetChosenDofs := false;
          var newChosenDofs := Canonical(numAdaptiveDofs);
          if force || !IsCanonicalPrefix(chosenDofs, numAdaptiveDofs) {
            chosenDofs := newChosenDofs;
            return;
          }
        }
        ghost var c0 := chosenDofs;
        var i := 0;
        while i < |chosenDofs|
          invariant 0 <= i <= |chosenDofs| == |c0|
          invariant DistinctInRange(chosenDofs)
          invariant RotateFrom(chosenDofs, i) == Rotated(c0)
          invariant !resetChosenDofs && chosenDofTimer == now
        {
          var v := NextFreeSlot(chosenDofs, i);
          ReplacedKeepsDistinct(chosenDofs, i, v);
          chosenDofs := chosenDofs[i := v];
          i := i + 1;
        }
      }
    }

    /** The `while (chosenDofs.includes(v))` search for slot `i`: step
        cyclically from the slot's index until an index not present is met. */
    static method NextFreeSlot(c: seq<nat>, i: nat) returns (v: nat)
      requires DistinctInRange(c) && |c| < NUM_DOFS && i < |c|
      ensures v == NextFree(c, c[i])
    {
      var s := c[i];
      assert s in c;
      FreeAhead(c, s);
      v := s;
      ghost var k := 0;
      while v in c
        invariant 0 <= k <= 3 && v == (s + k) % 4
        invariant k >= 2 ==> (s + 1) % 4 in c
        invariant k >= 3 ==> (s + 2) % 4 in c
        decreases 3 - k
      {
        v := (v + 1) % NUM_DOFS;
        k := k + 1;
      }
    }

    /** `keyDown_specialButtons`: "q" resets the chosen DoFs to the canonical
        binding, "e" cancels a pending reset and rotates them once. */
    method KeyDownSpecialButtons(key: string, now: int) returns (consumed: bool)
      requires Valid()
      modifies this`chosenDofs, this`resetChosenDofs, this`chosenDofTimer
      ensures Valid()
      ensures consumed <==> key == "q" || key == "e"
      ensures key == "q" ==> Rotation() == RotationState(Canonical(numAdaptiveDofs), false, now)
      ensures key == "e" ==> Rotation() == RotationState(Rotated(old(chosenDofs)), false, now)
      ensures !consumed ==> Rotation() == old(Rotation())
    {
      if key == "q" {
        resetChosenDofs := true;
        UpdateChosenDofs(true, now);
        UpdateChosenKeepsInvariant(old(Rotation()).(reset := true), numAdaptiveDofs, true, now);
        return true;
      } else if key == "e" {
        resetChosenDofs := false;
        UpdateChosenDofs(true, now);
        UpdateChosenKeepsInvariant(old(Rotation()).(reset := false), numAdaptiveDofs, true, now);
        return true;
      }
      return false;
    }


    /** `keyPressed`: mark the key held, handle the special keys, and report
        whether the key is bound to anything. */
    method KeyPressed(key: string, now: int) returns (consumeKey: bool)
      requires Valid()
      modifies this`keysPressed, this`chosenDofs, this`resetChosenDofs, this`chosenDofTimer
      ensures Valid()
      ensures keysPressed == old(keysPressed)[key := true]
      ensures consumeKey <==> key == "q" || key == "e" || key in adaptiveKeys || key in KEYS_STD || key in KEYS_STD_2
      ensures key == "q" ==> Rotation() == RotationState(Canonical(numAdaptiveDofs), false, now)
      ensures key == "e" ==> Rotation() == RotationState(Rotated(old(chosenDofs)), false, now)
      ensures key != "q" && key != "e" ==> Rotation() == old(Rotation())
    {
      keysPressed := keysPressed[key := true];
      var special := KeyDownSpecialButtons(key, now);
      consumeKey := special;
      var lists := [adaptiveKeys, KEYS_STD, KEYS_STD_2];
      var l := 0;
      while l < |lists|
        invariant 0 <= l <= |lists|
        invariant consumeKey == special
        invariant forall m :: 0 <= m < l ==> key !in lists[m]
      {
        if key in lists[l] {
          consumeKey := true;
          break;
        }
        l := l + 1;
      }
      assert lists[0] == adaptiveKeys && lists[1] == KEYS_STD && lists[2] == KEYS_STD_2;
    }

    /** `keyReleased`. */
    method KeyReleased(key: string)
      modifies this`keysPressed
      ensures keysPressed == old(keysPressed)[key := false]
    {
      keysPressed := keysPressed[key := false];
    }

    /** The gripper's part of `handleJoystickInput`: a connected gamepad's
        reading passes through the dead zone into `joystickInput`; without a
        gamepad the input is cleared. */
    method HandleJoystick(pad: Option<Gamepad>)
      requires Valid()
      requires pad.Some? ==> |pad.value.axes| >= 3
      modifies this`joystickInput
      ensures Valid()
      ensures joystickInput == if pad.None? then None
        else Some(JoystickInput(pad.value.axes, pad.value.leftTrigger, pad.value.rightTrigger))
      ensures joystickInput.Some? ==> forall i :: 0 <= i < 4 ==>
        Abs(joystickInput.value[i]) <= 1.0 && (joystickInput.value[i] == 0.0 || Abs(joystickInput.value[i]) >= 0.01)
    {
      if pad.Some? {
        joystickInput := Some(JoystickInput(pad.value.axes, pad.value.leftTrigger, pad.value.rightTrigger));
      } else {
        joystickInput := None;
      }
    }

    /** `anyAdaptiveKeyPressed`. */
    method AnyAdaptiveKeyPressed() returns (pressed: bool)
      requires Valid()
      ensures pressed == AdaptiveActive(keysPressed, adaptiveKeys, joystickInput, numAdaptiveDofs)
    {
      var i := 0;
      while i < |adaptiveKeys|
        invariant 0 <= i <= |adaptiveKeys|
        invariant forall m :: 0 <= m < i ==> !Held(keysPressed, adaptiveKeys[m])
      {
        if Held(keysPressed, adaptiveKeys[i]) {
          return true;
        }
        i := i + 1;
      }
      if joystickInput.Some? {
        var joy := joystickInput.value;
        i := 0;
        while i < numAdaptiveDofs
          invariant 0 <= i <= numAdaptiveDofs
          invariant forall m :: 0 <= m < i ==> joy[m] == 0.0
        {
          if joy[i] != 0.0 {
            return true;
          }
          i := i + 1;
        }
      }
      return false;
    }

    /** The adaptive-key loop of `update`: each held "+" key adds the DoF
        vector of its axis, each held "-" key subtracts it. */
    method AdaptiveKeyVelocity() returns (v: Vec)
      requires Valid()
      ensures forall j :: 0 <= j < 4 ==>
        v[j] == KeySum(keysPressed, adaptiveKeys, ChosenVectors(dofs, chosenDofs), j, numAdaptiveDofs)
    {
      ghost var vs := ChosenVectors(dofs, chosenDofs);
      v := ZERO;
      var i := 0;
      while i < |adaptiveKeys| / 2
        invariant 0 <= i <= numAdaptiveDofs
        invariant forall j :: 0 <= j < 4 ==> v[j] == KeySum(keysPressed, adaptiveKeys, vs, j, i)
      {
        if Held(keysPressed, adaptiveKeys[2 * i]) {
          v := AddVec(v, dofs[chosenDofs[i]]);
        }
        if Held(keysPressed, adaptiveKeys[2 * i + 1]) {
          v := SubVec(v, dofs[chosenDofs[i]]);
        }
        i := i + 1;
      }
    }

    /** The joystick loop of `update` with the adaptive model: axis `i` of the
        joystick weights the DoF vector bound to adaptive axis `i`. */
    method JoystickVelocity(base: Vec, joy: Vec) returns (v: Vec)
      requires Valid()
      ensures forall j :: 0 <= j < 4 ==>
        v[j] == base[j] + JoySum(joy, ChosenVectors(dofs, chosenDofs), j, numAdaptiveDofs)
    {
      ghost var vs := ChosenVectors(dofs, chosenDofs);
      v := base;
      var i := 0;
      while i < numAdaptiveDofs
        invariant 0 <= i <= numAdaptiveDofs
        invariant forall j :: 0 <= j < 4 ==> v[j] == base[j] + JoySum(joy, vs, j, i)
      {
        var d := dofs[chosenDofs[i]];
        v := seq(4, j requires 0 <= j < 4 => v[j] + joy[i] * d[j]);
        i := i + 1;
      }
    }

    /** The standard-key loop of `update`: either binding of an axis's "+"
        key adds its unit step, either binding of its "-" key subtracts it. */
    method StdKeyVelocity(base: Vec) returns (v: Vec)
      ensures forall j :: 0 <= j < 4 ==> v[j] == base[j] + StdWeight(keysPressed, j)
    {
      v := base;
      var i := 0;
      while i < 4
        invariant 0 <= i <= 4
        invariant forall j :: 0 <= j < 4 ==> v[j] == base[j] + (if j < i then StdWeight(keysPressed, j) else 0.0)
      {
        if Held(keysPressed, KEYS_STD[2 * i]) || Held(keysPressed, KEYS_STD_2[2 * i]) {
          v := AddVec(v, Unit(i));
        }
        if Held(keysPressed, KEYS_STD[2 * i + 1]) || Held(keysPressed, KEYS_STD_2[2 * i + 1]) {
          v := SubVec(v, Unit(i));
        }
        i := i + 1;
      }
    }

    /** The velocity part of `update`: adaptive keys (with the model), then
        the joystick, then the standard keys. */
    method LocalVelocity(useModel: bool) returns (v: Vec)
      requires Valid()
      ensures v == Velocity(keysPressed, adaptiveKeys, joystickInput, useModel, ChosenVectors(dofs, chosenDofs))
    {
      v := ZERO;
      if useModel {
        v := AdaptiveKeyVelocity();
      }
      if joystickInput.Some? {
        if useModel {
          v := JoystickVelocity(v, joystickInput.value);
        } else {
          v := AddVec(v, joystickInput.value);
        }
      }
      v := StdKeyVelocity(v);
      ghost var spec := Velocity(keysPressed, adaptiveKeys, joystickInput, useModel, ChosenVectors(dofs, chosenDofs));
      assert forall j :: 0 <= j < 4 ==> v[j] == spec[j];
    }

    /** `scaleVelocityVector`: clamp the planar part of `vector` in place and
        return the speed-scaled command. */
    static method ScaleVelocityVector(vector: array<real>, sqrt: real -> real) returns (command: Vec)
      requires vector.Length == 4 && IsSqrt(sqrt)
      modifies vector
      ensures vector[..] == ClampXY(old(vector[..]), ClampNorm(old(vector[..]), sqrt))
      ensures command == SpeedScaled(vector[..])
    {
      ghost var v0: Vec := vector[..];
      var normSquared := vector[0] * vector[0] + vector[1] * vector[1];
      assert normSquared == XYNormSq(v0);
      if normSquared > 1.0 {
        var norm := sqrt(normSquared);
        assert norm == ClampNorm(v0, sqrt) && norm > 0.0 by {
          assert normSquared == XYNormSq(v0) > 1.0;
        }
        var x, y := vector[0] / norm, vector[1] / norm;
        vector[0] := x;
        vector[1] := y;
        assert vector[..] == [x, y, v0[2], v0[3]];
      } else {
        assert vector[..] == v0;
      }
      command := [vector[0] * SPEED_PER_DIM[0], vector[1] * SPEED_PER_DIM[1],
                  vector[2] * SPEED_PER_DIM[2], vector[3] * SPEED_PER_DIM[3]];
      assert command == SpeedScaled(vector[..]);
    }

    /** The keepOrientation loop: the candidate at each selected index is
        multiplied by the sign recorded for its slot. The source's `forEach`
        scales the arrays of `newDofs` in place; here each step replaces one
        entry of the sequence `nd`. */
    static method Orient(newDofs: DofSet, perm: seq<nat>, table: seq<seq<Match>>) returns (nd: DofSet)
      requires |perm| <= |table| && WellFormed(table) && DistinctInRange(perm)
      ensures nd == Oriented(newDofs, perm, table)
    {
      nd := newDofs;
      var i := 0;
      while i < |perm|
        invariant 0 <= i <= |perm|
        invariant forall k :: 0 <= k < 4 ==>
          nd[k] == if k in perm[..i] then Scale(newDofs[k], table[IndexOf(perm, k)][k].sign) else newDofs[k]
      {
        assert perm[i] in perm && IndexOf(perm, perm[i]) == i;
        assert perm[..i + 1] == perm[..i] + [perm[i]];
        nd := nd[perm[i] := Scale(nd[perm[i]], table[i][perm[i]].sign)];
        i := i + 1;
      }
      assert perm[..i] == perm;
    }

    /** The computing part of `storeMostSimilarChosenDofs`: the distance
        table, the closest binding, and the sign loop over the new set. */
    static method MatchDofs(dofs: DofSet, chosen: seq<nat>, newDofs: DofSet, tracking: TrackingMode, policy: SignPolicy)
      returns (newChosen: seq<nat>, nd: DofSet)
      requires 1 <= |chosen| <= 2 && DistinctInRange(chosen)
      ensures (newChosen, nd) == Matched(dofs, chosen, newDofs, tracking, policy)
    {
      var table := DistanceTable(ChosenVectors(dofs, chosen), newDofs);
      var perm := BestPermutation(table, |chosen|);
      newChosen := chosen;
      if tracking == TrackDofs {
        newChosen := perm;
      }
      nd := newDofs;
      if policy == KeepOrientation {
        nd := Orient(nd, perm, table);
      } else if policy == LargestComponent {
        nd := seq(4, k requires 0 <= k < 4 => Upright(nd[k]));
      }
    }

    /** `storeMostSimilarChosenDofs`: match the chosen DoFs against the new
        set, re-bind them when tracking, fix the signs, store the new set. */
    method StoreMostSimilarChosenDofs(newDofs: DofSet, newEigVals: Vec, tracking: TrackingMode, policy: SignPolicy)
      requires Valid()
      modifies this`chosenDofs, this`dofs, this`eigVals
      ensures Valid()
      ensures (chosenDofs, dofs) == Matched(old(dofs), old(chosenDofs), newDofs, tracking, policy)
      ensures eigVals == newEigVals
    {
      var c, d := MatchDofs(dofs, chosenDofs, newDofs, tracking, policy);
      assert |c| == numAdaptiveDofs && DistinctInRange(c);
      chosenDofs, dofs, eigVals := c, d, newEigVals;
    }

    /** The response callback of a request: unless updates are held back
        while the operator steers, store the matched DoFs and clear the
        in-flight flag. */
    method OnResponse(newDofs: DofSet, newEigVals: Vec, cfg: Config)
      requires Valid() && pending > 0
      modifies this`chosenDofs, this`dofs, this`eigVals, this`requestRunning, this`pending
      ensures Valid() && pending == old(pending) - 1
      ensures var held := cfg.tracking == UpdateDofsOnlyIdle
        && AdaptiveActive(keysPressed, adaptiveKeys, joystickInput, numAdaptiveDofs);
        && (held ==> dofs == old(dofs) && eigVals == old(eigVals) && chosenDofs == old(chosenDofs)
                     && requestRunning == old(requestRunning))
        && (!held ==> && (chosenDofs, dofs) == Matched(old(dofs), old(chosenDofs), newDofs, cfg.tracking, cfg.signPolicy)
                      && eigVals == newEigVals && !requestRunning)
      ensures cfg.tracking != UpdateDofsOnlyIdle && old(InFlightConsistent()) ==> InFlightConsistent()
    {
      var active := AnyAdaptiveKeyPressed();
      if !(cfg.tracking == UpdateDofsOnlyIdle && active) {
        StoreMostSimilarChosenDofs(newDofs, newEigVals, cfg.tracking, cfg.signPolicy);
        requestRunning := false;
      }
      pending := pending - 1;
    }

    /** The head of `update`: follow a change of the number of adaptive axes
        selected by resetting to the canonical binding. */
    method SyncNumDofs(n: nat, now: int)
      requires Valid() && 1 <= n <= 2
      modifies this`numAdaptiveDofs, this`adaptiveKeys, this`chosenDofs, this`resetChosenDofs, this`chosenDofTimer
      ensures Valid() && numAdaptiveDofs == n
      ensures Rotation() == if old(numAdaptiveDofs) != n then RotationState(Canonical(n), false, now) else old(Rotation())
    {
      if numAdaptiveDofs != n {
        numAdaptiveDofs := n;
        adaptiveKeys := ADAPTIVE_KEYS_ORIGIN[..numAdaptiveDofs * 2];
        resetChosenDofs := true;
        UpdateChosenDofs(true, now);
        CanonicalIsValid(n);
      }
    }

    /** The request part of `update`: send the package of the selected model
        and state tail unless one is in flight, no model is selected, or it
        equals the last package sent. */
    method SendRequestIfChanged(model: string, tail: seq<real>) returns (sent: Option<Request>)
      modifies this`lastRequestPkg, this`requestRunning, this`pending
      ensures sent.Some? <==> ShouldSend(old(requestRunning), model, tail, old(lastRequestPkg))
      ensures sent.Some? ==> && sent.value == Request(model, tail) && lastRequestPkg == sent.value
                             && requestRunning && pending == old(pending) + 1
      ensures sent.None? ==> && lastRequestPkg == old(lastRequestPkg)
                             && requestRunning == old(requestRunning) && pending == old(pending)
    {
      sent := None;
      if !requestRunning && model != "" {
        var pkg := Request(model, tail);
        if !SameAsLast(pkg, lastRequestPkg) {
          lastRequestPkg := pkg;
          requestRunning := true;
          pending := pending + 1;
          sent := Some(pkg);
        }
      }
    }

    /** The idle/active policy of `update`: when idle, release the in-flight
        flag under updateDofsOnlyIdle and let the idle timer rotate the chosen
        DoFs under auto-switch; when active, restart the idle timer and ask
        for a reset to the canonical binding. */
    method ApplyIdlePolicy(active: bool, tracking: TrackingMode, autoSwitch: bool, now: int)
      requires Valid()
      modifies this`requestRunning, this`chosenDofs, this`resetChosenDofs, this`chosenDofTimer
      ensures Valid()
      ensures active ==> Rotation() == old(Rotation()).(reset := true, timer := now)
      ensures requestRunning == (old(requestRunning) && (active || tracking != UpdateDofsOnlyIdle))
      ensures !active && autoSwitch ==> Rotation() == UpdateChosen(old(Rotation()), numAdaptiveDofs, false, now)
      ensures !active && !autoSwitch ==> Rotation() == old(Rotation())
    {
      if !active {
        if tracking == UpdateDofsOnlyIdle {
          requestRunning := false;
        }
        if autoSwitch {
          ghost var before := Rotation();
          UpdateChosenDofs(false, now);
          UpdateChosenKeepsInvariant(before, numAdaptiveDofs, false, now);
        }
      } else {
        chosenDofTimer := now;
        resetChosenDofs := true;
      }
    }

    /** The motion part of `update`: compute and cache the local velocity,
        turn it into world coordinates and clamp and scale it into the motor
        command. */
    method Move(useModel: bool, toWorld: (real, real) -> (real, real), sqrt: real -> real) returns (command: Vec)
      requires Valid() && IsSqrt(sqrt)
      modifies this`velocity
      ensures velocity == Velocity(keysPressed, adaptiveKeys, joystickInput, useModel, ChosenVectors(dofs, chosenDofs))
      ensures command == Command(velocity, toWorld, sqrt)
    {
      var v := LocalVelocity(useModel);
      velocity := v;
      var w := WorldVelocity(v, toWorld);
      var buffer := new real[4](j requires 0 <= j < 4 => w[j]);
      assert buffer[..] == w;
      command := ScaleVelocityVector(buffer, sqrt);
    }

    /** The adaptive-model part of `update`: maybe send a DoF request, then
        apply the idle/active policy. */
    method Control(cfg: Config, now: int, tail: seq<real>) returns (sent: Option<Request>)
      requires Valid()
      modifies this`lastRequestPkg, this`requestRunning, this`pending,
               this`chosenDofs, this`resetChosenDofs, this`chosenDofTimer
      ensures Valid()
      ensures var active := AdaptiveActive(keysPressed, adaptiveKeys, joystickInput, numAdaptiveDofs);
        && (!cfg.useModel ==> Rotation() == old(Rotation()))
        && (cfg.useModel && active ==> Rotation() == old(Rotation()).(reset := true, timer := now))
        && (cfg.useModel && !active && cfg.autoSwitch ==>
              Rotation() == UpdateChosen(old(Rotation()), numAdaptiveDofs, false, now))
        && (cfg.useModel && !active && !cfg.autoSwitch ==> Rotation() == old(Rotation()))
        && requestRunning == if cfg.useModel && !active && cfg.tracking == UpdateDofsOnlyIdle then false
                             else old(requestRunning) || sent.Some?
      ensures sent.Some? <==> cfg.useModel && ShouldSend(old(requestRunning), cfg.model, tail, old(lastRequestPkg))
      ensures sent.Some? ==> sent.value == Request(cfg.model, tail) && lastRequestPkg == sent.value
      ensures sent.None? ==> lastRequestPkg == old(lastRequestPkg)
      ensures pending == old(pending) + (if sent.Some? then 1 else 0)
    {
      sent := None;
      if cfg.useModel {
        var somethingPressed := AnyAdaptiveKeyPressed();
        sent := SendRequestIfChanged(cfg.model, tail);
        ApplyIdlePolicy(somethingPressed, cfg.tracking, cfg.autoSwitch, now);
      }
    }

    /** The control part of `update` for one tick at time `now`. The request
        sent, if any, and the motor command are returned. */
    method Update(cfg: Config, now: int, target: (real, real), box0: Pose, box1: Pose,
                  toWorld: (real, real) -> (real, real), sqrt: real -> real)
      returns (sent: Option<Request>, command: Vec)
      requires Valid() && 1 <= cfg.numDofs <= 2 && IsSqrt(sqrt)
      modifies this
      ensures Valid() && numAdaptiveDofs == cfg.numDofs
      ensures dofs == old(dofs) && eigVals == old(eigVals)
      ensures keysPressed == old(keysPressed) && joystickInput == old(joystickInput)
      ensures var synced := if old(numAdaptiveDofs) != cfg.numDofs
          then RotationState(Canonical(cfg.numDofs), false, now) else old(Rotation());
        var active := AdaptiveActive(keysPressed, adaptiveKeys, joystickInput, numAdaptiveDofs);
        && (!cfg.useModel ==> Rotation() == synced)
        && (cfg.useModel && active ==> Rotation() == synced.(reset := true, timer := now))
        && (cfg.useModel && !active && cfg.autoSwitch ==> Rotation() == UpdateChosen(synced, cfg.numDofs, false, now))
        && (cfg.useModel && !active && !cfg.autoSwitch ==> Rotation() == synced)
        && requestRunning == if cfg.useModel && !active && cfg.tracking == UpdateDofsOnlyIdle then false
                             else old(requestRunning) || sent.Some?
      ensures var pkg := Request(cfg.model, StateTail(target, box0, box1));
        && (sent.Some? <==> cfg.useModel && ShouldSend(old(requestRunning), cfg.model, pkg.state, old(lastRequestPkg)))
        && (sent.Some? ==> sent.value == pkg && lastRequestPkg == pkg)
        && (sent.None? ==> lastRequestPkg == old(lastRequestPkg))
      ensures pending == old(pending) + (if sent.Some? then 1 else 0)
      ensures cfg.tracking != UpdateDofsOnlyIdle && old(InFlightConsistent()) ==> InFlightConsistent()
      ensures velocity == Velocity(keysPressed, adaptiveKeys, joystickInput, cfg.useModel, ChosenVectors(dofs, chosenDofs))
      ensures command == Command(velocity, toWorld, sqrt)
    {
      SyncNumDofs(cfg.numDofs, now);
      sent := Control(cfg, now, State(velocity, target, box0, box1)[4..]);
      command := Move(cfg.useModel, toWorld, sqrt);
    }
  }

  /** Under updateDofsOnlyIdle every idle tick releases the in-flight flag,
      so two idle ticks that see different states send two requests while the
      first is still unanswered. */
  method IdleTicksSendTwoRequests(toWorld: (real, real) -> (real, real), sqrt: real -> real)
    returns (g: Gripper, first: Option<Request>, second: Option<Request>)
    requires IsSqrt(sqrt)
    ensures first.Some? && second.Some? && first != second
    ensures g.pending == 2 && !g.requestRunning
  {
    g := new Gripper(1, 0, sqrt);
    var cfg := Config(1, true, "model", UpdateDofsOnlyIdle, false, KeepOrientation);
    var box := Pose(0.0, 0.0, 0.0);
    assert !AdaptiveActive(g.keysPressed, g.adaptiveKeys, g.joystickInput, g.numAdaptiveDofs);
    var command;
    first, command := g.Update(cfg, 10, (1.0, 0.0), box, box, toWorld, sqrt);
    assert !AdaptiveActive(g.keysPressed, g.adaptiveKeys, g.joystickInput, g.numAdaptiveDofs);
    second, command := g.Update(cfg, 20, (2.0, 0.0), box, box, toWorld, sqrt);
  }
}
