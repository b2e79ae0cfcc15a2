/** The chosen-DoF bookkeeping of the gripper: which of the four candidate
    DoF vectors are bound to the adaptive input axes, and how that binding is
    rotated or reset when the user has been idle. */
module DofRotation {
  import opened Vectors

  /** Idle time (ms) after which the chosen DoFs are advanced. */
  const CHOSEN_DOF_UPDATE_TIME: int := 5000

  /** The index invariant: distinct indices into the DoF set. */
  predicate DistinctInRange(c: seq<nat>)
  {
    && (forall i :: 0 <= i < |c| ==> c[i] < NUM_DOFS)
    && (forall i, j :: 0 <= i < j < |c| ==> c[i] != c[j])
  }

  /** The canonical binding [0, 1, ..., n-1]. */
  function Canonical(n: nat): (c: seq<nat>)
    ensures |c| == n && forall i :: 0 <= i < n ==> c[i] == i
  {
    seq(n, i => i)
  }

  /** The source's elementwise check that `c` already holds the canonical
      binding for `n` axes (entries past the end of `c` never match). */
  predicate IsCanonicalPrefix(c: seq<nat>, n: nat)
  {
    forall i :: 0 <= i < n ==> i < |c| && c[i] == i
  }

  lemma CanonicalIsValid(n: nat)
    requires n <= NUM_DOFS
    ensures DistinctInRange(Canonical(n)) && IsCanonicalPrefix(Canonical(n), n)
  {
  }

  /** Pigeonhole: fewer than four distinct indices leave one of the three
      cyclic successors of a chosen index free. */
  lemma FreeAhead(c: seq<nat>, s: nat)
    requires DistinctInRange(c) && |c| < NUM_DOFS && s in c
    ensures (s + 1) % 4 !in c || (s + 2) % 4 !in c || (s + 3) % 4 !in c
  {
  }

  /** The first index after `s`, cyclically modulo four, that is not in `c`:
      where the source's `while (chosenDofs.includes(v))` loop stops. */
  function NextFree(c: seq<nat>, s: nat): (r: nat)
    requires DistinctInRange(c) && |c| < NUM_DOFS && s in c
    ensures r < NUM_DOFS && r !in c
  {
    FreeAhead(c, s);
    if (s + 1) % 4 !in c then (s + 1) % 4
    else if (s + 2) % 4 !in c then (s + 2) % 4
    else (s + 3) % 4
  }

  /** The rotation step from slot `i` on: each slot in turn moves to the next
      index not currently present, slots before `i` already moved. */
  function RotateFrom(c: seq<nat>, i: nat): (r: seq<nat>)
    requires DistinctInRange(c) && |c| < NUM_DOFS
    decreases |c| - i
  {
    if i >= |c| then c
    else
      var v := NextFree(c, c[i]);
      ReplacedKeepsDistinct(c, i, v);
      RotateFrom(c[i := v], i + 1)
  }

  /** One full rotation step over every chosen slot. */
  function Rotated(c: seq<nat>): (r: seq<nat>)
    requires DistinctInRange(c) && |c| < NUM_DOFS
  {
    RotateFrom(c, 0)
  }

  /** Writing a value not already present keeps the indices distinct. */
  lemma ReplacedKeepsDistinct(c: seq<nat>, i: nat, v: nat)
    requires DistinctInRange(c) && i < |c| && v < NUM_DOFS && v !in c
    ensures DistinctInRange(c[i := v])
  {
    var c' := c[i := v];
    forall a, b | 0 <= a < b < |c'|
      ensures c'[a] != c'[b]
    {
      if a == i {
        assert c[b] in c;
      } else if b == i {
        assert c[a] in c;
      }
    }
  }

  lemma {:induction false} RotateFromProperties(c0: seq<nat>, c: seq<nat>, i: nat)
    requires DistinctInRange(c) && |c| < NUM_DOFS && |c| == |c0| && i <= |c|
    requires forall k :: i <= k < |c| ==> c[k] == c0[k]
    requires forall k :: 0 <= k < i ==> c[k] != c0[k]
    ensures |RotateFrom(c, i)| == |c0|
    ensures DistinctInRange(RotateFrom(c, i))
    ensures forall k :: 0 <= k < |c0| ==> RotateFrom(c, i)[k] != c0[k]
    decreases |c| - i
  {
    if i < |c| {
      var v := NextFree(c, c[i]);
      ReplacedKeepsDistinct(c, i, v);
      assert c[i] in c;
      RotateFromProperties(c0, c[i := v], i + 1);
    }
  }

  /** The rotation step keeps N distinct indices in range and moves every
      slot to an index different from the one it held. */
  lemma RotatedMovesEverySlot(c: seq<nat>)
    requires DistinctInRange(c) && |c| < NUM_DOFS
    ensures |Rotated(c)| == |c| && DistinctInRange(Rotated(c))
    ensures forall k :: 0 <= k < |c| ==> Rotated(c)[k] != c[k]
  {
    RotateFromProperties(c, c, 0);
  }

  /** The timer-gated part of the gripper's state that `updateChosenDofs` touches. */
  datatype RotationState = RotationState(chosen: seq<nat>, reset: bool, timer: int)

  /** What may be handed to `UpdateChosen`: the index invariant, and a length
      that matches the number of axes unless a forced reset will replace it. */
  predicate Ready(s: RotationState, n: nat, force: bool)
  {
    && 1 <= n < NUM_DOFS
    && DistinctInRange(s.chosen) && |s.chosen| < NUM_DOFS
    && (|s.chosen| == n || (force && s.reset))
  }

  /** The effect of `updateChosenDofs(force)` at time `now` for `n` axes. */
  function UpdateChosen(s: RotationState, n: nat, force: bool, now: int): (r: RotationState)
    requires Ready(s, n, force)
  {
    if !(force || now - s.timer > CHOSEN_DOF_UPDATE_TIME) then s
    else if s.reset && (force || !IsCanonicalPrefix(s.chosen, n)) then
      RotationState(Canonical(n), false, now)
    else
      RotationState(Rotated(s.chosen), false, now)
  }

  /** Every outcome of `UpdateChosen` holds exactly `n` distinct indices in range. */
  lemma UpdateChosenKeepsInvariant(s: RotationState, n: nat, force: bool, now: int)
    requires Ready(s, n, force)
    ensures var r := UpdateChosen(s, n, force, now);
      DistinctInRange(r.chosen) && |r.chosen| == n
  {
    if force || now - s.timer > CHOSEN_DOF_UPDATE_TIME {
      if s.reset && (force || !IsCanonicalPrefix(s.chosen, n)) {
        CanonicalIsValid(n);
      } else {
        RotatedMovesEverySlot(s.chosen);
      }
    }
  }

  /** The timer gate: nothing changes unless forced or more than 5000 ms have
      passed; when it fires the timer is set to `now`, the reset flag is
      cleared, and the binding is either the canonical one or one rotation
      step, the latter exactly when no reset was pending or an unforced reset
      found the binding already canonical. */
  lemma UpdateChosenGate(s: RotationState, n: nat, force: bool, now: int)
    requires Ready(s, n, force)
    ensures var r := UpdateChosen(s, n, force, now);
      && (!force && now - s.timer <= CHOSEN_DOF_UPDATE_TIME ==> r == s)
      && (force || now - s.timer > CHOSEN_DOF_UPDATE_TIME ==>
            && r.timer == now && !r.reset
            && (r.chosen == Canonical(n) || r.chosen == Rotated(s.chosen))
            && (s.reset && force ==> r.chosen == Canonical(n))
            && (s.reset && !force && !IsCanonicalPrefix(s.chosen, n) ==> r.chosen == Canonical(n))
            && (s.reset && !force && IsCanonicalPrefix(s.chosen, n) ==> r.chosen == Rotated(s.chosen))
            && (!s.reset ==> r.chosen == Rotated(s.chosen)))
  {
  }

  /** Idle rotation does not accumulate: once the gate has fired at time `t`,
      further unforced checks within the next 5000 ms change nothing. */
  lemma UpdateChosenNotAccumulated(s: RotationState, n: nat, t: int, t': int)
    requires Ready(s, n, false)
    requires t - s.timer > CHOSEN_DOF_UPDATE_TIME && t <= t' <= t + CHOSEN_DOF_UPDATE_TIME
    ensures var r := UpdateChosen(s, n, false, t);
      Ready(r, n, false) && UpdateChosen(r, n, false, t') == r
  {
    UpdateChosenKeepsInvariant(s, n, false, t);
  }
}
