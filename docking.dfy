/**
 Model of the docking alignment latch (components/DockingMechanism.tsx): the
 smoothed scroll progress is mapped to a rotation, an opacity and a scale; each
 rotation change re-evaluates the alignment window until the alignment is
 confirmed; confirming freezes the rotation at 90 degrees and schedules one
 deferred advance to the next section. The spring smoothing is not modelled:
 the smoothed progress is an arbitrary real.
 */
module Docking {
  import opened Options
  import opened Mapper

  // ---------------------------------------------------------------------------
  // Breakpoint maps of the smoothed progress
  // ---------------------------------------------------------------------------

  /** `rotate`: progress [0, 1] onto [0, 180] degrees, clamped outside. */
  function Rotate(p: real): (r: real)
    ensures 0.0 <= r <= 180.0
    ensures 0.0 <= p <= 1.0 ==> r == 180.0 * p
    ensures p <= 0.0 ==> r == 0.0
    ensures p >= 1.0 ==> r == 180.0
  {
    assert Table([0.0, 1.0], [0.0, 180.0]);
    assert Least([0.0, 180.0]) == 0.0 && Greatest([0.0, 180.0]) == 180.0;
    Interpolate(p, [0.0, 1.0], [0.0, 180.0])
  }

  /** `opacity`: fades in over [0, 0.1], holds 1 over [0.1, 0.9], fades out over [0.9, 1]. */
  function Opacity(p: real): (o: real)
    ensures 0.0 <= o <= 1.0
    ensures 0.1 <= p <= 0.9 ==> o == 1.0
    ensures p <= 0.0 || p >= 1.0 ==> o == 0.0
    ensures 0.0 <= p <= 0.1 ==> o == 10.0 * p
    ensures 0.9 <= p <= 1.0 ==> o == 10.0 * (1.0 - p)
  {
    var xs, ys := [0.0, 0.1, 0.9, 1.0], [0.0, 1.0, 1.0, 0.0];
    assert Table(xs, ys);
    assert Least(ys) == 0.0 && Greatest(ys) == 1.0;
    Interpolate(p, xs, ys)
  }

  /** `scale`: 0.8 at both ends, 1 at the midpoint, linear in between. */
  function Scale(p: real): (s: real)
    ensures 0.8 <= s <= 1.0
    ensures s == 1.0 <==> p == 0.5
    ensures p <= 0.0 || p >= 1.0 ==> s == 0.8
  {
    var xs, ys := [0.0, 0.5, 1.0], [0.8, 1.0, 0.8];
    assert Table(xs, ys);
    assert Least(ys) == 0.8 && Greatest(ys) == 1.0;
    Interpolate(p, xs, ys)
  }

  // ---------------------------------------------------------------------------
  // Alignment latch
  // ---------------------------------------------------------------------------

  /** The alignment test of the change handler: within 5 degrees of the target angle, bounds excluded. */
  predicate InWindow(r: real)
    ensures InWindow(r) <==> -5.0 < r - FrozenAngle < 5.0
  {
    85.0 < r < 95.0
  }

  /** The rotation is in the window exactly for progress strictly between 17/36 and 19/36. */
  lemma WindowInProgress(p: real)
    ensures InWindow(Rotate(p)) <==> 17.0 / 36.0 < p < 19.0 / 36.0
  {
  }

  /** The rotation the latch freezes at on confirmation. */
  const FrozenAngle: real := 90.0

  /** `locked`, `confirmed`, `frozenRotation`, and how many deferred advances were scheduled. */
  datatype Dock = Dock(locked: bool, confirmed: bool, frozen: Option<real>, advances: nat)

  /**
   Reachable-state invariant: confirmation implies alignment, a frozen value
   exists exactly once confirmed and is 90, and exactly one advance was
   scheduled once confirmed (none before).
   */
  predicate Consistent(d: Dock)
  {
    && (d.confirmed ==> d.locked)
    && (d.confirmed <==> d.frozen.Some?)
    && (d.frozen.Some? ==> d.frozen.value == FrozenAngle)
    && d.advances == (if d.confirmed then 1 else 0)
  }

  /** The mounted component. */
  function Initial(): (d: Dock)
    ensures Consistent(d) && !d.locked && !d.confirmed
  {
    Dock(false, false, None, 0)
  }

  /** The `change` handler of `rotate`, given the latest rotation. */
  function RotationChanged(d: Dock, latest: real): (r: Dock)
    ensures Consistent(d) ==> Consistent(r)
  {
    if d.confirmed then d else d.(locked := InWindow(latest))
  }

  /** `handleConfirmAlignment`. */
  function Confirm(d: Dock): (r: Dock)
    ensures Consistent(d) ==> Consistent(r)
  {
    if d.locked && !d.confirmed then
      d.(confirmed := true, frozen := Some(FrozenAngle), advances := d.advances + 1)
    else d
  }

  /** Confirm acts exactly when aligned and not yet confirmed, and a second confirm does nothing. */
  lemma ConfirmEffect(d: Dock)
    ensures Confirm(d) != d <==> d.locked && !d.confirmed
    ensures Confirm(Confirm(d)) == Confirm(d)
    ensures d.locked && !d.confirmed ==>
      Confirm(d).confirmed && Confirm(d).frozen == Some(90.0) && Confirm(d).advances == d.advances + 1
  {
  }

  /** No hysteresis: before confirmation the latch depends on the latest rotation only. */
  lemma LatchIsMemoryless(d1: Dock, d2: Dock, latest: real)
    requires !d1.confirmed && !d2.confirmed
    ensures RotationChanged(d1, latest).locked == RotationChanged(d2, latest).locked == InWindow(latest)
  {
  }

  /** `displayRotation`: the frozen value once confirmed, otherwise the live rotation. */
  function DisplayRotation(d: Dock, p: real): (r: real)
    ensures Consistent(d) && d.confirmed ==> r == 90.0
    ensures !d.confirmed ==> r == Rotate(p)
  {
    if d.confirmed && d.frozen.Some? then d.frozen.value else Rotate(p)
  }

  /** A rotation update delivered by scroll, or a press of the confirm button. */
  datatype DockEvent = Rotation(angle: real) | ConfirmPress

  function Step(d: Dock, e: DockEvent): Dock
  {
    match e
    case Rotation(a) => RotationChanged(d, a)
    case ConfirmPress => Confirm(d)
  }

  function Run(d: Dock, evs: seq<DockEvent>): Dock
    decreases |evs|
  {
    if evs == [] then d else Run(Step(d, evs[0]), evs[1..])
  }

  /** The latch value after each event: entry i is the latch once the first i + 1 events have run. */
  function LockTrace(d: Dock, evs: seq<DockEvent>): (t: seq<bool>)
    ensures |t| == |evs|
    ensures forall i :: 0 <= i < |evs| ==> t[i] == Run(d, evs[..i + 1]).locked
    decreases |evs|
  {
    if evs == [] then []
    else
      var d' := Step(d, evs[0]);
      assert forall i :: 0 <= i < |evs| ==> evs[..i + 1][1..] == evs[1..][..i];
      [d'.locked] + LockTrace(d', evs[1..])
  }

  /** The invariant holds in every state reachable by rotation updates and confirm presses. */
  lemma {:induction false} RunPreservesConsistent(d: Dock, evs: seq<DockEvent>)
    requires Consistent(d)
    ensures Consistent(Run(d, evs))
    decreases |evs|
  {
    if evs != [] {
      RunPreservesConsistent(Step(d, evs[0]), evs[1..]);
    }
  }

  /** Confirmed is terminal: once confirmed, no sequence of events changes anything. */
  lemma {:induction false} ConfirmedIsTerminal(d: Dock, evs: seq<DockEvent>)
    requires d.confirmed
    ensures Run(d, evs) == d
    decreases |evs|
  {
    if evs != [] {
      ConfirmedIsTerminal(Step(d, evs[0]), evs[1..]);
    }
  }

  /** Once confirmed, the displayed rotation stays 90 whatever the later events and progress. */
  lemma FrozenAfterConfirm(d: Dock, evs: seq<DockEvent>, p: real)
    requires Consistent(d) && d.confirmed
    ensures Run(d, evs).confirmed && DisplayRotation(Run(d, evs), p) == 90.0
  {
    ConfirmedIsTerminal(d, evs);
  }

  /**
   The rotations 84, 86, 84 give the latch values false, true, false: the
   latch sets on entering the window and clears again on leaving it.
   */
  lemma NoHysteresisExample()
    ensures LockTrace(Initial(), [Rotation(84.0), Rotation(86.0), Rotation(84.0)]) == [false, true, false]
    ensures Run(Initial(), [Rotation(84.0), Rotation(86.0)]).locked
    ensures !Run(Initial(), [Rotation(84.0), Rotation(86.0), Rotation(84.0)]).locked
  {
    var evs := [Rotation(84.0), Rotation(86.0), Rotation(84.0)];
    assert evs[..2] == [Rotation(84.0), Rotation(86.0)];
    assert evs[..3] == evs;
    var t := LockTrace(Initial(), evs);
    assert t[1] == Run(Initial(), evs[..2]).locked;
    assert t[2] == Run(Initial(), evs[..3]).locked;
  }

  // ---------------------------------------------------------------------------
  // HUD labels
  // ---------------------------------------------------------------------------

  datatype RpmMatch = RpmLocked | Adjusting
  datatype TLock = Confirmed | Engaged | Pending

  /** The RPM_MATCH readout: in a consistent state, LOCKED exactly when the latch is set. */
  function RpmMatchLabel(d: Dock): (r: RpmMatch)
    ensures Consistent(d) ==> (r == RpmLocked <==> d.locked)
  {
    if d.locked || d.confirmed then RpmLocked else Adjusting
  }

  /**
   The T-LOCK readout: ENGAGED exactly while the confirm button is on screen,
   CONFIRMED exactly while the docking message is.
   */
  function TLockLabel(d: Dock): (r: TLock)
    ensures r == Engaged <==> ShowsConfirmButton(d)
    ensures r == Confirmed <==> ShowsDockingInitiated(d)
  {
    if d.confirmed then Confirmed else if d.locked then Engaged else Pending
  }

  /** Whether the CONFIRM ALIGNMENT button is rendered: exactly when pressing it changes the state. */
  predicate ShowsConfirmButton(d: Dock)
    ensures ShowsConfirmButton(d) <==> Confirm(d) != d
  {
    d.locked && !d.confirmed
  }

  /**
   Whether DOCKING SEQUENCE INITIATED is rendered: in a consistent state,
   exactly when the page advance has been scheduled, and a further confirm
   does nothing once it is.
   */
  predicate ShowsDockingInitiated(d: Dock)
    ensures Consistent(d) ==> (ShowsDockingInitiated(d) <==> d.advances == 1)
    ensures ShowsDockingInitiated(d) ==> Confirm(d) == d
  {
    d.confirmed
  }

  /**
   The readouts agree with each other and with the latch: RPM_MATCH reads
   LOCKED exactly when T-LOCK is not PENDING, the confirm button is on screen
   exactly when pressing it would change the state, and in a consistent state
   RPM_MATCH reads LOCKED exactly when the latch is set.
   */
  lemma LabelsAgree(d: Dock)
    ensures RpmMatchLabel(d) == RpmLocked <==> TLockLabel(d) != Pending
    ensures ShowsConfirmButton(d) <==> Confirm(d) != d
    ensures TLockLabel(d) == Confirmed <==> ShowsDockingInitiated(d)
    ensures !(ShowsConfirmButton(d) && ShowsDockingInitiated(d))
    ensures Consistent(d) ==> (RpmMatchLabel(d) == RpmLocked <==> d.locked)
  {
    ConfirmEffect(d);
  }

  // ---------------------------------------------------------------------------
  // The component
  // ---------------------------------------------------------------------------

  class DockingMechanism {
    var locked: bool
    var confirmed: bool
    var frozenRotation: Option<real>
    /** Number of deferred advances handed to the timer. */
    var advancesScheduled: nat

    function State(): Dock
      reads this
    {
      Dock(locked, confirmed, frozenRotation, advancesScheduled)
    }

    ghost predicate Valid()
      reads this
    {
      Consistent(State())
    }

    constructor ()
      ensures Valid() && State() == Initial()
      ensures !locked && !confirmed && frozenRotation == None && advancesScheduled == 0
    {
      locked, confirmed, frozenRotation, advancesScheduled := false, false, None, 0;
    }

    /** The `useMotionValueEvent(rotate, "change", ...)` handler. */
    method OnRotationChange(latest: real)
      requires Valid()
      modifies this
      ensures Valid() && State() == RotationChanged(old(State()), latest)
      ensures locked == (if old(confirmed) then old(locked) else InWindow(latest))
      ensures confirmed == old(confirmed) && frozenRotation == old(frozenRotation)
      ensures advancesScheduled == old(advancesScheduled)
    {
      if confirmed {
        return;
      }
      if latest > 85.0 && latest < 95.0 {
        locked := true;
      } else {
        locked := false;
      }
    }

    /** `handleConfirmAlignment`; the deferred advance is recorded, not run. */
    method ConfirmAlignment()
      requires Valid()
      modifies this
      ensures Valid() && State() == Confirm(old(State()))
      ensures old(locked && !confirmed) ==>
        confirmed && frozenRotation == Some(FrozenAngle) && advancesScheduled == old(advancesScheduled) + 1
      ensures !old(locked && !confirmed) ==> State() == old(State())
      ensures locked == old(locked)
    {
      if locked && !confirmed {
        confirmed := true;
        frozenRotation := Some(FrozenAngle);
        advancesScheduled := advancesScheduled + 1;
      }
    }

    /** The rotation shown for the smoothed progress p. */
    function Displayed(p: real): (r: real)
      reads this
      requires Valid()
      ensures confirmed ==> r == 90.0
      ensures !confirmed ==> r == Rotate(p)
    {
      DisplayRotation(State(), p)
    }
  }
}
