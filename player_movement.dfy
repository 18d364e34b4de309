/** Movement macros: every macro is a key held for a time, or a fixed
    combination of such holds, emitted on the input device. Turning is by
    time: one second of a held turn key is taken to be 180 degrees. */
module PlayerMovement {
  import opened Py
  import opened Input

  // The key map of the controller.
  const Forward := "w"
  const Backward := "s"
  const StrafeLeftKey := "a"
  const StrafeRightKey := "d"
  const TurnLeftKey := "q"
  const TurnRightKey := "e"
  const JumpKey := "space"
  const SprintKey := "r"
  const FlyKey := "f"

  /** The values of the key map, in the map's order. */
  const KeyValues: seq<string> :=
    [Forward, Backward, StrafeLeftKey, StrafeRightKey, TurnLeftKey, TurnRightKey, JumpKey, SprintKey, FlyKey]

  /** Seconds of turning per degree. */
  function TurnTime(angle: real): real
  {
    angle / 180.0
  }

  /** Heading change over a trace started on an idle keyboard, in degrees,
      clockwise positive. */
  function NetTurn(events: seq<Event>): real
  {
    180.0 * (HeldTime({}, events, TurnRightKey) - HeldTime({}, events, TurnLeftKey))
  }

  //
  // Circle strafe
  //

  /** The strafe key and the turn key of the chosen side. */
  function SideKey(clockwise: bool): string
  {
    if clockwise then StrafeRightKey else StrafeLeftKey
  }

  function TurnKey(clockwise: bool): string
  {
    if clockwise then TurnRightKey else TurnLeftKey
  }

  /** One step of the circle strafe: forward, a strafe and a turn to the chosen
      side, then a pause. */
  function CircleStep(stepDuration: real, turnAngle: real, clockwise: bool): seq<Event>
  {
    Hold(Forward, stepDuration * 0.3)
    + (Hold(SideKey(clockwise), stepDuration * 0.4)
    + (Hold(TurnKey(clockwise), TurnTime(turnAngle))
    + [Slept(stepDuration * 0.3)]))
  }

  /** Ten steps per second of the requested duration, truncated toward zero. */
  function CircleSteps(duration: real): int
  {
    Trunc(duration * 10.0)
  }

  /** The events of circle_strafe_target. With zero steps the step length is
      a division by zero, raised before any key is touched; with a negative
      step count the loop runs no step. */
  function CircleStrafeEvents(duration: real, clockwise: bool): seq<Event>
  {
    var steps := CircleSteps(duration);
    if steps <= 0 then []
    else Repeat(CircleStep(duration / steps as real, 360.0 / steps as real, clockwise), steps)
  }

  function CircleStrafeOutcome(duration: real): Outcome
  {
    if CircleSteps(duration) == 0 then Raised(ZeroDivision) else Done
  }

  //
  // Fixed patterns
  //

  /** kite_enemy: back away, turning left, right twice as far, and left again. */
  function KiteEvents(): seq<Event>
  {
    Hold(Backward, 2.0)
    + (Hold(TurnLeftKey, TurnTime(15.0))
    + (Hold(Backward, 1.0)
    + (Hold(TurnRightKey, TurnTime(30.0))
    + (Hold(Backward, 1.0)
    + Hold(TurnLeftKey, TurnTime(15.0))))))
  }

  /** retreat: back off, turn around, run. */
  function RetreatEvents(): seq<Event>
  {
    Hold(Backward, 3.0) + (Hold(TurnLeftKey, TurnTime(180.0)) + Hold(Forward, 5.0))
  }

  /** A key-up for every key, in order. */
  function Releases(keys: seq<string>): (r: seq<Event>)
    ensures |r| == |keys|
    ensures forall i :: 0 <= i < |keys| ==> r[i] == Up(keys[i])
  {
    seq(|keys|, i requires 0 <= i < |keys| => Up(keys[i]))
  }

  /** rest: release every key of the key map, then pause half a second. */
  function RestEvents(): seq<Event>
  {
    Releases(KeyValues) + [Slept(0.5)]
  }

  //
  // Navigation
  //

  /** The turn of one navigation step toward a target at `angle` degrees:
      right or left by at most 45 degrees, none within 10 degrees of ahead. */
  function NavigationTurn(angle: real): seq<Event>
  {
    if angle > 10.0 then Hold(TurnRightKey, TurnTime(MinReal(angle, 45.0)))
    else if angle < -10.0 then Hold(TurnLeftKey, TurnTime(MinReal(-angle, 45.0)))
    else []
  }

  function MinReal(a: real, b: real): real
  {
    if a <= b then a else b
  }

  /** Seconds moved forward toward a target `distance` away. */
  function ForwardTime(distance: real): real
  {
    MinReal(distance / 20.0, 2.0)
  }

  function NavigationStep(distance: real, angle: real): seq<Event>
  {
    NavigationTurn(angle) + Hold(Forward, ForwardTime(distance))
  }

  function SquaredDistance(x: int, y: int, currentX: int, currentY: int): int
  {
    (x - currentX) * (x - currentX) + (y - currentY) * (y - currentY)
  }

  /** The controller; `device` is the keyboard and sleep primitive it drives. */
  class MovementController {
    const device: Device

    constructor (device: Device)
      ensures this.device == device
    {
      this.device := device;
    }

    method HoldKey(key: string, seconds: real)
      modifies device
      ensures device.events == old(device.events) + Hold(key, seconds)
    {
      device.KeyDown(key);
      device.Sleep(seconds);
      device.KeyUp(key);
    }

    method MoveForward(duration: real)
      modifies device
      ensures device.events == old(device.events) + Hold(Forward, duration)
    {
      HoldKey(Forward, duration);
    }

    method MoveBackward(duration: real)
      modifies device
      ensures device.events == old(device.events) + Hold(Backward, duration)
    {
      HoldKey(Backward, duration);
    }

    method StrafeLeft(duration: real)
      modifies device
      ensures device.events == old(device.events) + Hold(StrafeLeftKey, duration)
    {
      HoldKey(StrafeLeftKey, duration);
    }

    method StrafeRight(duration: real)
      modifies device
      ensures device.events == old(device.events) + Hold(StrafeRightKey, duration)
    {
      HoldKey(StrafeRightKey, duration);
    }

    method TurnLeft(angle: real)
      modifies device
      ensures device.events == old(device.events) + Hold(TurnLeftKey, TurnTime(angle))
    {
      HoldKey(TurnLeftKey, angle / 180.0);
    }

    method TurnRight(angle: real)
      modifies device
      ensures device.events == old(device.events) + Hold(TurnRightKey, TurnTime(angle))
    {
      HoldKey(TurnRightKey, angle / 180.0);
    }

    method Jump()
      modifies device
      ensures device.events == old(device.events) + [Pressed(JumpKey)]
    {
      device.Press(JumpKey);
    }

    method ToggleSprint()
      modifies device
      ensures device.events == old(device.events) + [Pressed(SprintKey)]
    {
      device.Press(SprintKey);
    }

    method ToggleFly()
      modifies device
      ensures device.events == old(device.events) + [Pressed(FlyKey)]
    {
      device.Press(FlyKey);
    }

    method CircleStrafeTarget(duration: real, clockwise: bool) returns (outcome: Outcome)
      modifies device
      ensures outcome == CircleStrafeOutcome(duration)
      ensures device.events == old(device.events) + CircleStrafeEvents(duration, clockwise)
    {
      var steps := CircleSteps(duration);
      if steps == 0 {
        return Raised(ZeroDivision);
      }
      var stepDuration := duration / steps as real;
      var turnAngle := 360.0 / steps as real;
      ghost var step := CircleStep(stepDuration, turnAngle, clockwise);
      var n := 0;
      while n < steps
        invariant 0 <= n <= if steps > 0 then steps else 0
        invariant device.events == old(device.events) + Repeat(step, n)
      {
        CircleStrafeStep(stepDuration, turnAngle, clockwise);
        n := n + 1;
      }
      CircleStrafeUnfold(duration, clockwise);
      return Done;
    }

    /** One pass of the circle-strafe loop. */
    method CircleStrafeStep(stepDuration: real, turnAngle: real, clockwise: bool)
      modifies device
      ensures device.events == old(device.events) + CircleStep(stepDuration, turnAngle, clockwise)
    {
      ghost var h1, h2, h3 := Hold(Forward, stepDuration * 0.3), Hold(SideKey(clockwise), stepDuration * 0.4),
                              Hold(TurnKey(clockwise), TurnTime(turnAngle));
      MoveForward(stepDuration * 0.3);
      if clockwise {
        StrafeRight(stepDuration * 0.4);
        TurnRight(turnAngle);
      } else {
        StrafeLeft(stepDuration * 0.4);
        TurnLeft(turnAngle);
      }
      assert device.events == old(device.events) + h1 + h2 + h3;
      device.Sleep(stepDuration * 0.3);
      assert device.events == old(device.events) + (h1 + (h2 + (h3 + [Slept(stepDuration * 0.3)])));
    }

    method KiteEnemy()
      modifies device
      ensures device.events == old(device.events) + KiteEvents()
    {
      MoveBackward(2.0);
      TurnLeft(15.0);
      MoveBackward(1.0);
      TurnRight(30.0);
      MoveBackward(1.0);
      TurnLeft(15.0);
    }

    method Retreat()
      modifies device
      ensures device.events == old(device.events) + RetreatEvents()
    {
      MoveBackward(3.0);
      TurnLeft(180.0);
      MoveForward(5.0);
    }

    method Rest()
      modifies device
      ensures device.events == old(device.events) + RestEvents()
    {
      for i := 0 to |KeyValues|
        invariant device.events == old(device.events) + Releases(KeyValues[..i])
      {
        device.KeyUp(KeyValues[i]);
        assert Releases(KeyValues[..i + 1]) == Releases(KeyValues[..i]) + [Up(KeyValues[i])];
      }
      assert KeyValues[..|KeyValues|] == KeyValues;
      device.Sleep(0.5);
    }

    /** navigate_to_waypoint. `distance` and `angle` are the square root of the
        squared distance and the bearing `atan2(dy, dx)` in degrees. Returns
        whether the target is already within 5 units. */
    method NavigateToWaypoint(x: int, y: int, currentX: int, currentY: int, distance: real, angle: real)
      returns (arrived: bool)
      requires distance >= 0.0 && distance * distance == SquaredDistance(x, y, currentX, currentY) as real
      requires -180.0 <= angle <= 180.0
      modifies device
      ensures arrived <==> SquaredDistance(x, y, currentX, currentY) < 25
      ensures device.events == old(device.events) + if arrived then [] else NavigationStep(distance, angle)
    {
      CloseEnough(distance, SquaredDistance(x, y, currentX, currentY));
      if distance < 5.0 {
        return true;
      }
      if angle > 10.0 {
        TurnRight(MinReal(angle, 45.0));
      } else if angle < -10.0 {
        TurnLeft(MinReal(-angle, 45.0));
      }
      MoveForward(MinReal(distance / 20.0, 2.0));
      return false;
    }
  }

  //
  // Proofs
  //

  /** Each single-key macro holds its key for the requested time and leaves no
      key held. */
  lemma HoldReleases(key: string, seconds: real)
    ensures HeldAfter({}, Hold(key, seconds)) == {}
    ensures HeldTime({}, Hold(key, seconds), key) == seconds
    ensures forall k :: k != key ==> HeldTime({}, Hold(key, seconds), k) == 0.0
  {
    forall k ensures HeldTime({}, Hold(key, seconds), k) == if k == key then seconds else 0.0 {
      HoldEffect({}, key, seconds, k);
    }
    HoldEffect({}, key, seconds, key);
    var none: set<string> := {};
    assert none - {key} == none;
  }

  /** A held turn changes the heading by exactly the requested angle. */
  lemma TurnHeading(angle: real)
    ensures NetTurn(Hold(TurnRightKey, TurnTime(angle))) == angle
    ensures NetTurn(Hold(TurnLeftKey, TurnTime(angle))) == -angle
  {
    HoldReleases(TurnRightKey, TurnTime(angle));
    HoldReleases(TurnLeftKey, TurnTime(angle));
  }

  lemma CircleStrafeUnfold(duration: real, clockwise: bool)
    ensures CircleSteps(duration) <= 0 ==> CircleStrafeEvents(duration, clockwise) == []
    ensures CircleSteps(duration) > 0 ==>
      CircleStrafeEvents(duration, clockwise)
      == Repeat(CircleStep(duration / CircleSteps(duration) as real, 360.0 / CircleSteps(duration) as real, clockwise),
                CircleSteps(duration))
  {
  }

  /** A pause holds nothing and changes nothing. */
  lemma PauseEffect(seconds: real, key: string)
    ensures HeldAfter({}, [Slept(seconds)]) == {}
    ensures HeldTime({}, [Slept(seconds)], key) == 0.0
  {
    assert [Slept(seconds)][1..] == [];
  }

  /** One circle step from an idle keyboard: idle again, holding the turn key
      of its side for the step's turn time and the other turn key not at all. */
  lemma CircleStepEffect(stepDuration: real, turnAngle: real, clockwise: bool, key: string)
    ensures HeldAfter({}, CircleStep(stepDuration, turnAngle, clockwise)) == {}
    ensures HeldTime({}, CircleStep(stepDuration, turnAngle, clockwise), key)
         == (if key == Forward then stepDuration * 0.3 else 0.0)
          + (if key == SideKey(clockwise) then stepDuration * 0.4 else 0.0)
          + (if key == TurnKey(clockwise) then TurnTime(turnAngle) else 0.0)
  {
    var pause := [Slept(stepDuration * 0.3)];
    var turn := Hold(TurnKey(clockwise), TurnTime(turnAngle)) + pause;
    var side := Hold(SideKey(clockwise), stepDuration * 0.4) + turn;
    PauseEffect(stepDuration * 0.3, key);
    HoldThen(TurnKey(clockwise), TurnTime(turnAngle), pause, key);
    HoldThen(SideKey(clockwise), stepDuration * 0.4, turn, key);
    HoldThen(Forward, stepDuration * 0.3, side, key);
  }

  lemma FullCircle(n: nat)
    requires n > 0
    ensures 180.0 * (n as real * TurnTime(360.0 / n as real)) == 360.0
  {
    var q := 360.0 / n as real;
    assert q * n as real == 360.0;
  }

  /** A circle strafe of at least one step turns exactly one full circle, to the
      right when clockwise and to the left otherwise, and leaves no key held. */
  lemma CircleStrafeTurnsOnce(duration: real, clockwise: bool)
    requires CircleSteps(duration) > 0
    ensures HeldAfter({}, CircleStrafeEvents(duration, clockwise)) == {}
    ensures NetTurn(CircleStrafeEvents(duration, clockwise)) == if clockwise then 360.0 else -360.0
  {
    var n := CircleSteps(duration);
    var sd, ta := duration / n as real, 360.0 / n as real;
    var step := CircleStep(sd, ta, clockwise);
    CircleStepEffect(sd, ta, clockwise, TurnRightKey);
    CircleStepEffect(sd, ta, clockwise, TurnLeftKey);
    RepeatIdle(step, n, TurnRightKey);
    RepeatIdle(step, n, TurnLeftKey);
    FullCircle(n);
  }

  /** Below a tenth of a second the circle strafe raises on the division
      without emitting anything. */
  lemma ShortCircleStrafeRaises(duration: real, clockwise: bool)
    requires -0.1 < duration < 0.1
    ensures CircleStrafeOutcome(duration) == Raised(ZeroDivision)
    ensures CircleStrafeEvents(duration, clockwise) == []
  {
  }

  /** How long the kite pattern holds each key. */
  lemma KiteTimes(key: string)
    ensures HeldAfter({}, KiteEvents()) == {}
    ensures HeldTime({}, KiteEvents(), key)
         == (if key == Backward then 4.0 else 0.0)
          + (if key == TurnLeftKey then TurnTime(30.0) else 0.0)
          + (if key == TurnRightKey then TurnTime(30.0) else 0.0)
  {
    var e6 := Hold(TurnLeftKey, TurnTime(15.0));
    var e5 := Hold(Backward, 1.0) + e6;
    var e4 := Hold(TurnRightKey, TurnTime(30.0)) + e5;
    var e3 := Hold(Backward, 1.0) + e4;
    var e2 := Hold(TurnLeftKey, TurnTime(15.0)) + e3;
    HoldReleases(TurnLeftKey, TurnTime(15.0));
    HoldThen(Backward, 1.0, e6, key);
    HoldThen(TurnRightKey, TurnTime(30.0), e5, key);
    HoldThen(Backward, 1.0, e4, key);
    HoldThen(TurnLeftKey, TurnTime(15.0), e3, key);
    HoldThen(Backward, 2.0, e2, key);
  }

  /** The kite pattern only backs away and ends facing the way it started. */
  lemma KiteKeepsHeading()
    ensures HeldAfter({}, KiteEvents()) == {}
    ensures NetTurn(KiteEvents()) == 0.0
    ensures HeldTime({}, KiteEvents(), Backward) == 4.0
    ensures HeldTime({}, KiteEvents(), Forward) == 0.0
    ensures HeldTime({}, KiteEvents(), StrafeLeftKey) == 0.0
    ensures HeldTime({}, KiteEvents(), StrafeRightKey) == 0.0
  {
    KiteTimes(TurnRightKey);
    KiteTimes(TurnLeftKey);
    KiteTimes(Backward);
    KiteTimes(Forward);
    KiteTimes(StrafeLeftKey);
    KiteTimes(StrafeRightKey);
  }

  /** How long the retreat holds each key. */
  lemma RetreatTimes(key: string)
    ensures HeldAfter({}, RetreatEvents()) == {}
    ensures HeldTime({}, RetreatEvents(), key)
         == (if key == Backward then 3.0 else 0.0)
          + (if key == TurnLeftKey then TurnTime(180.0) else 0.0)
          + (if key == Forward then 5.0 else 0.0)
  {
    var e3 := Hold(Forward, 5.0);
    var e2 := Hold(TurnLeftKey, TurnTime(180.0)) + e3;
    HoldReleases(Forward, 5.0);
    HoldThen(TurnLeftKey, TurnTime(180.0), e3, key);
    HoldThen(Backward, 3.0, e2, key);
  }

  /** The retreat backs off, turns around and runs forward. */
  lemma RetreatTurnsAround()
    ensures HeldAfter({}, RetreatEvents()) == {}
    ensures NetTurn(RetreatEvents()) == -180.0
    ensures HeldTime({}, RetreatEvents(), Backward) == 3.0
    ensures HeldTime({}, RetreatEvents(), Forward) == 5.0
  {
    RetreatTimes(TurnRightKey);
    RetreatTimes(TurnLeftKey);
    RetreatTimes(Backward);
    RetreatTimes(Forward);
  }

  lemma {:induction false} ReleasesEffect(held: set<string>, keys: seq<string>)
    ensures HeldAfter(held, Releases(keys)) == held - set k | k in keys
    ensures Presses(Releases(keys)) == []
    decreases |keys|
  {
    if keys != [] {
      var r := Releases(keys);
      assert r[0] == Up(keys[0]);
      assert r[1..] == Releases(keys[1..]);
      ReleasesEffect(held - {keys[0]}, keys[1..]);
      assert (held - {keys[0]}) - (set k | k in keys[1..]) == held - set k | k in keys;
    }
  }

  /** Rest releases every key of the key map whatever was held before, pulses
      nothing, and takes half a second. */
  lemma RestReleasesAll(held: set<string>)
    ensures HeldAfter(held, RestEvents()) == held - set k | k in KeyValues
    ensures forall k :: k in KeyValues ==> k !in HeldAfter(held, RestEvents())
    ensures Presses(RestEvents()) == []
    ensures |RestEvents()| == |KeyValues| + 1
  {
    ReleasesEffect(held, KeyValues);
    HeldAfterAppend(held, Releases(KeyValues), [Slept(0.5)]);
    PressesAppend(Releases(KeyValues), [Slept(0.5)]);
    assert [Slept(0.5)][1..] == [];
  }

  /** For a non-negative square root, "closer than 5" is "squared distance below 25". */
  lemma CloseEnough(distance: real, squared: int)
    requires distance >= 0.0 && distance * distance == squared as real
    ensures distance < 5.0 <==> squared < 25
  {
    if distance < 5.0 {
      assert distance * distance <= 5.0 * distance;
    } else {
      assert distance * distance >= 5.0 * distance;
    }
  }

  /** One navigation step turns toward the target by at most 45 degrees (none
      when it is within 10 degrees of ahead), then moves forward for at most two
      seconds, and leaves no key held. */
  lemma NavigationStepBounds(distance: real, angle: real)
    requires distance >= 0.0
    ensures HeldAfter({}, NavigationStep(distance, angle)) == {}
    ensures -45.0 <= NetTurn(NavigationStep(distance, angle)) <= 45.0
    ensures angle > 10.0 ==> NetTurn(NavigationStep(distance, angle)) > 0.0
    ensures angle < -10.0 ==> NetTurn(NavigationStep(distance, angle)) < 0.0
    ensures -10.0 <= angle <= 10.0 ==> NetTurn(NavigationStep(distance, angle)) == 0.0
    ensures HeldTime({}, NavigationStep(distance, angle), Forward) == ForwardTime(distance)
    ensures 0.0 <= ForwardTime(distance) <= 2.0
  {
    var turn := NavigationTurn(angle);
    var fwd := Hold(Forward, ForwardTime(distance));
    HeldAfterAppend({}, turn, fwd);
    HeldTimeAppend({}, turn, fwd, TurnRightKey);
    HeldTimeAppend({}, turn, fwd, TurnLeftKey);
    HeldTimeAppend({}, turn, fwd, Forward);
    HoldReleases(Forward, ForwardTime(distance));
    if angle > 10.0 {
      HoldReleases(TurnRightKey, TurnTime(MinReal(angle, 45.0)));
    } else if angle < -10.0 {
      HoldReleases(TurnLeftKey, TurnTime(MinReal(-angle, 45.0)));
    }
  }
}
