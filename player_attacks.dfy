/** The attack controller: a fixed hotkey map for ability slots 1..9, a
    registry of named attack chains (sequences of slot and wait), per-slot
    animation timings, and the routines that press those hotkeys. */
module PlayerAttacks {
  import opened Py
  import opened Input

  /** One chain step: the ability slot to fire and the seconds to wait after it. */
  datatype Step = Step(slot: int, wait: real)

  const DefaultHotkeys: map<int, string> := map[
    1 := "1", 2 := "2", 3 := "3", 4 := "4", 5 := "5", 6 := "6", 7 := "7", 8 := "8", 9 := "9"]

  const DefaultChains: map<string, seq<Step>> := map[
    "basic_combo" := [Step(1, 1.2), Step(2, 1.5), Step(3, 2.0)],
    "power_combo" := [Step(4, 2.0), Step(5, 2.5), Step(6, 3.0)],
    "aoe_combo" := [Step(7, 2.5), Step(8, 3.0), Step(9, 1.0)],
    "quick_strike" := [Step(1, 0.8), Step(2, 0.8)],
    "heavy_attack" := [Step(6, 3.5)],
    "defensive" := [Step(5, 2.0), Step(3, 1.5)],
    "ranged_combo" := [Step(2, 1.0), Step(4, 1.5), Step(7, 2.0)],
    "melee_combo" := [Step(1, 1.2), Step(3, 1.8), Step(5, 2.2)]]

  /** The registry's names in insertion order. */
  const DefaultChainOrder: seq<string> := [
    "basic_combo", "power_combo", "aoe_combo", "quick_strike",
    "heavy_attack", "defensive", "ranged_combo", "melee_combo"]

  const DefaultTimings: map<int, real> := map[
    1 := 1.2, 2 := 1.0, 3 := 1.8, 4 := 1.5, 5 := 2.2, 6 := 3.5, 7 := 2.5, 8 := 3.0, 9 := 1.0]

  /** Animation wait for a slot without a timing entry. */
  const DefaultTiming := 1.5

  /** Health percentage below which a guarded chain stops. */
  const LowHealth := 20.0

  /** `ability_timings.get(n, 1.5)`. */
  function Timing(timings: map<int, real>, n: int): real
  {
    if n in timings then timings[n] else DefaultTiming
  }

  /** use_ability on a valid slot: one press, then the animation wait if asked for. */
  function UseEvents(hotkeys: map<int, string>, timings: map<int, real>, n: int, wait: bool): seq<Event>
    requires n in hotkeys
  {
    [Pressed(hotkeys[n])] + (if wait then [Slept(Timing(timings, n))] else [])
  }

  //
  // Chains and custom sequences
  //

  /** One chain step on a valid slot: a press without animation wait, then the
      step's own wait. */
  function StepEvents(hotkeys: map<int, string>, s: Step): seq<Event>
    requires s.slot in hotkeys
  {
    [Pressed(hotkeys[s.slot]), Slept(s.wait)]
  }

  predicate AllSlotsValid(hotkeys: map<int, string>, steps: seq<Step>)
  {
    forall j :: 0 <= j < |steps| ==> steps[j].slot in hotkeys
  }

  /** The events of running every step of `steps` in order. */
  function StepsTrace(hotkeys: map<int, string>, steps: seq<Step>): seq<Event>
    requires AllSlotsValid(hotkeys, steps)
  {
    if steps == [] then []
    else StepsTrace(hotkeys, steps[..|steps| - 1]) + StepEvents(hotkeys, steps[|steps| - 1])
  }

  /** Where a run of `steps` from index `i` ends: the first step before which
      the break condition `stop` holds or whose slot has no hotkey, or the end. */
  function StopIndex(hotkeys: map<int, string>, steps: seq<Step>, stop: nat -> bool, i: nat): (k: nat)
    requires i <= |steps|
    ensures i <= k <= |steps|
    ensures forall j :: i <= j < k ==> !stop(j) && steps[j].slot in hotkeys
    ensures k < |steps| ==> stop(k) || steps[k].slot !in hotkeys
    decreases |steps| - i
  {
    if i == |steps| || stop(i) || steps[i].slot !in hotkeys then i
    else StopIndex(hotkeys, steps, stop, i + 1)
  }

  /** How a run of `steps` ends: by the break, at the end, or raising on the
      first slot without a hotkey. */
  function StepsOutcome(hotkeys: map<int, string>, steps: seq<Step>, stop: nat -> bool): Outcome
  {
    var k := StopIndex(hotkeys, steps, stop, 0);
    if k < |steps| && !stop(k) then Raised(InvalidAbility(steps[k].slot)) else Done
  }

  /** The events of a run of `steps`: every step before the stopping point. */
  function StepsEvents(hotkeys: map<int, string>, steps: seq<Step>, stop: nat -> bool): seq<Event>
  {
    var k := StopIndex(hotkeys, steps, stop, 0);
    StepsTrace(hotkeys, steps[..k])
  }

  /** The break condition of execute_attack_chain: with the health check on,
      `health(i)` is the reading taken before step `i`. */
  function HealthStop(health: Option<nat -> real>): nat -> bool
  {
    (i: nat) => health.Some? && health.value(i) < LowHealth
  }

  /** custom_attack_sequence has no break condition: the chain rule with the
      health check off. */
  const NoStop: nat -> bool := HealthStop(None)

  /** The hotkeys of the steps, in order. */
  function SlotKeys(hotkeys: map<int, string>, steps: seq<Step>): (keys: seq<string>)
    requires AllSlotsValid(hotkeys, steps)
    ensures |keys| == |steps|
    ensures forall j :: 0 <= j < |steps| ==> keys[j] == hotkeys[steps[j].slot]
  {
    seq(|steps|, j requires 0 <= j < |steps| => hotkeys[steps[j].slot])
  }

  //
  // Rapid fire and rotation
  //

  function RapidFireOutcome(hotkeys: map<int, string>, n: int, count: int): Outcome
  {
    if count > 0 && n !in hotkeys then Raised(InvalidAbility(n)) else Done
  }

  /** rapid_fire_attack: `count` presses of one slot, each followed by `interval`. */
  function RapidFireEvents(hotkeys: map<int, string>, n: int, count: int, interval: real): seq<Event>
  {
    if count <= 0 || n !in hotkeys then [] else Repeat([Pressed(hotkeys[n]), Slept(interval)], count)
  }

  /** The first position in `abilities` whose slot has no hotkey, or the end. */
  function FirstInvalid(hotkeys: map<int, string>, abilities: seq<int>): (k: nat)
    ensures k <= |abilities|
    ensures forall j :: 0 <= j < k ==> abilities[j] in hotkeys
    ensures k < |abilities| ==> abilities[k] !in hotkeys
  {
    if abilities == [] then 0
    else if abilities[0] !in hotkeys then 0
    else 1 + FirstInvalid(hotkeys, abilities[1..])
  }

  /** One pass over `abilities`, each used with its animation wait. */
  function CycleTrace(hotkeys: map<int, string>, timings: map<int, real>, abilities: seq<int>): seq<Event>
    requires forall j :: 0 <= j < |abilities| ==> abilities[j] in hotkeys
  {
    if abilities == [] then []
    else CycleTrace(hotkeys, timings, abilities[..|abilities| - 1])
         + UseEvents(hotkeys, timings, abilities[|abilities| - 1], true)
  }

  /** rotation_attack: an invalid slot raises during the first cycle, after the
      slots before it have been used. */
  function RotationOutcome(hotkeys: map<int, string>, abilities: seq<int>, cycles: int): Outcome
  {
    var k := FirstInvalid(hotkeys, abilities);
    if cycles > 0 && k < |abilities| then Raised(InvalidAbility(abilities[k])) else Done
  }

  function RotationEvents(hotkeys: map<int, string>, timings: map<int, real>, abilities: seq<int>, cycles: int): seq<Event>
  {
    var k := FirstInvalid(hotkeys, abilities);
    if cycles <= 0 then []
    else if k < |abilities| then CycleTrace(hotkeys, timings, abilities[..k])
    else Repeat(CycleTrace(hotkeys, timings, abilities), cycles)
  }

  /** smart_attack_selection's choice of chain by enemy count. */
  function SelectChain(enemyCount: int): string
  {
    if enemyCount == 1 then "basic_combo"
    else if enemyCount <= 3 then "ranged_combo"
    else "aoe_combo"
  }

  class AttackController {
    const device: Device
    const hotkeys: map<int, string>
    var attackChains: map<string, seq<Step>>
    /** The registry's names in insertion order (the dict's key order). */
    var chainOrder: seq<string>
    var abilityTimings: map<int, real>

    ghost predicate Valid()
      reads this
    {
      && hotkeys == DefaultHotkeys
      && (forall i, j :: 0 <= i < j < |chainOrder| ==> chainOrder[i] != chainOrder[j])
      && (forall n :: n in attackChains <==> n in chainOrder)
      && DefaultChains.Keys <= attackChains.Keys
    }

    constructor (device: Device)
      ensures Valid()
      ensures this.device == device
      ensures attackChains == DefaultChains && chainOrder == DefaultChainOrder && abilityTimings == DefaultTimings
    {
      this.device := device;
      hotkeys := DefaultHotkeys;
      attackChains := DefaultChains;
      chainOrder := DefaultChainOrder;
      abilityTimings := DefaultTimings;
    }

    method UseAbility(n: int, waitForAnimation: bool) returns (outcome: Outcome)
      modifies device
      ensures n !in hotkeys ==> outcome == Raised(InvalidAbility(n)) && device.events == old(device.events)
      ensures n in hotkeys ==>
        outcome == Done && device.events == old(device.events) + UseEvents(hotkeys, abilityTimings, n, waitForAnimation)
    {
      if n !in hotkeys {
        return Raised(InvalidAbility(n));
      }
      device.Press(hotkeys[n]);
      if waitForAnimation {
        device.Sleep(Timing(abilityTimings, n));
      }
      return Done;
    }

    /** execute_attack_chain; `health` is `None` when the health check is off. */
    method ExecuteAttackChain(name: string, health: Option<nat -> real>) returns (outcome: Outcome)
      modifies device
      ensures name !in attackChains ==>
        outcome == Raised(UnknownChain(name)) && device.events == old(device.events)
      ensures name in attackChains ==>
        && outcome == StepsOutcome(hotkeys, attackChains[name], HealthStop(health))
        && device.events == old(device.events) + StepsEvents(hotkeys, attackChains[name], HealthStop(health))
    {
      if name !in attackChains {
        return Raised(UnknownChain(name));
      }
      var chain := attackChains[name];
      ghost var stop := HealthStop(health);
      var i := 0;
      while i < |chain|
        invariant 0 <= i <= |chain|
        invariant forall j :: 0 <= j < i ==> !stop(j) && chain[j].slot in hotkeys
        invariant device.events == old(device.events) + StepsTrace(hotkeys, chain[..i])
      {
        if health.Some? && health.value(i) < LowHealth {
          break;
        }
        outcome := UseAbility(chain[i].slot, false);
        if outcome.Raised? {
          StopIndexAt(hotkeys, chain, stop, i);
          return;
        }
        device.Sleep(chain[i].wait);
        StepsTraceSnoc(hotkeys, chain, i);
        i := i + 1;
      }
      StopIndexAt(hotkeys, chain, stop, i);
      return Done;
    }

    method CustomAttackSequence(sequence: seq<Step>) returns (outcome: Outcome)
      modifies device
      ensures outcome == StepsOutcome(hotkeys, sequence, NoStop)
      ensures device.events == old(device.events) + StepsEvents(hotkeys, sequence, NoStop)
    {
      var i := 0;
      while i < |sequence|
        invariant 0 <= i <= |sequence|
        invariant forall j :: 0 <= j < i ==> sequence[j].slot in hotkeys
        invariant device.events == old(device.events) + StepsTrace(hotkeys, sequence[..i])
      {
        outcome := UseAbility(sequence[i].slot, false);
        if outcome.Raised? {
          StopIndexAt(hotkeys, sequence, NoStop, i);
          return;
        }
        device.Sleep(sequence[i].wait);
        StepsTraceSnoc(hotkeys, sequence, i);
        i := i + 1;
      }
      StopIndexAt(hotkeys, sequence, NoStop, i);
      return Done;
    }

    method RapidFireAttack(n: int, count: int, interval: real) returns (outcome: Outcome)
      modifies device
      ensures outcome == RapidFireOutcome(hotkeys, n, count)
      ensures device.events == old(device.events) + RapidFireEvents(hotkeys, n, count, interval)
    {
      var i := 0;
      while i < count
        invariant 0 <= i <= if count > 0 then count else 0
        invariant i > 0 ==> n in hotkeys
        invariant device.events == old(device.events) + RapidFireEvents(hotkeys, n, i, interval)
      {
        outcome := UseAbility(n, false);
        if outcome.Raised? {
          return;
        }
        device.Sleep(interval);
        ghost var block := [Pressed(hotkeys[n]), Slept(interval)];
        assert Repeat(block, i + 1) == Repeat(block, i) + block by {
          if i == 0 {
            assert Repeat(block, 0) == [];
          }
        }
        i := i + 1;
      }
      return Done;
    }

    method RotationAttack(abilities: seq<int>, cycles: int) returns (outcome: Outcome)
      modifies device
      ensures outcome == RotationOutcome(hotkeys, abilities, cycles)
      ensures device.events == old(device.events) + RotationEvents(hotkeys, abilityTimings, abilities, cycles)
    {
      var cycle := 0;
      while cycle < cycles
        invariant 0 <= cycle <= if cycles > 0 then cycles else 0
        invariant cycle > 0 ==> FirstInvalid(hotkeys, abilities) == |abilities|
        invariant device.events == old(device.events) + RotationEvents(hotkeys, abilityTimings, abilities, cycle)
      {
        outcome := RotationCycle(abilities);
        if outcome.Raised? {
          return;
        }
        assert abilities[..|abilities|] == abilities;
        ghost var block := CycleTrace(hotkeys, abilityTimings, abilities);
        assert Repeat(block, cycle + 1) == Repeat(block, cycle) + block by {
          if cycle == 0 {
            assert Repeat(block, 0) == [];
          }
        }
        cycle := cycle + 1;
      }
      return Done;
    }

    /** One pass of rotation_attack's inner loop over `abilities`. */
    method RotationCycle(abilities: seq<int>) returns (outcome: Outcome)
      modifies device
      ensures var k := FirstInvalid(hotkeys, abilities);
        && outcome == (if k < |abilities| then Raised(InvalidAbility(abilities[k])) else Done)
        && device.events == old(device.events) + CycleTrace(hotkeys, abilityTimings, abilities[..k])
    {
      var i := 0;
      while i < |abilities|
        invariant 0 <= i <= |abilities|
        invariant forall j :: 0 <= j < i ==> abilities[j] in hotkeys
        invariant device.events == old(device.events) + CycleTrace(hotkeys, abilityTimings, abilities[..i])
      {
        outcome := UseAbility(abilities[i], true);
        if outcome.Raised? {
          FirstInvalidAt(hotkeys, abilities, i);
          return;
        }
        assert abilities[..i + 1][..i] == abilities[..i];
        i := i + 1;
      }
      FirstInvalidAt(hotkeys, abilities, i);
      return Done;
    }

    /** add_custom_chain: sets or replaces one chain; a new name goes last. */
    method AddCustomChain(name: string, chain: seq<Step>)
      requires Valid()
      modifies this
      ensures Valid()
      ensures attackChains == old(attackChains)[name := chain]
      ensures chainOrder == if name in old(attackChains) then old(chainOrder) else old(chainOrder) + [name]
      ensures abilityTimings == old(abilityTimings)
    {
      if name !in attackChains {
        chainOrder := chainOrder + [name];
      }
      attackChains := attackChains[name := chain];
    }

    method ModifyAbilityTiming(n: int, timing: real)
      requires Valid()
      modifies this
      ensures Valid()
      ensures abilityTimings == old(abilityTimings)[n := timing]
      ensures attackChains == old(attackChains) && chainOrder == old(chainOrder)
    {
      abilityTimings := abilityTimings[n := timing];
    }

    /** get_available_chains: every registered name exactly once, in insertion order. */
    function AvailableChains(): (names: seq<string>)
      reads this
      requires Valid()
      ensures forall n :: n in names <==> n in attackChains
      ensures forall i, j :: 0 <= i < j < |names| ==> names[i] != names[j]
    {
      chainOrder
    }

    method SmartAttackSelection(enemyCount: int) returns (outcome: Outcome)
      requires Valid()
      modifies device
      ensures outcome == StepsOutcome(hotkeys, attackChains[SelectChain(enemyCount)], NoStop)
      ensures device.events == old(device.events) + StepsEvents(hotkeys, attackChains[SelectChain(enemyCount)], NoStop)
    {
      var name := SelectChain(enemyCount);
      assert name in DefaultChains;
      outcome := ExecuteAttackChain(name, None);
    }
  }

  //
  // Proofs
  //

  lemma StepsTraceSnoc(hotkeys: map<int, string>, steps: seq<Step>, i: nat)
    requires i < |steps| && AllSlotsValid(hotkeys, steps[..i + 1])
    ensures AllSlotsValid(hotkeys, steps[..i])
    ensures StepsTrace(hotkeys, steps[..i + 1]) == StepsTrace(hotkeys, steps[..i]) + StepEvents(hotkeys, steps[i])
  {
    assert steps[..i + 1][..i] == steps[..i];
  }

  /** A position that satisfies the stopping rule is the stopping point. */
  lemma StopIndexAt(hotkeys: map<int, string>, steps: seq<Step>, stop: nat -> bool, i: nat)
    requires i <= |steps|
    requires forall j :: 0 <= j < i ==> !stop(j) && steps[j].slot in hotkeys
    requires i < |steps| ==> stop(i) || steps[i].slot !in hotkeys
    ensures StopIndex(hotkeys, steps, stop, 0) == i
  {
  }

  lemma FirstInvalidAt(hotkeys: map<int, string>, abilities: seq<int>, i: nat)
    requires i <= |abilities|
    requires forall j :: 0 <= j < i ==> abilities[j] in hotkeys
    requires i < |abilities| ==> abilities[i] !in hotkeys
    ensures FirstInvalid(hotkeys, abilities) == i
  {
  }

  /** A run presses exactly the hotkeys of the steps it reaches, in order. */
  lemma {:induction false} StepsTracePresses(hotkeys: map<int, string>, steps: seq<Step>)
    requires AllSlotsValid(hotkeys, steps)
    ensures Presses(StepsTrace(hotkeys, steps)) == SlotKeys(hotkeys, steps)
    ensures |StepsTrace(hotkeys, steps)| == 2 * |steps|
    decreases |steps|
  {
    if steps != [] {
      var init := steps[..|steps| - 1];
      var last := steps[|steps| - 1];
      StepsTracePresses(hotkeys, init);
      PressesAppend(StepsTrace(hotkeys, init), StepEvents(hotkeys, last));
      var e := StepEvents(hotkeys, last);
      assert e[1..][1..] == [];
      assert Presses(e) == [hotkeys[last.slot]];
      assert SlotKeys(hotkeys, steps) == SlotKeys(hotkeys, init) + [hotkeys[last.slot]];
    }
  }

  /** A chain run stops before the first step whose health reading is low,
      having emitted every step before it (two events per step), and raises
      only on a slot without a hotkey, after the steps before it. */
  lemma ChainRunShape(hotkeys: map<int, string>, steps: seq<Step>, health: Option<nat -> real>)
    ensures var k := StopIndex(hotkeys, steps, HealthStop(health), 0);
      && Presses(StepsEvents(hotkeys, steps, HealthStop(health))) == SlotKeys(hotkeys, steps[..k])
      && |StepsEvents(hotkeys, steps, HealthStop(health))| == 2 * k
      && (forall j :: 0 <= j < k ==> steps[j].slot in hotkeys && !(health.Some? && health.value(j) < LowHealth))
      && (StepsOutcome(hotkeys, steps, HealthStop(health)).Raised? <==>
            k < |steps| && steps[k].slot !in hotkeys && !(health.Some? && health.value(k) < LowHealth))
      && (k < |steps| && health.Some? && health.value(k) < LowHealth ==>
            StepsOutcome(hotkeys, steps, HealthStop(health)) == Done)
  {
    var stop := HealthStop(health);
    var k := StopIndex(hotkeys, steps, stop, 0);
    assert AllSlotsValid(hotkeys, steps[..k]);
    StepsTracePresses(hotkeys, steps[..k]);
  }

  /** A chain run only pulses keys, so it never leaves a key held down. */
  lemma {:induction false} StepsTraceIdle(hotkeys: map<int, string>, steps: seq<Step>)
    requires AllSlotsValid(hotkeys, steps)
    ensures HeldAfter({}, StepsTrace(hotkeys, steps)) == {}
    decreases |steps|
  {
    if steps != [] {
      var init := steps[..|steps| - 1];
      var e := StepEvents(hotkeys, steps[|steps| - 1]);
      StepsTraceIdle(hotkeys, init);
      HeldAfterAppend({}, StepsTrace(hotkeys, init), e);
      var none: set<string> := {};
      assert e[1..][1..] == [];
      assert HeldAfter(none, e) == HeldAfter(none - {e[0].key}, e[1..]);
      assert none - {e[0].key} == none;
    }
  }

  /** Without the health check, a chain whose slots all have hotkeys runs to
      the end: one press per step. */
  lemma UnguardedChainRunsFully(hotkeys: map<int, string>, steps: seq<Step>)
    requires AllSlotsValid(hotkeys, steps)
    ensures StepsOutcome(hotkeys, steps, HealthStop(None)) == Done
    ensures StepsEvents(hotkeys, steps, HealthStop(None)) == StepsTrace(hotkeys, steps)
    ensures |Presses(StepsEvents(hotkeys, steps, HealthStop(None)))| == |steps|
  {
    StopIndexAt(hotkeys, steps, HealthStop(None), |steps|);
    assert steps[..|steps|] == steps;
    StepsTracePresses(hotkeys, steps);
  }

  /** An unknown slot raises before anything is pressed when it is the first step. */
  lemma InvalidFirstSlotRaises(hotkeys: map<int, string>, steps: seq<Step>, stop: nat -> bool)
    requires |steps| > 0 && steps[0].slot !in hotkeys && !stop(0)
    ensures StepsOutcome(hotkeys, steps, stop) == Raised(InvalidAbility(steps[0].slot))
    ensures StepsEvents(hotkeys, steps, stop) == []
  {
  }

  /** Every default chain, run without the health check, completes: one
      press per step, in the chain's order. */
  lemma DefaultChainRunsFully(name: string)
    requires name in DefaultChains
    ensures StepsOutcome(DefaultHotkeys, DefaultChains[name], NoStop) == Done
    ensures Presses(StepsEvents(DefaultHotkeys, DefaultChains[name], NoStop))
         == SlotKeys(DefaultHotkeys, DefaultChains[name])
  {
    var chain := DefaultChains[name];
    assert AllSlotsValid(DefaultHotkeys, chain);
    UnguardedChainRunsFully(DefaultHotkeys, chain);
    StepsTracePresses(DefaultHotkeys, chain);
  }

  /** The keys the three dispatchable default chains press. */
  lemma DispatchedChainKeys()
    ensures SlotKeys(DefaultHotkeys, DefaultChains["basic_combo"]) == ["1", "2", "3"]
    ensures SlotKeys(DefaultHotkeys, DefaultChains["power_combo"]) == ["4", "5", "6"]
    ensures SlotKeys(DefaultHotkeys, DefaultChains["aoe_combo"]) == ["7", "8", "9"]
  {
  }

  /** use_ability presses its slot's key once and sleeps only when asked to,
      for the slot's timing or 1.5 seconds when the slot has none. */
  lemma UseEventsShape(hotkeys: map<int, string>, timings: map<int, real>, n: int, wait: bool)
    requires n in hotkeys
    ensures Presses(UseEvents(hotkeys, timings, n, wait)) == [hotkeys[n]]
    ensures |UseEvents(hotkeys, timings, n, wait)| == if wait then 2 else 1
    ensures wait ==> (UseEvents(hotkeys, timings, n, wait)[1] == Slept(if n in timings then timings[n] else 1.5))
  {
    var e := UseEvents(hotkeys, timings, n, wait);
    if wait {
      assert e[1..][1..] == [];
    } else {
      assert e[1..] == [];
    }
  }

  /** The three chains the selection can pick are registered from the start. */
  lemma SelectionIsRegistered(enemyCount: int)
    ensures SelectChain(enemyCount) in DefaultChains
    ensures enemyCount == 1 <==> SelectChain(enemyCount) == "basic_combo"
    ensures enemyCount != 1 && enemyCount <= 3 <==> SelectChain(enemyCount) == "ranged_combo"
    ensures enemyCount > 3 <==> SelectChain(enemyCount) == "aoe_combo"
  {
  }

  lemma {:induction false} PressesRepeat(block: seq<Event>, n: nat)
    ensures Presses(Repeat(block, n)) == Repeat(Presses(block), n)
  {
    if n > 0 {
      PressesRepeat(block, n - 1);
      PressesAppend(Repeat(block, n - 1), block);
    }
  }

  lemma {:induction false} RepeatOne<T>(x: T, n: nat)
    ensures Repeat([x], n) == seq(n, _ => x)
  {
    if n > 0 {
      RepeatOne(x, n - 1);
      assert seq(n, _ => x) == seq(n - 1, _ => x) + [x];
    }
  }

  /** Rapid fire on a valid slot presses that one hotkey `count` times. */
  lemma RapidFirePresses(hotkeys: map<int, string>, n: int, count: nat, interval: real)
    requires n in hotkeys
    ensures Presses(RapidFireEvents(hotkeys, n, count, interval)) == seq(count, _ => hotkeys[n])
  {
    var block := [Pressed(hotkeys[n]), Slept(interval)];
    PressesRepeat(block, count);
    assert block[1..][1..] == [];
    assert Presses(block) == [hotkeys[n]];
    RepeatOne(hotkeys[n], count);
  }

  /** Rapid fire is the custom sequence of `count` copies of one step. */
  lemma {:induction false} RapidFireIsSequence(hotkeys: map<int, string>, n: int, count: nat, interval: real)
    requires n in hotkeys
    ensures StepsTrace(hotkeys, seq(count, _ => Step(n, interval))) == RapidFireEvents(hotkeys, n, count, interval)
  {
    if count > 0 {
      var steps := seq(count, _ => Step(n, interval));
      assert steps[..count - 1] == seq(count - 1, _ => Step(n, interval));
      RapidFireIsSequence(hotkeys, n, count - 1, interval);
    }
  }

  /** A cycle presses the hotkeys of the abilities in order. */
  lemma {:induction false} CyclePresses(hotkeys: map<int, string>, timings: map<int, real>, abilities: seq<int>)
    requires forall j :: 0 <= j < |abilities| ==> abilities[j] in hotkeys
    ensures Presses(CycleTrace(hotkeys, timings, abilities)) == seq(|abilities|, j requires 0 <= j < |abilities| => hotkeys[abilities[j]])
    decreases |abilities|
  {
    if abilities != [] {
      var init := abilities[..|abilities| - 1];
      var last := abilities[|abilities| - 1];
      CyclePresses(hotkeys, timings, init);
      var e := UseEvents(hotkeys, timings, last, true);
      PressesAppend(CycleTrace(hotkeys, timings, init), e);
      assert e[1..][1..] == [];
      assert Presses(e) == [hotkeys[last]];
    }
  }

  /** A rotation over valid slots presses the cycle's hotkeys `cycles` times over. */
  lemma RotationPresses(hotkeys: map<int, string>, timings: map<int, real>, abilities: seq<int>, cycles: nat)
    requires forall j :: 0 <= j < |abilities| ==> abilities[j] in hotkeys
    ensures RotationOutcome(hotkeys, abilities, cycles) == Done
    ensures Presses(RotationEvents(hotkeys, timings, abilities, cycles))
         == Repeat(seq(|abilities|, j requires 0 <= j < |abilities| => hotkeys[abilities[j]]), cycles)
  {
    FirstInvalidAt(hotkeys, abilities, |abilities|);
    CyclePresses(hotkeys, timings, abilities);
    PressesRepeat(CycleTrace(hotkeys, timings, abilities), cycles);
  }

  /** A rotation over valid slots presses len(abilities) * cycles keys. */
  lemma RotationPressCount(hotkeys: map<int, string>, timings: map<int, real>, abilities: seq<int>, cycles: nat)
    requires forall j :: 0 <= j < |abilities| ==> abilities[j] in hotkeys
    ensures |Presses(RotationEvents(hotkeys, timings, abilities, cycles))| == |abilities| * cycles
  {
    RotationPresses(hotkeys, timings, abilities, cycles);
    RepeatLength(seq(|abilities|, j requires 0 <= j < |abilities| => hotkeys[abilities[j]]), cycles);
  }

  lemma {:induction false} RepeatLength<T>(block: seq<T>, n: nat)
    ensures |Repeat(block, n)| == n * |block|
  {
    if n > 0 {
      RepeatLength(block, n - 1);
    }
  }
}
