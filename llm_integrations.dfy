/** The decision layer: classifying the sampled stats into a scenario, the
    request sent to the hosted model and the fallbacks that turn every
    failed call into a `rest` decision, the metadata attached to a decision,
    and the dispatch of a decision's action to the movement and attack
    controllers. */
module LlmIntegrations {
  import opened Py
  import opened Input
  import opened GameState
  import PlayerMovement
  import PlayerAttacks

  /** A decoded JSON value. */
  datatype Json =
    | JNull
    | JBool(b: bool)
    | JNum(n: real)
    | JStr(text: string)
    | JArr(items: seq<Json>)
    | JObj(fields: map<string, Json>)

  datatype Scenario = Recovery | Combat | Exploration

  function ScenarioName(s: Scenario): string
  {
    match s
    case Recovery => "recovery"
    case Combat => "combat"
    case Exploration => "exploration"
  }

  const RecoveryHealth := 30.0
  const RecoveryEndurance := 20.0

  /** `stats.get(key, default)`. */
  function GetOr<T>(o: Option<T>, default: T): T
  {
    if o.Some? then o.value else default
  }

  function Health(stats: Stats): real { GetOr(stats.health, 100.0) }
  function Endurance(stats: Stats): real { GetOr(stats.endurance, 100.0) }
  predicate Engaged(stats: Stats) { GetOr(stats.inCombat, false) || GetOr(stats.enemyTargeted, false) }

  /** analyze_game_state: low health or endurance first, then the combat flags. */
  function AnalyzeGameState(stats: Stats): (s: Scenario)
    ensures s == Recovery <==> Health(stats) < RecoveryHealth || Endurance(stats) < RecoveryEndurance
    ensures s == Combat ==> Engaged(stats)
    ensures s == Exploration ==> !Engaged(stats)
  {
    if Health(stats) < RecoveryHealth || Endurance(stats) < RecoveryEndurance then Recovery
    else if Engaged(stats) then Combat
    else Exploration
  }

  //
  // The model call
  //

  datatype ContentPart = TextPart(text: string) | ImagePart(format: string, bytes: string)
  datatype InferenceConfig = InferenceConfig(maxNewTokens: int, temperature: real, topP: real, topK: int)
  /** The request body: one user message and the sampling settings. */
  datatype Request = Request(role: string, content: seq<ContentPart>, config: InferenceConfig)

  const Sampling := InferenceConfig(256, 0.3, 0.9, 50)

  /** Python truthiness of an optional string. */
  predicate Truthy(o: Option<string>)
  {
    o.Some? && o.value != ""
  }

  function RequestFor(prompt: string, imageData: Option<string>): (r: Request)
    ensures |r.content| >= 1 && r.content[0] == TextPart(prompt)
    ensures |r.content| == 2 <==> Truthy(imageData)
    ensures |r.content| <= 2
    ensures forall i :: 1 <= i < |r.content| ==> r.content[i] == ImagePart("png", imageData.value)
  {
    var content := [TextPart(prompt)];
    var content := if Truthy(imageData) then content + [ImagePart("png", imageData.value)] else content;
    Request("user", content, Sampling)
  }

  /** What the remote call produces: a reply whose text decodes to `value`,
      a reply whose text is not JSON, or an exception with its message (a
      failed invocation or a reply missing the expected fields). */
  datatype Reply = Parsed(value: Json) | Unparseable | Failed(message: string)

  function RestDecision(reason: string): Json
  {
    JObj(map["action" := JStr("rest"), "reason" := JStr(reason)])
  }

  const ParseFailure := "Failed to parse AI response"

  /** call_nova_with_image, with `invoke` standing for the endpoint. */
  function CallNovaWithImage(prompt: string, imageData: Option<string>, invoke: Request -> Reply): (r: Json)
    ensures invoke(RequestFor(prompt, imageData)).Parsed? ==> r == invoke(RequestFor(prompt, imageData)).value
    ensures invoke(RequestFor(prompt, imageData)).Unparseable? ==> r == RestDecision(ParseFailure)
    ensures invoke(RequestFor(prompt, imageData)).Failed? ==>
      r == RestDecision("API error: " + invoke(RequestFor(prompt, imageData)).message)
  {
    match invoke(RequestFor(prompt, imageData))
    case Parsed(value) => value
    case Unparseable => RestDecision(ParseFailure)
    case Failed(message) => RestDecision("API error: " + message)
  }

  //
  // The decision with its metadata
  //

  /** The decision dictionary, or the exception from adding metadata to a
      reply that decoded to something other than an object. */
  datatype Decision = Decided(fields: map<string, Json>) | NotDecided(error: Error)

  function NumField(v: Option<real>): Option<Json>
  {
    if v.Some? then Some(JNum(v.value)) else None
  }

  function BoolField(v: Option<bool>): Option<Json>
  {
    if v.Some? then Some(JBool(v.value)) else None
  }

  const StatsKeys: set<string> := {"health", "endurance", "experience", "timestamp", "in_combat", "enemy_targeted"}

  /** The value the stats dictionary holds under `key`, if any. */
  function StatsField(s: Stats, key: string): Option<Json>
  {
    if key == "health" then NumField(s.health)
    else if key == "endurance" then NumField(s.endurance)
    else if key == "experience" then NumField(s.experience)
    else if key == "timestamp" then NumField(s.timestamp)
    else if key == "in_combat" then BoolField(s.inCombat)
    else if key == "enemy_targeted" then BoolField(s.enemyTargeted)
    else None
  }

  /** The stats dictionary as JSON. */
  function StatsJson(s: Stats): (j: map<string, Json>)
    ensures j.Keys <= {"health", "endurance", "experience", "timestamp", "in_combat", "enemy_targeted"}
    ensures "health" in j <==> s.health.Some?
    ensures "endurance" in j <==> s.endurance.Some?
    ensures "experience" in j <==> s.experience.Some?
    ensures "timestamp" in j <==> s.timestamp.Some?
    ensures "in_combat" in j <==> s.inCombat.Some?
    ensures "enemy_targeted" in j <==> s.enemyTargeted.Some?
    ensures s.health.Some? ==> j["health"] == JNum(s.health.value)
    ensures s.endurance.Some? ==> j["endurance"] == JNum(s.endurance.value)
    ensures s.experience.Some? ==> j["experience"] == JNum(s.experience.value)
    ensures s.timestamp.Some? ==> j["timestamp"] == JNum(s.timestamp.value)
    ensures s.inCombat.Some? ==> j["in_combat"] == JBool(s.inCombat.value)
    ensures s.enemyTargeted.Some? ==> j["enemy_targeted"] == JBool(s.enemyTargeted.value)
  {
    map key | key in StatsKeys && StatsField(s, key).Some? :: StatsField(s, key).value
  }

  const MetadataKeys: set<string> := {"scenario", "game_state", "timestamp"}

  /** The three metadata assignments of make_gameplay_decision. */
  function WithMetadata(decision: Json, scenario: Scenario, stats: Stats, stamp: real): (d: Decision)
    ensures d.Decided? <==> decision.JObj?
    ensures !decision.JObj? ==> d == NotDecided(NotItemAssignable)
    ensures d.Decided? ==>
      && d.fields.Keys == decision.fields.Keys + MetadataKeys
      && d.fields["scenario"] == JStr(ScenarioName(scenario))
      && d.fields["game_state"] == JObj(StatsJson(stats))
      && d.fields["timestamp"] == JNum(stamp)
      && forall k :: k in decision.fields && k !in MetadataKeys ==> d.fields[k] == decision.fields[k]
  {
    match decision
    case JObj(fields) =>
      Decided(fields["scenario" := JStr(ScenarioName(scenario))]
                    ["game_state" := JObj(StatsJson(stats))]
                    ["timestamp" := JNum(stamp)])
    case _ => NotDecided(NotItemAssignable)
  }

  /** The stats make_gameplay_decision works from: a fresh sample with the
      two flags filled in. */
  function Sampled(stats: Stats, inCombat: bool, targeted: bool): Stats
  {
    stats.(inCombat := Some(inCombat), enemyTargeted := Some(targeted))
  }

  /** The decision for sampled stats; `render` fills the scenario's prompt
      template with the stats, `screenshot` is the encoded screen or `None`,
      `stamp` is the clock when the metadata is added. */
  function DecisionFor(stats: Stats, screenshot: Option<string>, render: (Scenario, map<string, Json>) -> string,
                       invoke: Request -> Reply, stamp: real): Decision
  {
    var scenario := AnalyzeGameState(stats);
    WithMetadata(CallNovaWithImage(render(scenario, StatsJson(stats)), screenshot, invoke), scenario, stats, stamp)
  }

  /** make_gameplay_decision. The three screens and `now` feed
      get_player_stats; `combatEndurance` is the endurance reading that
      detect_combat_state samples; `targetEdges` is the edge count of the
      target panel. */
  method MakeGameplayDecision(monitor: GameStateMonitor, healthScreen: Image, enduranceScreen: Image,
                              experienceScreen: Image, now: real, combatEndurance: real, targetEdges: int,
                              screenshot: Option<string>, render: (Scenario, map<string, Json>) -> string,
                              invoke: Request -> Reply, stamp: real) returns (d: Decision)
    requires monitor.Valid()
    modifies monitor
    ensures monitor.Valid() && monitor.uiRegions == old(monitor.uiRegions)
    ensures monitor.lastEndurance == CombatStep(old(monitor.lastEndurance), combatEndurance).baseline
    ensures d == DecisionFor(
      Sampled(old(monitor.PlayerStats(healthScreen, enduranceScreen, experienceScreen, now)),
              CombatStep(old(monitor.lastEndurance), combatEndurance).inCombat, EnemyTargeted(targetEdges)),
      screenshot, render, invoke, stamp)
  {
    var stats := monitor.PlayerStats(healthScreen, enduranceScreen, experienceScreen, now);
    var inCombat := monitor.DetectCombatState(combatEndurance);
    stats := Sampled(stats, inCombat, EnemyTargeted(targetEdges));
    var scenario := AnalyzeGameState(stats);
    var prompt := render(scenario, StatsJson(stats));
    var decision := CallNovaWithImage(prompt, screenshot, invoke);
    d := WithMetadata(decision, scenario, stats, stamp);
  }

  //
  // Dispatch
  //

  /** How execute_decision ends: the routine ran (True), the action is not
      one of its names (False), or the routine raised (False). */
  datatype Dispatch = Ran | Unknown | Errored(error: Error)

  function FromOutcome(o: Outcome): Dispatch
  {
    if o.Done? then Ran else Errored(o.error)
  }

  /** The branch of execute_decision's if-chain an action value selects. */
  datatype Action =
    | Attack | PowerCombo | AoeCombo | Retreat | Rest | MoveForward | CircleStrafe
    | TurnLeft | TurnRight | Patrol | SearchEnemies | FindCover | Wait | Other

  function ActionName(a: Action): string
  {
    match a
    case Attack => "attack"
    case PowerCombo => "power_combo"
    case AoeCombo => "aoe_combo"
    case Retreat => "retreat"
    case Rest => "rest"
    case MoveForward => "move_forward"
    case CircleStrafe => "circle_strafe"
    case TurnLeft => "turn_left"
    case TurnRight => "turn_right"
    case Patrol => "patrol"
    case SearchEnemies => "search_enemies"
    case FindCover => "find_cover"
    case Wait => "wait"
    case Other => ""
  }

  const ActionNames: set<string> := {
    "attack", "power_combo", "aoe_combo", "retreat", "rest", "move_forward", "circle_strafe",
    "turn_left", "turn_right", "patrol", "search_enemies", "find_cover", "wait"}

  /** The action names whose routine exists on the controllers. */
  const RunnableActions: set<string> := ActionNames - {"patrol", "search_enemies"}

  /** The comparisons `action == 'attack'`, … in order; a value that is not
      a string equals none of them. */
  function ParseAction(j: Json): Action
  {
    if !j.JStr? then Other
    else if j.text == "attack" then Attack
    else if j.text == "power_combo" then PowerCombo
    else if j.text == "aoe_combo" then AoeCombo
    else if j.text == "retreat" then Retreat
    else if j.text == "rest" then Rest
    else if j.text == "move_forward" then MoveForward
    else if j.text == "circle_strafe" then CircleStrafe
    else if j.text == "turn_left" then TurnLeft
    else if j.text == "turn_right" then TurnRight
    else if j.text == "patrol" then Patrol
    else if j.text == "search_enemies" then SearchEnemies
    else if j.text == "find_cover" then FindCover
    else if j.text == "wait" then Wait
    else Other
  }

  /** `decision.get('action', 'rest')`. */
  function ActionOf(decision: map<string, Json>): Json
  {
    if "action" in decision then decision["action"] else JStr("rest")
  }

  predicate IsChainAction(a: Action)
  {
    a == Attack || a == PowerCombo || a == AoeCombo
  }

  /** The attack chain each chain action runs. */
  function ChainFor(a: Action): string
  {
    if a == Attack then "basic_combo" else if a == PowerCombo then "power_combo" else "aoe_combo"
  }

  const StrafeDuration := 2.0

  /** execute_attack_chain(name) on a fresh controller. */
  function ChainOutcome(name: string): Outcome
  {
    if name in PlayerAttacks.DefaultChains
    then PlayerAttacks.StepsOutcome(PlayerAttacks.DefaultHotkeys, PlayerAttacks.DefaultChains[name], PlayerAttacks.NoStop)
    else Raised(UnknownChain(name))
  }

  function ChainEvents(name: string): seq<Event>
  {
    if name in PlayerAttacks.DefaultChains
    then PlayerAttacks.StepsEvents(PlayerAttacks.DefaultHotkeys, PlayerAttacks.DefaultChains[name], PlayerAttacks.NoStop)
    else []
  }

  function Dispatched(a: Action): Dispatch
  {
    match a
    case Attack | PowerCombo | AoeCombo => FromOutcome(ChainOutcome(ChainFor(a)))
    case CircleStrafe => FromOutcome(PlayerMovement.CircleStrafeOutcome(StrafeDuration))
    case Patrol => Errored(MissingAttribute("patrol_area"))
    case SearchEnemies => Errored(MissingAttribute("target_nearest_enemy"))
    case Other => Unknown
    case _ => Ran
  }

  function DispatchEvents(a: Action): seq<Event>
  {
    match a
    case Attack | PowerCombo | AoeCombo => ChainEvents(ChainFor(a))
    case Retreat => Hold(PlayerMovement.Backward, 2.0)
    case Rest => [Slept(3.0)]
    case MoveForward => Hold(PlayerMovement.Forward, 1.5)
    case CircleStrafe => PlayerMovement.CircleStrafeEvents(StrafeDuration, true)
    case TurnLeft => Hold(PlayerMovement.TurnLeftKey, PlayerMovement.TurnTime(45.0))
    case TurnRight => Hold(PlayerMovement.TurnRightKey, PlayerMovement.TurnTime(45.0))
    case FindCover => Hold(PlayerMovement.Backward, 3.0)
    case Wait => [Slept(2.0)]
    case Patrol | SearchEnemies | Other => []
  }

  /** One chain action on a freshly built attack controller (building a
      controller has no effect on the device, so it is built where it is
      used). */
  method RunChain(device: Device, name: string) returns (ok: bool)
    modifies device
    ensures ok <==> ChainOutcome(name) == Done
    ensures device.events == old(device.events) + ChainEvents(name)
  {
    var attacks := new PlayerAttacks.AttackController(device);
    var outcome := attacks.ExecuteAttackChain(name, None);
    ok := outcome.Done?;
  }

  /** execute_decision on fresh controllers driving `device`. */
  method ExecuteDecision(decision: map<string, Json>, device: Device) returns (ok: bool)
    modifies device
    ensures ok <==> Dispatched(ParseAction(ActionOf(decision))) == Ran
    ensures device.events == old(device.events) + DispatchEvents(ParseAction(ActionOf(decision)))
  {
    var action := ParseAction(ActionOf(decision));
    var movement := new PlayerMovement.MovementController(device);
    if IsChainAction(action) {
      ok := RunChain(device, ChainFor(action));
    } else if action == Retreat {
      movement.MoveBackward(2.0);
      ok := true;
    } else if action == Rest {
      device.Sleep(3.0);
      ok := true;
    } else if action == MoveForward {
      movement.MoveForward(1.5);
      ok := true;
    } else if action == CircleStrafe {
      var outcome := movement.CircleStrafeTarget(StrafeDuration, true);
      ok := outcome.Done?;
    } else if action == TurnLeft {
      movement.TurnLeft(45.0);
      ok := true;
    } else if action == TurnRight {
      movement.TurnRight(45.0);
      ok := true;
    } else if action == Patrol || action == SearchEnemies {
      // the controllers have no such method: AttributeError, caught
      ok := false;
    } else if action == FindCover {
      movement.MoveBackward(3.0);
      ok := true;
    } else if action == Wait {
      device.Sleep(2.0);
      ok := true;
    } else {
      ok := false;
    }
  }

  //
  // Proofs
  //

  /** Low health or endurance classifies as recovery whatever the combat flags say. */
  lemma RecoveryOverridesCombat(stats: Stats, inCombat: Option<bool>, targeted: Option<bool>)
    requires Health(stats) < RecoveryHealth || Endurance(stats) < RecoveryEndurance
    ensures AnalyzeGameState(stats.(inCombat := inCombat, enemyTargeted := targeted)) == Recovery
  {
  }

  /** Outside recovery, the scenario is combat exactly when a flag is set. */
  lemma CombatIffEngaged(stats: Stats)
    requires AnalyzeGameState(stats) != Recovery
    ensures AnalyzeGameState(stats) == Combat <==> Engaged(stats)
    ensures AnalyzeGameState(stats) == Exploration <==> !Engaged(stats)
  {
  }

  /** Missing keys read as full health, full endurance and no flags. */
  lemma MissingKeysDefault(stats: Stats)
    ensures AnalyzeGameState(stats.(health := None)) == AnalyzeGameState(stats.(health := Some(100.0)))
    ensures AnalyzeGameState(stats.(endurance := None)) == AnalyzeGameState(stats.(endurance := Some(100.0)))
    ensures AnalyzeGameState(stats.(inCombat := None)) == AnalyzeGameState(stats.(inCombat := Some(false)))
    ensures AnalyzeGameState(stats.(enemyTargeted := None)) == AnalyzeGameState(stats.(enemyTargeted := Some(false)))
    ensures AnalyzeGameState(Stats(None, None, None, None, None, None)) == Exploration
  {
  }

  /** Lower health never leaves recovery. */
  lemma RecoveryMonotone(stats: Stats, health: real)
    requires AnalyzeGameState(stats) == Recovery && health <= Health(stats)
    ensures AnalyzeGameState(stats.(health := Some(health))) == Recovery
  {
  }

  /** A call that fails in any way yields a `rest` decision with a reason, so
      it never raises. */
  lemma FailedCallRests(prompt: string, imageData: Option<string>, invoke: Request -> Reply)
    requires !invoke(RequestFor(prompt, imageData)).Parsed?
    ensures CallNovaWithImage(prompt, imageData, invoke).JObj?
    ensures CallNovaWithImage(prompt, imageData, invoke).fields.Keys == {"action", "reason"}
    ensures ActionOf(CallNovaWithImage(prompt, imageData, invoke).fields) == JStr("rest")
  {
  }

  /** A failed call still becomes a decision whose action rests: the metadata
      never overwrites the action, and executing it sleeps three seconds and
      reports success. */
  lemma FailedCallDecisionRests(stats: Stats, screenshot: Option<string>, render: (Scenario, map<string, Json>) -> string,
                                invoke: Request -> Reply, stamp: real)
    requires !invoke(RequestFor(render(AnalyzeGameState(stats), StatsJson(stats)), screenshot)).Parsed?
    ensures DecisionFor(stats, screenshot, render, invoke, stamp).Decided?
    ensures var d := DecisionFor(stats, screenshot, render, invoke, stamp).fields;
      && d["scenario"] == JStr(ScenarioName(AnalyzeGameState(stats)))
      && ParseAction(ActionOf(d)) == Rest
  {
    var prompt := render(AnalyzeGameState(stats), StatsJson(stats));
    FailedCallRests(prompt, screenshot, invoke);
  }

  /** Resting (the default of a decision without an action or of a failed
      call) sleeps three seconds and reports success. */
  lemma RestRuns()
    ensures ParseAction(ActionOf(map[])) == Rest
    ensures Dispatched(Rest) == Ran && DispatchEvents(Rest) == [Slept(3.0)]
  {
  }

  /** Each listed name selects its own branch, and a value selects a branch
      exactly when it is one of the thirteen names. */
  lemma ParseActionNames(j: Json)
    ensures ParseAction(j) != Other <==> j.JStr? && j.text in ActionNames
    ensures ParseAction(j) != Other ==> ActionName(ParseAction(j)) == j.text
  {
  }

  lemma CircleStrafeRuns()
    ensures PlayerMovement.CircleSteps(StrafeDuration) == 20
    ensures PlayerMovement.CircleStrafeOutcome(StrafeDuration) == Done
  {
    assert StrafeDuration * 10.0 == 20.0;
  }

  lemma ChainActionsRun(a: Action)
    requires IsChainAction(a)
    ensures ChainFor(a) in PlayerAttacks.DefaultChains
    ensures ChainOutcome(ChainFor(a)) == Done
  {
    PlayerAttacks.DefaultChainRunsFully(ChainFor(a));
  }

  /** execute_decision returns True exactly for the eleven action names whose
      routine exists; patrol and search_enemies raise before any input, and
      every other value is unknown. */
  lemma DispatchSucceedsIff(j: Json)
    ensures Dispatched(ParseAction(j)) == Ran <==> j.JStr? && j.text in RunnableActions
    ensures Dispatched(ParseAction(j)) == Unknown <==> !(j.JStr? && j.text in ActionNames)
    ensures Dispatched(ParseAction(j)) != Ran ==> DispatchEvents(ParseAction(j)) == []
  {
    ParseActionNames(j);
    var a := ParseAction(j);
    if IsChainAction(a) {
      ChainActionsRun(a);
    } else if a == CircleStrafe {
      CircleStrafeRuns();
    }
  }

  /** The three chain actions press the hotkeys of basic_combo, power_combo
      and aoe_combo, one per step. */
  lemma ChainActionPresses(a: Action)
    requires IsChainAction(a)
    ensures a == Attack ==> Presses(DispatchEvents(a)) == ["1", "2", "3"]
    ensures a == PowerCombo ==> Presses(DispatchEvents(a)) == ["4", "5", "6"]
    ensures a == AoeCombo ==> Presses(DispatchEvents(a)) == ["7", "8", "9"]
  {
    PlayerAttacks.DefaultChainRunsFully(ChainFor(a));
    PlayerAttacks.DispatchedChainKeys();
  }

  lemma ChainEventsIdle(name: string)
    ensures HeldAfter({}, ChainEvents(name)) == {}
  {
    if name in PlayerAttacks.DefaultChains {
      var chain := PlayerAttacks.DefaultChains[name];
      PlayerAttacks.DefaultChainRunsFully(name);
      PlayerAttacks.UnguardedChainRunsFully(PlayerAttacks.DefaultHotkeys, chain);
      PlayerAttacks.StepsTraceIdle(PlayerAttacks.DefaultHotkeys, chain);
    }
  }

  /** Whatever the decision, executing it leaves no key held down. */
  lemma DispatchLeavesNoKeyHeld(a: Action)
    ensures HeldAfter({}, DispatchEvents(a)) == {}
  {
    var none: set<string> := {};
    match a
    case Attack | PowerCombo | AoeCombo => ChainEventsIdle(ChainFor(a));
    case CircleStrafe =>
      CircleStrafeRuns();
      PlayerMovement.CircleStrafeTurnsOnce(StrafeDuration, true);
    case Rest => PlayerMovement.PauseEffect(3.0, "");
    case Wait => PlayerMovement.PauseEffect(2.0, "");
    case Retreat => HoldEffect(none, PlayerMovement.Backward, 2.0, "");
    case MoveForward => HoldEffect(none, PlayerMovement.Forward, 1.5, "");
    case TurnLeft => HoldEffect(none, PlayerMovement.TurnLeftKey, PlayerMovement.TurnTime(45.0), "");
    case TurnRight => HoldEffect(none, PlayerMovement.TurnRightKey, PlayerMovement.TurnTime(45.0), "");
    case FindCover => HoldEffect(none, PlayerMovement.Backward, 3.0, "");
    case Patrol | SearchEnemies | Other =>
  }
}
