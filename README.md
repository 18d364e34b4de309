# City of Heroes gameplay bot: the rule layer

This project models the rules that sit under the bot's screen grabbing, model
calls and key presses. All of it is verified in Dafny.

- **State monitor** (`game_state.dfy`, module `GameState`).
  - Bar percentages are read from HSV images by counting, in the crop, the pixels whose three channels fall inside inclusive bounds.
  - The count is divided by the *requested* region area and clamped.
  - Health is the larger of a green and a red reading.
  - The endurance-drop combat heuristic keeps one remembered `last_endurance`.
  - The health-recovery wait polls until the target is reached or the time runs out.
  - Region calibration rescales the *current* regions.
- **Decision engine** (`llm_integrations.dfy`, module `LlmIntegrations`).
  - A priority rule classifies the stats as recovery, combat or exploration.
  - The request is built and sent to the hosted model.
  - Every failed call falls back to a `rest` decision.
  - Metadata is added to the decision.
  - The if-chain dispatches an action name to a movement or attack routine.
- **Attack controller** (`player_attacks.dfy`, module `PlayerAttacks`).
  - It holds the hotkey map for slots 1..9, the mutable registry of attack chains and the ability timings.
  - Its routines press those hotkeys: single abilities, chains with an optional low-health break, custom sequences, rapid fire, rotations and selection by enemy count.
- **Movement controller** (`player_movement.dfy`, module `PlayerMovement`).
  - Each macro holds a key for a time: key down, sleep, key up.
  - The combined macros are the circle strafe, the kite, the retreat, releasing every key (rest) and one navigation step.
- **Session layer** (`play_game.dfy`, module `PlayGame`).
  - The in-memory decision log is append-only and its entries are numbered 1..n.
  - A query returns the most recent log entries.
  - A start-up check looks for the credential variables.
  - The status display draws ten-cell text bars.
- **Shared pieces.**
  - `input_events.dfy` (module `Input`) models the keyboard and `time.sleep` as one event trace (press, down, up, sleep). It also computes which keys a trace leaves held and for how long.
  - `py_semantics.dfy` (module `Py`) models the Python semantics the rules rely on: slicing with negative and out-of-range bounds, `int()` of a float and string repetition.

How each outside dependency is modelled:

| Source dependency | In the model |
|---|---|
| Screen images | Already converted to HSV, as rows of pixel triples |
| Edge count of the target panel | An input |
| The hosted model | A function from the request to a reply: parsed JSON, unparseable text, or an exception message |
| Prompt templates | A rendering function supplied by the caller |
| The clock and health samples | Supplied sequences |
| `atan2` and `sqrt` in `navigate_to_waypoint` | The distance and bearing are parameters, tied to the squared integer distance by the precondition |

Behaviour of the code worth knowing:

- **Calibration compounds.** `calibrate_ui_regions` scales the *current* regions, so two calls to half resolution quarter them. A second call at the same resolution scales the regions again (`CalibrateTwiceCompounds`).
- **No vocabulary check.** A decision's action is never checked against its scenario's action set. Any of the thirteen names runs in any scenario.
- **Two actions always fail.** `patrol` and `search_enemies` call methods the controllers do not have. The resulting AttributeError is caught, so `execute_decision` returns False for them. It returns True only for the other eleven names.

## Model

| member | source | states |
|---|---|---|
| `Py.Slice` | COH_BOT/game_state.py:54 | Python/numpy slice `s[start:stop]`: a negative bound counts from the end and is floored at 0, a non-negative one is capped at the length; the result is the subsequence between the two normalised bounds, or empty when the start passes the stop |
| `Py.SliceFrom` | play_game.py:60 | `s[start:]` is the suffix of `s` from the normalised start: `len(s)+start` floored at 0 for a negative start, `start` capped at the length otherwise |
| `Py.Trunc` | COH_BOT/game_state.py:181-186 | `int()` truncates toward zero: within one below (non-negative) or above (negative) the real |
| `Py.RepeatChar` | play_game.py:100 | `c * n` has `max(n, 0)` characters, all `c` |
| `Input.Device.Press` | COH_BOT/player_attacks.py:67 | a key pulse appends exactly one press event |
| `Input.Device.KeyDown` | COH_BOT/player_movement.py:38 | appends exactly one key-down event |
| `Input.Device.KeyUp` | COH_BOT/player_movement.py:40 | appends exactly one key-up event |
| `Input.Device.Sleep` | COH_BOT/player_movement.py:39 | appends exactly one sleep event of the given length |
| `Input.HoldEffect` | COH_BOT/player_movement.py:36-40 | a down/sleep/up triple releases its key again, holds it (and any key already down) for exactly the sleep, and pulses nothing |
| `Input.RepeatIdle` | COH_BOT/player_movement.py:93-105 | a block that leaves the keyboard idle, repeated n times, leaves it idle and holds each key n times as long |
| `GameState.GameStateMonitor.constructor` | COH_BOT/game_state.py:19-36 | the five default regions, no endurance baseline yet |
| `GameState.Percentage` | COH_BOT/game_state.py:63-71 | count over total as a percentage in [0,100]; 0 without dividing when total ≤ 0 |
| `GameState.BarPercentage` | COH_BOT/game_state.py:50-71 | extract_bar_percentage is always in [0,100] and is 0 when width·height ≤ 0 |
| `GameState.UniformBar` | COH_BOT/game_state.py:53-68 | on an all-matching image the reading is visible rows × visible columns over the *requested* area, so a region running past the image edge is diluted |
| `GameState.CropCountUniform` | COH_BOT/game_state.py:54-65 | the matched-pixel count of a crop is visible rows × visible columns when every pixel matches |
| `GameState.FullBar` | COH_BOT/game_state.py:53-69 | a region inside the image whose every pixel matches reads exactly 100 |
| `GameState.EmptyBar` | COH_BOT/game_state.py:59-71 | an image with no pixel in range reads exactly 0 |
| `GameState.GameStateMonitor.HealthPercentage` | COH_BOT/game_state.py:73-93 | health is the larger of the green and red readings of the same screenshot and region, and lies in [0,100] |
| `GameState.GameStateMonitor.EndurancePercentage` | COH_BOT/game_state.py:95-102 | the blue reading of the endurance region, in [0,100] |
| `GameState.GameStateMonitor.ExperiencePercentage` | COH_BOT/game_state.py:104-111 | the yellow reading of the experience region, in [0,100] |
| `GameState.GameStateMonitor.PlayerStats` | COH_BOT/game_state.py:113-120 | the stats dictionary has the three readings in [0,100] and the timestamp, and no combat flags |
| `GameState.EnemyTargetIsThreshold` | COH_BOT/game_state.py:132-134 | targeted iff the edge count exceeds 100: monotone in the count, 101 yes, 100 no |
| `GameState.GameStateMonitor.DetectCombatState` | COH_BOT/game_state.py:136-147 | combat iff a baseline exists and it exceeds the endurance by more than 5; on combat the baseline is kept, otherwise it becomes the current endurance; regions untouched |
| `GameState.CombatRunAnswers` | COH_BOT/game_state.py:141-147 | over successive calls the first never reports combat, and each answer is True exactly when the reading is more than 5 below the last earlier reading answered False (or the initial baseline if none was) |
| `GameState.CombatRunStep` | COH_BOT/game_state.py:141-147 | answer i is one heuristic step from the baseline the first i readings leave in `last_endurance` |
| `GameState.CombatRunPrefix` | COH_BOT/game_state.py:141-147 | the first i answers depend only on the first i readings |
| `GameState.LastQuietReadingFront` | COH_BOT/game_state.py:146 | searching the answers from the end for the last False one agrees with starting from the value the first reading leaves in `last_endurance` |
| `GameState.LastQuietIsSearch` | COH_BOT/game_state.py:146 | the stored `last_endurance` after a run of calls is the last reading answered False, or the initial value if every answer was True |
| `GameState.SustainedDrainStaysInCombat` | COH_BOT/game_state.py:143-146 | since the baseline is not refreshed during combat, readings that all stay more than 5 below it keep reporting combat |
| `GameState.GameStateMonitor.WaitForHealthRecovery` | COH_BOT/game_state.py:149-159 | True iff some health sample ≥ target is taken while elapsed time < timeout; it stops at the first such sample; False only after the clock passes the timeout with every sample below target |
| `GameState.Calibrated` | COH_BOT/game_state.py:179-188 | calibration keeps exactly the same region names |
| `GameState.GameStateMonitor.CalibrateUiRegions` | COH_BOT/game_state.py:173-188 | the new regions are the current ones with each of x, y, w, h scaled by resolution/reference and truncated; the baseline is unchanged |
| `GameState.CalibrateAtReference` | COH_BOT/game_state.py:173-188 | the default resolution (1920, 1080) leaves every region unchanged |
| `GameState.CalibrateHalf` | COH_BOT/game_state.py:176-186 | half resolution halves every non-negative coordinate, rounding down |
| `GameState.CalibrateTwiceCompounds` | COH_BOT/game_state.py:180-188 | calibrating twice to half resolution quarters the health bar, unlike calibrating once |
| `GameState.ScaleShrinks` | COH_BOT/game_state.py:176-186 | a resolution at most the reference never enlarges a non-negative coordinate, and strictly shrinks a positive one when smaller |
| `LlmIntegrations.AnalyzeGameState` | COH_BOT/llm_integrations.py:126-139 | recovery iff health < 30 or endurance < 20; combat only with a flag set; exploration only with none set |
| `LlmIntegrations.RecoveryOverridesCombat` | COH_BOT/llm_integrations.py:134-135 | low health or endurance gives recovery whatever the combat flags are |
| `LlmIntegrations.CombatIffEngaged` | COH_BOT/llm_integrations.py:136-139 | outside recovery: combat iff in_combat or enemy_targeted, exploration otherwise |
| `LlmIntegrations.MissingKeysDefault` | COH_BOT/llm_integrations.py:128-131 | missing keys read as health 100, endurance 100, flags False; empty stats classify as exploration |
| `LlmIntegrations.RecoveryMonotone` | COH_BOT/llm_integrations.py:134-135 | lowering health never leaves recovery |
| `LlmIntegrations.RequestFor` | COH_BOT/llm_integrations.py:84-105 | the content starts with the text part; a second, image part is present iff the image data is truthy |
| `LlmIntegrations.CallNovaWithImage` | COH_BOT/llm_integrations.py:80-124 | a parsed reply is returned as is; an unparseable one gives rest / "Failed to parse AI response"; an exception gives rest / "API error: " + message |
| `LlmIntegrations.FailedCallRests` | COH_BOT/llm_integrations.py:116-124 | every failed call yields an object with exactly action and reason, whose action is "rest" |
| `LlmIntegrations.StatsJson` | COH_BOT/llm_integrations.py:173 | the stats dictionary has only the six stat keys; each is present exactly when its stat is, with the stat's value as a JSON number (health, endurance, experience, timestamp) or boolean (in_combat, enemy_targeted) |
| `LlmIntegrations.WithMetadata` | COH_BOT/llm_integrations.py:171-176 | an object reply gains scenario, game_state and timestamp and keeps its other fields; a non-object reply raises TypeError |
| `LlmIntegrations.MakeGameplayDecision` | COH_BOT/llm_integrations.py:153-176 | samples the stats, runs the combat heuristic once (updating the baseline), classifies, calls the model and adds metadata; the regions are unchanged |
| `LlmIntegrations.FailedCallDecisionRests` | COH_BOT/llm_integrations.py:153-176 | a failed call still becomes a decision tagged with its scenario whose action is rest |
| `LlmIntegrations.ExecuteDecision` | COH_BOT/llm_integrations.py:178-223 | returns True iff the selected routine ran without raising, and emits exactly that routine's input events |
| `LlmIntegrations.RunChain` | COH_BOT/llm_integrations.py:189-194 | a chain action runs its chain on a fresh attack controller and reports whether it finished |
| `LlmIntegrations.RestRuns` | COH_BOT/llm_integrations.py:180-198 | a decision without an action rests: a 3-second sleep, reported as success |
| `LlmIntegrations.ParseActionNames` | COH_BOT/llm_integrations.py:189-217 | a value selects a branch iff it is one of the thirteen names, and then the branch of that name |
| `LlmIntegrations.DispatchSucceedsIff` | COH_BOT/llm_integrations.py:178-223 | True iff the action is one of the eleven runnable names; unknown iff not one of the thirteen; a False result emits no input |
| `LlmIntegrations.ChainActionsRun` | COH_BOT/llm_integrations.py:189-194 | attack, power_combo and aoe_combo name registered chains that complete |
| `LlmIntegrations.ChainActionPresses` | COH_BOT/llm_integrations.py:189-194 | attack presses 1,2,3; power_combo 4,5,6; aoe_combo 7,8,9 |
| `LlmIntegrations.CircleStrafeRuns` | COH_BOT/llm_integrations.py:201-202 | the dispatched two-second circle strafe runs 20 steps and does not raise |
| `LlmIntegrations.DispatchLeavesNoKeyHeld` | COH_BOT/llm_integrations.py:185-214 | whatever the action, executing it leaves no key held down |
| `PlayerAttacks.AttackController.constructor` | COH_BOT/player_attacks.py:17-59 | hotkeys for slots 1..9, the eight default chains in order, the default timings |
| `PlayerAttacks.AttackController.UseAbility` | COH_BOT/player_attacks.py:61-71 | a slot outside the hotkeys raises before any input; otherwise exactly one press of its key, then its timing (1.5 if absent) only when waiting for the animation |
| `PlayerAttacks.UseEventsShape` | COH_BOT/player_attacks.py:66-71 | one press of the slot's key; two events with the wait, one without; the wait is the timing or 1.5 |
| `PlayerAttacks.StopIndex` | COH_BOT/player_attacks.py:80-93 | the stopping step is the first that is low on health or has no hotkey; every earlier step passes both checks |
| `PlayerAttacks.AttackController.ExecuteAttackChain` | COH_BOT/player_attacks.py:73-93 | an unregistered name raises before any input; otherwise the steps before the stopping point are emitted in order, press then wait |
| `PlayerAttacks.ChainRunShape` | COH_BOT/player_attacks.py:78-93 | a run presses the keys of the steps before the first low-health check, two events per step; a low-health stop ends normally; only a slot without a hotkey raises |
| `PlayerAttacks.StepsTracePresses` | COH_BOT/player_attacks.py:80-93 | a full run presses each step's hotkey once, in order, with two events per step |
| `PlayerAttacks.UnguardedChainRunsFully` | COH_BOT/player_attacks.py:78-93 | without the health check, a chain of valid slots completes with exactly len(chain) presses |
| `PlayerAttacks.InvalidFirstSlotRaises` | COH_BOT/player_attacks.py:80-93 | a first step without a hotkey raises before anything is pressed |
| `PlayerAttacks.StepsTraceIdle` | COH_BOT/player_attacks.py:80-93 | a chain only pulses keys, so it never leaves a key held |
| `PlayerAttacks.DefaultChainRunsFully` | COH_BOT/player_attacks.py:37-46 | every default chain completes, pressing its slots' keys in order |
| `PlayerAttacks.DispatchedChainKeys` | COH_BOT/player_attacks.py:24-40 | basic_combo presses 1,2,3; power_combo 4,5,6; aoe_combo 7,8,9 |
| `PlayerAttacks.AttackController.CustomAttackSequence` | COH_BOT/player_attacks.py:95-99 | the chain rule without a break: every step in order until a slot without a hotkey raises |
| `PlayerAttacks.AttackController.RapidFireAttack` | COH_BOT/player_attacks.py:101-105 | count presses each followed by the interval; a bad slot raises before any input when count > 0 |
| `PlayerAttacks.RapidFirePresses` | COH_BOT/player_attacks.py:101-105 | rapid fire presses its one key exactly count times |
| `PlayerAttacks.RapidFireIsSequence` | COH_BOT/player_attacks.py:95-105 | rapid fire emits the same events as a custom sequence of count copies of (slot, interval) |
| `PlayerAttacks.FirstInvalid` | COH_BOT/player_attacks.py:109-111 | the first ability without a hotkey, every earlier one valid |
| `PlayerAttacks.AttackController.RotationCycle` | COH_BOT/player_attacks.py:110-111 | one pass uses each ability with its animation wait, raising at the first invalid one |
| `PlayerAttacks.AttackController.RotationAttack` | COH_BOT/player_attacks.py:107-111 | cycles passes over the abilities; an invalid one raises during the first pass |
| `PlayerAttacks.RotationPresses` | COH_BOT/player_attacks.py:107-111 | over valid slots the presses are the abilities' keys in cyclic order, cycles times |
| `PlayerAttacks.RotationPressCount` | COH_BOT/player_attacks.py:107-111 | over valid slots a rotation presses len(abilities)·cycles keys |
| `PlayerAttacks.AttackController.AddCustomChain` | COH_BOT/player_attacks.py:130-132 | sets or overwrites one name, leaving every other chain and the timings unchanged; the slots are not validated |
| `PlayerAttacks.AttackController.ModifyAbilityTiming` | COH_BOT/player_attacks.py:134-136 | sets one timing, leaving the chains unchanged |
| `PlayerAttacks.AttackController.AvailableChains` | COH_BOT/player_attacks.py:138-140 | every registered name exactly once |
| `PlayerAttacks.AttackController.SmartAttackSelection` | COH_BOT/player_attacks.py:190-197 | runs the chain registered under the selected name, without the health check |
| `PlayerAttacks.SelectionIsRegistered` | COH_BOT/player_attacks.py:190-197 | 1 selects basic_combo; any other count ≤ 3 (including 0 and negatives) ranged_combo; larger counts aoe_combo; all are registered |
| `PlayerMovement.MovementController.constructor` | COH_BOT/player_movement.py:17-34 | the controller drives the given input device |
| `PlayerMovement.MovementController.HoldKey` | COH_BOT/player_movement.py:36-58 | key down, sleep for the duration, key up, for one key |
| `PlayerMovement.MovementController.MoveForward` | COH_BOT/player_movement.py:36-40 | holds w for the duration |
| `PlayerMovement.MovementController.MoveBackward` | COH_BOT/player_movement.py:42-46 | holds s for the duration |
| `PlayerMovement.MovementController.StrafeLeft` | COH_BOT/player_movement.py:48-52 | holds a for the duration |
| `PlayerMovement.MovementController.StrafeRight` | COH_BOT/player_movement.py:54-58 | holds d for the duration |
| `PlayerMovement.MovementController.TurnLeft` | COH_BOT/player_movement.py:60-66 | holds q for angle/180 seconds |
| `PlayerMovement.MovementController.TurnRight` | COH_BOT/player_movement.py:68-73 | holds e for angle/180 seconds |
| `PlayerMovement.HoldReleases` | COH_BOT/player_movement.py:36-58 | a single-key macro leaves no key held and holds only its key, for exactly the duration |
| `PlayerMovement.TurnHeading` | COH_BOT/player_movement.py:60-73 | a held turn changes the heading by exactly the requested angle (90 gives half a second) |
| `PlayerMovement.MovementController.Jump` | COH_BOT/player_movement.py:75-77 | one press of space |
| `PlayerMovement.MovementController.ToggleSprint` | COH_BOT/player_movement.py:79-81 | one press of r |
| `PlayerMovement.MovementController.ToggleFly` | COH_BOT/player_movement.py:83-85 | one press of f |
| `PlayerMovement.MovementController.CircleStrafeTarget` | COH_BOT/player_movement.py:87-105 | int(duration·10) steps of forward, strafe and turn to the chosen side, then a pause; zero steps raises ZeroDivisionError before any input |
| `PlayerMovement.MovementController.CircleStrafeStep` | COH_BOT/player_movement.py:95-105 | one step: forward 0.3, side strafe 0.4, side turn, pause 0.3 of the step |
| `PlayerMovement.CircleStepEffect` | COH_BOT/player_movement.py:95-105 | one step leaves the keyboard idle and holds forward, the side key and the side's turn key for their parts of the step |
| `PlayerMovement.CircleStrafeTurnsOnce` | COH_BOT/player_movement.py:87-105 | with at least one step the strafe turns exactly 360° toward the chosen side and leaves no key held |
| `PlayerMovement.ShortCircleStrafeRaises` | COH_BOT/player_movement.py:89-91 | a duration strictly between -0.1 and 0.1 truncates to 0 steps: ZeroDivisionError, nothing emitted |
| `PlayerMovement.MovementController.KiteEnemy` | COH_BOT/player_movement.py:107-115 | back 2, left 15°, back 1, right 30°, back 1, left 15° |
| `PlayerMovement.KiteTimes` | COH_BOT/player_movement.py:107-115 | the kite holds s for 4 seconds and each turn key for 30° worth, nothing else |
| `PlayerMovement.KiteKeepsHeading` | COH_BOT/player_movement.py:107-115 | the kite ends facing the way it started and only moves backward |
| `PlayerMovement.MovementController.Retreat` | COH_BOT/player_movement.py:117-121 | back 3, turn left 180°, forward 5 |
| `PlayerMovement.RetreatTimes` | COH_BOT/player_movement.py:117-121 | the retreat holds s 3 s, q for 180° worth and w 5 s, nothing else |
| `PlayerMovement.RetreatTurnsAround` | COH_BOT/player_movement.py:117-121 | the retreat turns exactly 180° left and leaves no key held |
| `PlayerMovement.Releases` | COH_BOT/player_movement.py:126-127 | one key-up per key, in the key map's order |
| `PlayerMovement.MovementController.Rest` | COH_BOT/player_movement.py:123-128 | one key-up for every key-map value, then half a second of sleep |
| `PlayerMovement.ReleasesEffect` | COH_BOT/player_movement.py:126-127 | releasing a list of keys removes exactly those keys from the held set and pulses nothing |
| `PlayerMovement.RestReleasesAll` | COH_BOT/player_movement.py:123-128 | after rest no key of the key map is held, whatever was held before |
| `PlayerMovement.CloseEnough` | COH_BOT/player_movement.py:135-138 | for the non-negative square root, distance < 5 iff dx²+dy² < 25 |
| `PlayerMovement.MovementController.NavigateToWaypoint` | COH_BOT/player_movement.py:130-153 | True with no input iff dx²+dy² < 25; otherwise the optional turn and the forward hold, then False |
| `PlayerMovement.NavigationStepBounds` | COH_BOT/player_movement.py:143-153 | a navigation step turns toward the target by at most 45° (none within 10°) and moves forward min(distance/20, 2) seconds, leaving no key held |
| `PlayGame.GameplayLogger.constructor` | play_game.py:26-34 | a new logger has an empty history |
| `PlayGame.GameplayLogger.LogDecision` | play_game.py:36-45 | appends exactly one entry numbered previous length + 1, leaving every earlier entry unchanged and the history numbered 1..n |
| `PlayGame.LogSession` | play_game.py:36-45 | logging a run of cycles on a fresh logger gives exactly the history that logging them one at a time describes |
| `PlayGame.HistoryNumbered` | play_game.py:38-45 | after n logged cycles the history has n entries numbered 1..n, each with its cycle's decision, outcome and stamp |
| `PlayGame.HistoryAppendOnly` | play_game.py:45 | every earlier history is a prefix of every later one |
| `PlayGame.RecentActions` | play_game.py:58-60 | [] on an empty history; for count ≥ 1 the last min(count, n) entries; count 0 the whole history; a negative count drops that many from the front |
| `PlayGame.RecentAfterLog` | play_game.py:58-60 | the most recent entry is the last logged; a count ≥ n returns everything; count ≥ 1 returns min(count, n) entries |
| `PlayGame.MissingVars` | play_game.py:80-81 | a name is reported missing iff it is required and unset or empty |
| `PlayGame.ValidateEnvironment` | play_game.py:78-89 | False iff AWS_ACCESS_KEY_ID or AWS_SECRET_ACCESS_KEY is unset or empty |
| `PlayGame.Bar` | play_game.py:100-101 | with 0..10 filled cells: 10 characters, filled exactly below the filled count |
| `PlayGame.BarAsWritten` | play_game.py:93-101 | an integer health h in [0,100] gives h//10 filled cells then empty ones, 10 in all; a float health raises TypeError |
| `PlayGame.ThreeQuarterBarRaises` | play_game.py:100 | a 75.0 reading raises, while the integer 75 draws seven filled and three empty cells |
| `PlayGame.DisplayBar` | play_game.py:100-101 | for any reading in [0,100], int or float: 10 cells, cell k filled iff the reading reaches (k+1)·10 |
| `PlayGame.DisplayBarAgreesOnInts` | play_game.py:100-101 | on integer readings the corrected bar is exactly the bar as written |
| `PlayGame.StatusBarsAsWritten` | play_game.py:93-101 | display_game_state's two bars as written: a missing reading draws the bar of 0, an integer reading h in [0,100] draws h//10 filled cells, a float reading raises TypeError |
| `PlayGame.StatusBars` | play_game.py:100-101 | the corrected display (see Findings): both bars are 10 cells for readings in [0,100]; a missing health shows an empty bar |
| `PlayGame.StatusBarsAgreeOnInts` | play_game.py:100-101 | on integer or missing readings in [0,100] the display as written draws exactly the corrected bars |

## Left out

- Screen capture, the BGR/RGB→HSV and grayscale conversions, Canny edge detection, PNG encoding and base64 (`take_screenshot`, `get_screenshot_data`) are library calls. Images enter as HSV pixel rows and the target panel as its edge count.
- The boto3 client, `invoke_model` and JSON decoding are not modelled. The call is a function from the request to a reply: parsed JSON, unparseable text, or the message of an exception. Missing reply fields count as an exception.
- The prompt template text is opaque prose. The caller supplies a rendering function, and the `json.dumps` layout of the stats is not modelled.
- `time.sleep` appears only as sleep events on the input device. `time.time` and `datetime.now` are supplied values.
- `GameState.GameStateMonitor.WaitForHealthRecovery`: its one-second sleeps are not recorded, because the monitor owns no input device. It requires the supplied clock to pass the timeout eventually. With a clock that never advances, the source loops forever.
- The health check in `execute_attack_chain` builds a new monitor before each step. The model takes the sampled readings as a function of the step index, and does not model the ImportError fallback.
- Real pyautogui side effects and the FAILSAFE/PAUSE settings are not modelled. Only the emitted event trace is.
- Floating point is not modelled: reals are exact, so `int()` in calibration truncates the exact product. `atan2` and `sqrt` in `navigate_to_waypoint` enter as the bearing and distance parameters, constrained by the squared integer distance.
- `PlayerMovement.MovementController.NavigateToWaypoint`: the stated bounds are on the emitted turn and forward hold. The model does not compute the bearing.
- The dictionary order of the calibrated regions is not modelled, because regions are a map. The attack registry does keep its insertion order, since `get_available_chains` returns it.
- Infinite and interactive loops are not modelled: `monitor_continuous`, `continuous_attack_mode`, `run_gameplay_loop` with its KeyboardInterrupt handling, `cleanup` and `main`. The same goes for console printing, including the status text of `display_game_state` and the summary line of `log_decision`.
- Log file writes, the logs directory, dotenv loading and `DECISION_INTERVAL` are I/O or configuration. Only the in-memory `action_history` is kept.
- `conditional_attack` takes an arbitrary callable and swallows every exception.
- `interrupt_current_attack`, `burst_combo`, `aoe_clear`, `safe_attack`, `emergency_attack`, `buff_rotation` and `target_and_attack` are one-line wrappers over the modelled routines. They are not part of this model.
- `COH_BOT/__init__.py` is not part of this model.
- `GameState.BarPercentage`: an empty crop (zero width or height, a region wholly outside the image, an empty image) makes the colour conversion at COH_BOT/game_state.py:57 raise. The model reads 0 there instead, and `UniformBar` and `EmptyBar` cover that case only in the model.
- `Input.Device.Sleep`: records any length, a negative one included. `time.sleep` raises ValueError on a negative length, and that is not modelled. So a negative duration, angle, timing or chain wait is recorded as a sleep rather than raising, and `HoldReleases` and the other release properties hold for the modelled trace only. In the source such a call leaves its key held.
- Default arguments are not modelled: every parameter is explicit. The defaults are count=3, interval=0.5, cycles=1, enemy_count=1, duration=1.0, angle=45, target_percentage=80, timeout=30, wait_for_animation=True and interrupt_on_low_health=False.
- `PlayerAttacks.AttackController.AddCustomChain` stores the chain as a value. The list that `add_custom_chain` stores is shared with the caller (COH_BOT/player_attacks.py:130-132), so the caller's later mutations of it show up in the registry. The model does not capture that aliasing.
- pyautogui's PAUSE is not modelled. It is one module-wide setting that sleeps after every pyautogui call, and each controller's constructor overwrites it (0.1 s at COH_BOT/player_movement.py:21, 0.05 s at COH_BOT/player_attacks.py:21), so the controller built last sets it. `execute_decision` builds the attack controller second (COH_BOT/llm_integrations.py:185-186), so every dispatched call, movement included, pauses 0.05 s. Only the explicit `time.sleep` calls appear in the traces.

## Findings

| source | as written | input that shows it | evidently intended | confidence | as-written member | corrected member |
|---|---|---|---|---|---|---|
| play_game.py:100-101 | `"█" * (health // 10)` with health read from the bar extractor, which returns a float for every reading strictly between 0 and 100; `float // 10` is a float and a string times a float raises TypeError, which the gameplay loop catches and stops on | health 75.0 (3000 of 4000 pixels green) | draw `int(health // 10)` filled cells and the rest empty | high (not executed) | `PlayGame.BarAsWritten`, `PlayGame.StatusBarsAsWritten` | `PlayGame.DisplayBar`, `PlayGame.StatusBars` |
