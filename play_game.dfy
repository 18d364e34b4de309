/** The session layer around the decision cycle: the in-memory log of
    decisions (numbered consecutively from 1, appended to and never
    rewritten), the query for the most recent entries, the start-up check for
    the credential variables, and the ten-cell text bars of the status display. */
module PlayGame {
  import opened Py
  import opened LlmIntegrations

  //
  // Session log
  //

  /** One log entry: the wall-clock stamp (ISO text), the decision dictionary,
      whether executing it succeeded, and its sequence number in the session. */
  datatype LogEntry = LogEntry(timestamp: string, decision: map<string, Json>, executionSuccess: bool, sessionActionCount: int)

  /** Entries carry the sequence numbers 1, 2, ..., n in order. */
  predicate Numbered(history: seq<LogEntry>)
  {
    forall i :: 0 <= i < |history| ==> history[i].sessionActionCount == i + 1
  }

  /** get_recent_actions: `history[-count:]`, or `[]` when the history is
      empty. Python's slice makes `count == 0` return the whole history and a
      negative count drop that many entries from the front. */
  function RecentActions(history: seq<LogEntry>, count: int): (r: seq<LogEntry>)
    ensures history == [] ==> r == []
    ensures count >= 1 ==> r == history[|history| - Min(count, |history|)..]
    ensures count == 0 ==> r == history
    ensures count < 0 ==> r == history[Min(-count, |history|)..]
  {
    if history == [] then [] else SliceFrom(history, -count)
  }

  /** What one logging call records: the decision, whether it ran, and when. */
  datatype Cycle = Cycle(timestamp: string, decision: map<string, Json>, executionSuccess: bool)

  /** The history a fresh logger holds after logging `cycles` in order. */
  function History(cycles: seq<Cycle>): seq<LogEntry>
    decreases |cycles|
  {
    if cycles == [] then []
    else
      var c := cycles[|cycles| - 1];
      var before := History(cycles[..|cycles| - 1]);
      before + [LogEntry(c.timestamp, c.decision, c.executionSuccess, |before| + 1)]
  }

  /** GameplayLogger; the session file, the printed summary and the clock are
      not part of this model, so the caller supplies the stamp. */
  class GameplayLogger {
    var actionHistory: seq<LogEntry>

    ghost predicate Valid()
      reads this
    {
      Numbered(actionHistory)
    }

    constructor ()
      ensures Valid() && actionHistory == []
    {
      actionHistory := [];
    }

    /** log_decision: appends exactly one entry numbered one past the current
        length; earlier entries are untouched. */
    method LogDecision(decision: map<string, Json>, executionSuccess: bool, now: string)
      requires Valid()
      modifies this
      ensures Valid()
      ensures actionHistory == old(actionHistory) + [LogEntry(now, decision, executionSuccess, |old(actionHistory)| + 1)]
      ensures actionHistory[..|old(actionHistory)|] == old(actionHistory)
    {
      var entry := LogEntry(now, decision, executionSuccess, |actionHistory| + 1);
      actionHistory := actionHistory + [entry];
    }

    function GetRecentActions(count: int): seq<LogEntry>
      reads this
    {
      RecentActions(actionHistory, count)
    }
  }

  /** Logging a run of cycles on a fresh logger leaves the history that
      `History` describes. */
  method LogSession(cycles: seq<Cycle>) returns (logger: GameplayLogger)
    ensures fresh(logger) && logger.Valid()
    ensures logger.actionHistory == History(cycles)
  {
    logger := new GameplayLogger();
    for i := 0 to |cycles|
      invariant logger.Valid()
      invariant logger.actionHistory == History(cycles[..i])
    {
      logger.LogDecision(cycles[i].decision, cycles[i].executionSuccess, cycles[i].timestamp);
      assert cycles[..i + 1][..i] == cycles[..i];
    }
    assert cycles[..|cycles|] == cycles;
  }

  //
  // Environment validation
  //

  const RequiredVars: seq<string> := ["AWS_ACCESS_KEY_ID", "AWS_SECRET_ACCESS_KEY"]

  /** `not os.getenv(var)`: the variable is absent or empty. */
  predicate Unset(env: map<string, string>, name: string)
  {
    name !in env || env[name] == ""
  }

  /** The `missing_vars` comprehension: the names of `vars` that are unset, in order. */
  function MissingVars(env: map<string, string>, vars: seq<string>): (missing: seq<string>)
    ensures |missing| <= |vars|
    ensures forall v :: v in missing <==> v in vars && Unset(env, v)
    decreases |vars|
  {
    if vars == [] then []
    else (if Unset(env, vars[0]) then [vars[0]] else []) + MissingVars(env, vars[1..])
  }

  /** validate_environment over the process environment `env`. */
  function ValidateEnvironment(env: map<string, string>): (ok: bool)
    ensures ok <==> !Unset(env, "AWS_ACCESS_KEY_ID") && !Unset(env, "AWS_SECRET_ACCESS_KEY")
  {
    MissingVars(env, RequiredVars) == []
  }

  //
  // Status bars
  //

  const FilledCell := '█'
  const EmptyCell := '░'

  /** `filled` filled cells followed by `10 - filled` empty ones. */
  function Bar(filled: int): (r: string)
    ensures 0 <= filled <= 10 ==> |r| == 10
    ensures 0 <= filled <= 10 ==> forall i :: 0 <= i < |r| ==> (r[i] == FilledCell <==> i < filled)
    ensures filled > 10 ==> r == RepeatChar(FilledCell, filled)
    ensures filled < 0 ==> r == RepeatChar(EmptyCell, 10 - filled)
  {
    RepeatChar(FilledCell, filled) + RepeatChar(EmptyCell, 10 - filled)
  }

  /** A number as Python holds it: the stats may hold an int (a default, or
      a bar reading clamped to exactly 0 or 100) or a float (every other bar
      reading). */
  datatype Number = Int(i: int) | Float(f: real)

  /** The bar text, or the exception that building it raises. */
  datatype Rendered = Text(bar: string) | Raises(error: Error)

  /** The bar as display_game_state builds it: `"█" * (v // 10) + ...`. For
      a float `v // 10` is a float, and multiplying a string by a float
      raises TypeError. */
  function BarAsWritten(value: Number): (r: Rendered)
    ensures value.Float? ==> r == Raises(NotRepeatable)
    ensures value.Int? && 0 <= value.i <= 100 ==>
      && r.Text? && |r.bar| == 10
      && forall k :: 0 <= k < 10 ==> (r.bar[k] == FilledCell <==> k < value.i / 10)
  {
    match value
    case Int(i) => Text(Bar(i / 10))
    case Float(_) => Raises(NotRepeatable)
  }

  /** The bar for a reading of 75 percent as it comes from the monitor. */
  lemma ThreeQuarterBarRaises()
    ensures BarAsWritten(Float(75.0)) == Raises(NotRepeatable)
    ensures BarAsWritten(Int(75)) == Text("███████░░░")
  {
    assert Int(75).i / 10 == 7;
    assert RepeatChar(FilledCell, 7) == "███████";
    assert RepeatChar(EmptyCell, 3) == "░░░";
  }

  function Value(n: Number): real
  {
    if n.Int? then n.i as real else n.f
  }

  /** The whole tens of a reading, `v // 10` taken as an integer. */
  function Tens(v: real): (t: int)
    ensures t as real * 10.0 <= v < (t + 1) as real * 10.0
  {
    (v / 10.0).Floor
  }

  /** The bar with the cell count taken as an integer, `int(v // 10)`: the
      whole tens of the reading, for ints and floats alike. */
  function DisplayBar(value: Number): (r: string)
    ensures 0.0 <= Value(value) <= 100.0 ==>
      && |r| == 10
      && forall k :: 0 <= k < 10 ==> (r[k] == FilledCell <==> (k + 1) as real * 10.0 <= Value(value))
  {
    Bar(Tens(Value(value)))
  }

  /** On integer readings the corrected bar is the bar as written. */
  lemma DisplayBarAgreesOnInts(i: int)
    requires 0 <= i <= 100
    ensures BarAsWritten(Int(i)) == Text(DisplayBar(Int(i)))
  {
    var q := i / 10;
    assert q * 10 <= i < q * 10 + 10;
    assert Tens(i as real) == q;
  }

  /** display_game_state's two bars as written: `stats.get(key, 0)` for a
      missing reading, then `BarAsWritten` on each. */
  function StatusBarsAsWritten(health: Option<Number>, endurance: Option<Number>): (bars: (Rendered, Rendered))
    ensures health.Some? && health.value.Float? ==> bars.0 == Raises(NotRepeatable)
    ensures endurance.Some? && endurance.value.Float? ==> bars.1 == Raises(NotRepeatable)
    ensures health.None? ==> bars.0 == Text(Bar(0))
    ensures endurance.None? ==> bars.1 == Text(Bar(0))
    ensures health.Some? && health.value.Int? && 0 <= health.value.i <= 100 ==> bars.0 == Text(Bar(health.value.i / 10))
    ensures endurance.Some? && endurance.value.Int? && 0 <= endurance.value.i <= 100 ==> bars.1 == Text(Bar(endurance.value.i / 10))
  {
    (BarAsWritten(GetOr(health, Int(0))), BarAsWritten(GetOr(endurance, Int(0))))
  }

  /** The corrected pair of bars, with `DisplayBar` in place of `BarAsWritten`;
      missing readings show as 0. */
  function StatusBars(health: Option<Number>, endurance: Option<Number>): (bars: (string, string))
    ensures 0.0 <= Value(GetOr(health, Int(0))) <= 100.0 ==> |bars.0| == 10
    ensures 0.0 <= Value(GetOr(endurance, Int(0))) <= 100.0 ==> |bars.1| == 10
    ensures health.None? ==> forall k :: 0 <= k < |bars.0| ==> bars.0[k] == EmptyCell
  {
    var empty := DisplayBar(Int(0));
    assert forall k :: 0 <= k < |empty| ==> empty[k] != FilledCell;
    (DisplayBar(GetOr(health, Int(0))), DisplayBar(GetOr(endurance, Int(0))))
  }

  /** Where the display as written draws its bars at all (integer or missing
      readings in [0,100]), it draws exactly the corrected bars. */
  lemma StatusBarsAgreeOnInts(health: Option<Number>, endurance: Option<Number>)
    requires health.Some? ==> health.value.Int? && 0 <= health.value.i <= 100
    requires endurance.Some? ==> endurance.value.Int? && 0 <= endurance.value.i <= 100
    ensures StatusBarsAsWritten(health, endurance) == (Text(StatusBars(health, endurance).0), Text(StatusBars(health, endurance).1))
  {
    DisplayBarAgreesOnInts(GetOr(health, Int(0)).i);
    DisplayBarAgreesOnInts(GetOr(endurance, Int(0)).i);
  }

  //
  // Proofs
  //

  /** The logged history holds one entry per cycle, numbered 1..n, each with
      its cycle's decision, outcome and stamp. */
  lemma {:induction false} HistoryNumbered(cycles: seq<Cycle>)
    ensures |History(cycles)| == |cycles|
    ensures Numbered(History(cycles))
    ensures forall i :: 0 <= i < |cycles| ==>
      && History(cycles)[i].decision == cycles[i].decision
      && History(cycles)[i].executionSuccess == cycles[i].executionSuccess
      && History(cycles)[i].timestamp == cycles[i].timestamp
    decreases |cycles|
  {
    if cycles != [] {
      HistoryNumbered(cycles[..|cycles| - 1]);
    }
  }

  /** Logging more cycles only extends the history: every earlier history is
      a prefix of every later one. */
  lemma {:induction false} HistoryAppendOnly(cycles: seq<Cycle>, n: nat)
    requires n <= |cycles|
    ensures |History(cycles)| == |cycles|
    ensures |History(cycles[..n])| == n
    ensures History(cycles[..n]) == History(cycles)[..n]
    decreases |cycles|
  {
    HistoryNumbered(cycles);
    HistoryNumbered(cycles[..n]);
    if n < |cycles| {
      var init := cycles[..|cycles| - 1];
      assert init[..n] == cycles[..n];
      HistoryAppendOnly(init, n);
      HistoryNumbered(init);
      assert History(cycles)[..|init|] == History(init);
    }
  }

  /** The newest entry is the last one logged, and asking for at least as many
      entries as there are returns them all. */
  lemma RecentAfterLog(history: seq<LogEntry>, entry: LogEntry, count: int)
    ensures RecentActions(history + [entry], 1) == [entry]
    ensures count >= |history| ==> RecentActions(history, count) == history
    ensures count >= 1 ==> |RecentActions(history, count)| == Min(count, |history|)
  {
  }
}
