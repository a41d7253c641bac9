/** Sequences of calls on the `Log` class, as a caller's script makes them,
    and the invariant that every reachable state keeps: the four built-in
    levels are present with their original prefixes and callbacks, the
    filter list has no duplicates, and the indentation is made of tabs. */
module Script {
  import opened Wrappers
  import opened Logger

  /** One call on the class.  `Try(body)` runs `body` and, if it throws,
      logs the error's message on the "error" level, as a caller's
      `try { … } catch (e) { Log.log("error", e.message); }` does. */
  datatype Command =
    | SetIndentationLevelCall(level: int)
    | SetDebugCall(flag: bool)
    | AddLogFilterCall(filters: seq<string>)
    | RemoveLogFilterCall(filters: seq<string>)
    | ClearLogFilterCall
    | AddLogLevelCall(name: string, prefix: Option<string>, channel: Option<Channel>)
    | RemoveLogLevelCall(name: string)
    | LogCall(name: string, msg: string, filter: Option<string>)
    | Try(body: Command)

  /** The state a run of calls leaves, the lines it emitted in order, and the
      error that escaped it, if any. */
  datatype Trace = Trace(state: State, emitted: seq<Emitted>, raised: Option<LogError>)

  /** The invariant of every state the class can reach from `Init`. */
  predicate Valid(s: State) {
    && (forall b :: b in DefaultSettings ==> b in s.settings && s.settings[b] == DefaultSettings[b])
    && NoDuplicates(s.debugFilters)
    && AllTabs(s.indentation)
  }

  lemma InitValid()
    ensures Valid(Init)
  {
  }

  /** One call. Only `LogCall` (and the handler of a `Try`) emits lines, and
      `LogCall` leaves the state alone. */
  function Exec(s: State, c: Command): (r: Trace)
    ensures c.LogCall? ==> r.state == s && |r.emitted| <= 1
    ensures c.LogCall? && c.name != "debug" && r.raised == None ==> |r.emitted| == 1
    ensures !c.LogCall? && !c.Try? ==> r.emitted == []
    ensures Valid(s) ==> Valid(r.state)
  {
    match c
    case SetIndentationLevelCall(n) =>
      var o := SetIndentationLevel(s, n);
      Trace(o.state, [], o.raised)
    case SetDebugCall(flag) => Trace(SetDebug(s, flag), [], None)
    case AddLogFilterCall(filters) =>
      var o := AddLogFilter(s, filters);
      Trace(o.state, [], o.raised)
    case RemoveLogFilterCall(filters) =>
      var o := RemoveLogFilter(s, filters);
      Trace(o.state, [], o.raised)
    case ClearLogFilterCall => Trace(ClearLogFilter(s), [], None)
    case AddLogLevelCall(name, prefix, channel) =>
      var o := AddLogLevel(s, name, prefix, channel);
      Trace(o.state, [], o.raised)
    case RemoveLogLevelCall(name) =>
      var o := RemoveLogLevel(s, name);
      BuiltinsAreProtected();
      Trace(o.state, [], o.raised)
    case LogCall(name, msg, filter) =>
      Emit(s, Log(s, name, msg, filter))
    case Try(body) =>
      var t := Exec(s, body);
      if t.raised == None then t
      else
        var h := Emit(t.state, Log(t.state, "error", ErrorMessage(t.raised.value), None));
        Trace(h.state, t.emitted + h.emitted, h.raised)
  }

  /** The trace of a `log` call that left the state `s`. */
  function Emit(s: State, r: Result<Option<Emitted>, LogError>): (t: Trace)
    ensures t.state == s && |t.emitted| <= 1
    ensures t.raised == None <==> r.Success?
  {
    match r
    case Success(Some(e)) => Trace(s, [e], None)
    case Success(None) => Trace(s, [], None)
    case Failure(err) => Trace(s, [], Some(err))
  }

  lemma BuiltinsAreProtected()
    ensures forall b :: b in DefaultSettings ==> b in BuiltinLevels
  {
  }

  /** A script of calls, stopped by the first error that escapes. */
  function Run(s: State, cmds: seq<Command>): (r: Trace)
    ensures Valid(s) ==> Valid(r.state)
    ensures r.raised == None ==> |r.emitted| >= |Logs(cmds)|
    decreases |cmds|
  {
    if |cmds| == 0 then Trace(s, [], None)
    else
      var t := Exec(s, cmds[0]);
      if t.raised != None then t
      else
        var rest := Run(t.state, cmds[1..]);
        assert Logs(cmds) == Logs(cmds[..1]) + Logs(cmds[1..]) by { LogsSplit(cmds); }
        Trace(rest.state, t.emitted + rest.emitted, rest.raised)
  }

  /** The `LogCall`s of a script on a level that shows every line. */
  function Logs(cmds: seq<Command>): seq<Command>
    decreases |cmds|
  {
    if |cmds| == 0 then []
    else (if cmds[0].LogCall? && cmds[0].name != "debug" then [cmds[0]] else []) + Logs(cmds[1..])
  }

  lemma LogsSplit(cmds: seq<Command>)
    requires |cmds| > 0
    ensures Logs(cmds) == Logs(cmds[..1]) + Logs(cmds[1..])
  {
  }

  /** Whatever a script does, the built-in levels keep their prefixes and
      callbacks and the filter list stays duplicate-free. */
  lemma BuiltinLevelsSurvive(cmds: seq<Command>, b: string)
    requires b in BuiltinLevels
    ensures b in Run(Init, cmds).state.settings
    ensures Run(Init, cmds).state.settings[b] == DefaultSettings[b]
    ensures NoDuplicates(Run(Init, cmds).state.debugFilters)
  {
    InitValid();
  }

  // Calls of the demonstration script, each evaluated in the state the
  // script has reached when it makes it.

  /** An "info" line goes to `console.log` with the "[i]" prefix. */
  lemma DemoInfo()
    ensures Exec(Init, LogCall("info", "Scrat", None))
         == Trace(Init, [Emitted(ConsoleLog, "[i] Scrat")], None)
  {
    assert Init.indentation + "[i]" + " " + "Scrat" == "[i] Scrat";
  }

  /** The three indentation calls of the script: each replaces the tabs of
      the previous one. */
  lemma DemoIndent()
    ensures Exec(Init, SetIndentationLevelCall(1))
         == Trace(Init.(indentation := "\t"), [], None)
    ensures Exec(Init.(indentation := "\t"), SetIndentationLevelCall(2))
         == Trace(Init.(indentation := "\t\t"), [], None)
    ensures Exec(Init.(indentation := "\t\t"), SetIndentationLevelCall(0))
         == Trace(Init, [], None)
  {
    assert Tabs(1) == "\t";
    assert Tabs(2) == "\t\t";
  }

  /** A "warning" line carries the indentation in force. */
  lemma DemoWarning()
    ensures Exec(Init.(indentation := "\t"), LogCall("warning", "axe", None))
         == Trace(Init.(indentation := "\t"), [Emitted(ConsoleWarn, "\t[!] axe")], None)
  {
    assert "\t" + "[!]" + " " + "axe" == "\t[!] axe";
  }

  /** A rejected indentation leaves the tabs alone and, caught, is reported
      on the "error" level. */
  lemma DemoNegativeIndentation()
    ensures Exec(Init.(indentation := "\t\t"), Try(SetIndentationLevelCall(-1)))
         == Trace(Init.(indentation := "\t\t"),
                  [Emitted(ConsoleError, "\t\t" + "[X]" + " " + ErrorMessage(NegativeIndentation(-1)))],
                  None)
  {
  }

  /** A "debug" line is dropped while debug is off; once the indentation is
      reset and debug is switched on, it is shown. */
  lemma DemoDebugSwitch()
    ensures Exec(Init.(indentation := "\t\t"), LogCall("debug", "hidden", None))
         == Trace(Init.(indentation := "\t\t"), [], None)
    ensures Exec(Init, SetDebugCall(true)) == Trace(Init.(debugActivated := true), [], None)
    ensures Exec(Init.(debugActivated := true), LogCall("debug", "quark", None))
         == Trace(Init.(debugActivated := true), [Emitted(ConsoleLog, "[D] quark")], None)
  {
    assert "" + "[D]" + " " + "quark" == "[D] quark";
  }

  /** A filtered debug line is shown while the filter list is empty. */
  lemma DemoFilterWhileListEmpty()
    ensures Exec(Init.(debugActivated := true), LogCall("debug", "one", Some("F1")))
         == Trace(Init.(debugActivated := true), [Emitted(ConsoleLog, "[D] (F1) one")], None)
  {
    assert "" + "[D]" + " (" + "F1" + ") " + "one" == "[D] (F1) one";
  }

  /** Adding a filter twice is reported, and the list keeps one copy. */
  lemma DemoDuplicateFilter()
    ensures Exec(Init.(debugActivated := true, debugFilters := ["F1"]), Try(AddLogFilterCall(["F1"])))
         == Trace(Init.(debugActivated := true, debugFilters := ["F1"]),
                  [Emitted(ConsoleError, "" + "[X]" + " " + ErrorMessage(FilterDefined("F1")))],
                  None)
  {
  }

  /** Once the list holds "F1", lines filtered by "F1" are shown and lines
      filtered by "F2" are not. */
  lemma DemoListedFilters()
    ensures Exec(Init.(debugActivated := true, debugFilters := ["F1"]), LogCall("debug", "two", Some("F1")))
         == Trace(Init.(debugActivated := true, debugFilters := ["F1"]),
                  [Emitted(ConsoleLog, "[D] (F1) two")], None)
    ensures Exec(Init.(debugActivated := true, debugFilters := ["F1"]), LogCall("debug", "what", Some("F2")))
         == Trace(Init.(debugActivated := true, debugFilters := ["F1"]), [], None)
  {
    assert IndexOf(["F1"], "F1") == 0;
    assert IndexOf(["F1"], "F2") == -1;
    assert "" + "[D]" + " (" + "F1" + ") " + "two" == "[D] (F1) two";
  }
}
