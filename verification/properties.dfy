/** Properties of the `Log` operations that relate several calls, or that
    spell out what a single call promises in the terms callers think in. */
module LoggerProperties {
  import opened Wrappers
  import opened Logger

  // ---------------------------------------------------------------- indentation

  /** Setting the indentation replaces the previous string: the result does
      not depend on the indentation the state had before. */
  lemma SetIndentationLevelReplaces(s1: State, s2: State, n: int)
    requires 0 <= n
    ensures SetIndentationLevel(s1, n).state.indentation
         == SetIndentationLevel(s2, n).state.indentation
         == Tabs(n)
  {
  }

  /** The error thrown for a negative indentation names the rejected value. */
  lemma NegativeIndentationMessage()
    ensures ErrorMessage(SetIndentationLevel(Init, -1).raised.value)
         == "Indentation level '-1' is not a positive number"
  {
  }

  /** The parts of a message can be read back from it: its first character
      is the lead's, its last is the tail's (or the closing quote), and the
      quoted argument sits between them. */
  lemma ErrorMessageReadBack(e: LogError)
    ensures var m := ErrorMessage(e);
            var lead := MessageLead(e);
            var tail := MessageTail(e);
            && |lead| > 0
            && |m| == |lead| + |MessageArgument(e)| + 2 + |tail|
            && m[0] == lead[0]
            && m[|m| - 1] == (if tail == "" then '\'' else tail[|tail| - 1])
            && m[|lead| + 1 .. |m| - |tail| - 1] == MessageArgument(e)
  {
    var m := ErrorMessage(e);
    var lead := MessageLead(e);
    var arg := MessageArgument(e);
    var tail := MessageTail(e);
    assert m == lead + ("'" + arg + "'") + tail;
    assert m[|lead| .. |m| - |tail|] == "'" + arg + "'";
  }

  /** The kind of an error, as a number. */
  function Kind(e: LogError): nat {
    match e
    case NegativeIndentation(_) => 0
    case FilterDefined(_) => 1
    case FilterMissing(_) => 2
    case LevelDefined(_) => 3
    case LevelProtected(_) => 4
    case LevelMissing(_) => 5
  }

  /** The kind a non-empty message announces, read from its first and last
      characters. */
  function KindOfMessage(m: string): nat
    requires |m| > 0
  {
    var first, last := m[0], m[|m| - 1];
    if first == 'I' then 0
    else if first == 'F' then (if last == 'd' then 1 else 2)
    else if first == 'T' then (if last == 'd' then 3 else 5)
    else 4
  }

  /** Every message announces its own kind. */
  lemma MessageAnnouncesKind(e: LogError)
    ensures |ErrorMessage(e)| > 0 && KindOfMessage(ErrorMessage(e)) == Kind(e)
  {
    ErrorMessageReadBack(e);
  }

  /** Distinct errors have distinct messages: the message alone tells which
      error was thrown and with which argument. */
  lemma ErrorMessageInjective(e1: LogError, e2: LogError)
    requires ErrorMessage(e1) == ErrorMessage(e2)
    ensures e1 == e2
  {
    MessageAnnouncesKind(e1);
    MessageAnnouncesKind(e2);
    assert MessageLead(e1) == MessageLead(e2) && MessageTail(e1) == MessageTail(e2);
    ErrorMessageReadBack(e1);
    ErrorMessageReadBack(e2);
    assert MessageArgument(e1) == MessageArgument(e2);
    if e1.NegativeIndentation? {
      Decimal.IntToStringInjective(e1.level, e2.level);
    }
  }

  // ---------------------------------------------------------------- filters

  /** On a duplicate-free filter list, `add_log_filter` succeeds exactly when
      the list followed by the arguments is still duplicate-free. */
  lemma {:induction false} AddLogFilterSucceedsIffDistinct(s: State, filters: seq<string>)
    requires NoDuplicates(s.debugFilters)
    ensures AddLogFilter(s, filters).raised == None
        <==> NoDuplicates(s.debugFilters + filters)
  {
    var e := s.debugFilters;
    var all := e + filters;
    if AddLogFilter(s, filters).raised == None {
      assert all == AddLogFilter(s, filters).state.debugFilters;
    } else {
      var i :| 0 <= i < |filters| && !FreshAt(e, filters, i);
      var j :| 0 <= j < |e + filters[..i]| && (e + filters[..i])[j] == filters[i];
      assert all[j] == all[|e| + i];
    }
  }

  /** The failing call of `add_log_filter` is not atomic: the filters before
      the duplicate stay added. */
  lemma AddLogFilterKeepsEarlierFilters()
    ensures AddLogFilter(Init, ["A", "B", "A", "C"])
         == Outcome(Init.(debugFilters := ["A", "B"]), Some(FilterDefined("A")))
  {
  }

  /** The failing call of `remove_log_filter` is not atomic either. */
  lemma RemoveLogFilterKeepsEarlierRemovals()
    ensures RemoveLogFilter(Init.(debugFilters := ["A", "B"]), ["A", "Z", "B"])
         == Outcome(Init.(debugFilters := ["B"]), Some(FilterMissing("Z")))
  {
    var filters := ["A", "Z", "B"];
    assert IndexOf(["A", "B"], "A") == 0;
    assert RemoveAt(["A", "B"], 0) == ["B"];
    assert filters[1..] == ["Z", "B"];
    assert IndexOf(["B"], "Z") == -1;
    assert RemoveLogFilter(Init.(debugFilters := ["B"]), ["Z", "B"])
        == Outcome(Init.(debugFilters := ["B"]), Some(FilterMissing("Z")));
  }

  /** On a duplicate-free list, a successful `remove_log_filter` leaves exactly
      the filters that were present and not named. */
  lemma RemoveLogFilterMembership(s: State, filters: seq<string>, x: string)
    requires NoDuplicates(s.debugFilters)
    requires multiset(filters) <= multiset(s.debugFilters)
    ensures RemoveLogFilter(s, filters).raised == None
    ensures x in RemoveLogFilter(s, filters).state.debugFilters
        <==> x in s.debugFilters && x !in filters
  {
    var r := RemoveLogFilter(s, filters).state.debugFilters;
    var e := s.debugFilters;
    DistinctCount(e, x);
    assert x in r <==> x in multiset(r);
    assert x in filters <==> x in multiset(filters);
  }

  /** In a duplicate-free sequence every element occurs once. */
  lemma {:induction false} DistinctCount<T>(xs: seq<T>, x: T)
    requires NoDuplicates(xs)
    ensures multiset(xs)[x] == if x in xs then 1 else 0
  {
    if |xs| > 0 {
      assert xs == [xs[0]] + xs[1..];
      assert NoDuplicates(xs[1..]) by {
        forall i, j | 0 <= i < j < |xs[1..]| ensures xs[1..][i] != xs[1..][j] {
          assert xs[1..][i] == xs[i + 1] && xs[1..][j] == xs[j + 1];
        }
      }
      DistinctCount(xs[1..], x);
      assert xs[0] !in xs[1..] by {
        forall j | 0 <= j < |xs[1..]| ensures xs[1..][j] != xs[0] {
          assert xs[1..][j] == xs[j + 1];
        }
      }
    }
  }

  /** Removing what a successful `add_log_filter` added succeeds and gives back
      the filters the list started with. */
  lemma AddThenRemoveFilters(s: State, filters: seq<string>)
    requires AddLogFilter(s, filters).raised == None
    ensures RemoveLogFilter(AddLogFilter(s, filters).state, filters).raised == None
    ensures multiset(RemoveLogFilter(AddLogFilter(s, filters).state, filters).state.debugFilters)
         == multiset(s.debugFilters)
  {
  }

  /** After `clear_log_filter`, every filtered debug line is shown while debug
      is on. */
  lemma ClearedFiltersShowEveryFilter(s: State, msg: string, filter: string)
    requires "debug" in s.settings && s.debugActivated && filter != ""
    ensures Log(ClearLogFilter(s), "debug", msg, Some(filter))
         == Success(Some(Emitted(s.settings["debug"].channel,
                                 s.indentation + s.settings["debug"].prefix
                                 + " (" + filter + ") " + msg)))
  {
  }

  /** Adding a filter makes the debug lines tagged with it visible. */
  lemma AddedFilterIsShown(s: State, f: string, msg: string)
    requires "debug" in s.settings && s.debugActivated && f != ""
    requires AddLogFilter(s, [f]).raised == None
    ensures Log(AddLogFilter(s, [f]).state, "debug", msg, Some(f)).value.Some?
  {
  }

  /** With a non-empty filter list, a debug line tagged with a filter outside
      the list is dropped. */
  lemma UnlistedFilterIsDropped(s: State, f: string, msg: string)
    requires "debug" in s.settings && s.debugFilters != [] && f !in s.debugFilters && f != ""
    ensures Log(s, "debug", msg, Some(f)) == Success(None)
  {
  }

  // ---------------------------------------------------------------- levels

  /** Removing a level just added restores the state. */
  lemma AddThenRemoveLevel(s: State, level: string, prefix: Option<string>, channel: Option<Channel>)
    requires level !in s.settings && level !in BuiltinLevels
    ensures RemoveLogLevel(AddLogLevel(s, level, prefix, channel).state, level) == Outcome(s, None)
  {
  }

  /** A level just added logs through its own prefix and callback. */
  lemma AddThenLog(s: State, level: string, prefix: string, channel: Channel,
                   msg: string, filter: Option<string>)
    requires level !in s.settings && level != "debug"
    ensures Log(AddLogLevel(s, level, Some(prefix), Some(channel)).state, level, msg, filter)
         == Success(Some(Emitted(channel, s.indentation + prefix + " " + msg)))
  {
  }

  /** A level added without prefix and callback logs "[ ]" lines to the console. */
  lemma AddWithDefaultsThenLog(s: State, level: string, msg: string)
    requires level !in s.settings && level != "debug"
    ensures Log(AddLogLevel(s, level, None, None).state, level, msg, None)
         == Success(Some(Emitted(ConsoleLog, s.indentation + "[ ]" + " " + msg)))
  {
  }

  // ---------------------------------------------------------------- emission

  /** Lines of every level but "debug" ignore the debug switch and the filters. */
  lemma NonDebugIgnoresDebugState(s1: State, s2: State, level: string, msg: string,
                                  f1: Option<string>, f2: Option<string>)
    requires level != "debug"
    requires s1.indentation == s2.indentation && s1.settings == s2.settings
    ensures Log(s1, level, msg, f1) == Log(s2, level, msg, f2)
  {
  }

  /** With debug off, "debug" lines are never emitted, whatever the filter. */
  lemma DebugOffIsSilent(s: State, msg: string, filter: Option<string>)
    requires "debug" in s.settings && !s.debugActivated
    ensures Log(s, "debug", msg, filter) == Success(None)
  {
  }

  /** Switching debug on, then off, brings back silence: `set_debug` keeps no memory. */
  lemma SetDebugOverwrites(s: State, a: bool, b: bool)
    ensures SetDebug(SetDebug(s, a), b) == SetDebug(s, b)
  {
  }

  /** An empty filter string counts as no filter. */
  lemma EmptyFilterIsNoFilter(s: State, level: string, msg: string)
    ensures Log(s, level, msg, Some("")) == Log(s, level, msg, None)
  {
  }
}
