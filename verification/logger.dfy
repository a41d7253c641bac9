/** The static `Log` class of log.ts as a pure state machine.

    The class keeps four pieces of process-wide state: the indentation
    string, the debug switch, the ordered list of debug filters and the table
    of log levels.  Here they form one immutable `State`; every public
    operation takes a state and returns the state it leaves behind together
    with the error it throws, if any, and `Log` returns the line it hands to
    the level's callback instead of calling it. */
module Logger {
  import opened Wrappers
  import Decimal

  /** The output callback of a level.  The three console functions the class
      installs are named; any other callback a caller supplies is an opaque
      identifier. */
  datatype Channel = ConsoleLog | ConsoleWarn | ConsoleError | Callback(id: nat)

  /** One entry of the level table: the prefix and the callback. */
  datatype Setting = Setting(prefix: string, channel: Channel)

  datatype State = State(
    indentation: string,
    debugActivated: bool,
    debugFilters: seq<string>,
    settings: map<string, Setting>)

  /** The errors the class throws; each carries the offending argument. */
  datatype LogError =
    | NegativeIndentation(level: int)
    | FilterDefined(filter: string)
    | FilterMissing(filter: string)
    | LevelDefined(name: string)
    | LevelProtected(name: string)
    | LevelMissing(name: string)

  /** The `message` field of the thrown object (its `name` is always
      "LogError").  Every message quotes the offending argument between a
      lead and a tail that depend only on the kind of error. */
  function ErrorMessage(e: LogError): (m: string)
    ensures m == MessageLead(e) + "'" + MessageArgument(e) + "'" + MessageTail(e)
  {
    match e
    case NegativeIndentation(n) =>
      "Indentation level " + "'" + Decimal.IntToString(n) + "'" + " is not a positive number"
    case FilterDefined(f) => "Filter " + "'" + f + "'" + " is already defined"
    case FilterMissing(f) => "Filter " + "'" + f + "'" + " does not exist"
    case LevelDefined(l) => "The log level " + "'" + l + "'" + " is already defined"
    case LevelProtected(l) => "You cannot remove log level " + "'" + l + "'"
    case LevelMissing(l) => "The log level " + "'" + l + "'" + " does not exist"
  }

  /** The text before the quoted argument of a message. */
  function MessageLead(e: LogError): string {
    match e
    case NegativeIndentation(_) => "Indentation level "
    case FilterDefined(_) => "Filter "
    case FilterMissing(_) => "Filter "
    case LevelDefined(_) => "The log level "
    case LevelProtected(_) => "You cannot remove log level "
    case LevelMissing(_) => "The log level "
  }

  /** The argument a message quotes. */
  function MessageArgument(e: LogError): string {
    match e
    case NegativeIndentation(n) => Decimal.IntToString(n)
    case FilterDefined(f) => f
    case FilterMissing(f) => f
    case LevelDefined(l) => l
    case LevelProtected(l) => l
    case LevelMissing(l) => l
  }

  /** The text after the quoted argument of a message. */
  function MessageTail(e: LogError): string {
    match e
    case NegativeIndentation(_) => " is not a positive number"
    case FilterDefined(_) => " is already defined"
    case FilterMissing(_) => " does not exist"
    case LevelDefined(_) => " is already defined"
    case LevelProtected(_) => ""
    case LevelMissing(_) => " does not exist"
  }

  /** The state an operation leaves behind, and the error it threw, if any.
      A thrown error does not undo the mutations made before it. */
  datatype Outcome = Outcome(state: State, raised: Option<LogError>)

  /** A line handed to a level's callback. */
  datatype Emitted = Emitted(channel: Channel, line: string)

  /** The levels that can never be removed. */
  const BuiltinLevels: seq<string> := ["info", "warning", "error", "debug"]

  const DefaultSettings: map<string, Setting> := map[
    "info" := Setting("[i]", ConsoleLog),
    "warning" := Setting("[!]", ConsoleWarn),
    "error" := Setting("[X]", ConsoleError),
    "debug" := Setting("[D]", ConsoleLog)]

  /** The state at load time. */
  const Init: State := State("", false, [], DefaultSettings)

  /** Defaults of the optional arguments of `add_log_level`. */
  const DefaultPrefix: string := "[ ]"
  const DefaultChannel: Channel := ConsoleLog

  predicate NoDuplicates<T(==)>(xs: seq<T>) {
    forall i, j :: 0 <= i < j < |xs| ==> xs[i] != xs[j]
  }

  predicate AllTabs(s: string) {
    forall i :: 0 <= i < |s| ==> s[i] == '\t'
  }

  /** `Array.prototype.indexOf`: the first position of `x`, or -1. */
  function IndexOf<T(==)>(xs: seq<T>, x: T): (r: int)
    ensures -1 <= r < |xs|
    ensures r == -1 <==> x !in xs
    ensures 0 <= r ==> xs[r] == x && x !in xs[..r]
    decreases |xs|
  {
    if |xs| == 0 then -1
    else if xs[0] == x then 0
    else
      var k := IndexOf(xs[1..], x);
      if k == -1 then -1
      else
        assert xs[..k + 1] == [xs[0]] + xs[1..][..k];
        k + 1
  }

  /** The indentation string for `n` levels, built one tab at a time. */
  function Tabs(n: nat): (r: string)
    ensures |r| == n && AllTabs(r)
  {
    if n == 0 then "" else Tabs(n - 1) + "\t"
  }

  /** `set_indentation_level(n)`. */
  function SetIndentationLevel(s: State, n: int): (r: Outcome)
    ensures 0 <= n ==> r.raised == None
    ensures 0 <= n ==> r.state == s.(indentation := r.state.indentation)
    ensures 0 <= n ==> |r.state.indentation| == n && AllTabs(r.state.indentation)
    ensures n < 0 ==> r == Outcome(s, Some(NegativeIndentation(n)))
  {
    if n >= 0 then Outcome(s.(indentation := Tabs(n)), None)
    else Outcome(s, Some(NegativeIndentation(n)))
  }

  /** `set_debug(flag)`. */
  function SetDebug(s: State, flag: bool): (r: State)
    ensures r.debugActivated == flag
    ensures r.indentation == s.indentation && r.debugFilters == s.debugFilters
    ensures r.settings == s.settings
  {
    s.(debugActivated := flag)
  }

  /** Whether `filters[i]` is new when it is reached: it is neither in the
      list the call started from nor among the filters added before it. */
  predicate FreshAt(existing: seq<string>, filters: seq<string>, i: int)
    requires 0 <= i < |filters|
  {
    filters[i] !in existing + filters[..i]
  }

  /** `add_log_filter(...filters)`: appends the filters in argument order and
      throws on the first one already present, keeping those appended before it. */
  function AddLogFilter(s: State, filters: seq<string>): (r: Outcome)
    ensures r.state == s.(debugFilters := r.state.debugFilters)
    ensures r.raised == None <==>
              forall i :: 0 <= i < |filters| ==> FreshAt(s.debugFilters, filters, i)
    ensures r.raised == None ==> r.state.debugFilters == s.debugFilters + filters
    ensures r.raised != None ==>
              exists k :: 0 <= k < |filters|
                       && (forall i :: 0 <= i < k ==> FreshAt(s.debugFilters, filters, i))
                       && !FreshAt(s.debugFilters, filters, k)
                       && r.state.debugFilters == s.debugFilters + filters[..k]
                       && r.raised == Some(FilterDefined(filters[k]))
    ensures NoDuplicates(s.debugFilters) ==> NoDuplicates(r.state.debugFilters)
    decreases |filters|
  {
    if |filters| == 0 then Outcome(s, None)
    else
      var f := filters[0];
      if IndexOf(s.debugFilters, f) == -1 then
        var s' := s.(debugFilters := s.debugFilters + [f]);
        var r := AddLogFilter(s', filters[1..]);
        AddLogFilterStep(s.debugFilters, filters, r.state.debugFilters, r.raised);
        r
      else
        assert s.debugFilters + filters[..0] == s.debugFilters;
        assert !FreshAt(s.debugFilters, filters, 0);
        Outcome(s, Some(FilterDefined(f)))
  }

  /** The inductive step of `AddLogFilter`: what holds of the rest of the
      arguments after the first was appended holds of all of them. */
  lemma AddLogFilterStep(existing: seq<string>, filters: seq<string>,
                         result: seq<string>, raised: Option<LogError>)
    requires 0 < |filters| && filters[0] !in existing
    requires raised == None <==>
               forall i :: 0 <= i < |filters| - 1 ==> FreshAt(existing + [filters[0]], filters[1..], i)
    requires raised == None ==> result == existing + [filters[0]] + filters[1..]
    requires raised != None ==>
               exists k :: 0 <= k < |filters| - 1
                        && (forall i :: 0 <= i < k ==> FreshAt(existing + [filters[0]], filters[1..], i))
                        && !FreshAt(existing + [filters[0]], filters[1..], k)
                        && result == existing + [filters[0]] + filters[1..][..k]
                        && raised == Some(FilterDefined(filters[1..][k]))
    requires NoDuplicates(existing + [filters[0]]) ==> NoDuplicates(result)
    ensures raised == None <==>
              forall i :: 0 <= i < |filters| ==> FreshAt(existing, filters, i)
    ensures raised == None ==> result == existing + filters
    ensures raised != None ==>
              exists k :: 0 <= k < |filters|
                       && (forall i :: 0 <= i < k ==> FreshAt(existing, filters, i))
                       && !FreshAt(existing, filters, k)
                       && result == existing + filters[..k]
                       && raised == Some(FilterDefined(filters[k]))
    ensures NoDuplicates(existing) ==> NoDuplicates(result)
  {
    var e' := existing + [filters[0]];
    var rest := filters[1..];
    assert FreshAt(existing, filters, 0) by {
      assert existing + filters[..0] == existing;
    }
    forall i | 1 <= i < |filters|
      ensures FreshAt(existing, filters, i) <==> FreshAt(e', rest, i - 1)
    {
      assert existing + filters[..i] == e' + rest[..i - 1];
    }
    if raised == None {
      assert existing + filters == e' + rest;
      forall i | 0 <= i < |filters| ensures FreshAt(existing, filters, i) {
        if i > 0 {
          assert FreshAt(e', rest, i - 1);
        }
      }
    } else {
      var k :| 0 <= k < |rest|
             && (forall i :: 0 <= i < k ==> FreshAt(e', rest, i))
             && !FreshAt(e', rest, k)
             && result == e' + rest[..k]
             && raised == Some(FilterDefined(rest[k]));
      assert e' + rest[..k] == existing + filters[..k + 1];
      forall i | 0 <= i < k + 1 ensures FreshAt(existing, filters, i) {
        if i > 0 {
          assert FreshAt(e', rest, i - 1);
        }
      }
      assert !FreshAt(existing, filters, k + 1);
    }
    if NoDuplicates(existing) {
      assert NoDuplicates(e') by {
        forall i, j | 0 <= i < j < |e'| ensures e'[i] != e'[j] {
          if j == |existing| {
            assert e'[i] == existing[i];
          }
        }
      }
    }
  }

  /** Removes the element at position `i`, as `splice(i, 1)` does. */
  function RemoveAt<T>(xs: seq<T>, i: nat): (r: seq<T>)
    requires i < |xs|
    ensures |r| == |xs| - 1
    ensures forall j :: 0 <= j < |r| ==> r[j] == if j < i then xs[j] else xs[j + 1]
    ensures multiset(r) == multiset(xs) - multiset{xs[i]}
  {
    assert xs == xs[..i] + [xs[i]] + xs[i + 1..];
    xs[..i] + xs[i + 1..]
  }

  /** `remove_log_filter(...filters)`: removes the filters in argument order
      and throws on the first one no longer present, keeping the removals made
      before it.  Seen as multisets, the call succeeds exactly when the
      arguments fit inside the list, and takes them out of it. */
  function RemoveLogFilter(s: State, filters: seq<string>): (r: Outcome)
    ensures r.state == s.(debugFilters := r.state.debugFilters)
    ensures r.raised == None <==> multiset(filters) <= multiset(s.debugFilters)
    ensures r.raised == None ==>
              multiset(r.state.debugFilters) == multiset(s.debugFilters) - multiset(filters)
    ensures r.raised != None ==>
              exists k :: 0 <= k < |filters|
                       && multiset(filters[..k]) <= multiset(s.debugFilters)
                       && filters[k] !in multiset(s.debugFilters) - multiset(filters[..k])
                       && multiset(r.state.debugFilters)
                          == multiset(s.debugFilters) - multiset(filters[..k])
                       && r.raised == Some(FilterMissing(filters[k]))
    ensures NoDuplicates(s.debugFilters) ==> NoDuplicates(r.state.debugFilters)
    decreases |filters|
  {
    if |filters| == 0 then Outcome(s, None)
    else
      var f := filters[0];
      var index := IndexOf(s.debugFilters, f);
      if index != -1 then
        var s' := s.(debugFilters := RemoveAt(s.debugFilters, index));
        RemoveAtKeepsDistinct(s.debugFilters, index);
        var r := RemoveLogFilter(s', filters[1..]);
        RemoveLogFilterStep(s.debugFilters, s'.debugFilters, filters, r.state.debugFilters, r.raised);
        r
      else
        assert filters[..0] == [];
        assert filters[0] in multiset(filters);
        Outcome(s, Some(FilterMissing(f)))
  }

  lemma RemoveAtKeepsDistinct<T>(xs: seq<T>, i: nat)
    requires i < |xs|
    ensures NoDuplicates(xs) ==> NoDuplicates(RemoveAt(xs, i))
  {
  }

  /** The inductive step of `RemoveLogFilter`: `existing'` is `existing` with
      one copy of `filters[0]` taken out, and the rest of the call ran on it. */
  lemma RemoveLogFilterStep(existing: seq<string>, existing': seq<string>, filters: seq<string>,
                            result: seq<string>, raised: Option<LogError>)
    requires 0 < |filters| && filters[0] in existing
    requires multiset(existing') == multiset(existing) - multiset{filters[0]}
    requires raised == None <==> multiset(filters[1..]) <= multiset(existing')
    requires raised == None ==> multiset(result) == multiset(existing') - multiset(filters[1..])
    requires raised != None ==>
               exists k :: 0 <= k < |filters| - 1
                        && multiset(filters[1..][..k]) <= multiset(existing')
                        && filters[1..][k] !in multiset(existing') - multiset(filters[1..][..k])
                        && multiset(result) == multiset(existing') - multiset(filters[1..][..k])
                        && raised == Some(FilterMissing(filters[1..][k]))
    ensures raised == None <==> multiset(filters) <= multiset(existing)
    ensures raised == None ==> multiset(result) == multiset(existing) - multiset(filters)
    ensures raised != None ==>
              exists k :: 0 <= k < |filters|
                       && multiset(filters[..k]) <= multiset(existing)
                       && filters[k] !in multiset(existing) - multiset(filters[..k])
                       && multiset(result) == multiset(existing) - multiset(filters[..k])
                       && raised == Some(FilterMissing(filters[k]))
  {
    if raised == None {
      RemoveLogFilterStepDone(existing, existing', filters, result);
    } else {
      var k :| 0 <= k < |filters| - 1
               && multiset(filters[1..][..k]) <= multiset(existing')
               && filters[1..][k] !in multiset(existing') - multiset(filters[1..][..k])
               && multiset(result) == multiset(existing') - multiset(filters[1..][..k])
               && raised == Some(FilterMissing(filters[1..][k]));
      RemoveLogFilterStepStuck(existing, existing', filters, result, k);
      assert filters[k + 1] == filters[1..][k];
    }
  }

  /** The inductive step of `RemoveLogFilter` when the rest of the call
      succeeded: `existing'` is `existing` with one copy of `filters[0]` taken
      out, and the rest of the arguments were removed from it. */
  lemma RemoveLogFilterStepDone(existing: seq<string>, existing': seq<string>, filters: seq<string>,
                                result: seq<string>)
    requires 0 < |filters| && filters[0] in existing
    requires multiset(existing') == multiset(existing) - multiset{filters[0]}
    requires multiset(filters[1..]) <= multiset(existing')
    requires multiset(result) == multiset(existing') - multiset(filters[1..])
    ensures multiset(filters) <= multiset(existing)
    ensures multiset(result) == multiset(existing) - multiset(filters)
  {
    assert filters == [filters[0]] + filters[1..];
    assert multiset(filters) == multiset{filters[0]} + multiset(filters[1..]);
    MultisetTakeOne(multiset(existing), filters[0], multiset(filters[1..]));
  }

  /** The inductive step of `RemoveLogFilter` when the rest of the call did
      not get past its `k`-th argument. */
  lemma RemoveLogFilterStepStuck(existing: seq<string>, existing': seq<string>, filters: seq<string>,
                                 result: seq<string>, k: nat)
    requires 0 < |filters| && filters[0] in existing
    requires multiset(existing') == multiset(existing) - multiset{filters[0]}
    requires k < |filters| - 1
    requires multiset(filters[1..][..k]) <= multiset(existing')
    requires filters[1..][k] !in multiset(existing') - multiset(filters[1..][..k])
    requires multiset(result) == multiset(existing') - multiset(filters[1..][..k])
    ensures !(multiset(filters) <= multiset(existing))
    ensures multiset(filters[..k + 1]) <= multiset(existing)
    ensures filters[k + 1] !in multiset(existing) - multiset(filters[..k + 1])
    ensures multiset(result) == multiset(existing) - multiset(filters[..k + 1])
  {
    var f := filters[0];
    var p := multiset(filters[1..][..k]);
    assert filters[..k + 1] == [f] + filters[1..][..k];
    assert multiset(filters[..k + 1]) == multiset{f} + p;
    MultisetTakeOne(multiset(existing), f, p);
    var g := filters[k + 1];
    assert filters[..k + 2] == filters[..k + 1] + [g];
    assert multiset(filters[..k + 2]) == multiset(filters[..k + 1]) + multiset{g};
    assert multiset(filters[..k + 2])[g] > multiset(existing)[g];
    assert filters == filters[..k + 2] + filters[k + 2..];
    assert multiset(filters) == multiset(filters[..k + 2]) + multiset(filters[k + 2..]);
  }

  /** Taking one `x` out of `m` and then `a` is taking `{x} + a` out of `m`. */
  lemma MultisetTakeOne<T>(m: multiset<T>, x: T, a: multiset<T>)
    requires x in m
    ensures a <= m - multiset{x} <==> multiset{x} + a <= m
    ensures (m - multiset{x}) - a == m - (multiset{x} + a)
  {
  }

  /** `clear_log_filter()`. */
  function ClearLogFilter(s: State): (r: State)
    ensures r.debugFilters == []
    ensures r == s.(debugFilters := r.debugFilters)
  {
    s.(debugFilters := [])
  }

  /** `add_log_level(level, prefix?, callback?)`; `None` stands for an omitted
      argument, which takes the default "[ ]" or `console.log`. */
  function AddLogLevel(s: State, level: string, prefix: Option<string>, channel: Option<Channel>)
    : (r: Outcome)
    ensures level in s.settings ==> r == Outcome(s, Some(LevelDefined(level)))
    ensures level !in s.settings ==> r.raised == None
    ensures level !in s.settings ==> r.state == s.(settings := r.state.settings)
    ensures level !in s.settings ==> r.state.settings.Keys == s.settings.Keys + {level}
    ensures level !in s.settings ==>
              r.state.settings[level].prefix == (if prefix.Some? then prefix.value else "[ ]")
    ensures level !in s.settings ==>
              r.state.settings[level].channel == (if channel.Some? then channel.value else ConsoleLog)
    ensures forall l :: l in s.settings ==> r.state.settings[l] == s.settings[l]
  {
    var p := if prefix.Some? then prefix.value else DefaultPrefix;
    var c := if channel.Some? then channel.value else DefaultChannel;
    if level !in s.settings then Outcome(s.(settings := s.settings[level := Setting(p, c)]), None)
    else Outcome(s, Some(LevelDefined(level)))
  }

  /** `remove_log_level(level)`: only a known level other than the four
      built-in ones can be removed. */
  function RemoveLogLevel(s: State, level: string): (r: Outcome)
    ensures level !in s.settings ==> r == Outcome(s, Some(LevelMissing(level)))
    ensures level in s.settings && level in BuiltinLevels ==>
              r == Outcome(s, Some(LevelProtected(level)))
    ensures level in s.settings && level !in BuiltinLevels ==>
              r.raised == None && r.state == s.(settings := r.state.settings)
    ensures r.state.settings.Keys ==
              if r.raised == None then s.settings.Keys - {level} else s.settings.Keys
    ensures forall l :: l in r.state.settings ==> r.state.settings[l] == s.settings[l]
    ensures forall b :: b in BuiltinLevels && b in s.settings ==> b in r.state.settings
  {
    if level in s.settings then
      if IndexOf(BuiltinLevels, level) == -1 then
        Outcome(s.(settings := s.settings - {level}), None)
      else
        Outcome(s, Some(LevelProtected(level)))
    else
      Outcome(s, Some(LevelMissing(level)))
  }

  /** JavaScript truthiness of the `filter` argument: `null`, an omitted
      argument and the empty string all mean "no filter". */
  predicate FilterGiven(filter: Option<string>) {
    filter.Some? && filter.value != ""
  }

  /** Whether a call `log(level, _, filter)` on a known level produces a line. */
  predicate Shown(s: State, level: string, filter: Option<string>) {
    || level != "debug"
    || (s.debugActivated && !FilterGiven(filter))
    || (s.debugActivated && FilterGiven(filter)
        && (s.debugFilters == [] || filter.value in s.debugFilters))
  }

  /** `log(level, msg, filter?)`: the line handed to the level's callback, if
      any.  It reads the state and never changes it. */
  function Log(s: State, level: string, msg: string, filter: Option<string>)
    : (r: Result<Option<Emitted>, LogError>)
    ensures r.Failure? <==> level !in s.settings
    ensures r.Failure? ==> r.error == LevelMissing(level)
    ensures r.Success? ==> (r.value.Some? <==> Shown(s, level, filter))
    ensures r.Success? && r.value.Some? ==> r.value.value.channel == s.settings[level].channel
    ensures r.Success? && r.value.Some? && (level != "debug" || !FilterGiven(filter)) ==>
              r.value.value.line == s.indentation + s.settings[level].prefix + " " + msg
    ensures r.Success? && r.value.Some? && level == "debug" && FilterGiven(filter) ==>
              r.value.value.line
              == s.indentation + s.settings[level].prefix + " (" + filter.value + ") " + msg
  {
    if level in s.settings then
      var prefix := s.settings[level].prefix;
      var callback := s.settings[level].channel;
      if level != "debug" then
        Success(Some(Emitted(callback, s.indentation + prefix + " " + msg)))
      else if s.debugActivated then
        if !FilterGiven(filter) then
          Success(Some(Emitted(callback, s.indentation + prefix + " " + msg)))
        else if |s.debugFilters| == 0 || IndexOf(s.debugFilters, filter.value) != -1 then
          Success(Some(Emitted(callback, s.indentation + prefix + " (" + filter.value + ") " + msg)))
        else
          Success(None)
      else
        Success(None)
    else
      Failure(LevelMissing(level))
  }
}
