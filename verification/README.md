# Console logger: a Dafny model of the static `Log` class

`log.ts` defines one static class, `Log`. It is a console logger with named
levels, a prefix and a callback per level, tab indentation, and a debug
switch with a list of debug filters. The class holds four pieces of
process-wide state:

- the indentation string;
- the debug switch;
- the ordered list of debug filters;
- the level table, which maps a level name to a prefix and a callback.

This project models that class as a pure state machine:

- `wrappers.dfy` (module `Wrappers`): `Option` stands for JavaScript's
  `null`/`undefined`, and `Result` for a call that returns a value or
  throws.
- `logger.dfy` (module `Logger`): the class itself.
  - `State` holds the four pieces of state, and `Init` is the state at load
    time.
  - Each mutating method that can throw is a function that returns an
    `Outcome`: the state left behind and the `LogError` thrown, if any. A
    thrown error does not undo earlier mutations. The filter operations on
    several arguments rely on this. `SetDebug` and `ClearLogFilter` cannot
    throw, so they return the new `State`.
  - `ErrorMessage` gives the exact `message` text of each error.
  - `Log` returns the `(channel, line)` pair that the level's callback
    would receive, if there is one. It has no state to return, because it
    never changes the state.
- `decimal.dfy` (module `Decimal`): renders the whole number that appears in
  the negative-indentation error message, and the parser that inverts it.
- `properties.dfy` (module `LoggerProperties`): lemmas that relate several
  calls, such as round trips, non-atomic failures and the emission rules.
- `script.dfy` (module `Script`): sequences of calls made the way a caller's
  script makes them.
  - `Try` wraps a call in the `try { … } catch (e) { Log.log("error",
    e.message) }` pattern.
  - The module proves the invariant that every reachable state keeps: the
    four built-in levels are present with their original prefixes and
    callbacks, the filter list has no duplicates, and the indentation is
    made of tabs only.
  - It also evaluates calls of the demonstration script `test.ts`.

Callbacks are abstract `Channel` values:

- `ConsoleLog`, `ConsoleWarn` and `ConsoleError` stand for the three console
  functions.
- `Callback(id)` stands for any other function a caller passes in.

An optional argument is an `Option`, and `None` means the argument was
omitted. The defaults of `add_log_level` ("[ ]" and `console.log`) apply
only in that case. For the `filter` argument of `log`, `None` and the empty
string both mean "no filter", as JavaScript truthiness has it.

This model follows the code in `log.ts`. That code is the filter-based form of
the logger. It has no output-format templates, no brace escaping and no
levels as mute-sets, so none of these are modelled. In this code the four
built-in levels `info`, `warning`, `error` and `debug` can never be removed.

## Model

| member | source | states |
|---|---|---|
| Logger.IndexOf | log.ts:82-83 | `indexOf` returns -1 exactly when the element is absent. Otherwise it returns the position of the first occurrence. |
| Logger.Tabs | log.ts:54-58 | The indentation built for `n` levels is exactly `n` characters long, and every character is a tab. |
| Logger.SetIndentationLevel | log.ts:52-63 | For `n >= 0`, the indentation becomes exactly `n` tabs and nothing else changes. For `n < 0`, the call throws the negative-indentation error and the whole state, indentation included, stays unchanged. |
| Logger.SetDebug | log.ts:65-67 | The debug switch takes the given value. The indentation, the filters and the level table are untouched. |
| Logger.AddLogFilter | log.ts:69-78 | The call succeeds exactly when each argument is new when it is reached, meaning it is neither in the list nor among the earlier arguments. On success, the list is the old list followed by the arguments in order. On failure at argument `k`, the first `k` arguments stay appended, and the error names argument `k`. The call keeps a duplicate-free list duplicate-free and changes nothing else. |
| Logger.RemoveAt | log.ts:84 | `splice(i, 1)` shortens the list by one, keeps the elements before and after `i` in order, and takes out exactly one copy of the element at `i`. |
| Logger.ErrorMessage | log.ts:61-139 | Each thrown message is a lead fixed by the kind of error, the offending argument in single quotes, and a tail fixed by the kind. |
| Logger.RemoveLogFilter | log.ts:80-90 | As multisets, the call succeeds exactly when the arguments fit inside the list, and it takes them out. On failure at argument `k`, the first `k` removals persist, argument `k` is no longer present, and the error names it. The call keeps a duplicate-free list duplicate-free and changes nothing else. |
| Logger.ClearLogFilter | log.ts:92-94 | The filter list becomes empty and nothing else changes. |
| Logger.AddLogLevel | log.ts:96-105 | A new name gets the given prefix and callback, or "[ ]" and `console.log` when they are omitted. Every existing entry keeps its value. An existing name throws "already defined" and leaves the state unchanged, so there is no overwrite. |
| Logger.RemoveLogLevel | log.ts:107-119 | An unknown name throws "does not exist". A built-in name throws "cannot remove". Both errors leave the state unchanged. Any other name removes only its own entry. The built-in levels are never lost. |
| Logger.Log | log.ts:121-141 | An unknown level fails with "does not exist". A known level produces a line on its own callback exactly when one of these holds: the level is not "debug"; or debug is on and either no filter is given, the filter list is empty, or the list contains the filter. A line without a filter is the indentation, the prefix, one space and the message. A debug line with a filter is the indentation, the prefix, " (filter) " and the message. |
| Decimal.IntToString | log.ts:61 | The number in the error message is the shortest numeral: it starts with '-' exactly for negative numbers, the rest is all digits, and it has no leading zero unless it is "0". |
| Decimal.ParseIntToString | log.ts:61 | Parsing the rendered numeral gives back the number, so the message reports the rejected value without loss. |
| Decimal.IntToStringInjective | log.ts:61 | Distinct integers render as distinct numerals. |
| LoggerProperties.ErrorMessageReadBack | log.ts:61-139 | The lead, the quoted argument and the tail of every message can be read back from the message text. |
| LoggerProperties.MessageAnnouncesKind | log.ts:61-139 | The first and last characters of a message tell which of the six errors was thrown. |
| LoggerProperties.ErrorMessageInjective | log.ts:61-139 | Distinct errors, of different kinds or with different arguments, give distinct messages. |
| LoggerProperties.SetIndentationLevelReplaces | log.ts:53-58 | The new indentation does not depend on the old one: the call replaces the indentation and does not append to it. |
| LoggerProperties.NegativeIndentationMessage | log.ts:60-62 | `set_indentation_level(-1)` throws "Indentation level '-1' is not a positive number". |
| LoggerProperties.AddLogFilterSucceedsIffDistinct | log.ts:69-78 | On a duplicate-free filter list, `add_log_filter` throws nothing exactly when the list followed by the arguments is duplicate-free. |
| LoggerProperties.AddLogFilterKeepsEarlierFilters | log.ts:70-76 | The call `add_log_filter("A","B","A","C")` on an empty list throws on the second "A" and leaves ["A","B"]. The operation is not atomic. |
| LoggerProperties.RemoveLogFilterKeepsEarlierRemovals | log.ts:81-88 | The call `remove_log_filter("A","Z","B")` on ["A","B"] throws on "Z" and leaves ["B"]. The operation is not atomic. |
| LoggerProperties.RemoveLogFilterMembership | log.ts:80-90 | On a duplicate-free list, removing distinct filters that all occur in the list succeeds. It leaves exactly the filters that were present and not named. |
| LoggerProperties.AddThenRemoveFilters | log.ts:69-90 | Removing the filters that a successful add just appended succeeds, and it restores the original filters as a multiset. |
| LoggerProperties.ClearedFiltersShowEveryFilter | log.ts:92-94 | After `clear_log_filter`, with debug on, a debug line with any filter is emitted, and its text is given exactly. |
| LoggerProperties.AddedFilterIsShown | log.ts:133-134 | Once a filter has been added and debug is on, debug lines tagged with that filter are emitted. |
| LoggerProperties.UnlistedFilterIsDropped | log.ts:133 | With a non-empty filter list, a debug line tagged with a filter outside the list produces nothing. |
| LoggerProperties.AddThenRemoveLevel | log.ts:96-119 | Removing a non-built-in level right after adding it restores the original state. |
| LoggerProperties.AddThenLog | log.ts:99-100 | A level just added logs through its own prefix and callback. |
| LoggerProperties.AddWithDefaultsThenLog | log.ts:97-98 | A level added without a prefix or callback emits "[ ] msg" lines on `console.log`. |
| LoggerProperties.NonDebugIgnoresDebugState | log.ts:126-128 | The output of every level other than "debug" does not depend on the debug switch, the filter list or the filter argument. |
| LoggerProperties.DebugOffIsSilent | log.ts:129 | With debug off, "debug" lines produce nothing, whatever the filter. |
| LoggerProperties.SetDebugOverwrites | log.ts:65-67 | A second `set_debug` overrides the first. |
| LoggerProperties.EmptyFilterIsNoFilter | log.ts:130 | An empty filter string behaves exactly like an omitted filter. |
| Script.InitValid | log.ts:35-43 | The load-time state satisfies the invariant: the four built-in levels are present, there are no filters, and the indentation is empty. |
| Script.Exec | log.ts:52-141 | Every single call preserves the invariant. A `log` call leaves the state unchanged and emits at most one line. A successful `log` on a level other than "debug" emits exactly one line. |
| Script.Run | log.ts:52-141 | Every script of calls preserves the invariant. A script that throws nothing emits at least one line per non-debug `log` call. |
| Script.BuiltinLevelsSurvive | log.ts:107-119 | After any script run from the load-time state, every built-in level is present with its original prefix and callback, and the filter list has no duplicates. |
| Script.DemoInfo | test.ts:34 | An "info" line is "[i] msg" on `console.log`. |
| Script.DemoIndent | test.ts:35-47 | The three indentation calls go from no tabs to one, from one to two, and from two back to none: each replaces the tabs that the previous call set. |
| Script.DemoWarning | test.ts:36 | A "warning" line carries the indentation that is in force. |
| Script.DemoNegativeIndentation | test.ts:38-44 | A rejected indentation keeps the old tabs. When the error is caught, it is reported on the "error" level with those tabs. |
| Script.DemoDebugSwitch | test.ts:46-49 | A "debug" line is dropped at two tabs before `set_debug(true)`. After the indentation is reset and debug is switched on, a "debug" line is shown as "[D] msg" on `console.log`. |
| Script.DemoFilterWhileListEmpty | test.ts:78 | A filtered debug line is shown while the filter list is empty. |
| Script.DemoDuplicateFilter | test.ts:79-86 | Adding "F1" a second time is reported as already defined, and the list keeps one copy. |
| Script.DemoListedFilters | test.ts:87-88 | Once the list holds "F1", lines tagged "F1" are shown and lines tagged "F2" are not. |

## Left out

- The console functions are not called. A level stores an abstract `Channel`, and `Log` returns the line instead of writing it.
- The thrown object is modelled by its `message` only. Its `name` is always "LogError", and the error type carries the kind and the offending argument.
- JavaScript's `in` operator also finds inherited keys such as "toString". The level table is modelled as a plain finite map, so such names count as unknown.
- The indentation level is an `int`. A fractional argument makes the source's `while (indentation_level--)` loop run forever, and that case is not modelled.
- Decimal.IntToString: it always renders plain digits. JavaScript switches to exponent notation for magnitudes of 10^21 and above.
- Logger.AddLogLevel: an explicit `null` prefix or callback, which JavaScript does not replace by the default, is not modelled. `None` means an omitted argument.
- Logger.RemoveLogFilter: it states the remaining filters as a multiset, not their order. `log` only ever asks whether the list is empty and whether a filter is in it.
- Script.Run: a script stops at the first error that escapes, as a top-level script does. Errors caught by a caller are modelled only in the `Try` form shown in the demonstration script.
- The demonstration script as a whole is not evaluated. Its calls are evaluated one at a time, in the state the script has reached at that point.
