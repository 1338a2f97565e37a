/**
 * The in-app console: intercepted `console` calls become log entries kept in
 * a bounded buffer, shown through a text filter and a set of enabled types.
 */
module ConsolePanel {
  import opened Lists
  import opened Strings

  datatype LogType = Log | Error | Warn | Info

  /** `id` comes from `generateId()` and `timestamp` from the clock; both are inputs here. */
  datatype LogEntry = LogEntry(id: string, kind: LogType, message: string, timestamp: nat)

  /**
   * An argument of an intercepted console call as `Array.prototype.join`
   * sees it: `null` and `undefined` become the empty string, any other value
   * its `String(value)` conversion, which is an input here.
   */
  datatype ConsoleArg = Null | Undefined | Value(text: string)

  /** The string `join` puts in place of each argument. */
  function ArgTexts(args: seq<ConsoleArg>): (r: seq<string>)
    ensures |r| == |args|
    ensures forall i :: 0 <= i < |args| ==> (r[i] == "" <==> args[i].Null? || args[i].Undefined? || args[i].text == "")
    ensures forall i :: 0 <= i < |args| && args[i].Value? ==> r[i] == args[i].text
  {
    if args == [] then []
    else [if args[0].Value? then args[0].text else ""] + ArgTexts(args[1..])
  }

  /** `args.join(" ")`. */
  function JoinArgs(args: seq<ConsoleArg>): string
  {
    Join(ArgTexts(args), " ")
  }

  /** A missing argument between two others leaves two spaces and nothing else. */
  lemma MissingArgumentJoinsAsEmpty(a: string, b: string)
    ensures JoinArgs([Value(a), Undefined, Value(b)]) == a + "  " + b
    ensures JoinArgs([Value(a), Null, Value(b)]) == a + "  " + b
  {
    assert ArgTexts([Value(a), Undefined, Value(b)]) == [a, "", b];
    assert ArgTexts([Value(a), Null, Value(b)]) == [a, "", b];
    assert Join([a, "", b], " ") == a + " " + ("" + " " + b);
  }

  const MaxLogs: nat := 1000

  const AllTypes: seq<LogType> := [Log, Error, Warn, Info]

  /** The last `n` elements of `s` (all of them when there are fewer). */
  function Newest<T>(s: seq<T>, n: nat): (r: seq<T>)
    ensures |r| <= n && |r| <= |s|
    ensures |s| <= n ==> r == s
    ensures |s| > n ==> |r| == n
    ensures s == s[..|s| - |r|] + r
  {
    if |s| <= n then s else s[|s| - n..]
  }

  /**
   * `addLog`'s state update: append the entry, then splice away the oldest
   * entries beyond `MaxLogs`.
   */
  function AppendBounded(prev: seq<LogEntry>, entry: LogEntry): (r: seq<LogEntry>)
    ensures |r| == if |prev| + 1 <= MaxLogs then |prev| + 1 else MaxLogs
    ensures r[|r| - 1] == entry
    ensures r == Newest(prev + [entry], MaxLogs)
    ensures |prev| < MaxLogs ==> r == prev + [entry]
  {
    var updated := prev + [entry];
    if |updated| > MaxLogs then updated[|updated| - MaxLogs..] else updated
  }

  /** Logging `entries` one after another. */
  function AppendAll(prev: seq<LogEntry>, entries: seq<LogEntry>): seq<LogEntry>
  {
    if entries == [] then prev
    else AppendBounded(AppendAll(prev, entries[..|entries| - 1]), entries[|entries| - 1])
  }

  lemma NewestSnoc<T>(s: seq<T>, e: T, n: nat)
    requires n > 0
    ensures Newest(Newest(s, n) + [e], n) == Newest(s + [e], n)
  {
  }

  /**
   * However many entries are logged, the buffer holds exactly the newest
   * `MaxLogs` of everything logged since it was restored (and at most that many).
   */
  lemma {:induction false} AppendAllKeepsNewest(prev: seq<LogEntry>, entries: seq<LogEntry>)
    requires entries != [] || |prev| <= MaxLogs
    ensures AppendAll(prev, entries) == Newest(prev + entries, MaxLogs)
    ensures entries != [] ==> |AppendAll(prev, entries)| <= MaxLogs
  {
    if entries != [] {
      var init := entries[..|entries| - 1];
      var last := entries[|entries| - 1];
      assert prev + entries == (prev + init) + [last];
      if init == [] {
        assert prev + init == prev;
      } else {
        calc {
          AppendAll(prev, entries);
          AppendBounded(AppendAll(prev, init), last);
          Newest(AppendAll(prev, init) + [last], MaxLogs);
          { AppendAllKeepsNewest(prev, init); }
          Newest(Newest(prev + init, MaxLogs) + [last], MaxLogs);
          { NewestSnoc(prev + init, last, MaxLogs); }
          Newest((prev + init) + [last], MaxLogs);
        }
      }
    }
  }

  /** `filteredLogs`: enabled types whose message contains the filter, ignoring ASCII case. */
  function FilteredLogs(logs: seq<LogEntry>, filter: string, typeFilter: seq<LogType>): (r: seq<LogEntry>)
    ensures forall e :: e in r <==>
      (e in logs && e.kind in typeFilter && Contains(ToLower(e.message), ToLower(filter)))
    ensures IsSubsequence(r, logs)
  {
    FilterIsSubsequence(logs, Shown(filter, typeFilter));
    Filter(logs, Shown(filter, typeFilter))
  }

  function Shown(filter: string, typeFilter: seq<LogType>): LogEntry -> bool
  {
    (e: LogEntry) => e.kind in typeFilter && Contains(ToLower(e.message), ToLower(filter))
  }

  /** With every type enabled and an empty filter, every log is shown, in order. */
  lemma ShowsEverythingByDefault(logs: seq<LogEntry>)
    ensures FilteredLogs(logs, "", AllTypes) == logs
  {
    forall i | 0 <= i < |logs|
      ensures Shown("", AllTypes)(logs[i])
    {
      assert ToLower("") == "";
      assert OccursAt(ToLower(logs[i].message), "", 0);
      assert logs[i].kind in AllTypes by {
        match logs[i].kind
        case Log => assert AllTypes[0] == Log;
        case Error => assert AllTypes[1] == Error;
        case Warn => assert AllTypes[2] == Warn;
        case Info => assert AllTypes[3] == Info;
      }
    }
    FilterAll(logs, Shown("", AllTypes));
  }

  /** `toggleLogTypeFilter`. */
  function ToggleLogTypeFilter(typeFilter: seq<LogType>, kind: LogType): (r: seq<LogType>)
    ensures kind in r <==> kind !in typeFilter
    ensures forall other :: other != kind ==> (other in r <==> other in typeFilter)
  {
    Toggle(typeFilter, kind)
  }

  /** Turning a type off hides exactly that type's entries and keeps the rest in order. */
  lemma {:induction false} ToggleOffHidesType(logs: seq<LogEntry>, filter: string, typeFilter: seq<LogType>, kind: LogType)
    requires kind in typeFilter
    ensures FilteredLogs(logs, filter, ToggleLogTypeFilter(typeFilter, kind))
      == Filter(FilteredLogs(logs, filter, typeFilter), (e: LogEntry) => e.kind != kind)
  {
    FilterFilter(logs, Shown(filter, typeFilter), (e: LogEntry) => e.kind != kind,
      Shown(filter, ToggleLogTypeFilter(typeFilter, kind)));
  }

  /** Toggling the same type twice shows the same logs as before. */
  lemma {:induction false} ToggleTwiceShowsSame(logs: seq<LogEntry>, filter: string, typeFilter: seq<LogType>, kind: LogType)
    ensures FilteredLogs(logs, filter, ToggleLogTypeFilter(ToggleLogTypeFilter(typeFilter, kind), kind))
      == FilteredLogs(logs, filter, typeFilter)
  {
    FilterExt(logs, Shown(filter, ToggleLogTypeFilter(ToggleLogTypeFilter(typeFilter, kind), kind)),
      Shown(filter, typeFilter));
  }

  /** The component's state. `filter` is the debounced filter text. */
  class Console {
    var logs: seq<LogEntry>
    var logTypeFilter: seq<LogType>
    var isPaused: bool
    var debouncedFilter: string

    /** The initial state: logs restored from storage when any parse, otherwise none. */
    constructor (saved: seq<LogEntry>)
      ensures logs == saved
      ensures logTypeFilter == AllTypes && !isPaused && debouncedFilter == ""
    {
      logs := saved;
      logTypeFilter := AllTypes;
      isPaused := false;
      debouncedFilter := "";
    }

    /** `addLog`: the entry is appended and the buffer trimmed to the newest `MaxLogs`. */
    method AddLog(kind: LogType, message: string, id: string, timestamp: nat)
      modifies this`logs
      ensures logs == AppendBounded(old(logs), LogEntry(id, kind, message, timestamp))
    {
      logs := AppendBounded(logs, LogEntry(id, kind, message, timestamp));
    }

    /**
     * An intercepted `console.<kind>(...args)`: logged as the space-joined
     * arguments unless paused; always forwarded to the original console,
     * whose arguments are returned.
     */
    method Intercept(kind: LogType, args: seq<ConsoleArg>, id: string, timestamp: nat) returns (forwarded: seq<ConsoleArg>)
      modifies this`logs
      ensures forwarded == args
      ensures isPaused ==> logs == old(logs)
      ensures !isPaused ==> logs == AppendBounded(old(logs), LogEntry(id, kind, JoinArgs(args), timestamp))
    {
      if !isPaused {
        AddLog(kind, JoinArgs(args), id, timestamp);
      }
      forwarded := args;
    }

    /** The pause button. */
    method TogglePause()
      modifies this`isPaused
      ensures isPaused == !old(isPaused)
    {
      isPaused := !isPaused;
    }

    /** The debounced filter text taking effect. */
    method SetFilter(value: string)
      modifies this`debouncedFilter
      ensures debouncedFilter == value
    {
      debouncedFilter := value;
    }

    method ClearConsole()
      modifies this`logs
      ensures logs == []
    {
      logs := [];
    }

    method ToggleType(kind: LogType)
      modifies this`logTypeFilter
      ensures logTypeFilter == ToggleLogTypeFilter(old(logTypeFilter), kind)
    {
      logTypeFilter := ToggleLogTypeFilter(logTypeFilter, kind);
    }

    /** The list on screen. */
    function Visible(): (r: seq<LogEntry>)
      reads this
      ensures IsSubsequence(r, logs)
      ensures forall e :: e in r <==>
        (e in logs && e.kind in logTypeFilter && Contains(ToLower(e.message), ToLower(debouncedFilter)))
    {
      FilteredLogs(logs, debouncedFilter, logTypeFilter)
    }
  }

  /** While paused, console calls reach the original console but add nothing to the log. */
  method PausedCallsAreNotLogged(saved: seq<LogEntry>, args: seq<ConsoleArg>) returns (forwarded: seq<ConsoleArg>, logged: seq<LogEntry>)
    ensures forwarded == args && logged == saved
  {
    var c := new Console(saved);
    c.TogglePause();
    forwarded := c.Intercept(Log, args, "id", 0);
    logged := c.logs;
  }
}
