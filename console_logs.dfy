/**
 * `ConsoleLogsTool`: a buffer of `[type] text` console entries, and the type / search /
 * limit / clear pipeline of its `execute`.
 */
module ConsoleLogs {
  import opened Common
  import opened Seqs
  import opened Strings
  import opened ToolTypes

  /** The stored form of one console message. */
  function LogEntry(msgType: string, text: string): string {
    "[" + msgType + "] " + text
  }

  /** The prefix a `type` filter looks for. */
  function TypeTag(msgType: string): string {
    "[" + msgType + "]"
  }

  /**
   * The tool's arguments: `type` and `search` are absent or strings, `limit` absent or a
   * whole number, `clear` truthy or not.
   */
  datatype ConsoleArgs = ConsoleArgs(logType: Option<string>, search: Option<string>, limit: Option<int>, clear: bool)

  /** `args.type && args.type !== "all"`. */
  predicate TypeFilterOn(logType: Option<string>) {
    logType.Some? && logType.value != "" && logType.value != "all"
  }

  /** `args.search` is truthy. */
  predicate SearchOn(search: Option<string>) {
    search.Some? && search.value != ""
  }

  /** `args.limit && args.limit > 0`. */
  predicate LimitOn(limit: Option<int>) {
    limit.Some? && limit.value > 0
  }

  /** Whether one entry passes the type and the search filters. */
  predicate Keeps(args: ConsoleArgs, log: string) {
    (TypeFilterOn(args.logType) ==> StartsWith(log, TypeTag(args.logType.value))) &&
    (SearchOn(args.search) ==> Contains(log, args.search.value))
  }

  function ByType(logs: seq<string>, msgType: string): seq<string> {
    Filter(logs, (log: string) => StartsWith(log, TypeTag(msgType)))
  }

  function BySearch(logs: seq<string>, search: string): seq<string> {
    Filter(logs, (log: string) => Contains(log, search))
  }

  /** The entries that survive the type filter and then the search filter. */
  function Filtered(logs: seq<string>, args: ConsoleArgs): (r: seq<string>)
    ensures forall i :: 0 <= i < |r| ==> r[i] in logs && Keeps(args, r[i])
    ensures forall i :: 0 <= i < |logs| ==> (logs[i] in r <==> Keeps(args, logs[i]))
  {
    var byType := if TypeFilterOn(args.logType) then ByType(logs, args.logType.value) else logs;
    if SearchOn(args.search) then BySearch(byType, args.search.value) else byType
  }

  /** The entries `execute` returns: the filtered entries, cut to the last `limit` when a positive limit is given. */
  function SelectLogs(logs: seq<string>, args: ConsoleArgs): (r: seq<string>)
    ensures LimitOn(args.limit) ==>
              |r| == Min(args.limit.value, |Filtered(logs, args)|) &&
              r == Filtered(logs, args)[|Filtered(logs, args)| - |r|..]
    ensures !LimitOn(args.limit) ==> r == Filtered(logs, args)
  {
    var f := Filtered(logs, args);
    if LimitOn(args.limit) then LastN(f, args.limit.value) else f
  }

  /** The filtered entries keep the order they had in the buffer. */
  lemma FilteredIsSubsequence(logs: seq<string>, args: ConsoleArgs)
    ensures IsSubsequence(Filtered(logs, args), logs)
  {
    var byType := if TypeFilterOn(args.logType) then ByType(logs, args.logType.value) else logs;
    if TypeFilterOn(args.logType) {
      FilterIsSubsequence(logs, (log: string) => StartsWith(log, TypeTag(args.logType.value)));
    } else {
      SubsequenceReflexive(logs);
    }
    if SearchOn(args.search) {
      FilterIsSubsequence(byType, (log: string) => Contains(log, args.search.value));
      SubsequenceTransitive(Filtered(logs, args), byType, logs);
    }
  }

  /** Whatever the arguments, `execute` returns an order-preserving subsequence of the stored entries. */
  lemma SelectIsSubsequence(logs: seq<string>, args: ConsoleArgs)
    ensures IsSubsequence(SelectLogs(logs, args), logs)
  {
    var f := Filtered(logs, args);
    FilteredIsSubsequence(logs, args);
    if LimitOn(args.limit) {
      SuffixIsSubsequence(f, |f| - |SelectLogs(logs, args)|);
      SubsequenceTransitive(SelectLogs(logs, args), f, logs);
    }
  }

  /** Every returned entry passes the filters, and with no positive limit every entry of the buffer that passes them is returned. */
  lemma SelectMembers(logs: seq<string>, args: ConsoleArgs)
    ensures forall i :: 0 <= i < |SelectLogs(logs, args)| ==> Keeps(args, SelectLogs(logs, args)[i])
    ensures !LimitOn(args.limit) ==> forall i :: 0 <= i < |logs| && Keeps(args, logs[i]) ==> logs[i] in SelectLogs(logs, args)
  {
    var f := Filtered(logs, args);
    var r := SelectLogs(logs, args);
    assert forall i :: 0 <= i < |r| ==> r[i] == f[|f| - |r| + i];
  }

  /** A message registered with type `t` passes the type filter `t`. */
  lemma EntryMatchesOwnType(msgType: string, text: string)
    ensures StartsWith(LogEntry(msgType, text), TypeTag(msgType))
  {
    assert LogEntry(msgType, text)[..|TypeTag(msgType)|] == TypeTag(msgType);
  }

  /** The summary line that heads the result when the entries were also saved to a resource. */
  function SavedSummary(count: nat, location: string): string {
    "Retrieved " + NatToString(count) + " console log(s). Download: " + location
  }

  /**
   * The response of `execute` for the selected entries. `savedLocation` is where the entries
   * were written, when writing and registering them succeeded; an empty location counts as none.
   */
  function LogsResponse(selected: seq<string>, savedLocation: Option<string>): (r: ToolResponse)
    ensures !r.isError && AllText(r.content)
    ensures |selected| == 0 ==> Texts(r.content) == ["No console logs matching the criteria"]
    ensures |selected| > 0 && (savedLocation.None? || savedLocation.value == "") ==> Texts(r.content) == selected
    ensures |selected| > 0 && savedLocation.Some? && savedLocation.value != "" ==>
              Texts(r.content) == [SavedSummary(|selected|, savedLocation.value)] + selected
  {
    if |selected| == 0 then CreateSuccessResponse(Single("No console logs matching the criteria"))
    else if savedLocation.Some? && savedLocation.value != "" then
      CreateSuccessResponse(Many([SavedSummary(|selected|, savedLocation.value)] + selected))
    else CreateSuccessResponse(Many(selected))
  }

  class ConsoleLogsTool {
    var consoleLogs: seq<string>

    constructor ()
      ensures consoleLogs == []
    {
      consoleLogs := [];
    }

    /** Appends one `[type] text` entry; the earlier entries stay as they were. */
    method RegisterConsoleMessage(msgType: string, text: string)
      modifies this
      ensures consoleLogs == old(consoleLogs) + [LogEntry(msgType, text)]
    {
      consoleLogs := consoleLogs + [LogEntry(msgType, text)];
    }

    /**
     * Filters a copy of the buffer by type, then by search, then cuts it to the limit; clears the
     * buffer when asked to, after the selection has been made.
     */
    method Execute(args: ConsoleArgs, savedLocation: Option<string>) returns (r: ToolResponse)
      modifies this
      ensures r == LogsResponse(SelectLogs(old(consoleLogs), args), savedLocation)
      ensures consoleLogs == if args.clear then [] else old(consoleLogs)
    {
      var logs := consoleLogs;
      if TypeFilterOn(args.logType) {
        logs := ByType(logs, args.logType.value);
      }
      if SearchOn(args.search) {
        logs := BySearch(logs, args.search.value);
      }
      if LimitOn(args.limit) {
        logs := LastN(logs, args.limit.value);
      }
      if args.clear {
        consoleLogs := [];
      }
      r := LogsResponse(logs, savedLocation);
    }

    function GetConsoleLogs(): seq<string>
      reads this
    {
      consoleLogs
    }

    method ClearConsoleLogs()
      modifies this
      ensures GetConsoleLogs() == []
    {
      consoleLogs := [];
    }
  }
}
