/**
 * The dispatcher `handleToolCall` with its module-wide browser state: the relaunch rule of
 * `ensureBrowser`, the marker-based console-log filter, the close branch and the unknown-tool
 * default. The page- and API-driven cases are handed on, with the page the dispatcher obtained.
 */
module ToolsHandler {
  import opened Common
  import opened Seqs
  import opened Strings
  import opened ToolTypes

  /** The browser, its page and the mode the browser was launched in; `launches` numbers the handles. */
  datatype BrowserState = BrowserState(browser: Option<nat>, page: Option<nat>, currentHeadless: bool, launches: nat)

  /** What `chromium.launch` and `newContext`/`newPage` do when called. */
  datatype LaunchOutcomes = LaunchOutcomes(launch: Outcome, newPage: Outcome)

  /** `ensureBrowser` either hands back the module's page (possibly undefined) or throws. */
  datatype EnsureResult = Ready(page: Option<nat>) | Failed(message: string)

  /** A browser is in use but in the other headless mode. */
  predicate NeedsRelaunch(s: BrowserState, headless: bool) {
    s.browser.Some? && s.currentHeadless != headless
  }

  /** Step one of `ensureBrowser`: a browser in the wrong mode is closed and forgotten. */
  function DropMismatched(s: BrowserState, headless: bool, closeOutcome: Outcome): (r: (BrowserState, Option<string>))
    ensures r.1.None? ==> !NeedsRelaunch(r.0, headless)
  {
    if !NeedsRelaunch(s, headless) then (s, None)
    else match closeOutcome
      case Rejected(m) => (s, Some(m))
      case Resolved => (s.(browser := None, page := None), None)
  }

  /** Step two of `ensureBrowser`: with no browser, launch one, open a page, and remember the mode. */
  function LaunchIfAbsent(s: BrowserState, headless: bool, launch: LaunchOutcomes): (r: (BrowserState, EnsureResult))
  {
    if s.browser.Some? then (s, Ready(s.page))
    else match launch.launch
      case Rejected(m) => (s, Failed(m))
      case Resolved =>
        var launched := s.(browser := Some(s.launches), launches := s.launches + 1);
        match launch.newPage
        case Rejected(m) => (launched, Failed(m))
        case Resolved => (launched.(page := Some(s.launches), currentHeadless := headless), Ready(Some(s.launches)))
  }

  /** `ensureBrowser(viewport, headless)`. */
  function Ensure(s: BrowserState, headless: bool, closeOutcome: Outcome, launch: LaunchOutcomes): (r: (BrowserState, EnsureResult))
    ensures r.1.Ready? ==> r.0.browser.Some?
    ensures !NeedsRelaunch(s, headless) && s.browser.Some? ==> r == (s, Ready(s.page))
    ensures r.0.launches == s.launches || r.0.launches == s.launches + 1
    ensures r.0.launches == s.launches + 1 ==> s.browser.None? || NeedsRelaunch(s, headless)
    ensures r.1.Ready? && r.0.launches == s.launches + 1 ==>
              r.0.currentHeadless == headless && r.0.page == Some(s.launches) && r.1 == Ready(r.0.page)
  {
    var (dropped, closeError) := DropMismatched(s, headless, closeOutcome);
    if closeError.Some? then (s, Failed(closeError.value))
    else LaunchIfAbsent(dropped, headless, launch)
  }

  /** A browser in the requested mode is kept, and one in the other mode is replaced: the old handle does not survive a relaunch. */
  lemma EnsureRelaunch(s: BrowserState, headless: bool, closeOutcome: Outcome, launch: LaunchOutcomes)
    requires s.browser.Some? && s.browser.value < s.launches
    ensures NeedsRelaunch(s, headless) ==>
              (closeOutcome.Rejected? ==> Ensure(s, headless, closeOutcome, launch) == (s, Failed(closeOutcome.message))) &&
              (closeOutcome.Resolved? ==> Ensure(s, headless, closeOutcome, launch).0.browser != s.browser)
    ensures NeedsRelaunch(s, headless) && closeOutcome.Resolved? && launch == LaunchOutcomes(Resolved, Resolved) ==>
              Ensure(s, headless, closeOutcome, launch).0.currentHeadless == headless &&
              Ensure(s, headless, closeOutcome, launch).1.Ready? &&
              Ensure(s, headless, closeOutcome, launch).1.page.Some?
  {
  }

  /** Once `ensureBrowser` has succeeded, asking again for the same mode launches nothing and returns the same page. */
  lemma EnsureStable(s: BrowserState, headless: bool, c1: Outcome, l1: LaunchOutcomes, c2: Outcome, l2: LaunchOutcomes)
    requires Ensure(s, headless, c1, l1).1.Ready?
    requires Ensure(s, headless, c1, l1).0.currentHeadless == headless
    ensures Ensure(Ensure(s, headless, c1, l1).0, headless, c2, l2) == (Ensure(s, headless, c1, l1).0, Ensure(s, headless, c1, l1).1)
  {
  }

  /** The headless mode `handleToolCall` asks for: from the arguments (default false) only for navigation. */
  function RequestedHeadless(name: string, argHeadless: Option<bool>, currentHeadless: bool): (h: bool)
    ensures name != "playwright_navigate" ==> h == currentHeadless
    ensures name == "playwright_navigate" ==> h == (argHeadless == Some(true))
  {
    if name == "playwright_navigate" then argHeadless.GetOr(false) else currentHeadless
  }

  /** The `switch` cases that drive the page (`page!`). */
  const PageTools: set<string> := {
    "playwright_navigate", "playwright_screenshot", "playwright_click", "playwright_iframe_click",
    "playwright_fill", "playwright_select", "playwright_hover", "playwright_evaluate",
    "playwright_get_visible_text", "playwright_get_html"
  }

  /** The `switch` cases that drive the API request context. */
  const ApiTools: set<string> := {"playwright_get", "playwright_post", "playwright_put", "playwright_delete", "playwright_patch"}

  /** The `BROWSER_TOOLS` list the dispatcher consults, written in five runs of ten names. */
  const BrowserToolsList: seq<string> := BrowserTools1 + BrowserTools2 + BrowserTools3 + BrowserTools4 + BrowserTools5

  const BrowserTools1: seq<string> := [
    "goto", "go_back", "go_forward", "reload",
    "click", "click_and_switch_tab", "iframe_click", "iframe_fill", "fill", "select"]
  const BrowserTools2: seq<string> := [
    "hover", "upload_file", "evaluate", "drag",
    "analyze_shadow_dom", "interact_shadow_dom", "pierce_shadow_dom",
    "advanced_dropdown", "custom_dropdown", "analyze_dropdown"]
  const BrowserTools3: seq<string> := [
    "mobile_emulation", "touch_gesture", "mobile_interaction",
    "network_interception", "network_monitor", "websocket_tool",
    "cookie_management", "local_storage", "session_storage", "storage_state"]
  const BrowserTools4: seq<string> := [
    "accessibility_test", "accessibility_tree", "keyboard_navigation",
    "performance_monitor", "lighthouse_audit", "resource_monitor",
    "debug_tracing", "step_debugger", "devtools_integration", "screenshot"]
  const BrowserTools5: seq<string> := [
    "get_page_content", "get_text_content",
    "get_element_attribute", "get_page_title", "get_current_url",
    "wait_for_element", "wait_for_timeout",
    "set_user_agent", "get_visible_page_info", "console_log"]

  /** Begins with `pl`, as every `playwright_` name does. */
  predicate PlPrefixed(x: string) {
    |x| >= 2 && x[0] == 'p' && x[1] == 'l'
  }

  lemma NoPlPrefixedListed(x: string)
    requires PlPrefixed(x)
    ensures x !in BrowserToolsList
  {
    assert x !in BrowserTools1;
    assert x !in BrowserTools2;
    assert x !in BrowserTools3;
    assert x !in BrowserTools4;
    assert x !in BrowserTools5;
  }

  /** As written: `BROWSER_TOOLS.includes(name)`. */
  predicate RequiresBrowserAsWritten(name: string) {
    name in BrowserToolsList
  }

  /** As intended: every case that uses the page gets one first. */
  predicate RequiresBrowser(name: string) {
    name in PageTools
  }

  /** None of the dispatcher's page-driven case names is on the `BROWSER_TOOLS` list, which holds unprefixed names. */
  lemma BrowserGateNeverOpens(name: string)
    requires name in PageTools
    ensures !RequiresBrowserAsWritten(name)
    ensures RequiresBrowser(name)
  {
    assert PlPrefixed(name);
    NoPlPrefixedListed(name);
  }

  // ---- the `playwright_console_logs` case ----

  /** The arguments of the console-log case: `type`, `search`, `limit` (a number), and whether `clear === true`. */
  datatype LogArgs = LogArgs(logType: Option<string>, search: Option<string>, limit: Option<int>, clearExactlyTrue: bool)

  predicate ErrorLike(log: string) {
    Contains(log, "[error]") || Contains(log, "[pageerror]") || Contains(log, "[crash]") ||
    Contains(log, "Failed to load resource") || Contains(log, "net::ERR_") || Contains(log, "Error with")
  }

  predicate WarningLike(log: string) {
    Contains(log, "[warning]") || Contains(log, "Warning:")
  }

  /** The markers the `log` type excludes. */
  predicate LogExcluded(log: string) {
    Contains(log, "[error]") || Contains(log, "[warning]") || Contains(log, "Failed to load") ||
    Contains(log, "Error with") || Contains(log, "Warning:")
  }

  /** Whether an entry passes the type filter; `type` is compared lower-cased, and anything unrecognised keeps every entry. */
  predicate MatchesType(logType: Option<string>, log: string) {
    if logType.None? then true
    else
      var t := ToLower(logType.value);
      if t == "error" then ErrorLike(log)
      else if t == "warning" then WarningLike(log)
      else if t == "log" then !LogExcluded(log)
      else if t == "info" then Contains(log, "[info]")
      else if t == "debug" then Contains(log, "[debug]")
      else true
  }

  /** The `if … else if` type filter of the console-log case. */
  function TypeSelect(logs: seq<string>, logType: Option<string>): (r: seq<string>)
    ensures forall i :: 0 <= i < |r| ==> r[i] in logs && MatchesType(logType, r[i])
    ensures forall i :: 0 <= i < |logs| ==> (logs[i] in r <==> MatchesType(logType, logs[i]))
    ensures logType.None? || ToLower(logType.value) !in {"error", "warning", "log", "info", "debug"} ==> r == logs
  {
    if logType.None? then logs
    else
      var t := ToLower(logType.value);
      if t == "all" then logs
      else if t == "error" then Filter(logs, ErrorLike)
      else if t == "warning" then Filter(logs, WarningLike)
      else if t == "log" then Filter(logs, (log: string) => !LogExcluded(log))
      else if t == "info" then Filter(logs, (log: string) => Contains(log, "[info]"))
      else if t == "debug" then Filter(logs, (log: string) => Contains(log, "[debug]"))
      else logs
  }

  /** The search filter: with a non-empty term, only the entries containing it. */
  function SearchSelect(logs: seq<string>, search: Option<string>): (r: seq<string>)
    ensures forall i :: 0 <= i < |r| ==> r[i] in logs && (search.Some? && search.value != "" ==> Contains(r[i], search.value))
    ensures search.Some? && search.value != "" ==>
              forall i :: 0 <= i < |logs| ==> (logs[i] in r <==> Contains(logs[i], search.value))
    ensures !(search.Some? && search.value != "") ==> r == logs
  {
    if search.Some? && search.value != "" then Filter(logs, (log: string) => Contains(log, search.value)) else logs
  }

  /** The limit: with a positive number, only the last that many entries. */
  function LimitSelect(logs: seq<string>, limit: Option<int>): (r: seq<string>)
    ensures forall i :: 0 <= i < |r| ==> r[i] in logs
    ensures limit.Some? && limit.value > 0 ==> |r| == Min(limit.value, |logs|) && r == logs[|logs| - |r|..]
    ensures !(limit.Some? && limit.value > 0) ==> r == logs
  {
    if limit.Some? && limit.value > 0 then LastN(logs, limit.value) else logs
  }

  /** The entries the case reports: type filter, then search, then the last `limit` when a positive number is given. */
  function SelectHandlerLogs(logs: seq<string>, args: LogArgs): seq<string> {
    LimitSelect(SearchSelect(TypeSelect(logs, args.logType), args.search), args.limit)
  }

  lemma {:induction false} TypeSelectIsSubsequence(logs: seq<string>, logType: Option<string>)
    ensures IsSubsequence(TypeSelect(logs, logType), logs)
  {
    if TypeSelect(logs, logType) == logs {
      SubsequenceReflexive(logs);
    } else {
      var t := ToLower(logType.value);
      if t == "error" {
        FilterIsSubsequence(logs, ErrorLike);
      } else if t == "warning" {
        FilterIsSubsequence(logs, WarningLike);
      } else if t == "log" {
        FilterIsSubsequence(logs, (log: string) => !LogExcluded(log));
      } else if t == "info" {
        FilterIsSubsequence(logs, (log: string) => Contains(log, "[info]"));
      } else {
        FilterIsSubsequence(logs, (log: string) => Contains(log, "[debug]"));
      }
    }
  }

  /** The reported entries always keep the buffer's order. */
  lemma HandlerSelectIsSubsequence(logs: seq<string>, args: LogArgs)
    ensures IsSubsequence(SelectHandlerLogs(logs, args), logs)
  {
    var byType := TypeSelect(logs, args.logType);
    var bySearch := SearchSelect(byType, args.search);
    TypeSelectIsSubsequence(logs, args.logType);
    SearchSelectIsSubsequence(byType, args.search);
    SubsequenceTransitive(bySearch, byType, logs);
    LimitSelectIsSubsequence(bySearch, args.limit);
    SubsequenceTransitive(LimitSelect(bySearch, args.limit), bySearch, logs);
  }

  lemma SearchSelectIsSubsequence(logs: seq<string>, search: Option<string>)
    ensures IsSubsequence(SearchSelect(logs, search), logs)
  {
    if search.Some? && search.value != "" {
      FilterIsSubsequence(logs, (log: string) => Contains(log, search.value));
    } else {
      SubsequenceReflexive(logs);
    }
  }

  lemma LimitSelectIsSubsequence(logs: seq<string>, limit: Option<int>)
    ensures IsSubsequence(LimitSelect(logs, limit), logs)
  {
    var r := LimitSelect(logs, limit);
    if limit.Some? && limit.value > 0 {
      SuffixIsSubsequence(logs, |logs| - |r|);
    } else {
      SubsequenceReflexive(logs);
    }
  }

  /** Each reported entry passes the type filter and contains the search term, and there are at most `limit` of them. */
  lemma HandlerSelectMembers(logs: seq<string>, args: LogArgs)
    ensures forall i :: 0 <= i < |SelectHandlerLogs(logs, args)| ==>
              MatchesType(args.logType, SelectHandlerLogs(logs, args)[i]) &&
              (args.search.Some? && args.search.value != "" ==> Contains(SelectHandlerLogs(logs, args)[i], args.search.value))
    ensures args.limit.Some? && args.limit.value > 0 ==> |SelectHandlerLogs(logs, args)| <= args.limit.value
    ensures !(args.limit.Some? && args.limit.value > 0) ==>
              forall i :: 0 <= i < |logs| && MatchesType(args.logType, logs[i]) &&
                          (args.search.Some? && args.search.value != "" ==> Contains(logs[i], args.search.value)) ==>
                            logs[i] in SelectHandlerLogs(logs, args)
  {
    var byType := TypeSelect(logs, args.logType);
    var bySearch := SearchSelect(byType, args.search);
    var r := LimitSelect(bySearch, args.limit);
    forall i | 0 <= i < |r|
      ensures MatchesType(args.logType, r[i])
    {
      var j :| 0 <= j < |bySearch| && bySearch[j] == r[i];
      var k :| 0 <= k < |byType| && byType[k] == bySearch[j];
    }
    if !(args.limit.Some? && args.limit.value > 0) {
      forall i | 0 <= i < |logs| && MatchesType(args.logType, logs[i]) &&
                 (args.search.Some? && args.search.value != "" ==> Contains(logs[i], args.search.value))
        ensures logs[i] in r
      {
        var k :| 0 <= k < |byType| && byType[k] == logs[i];
      }
    }
  }

  /** No entry is reported both under `warning` and under `log`. */
  lemma WarningAndLogDisjoint(log: string)
    ensures !(MatchesType(Some("warning"), log) && MatchesType(Some("log"), log))
  {
    assert ToLower("warning") == "warning";
    assert ToLower("log") == "log";
  }

  /**
   * `error` and `log` are not disjoint: `log` leaves out `[error]` but not `[pageerror]`,
   * `[crash]` or `net::ERR_`, so an entry carrying one of those and none of the `log`
   * exclusions is reported under both.
   */
  lemma ErrorAndLogOverlap(log: string)
    requires Contains(log, "[pageerror]") || Contains(log, "[crash]") || Contains(log, "net::ERR_")
    requires !LogExcluded(log)
    ensures MatchesType(Some("error"), log) && MatchesType(Some("log"), log)
  {
    assert ToLower("error") == "error";
    assert ToLower("log") == "log";
  }

  /** Such an entry exists: a page error without any of the `log` exclusions. */
  lemma PageErrorExample(e: string)
    requires e == "[pageerror] boom"
    ensures Contains(e, "[pageerror]") && !LogExcluded(e)
  {
    PageErrorMarkers(e);
    PageErrorLacksLetters(e);
  }

  lemma PageErrorMarkers(e: string)
    requires e == "[pageerror] boom"
    ensures Contains(e, "[pageerror]") && !Contains(e, "[error]")
  {
    assert StartsWith(e[0..], "[pageerror]") by {
      assert e[0..] == e;
      assert e[..11] == "[pageerror]";
    }
    FirstPairNotContained(e, "[error]");
  }

  /** A text in which the first character of a pattern is never followed by its second cannot contain the pattern. */
  lemma FirstPairNotContained(s: string, p: string)
    requires |p| >= 2
    requires forall i :: 0 <= i < |s| - 1 && s[i] == p[0] ==> s[i + 1] != p[1]
    ensures !Contains(s, p)
  {
    ContainedPair(s, p);
  }

  /** An occurrence of a pattern puts its first two characters side by side in the text. */
  lemma ContainedPair(s: string, p: string)
    requires |p| >= 2
    ensures Contains(s, p) ==> exists i :: 0 <= i < |s| - 1 && s[i] == p[0] && s[i + 1] == p[1]
  {
    if Contains(s, p) {
      var v := IndexOf(s, p).value;
      assert s[v..v + |p|][0] == s[v] && s[v..v + |p|][1] == s[v + 1];
    }
  }

  lemma PageErrorLacksLetters(e: string)
    requires e == "[pageerror] boom"
    ensures !Contains(e, "Failed to load") && !Contains(e, "Error with") && !Contains(e, "[warning]") && !Contains(e, "Warning:")
  {
    assert 'F' !in e && 'E' !in e && 'w' !in e && 'W' !in e;
    MissingCharNotContained(e, "Failed to load", 'F');
    MissingCharNotContained(e, "Error with", 'E');
    MissingCharNotContained(e, "[warning]", 'w');
    MissingCharNotContained(e, "Warning:", 'W');
  }

  /** A text lacking one of a pattern's characters cannot contain the pattern. */
  lemma MissingCharNotContained(s: string, p: string, c: char)
    requires c in p && c !in s
    ensures !Contains(s, p)
  {
    if Contains(s, p) {
      OccurrenceCounts(s, p, c);
    }
  }

  /** The single text item of the console-log case. */
  function LogsText(selected: seq<string>): (text: string)
    ensures |selected| == 0 <==> text == "No matching console logs found."
    ensures |selected| > 0 ==> StartsWith(text, LogsHeader(|selected|))
  {
    if |selected| > 0 then
      var text := LogsHeader(|selected|) + Join(selected, "\n");
      assert text[0] == 'C';
      assert text[..|LogsHeader(|selected|)|] == LogsHeader(|selected|);
      text
    else "No matching console logs found."
  }

  /** The first line of a non-empty report, with the number of entries. */
  function LogsHeader(n: nat): string {
    "Console Logs (" + NatToString(n) + "):\n"
  }

  /** After the header, a report splits back on line breaks into exactly the selected entries, when none holds a line break. */
  lemma LogsTextLines(selected: seq<string>)
    requires |selected| > 0
    requires forall i :: 0 <= i < |selected| ==> '\n' !in selected[i]
    ensures Split(LogsText(selected)[|LogsHeader(|selected|)|..], '\n') == selected
  {
    var header := LogsHeader(|selected|);
    assert LogsText(selected)[|header|..] == Join(selected, "\n");
    SplitJoin(selected, '\n');
  }

  // ---- the dispatcher ----

  datatype ToolArgs = ToolArgs(headless: Option<bool>, logs: LogArgs)

  /**
   * How a call ends: a response, a rejection escaping `handleToolCall` (from `ensureBrowser`),
   * or, for a page- or API-driven case, the hand-off to that case with the page it was given.
   */
  datatype CallResult = Responded(response: ToolResponse) | Threw(message: string) | Delegated(name: string, page: Option<nat>)

  datatype CallStep = CallStep(state: BrowserState, consoleLogs: seq<string>, result: CallResult)

  /** One call of `handleToolCall`, where `gated` is whether the name was found to require a browser. */
  function Dispatch(s: BrowserState, logs: seq<string>, name: string, args: ToolArgs, gated: bool,
                    closeOutcome: Outcome, launch: LaunchOutcomes): CallStep
  {
    var (s1, ensured) :=
      if gated then Ensure(s, RequestedHeadless(name, args.headless, s.currentHeadless), closeOutcome, launch)
      else (s, Ready(None));
    if ensured.Failed? then CallStep(s1, logs, Threw(ensured.message))
    else if name == "playwright_console_logs" then
      var selected := SelectHandlerLogs(logs, args.logs);
      CallStep(s1, if args.logs.clearExactlyTrue then [] else logs,
               Responded(CreateSuccessResponse(Single(LogsText(selected)))))
    else if name == "playwright_close" then
      if s1.browser.None? then CallStep(s1, logs, Responded(CreateSuccessResponse(Single("No active browser to close"))))
      else match closeOutcome
        case Rejected(m) => CallStep(s1, logs, Responded(CreateErrorResponse("Failed to close browser: " + m)))
        case Resolved => CallStep(s1.(browser := None), logs, Responded(CreateSuccessResponse(Single("Browser successfully closed"))))
    else if name in PageTools || name in ApiTools then CallStep(s1, logs, Delegated(name, ensured.page))
    else CallStep(s1, logs, Responded(CreateErrorResponse("Unknown tool: " + name)))
  }

  /** The dispatcher with the intended browser gate. */
  function HandleCall(s: BrowserState, logs: seq<string>, name: string, args: ToolArgs,
                      closeOutcome: Outcome, launch: LaunchOutcomes): CallStep
  {
    Dispatch(s, logs, name, args, RequiresBrowser(name), closeOutcome, launch)
  }

  /** The dispatcher as written, gated by `BROWSER_TOOLS.includes(name)`. */
  function HandleCallAsWritten(s: BrowserState, logs: seq<string>, name: string, args: ToolArgs,
                               closeOutcome: Outcome, launch: LaunchOutcomes): CallStep
  {
    Dispatch(s, logs, name, args, RequiresBrowserAsWritten(name), closeOutcome, launch)
  }

  const Initial: BrowserState := BrowserState(None, None, false, 0)

  /** As written, the first navigation of a fresh server reaches `page!.goto` with no page at all. */
  lemma NavigateAsWrittenHasNoPage(args: ToolArgs, closeOutcome: Outcome, launch: LaunchOutcomes)
    ensures HandleCallAsWritten(Initial, [], "playwright_navigate", args, closeOutcome, launch).result
         == Delegated("playwright_navigate", None)
  {
    BrowserGateNeverOpens("playwright_navigate");
  }

  /** With the intended gate, a navigation whose launch succeeds gets the freshly opened page, in the requested mode. */
  lemma NavigateGetsPage(s: BrowserState, logs: seq<string>, args: ToolArgs, closeOutcome: Outcome)
    requires s.browser.None?
    ensures var step := HandleCall(s, logs, "playwright_navigate", args, closeOutcome, LaunchOutcomes(Resolved, Resolved));
            step.result == Delegated("playwright_navigate", Some(s.launches)) &&
            step.state.currentHeadless == (args.headless == Some(true)) &&
            step.consoleLogs == logs
  {
  }

  /** A page tool other than navigation never changes the headless mode, so it never relaunches an existing browser. */
  lemma PageToolKeepsBrowser(s: BrowserState, logs: seq<string>, name: string, args: ToolArgs,
                             closeOutcome: Outcome, launch: LaunchOutcomes)
    requires name in PageTools && name != "playwright_navigate" && s.browser.Some?
    ensures HandleCall(s, logs, name, args, closeOutcome, launch) == CallStep(s, logs, Delegated(name, s.page))
  {
    assert name != "playwright_console_logs" && name != "playwright_close";
    assert RequestedHeadless(name, args.headless, s.currentHeadless) == s.currentHeadless;
  }

  /** The console-log case: one success text item, computed before the buffer is cleared; cleared exactly when `clear === true`. */
  lemma ConsoleLogsCase(s: BrowserState, logs: seq<string>, args: ToolArgs, closeOutcome: Outcome, launch: LaunchOutcomes)
    ensures var step := HandleCall(s, logs, "playwright_console_logs", args, closeOutcome, launch);
            step.state == s &&
            step.consoleLogs == (if args.logs.clearExactlyTrue then [] else logs) &&
            step.result.Responded? && !step.result.response.isError &&
            Texts(step.result.response.content) == [LogsText(SelectHandlerLogs(logs, args.logs))]
  {
  }

  /** Closing: without a browser nothing changes; with one, the browser is forgotten on success and kept on failure. */
  lemma CloseCase(s: BrowserState, logs: seq<string>, args: ToolArgs, closeOutcome: Outcome, launch: LaunchOutcomes)
    ensures var step := HandleCall(s, logs, "playwright_close", args, closeOutcome, launch);
            step.consoleLogs == logs && step.state.page == s.page &&
            (s.browser.None? ==>
               step.state == s && step.result == Responded(CreateSuccessResponse(Single("No active browser to close")))) &&
            (s.browser.Some? && closeOutcome.Resolved? ==>
               step.state.browser.None? && step.result == Responded(CreateSuccessResponse(Single("Browser successfully closed")))) &&
            (s.browser.Some? && closeOutcome.Rejected? ==>
               step.state == s && step.result.Responded? && step.result.response.isError)
  {
  }

  /** A name that is no case of the dispatcher gets an error naming it, and nothing changes. */
  lemma UnknownToolCase(s: BrowserState, logs: seq<string>, name: string, args: ToolArgs,
                        closeOutcome: Outcome, launch: LaunchOutcomes)
    requires name !in PageTools && name !in ApiTools
    requires name != "playwright_console_logs" && name != "playwright_close"
    ensures HandleCall(s, logs, name, args, closeOutcome, launch)
         == CallStep(s, logs, Responded(CreateErrorResponse("Unknown tool: " + name)))
  {
  }

  /** The module-level state of the dispatcher. */
  class Handler {
    var browser: Option<nat>
    var page: Option<nat>
    var currentHeadless: bool
    var launches: nat
    var consoleLogs: seq<string>

    constructor ()
      ensures State() == Initial && consoleLogs == []
    {
      browser, page, currentHeadless, launches, consoleLogs := None, None, false, 0, [];
    }

    function State(): BrowserState
      reads this
    {
      BrowserState(browser, page, currentHeadless, launches)
    }

    /** `ensureBrowser`: close a browser in the wrong mode, then launch one if there is none. */
    method EnsureBrowser(headless: bool, closeOutcome: Outcome, launch: LaunchOutcomes) returns (res: EnsureResult)
      modifies this
      ensures (State(), res) == Ensure(old(State()), headless, closeOutcome, launch)
      ensures consoleLogs == old(consoleLogs)
    {
      if browser.Some? && currentHeadless != headless {
        if closeOutcome.Rejected? {
          return Failed(closeOutcome.message);
        }
        browser := None;
        page := None;
      }
      if browser.None? {
        if launch.launch.Rejected? {
          return Failed(launch.launch.message);
        }
        browser := Some(launches);
        launches := launches + 1;
        if launch.newPage.Rejected? {
          return Failed(launch.newPage.message);
        }
        page := Some(launches - 1);
        currentHeadless := headless;
      }
      res := Ready(page);
    }

    /** The page's `console` listener: appends `[type] text` to the shared buffer. */
    method OnPageConsole(msgType: string, text: string)
      modifies this
      ensures consoleLogs == old(consoleLogs) + ["[" + msgType + "] " + text]
      ensures State() == old(State())
    {
      consoleLogs := consoleLogs + ["[" + msgType + "] " + text];
    }

    /** `handleToolCall(name, args)`, with the outcomes of the browser calls it would make given up front. */
    method HandleToolCall(name: string, args: ToolArgs, closeOutcome: Outcome, launch: LaunchOutcomes) returns (r: CallResult)
      modifies this
      ensures CallStep(State(), consoleLogs, r) == HandleCall(old(State()), old(consoleLogs), name, args, closeOutcome, launch)
    {
      var localPage: Option<nat> := None;
      if RequiresBrowser(name) {
        var headless := RequestedHeadless(name, args.headless, currentHeadless);
        var ensured := EnsureBrowser(headless, closeOutcome, launch);
        if ensured.Failed? {
          return Threw(ensured.message);
        }
        localPage := ensured.page;
      }
      if name == "playwright_console_logs" {
        var selected := SelectHandlerLogs(consoleLogs, args.logs);
        if args.logs.clearExactlyTrue {
          consoleLogs := [];
        }
        r := Responded(CreateSuccessResponse(Single(LogsText(selected))));
      } else if name == "playwright_close" {
        if browser.None? {
          r := Responded(CreateSuccessResponse(Single("No active browser to close")));
        } else if closeOutcome.Rejected? {
          r := Responded(CreateErrorResponse("Failed to close browser: " + closeOutcome.message));
        } else {
          browser := None;
          localPage := None;
          r := Responded(CreateSuccessResponse(Single("Browser successfully closed")));
        }
      } else if name in PageTools || name in ApiTools {
        r := Delegated(name, localPage);
      } else {
        r := Responded(CreateErrorResponse("Unknown tool: " + name));
      }
    }
  }
}
