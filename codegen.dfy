/**
 * `CodeGeneratorTool`: an append-only list of recorded actions, rendered one line per action
 * inside a fixed Playwright test wrapper.
 */
module Codegen {
  import opened Common
  import opened Strings
  import opened ToolTypes

  /** The values an action parameter can hold in this model. */
  datatype ParamValue = Str(s: string) | Bool(b: bool) | Num(n: int)

  datatype Action = Action(actionType: string, params: map<string, ParamValue>, timestamp: int)

  /** How a template literal prints a value. */
  function Show(v: ParamValue): string {
    match v
    case Str(s) => s
    case Bool(b) => if b then "true" else "false"
    case Num(n) => IntToString(n)
  }

  /** `action.params.<key>` inside a template literal: an absent parameter prints as `undefined`. */
  function Param(a: Action, key: string): string {
    if key in a.params then Show(a.params[key]) else "undefined"
  }

  /** JavaScript truthiness of a parameter (an absent one is `undefined`, so falsy). */
  predicate Truthy(a: Action, key: string) {
    key in a.params &&
    match a.params[key]
    case Str(s) => s != ""
    case Bool(b) => b
    case Num(n) => n != 0
  }

  /** The action types the generator knows, and the fallback for every other type. */
  datatype Kind =
    | Navigate | Click | Fill | Select | Hover | Screenshot | Evaluate | IframeClick
    | Get | Post | Put | Patch | Delete | Unsupported

  /** The `switch (action.type)` of `generateActionCode`. */
  function KindOf(actionType: string): (k: Kind)
    ensures k.Unsupported? <==> actionType !in SupportedTypes
  {
    if actionType == "playwright_navigate" then Navigate
    else if actionType == "playwright_click" then Click
    else if actionType == "playwright_fill" then Fill
    else if actionType == "playwright_select" then Select
    else if actionType == "playwright_hover" then Hover
    else if actionType == "playwright_screenshot" then Screenshot
    else if actionType == "playwright_evaluate" then Evaluate
    else if actionType == "playwright_iframe_click" then IframeClick
    else if actionType == "playwright_get" then Get
    else if actionType == "playwright_post" then Post
    else if actionType == "playwright_put" then Put
    else if actionType == "playwright_patch" then Patch
    else if actionType == "playwright_delete" then Delete
    else Unsupported
  }

  const SupportedTypes: set<string> := {
    "playwright_navigate", "playwright_click", "playwright_fill", "playwright_select",
    "playwright_hover", "playwright_screenshot", "playwright_evaluate", "playwright_iframe_click",
    "playwright_get", "playwright_post", "playwright_put", "playwright_patch", "playwright_delete"
  }

  const FullPageSuffix: string := ", fullPage: true });"

  /** The line one action contributes to the test body. */
  function ActionLine(a: Action): string {
    Render(KindOf(a.actionType), a)
  }

  /** The template of each `case`, filled with the action's parameters. */
  function Render(k: Kind, a: Action): string {
    match k
    case Navigate => "  await page.goto('" + Param(a, "url") + "');"
    case Click => "  await page.click('" + Param(a, "selector") + "');"
    case Fill => "  await page.fill('" + Param(a, "selector") + "', '" + Param(a, "value") + "');"
    case Select => "  await page.selectOption('" + Param(a, "selector") + "', '" + Param(a, "value") + "');"
    case Hover => "  await page.hover('" + Param(a, "selector") + "');"
    case Screenshot =>
      "  await page.screenshot({ path: '" + Param(a, "name") + ".png'" +
      (if Truthy(a, "fullPage") then ", fullPage: true" else "") + " });"
    case Evaluate => "  await page.evaluate(" + Param(a, "script") + ");"
    case IframeClick =>
      "  await page.frameLocator('" + Param(a, "iframeSelector") + "').locator('" + Param(a, "selector") + "').click();"
    case Get => "  await page.request.get('" + Param(a, "url") + "');"
    case Post => "  await page.request.post('" + Param(a, "url") + "', { data: " + Param(a, "value") + " });"
    case Put => "  await page.request.put('" + Param(a, "url") + "', { data: " + Param(a, "value") + " });"
    case Patch => "  await page.request.patch('" + Param(a, "url") + "', { data: " + Param(a, "value") + " });"
    case Delete => "  await page.request.delete('" + Param(a, "url") + "');"
    case Unsupported => "  // Unsupported action: " + a.actionType
  }

  function Lines(actions: seq<Action>): (ls: seq<string>)
    ensures |ls| == |actions| && forall i :: 0 <= i < |actions| ==> ls[i] == ActionLine(actions[i])
  {
    seq(|actions|, (i: int) requires 0 <= i < |actions| => ActionLine(actions[i]))
  }

  /** `generateActionCode`: the action lines joined by newlines. */
  function ActionCode(actions: seq<Action>): string {
    Join(Lines(actions), "\n")
  }

  const Imports: string := "import { test, expect } from '@playwright/test';\n\n"
  const TestOpen: string := "test('Generated test from recorded actions', async ({ page }) => {\n"
  const TestClose: string := "\n});\n"

  /** `generateTestCode`: the import header, then the fixed test wrapper around the action code. */
  function TestCode(actions: seq<Action>): string {
    Imports + TestOpen + ActionCode(actions) + TestClose
  }

  /** Reads the action code back out of a generated test file. */
  function ExtractActionCode(code: string): Option<string> {
    var head := Imports + TestOpen;
    if |code| >= |head| + |TestClose| && StartsWith(code, head) && EndsWith(code, TestClose)
    then Some(code[|head|..|code| - |TestClose|])
    else None
  }

  /** A generated file always has the header and the wrapper, and the action code can be read back out of it. */
  lemma ExtractTestCode(actions: seq<Action>)
    ensures StartsWith(TestCode(actions), Imports + TestOpen)
    ensures EndsWith(TestCode(actions), TestClose)
    ensures ExtractActionCode(TestCode(actions)) == Some(ActionCode(actions))
  {
    var code := TestCode(actions);
    var head := Imports + TestOpen;
    assert code == head + ActionCode(actions) + TestClose;
    assert code[..|head|] == head;
    assert code[|code| - |TestClose|..] == TestClose;
    assert code[|head|..|code| - |TestClose|] == ActionCode(actions);
  }

  /** No string parameter and no action type holds a line break. */
  predicate SingleLine(a: Action) {
    '\n' !in a.actionType &&
    forall k :: k in a.params && a.params[k].Str? ==> '\n' !in a.params[k].s
  }

  lemma ShowSingleLine(a: Action, key: string)
    requires SingleLine(a)
    ensures '\n' !in Param(a, key)
  {
    if key in a.params && a.params[key].Num? {
      var n := a.params[key].n;
      var digits := NatToString(if n < 0 then -n else n);
      assert forall i :: 0 <= i < |digits| ==> digits[i] != '\n';
    }
  }

  lemma ElementLineSingleLine(k: Kind, a: Action)
    requires SingleLine(a)
    requires k in {Navigate, Click, Fill, Select, Hover}
    ensures '\n' !in Render(k, a)
  {
    ShowSingleLine(a, "url");
    ShowSingleLine(a, "selector");
    ShowSingleLine(a, "value");
  }

  lemma ScreenshotLineSingleLine(a: Action)
    requires SingleLine(a)
    ensures '\n' !in Render(Screenshot, a)
  {
    ShowSingleLine(a, "name");
    var option := if Truthy(a, "fullPage") then ", fullPage: true" else "";
    assert '\n' !in option;
    assert Render(Screenshot, a) == "  await page.screenshot({ path: '" + Param(a, "name") + ".png'" + option + " });";
  }

  lemma PageLineSingleLine(k: Kind, a: Action)
    requires SingleLine(a)
    requires k in {Evaluate, IframeClick}
    ensures '\n' !in Render(k, a)
  {
    ShowSingleLine(a, "script");
    ShowSingleLine(a, "iframeSelector");
    ShowSingleLine(a, "selector");
  }

  lemma UnsupportedLineSingleLine(a: Action)
    requires SingleLine(a)
    ensures '\n' !in Render(Unsupported, a)
  {
  }

  lemma RequestLineSingleLine(k: Kind, a: Action)
    requires SingleLine(a)
    requires k in {Get, Post, Put, Patch, Delete}
    ensures '\n' !in Render(k, a)
  {
    ShowSingleLine(a, "url");
    ShowSingleLine(a, "value");
  }

  /** An action whose parameters hold no line break renders to exactly one line. */
  lemma ActionLineSingleLine(a: Action)
    requires SingleLine(a)
    ensures '\n' !in ActionLine(a)
  {
    var k := KindOf(a.actionType);
    if k in {Navigate, Click, Fill, Select, Hover} {
      ElementLineSingleLine(k, a);
    } else if k in {Get, Post, Put, Patch, Delete} {
      RequestLineSingleLine(k, a);
    } else if k == Screenshot {
      ScreenshotLineSingleLine(a);
    } else if k == Unsupported {
      UnsupportedLineSingleLine(a);
    } else {
      PageLineSingleLine(k, a);
    }
  }

  /** The action code has exactly one line per recorded action, in recording order. */
  lemma ActionCodeLines(actions: seq<Action>)
    requires |actions| >= 1
    requires forall i :: 0 <= i < |actions| ==> SingleLine(actions[i])
    ensures Split(ActionCode(actions), '\n') == Lines(actions)
  {
    forall i | 0 <= i < |actions|
      ensures '\n' !in Lines(actions)[i]
    {
      ActionLineSingleLine(actions[i]);
    }
    SplitJoin(Lines(actions), '\n');
  }

  /** Each element of a join appears in it between a prefix and a suffix. */
  lemma {:induction false} JoinSplitsAt(xs: seq<string>, sep: string, i: nat) returns (pre: string, post: string)
    requires i < |xs|
    ensures Join(xs, sep) == pre + xs[i] + post
    decreases i
  {
    if |xs| == 1 {
      pre, post := "", "";
    } else if i == 0 {
      pre, post := "", sep + Join(xs[1..], sep);
    } else {
      var p, q := JoinSplitsAt(xs[1..], sep, i - 1);
      pre, post := xs[0] + sep + p, q;
    }
  }

  /** Every recorded action's line appears in the generated test file. */
  lemma TestCodeContainsLine(actions: seq<Action>, i: nat)
    requires i < |actions|
    ensures Contains(TestCode(actions), ActionLine(actions[i]))
  {
    WrappedJoinContains(Imports + TestOpen, Lines(actions), TestClose, i);
  }

  /** Each element of a join occurs in the join between any head and tail. */
  lemma WrappedJoinContains(head: string, xs: seq<string>, tail: string, i: nat)
    requires i < |xs|
    ensures Contains(head + Join(xs, "\n") + tail, xs[i])
  {
    var pre, post := JoinSplitsAt(xs, "\n", i);
    InfixContains(head, pre, xs[i], post, tail);
  }

  /** `x` occurs in any string built with `pre + x + post` in its middle. */
  lemma InfixContains(head: string, pre: string, x: string, post: string, tail: string)
    ensures Contains(head + (pre + x + post) + tail, x)
  {
    var s := head + (pre + x + post) + tail;
    var k := |head| + |pre|;
    forall m | 0 <= m < |x|
      ensures s[k + m] == x[m]
    {
      assert s[k + m] == (pre + x + post)[|pre| + m];
    }
    assert s[k..k + |x|] == x;
    OccursAt(s, x, k);
  }

  /** An action of a type the generator does not know shows up as a comment naming that type. */
  lemma UnsupportedActionRendered(actions: seq<Action>, i: nat)
    requires i < |actions| && actions[i].actionType !in SupportedTypes
    ensures Contains(TestCode(actions), "  // Unsupported action: " + actions[i].actionType)
  {
    UnsupportedLine(actions[i]);
    TestCodeContainsLine(actions, i);
  }

  lemma UnsupportedLine(a: Action)
    requires a.actionType !in SupportedTypes
    ensures ActionLine(a) == "  // Unsupported action: " + a.actionType
  {
    assert KindOf(a.actionType) == Unsupported;
  }

  /** A screenshot line ends with the full-page option exactly when `fullPage` is truthy. */
  lemma ScreenshotFullPage(a: Action)
    requires a.actionType == "playwright_screenshot"
    ensures EndsWith(ActionLine(a), FullPageSuffix) <==> Truthy(a, "fullPage")
  {
    var line := ActionLine(a);
    var head := "  await page.screenshot({ path: '" + Param(a, "name") + ".png'";
    if Truthy(a, "fullPage") {
      assert line == head + FullPageSuffix;
      assert line[|line| - |FullPageSuffix|..] == FullPageSuffix;
    } else {
      assert line == head + " });";
      assert line[|line| - 5] == '\'';
      assert FullPageSuffix[|FullPageSuffix| - 5] == 'e';
      if |FullPageSuffix| <= |line| {
        assert line[|line| - |FullPageSuffix|..][|FullPageSuffix| - 5] == '\'';
      }
    }
  }

  /** With no actions recorded, the file is the header and the empty wrapper, with no action line. */
  lemma EmptyTestCode()
    ensures TestCode([]) == Imports + TestOpen + TestClose
  {
  }

  /** The expectations of the generator's tests on single actions, as exact lines (at any timestamp). */
  lemma NavigateExample(a: Action)
    requires a.actionType == "playwright_navigate" && a.params == map["url" := Str("https://example.com")]
    ensures ActionLine(a) == "  await page.goto('https://example.com');"
  {
    assert KindOf(a.actionType) == Navigate && Param(a, "url") == "https://example.com";
    NavigateText(Param(a, "url"));
  }

  lemma NavigateText(url: string)
    requires url == "https://example.com"
    ensures "  await page.goto('" + url + "');" == "  await page.goto('https://example.com');"
  {
  }

  lemma FillExample(a: Action)
    requires a.actionType == "playwright_fill" && a.params == map["selector" := Str("#input"), "value" := Str("test value")]
    ensures ActionLine(a) == "  await page.fill('#input', 'test value');"
  {
    assert KindOf(a.actionType) == Fill;
    assert Param(a, "selector") == "#input" && Param(a, "value") == "test value";
    FillText(Param(a, "selector"), Param(a, "value"));
  }

  lemma FillText(selector: string, value: string)
    requires selector == "#input" && value == "test value"
    ensures "  await page.fill('" + selector + "', '" + value + "');" == "  await page.fill('#input', 'test value');"
  {
  }

  /** Unfolds the screenshot template, with the full-page option spelled out (used by the lemmas below). */
  lemma ScreenshotTemplate(a: Action)
    requires KindOf(a.actionType) == Screenshot
    ensures ActionLine(a) == "  await page.screenshot({ path: '" + Param(a, "name") + ".png'" +
                             (if Truthy(a, "fullPage") then ", fullPage: true" else "") + " });"
  {
  }

  /** Unfolds the POST request template (used by the lemmas below). */
  lemma PostTemplate(a: Action)
    requires KindOf(a.actionType) == Post
    ensures ActionLine(a) == "  await page.request.post('" + Param(a, "url") + "', { data: " + Param(a, "value") + " });"
  {
  }

  /** The two filled slots of a five-part string both occur in it. */
  lemma SlotsContained(p: string, x: string, m: string, y: string, t: string)
    ensures Contains(p + x + m + y + t, x) && Contains(p + x + m + y + t, y)
  {
    var s := p + x + m + y + t;
    forall k | 0 <= k < |x|
      ensures s[|p| + k] == x[k]
    {
      assert s[|p| + k] == (p + x)[|p| + k];
    }
    assert s[|p|..|p| + |x|] == x;
    OccursAt(s, x, |p|);
    var q := |p| + |x| + |m|;
    forall k | 0 <= k < |y|
      ensures s[q + k] == y[k]
    {
      assert s[q + k] == (p + x + m + y)[q + k];
    }
    assert s[q..q + |y|] == y;
    OccursAt(s, y, q);
  }

  /** A POST line is a `page.request.post` call that carries the `url` and `value` parameters verbatim. */
  lemma PostLineHoldsParams(a: Action)
    requires KindOf(a.actionType) == Post
    ensures StartsWith(ActionLine(a), "  await page.request.post('")
    ensures Contains(ActionLine(a), Param(a, "url")) && Contains(ActionLine(a), Param(a, "value"))
  {
    PostTemplate(a);
    var head := "  await page.request.post('";
    var line := ActionLine(a);
    SlotsContained(head, Param(a, "url"), "', { data: ", Param(a, "value"), " });");
    assert line[..|head|] == head;
  }

  /** A screenshot line is a `page.screenshot` call whose path is the `name` parameter with `.png` appended. */
  lemma ScreenshotLineHoldsName(a: Action)
    requires KindOf(a.actionType) == Screenshot
    ensures StartsWith(ActionLine(a), "  await page.screenshot({ path: '")
    ensures Contains(ActionLine(a), Param(a, "name") + ".png'")
  {
    ScreenshotTemplate(a);
    var head := "  await page.screenshot({ path: '";
    var option := if Truthy(a, "fullPage") then ", fullPage: true" else "";
    Regroup(head, Param(a, "name"), ".png'", option, " });");
    SlotsContained(head, Param(a, "name") + ".png'", option + " });", "", "");
    var line := ActionLine(a);
    assert line[..|head|] == head;
  }

  lemma Regroup(h: string, n: string, e: string, o: string, c: string)
    ensures h + n + e + o + c == h + (n + e) + (o + c) + "" + ""
  {
  }

  lemma ScreenshotFullPageExample(a: Action)
    requires a.actionType == "playwright_screenshot"
    requires a.params == map["name" := Str("test-screenshot"), "fullPage" := Bool(true)]
    ensures ActionLine(a) == "  await page.screenshot({ path: '" + "test-screenshot" + ".png', fullPage: true });"
  {
    assert Param(a, "name") == "test-screenshot" && Truthy(a, "fullPage");
    ScreenshotTemplate(a);
  }

  lemma ScreenshotPlainExample(a: Action)
    requires a.actionType == "playwright_screenshot" && a.params == map["name" := Str("test-screenshot")]
    ensures ActionLine(a) == "  await page.screenshot({ path: 'test-screenshot.png' });"
  {
    assert Param(a, "name") == "test-screenshot" && !Truthy(a, "fullPage");
    ScreenshotTemplate(a);
    ScreenshotPlainText(Param(a, "name"));
  }

  lemma ScreenshotPlainText(name: string)
    requires name == "test-screenshot"
    ensures "  await page.screenshot({ path: '" + name + ".png'" + "" + " });" ==
            "  await page.screenshot({ path: 'test-screenshot.png' });"
  {
  }

  lemma PostExample(a: Action)
    requires a.actionType == "playwright_post"
    requires a.params == map["url" := Str("/api/create"), "value" := Str("{\"data\": \"test\"}")]
    ensures ActionLine(a) == "  await page.request.post('" + "/api/create" + "', { data: " + "{\"data\": \"test\"}" + " });"
  {
    PostParams(a);
    PostTemplate(a);
  }

  lemma PostParams(a: Action)
    requires a.actionType == "playwright_post"
    requires a.params == map["url" := Str("/api/create"), "value" := Str("{\"data\": \"test\"}")]
    ensures KindOf(a.actionType) == Post
    ensures Param(a, "url") == "/api/create" && Param(a, "value") == "{\"data\": \"test\"}"
  {
  }

  lemma UnsupportedExample(a: Action)
    requires a.actionType == "unsupported_action" && a.params == map["param" := Str("value")]
    ensures ActionLine(a) == "  // Unsupported action: unsupported_action"
  {
    UnsupportedLine(a);
  }

  const ResultPrefix: string := "Generated Playwright test code:\n\n"

  class CodeGeneratorTool {
    var actions: seq<Action>

    constructor ()
      ensures actions == []
    {
      actions := [];
    }

    /** Records one action, stamped with the clock reading `now`, after those already recorded. */
    method AddAction(actionType: string, params: map<string, ParamValue>, now: int)
      modifies this
      ensures actions == old(actions) + [Action(actionType, params, now)]
    {
      actions := actions + [Action(actionType, params, now)];
    }

    /** The tool's result: never an error; one plain-text item holding the generated file after a fixed heading. */
    function Execute(): (r: ToolResponse)
      reads this
      ensures !r.isError && |r.content| == 1 && r.content[0].MimeText? && r.content[0].mime == "text/plain"
      ensures StartsWith(r.content[0].text, ResultPrefix)
      ensures ExtractActionCode(r.content[0].text[|ResultPrefix|..]) == Some(ActionCode(actions))
    {
      var text := ResultPrefix + TestCode(actions);
      ExtractTestCode(actions);
      assert text[|ResultPrefix|..] == TestCode(actions);
      ToolResponse([MimeText(text, "text/plain")], false)
    }

    method ClearActions()
      modifies this
      ensures actions == []
    {
      actions := [];
    }
  }
}
