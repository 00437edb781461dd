# mcp-playwright: the bookkeeping and string cores, modelled in Dafny

The MCP Playwright server puts a browser-automation library behind MCP tools. Around the
library it keeps a small amount of state of its own, and does some string handling:

- **The file-resource registry** (`ResourceManager`, resource_manager.dfy).
  - Each MCP server (an owner) has a store of file-backed resources.
  - Each record expires after a configurable time-to-live (TTL).
  - Process-wide settings control it: linking on or off, the TTL, a URI builder, and a session resolver.
  - Registration returns a resource link, or no link when linking is off or there is no session.
  - The MIME type comes from an extension table.
  - Listing, reading (by URI) and fetching by id all sweep expired records first.
  - A read is encoded as text or as a base64 blob.
  - An owner's store can be torn down.
- **The upload store** (`UploadManager`, upload_manager.dfy).
  - Uploaded files are kept per session and named by `mcp-uploads://<session>/<id>` URIs.
  - The URI parser also accepts the `mcp+upload://` alias.
  - Resolving refuses URIs of other sessions.
  - One upload, or a whole session, can be cleaned up.
- **The two console-log buffers and their filters.**
  - `ConsoleLogsTool` (console_logs.dfy) filters by type prefix, then search, then limit, then clear.
  - The older marker-based filter lives in the dispatcher `handleToolCall` (tools_handler.dfy).
  - The dispatcher also has a relaunch rule: the browser is relaunched when the headless mode changes.
  - It has a close branch and an unknown-tool default.
- **The code generator** (`Codegen`, codegen.dfy). It appends recorded actions and renders them as a Playwright test file, one line per action.
- **The session table of the HTTP server** (`HttpServer`, http_server.dfy).
  - SSE connections register under their session id and are removed on close.
  - POSTs are routed to the session's transport, or answered with JSON-RPC error envelopes.
  - `/health` counts the sessions.
  - Shutdown closes every transport.
- **Small pure helpers:**
  - the tool response constructors (`ToolTypes`, tool_types.dfy);
  - the URL check and `https://` defaulting of the navigation tool (`Navigation`, navigation.dfy).

Parts of the model that change state are classes with `modifies` clauses:

- `ResourceManager.ResourceRegistry`
- `UploadManager.UploadStore`
- `ConsoleLogs.ConsoleLogsTool`
- `Codegen.CodeGeneratorTool`
- `ToolsHandler.Handler`
- `HttpServer.SessionTable`

Each method is proved against a pure function. The lemmas over those functions state what the source promises.

Several things become parameters of the model instead of being modelled:

- **Values and outcomes from outside.** The clock (`now`), file sizes, the resource base directory, and the outcomes of awaited calls (`Common.Outcome`: resolved or rejected with a message) are all parameters. The awaited calls are launching the browser, closing it or a transport, and forwarding a POST.
- **Random ids.** `randomUUID` and the transports' random session ids become a counter (`Ids.IdOf(n)`). Whether an id is fresh is then a provable fact.
- **Callbacks.** The URI builder and the session resolver are function-valued settings.
- **Stores.** A resource store is a sequence in insertion order, because that is the iteration order of the JavaScript `Map` that `find` and listing walk. The upload store is a map of maps, since its order is never observed.
- **Helper modules.** `Common`, `Strings`, `Seqs`, `Paths` and `Ids` model the JavaScript and Node primitives the core relies on: `startsWith`, `includes`, `indexOf`, `replace` with a string pattern, `split`, `join`, `filter`, `find` and `slice(-n)`, ASCII `toLowerCase`, and `path.basename`, `path.extname` and `path.join`.

## Model

| member | source | states |
|---|---|---|
| ToolTypes.CreateErrorResponse | src/tools/common/types.ts:28-38 | an error result holding exactly one text item, the message |
| ToolTypes.CreateSuccessResponse | src/tools/common/types.ts:40-49 | `isError` false; every item is a text item; the texts are the messages in order (one item for a single string) |
| ToolTypes.TextItemsDetermined | src/tools/common/types.ts:43-48 | two text-item lists with the same texts are equal, so a result is determined by its texts |
| ToolTypes.SingleIsOneElementList | src/tools/common/types.ts:41-46 | a single string and the one-element list of that string give the same success result |
| ToolTypes.ErrorAndSuccessShareItems | src/tools/common/types.ts:28-49 | an error result and a success result for the same text have the same items and differ only in `isError` |
| Navigation.NormalizeUrl | src/tools/browser/navigation.ts:18 | the result starts with `http`; a URL already starting with `http` is kept; any other URL gets `https://` in front |
| Navigation.NormalizeIdempotent | src/tools/browser/navigation.ts:18 | normalising twice is normalising once |
| Navigation.Goto | src/tools/browser/navigation.ts:13-21 | a missing or empty URL results in no navigation, and only such a URL does; it gets the error "URL is required"; otherwise the page goes to the normalised URL and the success message is `Navigated to: <finalUrl>` |
| Navigation.GotoTargetIsNormal | src/tools/browser/navigation.ts:18-21 | every address navigated to starts with `http` and is reported in a non-error result; refusals are errors |
| ConsoleLogs.Filtered | src/tools/browser/console.ts:32-40 | an entry is kept if and only if it passes both filters: it starts with `[type]` when a type other than `all` is given, and it contains the search term when there is one |
| ConsoleLogs.SelectLogs | src/tools/browser/console.ts:42-45 | with a positive limit, the last `min(limit, n)` filtered entries; otherwise all filtered entries |
| ConsoleLogs.FilteredIsSubsequence | src/tools/browser/console.ts:30-40 | the filtered entries are an order-preserving subsequence of the buffer |
| ConsoleLogs.SelectIsSubsequence | src/tools/browser/console.ts:30-45 | for any arguments, the returned entries are an order-preserving subsequence of the buffer |
| ConsoleLogs.SelectMembers | src/tools/browser/console.ts:33-45 | every returned entry passes the filters; with no positive limit, every buffered entry that passes them is returned |
| ConsoleLogs.EntryMatchesOwnType | src/tools/browser/console.ts:18-35 | an entry registered with type `t` passes the type filter `t` |
| ConsoleLogs.LogsResponse | src/tools/browser/console.ts:53-79 | never an error, all text items; no entries gives "No console logs matching the criteria"; otherwise the entries, headed by the download summary only when a non-empty saved location exists |
| ConsoleLogs.ConsoleLogsTool.constructor | src/tools/browser/console.ts:11 | the buffer starts empty |
| ConsoleLogs.ConsoleLogsTool.RegisterConsoleMessage | src/tools/browser/console.ts:18-21 | appends exactly `[type] text`; earlier entries are unchanged |
| ConsoleLogs.ConsoleLogsTool.Execute | src/tools/browser/console.ts:26-54 | the response is built from the selection of the buffer as it was before the call; the buffer is emptied exactly when `clear` is set |
| ConsoleLogs.ConsoleLogsTool.ClearConsoleLogs | src/tools/browser/console.ts:88-97 | afterwards `getConsoleLogs` is empty |
| Codegen.KindOf | src/tools/browser/codegen.ts:34-63 | an action type falls to the unsupported default exactly when it is none of the 13 known types |
| Codegen.Lines | src/tools/browser/codegen.ts:33-63 | one rendered line per action, in recording order |
| Codegen.ExtractTestCode | src/tools/browser/codegen.ts:22-30 | the file starts with the import header and the test opening, and ends with the closing; the action code can be read back out of it exactly |
| Codegen.ActionLineSingleLine | src/tools/browser/codegen.ts:33-63 | an action whose parameters hold no line break renders to a line without a line break |
| Codegen.ActionCodeLines | src/tools/browser/codegen.ts:33-64 | splitting the action code on `\n` gives back exactly one line per recorded action, in order |
| Codegen.TestCodeContainsLine | src/tools/browser/codegen.ts:22-64 | every recorded action's line occurs in the generated file |
| Codegen.UnsupportedActionRendered | src/tools/browser/codegen.ts:61-62 | an action of an unknown type shows up as `  // Unsupported action: <type>` |
| Codegen.ScreenshotFullPage | src/tools/browser/codegen.ts:46 | a screenshot line ends with the full-page option if and only if `fullPage` is truthy |
| Codegen.ScreenshotLineHoldsName | src/tools/browser/codegen.ts:46 | a screenshot line is a `page.screenshot` call whose path holds the `name` parameter verbatim, followed by `.png` |
| Codegen.PostLineHoldsParams | src/tools/browser/codegen.ts:53-54 | a POST line is a `page.request.post` call that holds the `url` and `value` parameters verbatim |
| Codegen.EmptyTestCode | src/tools/browser/codegen.ts:22-30 | with no actions, the file is the header and an empty wrapper |
| Codegen.NavigateExample | src/__tests__/tools/browser/codegen.test.ts:36-41 | the navigate line the generator's tests expect |
| Codegen.FillExample | src/__tests__/tools/browser/codegen.test.ts:50-55 | the fill line the tests expect |
| Codegen.ScreenshotFullPageExample | src/__tests__/tools/browser/codegen.test.ts:71-76 | the full-page screenshot line the tests expect |
| Codegen.ScreenshotPlainExample | src/__tests__/tools/browser/codegen.test.ts:78-83 | the plain screenshot line the tests expect |
| Codegen.PostExample | src/__tests__/tools/browser/codegen.test.ts:102-117 | the POST request line the tests expect |
| Codegen.UnsupportedExample | src/__tests__/tools/browser/codegen.test.ts:119-124 | the unsupported-action comment the tests expect |
| Codegen.CodeGeneratorTool.AddAction | src/tools/browser/codegen.ts:14-20 | appends one action, stamped with the clock reading, after the earlier ones |
| Codegen.CodeGeneratorTool.Execute | src/tools/browser/codegen.ts:67-79 | never an error; one `text/plain` item starting `Generated Playwright test code:\n\n`, from which the current action code reads back |
| Codegen.CodeGeneratorTool.ClearActions | src/tools/browser/codegen.ts:81-83 | no actions remain, so the next file has no action line |
| ToolsHandler.DropMismatched | src/toolsHandler.ts:23-27 | unless closing fails, no browser in the wrong mode remains |
| ToolsHandler.Ensure | src/toolsHandler.ts:22-49 | success leaves a browser in place; a browser in the requested mode is kept with its page; at most one launch, and only when there was no browser or the mode differed; after a successful launch the mode is the requested one and the new page is returned |
| ToolsHandler.EnsureRelaunch | src/toolsHandler.ts:23-46 | a browser in the other mode is closed (a failed close is reported and changes nothing) and replaced by a new handle in the requested mode |
| ToolsHandler.EnsureStable | src/toolsHandler.ts:22-49 | once it has succeeded, a second call for the same mode changes nothing and returns the same page |
| ToolsHandler.RequestedHeadless | src/toolsHandler.ts:69 | the mode comes from the arguments (default false) only for `playwright_navigate`; otherwise it is the current mode |
| ToolsHandler.NoPlPrefixedListed | src/tools.ts:6-22 | no name on `BROWSER_TOOLS` begins with `pl` |
| ToolsHandler.BrowserGateNeverOpens | src/toolsHandler.ts:62 | none of the dispatcher's page-driven cases is on `BROWSER_TOOLS` (as written); all of them require a browser (corrected) |
| ToolsHandler.TypeSelect | src/toolsHandler.ts:335-371 | an entry is kept if and only if it matches the lower-cased type through the markers; `all`, absent or unknown types keep every entry |
| ToolsHandler.SearchSelect | src/toolsHandler.ts:374-377 | with a non-empty search term, an entry is kept if and only if it contains the term; with no term or an empty one, the list is unchanged |
| ToolsHandler.LimitSelect | src/toolsHandler.ts:383-385 | with a positive numeric limit, the last `min(limit, n)` entries; otherwise all of them |
| ToolsHandler.TypeSelectIsSubsequence | src/toolsHandler.ts:339-371 | the type filter keeps the buffer's order |
| ToolsHandler.HandlerSelectIsSubsequence | src/toolsHandler.ts:335-385 | the reported entries are an order-preserving subsequence of the buffer |
| ToolsHandler.HandlerSelectMembers | src/toolsHandler.ts:335-385 | each reported entry matches the type and contains the search term; there are at most `limit` of them; with no positive limit, every buffered entry that matches the type and holds the term is reported |
| ToolsHandler.WarningAndLogDisjoint | src/toolsHandler.ts:350-363 | no entry is reported under both `warning` and `log` |
| ToolsHandler.ErrorAndLogOverlap | src/toolsHandler.ts:341-363 | an entry with `[pageerror]`, `[crash]` or `net::ERR_` and none of the `log` exclusions is reported under both `error` and `log` |
| ToolsHandler.PageErrorExample | src/toolsHandler.ts:341-363 | `[pageerror] boom` is such an entry |
| ToolsHandler.LogsText | src/toolsHandler.ts:387-394 | the text is "No matching console logs found." if and only if nothing was selected; otherwise it starts with `Console Logs (<n>):` and a line break, where n is the number selected |
| ToolsHandler.LogsTextLines | src/toolsHandler.ts:390-392 | after that header, the text splits on line breaks back into exactly the selected entries, in order, when no entry holds a line break |
| ToolsHandler.NavigateAsWrittenHasNoPage | src/toolsHandler.ts:62-86 | as written, the first navigation of a fresh server reaches `page!.goto` with no page |
| ToolsHandler.NavigateGetsPage | src/toolsHandler.ts:62-74 | with the corrected gate, navigation from no browser gets the new page in the requested mode |
| ToolsHandler.PageToolKeepsBrowser | src/toolsHandler.ts:67-74 | a page tool other than navigation keeps an existing browser and hands on its page |
| ToolsHandler.ConsoleLogsCase | src/toolsHandler.ts:333-395 | a single success text item built before clearing; the buffer is emptied exactly when `clear === true`; the browser state is unchanged |
| ToolsHandler.CloseCase | src/toolsHandler.ts:407-440 | without a browser: "No active browser to close" and no change; a successful close forgets the browser ("Browser successfully closed"); a failed close is an error result and keeps it; the module's `page` is never reset |
| ToolsHandler.UnknownToolCase | src/toolsHandler.ts:660-667 | with the corrected browser gate of "## Findings": any other name gives the error `Unknown tool: <name>` and changes nothing (as written, a `BROWSER_TOOLS` name without a case such as `goto` first ensures a browser) |
| ToolsHandler.Handler.constructor | src/toolsHandler.ts:9-12 | no browser, no page, not headless, and an empty buffer |
| ToolsHandler.Handler.EnsureBrowser | src/toolsHandler.ts:22-49 | the new browser state and the result are those given by `Ensure`; the buffer is untouched |
| ToolsHandler.Handler.OnPageConsole | src/toolsHandler.ts:41-44 | appends `[type] text`; the browser state is untouched |
| ToolsHandler.Handler.HandleToolCall | src/toolsHandler.ts:57-80 | the new state, the buffer and the result are those given by `HandleCall`, the dispatcher with the corrected browser gate of "## Findings" |
| UploadManager.ParseUploadResourceUri | src/uploadManager.ts:77-84 | a result implies one of the two schemes, and two non-empty parts that contain no `/` |
| UploadManager.ParseMainScheme | src/uploadManager.ts:79-80 | for a `mcp-uploads://` URI with no alias after the scheme, the parts are the segments after the scheme |
| UploadManager.ParseRoundTrip | src/uploadManager.ts:56-84 | parsing `mcp-uploads://<session>/<id>` gives the session and id back, when neither is empty or contains `/` |
| UploadManager.ParseAliasRoundTrip | src/uploadManager.ts:78-83 | the alias `mcp+upload://<session>/<id>` names the same pair |
| UploadManager.ParseRejects | src/uploadManager.ts:78-81 | another scheme gives null; so does a count of parts other than two after the main scheme |
| UploadManager.WellFormedInsert | src/uploadManager.ts:41-54 | storing a record under its own id and session keeps the store well-formed |
| UploadManager.Insert | src/uploadManager.ts:41-54 | the record is stored under its session and id; every other session keeps its store, and no session is lost |
| UploadManager.RegisterStep | src/uploadManager.ts:40-54 | the next counter id is not stored in the target session, and storing the record there keeps the index well formed with the counter advanced |
| UploadManager.WellFormedDelete | src/uploadManager.ts:89-91 | deleting one record keeps it well-formed |
| UploadManager.WellFormedDrop | src/uploadManager.ts:114-116 | emptying and dropping a session keeps it well-formed |
| UploadManager.UploadStore.constructor | src/uploadManager.ts:15-17 | no uploads and no endpoint URL |
| UploadManager.UploadStore.SetUploadEndpointUrl | src/uploadManager.ts:19-21 | sets the endpoint URL and nothing else |
| UploadManager.UploadStore.Resolve | src/uploadManager.ts:62-75 | null for an unparsable URI and for a URI of another session; for every URI that parses to the caller's session, exactly the record stored under the parsed id (null when there is none) |
| UploadManager.UploadStore.ResolveStaysInSession | src/uploadManager.ts:69-74 | what a session resolves always belongs to that session |
| UploadManager.UploadStore.RegisterUploadedFile | src/uploadManager.ts:27-60 | exactly one new entry, under that session, with a fresh id not stored before; the URI is `mcp-uploads://<session>/<id>`; for a non-empty `/`-free session, resolving that URI finds the record |
| UploadManager.UploadStore.CleanupUpload | src/uploadManager.ts:86-91 | removes only the named entry; nothing at all when the session or the upload is absent |
| UploadManager.DeleteEach | src/uploadManager.ts:105-115 | deleting the session's records one at a time leaves that session with an empty store and changes nothing else |
| UploadManager.UploadStore.ResolveStored | src/uploadManager.ts:56-74 | the URI built for a stored record resolves, for its session, to exactly what is stored under that id |
| UploadManager.UploadStore.ClearUploadsForSession | src/uploadManager.ts:102-117 | the session is gone and every other session is unchanged (nothing changes for an unknown session) |
| UploadManager.ClearIsolated | src/uploadManager.ts:102-116 | clearing one session leaves every other session's presence and records as they were |
| ResourceManager.EffectiveTtlMs | src/resourceManager.ts:58 | at least 1 ms; 180000 ms when no TTL is given; otherwise the floor of the milliseconds, raised to 1 when below |
| ResourceManager.ExtensionMime | src/resourceManager.ts:184 | no type exactly when the lower-cased extension is not in the table; otherwise the table's entry for the lower-cased extension |
| ResourceManager.ExtensionMimeIgnoresCase | src/resourceManager.ts:184 | any two file names that are equal once lower-cased get the same type, for every name |
| ResourceManager.UpperExtensionExample | src/resourceManager.ts:184 | any `<stem>.PNG` with a non-empty, `/`-free stem is an `image/png` |
| ResourceManager.ResolvedMime | src/resourceManager.ts:184 | a supplied type wins; otherwise the table's entry for the lower-cased extension of the record's name, and no type exactly when the table has none |
| ResourceManager.StoragePathShape | src/resourceManager.ts:186-190 | the copy is named `<id><ext>` and lies directly in `<base>/<sessionId>/` |
| ResourceManager.NewRecord | src/resourceManager.ts:182-203 | the record has the id, the builder's URI or `mcp-resource://<id>`, the given or basename-derived name, the description, the resolved MIME type, the size, the storage path and the expiry; its timer is armed |
| ResourceManager.Unexpired | src/resourceManager.ts:74-79 | a record is kept if and only if its expiry is after `now` |
| ResourceManager.Sweep | src/resourceManager.ts:69-100 | every owner keeps its store; what remains is live; every live record remains |
| ResourceManager.SweepIsSubsequence | src/resourceManager.ts:71-79 | a sweep keeps each store's order |
| ResourceManager.SweepIdempotent | src/resourceManager.ts:75 | sweeping again, at the same time or earlier, removes nothing more |
| ResourceManager.SweepLater | src/resourceManager.ts:75 | an earlier sweep followed by a later one equals the later sweep alone |
| ResourceManager.SweepIssued | src/resourceManager.ts:69-100 | a sweep keeps every stored id issued |
| ResourceManager.Links | src/resourceManager.ts:253-259 | the listed links are the records' links, in order: never a storage path |
| ResourceManager.UrlPathname | src/resourceManager.ts:281-282 | a path found starts with `/` |
| ResourceManager.MatchesById | src/resourceManager.ts:274-279 | `mcp-resource://<id>` finds the record with that id, whatever URI it was given |
| ResourceManager.UpperSchemeMissed | src/resourceManager.ts:275-278 | `MCP-RESOURCE://<id>` matches by id only in the corrected test |
| ResourceManager.PayloadFor | src/resourceManager.ts:292-300 | the stored copy is read; it is text if and only if the type is `text/*`, JSON, JavaScript or TypeScript; otherwise a base64 blob |
| ResourceManager.ReadSpec | src/resourceManager.ts:271-301 | with the corrected matcher `MatchesUri` of "## Findings": a hit is the first record of that owner's store, in store order, that the URI matches, with its payload; a miss happens exactly when no record matches or there is no store |
| ResourceManager.ByIdSpec | src/resourceManager.ts:306-308 | a hit is the first record of that owner's store with that id; a miss happens exactly when there is none |
| ResourceManager.LookupsNeverExpired | src/resourceManager.ts:249-309 | after the sweep, nothing read, listed or fetched by id has expired |
| ResourceManager.DisarmFirst | src/resourceManager.ts:206-209 | the first record with that URI has its timer cleared; nothing else changes in any record |
| ResourceManager.WithRecord | src/resourceManager.ts:205-228 | the owner's earlier records stay in order, with only the first namesake's timer cleared, and the new record follows them; all other owners are untouched |
| ResourceManager.WithRecordFacts | src/resourceManager.ts:228 | a record under a never-issued id is what that id then fetches |
| ResourceManager.RegisterFacts | src/resourceManager.ts:181-228 | registration under the next id keeps every id issued and makes the record fetchable by its id |
| ResourceManager.ClearIsolated | src/resourceManager.ts:111-128 | dropping an owner's store removes it, leaves every other owner's store as it was, and a second drop changes nothing |
| ResourceManager.RegisterKeepsIssued | src/resourceManager.ts:181-228 | registration keeps every stored id issued by the counter |
| ResourceManager.RegisterRefused | src/resourceManager.ts:170-177 | with linking disabled, no server, or no (or an empty) session: no link, no store change, no id used |
| ResourceManager.RegisterAdds | src/resourceManager.ts:186-228 | otherwise exactly one record joins that owner's store under the next id, after the earlier records, which stay with only the first record carrying the returned URI disarmed; it expires `ttlMs` after `now`, lives at `<base>/<sessionId>/<id><ext>`, its link is returned and its id fetches it; other owners are unchanged |
| ResourceManager.RegisterDefaults | src/resourceManager.ts:182-200 | the URI is `mcp-resource://<id>` when there is no builder or it returns nothing; the MIME type, name and size come from the request, the table and the file |
| ResourceManager.ResourceRegistry.constructor | src/resourceManager.ts:22-31 | empty stores, linking off, the default TTL, no builder, no resolver |
| ResourceManager.ResourceRegistry.GetSessionIdForServer | src/resourceManager.ts:64-67 | nothing without a server or without a resolver; otherwise the resolver's answer for that server |
| ResourceManager.ResourceRegistry.SweepStore | src/resourceManager.ts:74-87 | the loop keeps exactly the unexpired records of one store |
| ResourceManager.ResourceRegistry.CleanupExpired | src/resourceManager.ts:69-100 | the stores become `Sweep` of the old stores; the settings and the counter are unchanged |
| ResourceManager.ResourceRegistry.Configure | src/resourceManager.ts:46-62 | installs the flag, `EffectiveTtlMs(ttlSeconds)`, the builder and the resolver, then sweeps |
| ResourceManager.ResourceRegistry.GetResourceStore | src/resourceManager.ts:102-109 | returns the owner's store, created empty only when absent |
| ResourceManager.ResourceRegistry.ClearResourcesForServer | src/resourceManager.ts:111-128 | exactly that owner's store is dropped |
| ResourceManager.ResourceRegistry.RegisterFileResource | src/resourceManager.ts:157-247 | the new stores, the counter and the link are those given by `Register`; the settings are unchanged |
| ResourceManager.ResourceRegistry.OnTimerFired | src/resourceManager.ts:211-226 | a record whose timer is still armed leaves its owner's store; otherwise nothing changes |
| ResourceManager.ResourceRegistry.ListFileResources | src/resourceManager.ts:249-260 | after the sweep: the links of the owner's store in order (none without a store), all live |
| ResourceManager.ResourceRegistry.ReadFileResource | src/resourceManager.ts:262-302 | after the sweep: `ReadSpec`, with the corrected matcher of "## Findings", and the record found is live |
| ResourceManager.ResourceRegistry.GetFileResourceById | src/resourceManager.ts:304-309 | after the sweep: `ByIdSpec`, and the record found is live |
| HttpServer.RoutePost | src/http-server.ts:105-147 | the corrected routing of "## Findings" (the table is looked up by its own keys only): a missing or empty sessionId gets 400/-32000 "sessionId query parameter required", and only such a sessionId does; an unknown one gets 400/-32000 "No transport found"; otherwise the message is forwarded to exactly that session's transport, and a failure gets 500/-32603 if and only if no headers were sent |
| HttpServer.RoutePostAsWritten | src/http-server.ts:119-121 | agrees with `RoutePost` on every id that is not an inherited object key |
| HttpServer.InheritedKeyMisrouted | src/http-server.ts:119-121 | an unknown session named `constructor` gets 500 as written and 400 when corrected |
| HttpServer.Survivors | src/http-server.ts:225-233 | after shutdown, exactly the sessions whose close failed remain, with their transports |
| HttpServer.ShutdownExtremes | src/http-server.ts:225-233 | all closes succeed: the table is empty; all fail: the table is unchanged |
| HttpServer.ConnectThenClose | src/http-server.ts:78-85 | connecting and then closing restores the table; while open, POSTs reach that transport |
| HttpServer.SessionTable.constructor | src/http-server.ts:45 | the table starts empty |
| HttpServer.SessionTable.OnSseConnection | src/http-server.ts:78-80 | the transport is registered under a fresh session id; nothing else changes |
| HttpServer.SessionTable.OnConnectionClosed | src/http-server.ts:82-85 | exactly that session's entry is removed |
| HttpServer.SessionTable.HandlePostMessage | src/http-server.ts:100-149 | with the corrected routing `RoutePost` of "## Findings": a forward goes to the transport stored under that session, and every refusal is 400/-32000 (as written, an inherited key such as `constructor` gets 500) |
| HttpServer.SessionTable.Health | src/http-server.ts:160-166 | status `ok`, version `1.0.7`, and `activeSessions` equal to the number of entries |
| HttpServer.SessionTable.Shutdown | src/http-server.ts:221-233 | the table becomes `Survivors` of the old table |

## Left out

- **File system effects.** Copying, `stat`, reading, unlinking, listing and removing directories, `ensureResourceBaseDir` with its `/data` to tmpdir fallback, and `ensureUploadsDir` are not modelled, because they are I/O. The size of a file and the base directory are parameters. A read reports which file it would encode and how, not the bytes.
- **Timers.** `setTimeout` and `clearTimeout` are not modelled as timers. Each record has an "armed" flag, and `OnTimerFired` models the callback. When the callback runs is not modelled.
- **Notifications.** `sendResourceListChanged` is not modelled, and neither is the logging. Both are external calls whose failures are swallowed.
- **Path semantics.** `path.resolve` does not turn the path into an absolute one. `path.join` does not normalise `.` and `..` segments. Only `basename` and `extname` behave as Node's do for `/`-separated paths.
- **URL parsing.** `new URL(uri)` in `readFileResource` is approximated by `UrlPathname`. It needs a non-empty scheme followed by `://`, takes the path up to `?` or `#`, and does no percent-decoding, no dot-segment resolution and no special handling of other schemes.
- **Lower-casing.** A string is lower-cased by ASCII case mapping only.
- **TTL seconds.** These are a Dafny `real`. Floating-point rounding, `NaN` and infinities are not modelled.
- **Random ids.** Random UUIDs and the transports' random session ids are a counter, so a fresh id is guaranteed, not just overwhelmingly likely.
- **Concurrency.** Interleavings of the asynchronous operations are not modelled. Every operation is atomic and sequential.
- **The saved console-log file.** The part of `ConsoleLogsTool.execute` that writes the selected entries to a file and registers it as a resource (src/tools/browser/console.ts:56-75) is not modelled, because it is I/O. Its outcome is the `savedLocation` parameter. The `resourceLinks` field of the response is not modelled.
- **Page- and API-driven dispatcher cases.** In the dispatcher these are modelled only up to the hand-off (`Delegated` with the page obtained): navigate, screenshot, click, fill, select, hover, evaluate, iframe click, visible text, HTML, and the five API request tools. What they do is calls into a browser library outside the model. The API request context is not modelled.
- **Library-driven tools.** The tool classes that drive the library (accessibility, performance, debugging, mobile, storage, network, dropdown, shadow DOM, output, video, screenshot, response assertions, close) are not modelled. Neither are the tool schema table, the request and tool handlers, the entry point, Express routing, SSE transport internals and signal handling, and the build script. They are wiring around library objects.
- **Connecting the MCP server.** Connecting to a new SSE transport, and its 500 reply on failure, is not modelled. The table entry is made before the connection is attempted, and that is modelled.
- **Corrected definitions in use.** The three defects listed under "## Findings" are modelled twice. The rest of the model, and every class method, uses the corrected definition: the dispatcher's browser gate (`HandleCall`), the resource URI matcher (`MatchesUri`) and the message routing (`RoutePost`). So `ToolsHandler.UnknownToolCase`, `ToolsHandler.Handler.HandleToolCall`, `ResourceManager.ReadSpec`, `ResourceManager.ResourceRegistry.ReadFileResource` and `HttpServer.SessionTable.HandlePostMessage` state the intended behaviour. The behaviour as written is stated only by the as-written members named in that table.
- UploadManager.ParseRejects: the refusal for a wrong number of parts is proved only for `mcp-uploads://` URIs with no `mcp+upload://` after the scheme.
- Codegen.ParamValue: a parameter is a string, a boolean or an integer. The source takes any value, so a template can also print `null`, a fraction such as `1.5`, or `[object Object]`. Those values are not modelled, and neither is the truthiness of an object `fullPage`.
- ToolsHandler.ConsoleLogsCase: the log type is a string here. In the source a non-string `type` makes `toLowerCase` throw, and the catch then answers with the error "Failed to retrieve console logs: …". That failure path is not modelled, so the case always succeeds in the model.
- ToolsHandler.LimitSelect: the limit is an integer. A fractional limit, which `slice(-limit)` truncates, is not modelled.
- ConsoleLogs.SelectLogs: the limit is an integer, as for `ToolsHandler.LimitSelect`. The type and search filters take strings only.
- **The codegen examples.** These lemmas fix the exact line of each single action. The tests check that the lines occur in the file. That follows from `Codegen.TestCodeContainsLine`.

## Findings

| source | as written | input that shows it | evidently intended | confidence | as-written member | corrected member |
|---|---|---|---|---|---|---|
| src/toolsHandler.ts:62 | `BROWSER_TOOLS.includes(name)` decides whether a browser is ensured, but `BROWSER_TOOLS` (src/tools.ts:6-22) lists unprefixed names such as `goto` and `click`, and no `playwright_…` case is among them | `handleToolCall("playwright_navigate", {url})` on a fresh server: no browser is launched and `page!.goto` runs on `undefined` | every case that drives the page ensures a browser first | not executed | ToolsHandler.HandleCallAsWritten (ToolsHandler.NavigateAsWrittenHasNoPage, ToolsHandler.BrowserGateNeverOpens) | ToolsHandler.HandleCall (ToolsHandler.NavigateGetsPage) |
| src/http-server.ts:119 | `transports[sessionId]` looks the id up on a plain object, so inherited members such as `constructor` or `toString` count as transports; calling `handlePostMessage` on one throws, and the 500/-32603 reply is sent | POST `/messages?sessionId=constructor` with no such session | 400/-32000 "No transport found for sessionId" for every id not in the table | not executed | HttpServer.RoutePostAsWritten (HttpServer.InheritedKeyMisrouted) | HttpServer.RoutePost |
| src/resourceManager.ts:277 | the scheme test lower-cases the URI, but the id is taken with a case-sensitive `replace("mcp-resource://", "")`, which leaves an upper-case scheme in place | reading `MCP-RESOURCE://<id>` for a record whose URI differs finds nothing | the id after the scheme, whatever the case of the scheme | not executed | ResourceManager.MatchesUriAsWritten (ResourceManager.UpperSchemeMissed) | ResourceManager.MatchesUri |
