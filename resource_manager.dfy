/**
 * The file-resource registry: per-server stores of file-backed resources that expire after a
 * time-to-live, the process-wide configuration that governs registration, and the lookups
 * (list, read, by id) that sweep expired records first.
 *
 * A server is an abstract handle (`ServerRef`); each server's store is a sequence in insertion
 * order, which is the iteration order of the JavaScript `Map` it stands for. Clocks, ids, the
 * base directory and file sizes come in as parameters; file contents are not modelled, so a read
 * reports which file it would encode and how.
 */
module ResourceManager {
  import opened Common
  import opened Seqs
  import opened Strings
  import opened Ids
  import opened Paths

  type ServerRef = nat

  const DefaultTtlMs: int := 3 * 60 * 1000

  const ExtMimeMap: map<string, string> := map[
    ".png" := "image/png",
    ".jpg" := "image/jpeg",
    ".jpeg" := "image/jpeg",
    ".gif" := "image/gif",
    ".webp" := "image/webp",
    ".pdf" := "application/pdf",
    ".txt" := "text/plain",
    ".json" := "application/json",
    ".js" := "application/javascript",
    ".ts" := "application/typescript"
  ]

  const ResourceScheme: string := "mcp-resource://"

  /** What registration hands back to a tool, and what listing shows: never the storage path. */
  datatype ResourceLink = ResourceLink(uri: string, name: string, description: Option<string>,
                                       mimeType: Option<string>, size: Option<int>)

  /** A stored record: its link, its id, where its copy lives, when it expires, and whether its timer is still armed. */
  datatype FileResource = FileResource(id: string, link: ResourceLink, filePath: string, expiresAt: int, timerArmed: bool)

  /** The arguments of `registerFileResource`. */
  datatype RegisterRequest = RegisterRequest(filePath: string, name: Option<string>, description: Option<string>,
                                             mimeType: Option<string>, server: Option<ServerRef>)

  /** How a read encodes the stored file: as UTF-8 text or as a base64 blob of the file at that path. */
  datatype Payload = Utf8Text(path: string) | Base64Blob(path: string)

  datatype ReadResult = ReadResult(resource: FileResource, payload: Payload)

  type Stores = map<ServerRef, seq<FileResource>>

  /**
   * The effective TTL in milliseconds for an optional TTL in seconds: the floor of the
   * milliseconds, never below 1, and 180 seconds when none is given.
   */
  function EffectiveTtlMs(ttlSeconds: Option<real>): (ms: int)
    ensures ms >= 1
    ensures ttlSeconds.None? ==> ms == DefaultTtlMs
    ensures ttlSeconds.Some? && ttlSeconds.value * 1000.0 >= 1.0 ==>
              ms as real <= ttlSeconds.value * 1000.0 < ms as real + 1.0
    ensures ttlSeconds.Some? && ttlSeconds.value * 1000.0 < 1.0 ==> ms == 1
  {
    var seconds := ttlSeconds.GetOr(DefaultTtlMs as real / 1000.0);
    Max(1, (seconds * 1000.0).Floor)
  }

  /** The table's MIME type for the lower-cased extension of a file name, if it lists one. */
  function ExtensionMime(filename: string): (m: Option<string>)
    ensures m.Some? ==> m.value in ExtMimeMap.Values
    ensures m.None? <==> ToLower(Extname(filename)) !in ExtMimeMap
    ensures m.Some? ==> m.value == ExtMimeMap[ToLower(Extname(filename))]
  {
    var ext := ToLower(Extname(filename));
    if ext in ExtMimeMap then Some(ExtMimeMap[ext]) else None
  }

  /** Extensions are looked up without regard to case: two names that agree up to case get the same type. */
  lemma ExtensionMimeIgnoresCase(f: string, g: string)
    requires ToLower(f) == ToLower(g)
    ensures ExtensionMime(f) == ExtensionMime(g)
  {
    ExtnameLower(f);
    ExtnameLower(g);
    ToLowerIdempotent(Extname(f));
    ToLowerIdempotent(Extname(g));
  }

  /** An upper-case extension gets the type of its lower-case form: any `<stem>.PNG` is an `image/png`. */
  lemma UpperExtensionExample(stem: string)
    requires stem != "" && '/' !in stem
    ensures ExtensionMime(stem + ".PNG") == Some("image/png")
  {
    ExtnameOfSuffix(stem, ".PNG");
    LowerPng();
    PngEntry();
  }

  lemma LowerPng()
    ensures ToLower(".PNG") == ".png"
  {
    assert ToLower(".PNG")[1] == 'p' && ToLower(".PNG")[2] == 'n' && ToLower(".PNG")[3] == 'g';
  }

  lemma PngEntry()
    ensures ".png" in ExtMimeMap && ExtMimeMap[".png"] == "image/png"
  {
  }

  /** The URI a record gets when no builder supplies one. */
  function DefaultUri(id: string): string {
    ResourceScheme + id
  }

  /** The record's name: the given name, else the base name of the (resolved) file path. */
  function FileName(req: RegisterRequest): string {
    req.name.GetOr(Basename(req.filePath))
  }

  /** The record's MIME type: the given one, else the table's entry for the extension of its name. */
  function ResolvedMime(req: RegisterRequest): (m: Option<string>)
    ensures req.mimeType.Some? ==> m == req.mimeType
    ensures req.mimeType.None? && m.Some? ==> m.value in ExtMimeMap.Values
    ensures req.mimeType.None? ==> (m.None? <==> ToLower(Extname(FileName(req))) !in ExtMimeMap)
    ensures req.mimeType.None? && m.Some? ==> m.value == ExtMimeMap[ToLower(Extname(FileName(req)))]
  {
    if req.mimeType.Some? then req.mimeType else ExtensionMime(FileName(req))
  }

  /** Where the copy of a registered file is kept: the session's directory under the base, named by id and extension. */
  function StoragePath(baseDir: string, sessionId: string, id: string, filename: string): string {
    JoinPath(JoinPath(baseDir, sessionId), id + Extname(filename))
  }

  /** The storage file is named by the id followed by the name's extension, and lives directly in the session's directory. */
  lemma StoragePathShape(baseDir: string, sessionId: string, id: string, filename: string)
    requires id != "" && '/' !in id
    ensures Basename(StoragePath(baseDir, sessionId, id, filename)) == id + Extname(filename)
    ensures StartsWith(StoragePath(baseDir, sessionId, id, filename), JoinPath(baseDir, sessionId) + "/")
  {
    var file := id + Extname(filename);
    assert '/' !in file by {
      assert forall i :: 0 <= i < |file| ==> file[i] != '/' by {
        forall i | 0 <= i < |file|
          ensures file[i] != '/'
        {
          if i >= |id| {
            assert file[i] == Extname(filename)[i - |id|];
          }
        }
      }
    }
    BasenameOfJoin(JoinPath(baseDir, sessionId), file);
    assert StoragePath(baseDir, sessionId, id, filename)[..|JoinPath(baseDir, sessionId) + "/"|] == JoinPath(baseDir, sessionId) + "/";
  }

  /**
   * The record `registerFileResource` stores: `builtUri` is what the URI builder returned (nothing
   * when there is no builder), `size` the file's size and `expiresAt` the registration time plus the TTL.
   */
  function NewRecord(req: RegisterRequest, id: string, builtUri: Option<string>, sessionId: string,
                     size: nat, baseDir: string, expiresAt: int): (r: FileResource)
    ensures r.id == id && r.expiresAt == expiresAt && r.timerArmed
    ensures r.link.uri == builtUri.GetOr(DefaultUri(id))
    ensures r.link.name == FileName(req) && r.link.description == req.description
    ensures r.link.mimeType == ResolvedMime(req) && r.link.size == Some(size)
    ensures r.filePath == StoragePath(baseDir, sessionId, id, FileName(req))
  {
    var filename := FileName(req);
    FileResource(id, ResourceLink(builtUri.GetOr(DefaultUri(id)), filename, req.description, ResolvedMime(req), Some(size)),
                 StoragePath(baseDir, sessionId, id, filename), expiresAt, true)
  }

  predicate Live(r: FileResource, now: int) {
    r.expiresAt > now
  }

  /** The records of one store that have not expired at `now`, in their order. */
  function Unexpired(store: seq<FileResource>, now: int): (r: seq<FileResource>)
    ensures forall i :: 0 <= i < |r| ==> r[i] in store && Live(r[i], now)
    ensures forall i :: 0 <= i < |store| ==> (store[i] in r <==> Live(store[i], now))
  {
    Filter(store, (x: FileResource) => Live(x, now))
  }

  /** `cleanupExpired`: every server keeps its store, minus the records whose expiry is at or before `now`. */
  function Sweep(m: Stores, now: int): (r: Stores)
    ensures r.Keys == m.Keys
    ensures forall s :: s in m ==> forall i :: 0 <= i < |r[s]| ==> r[s][i] in m[s] && Live(r[s][i], now)
    ensures forall s :: s in m ==> forall i :: 0 <= i < |m[s]| && Live(m[s][i], now) ==> m[s][i] in r[s]
  {
    map s | s in m :: Unexpired(m[s], now)
  }

  /** The stores while a sweep is under way: the servers still `pending` are not swept yet. */
  function SweepExcept(m: Stores, pending: set<ServerRef>, now: int): Stores {
    map s | s in m :: if s in pending then m[s] else Unexpired(m[s], now)
  }

  /** Sweeping one more pending server. */
  lemma SweepExceptStep(m: Stores, pending: set<ServerRef>, server: ServerRef, now: int)
    requires server in pending && server in m
    ensures SweepExcept(m, pending, now)[server := Unexpired(m[server], now)] == SweepExcept(m, pending - {server}, now)
  {
  }

  lemma SweepExceptDone(m: Stores, now: int)
    ensures SweepExcept(m, {}, now) == Sweep(m, now)
    ensures SweepExcept(m, m.Keys, now) == m
  {
  }

  /** Sweeping keeps each store in order. */
  lemma SweepIsSubsequence(m: Stores, now: int, s: ServerRef)
    requires s in m
    ensures IsSubsequence(Sweep(m, now)[s], m[s])
  {
    FilterIsSubsequence(m[s], (x: FileResource) => Live(x, now));
  }

  /** A second sweep at the same time or earlier removes nothing more. */
  lemma SweepIdempotent(m: Stores, now: int, earlier: int)
    requires earlier <= now
    ensures Sweep(Sweep(m, now), earlier) == Sweep(m, now)
  {
    forall s | s in m
      ensures Sweep(Sweep(m, now), earlier)[s] == Sweep(m, now)[s]
    {
      FilterAbsorbWeaker(m[s], now, earlier);
    }
  }

  /** Records live at `now` are live at any earlier time, so the earlier filter keeps all of them. */
  lemma FilterAbsorbWeaker(store: seq<FileResource>, now: int, earlier: int)
    requires earlier <= now
    ensures Filter(Filter(store, (x: FileResource) => Live(x, now)), (x: FileResource) => Live(x, earlier)) ==
            Filter(store, (x: FileResource) => Live(x, now))
  {
    FilterKeepsAll(Filter(store, (x: FileResource) => Live(x, now)), (x: FileResource) => Live(x, earlier));
  }

  /** Filtering a sequence whose every element passes changes nothing. */
  lemma {:induction false} FilterKeepsAll<T>(xs: seq<T>, p: T -> bool)
    requires forall i :: 0 <= i < |xs| ==> p(xs[i])
    ensures Filter(xs, p) == xs
    decreases |xs|
  {
    if |xs| > 0 {
      FilterKeepsAll(xs[1..], p);
    }
  }

  /** Two sweeps, the later one last, are one sweep at the later time. */
  lemma SweepLater(m: Stores, earlier: int, now: int)
    requires earlier <= now
    ensures Sweep(Sweep(m, earlier), now) == Sweep(m, now)
  {
    forall s | s in m
      ensures Sweep(Sweep(m, earlier), now)[s] == Sweep(m, now)[s]
    {
      FilterAbsorb(m[s], (x: FileResource) => Live(x, earlier), (x: FileResource) => Live(x, now));
    }
  }

  /** The links of a store, in order. */
  function Links(store: seq<FileResource>): (r: seq<ResourceLink>)
    ensures |r| == |store| && forall i :: 0 <= i < |store| ==> r[i] == store[i].link
  {
    seq(|store|, (i: int) requires 0 <= i < |store| => store[i].link)
  }

  /** The second-to-last non-empty segment of a URL path, if it has two. */
  function IdSegment(pathname: string): Option<string> {
    var parts := Segments(pathname, '/');
    if |parts| >= 2 then Some(parts[|parts| - 2]) else None
  }

  /** The text of `s` before its first `?` or `#`. */
  function BeforeQuery(s: string): (r: string)
    ensures StartsWith(s, r) && '?' !in r && '#' !in r
    decreases |s|
  {
    if |s| == 0 || s[0] == '?' || s[0] == '#' then ""
    else [s[0]] + BeforeQuery(s[1..])
  }

  /**
   * The path of an absolute URL `scheme://authority/path?query#fragment`, or nothing for a
   * string without a non-empty scheme followed by `://`; an empty path reads as `/`.
   */
  function UrlPathname(uri: string): (r: Option<string>)
    ensures r.Some? ==> StartsWith(r.value, "/")
  {
    match IndexOf(uri, "://")
    case None => None
    case Some(i) =>
      if i == 0 then None
      else
        var rest := BeforeQuery(uri[i + 3..]);
        Some(if '/' in rest then rest[CharIndex(rest, '/')..] else "/")
  }

  /**
   * Whether `.find` in `readFileResource` stops at this record, as written: an exact URI match;
   * else, for a URI whose lower-cased form starts with `mcp-resource://`, the id left after
   * removing the lower-case scheme from the original URI; else the id segment of the URL path.
   */
  predicate MatchesUriAsWritten(r: FileResource, uri: string) {
    if r.link.uri == uri then true
    else if StartsWith(ToLower(uri), ResourceScheme) then r.id == ReplaceFirst(uri, ResourceScheme, "")
    else match UrlPathname(uri)
      case None => false
      case Some(p) => IdSegment(p) == Some(r.id)
  }

  /** The same test, with the id taken from after the scheme whatever its case. */
  predicate MatchesUri(r: FileResource, uri: string) {
    if r.link.uri == uri then true
    else if StartsWith(ToLower(uri), ResourceScheme) then r.id == uri[|ResourceScheme|..]
    else match UrlPathname(uri)
      case None => false
      case Some(p) => IdSegment(p) == Some(r.id)
  }

  lemma LowerScheme(id: string)
    ensures StartsWith(ToLower(ResourceScheme + id), ResourceScheme)
  {
    ToLowerConcat(ResourceScheme, id);
    assert ToLower(ResourceScheme) == ResourceScheme;
  }

  /** `mcp-resource://<id>` finds the record with that id, whatever URI it was given. */
  lemma MatchesById(r: FileResource)
    ensures MatchesUri(r, ResourceScheme + r.id)
    ensures MatchesUriAsWritten(r, ResourceScheme + r.id)
  {
    LowerScheme(r.id);
    assert (ResourceScheme + r.id)[|ResourceScheme|..] == r.id;
  }

  /** A URI whose scheme is written in capitals matches by id only in the corrected test. */
  lemma UpperSchemeMissed(r: FileResource, uri: string)
    requires uri == "MCP-RESOURCE://" + r.id && '/' !in r.id && r.link.uri != uri
    ensures !MatchesUriAsWritten(r, uri)
    ensures MatchesUri(r, uri)
  {
    var upper := "MCP-RESOURCE://";
    ToLowerConcat(upper, r.id);
    assert ToLower(upper) == ResourceScheme;
    assert StartsWith(ToLower(uri), ResourceScheme) by {
      assert ToLower(uri)[..|ResourceScheme|] == ResourceScheme;
    }
    NoUpperSchemeInside(r.id);
    assert uri[|ResourceScheme|..] == r.id;
    assert |r.id| < |uri|;
  }

  /** `MCP-RESOURCE://<id>` with a `/`-free id does not contain the lower-case scheme. */
  lemma NoUpperSchemeInside(id: string)
    requires '/' !in id
    ensures !Contains("MCP-RESOURCE://" + id, ResourceScheme)
  {
    var uri := "MCP-RESOURCE://" + id;
    forall j | 15 <= j < |uri|
      ensures uri[j] != '/'
    {
      assert uri[j] == id[j - 15];
    }
    ContainedCharAt(uri, ResourceScheme, 0);
    ContainedCharAt(uri, ResourceScheme, 13);
    ContainedCharAt(uri, ResourceScheme, 14);
    assert ResourceScheme[0] == 'm' && ResourceScheme[13] == '/' && ResourceScheme[14] == '/';
    assert uri[0] == 'M' && uri[12] == ':';
  }

  /** Text for any `text/` type and the three script and JSON types; a base64 blob for anything else, or no type at all. */
  predicate IsTextMime(m: Option<string>) {
    m.Some? &&
    (StartsWith(m.value, "text/") || m.value == "application/json" ||
     m.value == "application/javascript" || m.value == "application/typescript")
  }

  function PayloadFor(r: FileResource): (p: Payload)
    ensures p.path == r.filePath
    ensures p.Utf8Text? <==> IsTextMime(r.link.mimeType)
  {
    if IsTextMime(r.link.mimeType) then Utf8Text(r.filePath) else Base64Blob(r.filePath)
  }

  /** `readFileResource` on swept stores: the first record of the server's store the URI matches. */
  function ReadSpec(m: Stores, server: ServerRef, uri: string): (r: Option<ReadResult>)
    ensures r.Some? ==> server in m && r.value.resource in m[server] && MatchesUri(r.value.resource, uri)
    ensures r.Some? ==> r.value.payload == PayloadFor(r.value.resource)
    ensures r.Some? ==> exists i :: 0 <= i < |m[server]| && m[server][i] == r.value.resource &&
                                    forall j :: 0 <= j < i ==> !MatchesUri(m[server][j], uri)
    ensures r.None? <==> server !in m || forall i :: 0 <= i < |m[server]| ==> !MatchesUri(m[server][i], uri)
  {
    if server !in m then None
    else match FindFirst(m[server], (x: FileResource) => MatchesUri(x, uri))
      case None => None
      case Some(res) => Some(ReadResult(res, PayloadFor(res)))
  }

  /** `getFileResourceById` on swept stores. */
  function ByIdSpec(m: Stores, server: ServerRef, id: string): (r: Option<FileResource>)
    ensures r.Some? ==> server in m && r.value in m[server] && r.value.id == id
    ensures r.Some? ==> exists i :: 0 <= i < |m[server]| && m[server][i] == r.value &&
                                    forall j :: 0 <= j < i ==> m[server][j].id != id
    ensures r.None? <==> server !in m || forall i :: 0 <= i < |m[server]| ==> m[server][i].id != id
  {
    if server !in m then None else FindFirst(m[server], (x: FileResource) => x.id == id)
  }

  /** Nothing read, listed or fetched by id right after a sweep has expired. */
  lemma LookupsNeverExpired(m: Stores, server: ServerRef, uri: string, id: string, now: int)
    ensures ReadSpec(Sweep(m, now), server, uri).Some? ==> Live(ReadSpec(Sweep(m, now), server, uri).value.resource, now)
    ensures ByIdSpec(Sweep(m, now), server, id).Some? ==> Live(ByIdSpec(Sweep(m, now), server, id).value, now)
    ensures server in m ==> forall i :: 0 <= i < |Sweep(m, now)[server]| ==> Live(Sweep(m, now)[server][i], now)
  {
    var sw := Sweep(m, now);
    if ReadSpec(sw, server, uri).Some? {
      var res := ReadSpec(sw, server, uri).value.resource;
      var i :| 0 <= i < |sw[server]| && sw[server][i] == res;
    }
    if ByIdSpec(sw, server, id).Some? {
      var res := ByIdSpec(sw, server, id).value;
      var i :| 0 <= i < |sw[server]| && sw[server][i] == res;
    }
  }

  /** No record before position `i` has the given URI. */
  predicate FirstWithUri(store: seq<FileResource>, uri: string, i: nat)
    requires i <= |store|
  {
    forall j :: 0 <= j < i ==> store[j].link.uri != uri
  }

  /** The first record with the given URI has its timer cleared; nothing else changes. */
  function DisarmFirst(store: seq<FileResource>, uri: string): (r: seq<FileResource>)
    ensures |r| == |store|
    ensures forall i :: 0 <= i < |store| ==> r[i] == store[i].(timerArmed := r[i].timerArmed)
    ensures forall i :: 0 <= i < |store| && r[i].timerArmed != store[i].timerArmed ==>
              store[i].link.uri == uri && !r[i].timerArmed && forall j :: 0 <= j < i ==> store[j].link.uri != uri
    ensures forall i :: 0 <= i < |store| && store[i].link.uri == uri && FirstWithUri(store, uri, i) ==> !r[i].timerArmed
    decreases |store|
  {
    if |store| == 0 then []
    else if store[0].link.uri == uri then [store[0].(timerArmed := false)] + store[1..]
    else [store[0]] + DisarmFirst(store[1..], uri)
  }

  /** Every record of a store carries an issued id. */
  predicate StoreIssued(store: seq<FileResource>, issued: set<string>) {
    forall i :: 0 <= i < |store| ==> store[i].id in issued
  }

  /** Every record of every store carries an issued id. */
  predicate AllIssued(m: Stores, issued: set<string>) {
    forall s :: s in m ==> StoreIssued(m[s], issued)
  }

  /** Removing records from a store keeps its ids issued. */
  lemma IssuedFilter(store: seq<FileResource>, issued: set<string>, p: FileResource -> bool)
    requires StoreIssued(store, issued)
    ensures StoreIssued(Filter(store, p), issued)
  {
    var f := Filter(store, p);
    forall i | 0 <= i < |f|
      ensures f[i].id in issued
    {
      var j :| 0 <= j < |store| && store[j] == f[i];
    }
  }

  /** Each store after a sweep (or any filtering) still carries only issued ids. */
  lemma SweepIssued(m: Stores, issued: set<string>, now: int)
    requires AllIssued(m, issued)
    ensures AllIssued(Sweep(m, now), issued)
  {
    forall s | s in m
      ensures StoreIssued(Sweep(m, now)[s], issued)
    {
      IssuedFilter(m[s], issued, (x: FileResource) => Live(x, now));
    }
  }

  /** A record appended to a store whose ids are all issued, under an id not issued, is the one found by that id. */
  lemma FreshRecordFound(store: seq<FileResource>, issued: set<string>, rec: FileResource)
    requires StoreIssued(store, issued) && rec.id !in issued
    ensures FindFirst(store + [rec], (x: FileResource) => x.id == rec.id) == Some(rec)
  {
    var s := store + [rec];
    assert s[|store|] == rec;
    assert forall i :: 0 <= i < |store| ==> s[i].id != rec.id by {
      forall i | 0 <= i < |store|
        ensures s[i].id != rec.id
      {
        assert s[i] == store[i];
      }
    }
  }

  /** The server's store, empty when it has none. */
  function StoreOf(m: Stores, server: ServerRef): seq<FileResource> {
    if server in m then m[server] else []
  }

  /** The stores after `rec` is registered under `server`: the first namesake disarmed, `rec` appended. */
  function WithRecord(m: Stores, server: ServerRef, rec: FileResource): (r: Stores)
    ensures r.Keys == m.Keys + {server}
    ensures forall o :: o in m && o != server ==> r[o] == m[o]
    ensures |r[server]| == |StoreOf(m, server)| + 1 && r[server][|r[server]| - 1] == rec
    ensures r[server][..|StoreOf(m, server)|] == DisarmFirst(StoreOf(m, server), rec.link.uri)
  {
    m[server := DisarmFirst(StoreOf(m, server), rec.link.uri) + [rec]]
  }

  /** A record registered under an id never issued before is what that id then fetches, and the ids stay issued. */
  lemma WithRecordFacts(m: Stores, issued: set<string>, server: ServerRef, rec: FileResource)
    requires AllIssued(m, issued)
    requires rec.id !in issued
    ensures ByIdSpec(WithRecord(m, server, rec), server, rec.id) == Some(rec)
    ensures AllIssued(WithRecord(m, server, rec), issued + {rec.id})
  {
    var store := StoreOf(m, server);
    var disarmed := DisarmFirst(store, rec.link.uri);
    DisarmedIssued(store, rec.link.uri, issued);
    FreshRecordFound(disarmed, issued, rec);
    var r := WithRecord(m, server, rec);
    forall s | s in r
      ensures StoreIssued(r[s], issued + {rec.id})
    {
      if s == server {
        AppendIssued(disarmed, rec, issued + {rec.id});
      } else {
        assert StoreIssued(m[s], issued);
      }
    }
  }

  /** Registration under the next id keeps every id issued and makes the new record the one its id fetches. */
  lemma RegisterFacts(m: Stores, next: nat, server: ServerRef, rec: FileResource)
    requires AllIssued(m, IssuedIds(next)) && rec.id == IdOf(next)
    ensures ByIdSpec(WithRecord(m, server, rec), server, rec.id) == Some(rec)
    ensures AllIssued(WithRecord(m, server, rec), IssuedIds(next + 1))
  {
    FreshId(next);
    WithRecordFacts(m, IssuedIds(next), server, rec);
  }

  /** Dropping one server's store leaves every other server's store as it was, and dropping it again changes nothing. */
  lemma ClearIsolated(m: Stores, server: ServerRef)
    ensures server !in m - {server}
    ensures forall o :: o != server ==> (o in m <==> o in m - {server})
    ensures forall o :: o in m && o != server ==> (m - {server})[o] == m[o]
    ensures (m - {server}) - {server} == m - {server}
  {
  }

  /** The process-wide settings `configureResourceManager` installs. */
  datatype Settings = Settings(linkingEnabled: bool, ttlMs: int,
                               resourceUriBuilder: Option<(ServerRef, string, string) -> Option<string>>,
                               resolveSessionId: Option<ServerRef -> Option<string>>)

  /** `getSessionIdForServer`: nothing without a server or a resolver, else what the resolver says. */
  function SessionFor(settings: Settings, server: Option<ServerRef>): Option<string> {
    if server.None? || settings.resolveSessionId.None? then None else settings.resolveSessionId.value(server.value)
  }

  /**
   * `registerFileResource` on the stores and the id counter. Without linking, a server or a
   * session (an empty one included) nothing changes and there is no link. Otherwise the record,
   * under the next id and expiring `ttlMs` after `now`, is appended to the server's store after
   * the timer of its first namesake (same URI) is cleared, and its link is returned. `fileSize`
   * and `baseDir` stand for the file's size and the writable base directory.
   */
  function Register(settings: Settings, m: Stores, next: nat, req: RegisterRequest,
                    fileSize: nat, baseDir: string, now: int): (Stores, nat, Option<ResourceLink>)
  {
    if !settings.linkingEnabled || req.server.None? then (m, next, None)
    else
      var sessionId := SessionFor(settings, req.server);
      if sessionId.GetOr("") == "" then (m, next, None)
      else
        var rec := RegisteredRecord(settings, next, req, sessionId.value, fileSize, baseDir, now);
        (WithRecord(m, req.server.value, rec), next + 1, Some(rec.link))
  }

  /** The record registration builds (the URI builder sees the base name of the record's name). */
  function RegisteredRecord(settings: Settings, next: nat, req: RegisterRequest, sessionId: string,
                            fileSize: nat, baseDir: string, now: int): FileResource
    requires req.server.Some?
  {
    var id := IdOf(next);
    var builtUri := if settings.resourceUriBuilder.Some?
                    then settings.resourceUriBuilder.value(req.server.value, id, Basename(FileName(req)))
                    else None;
    NewRecord(req, id, builtUri, sessionId, fileSize, baseDir, now + settings.ttlMs)
  }

  /** Registration keeps every stored id issued. */
  lemma RegisterKeepsIssued(settings: Settings, m: Stores, next: nat, req: RegisterRequest,
                            fileSize: nat, baseDir: string, now: int)
    requires AllIssued(m, IssuedIds(next))
    ensures AllIssued(Register(settings, m, next, req, fileSize, baseDir, now).0,
                      IssuedIds(Register(settings, m, next, req, fileSize, baseDir, now).1))
  {
    var r := Register(settings, m, next, req, fileSize, baseDir, now);
    if r.2.Some? {
      var rec := RegisteredRecord(settings, next, req, SessionFor(settings, req.server).value, fileSize, baseDir, now);
      RegisterFacts(m, next, req.server.value, rec);
    }
  }

  /** Disabled linking, a missing server or a missing or empty session: no link, and nothing changes. */
  lemma RegisterRefused(settings: Settings, m: Stores, next: nat, req: RegisterRequest,
                        fileSize: nat, baseDir: string, now: int)
    requires !settings.linkingEnabled || req.server.None? || SessionFor(settings, req.server).GetOr("") == ""
    ensures Register(settings, m, next, req, fileSize, baseDir, now) == (m, next, None)
  {
  }

  /**
   * Otherwise exactly one record, under the next id, joins the server's store: it expires
   * `ttlMs` after `now`, its id then fetches it, its link is what is returned, and every other
   * server's store is as it was.
   */
  lemma RegisterAdds(settings: Settings, m: Stores, next: nat, req: RegisterRequest,
                     fileSize: nat, baseDir: string, now: int)
    requires AllIssued(m, IssuedIds(next))
    requires settings.linkingEnabled && req.server.Some? && SessionFor(settings, req.server).GetOr("") != ""
    ensures var r := Register(settings, m, next, req, fileSize, baseDir, now);
            var server := req.server.value;
            r.1 == next + 1 && r.2.Some? &&
            r.0.Keys == m.Keys + {server} &&
            (forall o :: o in m && o != server ==> r.0[o] == m[o]) &&
            |r.0[server]| == |StoreOf(m, server)| + 1 &&
            r.0[server][..|StoreOf(m, server)|] == DisarmFirst(StoreOf(m, server), r.2.value.uri) &&
            ByIdSpec(r.0, server, IdOf(next)) == Some(r.0[server][|r.0[server]| - 1]) &&
            r.0[server][|r.0[server]| - 1].link == r.2.value &&
            r.0[server][|r.0[server]| - 1].expiresAt == now + settings.ttlMs &&
            r.0[server][|r.0[server]| - 1].filePath ==
              StoragePath(baseDir, SessionFor(settings, req.server).value, IdOf(next), FileName(req))
  {
    var rec := RegisteredRecord(settings, next, req, SessionFor(settings, req.server).value, fileSize, baseDir, now);
    RegisterFacts(m, next, req.server.value, rec);
  }

  /** With no URI builder, or one that returns nothing, the link's URI is `mcp-resource://<id>`; its MIME type comes from the request or the table. */
  lemma RegisterDefaults(settings: Settings, m: Stores, next: nat, req: RegisterRequest,
                         fileSize: nat, baseDir: string, now: int)
    requires Register(settings, m, next, req, fileSize, baseDir, now).2.Some?
    ensures var link := Register(settings, m, next, req, fileSize, baseDir, now).2.value;
            (settings.resourceUriBuilder.None? ==> link.uri == DefaultUri(IdOf(next))) &&
            (settings.resourceUriBuilder.Some? &&
             settings.resourceUriBuilder.value(req.server.value, IdOf(next), Basename(FileName(req))).None? ==>
               link.uri == DefaultUri(IdOf(next))) &&
            link.mimeType == ResolvedMime(req) && link.name == FileName(req) && link.size == Some(fileSize)
  {
  }

  /** The process-wide registry. */
  class ResourceRegistry {
    var fileResources: Stores
    var linkingEnabled: bool
    var ttlMs: int
    var resourceUriBuilder: Option<(ServerRef, string, string) -> Option<string>>
    var resolveSessionId: Option<ServerRef -> Option<string>>
    var nextId: nat

    /** The TTL is positive and every stored id has been issued. */
    predicate Valid()
      reads this
    {
      ttlMs >= 1 && AllIssued(fileResources, IssuedIds(nextId))
    }

    constructor ()
      ensures Valid() && fileResources == map[] && !linkingEnabled && ttlMs == DefaultTtlMs
      ensures resourceUriBuilder.None? && resolveSessionId.None?
    {
      fileResources := map[];
      linkingEnabled := false;
      ttlMs := DefaultTtlMs;
      resourceUriBuilder := None;
      resolveSessionId := None;
      nextId := 0;
    }

    function CurrentSettings(): Settings
      reads this
    {
      Settings(linkingEnabled, ttlMs, resourceUriBuilder, resolveSessionId)
    }

    /** `getSessionIdForServer`: nothing without a server or without a resolver. */
    function GetSessionIdForServer(server: Option<ServerRef>): (r: Option<string>)
      reads this
      ensures server.None? || resolveSessionId.None? ==> r.None?
      ensures server.Some? && resolveSessionId.Some? ==> r == resolveSessionId.value(server.value)
    {
      SessionFor(CurrentSettings(), server)
    }

    /** Keeps the unexpired records of one store, one record at a time. */
    method SweepStore(store: seq<FileResource>, now: int) returns (kept: seq<FileResource>)
      ensures kept == Unexpired(store, now)
    {
      kept := [];
      var i := 0;
      while i < |store|
        invariant 0 <= i <= |store|
        invariant kept == Unexpired(store[..i], now)
      {
        FilterSnoc(store[..i], store[i], (x: FileResource) => Live(x, now));
        assert store[..i + 1] == store[..i] + [store[i]];
        if store[i].expiresAt > now {
          kept := kept + [store[i]];
        }
        i := i + 1;
      }
      assert store[..i] == store;
    }

    /** `cleanupExpired`: sweeps every server's store in turn. */
    method CleanupExpired(now: int)
      requires Valid()
      modifies this
      ensures Valid()
      ensures fileResources == Sweep(old(fileResources), now)
      ensures linkingEnabled == old(linkingEnabled) && ttlMs == old(ttlMs) && nextId == old(nextId)
      ensures resourceUriBuilder == old(resourceUriBuilder) && resolveSessionId == old(resolveSessionId)
    {
      var stores := fileResources;
      SweepIssued(stores, IssuedIds(nextId), now);
      SweepExceptDone(stores, now);
      var pending := stores.Keys;
      var swept := stores;
      while pending != {}
        invariant pending <= stores.Keys
        invariant swept == SweepExcept(stores, pending, now)
        invariant unchanged(this)
        decreases |pending|
      {
        var server :| server in pending;
        var kept := SweepStore(stores[server], now);
        SweepExceptStep(stores, pending, server, now);
        swept := swept[server := kept];
        pending := pending - {server};
      }
      SweepExceptDone(stores, now);
      assert swept == Sweep(stores, now);
      fileResources := swept;
    }

    /** `configureResourceManager`: installs the settings, then sweeps at `now`. */
    method Configure(enabled: bool, ttlSeconds: Option<real>,
                     buildResourceUri: Option<(ServerRef, string, string) -> Option<string>>,
                     getSessionId: Option<ServerRef -> Option<string>>, now: int)
      requires Valid()
      modifies this
      ensures Valid()
      ensures linkingEnabled == enabled && ttlMs == EffectiveTtlMs(ttlSeconds)
      ensures resourceUriBuilder == buildResourceUri && resolveSessionId == getSessionId
      ensures fileResources == Sweep(old(fileResources), now) && nextId == old(nextId)
    {
      linkingEnabled := enabled;
      ttlMs := EffectiveTtlMs(ttlSeconds);
      resourceUriBuilder := buildResourceUri;
      resolveSessionId := getSessionId;
      CleanupExpired(now);
    }

    /** `getResourceStore`: the server's store, created empty when it has none. */
    method GetResourceStore(server: ServerRef) returns (store: seq<FileResource>)
      requires Valid()
      modifies this
      ensures Valid()
      ensures fileResources == if server in old(fileResources) then old(fileResources) else old(fileResources)[server := []]
      ensures store == fileResources[server]
      ensures linkingEnabled == old(linkingEnabled) && ttlMs == old(ttlMs) && nextId == old(nextId)
      ensures resourceUriBuilder == old(resourceUriBuilder) && resolveSessionId == old(resolveSessionId)
    {
      if server !in fileResources {
        fileResources := fileResources[server := []];
      }
      store := fileResources[server];
    }

    /** `clearResourcesForServer`: drops that server's store, if it has one (its timers go with it). */
    method ClearResourcesForServer(server: ServerRef)
      requires Valid()
      modifies this
      ensures Valid()
      ensures fileResources == old(fileResources) - {server}
      ensures linkingEnabled == old(linkingEnabled) && ttlMs == old(ttlMs) && nextId == old(nextId)
      ensures resourceUriBuilder == old(resourceUriBuilder) && resolveSessionId == old(resolveSessionId)
    {
      if server !in fileResources {
        return;
      }
      fileResources := fileResources - {server};
    }

    /** `registerFileResource`, as `Register` specifies it. */
    method RegisterFileResource(req: RegisterRequest, fileSize: nat, baseDir: string, now: int)
      returns (link: Option<ResourceLink>)
      requires Valid()
      modifies this
      ensures Valid()
      ensures (fileResources, nextId, link) ==
                Register(old(CurrentSettings()), old(fileResources), old(nextId), req, fileSize, baseDir, now)
      ensures CurrentSettings() == old(CurrentSettings())
    {
      var res := Register(CurrentSettings(), fileResources, nextId, req, fileSize, baseDir, now);
      RegisterKeepsIssued(CurrentSettings(), fileResources, nextId, req, fileSize, baseDir, now);
      fileResources, nextId, link := res.0, res.1, res.2;
    }

    /** The timer of record `id` fires: if it is still armed, the record leaves the server's store. */
    method OnTimerFired(server: ServerRef, id: string)
      requires Valid()
      modifies this
      ensures Valid()
      ensures fileResources ==
                if server in old(fileResources) && exists i :: 0 <= i < |old(fileResources)[server]| && old(fileResources)[server][i].id == id && old(fileResources)[server][i].timerArmed
                then old(fileResources)[server := Filter(old(fileResources)[server], (x: FileResource) => x.id != id)]
                else old(fileResources)
      ensures linkingEnabled == old(linkingEnabled) && ttlMs == old(ttlMs) && nextId == old(nextId)
      ensures resourceUriBuilder == old(resourceUriBuilder) && resolveSessionId == old(resolveSessionId)
    {
      if server !in fileResources {
        return;
      }
      var store := fileResources[server];
      if exists i :: 0 <= i < |store| && store[i].id == id && store[i].timerArmed {
        IssuedFilter(store, IssuedIds(nextId), (x: FileResource) => x.id != id);
        fileResources := fileResources[server := Filter(store, (x: FileResource) => x.id != id)];
      }
    }

    /** `listFileResources`: sweeps, then the links of the server's store in order (none without a store). */
    method ListFileResources(server: ServerRef, now: int) returns (links: seq<ResourceLink>)
      requires Valid()
      modifies this
      ensures Valid()
      ensures fileResources == Sweep(old(fileResources), now)
      ensures links == if server in fileResources then Links(fileResources[server]) else []
      ensures forall i :: 0 <= i < |links| ==> exists j :: 0 <= j < |fileResources[server]| && links[i] == fileResources[server][j].link && Live(fileResources[server][j], now)
      ensures linkingEnabled == old(linkingEnabled) && ttlMs == old(ttlMs) && nextId == old(nextId)
      ensures resourceUriBuilder == old(resourceUriBuilder) && resolveSessionId == old(resolveSessionId)
    {
      CleanupExpired(now);
      if server !in fileResources {
        return [];
      }
      links := Links(fileResources[server]);
      LookupsNeverExpired(old(fileResources), server, "", "", now);
    }

    /** `readFileResource`: sweeps, then the first record the URI matches, with how its file is encoded. */
    method ReadFileResource(uri: string, server: ServerRef, now: int) returns (r: Option<ReadResult>)
      requires Valid()
      modifies this
      ensures Valid()
      ensures fileResources == Sweep(old(fileResources), now)
      ensures r == ReadSpec(fileResources, server, uri)
      ensures r.Some? ==> Live(r.value.resource, now)
      ensures linkingEnabled == old(linkingEnabled) && ttlMs == old(ttlMs) && nextId == old(nextId)
      ensures resourceUriBuilder == old(resourceUriBuilder) && resolveSessionId == old(resolveSessionId)
    {
      CleanupExpired(now);
      LookupsNeverExpired(old(fileResources), server, uri, "", now);
      r := ReadSpec(fileResources, server, uri);
    }

    /** `getFileResourceById`: sweeps, then the record stored under that id. */
    method GetFileResourceById(server: ServerRef, id: string, now: int) returns (r: Option<FileResource>)
      requires Valid()
      modifies this
      ensures Valid()
      ensures fileResources == Sweep(old(fileResources), now)
      ensures r == ByIdSpec(fileResources, server, id)
      ensures r.Some? ==> Live(r.value, now)
      ensures linkingEnabled == old(linkingEnabled) && ttlMs == old(ttlMs) && nextId == old(nextId)
      ensures resourceUriBuilder == old(resourceUriBuilder) && resolveSessionId == old(resolveSessionId)
    {
      CleanupExpired(now);
      LookupsNeverExpired(old(fileResources), server, "", id, now);
      r := ByIdSpec(fileResources, server, id);
    }
  }

  lemma DisarmedIssued(store: seq<FileResource>, uri: string, issued: set<string>)
    requires StoreIssued(store, issued)
    ensures StoreIssued(DisarmFirst(store, uri), issued)
  {
    var d := DisarmFirst(store, uri);
    forall i | 0 <= i < |d|
      ensures d[i].id in issued
    {
      assert d[i].id == store[i].id;
    }
  }

  lemma AppendIssued(store: seq<FileResource>, rec: FileResource, issued: set<string>)
    requires StoreIssued(store, issued) && rec.id in issued
    ensures StoreIssued(store + [rec], issued)
  {
    var s := store + [rec];
    forall i | 0 <= i < |s|
      ensures s[i].id in issued
    {
      if i < |store| {
        assert s[i] == store[i];
      }
    }
  }

  lemma GrowIssued(m: Stores, issued: set<string>, more: set<string>)
    requires AllIssued(m, issued)
    requires issued <= more
    ensures AllIssued(m, more)
  {
  }
}
