/**
 * The upload store: uploaded files indexed per session, the opaque `mcp-uploads://` URI that
 * names one of them, and its parser (which also accepts the `mcp+upload://` alias).
 */
module UploadManager {
  import opened Common
  import opened Seqs
  import opened Strings
  import opened Ids

  datatype UploadMeta = UploadMeta(id: string, sessionId: string, filePath: string, name: string,
                                   mimeType: Option<string>, size: Option<int>)

  /** What `registerUploadedFile` returns: the record with its URI. */
  datatype Registered = Registered(uri: string, meta: UploadMeta)

  datatype UploadRef = UploadRef(sessionId: string, id: string)

  const UploadScheme: string := "mcp-uploads://"
  const UploadAliasScheme: string := "mcp+upload://"

  function UploadUri(sessionId: string, id: string): string {
    UploadScheme + sessionId + "/" + id
  }

  /**
   * `parseUploadResourceUri`: the URI must start with one of the two schemes; both scheme
   * strings are then removed (each at its first occurrence), and exactly two non-empty
   * `/`-separated parts must remain.
   */
  function ParseUploadResourceUri(uri: string): (r: Option<UploadRef>)
    ensures r.Some? ==> StartsWith(uri, UploadScheme) || StartsWith(uri, UploadAliasScheme)
    ensures r.Some? ==> r.value.sessionId != "" && r.value.id != "" && '/' !in r.value.sessionId && '/' !in r.value.id
  {
    if !StartsWith(uri, UploadScheme) && !StartsWith(uri, UploadAliasScheme) then None
    else
      var withoutScheme := ReplaceFirst(ReplaceFirst(uri, UploadScheme, ""), UploadAliasScheme, "");
      var parts := Segments(withoutScheme, '/');
      if |parts| != 2 then None
      else
        assert parts[0] in Split(withoutScheme, '/') && parts[1] in Split(withoutScheme, '/');
        Some(UploadRef(parts[0], parts[1]))
  }

  /** In `a + "/" + b`, when neither part holds a `/`, the only `/` is the one between them. */
  lemma OnlySlashBetween(a: string, b: string)
    requires '/' !in a && '/' !in b
    ensures forall j :: 0 <= j < |a + "/" + b| && (a + "/" + b)[j] == '/' ==> j == |a|
  {
    var s := a + "/" + b;
    forall j | 0 <= j < |s| && j != |a|
      ensures s[j] != '/'
    {
      if j < |a| {
        assert s[j] == a[j];
      } else {
        assert s[j] == b[j - |a| - 1];
      }
    }
  }

  /** A string whose only `/` sits at one position does not contain the alias scheme, which holds `//`. */
  lemma NoAliasWithOneSlash(s: string, pos: int)
    requires forall j :: 0 <= j < |s| && s[j] == '/' ==> j == pos
    ensures !Contains(s, UploadAliasScheme)
  {
    ContainedCharAt(s, UploadAliasScheme, 11);
    ContainedCharAt(s, UploadAliasScheme, 12);
    assert UploadAliasScheme[11] == '/' && UploadAliasScheme[12] == '/';
  }

  /** The parser on a URI that starts with the main scheme and whose remainder holds no alias scheme. */
  lemma ParseMainScheme(uri: string)
    requires StartsWith(uri, UploadScheme) && !Contains(uri[|UploadScheme|..], UploadAliasScheme)
    ensures ParseUploadResourceUri(uri) ==
              var parts := Segments(uri[|UploadScheme|..], '/');
              if |parts| != 2 then None else Some(UploadRef(parts[0], parts[1]))
  {
    assert ReplaceFirst(uri, UploadScheme, "") == uri[|UploadScheme|..];
  }

  /** Parsing the URI of a registered upload gives back its session and id, when neither is empty nor holds a `/`. */
  lemma ParseRoundTrip(sessionId: string, id: string)
    requires sessionId != "" && id != "" && '/' !in sessionId && '/' !in id
    ensures ParseUploadResourceUri(UploadUri(sessionId, id)) == Some(UploadRef(sessionId, id))
  {
    var uri := UploadUri(sessionId, id);
    var rest := sessionId + "/" + id;
    assert uri == UploadScheme + rest;
    assert uri[|UploadScheme|..] == rest;
    OnlySlashBetween(sessionId, id);
    NoAliasWithOneSlash(rest, |sessionId|);
    ParseMainScheme(uri);
    TwoSegments(sessionId, '/', id);
  }

  /** The alias scheme names the same upload, when neither part is empty or holds a `/`. */
  lemma ParseAliasRoundTrip(sessionId: string, id: string)
    requires sessionId != "" && id != "" && '/' !in sessionId && '/' !in id
    ensures ParseUploadResourceUri(UploadAliasScheme + sessionId + "/" + id) == Some(UploadRef(sessionId, id))
  {
    var rest := sessionId + "/" + id;
    var uri := UploadAliasScheme + rest;
    assert UploadAliasScheme + sessionId + "/" + id == uri;
    // The main scheme needs two adjacent slashes past the alias scheme, but there the only slash is the separator.
    OnlySlashBetween(sessionId, id);
    assert forall j :: |UploadAliasScheme| <= j < |uri| ==> uri[j] == rest[j - |UploadAliasScheme|];
    ContainedCharAt(uri, UploadScheme, 12);
    ContainedCharAt(uri, UploadScheme, 13);
    assert UploadScheme[12] == '/' && UploadScheme[13] == '/' && |UploadAliasScheme| == 13;
    assert !Contains(uri, UploadScheme);
    assert ReplaceFirst(uri, UploadScheme, "") == uri;
    assert uri[|UploadAliasScheme|..] == rest;
    assert ReplaceFirst(uri, UploadAliasScheme, "") == rest;
    TwoSegments(sessionId, '/', id);
  }

  /** The parser's refusals: another scheme, or not exactly two parts after the main scheme. */
  lemma ParseRejects(uri: string)
    ensures !StartsWith(uri, UploadScheme) && !StartsWith(uri, UploadAliasScheme) ==>
              ParseUploadResourceUri(uri).None?
    ensures StartsWith(uri, UploadScheme) && !Contains(uri[|UploadScheme|..], UploadAliasScheme) &&
            |Segments(uri[|UploadScheme|..], '/')| != 2 ==>
              ParseUploadResourceUri(uri).None?
  {
    if StartsWith(uri, UploadScheme) && !Contains(uri[|UploadScheme|..], UploadAliasScheme) {
      ParseMainScheme(uri);
    }
  }

  /** Every record of one session's store sits under its own id and that session, and its id is one of `issued`. */
  predicate StoreWellFormed(store: map<string, UploadMeta>, sessionId: string, issued: set<string>) {
    forall k :: k in store ==> store[k].id == k && store[k].sessionId == sessionId && k in issued
  }

  predicate WellFormed(uploads: map<string, map<string, UploadMeta>>, issued: set<string>) {
    forall s :: s in uploads ==> StoreWellFormed(uploads[s], s, issued)
  }

  /** Storing a record under its own session and id keeps the index well formed. */
  lemma WellFormedInsert(uploads: map<string, map<string, UploadMeta>>, issued: set<string>, meta: UploadMeta)
    requires WellFormed(uploads, issued) && meta.id in issued
    ensures WellFormed(uploads[meta.sessionId := (if meta.sessionId in uploads then uploads[meta.sessionId] else map[])[meta.id := meta]], issued)
  {
    var store := if meta.sessionId in uploads then uploads[meta.sessionId] else map[];
    assert StoreWellFormed(store, meta.sessionId, issued);
    assert StoreWellFormed(store[meta.id := meta], meta.sessionId, issued);
  }

  /** Deleting one record keeps the index well formed. */
  lemma WellFormedDelete(uploads: map<string, map<string, UploadMeta>>, issued: set<string>, sessionId: string, id: string)
    requires WellFormed(uploads, issued) && sessionId in uploads
    ensures WellFormed(uploads[sessionId := uploads[sessionId] - {id}], issued)
  {
    assert StoreWellFormed(uploads[sessionId], sessionId, issued);
    assert StoreWellFormed(uploads[sessionId] - {id}, sessionId, issued);
  }

  /** Dropping a whole session keeps the index well formed, and forgets whatever was last stored under it. */
  lemma WellFormedDrop(uploads: map<string, map<string, UploadMeta>>, issued: set<string>, sessionId: string,
                       store: map<string, UploadMeta>)
    requires WellFormed(uploads, issued)
    ensures WellFormed(uploads - {sessionId}, issued)
    ensures uploads[sessionId := store] - {sessionId} == uploads - {sessionId}
  {
  }

  /** The index with `meta` stored under its own session and id. */
  function Insert(uploads: map<string, map<string, UploadMeta>>, meta: UploadMeta): (r: map<string, map<string, UploadMeta>>)
    ensures meta.sessionId in r && meta.id in r[meta.sessionId] && r[meta.sessionId][meta.id] == meta
    ensures forall s :: s in r <==> s in uploads || s == meta.sessionId
    ensures forall s :: s in uploads && s != meta.sessionId ==> r[s] == uploads[s]
  {
    uploads[meta.sessionId := (if meta.sessionId in uploads then uploads[meta.sessionId] else map[])[meta.id := meta]]
  }

  /**
   * Storing a record under the next counter id: the id was not used in any session, and the
   * index stays well formed with the counter one further.
   */
  lemma RegisterStep(uploads: map<string, map<string, UploadMeta>>, n: nat, meta: UploadMeta)
    requires WellFormed(uploads, IssuedIds(n)) && meta.id == IdOf(n)
    ensures !(meta.sessionId in uploads && meta.id in uploads[meta.sessionId])
    ensures WellFormed(Insert(uploads, meta), IssuedIds(n + 1))
  {
    FreshId(n);
    if meta.sessionId in uploads {
      assert StoreWellFormed(uploads[meta.sessionId], meta.sessionId, IssuedIds(n));
    }
    WellFormedGrow(uploads, IssuedIds(n), IssuedIds(n + 1));
    WellFormedInsert(uploads, IssuedIds(n + 1), meta);
  }

  /** The loop of `clearUploadsForSession`: each record of the session is deleted in turn, leaving its store empty. */
  method DeleteEach(uploads: map<string, map<string, UploadMeta>>, sessionId: string) returns (r: map<string, map<string, UploadMeta>>)
    requires sessionId in uploads
    ensures r == uploads[sessionId := map[]]
  {
    var store := uploads[sessionId];
    var remaining := store.Keys;
    r := uploads;
    while remaining != {}
      invariant remaining == store.Keys
      invariant r == uploads[sessionId := store]
      decreases |remaining|
    {
      var uploadId :| uploadId in remaining;
      store := store - {uploadId};
      r := r[sessionId := store];
      remaining := remaining - {uploadId};
    }
    assert store == map[];
  }

  /** Growing the issued set keeps the index well formed. */
  lemma WellFormedGrow(uploads: map<string, map<string, UploadMeta>>, issued: set<string>, more: set<string>)
    requires WellFormed(uploads, issued) && issued <= more
    ensures WellFormed(uploads, more)
  {
    forall s | s in uploads
      ensures StoreWellFormed(uploads[s], s, more)
    {
      assert StoreWellFormed(uploads[s], s, issued);
    }
  }

  /** The per-session upload index, the configured endpoint, and the id counter. */
  class UploadStore {
    var uploads: map<string, map<string, UploadMeta>>
    var uploadEndpointUrl: Option<string>
    var nextId: nat

    predicate Valid()
      reads this
    {
      WellFormed(uploads, IssuedIds(nextId))
    }
    constructor ()
      ensures Valid() && uploads == map[] && uploadEndpointUrl == None
    {
      uploads := map[];
      uploadEndpointUrl := None;
      nextId := 0;
    }

    method SetUploadEndpointUrl(url: Option<string>)
      modifies this
      ensures uploadEndpointUrl == url && uploads == old(uploads) && nextId == old(nextId)
    {
      uploadEndpointUrl := url;
    }

    function GetUploadEndpointUrl(): Option<string>
      reads this
    {
      uploadEndpointUrl
    }

    /** The record stored under `sessionId` and `id`, if any. */
    function Lookup(sessionId: string, id: string): Option<UploadMeta>
      reads this
    {
      if sessionId in uploads && id in uploads[sessionId] then Some(uploads[sessionId][id]) else None
    }

    /**
     * `resolveUploadResource`: the record named by the URI, but only for the session the URI
     * names; any other caller gets nothing.
     */
    function Resolve(resourceUri: string, sessionId: string): (r: Option<UploadMeta>)
      reads this
      ensures ParseUploadResourceUri(resourceUri).None? ==> r.None?
      ensures ParseUploadResourceUri(resourceUri).Some? && ParseUploadResourceUri(resourceUri).value.sessionId != sessionId ==> r.None?
      ensures ParseUploadResourceUri(resourceUri).Some? && ParseUploadResourceUri(resourceUri).value.sessionId == sessionId ==>
                r == Lookup(sessionId, ParseUploadResourceUri(resourceUri).value.id)
    {
      match ParseUploadResourceUri(resourceUri)
      case None => None
      case Some(parsed) =>
        if parsed.sessionId != sessionId then None
        else Lookup(sessionId, parsed.id)
    }

    /** What a session resolves always belongs to that session. */
    lemma ResolveStaysInSession(resourceUri: string, sessionId: string)
      requires Valid()
      ensures Resolve(resourceUri, sessionId).Some? ==> Resolve(resourceUri, sessionId).value.sessionId == sessionId
    {
      if Resolve(resourceUri, sessionId).Some? {
        var id := ParseUploadResourceUri(resourceUri).value.id;
        assert sessionId in uploads && id in uploads[sessionId];
        assert StoreWellFormed(uploads[sessionId], sessionId, IssuedIds(nextId));
        assert Resolve(resourceUri, sessionId).value == uploads[sessionId][id];
      }
    }

    /** A stored record resolves from its URI for its session, when neither part of the URI is empty or holds a `/`. */
    lemma ResolveStored(sessionId: string, id: string)
      requires sessionId != "" && id != "" && '/' !in sessionId && '/' !in id
      ensures Resolve(UploadUri(sessionId, id), sessionId) == Lookup(sessionId, id)
    {
      ParseRoundTrip(sessionId, id);
    }

    /**
     * `registerUploadedFile`: adds exactly one record, under `sessionId`, with a fresh id; the
     * returned URI resolves to it for that session.
     */
    method RegisterUploadedFile(sessionId: string, filePath: string, name: string,
                                mimeType: Option<string>, size: Option<int>) returns (r: Registered)
      requires Valid()
      modifies this
      ensures Valid() && uploadEndpointUrl == old(uploadEndpointUrl)
      ensures r.meta == UploadMeta(IdOf(old(nextId)), sessionId, filePath, name, mimeType, size)
      ensures r.uri == UploadUri(sessionId, r.meta.id)
      ensures old(Lookup(sessionId, r.meta.id)).None?
      ensures uploads == old(uploads)[sessionId := (if sessionId in old(uploads) then old(uploads)[sessionId] else map[])[r.meta.id := r.meta]]
      ensures sessionId != "" && '/' !in sessionId ==> Resolve(r.uri, sessionId) == Some(r.meta)
    {
      var id := IdOf(nextId);
      var meta := UploadMeta(id, sessionId, filePath, name, mimeType, size);
      RegisterStep(uploads, nextId, meta);
      uploads := Insert(uploads, meta);
      nextId := nextId + 1;
      r := Registered(UploadUri(sessionId, id), meta);
      if sessionId != "" && '/' !in sessionId {
        IdShape(nextId - 1);
        ResolveStored(sessionId, id);
      }
    }

    /** `cleanupUpload`: removes the one named record, and nothing when the session or the record is absent. */
    method CleanupUpload(sessionId: string, uploadId: string)
      requires Valid()
      modifies this
      ensures Valid() && nextId == old(nextId) && uploadEndpointUrl == old(uploadEndpointUrl)
      ensures uploads == if sessionId in old(uploads) && uploadId in old(uploads)[sessionId]
                         then old(uploads)[sessionId := old(uploads)[sessionId] - {uploadId}]
                         else old(uploads)
    {
      if sessionId !in uploads || uploadId !in uploads[sessionId] {
        return;
      }
      WellFormedDelete(uploads, IssuedIds(nextId), sessionId, uploadId);
      uploads := uploads[sessionId := uploads[sessionId] - {uploadId}];
    }

    /** `clearUploadsForSession`: deletes the session's records one by one, then the session; other sessions are untouched. */
    method ClearUploadsForSession(sessionId: string)
      requires Valid()
      modifies this
      ensures Valid() && nextId == old(nextId) && uploadEndpointUrl == old(uploadEndpointUrl)
      ensures uploads == old(uploads) - {sessionId}
    {
      if sessionId !in uploads {
        return;
      }
      var emptied := DeleteEach(uploads, sessionId);
      WellFormedDrop(uploads, IssuedIds(nextId), sessionId, map[]);
      uploads := emptied - {sessionId};
    }
  }

  /** Clearing one session leaves every other session's lookups exactly as they were. */
  lemma ClearIsolated(before: map<string, map<string, UploadMeta>>, sessionId: string, other: string)
    requires other != sessionId
    ensures other in before <==> other in before - {sessionId}
    ensures other in before ==> (before - {sessionId})[other] == before[other]
  {
  }
}
