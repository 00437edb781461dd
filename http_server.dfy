/**
 * The session table of the HTTP server: stream connections register their transport under a
 * session id, POSTed messages are routed to the transport of the session they name (or refused
 * with a JSON-RPC error envelope), `/health` counts the sessions, and shutdown closes them.
 *
 * A transport is an abstract handle; what it does with a message, and whether closing it
 * succeeds, come in as `Outcome` parameters.
 */
module HttpServer {
  import opened Common
  import opened Ids

  type Transport = nat

  const ServerVersion: string := "1.0.7"

  /** The JSON-RPC error reply `{jsonrpc: "2.0", error: {code, message}, id: null}` with its HTTP status. */
  datatype RpcError = RpcError(status: int, code: int, message: string)

  const MissingSessionError := RpcError(400, -32000, "Bad Request: sessionId query parameter required")
  const UnknownSessionError := RpcError(400, -32000, "Bad Request: No transport found for sessionId")
  const InternalError := RpcError(500, -32603, "Internal server error")

  /**
   * What a POST comes to: refused outright with an error reply, or handed to a transport, which
   * may fail; `failure` is the error reply sent afterwards, if any.
   */
  datatype PostResult = Refused(error: RpcError) | Forwarded(transport: Transport, failure: Option<RpcError>)

  datatype HealthReport = HealthReport(status: string, version: string, activeSessions: nat)

  /**
   * `handlePostMessage` on the table. A missing or empty `sessionId` query parameter, or one
   * with no transport, is refused with code -32000 and no transport is invoked; otherwise the
   * message goes to exactly that session's transport, and a failure there gets the -32603 reply
   * only while no headers have been sent.
   */
  function RoutePost(transports: map<string, Transport>, sessionId: Option<string>,
                     forward: Outcome, headersSent: bool): (r: PostResult)
    ensures (sessionId.None? || sessionId.value == "") <==> r == Refused(MissingSessionError)
    ensures sessionId.Some? && sessionId.value != "" && sessionId.value !in transports <==> r == Refused(UnknownSessionError)
    ensures r.Forwarded? <==> sessionId.Some? && sessionId.value in transports && sessionId.value != ""
    ensures r.Forwarded? ==> r.transport == transports[sessionId.value]
    ensures r.Forwarded? ==> (r.failure.Some? <==> forward.Rejected? && !headersSent)
    ensures r.Forwarded? && r.failure.Some? ==> r.failure.value == InternalError
  {
    if sessionId.None? || sessionId.value == "" then Refused(MissingSessionError)
    else if sessionId.value !in transports then Refused(UnknownSessionError)
    else Forwarded(transports[sessionId.value], if forward.Rejected? && !headersSent then Some(InternalError) else None)
  }

  /**
   * The names every plain JavaScript object inherits from `Object.prototype`: indexing the
   * table with one of them yields a (truthy) function or object, not a transport.
   */
  const InheritedKeys: set<string> := {
    "constructor", "__proto__", "hasOwnProperty", "isPrototypeOf", "propertyIsEnumerable",
    "toLocaleString", "toString", "valueOf", "__defineGetter__", "__defineSetter__",
    "__lookupGetter__", "__lookupSetter__"
  }

  /**
   * The routing as written: `transports[sessionId]` on a plain object finds an inherited member
   * for those names, which passes the `!transport` test; calling `handlePostMessage` on it then
   * throws, and the catch sends the internal error.
   */
  function RoutePostAsWritten(transports: map<string, Transport>, sessionId: Option<string>,
                              forward: Outcome, headersSent: bool): (r: PostResult)
    ensures sessionId.Some? && sessionId.value !in InheritedKeys ==> r == RoutePost(transports, sessionId, forward, headersSent)
    ensures sessionId.None? ==> r == RoutePost(transports, sessionId, forward, headersSent)
  {
    if sessionId.None? || sessionId.value == "" then Refused(MissingSessionError)
    else if sessionId.value in transports then
      Forwarded(transports[sessionId.value], if forward.Rejected? && !headersSent then Some(InternalError) else None)
    else if sessionId.value in InheritedKeys then Refused(InternalError)
    else Refused(UnknownSessionError)
  }

  /** An unknown session named like an inherited member gets the internal error instead of the "no transport" reply. */
  lemma InheritedKeyMisrouted(transports: map<string, Transport>, forward: Outcome, headersSent: bool)
    requires "constructor" !in transports
    ensures RoutePostAsWritten(transports, Some("constructor"), forward, headersSent) == Refused(InternalError)
    ensures RoutePost(transports, Some("constructor"), forward, headersSent) == Refused(UnknownSessionError)
  {
    assert "constructor" in InheritedKeys;
  }

  /** The table after shutdown: exactly the sessions whose transport failed to close. */
  function Survivors(transports: map<string, Transport>, closeOutcome: string -> Outcome): (r: map<string, Transport>)
    ensures forall k :: k in r <==> k in transports && closeOutcome(k).Rejected?
    ensures forall k :: k in r ==> r[k] == transports[k]
  {
    map k | k in transports && closeOutcome(k).Rejected? :: transports[k]
  }

  /** The table while shutdown is under way: sessions still `pending` are all there. */
  function SurvivorsExcept(transports: map<string, Transport>, pending: set<string>, closeOutcome: string -> Outcome): map<string, Transport> {
    map k | k in transports && (k in pending || closeOutcome(k).Rejected?) :: transports[k]
  }

  lemma SurvivorsExceptStep(transports: map<string, Transport>, pending: set<string>, closeOutcome: string -> Outcome, k: string)
    requires k in pending
    ensures closeOutcome(k).Resolved? ==>
              SurvivorsExcept(transports, pending, closeOutcome) - {k} == SurvivorsExcept(transports, pending - {k}, closeOutcome)
    ensures closeOutcome(k).Rejected? ==>
              SurvivorsExcept(transports, pending, closeOutcome) == SurvivorsExcept(transports, pending - {k}, closeOutcome)
  {
  }

  lemma SurvivorsExceptEnds(transports: map<string, Transport>, closeOutcome: string -> Outcome)
    ensures SurvivorsExcept(transports, transports.Keys, closeOutcome) == transports
    ensures SurvivorsExcept(transports, {}, closeOutcome) == Survivors(transports, closeOutcome)
  {
  }

  /** When every close succeeds the table ends empty, and when every close fails it is left as it was. */
  lemma ShutdownExtremes(transports: map<string, Transport>, closeOutcome: string -> Outcome)
    ensures (forall k :: closeOutcome(k).Resolved?) ==> Survivors(transports, closeOutcome) == map[]
    ensures (forall k :: closeOutcome(k).Rejected?) ==> Survivors(transports, closeOutcome) == transports
  {
    if forall k :: closeOutcome(k).Resolved? {
      assert Survivors(transports, closeOutcome).Keys == {};
    }
  }

  /** A connection that registers and then closes leaves the table as it found it; while open, its POSTs reach its transport. */
  lemma ConnectThenClose(transports: map<string, Transport>, sessionId: string, t: Transport, forward: Outcome, headersSent: bool)
    requires sessionId !in transports && sessionId != ""
    ensures transports[sessionId := t] - {sessionId} == transports
    ensures RoutePost(transports[sessionId := t], Some(sessionId), forward, headersSent).Forwarded?
    ensures RoutePost(transports[sessionId := t], Some(sessionId), forward, headersSent).transport == t
  {
  }

  /** The `transports` table, with the counter that stands in for the transports' random session ids. */
  class SessionTable {
    var transports: map<string, Transport>
    var nextSession: nat

    /** Every registered session id has been issued. */
    predicate Valid()
      reads this
    {
      transports.Keys <= IssuedIds(nextSession)
    }

    constructor ()
      ensures Valid() && transports == map[]
    {
      transports := map[];
      nextSession := 0;
    }

    /**
     * `handleSseConnection`: the new transport is registered under its fresh session id
     * (whether or not connecting the MCP server to it then succeeds); nothing else changes.
     */
    method OnSseConnection(transport: Transport) returns (sessionId: string)
      requires Valid()
      modifies this
      ensures Valid()
      ensures sessionId == IdOf(old(nextSession)) && sessionId !in old(transports)
      ensures transports == old(transports)[sessionId := transport]
    {
      sessionId := IdOf(nextSession);
      FreshId(nextSession);
      transports := transports[sessionId := transport];
      nextSession := nextSession + 1;
    }

    /** The connection's `close` handler: removes that session's entry, and only it. */
    method OnConnectionClosed(sessionId: string)
      requires Valid()
      modifies this
      ensures Valid() && nextSession == old(nextSession)
      ensures transports == old(transports) - {sessionId}
    {
      transports := transports - {sessionId};
    }

    /** `handlePostMessage`: routing never changes the table. */
    function HandlePostMessage(sessionId: Option<string>, forward: Outcome, headersSent: bool): (r: PostResult)
      reads this
      ensures r.Forwarded? ==> sessionId.Some? && sessionId.value in transports && r.transport == transports[sessionId.value]
      ensures r.Refused? ==> r.error.status == 400 && r.error.code == -32000
    {
      RoutePost(transports, sessionId, forward, headersSent)
    }

    /** `/health`: the number of sessions in the table. */
    function Health(): (r: HealthReport)
      reads this
      ensures r.status == "ok" && r.version == ServerVersion && r.activeSessions == |transports.Keys|
    {
      HealthReport("ok", ServerVersion, |transports.Keys|)
    }

    /** `shutdown`: closes each session's transport in turn, deleting the entry only when the close succeeds. */
    method Shutdown(closeOutcome: string -> Outcome)
      requires Valid()
      modifies this
      ensures Valid() && nextSession == old(nextSession)
      ensures transports == Survivors(old(transports), closeOutcome)
    {
      SurvivorsExceptEnds(transports, closeOutcome);
      var pending := transports.Keys;
      while pending != {}
        invariant transports == SurvivorsExcept(old(transports), pending, closeOutcome)
        invariant nextSession == old(nextSession)
        decreases |pending|
      {
        var sessionId :| sessionId in pending;
        SurvivorsExceptStep(old(transports), pending, closeOutcome, sessionId);
        if closeOutcome(sessionId).Resolved? {
          transports := transports - {sessionId};
        }
        pending := pending - {sessionId};
      }
      SurvivorsExceptEnds(old(transports), closeOutcome);
    }
  }
}
