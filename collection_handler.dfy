/** The record-collection endpoint. The certificates and projects endpoints are one
    handler over a collection named by its store and its not-found message; each request
    loads the whole array stored under key "all", edits it, and writes it back whole. */
module CollectionHandler {
  import opened Wrappers
  import opened Json
  import opened Http
  import opened Auth
  import opened Blobs
  import opened Records

  /** What distinguishes one collection endpoint from another. */
  datatype Collection = Collection(storeName: string, notFoundMessage: string) {
    /** Every read and write of the endpoint goes to this one key. */
    function Key(): BlobKey {
      BlobKey(storeName, "all")
    }
  }

  const Certificates: Collection := Collection("certificates", "Certificate not found")
  const Projects: Collection := Collection("projects", "Project not found")

  /** A decoded request: the HTTP method (`verb`), the authorization header, the JSON body (read by POST
      and PUT) and the `id` query parameter (read by DELETE). */
  datatype Request = Request(verb: string, authorization: Option<string>, body: Record, idParam: Option<string>)

  const IdRequired: Response := JsonReply(400, ErrorMessage("ID required"))

  /** The endpoint's promise for one request, verb by verb: the outcome, and the
      collections afterwards in terms of those before. */
  ghost predicate HandlerContract(c: Collection, req: Request, password: Option<string>, now: nat, fault: Fault,
                                  before: Collections, after: Collections, out: Outcome)
  {
    var key := c.Key();
    var list := Loaded(before, key);
    var gated := req.verb != "OPTIONS" && req.verb != "GET";
    var auth := VerifyAdmin(req.authorization, password);
    var granted := gated && auth == Verdict(true);
    // OPTIONS is answered before anything else.
    (req.verb == "OPTIONS" ==> out == Reply(NoContent) && after == before) &&
    // GET needs no authorization, returns the stored array or [], and never writes.
    (req.verb == "GET" ==>
      after == before &&
      out == (if fault == ReadFails then Reply(ServerError) else Reply(JsonReply(200, RecordList(list))))) &&
    // Every other verb passes the administrator check first; its configuration error escapes.
    (gated && auth == NotConfigured ==> out == Uncaught(NotConfiguredMessage) && after == before) &&
    (gated && auth == Verdict(false) ==> out == Reply(Unauthorized) && after == before) &&
    // POST appends the body with a fresh identifier and answers with exactly that record.
    (granted && req.verb == "POST" ==>
      var created := WithId(req.body, now);
      if fault == NoFault then
        after == before[key := list + [created]] && out == Reply(JsonReply(201, OneRecord(created)))
      else
        after == before && out == Reply(ServerError)) &&
    // PUT checks the body's identifier before any store access, then replaces the first match whole.
    (granted && req.verb == "PUT" ==>
      if !HasTruthyId(req.body) then
        after == before && out == Reply(IdRequired)
      else if fault == ReadFails then
        after == before && out == Reply(ServerError)
      else
        var i := FindIndex(list, req.body[IdField]);
        if i == -1 then
          after == before && out == Reply(JsonReply(404, ErrorMessage(c.notFoundMessage)))
        else if fault == WriteFails then
          after == before && out == Reply(ServerError)
        else
          after == before[key := list[i := req.body]] && out == Reply(JsonReply(200, OneRecord(req.body)))) &&
    // DELETE needs a non-empty id parameter, removes every record with it, and succeeds regardless.
    (granted && req.verb == "DELETE" ==>
      if req.idParam.None? || req.idParam.value == "" then
        after == before && out == Reply(IdRequired)
      else if fault == NoFault then
        after == before[key := WithoutId(list, req.idParam.value)] && out == Reply(JsonReply(200, Succeeded))
      else
        after == before && out == Reply(ServerError)) &&
    // Any other verb, once authorized, is not allowed.
    (granted && req.verb !in {"POST", "PUT", "DELETE"} ==> out == Reply(MethodNotAllowed) && after == before)
  }

  /** Keys other than `k` are left as they were. */
  ghost predicate OnlyKeyChanged(k: BlobKey, before: Collections, after: Collections) {
    forall other :: other != k ==>
      (other in after <==> other in before) && (other in after ==> after[other] == before[other])
  }

  /** The generic endpoint. `now` stands for `Date.now()`, `password` for the configured
      secret, `fault` for the backend's failures. */
  method Handle(store: CollectionStore, c: Collection, req: Request, password: Option<string>, now: nat, fault: Fault)
    returns (out: Outcome)
    modifies store
    ensures HandlerContract(c, req, password, now, fault, old(store.collections), store.collections, out)
    ensures OnlyKeyChanged(c.Key(), old(store.collections), store.collections)
  {
    if req.verb == "OPTIONS" {
      return Reply(NoContent);
    }
    var key := c.Key();

    if req.verb == "GET" {
      if fault == ReadFails {
        return Reply(ServerError);
      }
      var data := store.Get(key);
      return Reply(JsonReply(200, RecordList(data.GetOr([]))));
    }

    var auth := VerifyAdmin(req.authorization, password);
    if auth.NotConfigured? {
      return Uncaught(NotConfiguredMessage);
    }
    if !auth.granted {
      return Reply(Unauthorized);
    }

    if req.verb == "POST" {
      if fault == ReadFails {
        return Reply(ServerError);
      }
      var data := store.Get(key);
      var records := data.GetOr([]);
      var created := WithId(req.body, now);
      records := records + [created];
      if fault == WriteFails {
        return Reply(ServerError);
      }
      store.SetJSON(key, records);
      return Reply(JsonReply(201, OneRecord(created)));
    }

    if req.verb == "PUT" {
      if !HasTruthyId(req.body) {
        return Reply(IdRequired);
      }
      if fault == ReadFails {
        return Reply(ServerError);
      }
      var data := store.Get(key);
      var records := data.GetOr([]);
      var index := FindIndex(records, req.body[IdField]);
      if index == -1 {
        return Reply(JsonReply(404, ErrorMessage(c.notFoundMessage)));
      }
      records := records[index := req.body];
      if fault == WriteFails {
        return Reply(ServerError);
      }
      store.SetJSON(key, records);
      return Reply(JsonReply(200, OneRecord(req.body)));
    }

    if req.verb == "DELETE" {
      if req.idParam.None? || req.idParam.value == "" {
        return Reply(IdRequired);
      }
      var id := req.idParam.value;
      if fault == ReadFails {
        return Reply(ServerError);
      }
      var data := store.Get(key);
      var filtered := WithoutId(data.GetOr([]), id);
      if fault == WriteFails {
        return Reply(ServerError);
      }
      store.SetJSON(key, filtered);
      return Reply(JsonReply(200, Succeeded));
    }

    return Reply(MethodNotAllowed);
  }

  /** The certificates endpoint: the handler over store "certificates". */
  method HandleCertificates(store: CollectionStore, req: Request, password: Option<string>, now: nat, fault: Fault)
    returns (out: Outcome)
    modifies store
    ensures HandlerContract(Certificates, req, password, now, fault, old(store.collections), store.collections, out)
    ensures OnlyKeyChanged(BlobKey("certificates", "all"), old(store.collections), store.collections)
  {
    out := Handle(store, Certificates, req, password, now, fault);
  }

  /** The projects endpoint: the handler over store "projects"; it never changes the
      certificates collection. */
  method HandleProjects(store: CollectionStore, req: Request, password: Option<string>, now: nat, fault: Fault)
    returns (out: Outcome)
    modifies store
    ensures HandlerContract(Projects, req, password, now, fault, old(store.collections), store.collections, out)
    ensures OnlyKeyChanged(BlobKey("projects", "all"), old(store.collections), store.collections)
    ensures Loaded(store.collections, Certificates.Key()) == Loaded(old(store.collections), Certificates.Key())
  {
    out := Handle(store, Projects, req, password, now, fault);
  }
}
