/**
 * The five feedback handlers of server/routes.ts. Each handler is split the
 * way the source runs it: a decision before the store is called (the `:id`
 * guard, the body validation, the request metadata), the store call itself,
 * and the mapping of how that call settled to a status and a body. The pure
 * halves are functions; the handler methods compose them with a
 * `MemStorage`, which never throws, so the 500 answers are reached only
 * through the reply functions.
 */
module Routes {
  import opened Wrappers
  import opened Schema
  import opened JsNumber
  import opened JsMap
  import opened JsArray
  import opened Storage

  /** The JSON a handler sends: a message, the validation failure with its issues, one row, or the list. */
  datatype Body =
    | Message(message: string)
    | Invalid(message: string, errors: seq<Issue>)
    | Row(row: Feedback)
    | Rows(rows: seq<Feedback>)

  datatype Response = Response(status: int, body: Body)

  /** How a store call settled: with a value, or by throwing. */
  datatype Outcome<+T> = Resolved(value: T) | Threw

  /** Before the store: the handler has already answered, or it calls the store with this request. */
  datatype Step<+C> = Reply(response: Response) | Call(request: C)

  /** What the handler reads from the request besides the path and the body; `None` is `undefined`. */
  datatype RequestMeta = RequestMeta(ip: Option<string>, remoteAddress: Option<string>, userAgentHeader: Option<string>)

  /** The arguments of `storage.createFeedback` as the POST handler passes them. */
  datatype CreateCall = CreateCall(payload: InsertFeedback, ipAddress: string, userAgent: string)

  /** The arguments of `storage.updateFeedback` as the PUT handler passes them. */
  datatype UpdateCall = UpdateCall(id: int, patch: FeedbackPatch)

  const InvalidId: Response := Response(400, Message("Invalid feedback ID"))
  const NotFound: Response := Response(404, Message("Feedback not found"))
  const DeletedOk: Response := Response(200, Message("Feedback deleted successfully"))
  const RetrieveFailed: Response := Response(500, Message("Failed to retrieve feedback"))
  const CreateFailed: Response := Response(500, Message("Failed to create feedback"))
  const UpdateFailed: Response := Response(500, Message("Failed to update feedback"))
  const DeleteFailed: Response := Response(500, Message("Failed to delete feedback"))

  /** The 400 answer to a body the schema rejected, with the schema's issues. */
  function InvalidData(errors: seq<Issue>): Response {
    Response(400, Invalid("Invalid feedback data", errors))
  }

  /** `req.ip || req.connection.remoteAddress || "unknown"` */
  function ClientAddress(m: RequestMeta): (a: string)
    ensures a != ""
    ensures Truthy(m.ip) ==> a == m.ip.value
    ensures !Truthy(m.ip) && Truthy(m.remoteAddress) ==> a == m.remoteAddress.value
    ensures !Truthy(m.ip) && !Truthy(m.remoteAddress) ==> a == "unknown"
  {
    if Truthy(m.ip) then m.ip.value
    else if Truthy(m.remoteAddress) then m.remoteAddress.value
    else "unknown"
  }

  /** `req.get("User-Agent") || "unknown"` */
  function ClientUserAgent(m: RequestMeta): (a: string)
    ensures a != ""
    ensures Truthy(m.userAgentHeader) ==> a == m.userAgentHeader.value
    ensures !Truthy(m.userAgentHeader) ==> a == "unknown"
  {
    if Truthy(m.userAgentHeader) then m.userAgentHeader.value else "unknown"
  }

  /** Because `"unknown"` is truthy, the store's `|| null` never fires for a row created over HTTP. */
  lemma HttpMetadataNeverNull(m: RequestMeta)
    ensures OrNull(Some(ClientAddress(m))) == Some(ClientAddress(m))
    ensures OrNull(Some(ClientUserAgent(m))) == Some(ClientUserAgent(m))
  {
  }

  /** `parseInt(req.params.id)` followed by the `isNaN` guard, shared by GET, PUT and DELETE by id. */
  function IdStep(segment: string): (s: Step<int>)
    ensures s.Reply? <==> ParseInt(segment).None?
    ensures s.Reply? ==> s.response == InvalidId
    ensures s.Call? ==> s.request == ParseInt(segment).value
  {
    match ParseInt(segment)
    case None => Reply(InvalidId)
    case Some(id) => Call(id)
  }

  /**
   * The guard only rejects `NaN`: any segment that starts with an integer's
   * numeral, whatever follows it, reaches the store with that integer.
   */
  lemma NumericPrefixIdAccepted(i: int, rest: string)
    requires rest == [] || !IsDigit(rest[0], 10)
    requires i == 0 ==> rest == [] || (rest[0] != 'x' && rest[0] != 'X')
    ensures IdStep(NumberToString(i) + rest) == Call(i)
  {
    ParseIntNumberPrefix(i, rest);
  }

  /** `/api/feedback/7abc` and `/api/feedback/1.5` name rows 7 and 1; `/api/feedback/abc` is a 400. */
  lemma IdStepExamples()
    ensures IdStep("7abc") == Call(7)
    ensures IdStep("1.5") == Call(1)
    ensures IdStep("abc") == Reply(InvalidId)
  {
    NumericPrefixExample();
    FractionExample();
    LettersExample();
  }

  /** A segment without a decimal digit never reaches the store. */
  lemma NoDigitIdRejected(segment: string)
    requires forall i :: 0 <= i < |segment| ==> !('0' <= segment[i] <= '9')
    ensures IdStep(segment) == Reply(InvalidId)
  {
    NoDecimalDigitIsNaN(segment);
  }

  /** GET /api/feedback after `storage.getFeedback()` settles. */
  function ListReply(o: Outcome<seq<Feedback>>): (r: Response)
    ensures r.status == 200 <==> o.Resolved?
    ensures r.status == 200 ==> r.body == Rows(o.value)
    ensures r.status != 200 ==> r == RetrieveFailed
  {
    match o
    case Resolved(rows) => Response(200, Rows(rows))
    case Threw => RetrieveFailed
  }

  /** GET /api/feedback/:id after `storage.getFeedbackById(id)` settles. */
  function GetByIdReply(o: Outcome<Option<Feedback>>): (r: Response)
    ensures r.status == 200 <==> o.Resolved? && o.value.Some?
    ensures r.status == 200 ==> r.body == Row(o.value.value)
    ensures o.Resolved? && o.value.None? ==> r == NotFound
    ensures o.Threw? ==> r == RetrieveFailed
  {
    match o
    case Threw => RetrieveFailed
    case Resolved(None) => NotFound
    case Resolved(Some(f)) => Response(200, Row(f))
  }

  /**
   * POST /api/feedback before the store: the body is validated first; a
   * valid payload goes to the store with the client's address and agent,
   * each defaulted to `"unknown"`.
   */
  function CreateStep(body: Json, m: RequestMeta, isEmail: string -> bool): (s: Step<CreateCall>)
    ensures s.Reply? <==> ParseInsertFeedback(body, isEmail).Failure?
    ensures s.Reply? ==> s.response == InvalidData(ParseInsertFeedback(body, isEmail).error)
    ensures s.Call? ==> s.request.payload == ParseInsertFeedback(body, isEmail).value
    ensures s.Call? ==> InsertOk(s.request.payload, isEmail)
    ensures s.Call? ==> s.request.ipAddress != "" && s.request.userAgent != ""
  {
    match ParseInsertFeedback(body, isEmail)
    case Failure(errors) => Reply(InvalidData(errors))
    case Success(p) => Call(CreateCall(p, ClientAddress(m), ClientUserAgent(m)))
  }

  /** POST /api/feedback after `storage.createFeedback(...)` settles. */
  function CreateReply(o: Outcome<Feedback>): (r: Response)
    ensures r.status == 201 <==> o.Resolved?
    ensures r.status == 201 ==> r.body == Row(o.value)
    ensures r.status != 201 ==> r == CreateFailed
  {
    match o
    case Resolved(f) => Response(201, Row(f))
    case Threw => CreateFailed
  }

  /**
   * PUT /api/feedback/:id before the store: the id is checked first, then
   * the body against the partial schema; whether the row exists is only
   * learnt from the store afterwards.
   */
  function UpdateStep(segment: string, body: Json, isEmail: string -> bool): (s: Step<UpdateCall>)
    ensures ParseInt(segment).None? ==> s == Reply(InvalidId)
    ensures ParseInt(segment).Some? && ParseFeedbackPatch(body, isEmail).Failure? ==>
              s == Reply(InvalidData(ParseFeedbackPatch(body, isEmail).error))
    ensures s.Call? <==> ParseInt(segment).Some? && ParseFeedbackPatch(body, isEmail).Success?
    ensures s.Call? ==> s.request == UpdateCall(ParseInt(segment).value, ParseFeedbackPatch(body, isEmail).value)
    ensures s.Call? ==> PatchOk(s.request.patch, isEmail)
  {
    match IdStep(segment)
    case Reply(r) => Reply(r)
    case Call(id) =>
      match ParseFeedbackPatch(body, isEmail)
      case Failure(errors) => Reply(InvalidData(errors))
      case Success(p) => Call(UpdateCall(id, p))
  }

  /** PUT /api/feedback/:id after `storage.updateFeedback(id, patch)` settles. */
  function UpdateReply(o: Outcome<Option<Feedback>>): (r: Response)
    ensures r.status == 200 <==> o.Resolved? && o.value.Some?
    ensures r.status == 200 ==> r.body == Row(o.value.value)
    ensures o.Resolved? && o.value.None? ==> r == NotFound
    ensures o.Threw? ==> r == UpdateFailed
  {
    match o
    case Threw => UpdateFailed
    case Resolved(None) => NotFound
    case Resolved(Some(f)) => Response(200, Row(f))
  }

  /** DELETE /api/feedback/:id after `storage.deleteFeedback(id)` settles. */
  function DeleteReply(o: Outcome<bool>): (r: Response)
    ensures o == Resolved(true) <==> r == DeletedOk
    ensures o == Resolved(false) <==> r == NotFound
    ensures o.Threw? <==> r == DeleteFailed
  {
    match o
    case Threw => DeleteFailed
    case Resolved(true) => DeletedOk
    case Resolved(false) => NotFound
  }

  /** Every answer any handler gives has one of the five statuses the service uses. */
  lemma StatusesUsed(segment: string, body: Json, m: RequestMeta, isEmail: string -> bool,
                     a: Outcome<seq<Feedback>>, b: Outcome<Option<Feedback>>, c: Outcome<Feedback>, d: Outcome<bool>)
    ensures ListReply(a).status in {200, 500} && GetByIdReply(b).status in {200, 404, 500}
    ensures CreateReply(c).status in {201, 500} && UpdateReply(b).status in {200, 404, 500}
    ensures DeleteReply(d).status in {200, 404, 500}
    ensures IdStep(segment).Reply? ==> IdStep(segment).response.status == 400
    ensures CreateStep(body, m, isEmail).Reply? ==> CreateStep(body, m, isEmail).response.status == 400
    ensures UpdateStep(segment, body, isEmail).Reply? ==> UpdateStep(segment, body, isEmail).response.status == 400
  {
  }

  /** GET /api/feedback: every row, newest first, equal timestamps in insertion order. */
  method HandleList(store: MemStorage) returns (r: Response)
    requires store.Valid()
    ensures r.status == 200 && r.body.Rows?
    ensures SortedDesc(r.body.rows, Timestamp)
    ensures multiset(r.body.rows) == multiset(store.feedbacks.Values())
    ensures SameRuns(r.body.rows, store.feedbacks.Values(), Timestamp)
  {
    var rows := store.GetFeedback();
    r := ListReply(Resolved(rows));
  }

  /** GET /api/feedback/:id */
  method HandleGetById(store: MemStorage, segment: string) returns (r: Response)
    requires store.Valid()
    ensures ParseInt(segment).None? ==> r == InvalidId
    ensures ParseInt(segment).Some? && !store.feedbacks.Has(ParseInt(segment).value) ==> r == NotFound
    ensures ParseInt(segment).Some? && store.feedbacks.Has(ParseInt(segment).value) ==>
              r == Response(200, Row(store.feedbacks.entries[ParseInt(segment).value]))
  {
    match IdStep(segment)
    case Reply(resp) =>
      r := resp;
    case Call(id) =>
      var f := store.GetFeedbackById(id);
      r := GetByIdReply(Resolved(f));
  }

  /**
   * POST /api/feedback: an invalid body is a 400 and the store is left as it
   * was; a valid one is stored under the next id, with the client's address
   * and agent (never null), and returned with 201.
   */
  method HandleCreate(store: MemStorage, body: Json, m: RequestMeta, isEmail: string -> bool, now: int)
    returns (r: Response)
    requires store.Valid() && store.RecordsOk()
    modifies store
    ensures store.Valid() && store.RecordsOk()
    ensures ParseInsertFeedback(body, isEmail).Failure? ==>
              r == InvalidData(ParseInsertFeedback(body, isEmail).error) && unchanged(store)
    ensures ParseInsertFeedback(body, isEmail).Success? ==>
              var row := Stamped(ParseInsertFeedback(body, isEmail).value, old(store.currentFeedbackId), now,
                                 Some(ClientAddress(m)), Some(ClientUserAgent(m)));
              && r == Response(201, Row(row))
              && store.feedbacks == old(store.feedbacks).Set(row.id, row)
              && store.currentFeedbackId == old(store.currentFeedbackId) + 1
    ensures r.body.Row? ==> r.body.row.ipAddress.Some? && r.body.row.userAgent.Some?
    ensures store.users == old(store.users) && store.currentUserId == old(store.currentUserId)
  {
    match CreateStep(body, m, isEmail)
    case Reply(resp) =>
      r := resp;
    case Call(call) =>
      HttpMetadataNeverNull(m);
      var f := store.CreateFeedback(call.payload, Some(call.ipAddress), Some(call.userAgent), now);
      r := CreateReply(Resolved(f));
  }

  /**
   * PUT /api/feedback/:id: a bad id is a 400, then a bad body is a 400 even
   * when no row has that id; only a valid patch for a missing row is a 404.
   */
  method HandleUpdate(store: MemStorage, segment: string, body: Json, isEmail: string -> bool) returns (r: Response)
    requires store.Valid() && store.RecordsOk()
    modifies store
    ensures store.Valid() && store.RecordsOk()
    ensures ParseInt(segment).None? ==> r == InvalidId && unchanged(store)
    ensures ParseInt(segment).Some? && ParseFeedbackPatch(body, isEmail).Failure? ==>
              r == InvalidData(ParseFeedbackPatch(body, isEmail).error) && unchanged(store)
    ensures ParseInt(segment).Some? && ParseFeedbackPatch(body, isEmail).Success? ==>
              var id, p := ParseInt(segment).value, ParseFeedbackPatch(body, isEmail).value;
              && store.feedbacks == Patched(old(store.feedbacks), id, p)
              && (old(store.feedbacks).Has(id) ==> r == Response(200, Row(Merge(old(store.feedbacks).entries[id], p))))
              && (!old(store.feedbacks).Has(id) ==> r == NotFound)
    ensures store.currentFeedbackId == old(store.currentFeedbackId)
    ensures store.users == old(store.users) && store.currentUserId == old(store.currentUserId)
  {
    match UpdateStep(segment, body, isEmail)
    case Reply(resp) =>
      r := resp;
    case Call(call) =>
      var existing := store.feedbacks.Get(call.id);
      if existing.Some? {
        MergeKeepsRecordOk(existing.value, call.patch, isEmail);
      }
      var f := store.UpdateFeedback(call.id, call.patch);
      r := UpdateReply(Resolved(f));
  }

  /** DELETE /api/feedback/:id */
  method HandleDelete(store: MemStorage, segment: string) returns (r: Response)
    requires store.Valid() && store.RecordsOk()
    modifies store
    ensures store.Valid() && store.RecordsOk()
    ensures ParseInt(segment).None? ==> r == InvalidId && unchanged(store)
    ensures ParseInt(segment).Some? ==>
              var id := ParseInt(segment).value;
              && store.feedbacks == old(store.feedbacks).Delete(id)
              && (old(store.feedbacks).Has(id) ==> r == DeletedOk)
              && (!old(store.feedbacks).Has(id) ==> r == NotFound)
    ensures store.currentFeedbackId == old(store.currentFeedbackId)
    ensures store.users == old(store.users) && store.currentUserId == old(store.currentUserId)
  {
    match IdStep(segment)
    case Reply(resp) =>
      r := resp;
    case Call(id) =>
      var deleted := store.DeleteFeedback(id);
      r := DeleteReply(Resolved(deleted));
  }
}
