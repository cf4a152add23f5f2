/**
 * `POST /api/responses`: the recipient submits a yes/maybe/no answer to a
 * message. The handler checks, in this order and returning at the first
 * failure: that `messageId` and `responseType` are present, that the message
 * exists, and that the message has no response yet; only then does it insert.
 */
module ResponsesRoute {
  import opened Wrappers
  import opened Store

  /** The JSON request body; a field the client left out is `None`. */
  datatype Body = Body(
    messageId: Option<string>,
    responseType: Option<string>,
    selectedActivity: Option<string>,
    replyText: Option<string>)

  /** The request as `request.json()` sees it: either unreadable, or a body. */
  datatype Request = Malformed | Json(body: Body)

  /** The HTTP reply: an error status with its message, or the saved row. */
  datatype Reply = Rejected(status: int, error: string) | Saved(response: Response)

  /** What one call returns, with the responses table it leaves behind. */
  datatype Outcome = Outcome(reply: Reply, responses: seq<Response>)

  const MissingFields := "Missing required fields"
  const MessageNotFound := "Message not found"
  const AlreadySubmitted := "Response already submitted"
  const SaveFailed := "Failed to save response"
  const InternalError := "Internal server error"

  /** `!messageId \|\| !responseType` is false: both required fields are truthy. */
  predicate HasRequiredFields(b: Body)
    ensures HasRequiredFields(b) <==>
              b.messageId.Some? && b.messageId.value != ""
              && b.responseType.Some? && b.responseType.value != ""
  {
    !Falsy(b.messageId) && !Falsy(b.responseType)
  }

  /** The row the handler inserts; `id` and `now` are supplied by the database. */
  function NewRow(b: Body, id: string, now: int): (row: Response)
    requires HasRequiredFields(b)
    ensures Some(row.messageId) == b.messageId && Some(row.responseType) == b.responseType
    ensures row.selectedActivity.None? <==> Falsy(b.selectedActivity)
    ensures row.selectedActivity.Some? ==> row.selectedActivity == b.selectedActivity
    ensures row.replyText.None? <==> Falsy(b.replyText)
    ensures row.replyText.Some? ==> row.replyText == b.replyText
    ensures row.id == id && row.createdAt == now
  {
    Response(id, b.messageId.value, b.responseType.value,
             OrNull(b.selectedActivity), OrNull(b.replyText), now)
  }

  /** The request names a stored message and carries both required fields. */
  predicate ReachesLookup(messages: map<string, Message>, req: Request) {
    req.Json? && HasRequiredFields(req.body) && req.body.messageId.value in messages
  }

  /**
   * The handler as a function of the message table and the responses table.
   * `newId` and `now` are the id and timestamp the database assigns to a new
   * row; `lookupFails` says whether the "already responded" query fails (the
   * handler discards its error and sees no data); `insertFails` says whether
   * the database rejects the insert.
   */
  function Submit(messages: map<string, Message>, responses: seq<Response>, req: Request,
                  newId: string, now: int, lookupFails: bool, insertFails: bool): (o: Outcome)
    ensures req.Malformed? ==> o == Outcome(Rejected(500, InternalError), responses)
    ensures req.Json? && !HasRequiredFields(req.body) ==>
              o == Outcome(Rejected(400, MissingFields), responses)
    ensures req.Json? && HasRequiredFields(req.body) && req.body.messageId.value !in messages ==>
              o == Outcome(Rejected(404, MessageNotFound), responses)
    ensures ReachesLookup(messages, req) && !lookupFails
            && CountFor(responses, req.body.messageId.value) == 1 ==>
              o == Outcome(Rejected(400, AlreadySubmitted), responses)
    ensures o.reply.Rejected? ==> o.responses == responses
    ensures o.reply.Saved? <==>
              ReachesLookup(messages, req)
              && (lookupFails || CountFor(responses, req.body.messageId.value) != 1)
              && !insertFails
    ensures o.reply.Saved? ==>
              o.responses == responses + [o.reply.response]
              && o.reply.response == NewRow(req.body, newId, now)
    ensures ReachesLookup(messages, req)
            && (lookupFails || CountFor(responses, req.body.messageId.value) != 1)
            && insertFails ==>
              o == Outcome(Rejected(500, SaveFailed), responses)
  {
    match req
    case Malformed => Outcome(Rejected(500, InternalError), responses)
    case Json(b) =>
      if !HasRequiredFields(b) then Outcome(Rejected(400, MissingFields), responses)
      else if b.messageId.value !in messages then Outcome(Rejected(404, MessageNotFound), responses)
      else
        var existing := if lookupFails then None else SingleFor(responses, b.messageId.value);
        if existing.Some? then Outcome(Rejected(400, AlreadySubmitted), responses)
        else if insertFails then Outcome(Rejected(500, SaveFailed), responses)
        else
          var row := NewRow(b, newId, now);
          Outcome(Saved(row), responses + [row])
  }

  /**
   * The required-field check comes before any lookup: a request missing a
   * field gets the same 400 whatever the two tables hold and whatever the
   * database would answer.
   */
  lemma MissingFieldsIgnoreStore(m1: map<string, Message>, r1: seq<Response>,
                                 m2: map<string, Message>, r2: seq<Response>,
                                 b: Body, newId: string, now: int,
                                 lookup1: bool, lookup2: bool, fails1: bool, fails2: bool)
    requires !HasRequiredFields(b)
    ensures Submit(m1, r1, Json(b), newId, now, lookup1, fails1).reply
         == Submit(m2, r2, Json(b), newId, now, lookup2, fails2).reply
         == Rejected(400, MissingFields)
  {
  }

  /**
   * A call changes the response count of the message it names by at most one
   * (by exactly one when it succeeds) and never that of any other message.
   */
  lemma SubmitTouchesOnlyItsMessage(messages: map<string, Message>, responses: seq<Response>,
                                    req: Request, newId: string, now: int,
                                    lookupFails: bool, insertFails: bool, other: string)
    requires req.Json? && req.body.messageId != Some(other)
    ensures CountFor(Submit(messages, responses, req, newId, now, lookupFails, insertFails).responses, other)
         == CountFor(responses, other)
  {
    var o := Submit(messages, responses, req, newId, now, lookupFails, insertFails);
    if o.reply.Saved? {
      CountAppend(responses, o.reply.response, other);
    }
  }

  /**
   * On success exactly one row is added, for the message that was named; when
   * the lookup worked, that message had no response before.
   */
  lemma SubmitAddsExactlyOne(messages: map<string, Message>, responses: seq<Response>,
                             req: Request, newId: string, now: int, insertFails: bool)
    requires AtMostOnePerMessage(responses)
    requires Submit(messages, responses, req, newId, now, false, insertFails).reply.Saved?
    ensures CountFor(responses, req.body.messageId.value) == 0
    ensures CountFor(Submit(messages, responses, req, newId, now, false, insertFails).responses,
                     req.body.messageId.value) == 1
    ensures |Submit(messages, responses, req, newId, now, false, insertFails).responses| == |responses| + 1
  {
    var o := Submit(messages, responses, req, newId, now, false, insertFails);
    var mid := req.body.messageId.value;
    NoSingleMeansNone(responses, mid);
    CountAppend(responses, o.reply.response, mid);
  }

  /**
   * Every call keeps every response pointing at a stored message. When the
   * "already responded" lookup works, every call also keeps the rule of at
   * most one response per message.
   */
  lemma SubmitKeepsInvariant(messages: map<string, Message>, responses: seq<Response>,
                             req: Request, newId: string, now: int,
                             lookupFails: bool, insertFails: bool)
    requires AtMostOnePerMessage(responses) || lookupFails
    requires forall r :: r in responses ==> r.messageId in messages
    ensures !lookupFails ==>
              AtMostOnePerMessage(Submit(messages, responses, req, newId, now, lookupFails, insertFails).responses)
    ensures forall r :: r in Submit(messages, responses, req, newId, now, lookupFails, insertFails).responses
              ==> r.messageId in messages
  {
    var o := Submit(messages, responses, req, newId, now, lookupFails, insertFails);
    if o.reply.Saved? && !lookupFails {
      NoSingleMeansNone(responses, o.reply.response.messageId);
      AppendKeepsAtMostOne(responses, o.reply.response);
    }
  }

  /**
   * The guard fails open: when the "already responded" query fails, a second
   * response for a message that already has one is inserted, breaking the
   * rule of one response per message.
   */
  lemma FailedLookupLetsSecondIn(messages: map<string, Message>, responses: seq<Response>,
                                 b: Body, newId: string, now: int)
    requires HasRequiredFields(b) && b.messageId.value in messages
    requires CountFor(responses, b.messageId.value) == 1
    ensures var o := Submit(messages, responses, Json(b), newId, now, true, false);
            o.reply.Saved? && CountFor(o.responses, b.messageId.value) == 2
            && !AtMostOnePerMessage(o.responses)
  {
    var o := Submit(messages, responses, Json(b), newId, now, true, false);
    CountAppend(responses, o.reply.response, b.messageId.value);
  }

  /**
   * One response per message, over two sequential calls: once a submission
   * for a message has succeeded with a working lookup, any later well-formed
   * submission for the same message whose lookup works is refused with 400
   * and changes nothing.
   */
  lemma SecondSubmitRejected(messages: map<string, Message>, responses: seq<Response>,
                             first: Body, second: Body, id1: string, id2: string,
                             now1: int, now2: int, fails2: bool)
    requires AtMostOnePerMessage(responses)
    requires Submit(messages, responses, Json(first), id1, now1, false, false).reply.Saved?
    requires HasRequiredFields(second) && second.messageId == first.messageId
    ensures var after := Submit(messages, responses, Json(first), id1, now1, false, false).responses;
            Submit(messages, after, Json(second), id2, now2, false, fails2)
              == Outcome(Rejected(400, AlreadySubmitted), after)
  {
    SubmitAddsExactlyOne(messages, responses, Json(first), id1, now1, false);
  }

  /**
   * A message that has just been created has no response, so the first
   * well-formed submission for it is accepted when the insert succeeds,
   * whether or not the lookup works.
   */
  lemma FreshMessageAcceptsResponse(messages: map<string, Message>, responses: seq<Response>,
                                    msg: Message, b: Body, newId: string, now: int,
                                    lookupFails: bool)
    requires forall r :: r in responses ==> r.messageId in messages
    requires HasRequiredFields(b) && b.messageId == Some(msg.id) && msg.id !in messages
    ensures Submit(messages[msg.id := msg], responses, Json(b), newId, now, lookupFails, false).reply.Saved?
  {
    assert CountFor(responses, msg.id) == 0;
  }

  /**
   * The 400 "already submitted" guard relies on the table invariant: because
   * `.single()` finds nothing when two rows match, a table that already held
   * two responses for a message would accept a third.
   */
  lemma SingleLookupNeedsInvariant()
    ensures var m := Message("m", "t", None, None, Some("hi"), "classic", [], 0, 0, false);
            var r := Response("r", "m", "yes", None, None, 0);
            var o := Submit(map["m" := m], [r, r], Json(Body(Some("m"), Some("no"), None, None)),
                            "r3", 1, false, false);
            o.reply.Saved? && CountFor(o.responses, "m") == 3
  {
    var r := Response("r", "m", "yes", None, None, 0);
    assert CountFor([r, r], "m") == 2 by {
      assert [r, r][1..] == [r];
      assert [r][1..] == [];
    }
    CountAppend([r, r], Response("r3", "m", "no", None, None, 1), "m");
  }

  /**
   * The handler, step by step against the abstract database. It reads the
   * message table and never writes it, and its reply and the responses table
   * it leaves are those `Submit` describes. With a working lookup it keeps
   * the rule of one response per message.
   */
  method Post(db: Database, req: Request, newId: string, now: int,
              lookupFails: bool, insertFails: bool)
    returns (reply: Reply)
    requires db.Valid()
    modifies db
    ensures db.Valid()
    ensures old(db.OneResponsePerMessage()) && !lookupFails ==> db.OneResponsePerMessage()
    ensures db.messages == old(db.messages)
    ensures Outcome(reply, db.responses)
         == Submit(old(db.messages), old(db.responses), req, newId, now, lookupFails, insertFails)
  {
    if req.Malformed? {
      return Rejected(500, InternalError);
    }
    var body := req.body;
    if Falsy(body.messageId) || Falsy(body.responseType) {
      return Rejected(400, MissingFields);
    }
    var message := db.FindMessage(body.messageId.value);
    if message.None? {
      return Rejected(404, MessageNotFound);
    }
    var existing := db.FindSingleResponse(body.messageId.value, lookupFails);
    if existing.Some? {
      return Rejected(400, AlreadySubmitted);
    }
    if db.OneResponsePerMessage() || lookupFails {
      SubmitKeepsInvariant(db.messages, db.responses, req, newId, now, lookupFails, insertFails);
    }
    var row := Response(newId, body.messageId.value, body.responseType.value,
                        OrNull(body.selectedActivity), OrNull(body.replyText), now);
    var ok := db.InsertResponse(row, insertFails);
    if !ok {
      return Rejected(500, SaveFailed);
    }
    reply := Saved(row);
  }
}
