/**
 * The two database tables the route handlers use, with the record shapes of
 * `src/lib/supabase.ts`, and an abstract in-memory stand-in for the hosted
 * database: a map from message id to message row, and the responses table as
 * a sequence of rows in insertion order.
 */
module Store {
  import opened Wrappers

  /** A row of the `messages` table. Timestamps are milliseconds since the epoch. */
  datatype Message = Message(
    id: string,
    uniqueToken: string,
    senderName: Option<string>,
    recipientName: Option<string>,
    messageText: Option<string>,
    theme: string,
    activities: seq<string>,
    createdAt: int,
    expiresAt: int,
    isOpened: bool)

  /**
   * A row of the `responses` table. The response type is kept as the string
   * the client sent: the declared union `'yes' | 'maybe' | 'no'` is a type
   * annotation that no handler checks.
   */
  datatype Response = Response(
    id: string,
    messageId: string,
    responseType: string,
    selectedActivity: Option<string>,
    replyText: Option<string>,
    createdAt: int)

  /** The number of rows of the responses table that reference message `mid`. */
  function CountFor(rs: seq<Response>, mid: string): (n: nat)
    ensures n <= |rs|
    ensures n == 0 <==> forall r :: r in rs ==> r.messageId != mid
  {
    if rs == [] then 0
    else (if rs[0].messageId == mid then 1 else 0) + CountFor(rs[1..], mid)
  }

  /** The first row that references `mid`, if any. */
  function FirstFor(rs: seq<Response>, mid: string): (r: Option<Response>)
    ensures r.Some? <==> CountFor(rs, mid) > 0
    ensures r.Some? ==> r.value in rs && r.value.messageId == mid
  {
    if rs == [] then None
    else if rs[0].messageId == mid then Some(rs[0])
    else FirstFor(rs[1..], mid)
  }

  /**
   * `.eq('message_id', mid).single()`: the query yields a row only when
   * exactly one row matches; with none or with several it yields no data.
   */
  function SingleFor(rs: seq<Response>, mid: string): (r: Option<Response>)
    ensures r.Some? <==> CountFor(rs, mid) == 1
    ensures r.Some? ==> r.value in rs && r.value.messageId == mid
  {
    if CountFor(rs, mid) == 1 then FirstFor(rs, mid) else None
  }

  /** The product rule "a message has at most one response". */
  ghost predicate AtMostOnePerMessage(rs: seq<Response>) {
    forall mid :: CountFor(rs, mid) <= 1
  }

  /** Appending a row raises the count of its own message by one and of no other. */
  lemma {:induction false} CountAppend(rs: seq<Response>, row: Response, mid: string)
    ensures CountFor(rs + [row], mid) == CountFor(rs, mid) + (if row.messageId == mid then 1 else 0)
  {
    if rs == [] {
      assert [row][1..] == [];
    } else {
      assert (rs + [row])[1..] == rs[1..] + [row];
      CountAppend(rs[1..], row, mid);
    }
  }

  /** Under the product rule, a message the `.single()` lookup misses has no response at all. */
  lemma NoSingleMeansNone(rs: seq<Response>, mid: string)
    requires AtMostOnePerMessage(rs)
    requires SingleFor(rs, mid).None?
    ensures CountFor(rs, mid) == 0
  {
    assert CountFor(rs, mid) <= 1;
  }

  /** Appending a response for a message that has none keeps the product rule. */
  lemma AppendKeepsAtMostOne(rs: seq<Response>, row: Response)
    requires AtMostOnePerMessage(rs)
    requires CountFor(rs, row.messageId) == 0
    ensures AtMostOnePerMessage(rs + [row])
    ensures CountFor(rs + [row], row.messageId) == 1
  {
    forall mid
      ensures CountFor(rs + [row], mid) <= 1
    {
      CountAppend(rs, row, mid);
    }
    CountAppend(rs, row, row.messageId);
  }

  /**
   * The hosted database, reduced to the two tables. Its invariant: message
   * rows are stored under their own id, and every response references an
   * existing message. The product rule "at most one response per message" is
   * kept separately: nothing in the database enforces it, only the handler's
   * lookup before the insert.
   */
  class Database {
    var messages: map<string, Message>
    var responses: seq<Response>

    ghost predicate Valid()
      reads this
    {
      && (forall id :: id in messages ==> messages[id].id == id)
      && (forall r :: r in responses ==> r.messageId in messages)
    }

    ghost predicate OneResponsePerMessage()
      reads this
    {
      AtMostOnePerMessage(responses)
    }

    constructor ()
      ensures Valid() && OneResponsePerMessage()
      ensures messages == map[] && responses == []
    {
      messages := map[];
      responses := [];
    }

    /** `.from('messages').select('id').eq('id', id).single()`. */
    method FindMessage(id: string) returns (m: Option<Message>)
      ensures m.Some? <==> id in messages
      ensures m.Some? ==> m.value == messages[id]
    {
      m := if id in messages then Some(messages[id]) else None;
    }

    /**
     * `.from('responses').select('id').eq('message_id', mid).single()`, of
     * which the handler keeps only the data: a query that fails (`fails`)
     * yields no data, as does one that matches no row or several rows.
     */
    method FindSingleResponse(mid: string, fails: bool) returns (r: Option<Response>)
      ensures fails ==> r.None?
      ensures !fails ==> (r.Some? <==> CountFor(responses, mid) == 1)
      ensures r.Some? ==> r.value in responses && r.value.messageId == mid
    {
      r := if fails then None else SingleFor(responses, mid);
    }

    /**
     * An insert into the messages table. The database either fails with the
     * error text `failure` and stores nothing, or stores `row` under its id.
     */
    method InsertMessage(row: Message, failure: Option<string>) returns (error: Option<string>)
      modifies this
      ensures error == failure
      ensures messages == if failure.None? then old(messages)[row.id := row] else old(messages)
      ensures responses == old(responses)
    {
      error := failure;
      if failure.None? {
        messages := messages[row.id := row];
      }
    }

    /**
     * An insert into the responses table. The database either fails (and
     * stores nothing) or appends `row`.
     */
    method InsertResponse(row: Response, fails: bool) returns (ok: bool)
      modifies this
      ensures ok == !fails
      ensures responses == if fails then old(responses) else old(responses) + [row]
      ensures messages == old(messages)
    {
      ok := !fails;
      if ok {
        responses := responses + [row];
      }
    }
  }
}
