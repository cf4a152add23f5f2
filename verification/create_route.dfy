/**
 * `POST /api/messages/create`: the sender's compose form is turned into a
 * message row with a fresh token and an expiry date, and the shareable link
 * `baseUrl/m/token` is returned. The clock (`Date.now()`), the random token
 * suffix, the id the database assigns and the database's answer to the
 * insert are parameters.
 */
module CreateRoute {
  import opened Wrappers
  import opened Store

  /** Milliseconds in a day, and the rolling expiry window of twenty days. */
  const DayMs: int := 86400000
  const WindowMs: int := 20 * DayMs

  /** The program-wide deadline 2026-02-15T23:59:59, in milliseconds since the epoch (UTC). */
  const Cutoff: int := 1771199999000

  const DefaultTheme := "classic"
  const DefaultBaseUrl := "http://localhost:3000"
  const LinkPath := "/m/"

  // ---------------------------------------------------------------------
  // Base-36 text of a natural number, as `Number.prototype.toString(36)`
  // writes an integer: digits 0-9 then a-z, most significant first, no
  // leading zeros.

  predicate IsBase36Char(c: char) {
    ('0' <= c <= '9') || ('a' <= c <= 'z')
  }

  predicate IsBase36(s: string) {
    forall i :: 0 <= i < |s| ==> IsBase36Char(s[i])
  }

  function Digit(d: nat): (c: char)
    requires d < 36
    ensures IsBase36Char(c) && c != '-'
  {
    if d < 10 then ('0' as int + d) as char else ('a' as int + d - 10) as char
  }

  function DigitValue(c: char): (d: nat)
    requires IsBase36Char(c)
    ensures d < 36 && Digit(d) == c
  {
    if c <= '9' then c as int - '0' as int else c as int - 'a' as int + 10
  }

  function ToBase36(n: nat): (s: string)
    ensures |s| > 0 && IsBase36(s) && '-' !in s
    ensures s[0] == '0' <==> n == 0
    decreases n
  {
    if n < 36 then [Digit(n)] else ToBase36(n / 36) + [Digit(n % 36)]
  }

  function FromBase36(s: string): nat
    requires IsBase36(s)
  {
    if s == [] then 0 else FromBase36(s[..|s| - 1]) * 36 + DigitValue(s[|s| - 1])
  }

  /** Decoding the base-36 text gives back the number. */
  lemma {:induction false} Base36RoundTrip(n: nat)
    ensures FromBase36(ToBase36(n)) == n
    decreases n
  {
    var s := ToBase36(n);
    if n >= 36 {
      Base36RoundTrip(n / 36);
      assert s[..|s| - 1] == ToBase36(n / 36);
      assert DigitValue(Digit(n % 36)) == n % 36;
    } else {
      assert s[..0] == [];
      assert DigitValue(Digit(n)) == n;
    }
  }

  /** Different timestamps give different base-36 texts. */
  lemma Base36Injective(a: nat, b: nat)
    requires ToBase36(a) == ToBase36(b)
    ensures a == b
  {
    Base36RoundTrip(a);
    Base36RoundTrip(b);
  }

  // ---------------------------------------------------------------------
  // The token: the base-36 timestamp, a hyphen, then the random suffix.

  function Token(now: nat, suffix: string): (t: string)
    ensures |t| == |ToBase36(now)| + 1 + |suffix|
    ensures IsBase36(t[..|ToBase36(now)|]) && t[|ToBase36(now)|] == '-'
    ensures t[|ToBase36(now)| + 1..] == suffix
  {
    ToBase36(now) + "-" + suffix
  }

  /** The index of the first occurrence of `c` in `s`. */
  function FirstIndex(s: string, c: char): (k: Option<nat>)
    ensures k.None? <==> c !in s
    ensures k.Some? ==> k.value < |s| && s[k.value] == c && c !in s[..k.value]
  {
    if s == [] then None
    else if s[0] == c then Some(0)
    else
      var k := FirstIndex(s[1..], c);
      if k.None? then None
      else
        assert s[..k.value + 1] == [s[0]] + s[1..][..k.value];
        Some(k.value + 1)
  }

  /** The two parts of a token. */
  datatype TokenParts = TokenParts(timestamp: nat, suffix: string)

  /** Splits a token at its first hyphen and decodes the timestamp part. */
  function ParseToken(t: string): Option<TokenParts> {
    match FirstIndex(t, '-')
    case None => None
    case Some(k) =>
      if k == 0 || !IsBase36(t[..k]) || (t[0] == '0' && k > 1) then None
      else Some(TokenParts(FromBase36(t[..k]), t[k + 1..]))
  }

  /** Every token splits back into the timestamp and the suffix it was made from. */
  lemma TokenRoundTrip(now: nat, suffix: string)
    ensures ParseToken(Token(now, suffix)) == Some(TokenParts(now, suffix))
  {
    var p := ToBase36(now);
    var t := Token(now, suffix);
    assert t[..|p|] == p;
    FirstIndexAfter(p, suffix);
    Base36RoundTrip(now);
  }

  lemma FirstIndexAfter(p: string, suffix: string)
    requires '-' !in p
    ensures FirstIndex(p + "-" + suffix, '-') == Some(|p|)
  {
    var t := p + "-" + suffix;
    assert t[|p|] == '-';
  }

  /** The number of occurrences of `c` in `s`. */
  function Occurrences(s: string, c: char): (n: nat)
    ensures n == 0 <==> c !in s
  {
    if s == [] then 0 else (if s[0] == c then 1 else 0) + Occurrences(s[1..], c)
  }

  lemma {:induction false} OccurrencesConcat(a: string, b: string, c: char)
    ensures Occurrences(a + b, c) == Occurrences(a, c) + Occurrences(b, c)
  {
    if a == [] {
      assert a + b == b;
    } else {
      assert (a + b)[1..] == a[1..] + b;
      OccurrencesConcat(a[1..], b, c);
    }
  }

  /** When the suffix has no hyphen, the token has exactly one. */
  lemma TokenHasOneHyphen(now: nat, suffix: string)
    requires '-' !in suffix
    ensures Occurrences(Token(now, suffix), '-') == 1
  {
    var p := ToBase36(now);
    OccurrencesConcat(p + "-", suffix, '-');
    OccurrencesConcat(p, "-", '-');
  }

  // ---------------------------------------------------------------------
  // Expiry: the earlier of the fixed cutoff and twenty days from now.

  function ExpiresAt(now: int): (e: int)
    ensures e <= Cutoff && e <= now + WindowMs
    ensures e == Cutoff || e == now + WindowMs
    ensures now + WindowMs > Cutoff ==> e == Cutoff
  {
    var twentyDaysFromNow := now + WindowMs;
    if Cutoff < twentyDaysFromNow then Cutoff else twentyDaysFromNow
  }

  // ---------------------------------------------------------------------
  // The request, the row to insert, the link and the reply.

  /** The JSON request body sent by the compose page. */
  datatype Body = Body(
    senderName: Option<string>,
    recipientName: Option<string>,
    message: Option<string>,
    theme: Option<string>,
    activities: Option<seq<string>>)

  /** The request as `request.json()` sees it; a body it cannot read carries the error's text. */
  datatype Request = Malformed(error: string) | Json(body: Body)

  /** The fields the handler sends to the insert (`insertData`). */
  datatype InsertData = InsertData(
    uniqueToken: string,
    senderName: Option<string>,
    recipientName: Option<string>,
    messageText: Option<string>,
    theme: string,
    activities: seq<string>,
    expiresAt: int)

  datatype Reply =
    | Failed(status: int, error: string, details: string)
    | Created(token: string, link: string, messageId: string)

  /** What one call returns, with the messages table it leaves behind. */
  datatype Outcome = Outcome(reply: Reply, messages: map<string, Message>)

  /** Defaults: falsy names become null, a falsy theme becomes `classic`, absent activities `[]`. */
  function Prepare(b: Body, token: string, expiresAt: int): (d: InsertData)
    ensures d.uniqueToken == token && d.expiresAt == expiresAt
    ensures d.senderName.None? <==> Falsy(b.senderName)
    ensures d.senderName.Some? ==> d.senderName == b.senderName
    ensures d.recipientName.None? <==> Falsy(b.recipientName)
    ensures d.recipientName.Some? ==> d.recipientName == b.recipientName
    ensures d.messageText == b.message
    ensures d.theme != ""
    ensures Falsy(b.theme) ==> d.theme == DefaultTheme
    ensures !Falsy(b.theme) ==> Some(d.theme) == b.theme
    ensures b.activities.None? ==> d.activities == []
    ensures b.activities.Some? ==> d.activities == b.activities.value
  {
    InsertData(
      token,
      OrNull(b.senderName),
      OrNull(b.recipientName),
      b.message,
      OrElse(b.theme, DefaultTheme),
      if b.activities.None? then [] else b.activities.value,
      expiresAt)
  }

  /**
   * The row the database stores for `d`: the fields the handler sent, with
   * the id and the creation time the database assigns, and not yet opened.
   */
  function Stored(d: InsertData, id: string, createdAt: int): (m: Message)
    ensures m.id == id && m.createdAt == createdAt && !m.isOpened
    ensures m.uniqueToken == d.uniqueToken && m.expiresAt == d.expiresAt
    ensures m.senderName == d.senderName && m.recipientName == d.recipientName
    ensures m.messageText == d.messageText && m.theme == d.theme
    ensures m.activities == d.activities
  {
    Message(id, d.uniqueToken, d.senderName, d.recipientName, d.messageText,
            d.theme, d.activities, createdAt, d.expiresAt, false)
  }

  /** `process.env.NEXT_PUBLIC_BASE_URL || 'http://localhost:3000'`. */
  function BaseUrl(env: Option<string>): (u: string)
    ensures u != ""
    ensures Falsy(env) ==> u == DefaultBaseUrl
    ensures !Falsy(env) ==> Some(u) == env
  {
    OrElse(env, DefaultBaseUrl)
  }

  /** The shareable link: the base URL, then `/m/`, then the token. */
  function Link(baseUrl: string, token: string): (l: string)
    ensures |l| == |baseUrl| + |LinkPath| + |token|
    ensures l[..|baseUrl|] == baseUrl
    ensures l[|baseUrl|..|baseUrl| + |LinkPath|] == LinkPath
    ensures l[|l| - |token|..] == token
  {
    baseUrl + LinkPath + token
  }

  /**
   * The handler as a function of the messages table. The handler reads the
   * clock twice: `tokenNow` is the `Date.now()` the token is built from and
   * `expiryNow` the `new Date()` the expiry is computed from. `newId` and
   * `createdAt` are the id and creation time the database assigns, and
   * `insertFailure` the error text of a rejected insert.
   */
  function Create(messages: map<string, Message>, req: Request, tokenNow: nat, expiryNow: int,
                  suffix: string, newId: string, createdAt: int,
                  insertFailure: Option<string>, baseUrlEnv: Option<string>)
    : (o: Outcome)
    requires newId !in messages
    ensures o.reply.Failed? <==> req.Malformed? || insertFailure.Some?
    ensures o.reply.Failed? ==> o.messages == messages && o.reply.status == 500
    ensures req.Malformed? ==> o.reply == Failed(500, "Internal server error", req.error)
    ensures req.Json? && insertFailure.Some? ==>
              o.reply == Failed(500, "Failed to create message", insertFailure.value)
    ensures o.reply.Created? ==>
              && o.reply.messageId == newId
              && o.reply.token == Token(tokenNow, suffix)
              && o.reply.link == Link(BaseUrl(baseUrlEnv), o.reply.token)
              && o.messages.Keys == messages.Keys + {newId}
              && (forall id :: id in messages ==> o.messages[id] == messages[id])
              && o.messages[newId]
                 == Stored(Prepare(req.body, o.reply.token, ExpiresAt(expiryNow)), newId, createdAt)
  {
    match req
    case Malformed(e) => Outcome(Failed(500, "Internal server error", e), messages)
    case Json(b) =>
      var token := Token(tokenNow, suffix);
      var data := Prepare(b, token, ExpiresAt(expiryNow));
      if insertFailure.Some? then
        Outcome(Failed(500, "Failed to create message", insertFailure.value), messages)
      else
        var link := Link(BaseUrl(baseUrlEnv), token);
        Outcome(Created(token, link, newId), messages[newId := Stored(data, newId, createdAt)])
  }

  /**
   * On success the stored token, the returned token and the tail of the link
   * are one value, the token carries the clock reading it was built from, the
   * stored message expires by the cutoff and within twenty days of the expiry
   * clock reading, and it starts unopened.
   */
  lemma CreatedTokenAgrees(messages: map<string, Message>, req: Request, tokenNow: nat,
                           expiryNow: int, suffix: string, newId: string, createdAt: int,
                           baseUrlEnv: Option<string>)
    requires newId !in messages && req.Json?
    ensures var o := Create(messages, req, tokenNow, expiryNow, suffix, newId, createdAt,
                            None, baseUrlEnv);
            && o.reply.Created?
            && o.messages[o.reply.messageId].uniqueToken == o.reply.token
            && o.reply.link[|o.reply.link| - |o.reply.token|..] == o.reply.token
            && ParseToken(o.reply.token) == Some(TokenParts(tokenNow, suffix))
            && o.messages[newId].expiresAt <= Cutoff
            && o.messages[newId].expiresAt <= expiryNow + WindowMs
            && !o.messages[newId].isOpened
  {
    TokenRoundTrip(tokenNow, suffix);
  }

  /**
   * The handler, step by step against the abstract database. It leaves the
   * responses table alone, and its reply and the messages table it leaves
   * are those `Create` describes.
   */
  method Post(db: Database, req: Request, tokenNow: nat, expiryNow: int, suffix: string,
              newId: string, createdAt: int,
              insertFailure: Option<string>, baseUrlEnv: Option<string>)
    returns (reply: Reply)
    requires db.Valid() && newId !in db.messages
    modifies db
    ensures db.Valid()
    ensures db.responses == old(db.responses)
    ensures Outcome(reply, db.messages)
         == Create(old(db.messages), req, tokenNow, expiryNow, suffix, newId, createdAt,
                   insertFailure, baseUrlEnv)
  {
    if req.Malformed? {
      return Failed(500, "Internal server error", req.error);
    }
    var body := req.body;
    var uniqueToken := ToBase36(tokenNow) + "-" + suffix;

    var feb15 := Cutoff;
    var twentyDaysFromNow := expiryNow;
    twentyDaysFromNow := twentyDaysFromNow + 20 * DayMs;
    var expiresAt := if feb15 < twentyDaysFromNow then feb15 else twentyDaysFromNow;

    var insertData := InsertData(
      uniqueToken,
      OrNull(body.senderName),
      OrNull(body.recipientName),
      body.message,
      OrElse(body.theme, DefaultTheme),
      if body.activities.None? then [] else body.activities.value,
      expiresAt);
    var row := Message(newId, insertData.uniqueToken, insertData.senderName,
                       insertData.recipientName, insertData.messageText, insertData.theme,
                       insertData.activities, createdAt, insertData.expiresAt, false);
    var error := db.InsertMessage(row, insertFailure);
    if error.Some? {
      return Failed(500, "Failed to create message", error.value);
    }
    var baseUrl := OrElse(baseUrlEnv, DefaultBaseUrl);
    var link := baseUrl + "/m/" + uniqueToken;
    reply := Created(uniqueToken, link, row.id);
  }
}
