# softping: message lifecycle and compose form, modelled in Dafny

softping lets a sender write an "ask-someone-out" message and share it as a
link. The recipient answers yes, maybe or no, may pick an activity and may
add a reply. This project models three parts of it:

- `POST /api/responses` (`ResponsesRoute`) is the recipient's one-time answer.
  It checks that the required fields are present, that the message exists and
  that no response exists yet, in that order, and only then inserts. The
  database is an abstract `Store.Database` object with a map of messages and
  a responses table kept as a sequence of rows. The "at most one response per
  message" rule is kept by every call whose "already responded" lookup
  works. `.single()` returns a row only when exactly one row matches, and the
  model keeps that meaning. The `SingleLookupNeedsInvariant` lemma shows that
  the "already submitted" guard relies on the rule. The handler discards the
  error of that lookup, so a lookup that fails reads as "no response yet":
  `FailedLookupLetsSecondIn` shows a second response then being stored.
- `POST /api/messages/create` (`CreateRoute`) builds the message row:
  - the token is the base-36 timestamp, a hyphen, then a random suffix;
  - the expiry is the earlier of the 2026-02-15 cutoff and twenty days from now;
  - empty fields get null, `classic` or `[]` as defaults;
  - the link is `baseUrl + "/m/" + token`.
  Base-36 encoding is proved invertible, and a token splits back into its parts.
- The compose page (`CreatePage`) has pure reducers: the activity toggle, the
  template choice, and the `trim` that gates "Next". It also has a `Page` object
  for its state: step, loading flag, form and generated link. The object's
  handlers keep the invariant that the step is in 1..3, that steps 2 and 3
  have a non-blank message, and that step 3 has a link.

Several inputs become parameters of the operations:
- the two clock readings of the create handler, as milliseconds: the
  `Date.now()` the token is built from and the `new Date()` the expiry
  starts from;
- the random token suffix;
- the ids and creation timestamps the database assigns;
- whether a database insert fails, and whether the "already responded"
  lookup fails;
- the `NEXT_PUBLIC_BASE_URL` setting;
- the outcome of the page's `fetch`.

A JSON field that is absent or null is `None`. JavaScript's falsiness of a
string field (absent, null or `""`) is `Wrappers.Falsy`.

Facts about the handlers that the model keeps:
- the create handler generates one `unique_token` and no tracking token;
- the create handler does not check `message`: an absent or blank message is
  stored as sent;
- the responses handler checks `responseType` against neither yes/maybe/no
  nor the message's activities, and `selectedActivity` against nothing;
- the create reply is `{success, token, link, messageId}`.

## Model

| member | source | states |
|---|---|---|
| Wrappers.Falsy | src/app/api/responses/route.ts:10 | `!x` for a string field holds exactly for an absent or null field and for `""`; every non-empty string is truthy |
| Wrappers.OrNull | src/app/api/responses/route.ts:51-52 | `x \|\| null`: the result is null exactly when the input is falsy, otherwise the input verbatim |
| Wrappers.OrElse | src/app/api/messages/create/route.ts:36 | `x \|\| fallback`: a falsy input gives the fallback, any other input is kept |
| Store.CountFor | src/app/api/responses/route.ts:32-36 | the number of responses for a message is at most the table size, and is zero exactly when no row references it |
| Store.FirstFor | src/app/api/responses/route.ts:32-36 | a row is found exactly when some row references the message, and the row found is in the table and references it |
| Store.SingleFor | src/app/api/responses/route.ts:32-38 | `.single()` yields a row exactly when one row matches, and that row references the message |
| Store.CountAppend | src/app/api/responses/route.ts:46-55 | appending a row raises its own message's count by one and leaves every other count alone |
| Store.NoSingleMeansNone | src/app/api/responses/route.ts:32-38 | under the one-response rule, a missed `.single()` lookup means the message has no response |
| Store.AppendKeepsAtMostOne | src/app/api/responses/route.ts:46-55 | adding a response for a message with none keeps the one-response rule, and the message then has exactly one |
| Store.Database.FindMessage | src/app/api/responses/route.ts:18-22 | the lookup by id finds a message exactly when one is stored under that id, and returns that row |
| Store.Database.FindSingleResponse | src/app/api/responses/route.ts:32-36 | a failed query yields no data, as the handler keeps only `data`; a working one has `.single()` semantics: a row exactly when one row references the message, and that row |
| Store.Database.InsertMessage | src/app/api/messages/create/route.ts:44-48 | a failed insert stores nothing and reports the error; a successful one stores the row under its id; responses untouched |
| Store.Database.InsertResponse | src/app/api/responses/route.ts:46-55 | a failed insert stores nothing; a successful one appends the row; messages untouched |
| ResponsesRoute.HasRequiredFields | src/app/api/responses/route.ts:10 | the request passes the required-field check exactly when `messageId` and `responseType` are both present as non-empty strings |
| ResponsesRoute.NewRow | src/app/api/responses/route.ts:48-53 | the inserted row carries the given message id and response type; a falsy activity or reply is stored as null, otherwise verbatim |
| ResponsesRoute.Submit | src/app/api/responses/route.ts:5-76 | the checks run in order: unreadable body gives 500, a missing field gives 400, an unknown message gives 404, an existing response found by a working lookup gives 400, a failed insert gives 500. Each rejection leaves the table unchanged. A failed lookup counts as "no response". Success happens exactly when the request reaches the lookup, the lookup fails or finds no single row, and the insert works; it appends exactly the new row |
| ResponsesRoute.MissingFieldsIgnoreStore | src/app/api/responses/route.ts:10-15 | a request missing a field gets 400 "Missing required fields" whatever both tables hold: the check precedes every lookup |
| ResponsesRoute.SubmitTouchesOnlyItsMessage | src/app/api/responses/route.ts:46-55 | no call changes the number of responses of any message other than the one named |
| ResponsesRoute.SubmitAddsExactlyOne | src/app/api/responses/route.ts:46-68 | with a working lookup, on success the named message goes from zero responses to exactly one, and the table grows by one row |
| ResponsesRoute.SubmitKeepsInvariant | src/app/api/responses/route.ts:32-55 | every call keeps "every response references a stored message"; every call whose lookup works keeps "at most one response per message" |
| ResponsesRoute.FailedLookupLetsSecondIn | src/app/api/responses/route.ts:32-36 | when the "already responded" query fails, a message that already has a response gets a second one, and the one-response rule breaks |
| ResponsesRoute.SecondSubmitRejected | src/app/api/responses/route.ts:32-43 | after one successful submission, any later well-formed submission for the same message whose lookup works is refused with 400 and changes nothing |
| ResponsesRoute.FreshMessageAcceptsResponse | src/app/api/responses/route.ts:18-55 | a newly stored message has no response, so its first well-formed submission with a working insert succeeds, whether or not the lookup works |
| ResponsesRoute.SingleLookupNeedsInvariant | src/app/api/responses/route.ts:32-38 | with two rows already present for a message, `.single()` finds none and a third row is accepted: the guard relies on the invariant |
| ResponsesRoute.Post | src/app/api/responses/route.ts:4-77 | the handler keeps the database invariant, keeps the one-response rule when its lookup works, never writes the messages table, and its reply and responses table are those of `Submit` |
| CreateRoute.Digit | src/app/api/messages/create/route.ts:21 | a digit below 36 is written as a character of `[0-9a-z]` |
| CreateRoute.DigitValue | src/app/api/messages/create/route.ts:21 | reading a base-36 character gives a value below 36 that is written back as that character |
| CreateRoute.ToBase36 | src/app/api/messages/create/route.ts:21 | the base-36 text of the timestamp is non-empty, uses only `[0-9a-z]`, has no hyphen, and starts with `0` only for zero |
| CreateRoute.Base36RoundTrip | src/app/api/messages/create/route.ts:21 | decoding the base-36 text gives back the timestamp |
| CreateRoute.Base36Injective | src/app/api/messages/create/route.ts:21 | different timestamps have different base-36 texts |
| CreateRoute.Token | src/app/api/messages/create/route.ts:21 | the token is the base-36 timestamp, then one hyphen, then the suffix |
| CreateRoute.FirstIndex | src/app/api/messages/create/route.ts:21 | finds the first occurrence of a character, or reports that there is none |
| CreateRoute.TokenRoundTrip | src/app/api/messages/create/route.ts:21 | splitting a token at its first hyphen gives back the timestamp and the suffix |
| CreateRoute.Occurrences | src/app/api/messages/create/route.ts:21 | a character occurs zero times exactly when it is absent |
| CreateRoute.TokenHasOneHyphen | src/app/api/messages/create/route.ts:21 | when the suffix has no hyphen, the token holds exactly one |
| CreateRoute.ExpiresAt | src/app/api/messages/create/route.ts:25-28 | the expiry is at most the cutoff and at most now plus twenty days, and is one of the two. When now plus twenty days is after the cutoff, it is exactly the cutoff |
| CreateRoute.Prepare | src/app/api/messages/create/route.ts:32-40 | falsy names become null, otherwise verbatim. A falsy theme becomes `classic`, so the theme is never empty. Absent activities become `[]`. The message text passes through unvalidated. The token and expiry are the ones computed |
| CreateRoute.Stored | src/app/api/messages/create/route.ts:32-48 | the stored row has the id and creation time the database assigns, the token, names, message text, theme, activities and expiry sent, and starts unopened |
| CreateRoute.BaseUrl | src/app/api/messages/create/route.ts:62 | an unset or empty base URL gives `http://localhost:3000`, otherwise the configured value |
| CreateRoute.Link | src/app/api/messages/create/route.ts:63 | the link starts with the base URL, continues with `/m/`, and ends with the token |
| CreateRoute.Create | src/app/api/messages/create/route.ts:5-79 | the call fails (500, table unchanged) exactly when the body is unreadable or the insert fails. On success the reply's id is the new row's id, the token is built from the `Date.now()` reading and the link as above. The new row's expiry comes from the `new Date()` reading and its creation time from the database. The table gains exactly that row and no other row changes |
| CreateRoute.CreatedTokenAgrees | src/app/api/messages/create/route.ts:21-71 | on success the stored `unique_token`, the returned token and the tail of the link are one value, which parses back to the token's clock reading and suffix. The new message expires by the cutoff and within twenty days of the expiry's clock reading, and is unopened |
| CreateRoute.Post | src/app/api/messages/create/route.ts:4-80 | the handler keeps the database invariant, never writes the responses table, and its reply and messages table are those of `Create` |
| CreatePage.RemoveAll | src/app/create/page.tsx:59 | filtering removes every occurrence of the id and keeps every other element with its multiplicity |
| CreatePage.RemoveAllConcat | src/app/create/page.tsx:59 | filtering distributes over concatenation, so the remaining elements keep their order |
| CreatePage.Toggle | src/app/create/page.tsx:56-63 | an absent id is appended at the end; a present id is removed everywhere, and every other element keeps its multiplicity |
| CreatePage.ToggleTwiceRestores | src/app/create/page.tsx:56-63 | toggling an absent id twice gives back the original list |
| CreatePage.RemoveAllKeepsNoDuplicates | src/app/create/page.tsx:59 | filtering a duplicate-free list leaves it duplicate-free |
| CreatePage.ToggleKeepsNoDuplicates | src/app/create/page.tsx:56-63 | toggling keeps an activity list free of duplicates |
| CreatePage.ToggleActivity | src/app/create/page.tsx:56-63 | only the activities change: an absent id is appended at the end; a present id is removed and every other activity stays with its multiplicity; names, message and theme unchanged |
| CreatePage.SelectTemplate | src/app/create/page.tsx:52-54 | only the message changes, to the template's text |
| CreatePage.TrimStart | src/app/create/page.tsx:232 | the result is a suffix of the input that is empty or starts with a non-white-space character, and the prefix removed is all white space |
| CreatePage.TrimEnd | src/app/create/page.tsx:232 | the result is a prefix of the input that is empty or ends with a non-white-space character, and the suffix removed is all white space |
| CreatePage.Trim | src/app/create/page.tsx:232 | the message with its leading and trailing white space removed: the slice between a blank prefix and a blank suffix, with no white space left at either end |
| CreatePage.TrimEmptyIffBlank | src/app/create/page.tsx:232 | `message.trim()` is empty exactly when every character of the message is white space |
| CreatePage.RequestBody | src/app/create/page.tsx:83-89 | the posted body carries every form field as it stands: both names, the message, the theme and the activity list |
| CreatePage.PageRequestDefaults | src/app/create/page.tsx:83-89 | for the body this page sends: an empty name is stored as null, the activities are stored as chosen, the message text is stored, and an empty theme becomes `classic` |
| CreatePage.Page.constructor | src/app/create/page.tsx:9-18 | the page starts on step 1, not loading, with the initial form and no link |
| CreatePage.Page.TemplateClicked | src/app/create/page.tsx:202-206 | on step 1 a template sets the message, nothing else changes |
| CreatePage.Page.ActivityClicked | src/app/create/page.tsx:251-255 | on step 2 and not loading, the activity is toggled; otherwise nothing changes |
| CreatePage.Page.NextClicked | src/app/create/page.tsx:230-232 | step 1 moves to step 2 only when the trimmed message is non-empty |
| CreatePage.Page.BackClicked | src/app/create/page.tsx:134-137 | disabled while loading. On step 1 it leaves the page; otherwise it goes back one step, so the step stays in 1..3 |
| CreatePage.Page.GenerateClicked | src/app/create/page.tsx:65-90 | on step 2 and not loading, it sets `isLoading` and sends the whole form, whose message is not blank |
| CreatePage.Page.GenerateFinished | src/app/create/page.tsx:98-120 | step 3 and the link are set only when the reply is ok and the link is non-empty; otherwise step and link are unchanged; `isLoading` is false afterwards in every case |
| CreatePage.Page.CreateAnotherClicked | src/app/create/page.tsx:380-389 | from step 3 it restores the initial form (empty names and message, `classic`, no activities), goes to step 1 and clears the link |

## Left out

- The database client and its queries are not modelled. The store is the `Store.Database` object. A query error on the message lookup, which the handler also answers with 404, is not represented: `FindMessage` always finds a stored message. It could only add rejections, so no invariant depends on it. An insert failure is a parameter.
- `ResponsesRoute.Post`: the check-then-insert race between concurrent submissions is not modelled, because calls are sequential. Two concurrent calls could both pass the check. The invariant then breaks, and `SingleLookupNeedsInvariant` shows what happens next.
- The clock is not modelled. The create handler's `Date.now()` (token) and `new Date()` (expiry) readings are two parameters, and the `created_at` default the database fills in is a third.
- `Math.random` is not modelled. The suffix `Math.random().toString(36).substring(2, 9)` is an arbitrary string parameter. The lemmas that need it hyphen-free say so.
- `CreateRoute.ExpiresAt`: the cutoff string `2026-02-15T23:59:59` is parsed in the server's local time zone. The model fixes it at that instant in UTC. `setDate(getDate() + 20)` moves by calendar days, so a DST change can make it an hour longer or shorter. The model adds exactly 20 × 86 400 000 ms. `toISOString` serialisation is not modelled.
- Errors thrown inside the handlers other than an unreadable request body are not modelled. These are `catch` blocks returning 500. `String(error)` is the `Malformed` error text.
- Request fields are modelled as strings, and `activities` as a list of strings. JSON numbers, booleans and objects, whose truthiness differs, are not modelled: `messageId: 0` gets 400, a truthy non-string `selectedActivity` is stored as it is, and `activities: "coffee"` is kept by `body.activities || []`.
- Console logging, `alert`, JSON serialisation and `response.json()` parsing are not modelled. A `fetch` that throws is `Threw`.
- The clipboard copy (`copyLink`), its `copied` flag and its `setTimeout` are not modelled.
- Router navigation is not modelled: "Back" on step 1 only reports `leaves`. "Back Home" on step 3 is left out.
- The plain field setters of the page are not modelled: the name inputs, the message textarea and the theme buttons. Each replaces one field of the form.
- The three template texts are literal data. A template click takes the template's text as a parameter.
- All rendering is left out: JSX, the presentational components and the landing page.
- The ExampleSection scroll progress is left out; it is floating-point presentation.
- The other routes are not part of this model: the recipient's message fetch, marking a message opened, and the tracking route. Expiry is never enforced on responses, and activities are never validated, in the code modelled here.
