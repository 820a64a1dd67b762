# Messenger chatbot webhook — Dafny model

This project models the decision logic of a Messenger Platform webhook written as a single
Express application (`index.js`):

- **GET `/webhook`**, the subscription handshake. Given `hub.mode`, `hub.verify_token`,
  `hub.challenge` and the configured verify token, it answers 200 with the challenge, answers 403,
  or does not answer at all.
- **POST `/webhook`**, event routing. Envelopes whose `object` is not `"page"` get 404. Otherwise
  the first messaging event of each entry goes to the message handler or the postback handler (the
  message wins), and the batch is acknowledged with 200 `EVENT_RECEIVED`.
- **The default response** (`getDefaultResponse`). It is a large, sharable list template holding one
  welcome element and no buttons.
- **The feed pager** (`callChatbotApi`). It scans the fetched JSON feed from a cursor and appends
  three elements built from records whose `title`, `subtitle`, `image_url` and `url` are all truthy.
  An invalid record resets the cursor so the scan restarts at index 0. At the end it appends a
  "VIEW MORE" postback button whose payload is the final cursor.

Modules:

- `Wrappers` holds `Option`.
- `Js` holds the JavaScript values the code inspects and their truthiness.
- `Template` holds the reply objects and `DefaultResponse`.
- `Pager` holds the scan as a fuel-bounded function `Run`, the loop as the method `CallChatbotApi`,
  and the invariant the scan keeps (`Consistent`).
- `Termination` states when the source's unbounded loop ends and when it never does.
- `Webhook` holds the two endpoints and the handlers.

The JSON feed is an input `seq<Option<Record>>`. A `None` entry, or an index outside the array, is
`json[counter]` being `undefined`/`null`. Reading a field of it throws inside the promise callback,
so the promise never settles. This is `Run`'s `Missing` outcome and `PageResult.Failed`.

The source loop has no bound. In the model it runs for at most `fuel` iterations, and `OutOfFuel` /
`Unfinished` stands for "still looping". `Termination.QuickFinish` shows that six iterations suffice
when record 0 is valid. `Termination.NeverFinishesAfterInvalid` shows that no bound suffices once an
invalid record is read while record 0 is invalid.

Behaviours of the code worth noting:

- A missing record is an error: reading a field of it throws. It does not reset the cursor.
- The same record can be appended several times. On the feed `[A, {}, B, C, D]` from cursor 0, the
  page is A, A, A with cursor 0, and B, C and D are never reached (`Termination.RepeatsRecord`).
  Paging again from the returned cursor can therefore return elements already returned.
- Every postback payload is used as a pagination cursor.

## Model

| member | source | states |
|---|---|---|
| `Template.DefaultResponse` | index.js:147-172 | the default reply is a large, sharable list template with no buttons and exactly one element, the welcome element, whose title and link are truthy |
| `Pager.Run` | index.js:181-203 | a scan that completes has added exactly three elements; an unfinished one has fewer; a failing one stopped at an index absent from the feed, right after the cursor; the elements and visited indices only grow, by at most one visit per iteration |
| `Pager.CallChatbotApi` | index.js:174-212 | the loop resolves exactly when the scan completes and fails exactly at the missing index the scan reads; a resolved reply is the input reply with exactly three elements appended after the untouched existing ones and one "VIEW MORE" postback button whose payload is the final cursor |
| `Pager.VisitKeepsConsistent` | index.js:183-202 | one iteration keeps the scan invariant: visited indices exist, each follows the previous one by the reset rule, the cursor is the last valid index or -1, and the elements are those of the valid visited records |
| `Pager.RunKeepsConsistent` | index.js:181-203 | every state the loop reaches, on every outcome, satisfies the scan invariant |
| `Pager.VisitOrder` | index.js:183-201 | the first index read is start + 1; after a valid record the next index read is the following one, after an invalid record it is 0; every index read exists in the feed |
| `Pager.HarvestFromValid` | index.js:186-199 | each element produced by a sequence of visits is built from one of the visited records that is valid, and there are no more elements than visits |
| `Pager.CopiedFromValid` | index.js:186-198 | every appended element copies title, subtitle, image_url and url verbatim from a visited record whose four fields are all truthy, with a `web_url` default action |
| `Pager.FinishesOnValid` | index.js:183-199 | a scan that completes stops right after appending: the cursor is the last index read, that record is valid, and it is the source of the last element |
| `Pager.FinishedShape` | index.js:181-208 | on completion exactly three elements were added, the cursor handed to the button is the index of the last visited record, which is valid and is the source of the third element |
| `Termination.FuelMonotone` | index.js:183-203 | once a run has completed or failed, allowing more iterations gives the same result |
| `Termination.QuickFinishFrom` | index.js:183-202 | with record 0 valid, each element still missing costs at most two iterations, one fewer right after a reset |
| `Termination.QuickFinish` | index.js:183-202 | with record 0 valid, the loop completes or reads a missing index within six iterations, and any larger bound gives the same result |
| `Termination.NoMissingFrom` | index.js:183-202 | on a feed without missing entries that extends three records past the start, the scan never reads a missing index |
| `Termination.FinishesOnCompleteFeed` | index.js:183-202 | a feed without missing entries, with a valid record 0 and three records after the start, always yields a completed page within six iterations |
| `Termination.StuckAtZero` | index.js:183-202 | with record 0 present but invalid, a reset scan never completes and never adds an element, for any number of iterations |
| `Termination.DivergesFrom` | index.js:183-202 | with record 0 present but invalid, a scan that reads any invalid record is still looping after every bound |
| `Termination.HarvestLength` | index.js:186-199 | visiting only valid records appends one element per visit |
| `Termination.NeverFinishesAfterInvalid` | index.js:183-202 | from the start cursor with record 0 invalid, reading any invalid record means the loop never ends, and a completed scan read exactly start + 1, start + 2, start + 3 |
| `Termination.RepeatsRecord` | index.js:183-202 | on that feed the page from cursor 0 is A, A, A with the cursor 0: the same record is appended repeatedly and B, C, D are never reached |
| `Webhook.Verify` | index.js:57-82 | 200 with the challenge exactly when mode is "subscribe" and the token is truthy and equals the configured token; 403 exactly when both are truthy and that check fails; no answer exactly when mode or token is falsy |
| `Webhook.Walk` | index.js:25-44 | entries are handled in order until the first one whose first event or sender cannot be read; each handled entry uses only its first event and invokes the message handler if there is a message, else the postback handler if there is a postback, else nothing |
| `Webhook.Route` | index.js:17-54 | an envelope whose object is not "page" gets 404 and invokes no handler; otherwise 200 "EVENT_RECEIVED" exactly when every entry was handled, with at most one handler per entry chosen from its first event with message before postback, and an escaping exception otherwise |
| `Webhook.Handle` | index.js:85-116 | a text message starts the pager at 0, a postback at its payload, an attachment gets no reply; a completed reply is the welcome element followed by exactly the three elements the scan appended, with the single "VIEW MORE" button carrying the scan's final cursor, which indexes a valid record, the source of the last element |

## Left out

- Express server setup, `app.listen`, body parsing and environment-variable reads (index.js:3-14, 60).
  They are plumbing; the verify token is a parameter of `Webhook.Verify`.
- Fetching the feed and parsing its JSON (index.js:175-180). The feed is an input sequence.
- The Send API call and its logging (`callSendAPI`, index.js:119-145). This is foreign I/O; the
  model stops at the reply handed to it.
- Asynchronous sequencing in the handlers (index.js:85-116). Each handler is reduced to its start
  cursor and one pager run.
- JavaScript's string-to-number coercion of a postback payload through `counter++`. The payload is
  an integer cursor.
- JavaScript numbers are modelled as integers: no NaN and no fractions.
- Objects and arrays are one opaque truthy value. JavaScript compares them by identity; that never
  matters here, because they are only compared with strings or `undefined`.
- What Express sends after an exception escapes the POST handler (`HttpResult.Threw`).
- The source loop is unbounded. `Pager.CallChatbotApi`, `Pager.Run` and `Webhook.Handle` take an
  iteration bound `fuel`; running out of it stands for the loop not having ended yet.
- The reply is a value. The source's in-place mutation of a freshly built response object is
  therefore not modelled as mutation.
