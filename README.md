# Smart-Advisor relay: report-tag correlation model

A Dafny model of the core of `main.py` of the Smart-Advisor back end. The
back end receives an advisory request from a Telegram mini-app, asks an AI
endpoint for an answer, and, when there is no key or the call fails,
escalates the request to a fixed administrator through the bot: a caption
text, then every attached photo. The caption carries the tag
`USER_ID:<id>`. When the administrator replies to that caption, the tag is
searched for in the replied-to text, and the answer goes back to that id.
That tag is the only link between a request and the later reply.

Modules:

- `Wrappers` (wrappers.dfy): `Option` and `Result`.
- `Decimal` (decimal.dfy): Python's `str(int)` and `int()` on an ASCII digit run, with round trips both ways.
- `Report` (report.dfy): the request record, `", ".join`, the six-line caption, the `data:` photo classification, the ordered deliveries of `notify_admin`, and `NotifyAdmin`, an imperative method over a `Bot` outbox that runs the photo loop.
- `Tag` (tag.dfy): `re.search(r"USER_ID:(\d+)", text or "")` as a leftmost search plus a greedy digit run, and the round trip from caption to id.
- `Relay` (relay.dfy): the `analyze` endpoint decision and the `admin_reply` routing, as functions that return the response and the bot messages.

Network effects are reduced to an ordered list of `(chat id, payload)` messages. `ADMIN_ID` and `AI_API_KEY` are parameters.

On success, `main.py` returns the AI body unchanged
(`{"success": True, "result": data}`). It does not extract bullet-line
suggestions from the answer, so the model does not either.

## Model

| member | source | states |
|---|---|---|
| Decimal.NatToDecimal | main.py:73 | `str(n)` of a non-negative id is a non-empty string of digits with no leading zero |
| Decimal.IntToStr | main.py:73 | `str(n)` starts with a digit exactly when `n >= 0`; for `n >= 0` it is all digits and reads back as `n`; for a negative id it is `-` followed by digits that read back as `-n` |
| Decimal.DigitsValueOfDecimal | main.py:104 | `int(str(n)) == n` for every non-negative `n` |
| Decimal.DecimalOfDigitsValue | main.py:104 | a canonical digit string is returned unchanged by `str(int(s))` |
| Decimal.DigitsValuePositive | main.py:104 | a digit run that starts with a non-zero digit parses to a positive value |
| Report.Join | main.py:75 | `sep.join(parts)` is as long as the parts plus one separator between each neighbouring pair |
| Report.JoinConcat | main.py:75 | joining `a + b` is joining `a`, one separator, then joining `b`, so the problems keep their list order |
| Report.Caption | main.py:71-78 | the caption starts with the header and `USER_ID:`, and ends with the reason label followed by the reason |
| Report.CaptionLines | main.py:71-78 | the caption is six lines joined by `\n`: header, `USER_ID:` + `str(user_id)`, product, the problems joined by `", "`, extra info, reason |
| Report.FirstIndex | main.py:83 | the first comma at or after a position, or none when no comma follows it |
| Report.ClassifyPhoto | main.py:81-90 | a reference without `data:` is forwarded as is; a `data:` reference either raises the unpack error or uploads a payload shorter than the reference |
| Report.ClassifyDataReference | main.py:81-83 | for `data:` + header + `,` + payload, where the header has no comma, the upload is exactly the payload, later commas included |
| Report.ClassifyPhotoCases | main.py:81-90 | a non-`data:` reference is forwarded verbatim; a `data:` reference fails with the unpack error exactly when it has no comma; an upload is the tail after the first comma |
| Report.PhotoDelivery | main.py:80-90 | the photo loop sends at most one photo per reference, and exactly one per reference when nothing raised |
| Report.DeliveryHaltsOnError | main.py:80-90 | once a reference raises, no later reference sends anything |
| Report.DeliveryInOrder | main.py:80-90 | with only well-formed references, the i-th photo sent is the i-th reference's classification, to the administrator |
| Report.DeliveryStopsAtFirstError | main.py:80-90 | with the first malformed reference at `k`, exactly the `k` earlier photos are sent, and that reference's error is raised |
| Report.DeliveryFailsIffMalformed | main.py:81-83 | the loop raises exactly when some reference is a `data:` reference without a comma, and then the error is the unpack error |
| Report.DeliveryStep | main.py:80-90 | one more iteration after a clean prefix either raises that reference's error and sends nothing, or appends its photo |
| Report.DeliveryEndsAt | main.py:80-90 | when the loop stops after `n` references, by raising or by running out, its result is that of those `n` references |
| Report.Notify | main.py:70-90 | a report is the caption plus at most one message per photo reference, and exactly one per reference when nothing raised |
| Report.NotifyOnlyToAdmin | main.py:79-90 | the caption is the first message, and every message of the report goes to the administrator |
| Report.PhotosOnlyToAdmin | main.py:88-90 | every photo send goes to the administrator |
| Report.Bot.constructor | main.py:22 | a fresh bot has sent nothing |
| Report.Bot.SendMessage | main.py:79 | `send_message` appends one text message to the outbox and changes nothing else |
| Report.Bot.SendPhoto | main.py:88-90 | `send_photo` appends one photo message to the outbox and changes nothing else |
| Report.ForwardPhoto | main.py:81-90 | one iteration of the loop: a malformed `data:` reference returns its error and sends nothing; any other appends one photo to the administrator |
| Report.ForwardPhotos | main.py:80-90 | the photo loop appends exactly the sends of `PhotoDelivery` to the outbox, and returns the error that stopped it, if any |
| Report.NotifyAdmin | main.py:70-90 | `notify_admin` appends the caption and then the photo loop's sends to the outbox, and returns the error that stopped the loop, if any |
| Tag.Search | main.py:100 | the leftmost position at or after `from` where `USER_ID:` is followed by a digit, or none when no position matches |
| Tag.RunEnd | main.py:100 | the greedy `\d+` run: every character up to the end is a digit, and the end is the text's end or a non-digit |
| Tag.SearchFinds | main.py:100 | the search returns the first match at or after its start position |
| Tag.RunEndAt | main.py:100 | the greedy run ends at the first non-digit or at the end of the text |
| Tag.RepliedText | main.py:100 | `text or ""`: the replied-to text, or the empty string when the message has none |
| Tag.Extract | main.py:100-104 | a missing text gives not-found, and extraction finds an id exactly when the text matches the pattern somewhere |
| Tag.ExtractFirstTag | main.py:100-104 | the id is the value of the maximal digit run after the first `USER_ID:` that is followed by a digit |
| Tag.ExtractAfterPrefix | main.py:100 | if no match starts inside a prefix, extraction from prefix + rest is extraction from the rest |
| Tag.CaptionRoundTrip | main.py:100-104 | for `user_id >= 0`, extraction from the caption returns `user_id`, whatever the product, problems, extra info and reason hold |
| Tag.NegativeIdSkipsTagLine | main.py:100 | for a negative id the tag line never matches, so extraction sees only the lines after it |
| Tag.NegativeIdUsesProductTag | main.py:100-104 | for a negative id, a product text `USER_ID:<k>` routes the reply to `k` |
| Relay.KeyConfigured | main.py:47 | `if AI_KEY:` holds only for a set key, and never for the empty string |
| Relay.Escalate | main.py:60-67 | escalation never succeeds and sends exactly `notify_admin`'s report, caption first; it answers `{"success": False}` exactly when the photo loop raised nothing |
| Relay.Analyze | main.py:47-67 | success exactly when a key is set and the call answered, with the body returned unchanged and nothing sent; otherwise the messages sent are exactly `notify_admin`'s report with reason `str(e)` or `NO_API_KEY`, the caption first; every message goes to the administrator |
| Relay.AnalyzeFallback | main.py:58-67 | when no AI answer is returned, the response is `{"success": False}` exactly when every photo reference is well formed; otherwise the unpack error escapes |
| Relay.AnalyzeWithoutKeySkipsCall | main.py:62-64 | without a key the outcome does not depend on the AI call |
| Relay.AdminReplyFilter | main.py:98 | the handler runs only for a reply sent by the administrator |
| Relay.RenderText | main.py:105 | the f-string renders the reply text as is, and a missing text as `None` |
| Relay.AdminReply | main.py:99-106 | one not-found notice to the chat the reply came from when the replied-to text has no tag; else the prefixed answer to the extracted id, followed by one confirmation to the chat the reply came from |
| Relay.ReplyToTextlessMessage | main.py:100-102 | a reply to a message without text gets only the not-found notice |
| Relay.ReplyToCaption | main.py:100-106 | a reply to a caption for a non-negative id sends exactly the prefixed answer to that id, then the confirmation |
| Relay.EscalationRoundTrip | main.py:100-105 | whenever `analyze` escalates, replying to the first message the administrator received sends the answer to the requester |

## Left out

- The AI request itself: the HTTP POST, its body and `Bearer` header, the 20-second timeout, `raise_for_status` and JSON decoding. These are network I/O. The model takes only their outcome (`AiCall`: the body, or `str(e)`).
- aiogram's `Bot`, `Dispatcher` and polling. Sending is an append to `Bot.outbox`, and an incoming update is an `Incoming` value. A send is assumed to succeed; a send that fails and raises is not modelled.
- `m.answer` replies in the chat the message came from. The model uses `Incoming.chat` for that. In a private chat with the bot, that is the administrator's id.
- `base64.b64decode` and the temporary file: an upload carries the base64 text, and the decoded bytes are opaque. A payload that `b64decode` rejects (bad padding) would raise too. This is not modelled, because decoding is a library call. The temporary files are never deleted.
- DeliveryFailsIffMalformed and AnalyzeFallback: their "exactly when" holds only because `b64decode` never fails in the model. In `main.py` a comma-bearing `data:` reference with invalid base64 also raises, so the real condition for raising is wider.
- ReplyToCaption and EscalationRoundTrip: assume the `reply_to_message.text` Telegram delivers is exactly the caption text that was sent. Any change Telegram makes to that text (entity stripping, truncation) is not modelled.
- Environment loading, `int(os.getenv("ADMIN_ID"))`, the FastAPI app and CORS setup, and the request validation by pydantic (a malformed body never reaches `analyze`). This is configuration and framework plumbing.
- The `/start` greeting handler. It is static text. Because it is registered first, it takes a `/start` message even when that message is an administrator's reply.
- The asyncio composition in `main`, which exists for concurrency.
- Tag.Extract: only ASCII digits are treated as digits. Python's `\d` and `int()` also accept other Unicode decimal digits, such as the Persian ۰–۹. The round trip does not depend on this, because `str(user_id)` writes ASCII digits and a newline follows them.
- Tag.Extract: Python refuses to convert more than 4300 digits with `int()`. Telegram limits a message to 4096 characters. Neither limit is modelled.
