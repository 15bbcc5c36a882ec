# Tool-call webhook handler of vapi-webhook, in Dafny

This project models the webhook handler in `api/vapi/events.js`. The
voice-assistant platform sends tool calls to this handler. The handler:

1. acknowledges every request that is not a `POST` with `200 {ok: true}`;
2. reads the body as `req.body || {}`, and acknowledges the same way unless
   the body's `type` is the string `"tool-call"` and its `toolCall` is truthy;
3. destructures `id`, `name` and `arguments` from `toolCall` and switches on
   `name`:
   - `create_ticket` gives `{ticket_id: "TCK-" + last six characters of Date.now()}`;
   - `page_oncall` gives `{status: "sent"}`;
   - anything else gives `{ok: true}`;
4. answers `200 {toolCallId, result}`.

The model is pure, like the handler. It has three modules:

- `Json` (`json.dfy`): decoded JSON values and the JavaScript rules the
  handler relies on. These are truthiness, `a || b`, and property access,
  which yields `undefined` (`None`) for a missing key or a non-object.
- `Decimal` (`decimal.dfy`): `Number.prototype.toString()` for natural
  numbers (`NatToDecimal`), `String.prototype.slice(-k)` (`TakeLast`), and
  the number a digit string denotes (`Value`). Lemmas show that `NatToDecimal`
  and `Value` are inverse bijections between naturals and canonical digit
  strings, and relate the number of digits and the last k digits to the number.
- `Events` (`events.dfy`): `Handle(httpMethod, reqBody, nowMs)`, which returns
  `Response(status, body)`, and the lemmas about it. `req.method` is
  `httpMethod`. `req.body` is `reqBody`, with `None` for `undefined`.
  `Date.now()` is `nowMs`.

`res.json` serialises the reply object. JSON serialisation drops a property
whose value is `undefined`. So when the tool call has no `id`, the reply body
has only a `result` key. `Reply` models this and `ReplyEchoesId` states it.

The code differs from the repository's broader description in several ways.
Where they differ, the model follows the code. The code has no 405 or 400
responses and no `OPTIONS` handling. It has no batch `message.toolCalls` form,
no `Unknown tool` error result, no argument parsing, no ticket record and no
persistence. An unknown tool name gets `{ok: true}`.

## Model

| member | source | states |
|---|---|---|
| Events.Handle | api/vapi/events.js:3-38 | Every response has status 200. A non-POST request is acknowledged with `{ok: true}`. A response is that acknowledgement exactly when the request is not a POST or its defaulted body fails the envelope check. |
| Events.NonPostIgnoresBody | api/vapi/events.js:5-7 | For a non-POST method the response is the acknowledgement, whatever the body and the clock. |
| Events.MissingBodyAcknowledged | api/vapi/events.js:10-13 | A POST whose body is `undefined` or falsy is read as `{}` and acknowledged. |
| Events.WrongEnvelopeAcknowledged | api/vapi/events.js:11-13 | A POST whose `type` is not the string `"tool-call"`, or whose `toolCall` is missing or falsy, is acknowledged. |
| Events.ReplyEchoesId | api/vapi/events.js:16-37 | A recognised tool call's reply has exactly the keys `result` and, when the call has an `id`, `toolCallId`. `toolCallId` equals `toolCall.id` unchanged. |
| Events.CreateTicketResult | api/vapi/events.js:21-24 | For `create_ticket` the result is `{ticket_id: TicketId(nowMs)}` and has no other field. |
| Events.PageOncallResult | api/vapi/events.js:26-29 | For `page_oncall` the result is `{status: "sent"}`, whatever the arguments. |
| Events.OtherToolResult | api/vapi/events.js:31-33 | Any other name, including a non-string or absent one, gets the result `{ok: true}`, not an error. |
| Events.ResultDependsOnlyOnName | api/vapi/events.js:16-34 | Two recognised tool calls with the same `name` get the same result at the same clock reading. |
| Events.ArgumentsIgnored | api/vapi/events.js:16-34 | Giving a tool call any `arguments` value leaves the whole response unchanged compared with giving it none. |
| Events.ClockOnlyForTickets | api/vapi/events.js:20-34 | A request that is not a `create_ticket` call gets the same response at every clock reading. |
| Events.TicketSuffixValue | api/vapi/events.js:23 | The digits kept by `slice(-6)` denote the clock reading modulo 10^6. |
| Events.TicketIdFormat | api/vapi/events.js:23 | A ticket id starts with `"TCK-"` and is followed only by decimal digits. Its length is between 5 and 10, and it is 10 exactly when `nowMs >= 100000`. Its digits denote `nowMs mod 10^6`. |
| Events.TicketIdCollision | api/vapi/events.js:23 | Equal ticket ids imply clock readings equal modulo 10^6. From 100000 on, readings equal modulo 10^6 give equal ids, so ids are not unique. |
| Decimal.NatToDecimal | api/vapi/events.js:23 | `toString()` of a natural is a non-empty string of decimal digits with no leading zero, except for "0". |
| Decimal.TakeLast | api/vapi/events.js:23 | `slice(-k)` has length `min(|s|, k)` and is a suffix of `s`. |
| Decimal.ValueOfDecimal | api/vapi/events.js:23 | Reading back the rendering of `n` gives `n`. |
| Decimal.DecimalOfValue | api/vapi/events.js:23 | Rendering the number denoted by a canonical digit string gives that string back. |
| Decimal.DecimalLength | api/vapi/events.js:23 | For `k >= 1`, the rendering of `n` has more than `k` digits exactly when `n >= 10^k`. |

## Left out

- `api/vapi/test.js`: a diagnostic endpoint. It only reports environment-variable presence, the request's host and the current time.
- The HTTP framework: the `req` and `res` objects, `status().json()` chaining and the decoding of the request body. The body is an already-decoded value, and the response is a returned value.
- `Date.now()` as a real clock. It is the parameter `nowMs`. The model does not capture time passing or uniqueness.
- The `async` marker on the handler. Nothing is awaited, so there is nothing concurrent to model.
- Decimal.NatToDecimal: does not model JavaScript's exponent notation for numbers of 10^21 and above, because `Date.now()` never exceeds 8.64 * 10^15.
- JSON numbers are finite reals, so NaN, the infinities and negative zero cannot be written. JSON decoding cannot produce NaN. A `-0` value is falsy in JavaScript, and this model treats it as `0.0`, which is also falsy, so the outcome is the same.
- Events.ReplyEchoesId: does not cover a decoded infinite number, which JSON decoding makes of an overflowing literal such as `1e999`. As a `toolCall.id` it would be serialised as `null`, not echoed. It also does not cover strings holding unpaired UTF-16 surrogates, which Dafny's `char` cannot hold.
- Property access covers only the keys the handler reads (`type`, `toolCall`, `id`, `name`, `arguments`). Values that are not objects have no such property, own or inherited, so the access yields `undefined`.
