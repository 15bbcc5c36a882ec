/**
 * The tool-call webhook handler of api/vapi/events.js: a method gate, a check
 * of the singular `tool-call` envelope, and a dispatch on the tool's name.
 * The request is its method and its already-decoded body; `Date.now()` is the
 * parameter `nowMs`; what `res.status(..).json(..)` sends is the returned
 * `Response`.
 */
module Events {
  import opened Json
  import opened Decimal

  /** The status code and the JSON body the handler sends. */
  datatype Response = Response(status: int, body: Json)

  /** `{ ok: true }`, the body of every acknowledgement and of the default tool result. */
  const OkTrue: Json := JObject(map["ok" := JBool(true)])

  /** The reply to anything that is not a recognised tool call. */
  const Acknowledgement: Response := Response(200, OkTrue)

  const TicketPrefix: string := "TCK-"

  /** How many trailing digits of the clock reading a ticket id keeps (`slice(-6)`). */
  const TicketDigits: nat := 6

  /** `req.body || {}`: a missing or falsy body reads as the empty object. */
  function RequestBody(reqBody: Option<Json>): Json {
    Or(reqBody, EmptyObject)
  }

  /** The one envelope the handler accepts: `type === "tool-call"` and a truthy `toolCall`. */
  predicate IsToolCallEnvelope(body: Json) {
    Get(body, "type") == Some(JString("tool-call")) && TruthyOrUndefined(Get(body, "toolCall"))
  }

  /** The `toolCall` value of a POST body that passes the envelope check, if it does. */
  function RequestToolCall(reqBody: Option<Json>): Option<Json> {
    var body := RequestBody(reqBody);
    if IsToolCallEnvelope(body) then Get(body, "toolCall") else None
  }

  /** `"TCK-"` followed by the last six characters of `nowMs.toString()`. */
  function TicketId(nowMs: nat): string {
    TicketPrefix + TakeLast(NatToDecimal(nowMs), TicketDigits)
  }

  /** The `switch (name)`: `name` is `undefined` when the tool call has none. */
  function ToolResult(name: Option<Json>, nowMs: nat): Json {
    match name
    case Some(JString("create_ticket")) => JObject(map["ticket_id" := JString(TicketId(nowMs))])
    case Some(JString("page_oncall")) => JObject(map["status" := JString("sent")])
    case _ => OkTrue
  }

  /**
   * The JSON text of `{ toolCallId, result }`: JSON serialisation leaves out
   * a property whose value is `undefined`, so without an id there is no
   * `toolCallId` key.
   */
  function Reply(toolCallId: Option<Json>, result: Json): (r: Json)
    ensures r.JObject? && "result" in r.fields && r.fields["result"] == result
  {
    match toolCallId
    case Some(id) => JObject(map["toolCallId" := id, "result" := result])
    case None => JObject(map["result" := result])
  }

  /** The handler: `httpMethod` is `req.method`, `reqBody` is `req.body`, `nowMs` is `Date.now()`. */
  function Handle(httpMethod: string, reqBody: Option<Json>, nowMs: nat): (r: Response)
    ensures r.status == 200
    ensures httpMethod != "POST" ==> r == Acknowledgement
    ensures r == Acknowledgement <==> httpMethod != "POST" || RequestToolCall(reqBody).None?
  {
    if httpMethod != "POST" then
      Acknowledgement
    else
      var body := RequestBody(reqBody);
      if !IsToolCallEnvelope(body) then
        Acknowledgement
      else
        var toolCall := Get(body, "toolCall").value;
        var toolCallId := Get(toolCall, "id");
        var name := Get(toolCall, "name");
        // `arguments: args = {}` is destructured as well, but never read.
        Response(200, Reply(toolCallId, ToolResult(name, nowMs)))
  }

  /** The `result` member of a response body, if it has one. */
  function ResultOf(r: Response): Option<Json> {
    Get(r.body, "result")
  }

  /** A request that is not a POST is acknowledged whatever its body and whenever it arrives. */
  lemma NonPostIgnoresBody(httpMethod: string, reqBody: Option<Json>, reqBody': Option<Json>, nowMs: nat, nowMs': nat)
    requires httpMethod != "POST"
    ensures Handle(httpMethod, reqBody, nowMs) == Handle(httpMethod, reqBody', nowMs') == Acknowledgement
  {
  }

  /** A POST whose body is missing or falsy is treated as `{}` and acknowledged. */
  lemma MissingBodyAcknowledged(reqBody: Option<Json>, nowMs: nat)
    requires !TruthyOrUndefined(reqBody)
    ensures Handle("POST", reqBody, nowMs) == Acknowledgement
  {
  }

  /**
   * A POST whose body has a `type` other than the string "tool-call", or a
   * missing or falsy `toolCall`, is acknowledged.
   */
  lemma WrongEnvelopeAcknowledged(body: Json, nowMs: nat)
    requires Get(body, "type") != Some(JString("tool-call")) || !TruthyOrUndefined(Get(body, "toolCall"))
    ensures Handle("POST", Some(body), nowMs) == Acknowledgement
  {
  }

  /**
   * A recognised tool call is answered with exactly `result` and, when the
   * tool call has an `id`, `toolCallId` holding that id unchanged.
   */
  lemma ReplyEchoesId(reqBody: Option<Json>, toolCall: Json, nowMs: nat)
    requires RequestToolCall(reqBody) == Some(toolCall)
    ensures var r := Handle("POST", reqBody, nowMs);
      && r.body.JObject?
      && r.body.fields.Keys == {"result"} + (if Get(toolCall, "id").Some? then {"toolCallId"} else {})
      && Get(r.body, "toolCallId") == Get(toolCall, "id")
  {
  }

  /** `create_ticket` answers with a result whose only field is `ticket_id`, built from the clock. */
  lemma CreateTicketResult(reqBody: Option<Json>, toolCall: Json, nowMs: nat)
    requires RequestToolCall(reqBody) == Some(toolCall)
    requires Get(toolCall, "name") == Some(JString("create_ticket"))
    ensures ResultOf(Handle("POST", reqBody, nowMs)) == Some(JObject(map["ticket_id" := JString(TicketId(nowMs))]))
  {
  }

  /** `page_oncall` answers `{ status: "sent" }`, whatever its arguments. */
  lemma PageOncallResult(reqBody: Option<Json>, toolCall: Json, nowMs: nat)
    requires RequestToolCall(reqBody) == Some(toolCall)
    requires Get(toolCall, "name") == Some(JString("page_oncall"))
    ensures ResultOf(Handle("POST", reqBody, nowMs)) == Some(JObject(map["status" := JString("sent")]))
  {
  }

  /** Any other name, a non-string name or no name at all is answered `{ ok: true }`, not an error. */
  lemma OtherToolResult(reqBody: Option<Json>, toolCall: Json, nowMs: nat)
    requires RequestToolCall(reqBody) == Some(toolCall)
    requires Get(toolCall, "name") != Some(JString("create_ticket"))
    requires Get(toolCall, "name") != Some(JString("page_oncall"))
    ensures ResultOf(Handle("POST", reqBody, nowMs)) == Some(OkTrue)
  {
  }

  /** The result depends on the tool call's name alone (and, through `create_ticket`, on the clock). */
  lemma ResultDependsOnlyOnName(reqBody: Option<Json>, toolCall: Json, reqBody': Option<Json>, toolCall': Json, nowMs: nat)
    requires RequestToolCall(reqBody) == Some(toolCall)
    requires RequestToolCall(reqBody') == Some(toolCall')
    requires Get(toolCall, "name") == Get(toolCall', "name")
    ensures ResultOf(Handle("POST", reqBody, nowMs)) == ResultOf(Handle("POST", reqBody', nowMs))
  {
  }

  /**
   * Whatever `arguments` a tool call carries, the response is the one it
   * gets with no `arguments` at all.
   */
  lemma ArgumentsIgnored(httpMethod: string, outer: map<string, Json>, toolCall: map<string, Json>, args: Json, nowMs: nat)
    ensures var withArgs := JObject(outer["toolCall" := JObject(toolCall["arguments" := args])]);
      var withoutArgs := JObject(outer["toolCall" := JObject(toolCall - {"arguments"})]);
      Handle(httpMethod, Some(withArgs), nowMs) == Handle(httpMethod, Some(withoutArgs), nowMs)
  {
  }

  /** Only `create_ticket` reads the clock. */
  lemma ClockOnlyForTickets(httpMethod: string, reqBody: Option<Json>, nowMs: nat, nowMs': nat)
    requires forall c :: RequestToolCall(reqBody) == Some(c) ==> Get(c, "name") != Some(JString("create_ticket"))
    ensures Handle(httpMethod, reqBody, nowMs) == Handle(httpMethod, reqBody, nowMs')
  {
  }

  /** The six characters kept from the clock denote its reading modulo 10^6. */
  lemma TicketSuffixValue(nowMs: nat)
    ensures Value(TakeLast(NatToDecimal(nowMs), TicketDigits)) == nowMs % 1000000
  {
    var digits := NatToDecimal(nowMs);
    ValueOfDecimal(nowMs);
    assert Value(digits) == nowMs;
    if |digits| >= 6 {
      LongTicketSuffixValue(digits);
    } else {
      DecimalLength(nowMs, 5);
      assert Pow10(5) == 100000;
      assert TakeLast(digits, TicketDigits) == digits;
      MillionRemainder(nowMs, 0, nowMs);
    }
  }

  /** The last six digits of a string of at least six digits denote its value modulo 10^6. */
  lemma LongTicketSuffixValue(digits: string)
    requires IsDigits(digits) && |digits| >= 6
    ensures Value(TakeLast(digits, TicketDigits)) == Value(digits) % 1000000
  {
    var suffix := digits[|digits| - 6..];
    assert TakeLast(digits, TicketDigits) == suffix;
    SplitValue(digits, 6);
    ValueBound(suffix);
    MillionIsPow10();
    MillionRemainder(Value(digits), Value(digits[..|digits| - 6]), Value(suffix));
  }

  lemma MillionIsPow10()
    ensures Pow10(6) == 1000000
  {
  }

  /** Dividing high * 10^6 + low by 10^6, for low < 10^6, leaves low. */
  lemma MillionRemainder(x: nat, high: nat, low: nat)
    requires x == high * 1000000 + low && low < 1000000
    ensures x % 1000000 == low
  {
  }

  /**
   * A ticket id is "TCK-" and at most six decimal digits, exactly six once
   * the clock reads 100000 or more; the digits denote the clock reading
   * modulo 10^6.
   */
  lemma TicketIdFormat(nowMs: nat)
    ensures var id := TicketId(nowMs);
      && 5 <= |id| <= 10
      && id[..4] == "TCK-"
      && IsDigits(id[4..])
      && (|id| == 10 <==> nowMs >= 100000)
      && Value(id[4..]) == nowMs % 1000000
  {
    var digits := NatToDecimal(nowMs);
    var id := TicketId(nowMs);
    assert id[..4] == TicketPrefix;
    assert id[4..] == TakeLast(digits, TicketDigits);
    DecimalLength(nowMs, 5);
    assert Pow10(5) == 100000;
    TicketSuffixValue(nowMs);
  }

  /**
   * Ticket ids are not unique: two clock readings give the same id only if
   * they agree modulo 10^6, and from 100000 on they always do then.
   */
  lemma TicketIdCollision(nowMs: nat, nowMs': nat)
    ensures TicketId(nowMs) == TicketId(nowMs') ==> nowMs % 1000000 == nowMs' % 1000000
    ensures nowMs >= 100000 && nowMs' >= 100000 && nowMs % 1000000 == nowMs' % 1000000
      ==> TicketId(nowMs) == TicketId(nowMs')
  {
    TicketIdFormat(nowMs);
    TicketIdFormat(nowMs');
    var id, id' := TicketId(nowMs), TicketId(nowMs');
    if nowMs >= 100000 && nowMs' >= 100000 && nowMs % 1000000 == nowMs' % 1000000 {
      ValueInjective(id[4..], id'[4..]);
      assert id == id[..4] + id[4..] && id' == id'[..4] + id'[4..];
    }
  }
}
