/**
 * How a chat page reads the answer of `/api/llm-next` in `callLlmNext`
 * (page.tsx and biera/app/page.tsx): a failed fetch, a body that is not JSON
 * and a non-ok status all become a failure with a message; otherwise the parsed
 * body is read as `LlmNext` without any check of its shape.
 *
 * `parse` and `stringify` stand for `JSON.parse` and `JSON.stringify`;
 * `asBrief` and `asText` give what `out.brief` and a `out.question` that is not
 * a string come to, with `None` for `undefined`.
 */
module LlmClient {
  import opened JsString
  import opened ChatTypes
  import opened Interview
  import LlmRoute

  type Json = LlmRoute.Json

  /** What `fetch` and `res.text()` give: a thrown error, or the status and the text of the body. */
  datatype Reply = FetchFailed(message: string) | Received(ok: bool, status: nat, raw: string)

  const NonJsonPrefix: string := "Non-JSON from /api/llm-next"
  const RawShown: nat := 140

  /** `raw.slice(0, 140)` */
  function Head(raw: string): (r: string)
    ensures |r| == if |raw| < RawShown then |raw| else RawShown
    ensures r == raw[..|r|]
  {
    if |raw| < RawShown then raw else raw[..RawShown]
  }

  /** The message page.tsx throws for a body that is not JSON. */
  function PageNonJson(status: nat, raw: string): string {
    NonJsonPrefix + " (status " + NatToString(status) + "): " + Head(raw)
  }

  /** The message biera/app/page.tsx throws for a body that is not JSON. */
  function BieraNonJson(): string {
    NonJsonPrefix
  }

  /** JavaScript truthiness of a JSON value; `undefined` is `None`. */
  predicate Truthy(v: Option<Json>) {
    match v
    case None => false
    case Some(j) =>
      match j
      case JNull => false
      case JBool(b) => b
      case JNum(n) => n != 0
      case JStr(s) => s != []
      case JArr(_) => true
      case JObj(_) => true
  }

  /**
   * The outcome `callLlmNext` applies. `nonJson` is the page's message for a
   * body that is not JSON, `typeError` the message of reading `out.done` on
   * a `null` body.
   */
  function OutcomeOf(reply: Reply, nonJson: string, parse: string -> LlmRoute.Parse, stringify: Json -> string,
                     asBrief: Option<Json> -> Brief, asText: Option<Json> -> string, typeError: string): (r: Outcome)
    ensures !r.Failure? ==> reply.Received? && reply.ok && parse(reply.raw).Parsed? && parse(reply.raw).value != LlmRoute.JNull
    ensures r.Done? <==> reply.Received? && reply.ok && parse(reply.raw).Parsed? && Truthy(LlmRoute.Member(parse(reply.raw).value, "done"))
  {
    match reply
    case FetchFailed(m) => Failure(m)
    case Received(ok, status, raw) =>
      match parse(raw)
      case Unparsable(_) => Failure(nonJson)
      case Parsed(data) =>
        if !ok then Failure(if data.JStr? then data.s else stringify(data))
        else if data == LlmRoute.JNull then Failure(typeError)
        else if Truthy(LlmRoute.Member(data, "done")) then Done(asBrief(LlmRoute.Member(data, "brief")))
        else
          match LlmRoute.Member(data, "question")
          case Some(JStr(q)) => Question(q)
          case q => Question(asText(q))
  }

  /**
   * Every way the answer can go wrong ends in a failure: a failed fetch with its
   * message, a body that is not JSON with the page's message, a non-ok status
   * with the body's text, a `null` body with the TypeError's message. An ok
   * object body ends the interview exactly when its `done` is truthy, and a
   * string question is asked as it is.
   */
  lemma OutcomeCases(reply: Reply, nonJson: string, parse: string -> LlmRoute.Parse, stringify: Json -> string,
                     asBrief: Option<Json> -> Brief, asText: Option<Json> -> string, typeError: string)
    ensures var o := OutcomeOf(reply, nonJson, parse, stringify, asBrief, asText, typeError);
      && (reply.FetchFailed? ==> o == Failure(reply.message))
      && (reply.Received? && parse(reply.raw).Unparsable? ==> o == Failure(nonJson))
      && (reply.Received? && parse(reply.raw).Parsed? && !reply.ok ==> o.Failure?)
      && (reply.Received? && parse(reply.raw).Parsed? && !reply.ok && parse(reply.raw).value.JObj? ==>
            o == Failure(stringify(parse(reply.raw).value)))
      && (reply.Received? && reply.ok && parse(reply.raw) == LlmRoute.Parsed(LlmRoute.JNull) ==> o == Failure(typeError))
      && (reply.Received? && reply.ok && parse(reply.raw).Parsed? && parse(reply.raw).value.JObj? ==>
            (o.Done? <==> Truthy(LlmRoute.Member(parse(reply.raw).value, "done"))))
      && (reply.Received? && reply.ok && parse(reply.raw).Parsed? && parse(reply.raw).value.JObj?
          && !Truthy(LlmRoute.Member(parse(reply.raw).value, "done"))
          && LlmRoute.Member(parse(reply.raw).value, "question").Some?
          && LlmRoute.Member(parse(reply.raw).value, "question").value.JStr? ==>
            o == Question(LlmRoute.Member(parse(reply.raw).value, "question").value.s))
  {
  }

  /** The page.tsx message names the status and shows at most the first 140 characters of the body. */
  lemma PageNonJsonShape(status: nat, raw: string)
    ensures var m := PageNonJson(status, raw);
      && m[..|NonJsonPrefix|] == NonJsonPrefix
      && DigitsValue(m[|NonJsonPrefix| + 9..|NonJsonPrefix| + 9 + |NatToString(status)|]) == status
      && m[|m| - |Head(raw)|..] == Head(raw)
      && |Head(raw)| <= RawShown
  {
    PartsOfConcat(NonJsonPrefix, " (status ", NatToString(status), "): ", Head(raw));
    NatToStringRoundTrip(status);
  }

  /** The first, third and last part of a five-part message can be read back by position. */
  lemma PartsOfConcat(a: string, b: string, c: string, d: string, e: string)
    ensures var m := a + b + c + d + e;
      && m[..|a|] == a
      && m[|a| + |b|..|a| + |b| + |c|] == c
      && m[|m| - |e|..] == e
  {
    var m := a + b + c + d + e;
    assert forall k | 0 <= k < |a| :: m[k] == a[k];
    assert forall k | 0 <= k < |c| :: m[|a| + |b| + k] == c[k];
    assert forall k | 0 <= k < |e| :: m[|m| - |e| + k] == e[k];
  }

  /** What the page receives for a response of the route: its status and its JSON text. */
  function ReplyOfResponse(r: LlmRoute.Response, stringify: Json -> string): Reply
    requires r.status >= 0
  {
    Received(200 <= r.status < 300, r.status, stringify(r.body))
  }

  /**
   * End to end, provided the response text reads back as the body: every error
   * of the route reaches the page as a failure carrying the error body's text,
   * and a reply passed on with `done` truthy finishes the interview.
   */
  lemma RouteErrorsReachThePage(apiKey: Option<string>, body: LlmRoute.Parse, stringify: Json -> string,
                                gateway: seq<Json> -> LlmRoute.Upstream, parse: string -> LlmRoute.Parse, typeError: string,
                                nonJson: string, asBrief: Option<Json> -> Brief, asText: Option<Json> -> string, pageTypeError: string)
    requires var r := LlmRoute.Post(apiKey, body, stringify, gateway, parse, typeError);
      parse(stringify(r.body)) == LlmRoute.Parsed(r.body)
    ensures var r := LlmRoute.Post(apiKey, body, stringify, gateway, parse, typeError);
      && (r.status == 200 || r.status == 500)
      && (r.status == 500 ==>
            OutcomeOf(ReplyOfResponse(r, stringify), nonJson, parse, stringify, asBrief, asText, pageTypeError)
              == Failure(stringify(r.body)))
      && (r.status == 200 && Truthy(LlmRoute.Member(r.body, "done")) ==>
            OutcomeOf(ReplyOfResponse(r, stringify), nonJson, parse, stringify, asBrief, asText, pageTypeError)
              == Done(asBrief(LlmRoute.Member(r.body, "brief"))))
  {
  }
}
