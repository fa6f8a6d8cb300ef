/**
 * The `POST` handler of route.ts (`/api/llm-next`): it normalises the posted
 * body, decides whether the interview is forced to end, assembles the prompt
 * for the chat-completion call, and turns the upstream reply into a response.
 *
 * JSON values are a datatype; `JSON.stringify` and `JSON.parse` are parameters
 * (the text they produce or accept is not modelled), and so is the upstream
 * call, which receives the assembled prompt.
 */
module LlmRoute {
  import opened ChatTypes
  import Interview

  /** A JSON value; numbers are integers here. */
  datatype Json = JNull | JBool(b: bool) | JNum(n: int) | JStr(s: string) | JArr(items: seq<Json>) | JObj(fields: map<string, Json>)

  /** The result of reading a JSON text: a value, or the error `JSON.parse` throws. */
  datatype Parse = Parsed(value: Json) | Unparsable(message: string)

  /** What the upstream `fetch` comes to: a thrown error, or a reply with its status and its (parsed) body. */
  datatype Upstream = NetworkError(message: string) | Reply(ok: bool, status: int, data: Parse)

  /** A response of the handler: its HTTP status and JSON body. */
  datatype Response = Response(status: int, body: Json)

  const MaxTurns: int := 10

  const MissingKeyError: string := "Missing OPENROUTER_API_KEY in env"
  const UpstreamFailedError: string := "OpenRouter request failed"
  const EmptyContentError: string := "Empty LLM content"
  const InvalidJsonError: string := "LLM did not return valid JSON"
  const HandlerError: string := "llm-next failed"

  const ContextHeader: string := "Known answers so far (JSON):\n"
  const ContextMiddle: string := "\n\nQuestions already asked (exact strings):\n"
  const ForcedInstruction: string := "We are at max turns. End now and return done:true with the brief."
  const NextInstruction: string := "Return the next best question, or end with done:true and the brief if ready."

  /** The system message, already trimmed. */
  const SystemPrompt: string :=
    "You are an expert merchandise strategist conducting an intake interview to help designers create merch concepts.\n" +
    "\n" +
    "Instructions:\n" +
    "- Start with a greeting and short introduction.\n" +
    "- This is tshirt concept merch for startup founders, and companies in general and their teams.\n" +
    "- Ask only about tshirts, team jackets, and founder wear.\n" +
    "- Ask exactly one question per turn.\n" +
    "- Do not use bullet points or multi-part questions.\n" +
    "- Do not repeat any question already asked.\n" +
    "- Adapt questions based on previous answers and build on them.\n" +
    "- If an answer is vague, ask one clarifying question.\n" +
    "- Slogans/taglines can include punctuation or symbols; that is not gibberish.\n" +
    "- Only flag gibberish if the input is clearly random characters with no readable words.\n" +
    "- Do not end too quickly; gather enough for a premium, designer-ready brief.\n" +
    "\n" +
    "When you end, output VALID JSON using this schema:\n" +
    "\n" +
    "{\n" +
    "  \"summary\": string,\n" +
    "  \"core_design_direction\": string[],\n" +
    "  \"visual_language\": string[],\n" +
    "  \"color_and_typography\": string[],\n" +
    "  \"product_specific_notes\": {\n" +
    "    \"tee\": string[],\n" +
    "    \"team_jacket\": string[],\n" +
    "    \"founder_wear\": string[]\n" +
    "  },\n" +
    "  \"dos\": string[],\n" +
    "  \"donts\": string[],\n" +
    "  \"closing_to_customer\": string\n" +
    "}\n" +
    "\n" +
    "Response format (JSON ONLY):\n" +
    "Either:\n" +
    "{ \"done\": false, \"question\": \"...\" }\n" +
    "or:\n" +
    "{ \"done\": true, \"brief\": { ... } }"

  /** `v.key` where `v?.key` would not throw: the member of an object, `undefined` (None) otherwise. */
  function Member(v: Json, key: string): Option<Json> {
    if v.JObj? && key in v.fields then Some(v.fields[key]) else None
  }

  /** A chat-completion message `{ role, content }`. */
  function MsgJson(role: string, content: string): Json {
    JObj(map["role" := JStr(role), "content" := JStr(content)])
  }

  /** The body after defaulting: what the handler works with. */
  datatype Normalised = Normalised(messages: seq<Json>, answers: Json, askedQuestions: seq<Json>, turn: int)

  /**
   * Lines 44-47: `messages` and `askedQuestions` are kept only when they are
   * arrays, `answers` only when neither null nor undefined, `turn` only when a number.
   * Reading a member of `null` throws, which `None` stands for.
   */
  function Normalise(body: Json): (r: Option<Normalised>)
    ensures r.None? <==> body == JNull
  {
    if body == JNull then None
    else
      var messages := match Member(body, "messages") case Some(JArr(items)) => items case _ => [];
      var answers := match Member(body, "answers") case Some(a) => (if a == JNull then JObj(map[]) else a) case None => JObj(map[]);
      var asked := match Member(body, "askedQuestions") case Some(JArr(items)) => items case _ => [];
      var turn := match Member(body, "turn") case Some(JNum(n)) => n case _ => 0;
      Some(Normalised(messages, answers, asked, turn))
  }

  predicate ForcedDone(turn: int) {
    turn >= MaxTurns
  }

  /** The prompt of lines 96-113: system message, context, the client's messages, the final instruction. */
  function Prompt(b: Normalised, stringify: Json -> string): seq<Json> {
    [MsgJson("system", SystemPrompt),
     MsgJson("user", ContextHeader + stringify(b.answers) + ContextMiddle + stringify(JArr(b.askedQuestions)))]
    + b.messages
    + [MsgJson("user", if ForcedDone(b.turn) then ForcedInstruction else NextInstruction)]
  }

  function ErrorBody(error: string, extra: map<string, Json>): Json {
    JObj(extra["error" := JStr(error)])
  }

  /** `data.choices[0]?.message?.content` when it is a string, else "". `data` is not null. */
  function ContentOf(data: Json): string {
    match Member(data, "choices")
    case Some(JArr(choices)) =>
      if choices == [] then ""
      else (match Member(choices[0], "message")
        case Some(m) => (match Member(m, "content") case Some(JStr(c)) => c case _ => "")
        case None => "")
    case _ => ""
  }

  /**
   * Lines 131-164 and the outer `catch`: from the upstream reply to the response.
   * `typeError` is the message of the TypeError raised by reading a member of
   * `null` (the upstream body, or the parsed reply in `out.done`).
   */
  function Classify(up: Upstream, parse: string -> Parse, typeError: string): (r: Response)
    ensures r.status == 200 || r.status == 500
    ensures r.status == 200 ==> r.body != JNull
    ensures r.status == 500 ==> r.body.JObj? && ErrorOf(r).Some?
  {
    match up
    case NetworkError(m) => Response(500, ErrorBody(HandlerError, map["details" := JStr(m)]))
    case Reply(ok, status, Unparsable(m)) => Response(500, ErrorBody(HandlerError, map["details" := JStr(m)]))
    case Reply(ok, status, Parsed(data)) =>
      if !ok then Response(500, ErrorBody(UpstreamFailedError, map["status" := JNum(status), "data" := data]))
      else if data == JNull then Response(500, ErrorBody(HandlerError, map["details" := JStr(typeError)]))
      else
        var content := ContentOf(data);
        if content == [] then Response(500, ErrorBody(EmptyContentError, map["data" := data]))
        else match parse(content)
          case Unparsable(_) => Response(500, ErrorBody(InvalidJsonError, map["raw" := JStr(content)]))
          case Parsed(out) =>
            if out == JNull then Response(500, ErrorBody(HandlerError, map["details" := JStr(typeError)]))
            else Response(200, out)
  }

  /**
   * `POST`: `apiKey` is `process.env.OPENROUTER_API_KEY`, `body` what `req.json()`
   * gives, `gateway` the OpenRouter call on the assembled prompt.
   */
  function Post(apiKey: Option<string>, body: Parse, stringify: Json -> string, gateway: seq<Json> -> Upstream,
                parse: string -> Parse, typeError: string): (r: Response)
    ensures r.status == 200 || r.status == 500
    ensures r.status == 200 ==> r.body != JNull
    ensures r.status == 500 ==> r.body.JObj? && ErrorOf(r).Some?
  {
    if apiKey.None? || apiKey.value == [] then Response(500, ErrorBody(MissingKeyError, map[]))
    else match body
      case Unparsable(m) => Response(500, ErrorBody(HandlerError, map["details" := JStr(m)]))
      case Parsed(b) =>
        match Normalise(b)
        case None => Response(500, ErrorBody(HandlerError, map["details" := JStr(typeError)]))
        case Some(n) => Classify(gateway(Prompt(n, stringify)), parse, typeError)
  }

  /** The `error` field of a response body, if it has one. */
  function ErrorOf(r: Response): Option<string> {
    match Member(r.body, "error")
    case Some(JStr(e)) => Some(e)
    case _ => None
  }

  // ---- properties ----

  /** Without a key nothing else is looked at: the same 500 for every body and every upstream. */
  lemma MissingKeyComesFirst(apiKey: Option<string>, body: Parse, stringify: Json -> string, gateway: seq<Json> -> Upstream,
                             parse: string -> Parse, typeError: string)
    requires apiKey.None? || apiKey == Some("")
    ensures Post(apiKey, body, stringify, gateway, parse, typeError).status == 500
    ensures ErrorOf(Post(apiKey, body, stringify, gateway, parse, typeError)) == Some(MissingKeyError)
  {
  }

  /** The defaults of lines 44-47, field by field. */
  lemma NormaliseDefaults(body: Json)
    requires body != JNull
    ensures var n := Normalise(body).value;
      && (Member(body, "messages").Some? && Member(body, "messages").value.JArr? ==> n.messages == Member(body, "messages").value.items)
      && (!(Member(body, "messages").Some? && Member(body, "messages").value.JArr?) ==> n.messages == [])
      && (Member(body, "askedQuestions").Some? && Member(body, "askedQuestions").value.JArr? ==> n.askedQuestions == Member(body, "askedQuestions").value.items)
      && (!(Member(body, "askedQuestions").Some? && Member(body, "askedQuestions").value.JArr?) ==> n.askedQuestions == [])
      && (Member(body, "answers").None? || Member(body, "answers") == Some(JNull) ==> n.answers == JObj(map[]))
      && (Member(body, "answers").Some? && Member(body, "answers") != Some(JNull) ==> n.answers == Member(body, "answers").value)
      && (Member(body, "turn").Some? && Member(body, "turn").value.JNum? ==> n.turn == Member(body, "turn").value.n)
      && (!(Member(body, "turn").Some? && Member(body, "turn").value.JNum?) ==> n.turn == 0)
  {
  }

  /**
   * The prompt has the client's messages in their order between the two context
   * messages and the final instruction, so it is three longer; the instruction
   * tells the model to end exactly when the turn has reached 10.
   */
  lemma PromptShape(b: Normalised, stringify: Json -> string)
    ensures var p := Prompt(b, stringify);
      && |p| == |b.messages| + 3
      && p[0] == MsgJson("system", SystemPrompt)
      && Member(p[1], "role") == Some(JStr("user"))
      && p[2..|p| - 1] == b.messages
      && (p[|p| - 1] == MsgJson("user", ForcedInstruction) <==> b.turn >= 10)
      && (p[|p| - 1] == MsgJson("user", NextInstruction) <==> b.turn < 10)
  {
    var p := Prompt(b, stringify);
    assert p[2..|p| - 1] == b.messages;
    assert ForcedInstruction != NextInstruction by {
      assert |ForcedInstruction| != |NextInstruction|;
    }
    var last := p[|p| - 1];
    var chosen := if ForcedDone(b.turn) then ForcedInstruction else NextInstruction;
    assert last == MsgJson("user", chosen);
    assert last.fields["content"] == JStr(chosen);
    assert MsgJson("user", ForcedInstruction).fields["content"] == JStr(ForcedInstruction);
    assert MsgJson("user", NextInstruction).fields["content"] == JStr(NextInstruction);
  }

  /**
   * The reply is passed on unchanged exactly when the upstream call succeeded,
   * its content is a non-empty string and parses to something other than null;
   * no check of the done/question/brief shape is made. Every other path is a 500
   * that names what went wrong.
   */
  lemma ClassifyOutcomes(up: Upstream, parse: string -> Parse, typeError: string)
    ensures var r := Classify(up, parse, typeError);
      && (r.status == 200 <==>
            up.Reply? && up.ok && up.data.Parsed? && up.data.value != JNull && ContentOf(up.data.value) != []
            && parse(ContentOf(up.data.value)).Parsed? && parse(ContentOf(up.data.value)).value != JNull)
      && (r.status == 200 ==> r.body == parse(ContentOf(up.data.value)).value)
      && (r.status != 200 ==>
            (r.status == 500 && ErrorOf(r).Some?
             && ErrorOf(r).value in {UpstreamFailedError, EmptyContentError, InvalidJsonError, HandlerError}))
      && (up.Reply? && !up.ok && up.data.Parsed? ==> ErrorOf(r) == Some(UpstreamFailedError))
      && (up.Reply? && up.ok && up.data.Parsed? && up.data.value != JNull && ContentOf(up.data.value) == [] ==>
            ErrorOf(r) == Some(EmptyContentError))
      && ((up.Reply? && up.ok && up.data.Parsed? && up.data.value != JNull && ContentOf(up.data.value) != []
            && parse(ContentOf(up.data.value)).Unparsable?) ==> ErrorOf(r) == Some(InvalidJsonError))
  {
  }

  // ---- the client's request, as posted ----

  function ApiRoleName(r: ApiRole): string {
    match r
    case ApiSystem => "system"
    case ApiUser => "user"
    case ApiAssistant => "assistant"
  }

  function ApiMsgJson(m: ApiMsg): Json {
    MsgJson(ApiRoleName(m.role), m.content)
  }

  function StringsJson(s: seq<string>): (r: seq<Json>)
    ensures |r| == |s| && forall i | 0 <= i < |s| :: r[i] == JStr(s[i])
  {
    seq(|s|, i requires 0 <= i < |s| => JStr(s[i]))
  }

  /** The body a chat page posts: `JSON.stringify` of the request, as `req.json()` reads it back. */
  function RequestJson(req: Interview.Request): Json {
    JObj(map[
      "messages" := JArr(seq(|req.messages|, i requires 0 <= i < |req.messages| => ApiMsgJson(req.messages[i]))),
      "answers" := JObj(map k | k in req.answers :: JStr(req.answers[k])),
      "turn" := JNum(req.turn),
      "askedQuestions" := JArr(StringsJson(req.askedQuestions))])
  }

  /**
   * A request posted by a chat page keeps all it carries through the defaults:
   * its messages are forwarded in order, its questions are listed, and the
   * interview is forced to end exactly when its turn has reached 10.
   */
  lemma PageRequestIsKept(req: Interview.Request, stringify: Json -> string)
    ensures Normalise(RequestJson(req)).Some?
    ensures var n := Normalise(RequestJson(req)).value;
      && |n.messages| == |req.messages|
      && (forall i | 0 <= i < |req.messages| :: n.messages[i] == ApiMsgJson(req.messages[i]))
      && n.askedQuestions == StringsJson(req.askedQuestions)
      && n.turn == req.turn
      && (ForcedDone(n.turn) <==> req.turn >= 10)
      && |Prompt(n, stringify)| == |req.messages| + 3
  {
  }
}
