/**
 * The interview turn engine shared by the two chat pages (page.tsx and
 * biera/app/page.tsx): what one accepted send records, what the request to
 * `/api/llm-next` carries, and how each gateway outcome lands in the transcript.
 *
 * A send runs in two parts. The synchronous part, up to the `await fetch`,
 * appends the user message, bumps the turn, records the answer and raises
 * `loading`. The settle part applies the gateway outcome. The request is built
 * from the snapshot the handler rendered with, so it holds the transcript as it
 * was before the send; the outcome's message is appended through a functional
 * update, so it lands after the user message.
 */
module Interview {
  import opened JsString
  import opened ChatTypes
  import opened ChatUtils

  const Greeting: string := "Hey I'm Hazel\U{1F44B}, Haze's virtual assistant. Tell me about your company and what this merch is for."
  const DoneNotice: string := "Done. Here is the brief."
  const FailurePrefix: string := "Something broke: "

  /**
   * What one call of `/api/llm-next` comes to: the next question, the finished
   * brief, or a failure with its message (a network error, a body that is not
   * JSON, a non-ok status).
   */
  datatype Outcome = Question(q: string) | Done(brief: Brief) | Failure(msg: string)

  /** The JSON body the page posts to `/api/llm-next`. */
  datatype Request = Request(messages: seq<ApiMsg>, answers: map<string, string>, turn: nat, askedQuestions: seq<string>)

  /** The interview state a chat page keeps. */
  datatype Chat = Chat(
    messages: seq<ChatMsg>,
    answers: map<string, string>,
    asked: seq<string>,
    companyName: string,
    turn: nat,
    loading: bool,
    done: bool,
    brief: Option<Brief>,
    error: Option<string>)

  /** The guard both pages start `onSend` with: an empty input, a pending call or a finished interview. */
  predicate Ignores(c: Chat, input: string) {
    Trim(input) == [] || c.loading || c.done
  }

  /** The text of the last assistant message, as `[...messages].reverse().find(...)?.text` finds it. */
  function LastAssistantText(msgs: seq<ChatMsg>): (r: Option<string>)
    ensures r.None? <==> forall i | 0 <= i < |msgs| :: msgs[i].role != Assistant
    ensures r.Some? ==> exists i | 0 <= i < |msgs| ::
              msgs[i] == ChatMsg(Assistant, r.value) && forall j | i < j < |msgs| :: msgs[j].role != Assistant
    decreases |msgs|
  {
    if msgs == [] then None
    else if msgs[|msgs| - 1].role == Assistant then Some(msgs[|msgs| - 1].text)
    else
      var r := LastAssistantText(msgs[..|msgs| - 1]);
      assert forall i | 0 <= i < |msgs| - 1 :: msgs[..|msgs| - 1][i] == msgs[i];
      r
  }

  /** The key the answer is stored under: the last assistant text, or the page's fallback. */
  function AnswerKey(msgs: seq<ChatMsg>, fallback: string): string {
    match LastAssistantText(msgs)
    case Some(t) => t
    case None => fallback
  }

  /**
   * A company-name extractor. The pages call `extractCompanyNameSoft`; the
   * steps below take the extractor as an argument, so what they state holds
   * whatever it returns.
   */
  type Extractor = string -> Option<string>

  /**
   * The company name after a send: extracted from the user text while it is
   * still empty. An empty result is falsy in `if (maybe)`, which leaves the
   * name empty, as taking it would.
   */
  function CaptureCompany(name: string, userText: string, extract: Extractor): (r: string)
    ensures name != [] ==> r == name
    ensures name == [] && r != [] ==> extract(userText) == Some(r)
    ensures name == [] && r == [] ==> extract(userText).None? || extract(userText) == Some([])
  {
    if name == [] then
      match extract(userText)
      case Some(n) => n
      case None => name
    else name
  }

  /**
   * With `extractCompanyNameSoft`, an empty name stays empty exactly when no
   * name is found in the user text, and a captured name is trimmed.
   */
  lemma SoftCapture(userText: string)
    ensures CaptureCompany([], userText, ExtractCompanyNameSoft) == [] <==> ExtractCompanyNameSoft(userText).None?
    ensures IsTrimmed(CaptureCompany([], userText, ExtractCompanyNameSoft))
  {
  }

  /** The synchronous part of an accepted send; `base` is the transcript the user message is appended to. */
  function Record(c: Chat, userText: string, base: seq<ChatMsg>, fallback: string, extract: Extractor): Chat {
    c.(messages := base + [ChatMsg(User, userText)],
       answers := c.answers[AnswerKey(c.messages, fallback) := userText],
       companyName := CaptureCompany(c.companyName, userText, extract),
       turn := c.turn + 1,
       loading := true,
       error := None)
  }

  /** The request an accepted send posts: built from the pre-send snapshot `c`. */
  function Outgoing(c: Chat, userText: string, fallback: string): Request {
    Request(ToApiMessages(c.messages), c.answers[AnswerKey(c.messages, fallback) := userText], c.turn + 1, c.asked)
  }

  /** The assistant text each outcome appends. */
  function ReplyText(o: Outcome): string {
    match o
    case Question(q) => q
    case Done(_) => DoneNotice
    case Failure(m) => FailurePrefix + m
  }

  /** The settle part: apply the outcome, then `finally` lowers `loading`. */
  function Settle(c: Chat, o: Outcome): Chat {
    var c' := c.(messages := c.messages + [ChatMsg(Assistant, ReplyText(o))], loading := false);
    match o
    case Question(q) => c'.(asked := c.asked + [q])
    case Done(b) => c'.(done := true, brief := Some(b))
    case Failure(m) => c'.(error := Some(m))
  }

  /** The texts of the assistant messages of a transcript. */
  function AssistantTexts(msgs: seq<ChatMsg>): set<string> {
    set i | 0 <= i < |msgs| && msgs[i].role == Assistant :: msgs[i].text
  }

  /**
   * The shape a started interview keeps: the greeting first, then user and
   * assistant messages alternating, one pair per turn (the last reply missing
   * while a call is pending); answers are keyed by assistant texts; every asked
   * question was shown; `done` goes with a stored brief; a pending call has no
   * error and no brief.
   */
  predicate Consistent(c: Chat) {
    && |c.messages| == 2 * c.turn + (if c.loading then 0 else 1)
    && (c.loading ==> c.turn >= 1)
    && c.messages[0] == ChatMsg(Assistant, Greeting)
    && (forall i | 0 <= i < |c.messages| :: c.messages[i].role == (if i % 2 == 0 then Assistant else User))
    && c.answers.Keys <= AssistantTexts(c.messages)
    && (forall k | 0 <= k < |c.asked| :: c.asked[k] in AssistantTexts(c.messages))
    && |c.asked| + (if c.loading then 1 else 0) <= c.turn
    && (c.done <==> c.brief.Some?)
    && (c.loading ==> !c.done && c.error.None?)
  }

  lemma AssistantTextsAppend(msgs: seq<ChatMsg>, m: ChatMsg)
    ensures AssistantTexts(msgs + [m]) == AssistantTexts(msgs) + (if m.role == Assistant then {m.text} else {})
  {
    var l := msgs + [m];
    assert forall i | 0 <= i < |msgs| :: l[i] == msgs[i];
    assert l[|msgs|] == m;
  }

  /**
   * In a consistent transcript with no pending call, the last message is the
   * assistant's, and its text is the answer key (message texts are always
   * strings here, so the fallback is not reached).
   */
  lemma AnswerKeyIsLastMessage(c: Chat, fallback: string)
    requires Consistent(c) && !c.loading
    ensures c.messages[|c.messages| - 1].role == Assistant
    ensures AnswerKey(c.messages, fallback) == c.messages[|c.messages| - 1].text
  {
    assert (|c.messages| - 1) % 2 == 0;
  }

  /** An accepted send keeps the shape, whatever the fallback key. */
  lemma RecordPreserves(c: Chat, userText: string, fallback: string, extract: Extractor)
    requires Consistent(c) && !c.loading && !c.done
    ensures Consistent(Record(c, userText, c.messages, fallback, extract))
  {
    var r := Record(c, userText, c.messages, fallback, extract);
    AnswerKeyIsLastMessage(c, fallback);
    AssistantTextsAppend(c.messages, ChatMsg(User, userText));
    var n := |c.messages| - 1;
    assert c.messages[n].text in AssistantTexts(c.messages);
    assert r.messages[0] == c.messages[0];
    forall i | 0 <= i < |r.messages| ensures r.messages[i].role == (if i % 2 == 0 then Assistant else User) {
      if i < |c.messages| {
        assert r.messages[i] == c.messages[i];
      }
    }
  }

  /** Settling a pending call keeps the shape, whatever the outcome. */
  lemma SettlePreserves(c: Chat, o: Outcome)
    requires Consistent(c) && c.loading
    ensures Consistent(Settle(c, o))
  {
    var r := Settle(c, o);
    AssistantTextsAppend(c.messages, ChatMsg(Assistant, ReplyText(o)));
    assert r.messages[0] == c.messages[0];
    forall i | 0 <= i < |r.messages| ensures r.messages[i].role == (if i % 2 == 0 then Assistant else User) {
      if i < |c.messages| {
        assert r.messages[i] == c.messages[i];
      }
    }
    if o.Question? {
      forall k | 0 <= k < |r.asked| ensures r.asked[k] in AssistantTexts(r.messages) {
        if k < |c.asked| {
          assert r.asked[k] == c.asked[k];
        } else {
          assert r.asked[k] == o.q;
        }
      }
    }
  }

  /**
   * Each outcome appends exactly one assistant message after the user message
   * and ends the pending call; a question is also remembered as asked, a brief
   * ends the interview, a failure sets the error. The turn, the answers and the
   * company name stay as the send left them: a failed turn is not rolled back.
   */
  lemma SettleOutcome(c: Chat, o: Outcome)
    ensures Settle(c, o).messages == c.messages + [ChatMsg(Assistant, ReplyText(o))]
    ensures !Settle(c, o).loading
    ensures Settle(c, o).turn == c.turn && Settle(c, o).answers == c.answers && Settle(c, o).companyName == c.companyName
    ensures Settle(c, o).asked == (if o.Question? then c.asked + [o.q] else c.asked)
    ensures Settle(c, o).done <==> c.done || o.Done?
    ensures o.Done? ==> Settle(c, o).brief == Some(o.brief)
    ensures Settle(c, o).error == (if o.Failure? then Some(o.msg) else c.error)
  {
  }

  /**
   * What an accepted send records: the turn goes up by one, the user message is
   * appended to `base`, only the answer under `key` is added or replaced, the
   * company name is captured only while empty, and a call is pending with no error.
   */
  lemma RecordEffect(c: Chat, userText: string, base: seq<ChatMsg>, fallback: string, extract: Extractor)
    ensures var r := Record(c, userText, base, fallback, extract);
      && r.turn == c.turn + 1
      && r.messages == base + [ChatMsg(User, userText)]
      && r.loading && r.error.None?
      && r.asked == c.asked && r.done == c.done && r.brief == c.brief
      && var key := AnswerKey(c.messages, fallback);
         && key in r.answers && r.answers[key] == userText
         && (forall k | k != key :: (k in r.answers <==> k in c.answers) && (k in c.answers ==> r.answers[k] == c.answers[k]))
  {
  }
}
