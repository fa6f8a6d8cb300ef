/**
 * The interview page of page.tsx: a transcript that starts with the greeting,
 * `onSend` and `callLlmNext`. The answer key falls back to `q<turn>` when the
 * last assistant message has no text; every message of this model has one, so
 * the model never takes that path (a reply without a question does, in the page).
 */
module ChatPage {
  import opened JsString
  import opened ChatTypes
  import opened ChatUtils
  import opened Interview

  /** The fallback answer key `q${nextTurn}`. */
  function FallbackKey(nextTurn: nat): string {
    "q" + NatToString(nextTurn)
  }

  /** The page state before any send. */
  function Initial(): Chat {
    Chat([ChatMsg(Assistant, Greeting)], map[], [], "", 0, false, false, None, None)
  }

  /** The state after the synchronous part of `onSend`, and the request it posts, if any. */
  datatype Sent = Sent(chat: Chat, request: Option<Request>)

  function SendStep(c: Chat, input: string, extract: Extractor): Sent {
    if Ignores(c, input) then Sent(c, None)
    else
      var userText := Trim(input);
      var fallback := FallbackKey(c.turn + 1);
      Sent(Record(c, userText, c.messages, fallback, extract), Some(Outgoing(c, userText, fallback)))
  }

  class Page {
    var messages: seq<ChatMsg>
    var answers: map<string, string>
    var askedQuestions: seq<string>
    var companyName: string
    var turn: nat
    var loading: bool
    var done: bool
    var brief: Option<Brief>
    var error: Option<string>
    /** The company-name extractor the page defines. */
    const extract: Extractor

    function Snapshot(): Chat
      reads this
    {
      Chat(messages, answers, askedQuestions, companyName, turn, loading, done, brief, error)
    }

    constructor()
      ensures Snapshot() == Initial()
      ensures extract == ExtractCompanyNameSoft
    {
      extract := ExtractCompanyNameSoft;
      messages := [ChatMsg(Assistant, Greeting)];
      answers := map[];
      askedQuestions := [];
      companyName := "";
      turn := 0;
      loading := false;
      done := false;
      brief := None;
      error := None;
    }

    /** `onSend` up to the `await`: the state it leaves and the request it posts. */
    method OnSend(input: string) returns (request: Option<Request>)
      modifies this
      ensures Sent(Snapshot(), request) == SendStep(old(Snapshot()), input, extract)
    {
      if Trim(input) == [] || loading || done {
        return None;
      }
      var userText := Trim(input);
      // `shown` is the transcript of the render the handler belongs to.
      var shown := messages;
      var nextTurn := turn + 1;
      turn := nextTurn;
      CaptureCompanyOnce(userText);
      request := RecordAnswer(shown, userText, nextTurn);
    }

    /**
     * The rest of an accepted send: the answer under the last assistant text
     * of `shown` (or `q<turn>`), the user message after `shown`, the call
     * pending, and the request built from `shown`.
     */
    method RecordAnswer(shown: seq<ChatMsg>, userText: string, nextTurn: nat) returns (request: Option<Request>)
      modifies this
      ensures answers == old(answers)[AnswerKey(shown, FallbackKey(nextTurn)) := userText]
      ensures messages == shown + [ChatMsg(User, userText)]
      ensures loading && error.None?
      ensures companyName == old(companyName) && turn == old(turn) && askedQuestions == old(askedQuestions)
      ensures done == old(done) && brief == old(brief)
      ensures request == Some(Request(ToApiMessages(shown), answers, nextTurn, askedQuestions))
    {
      var lastAssistant := match LastAssistantText(shown) case Some(t) => t case None => FallbackKey(nextTurn);
      var nextAnswers := answers[lastAssistant := userText];
      answers := nextAnswers;
      messages := shown + [ChatMsg(User, userText)];
      var nextAsked := askedQuestions;
      loading := true;
      error := None;
      request := Some(Request(ToApiMessages(shown), nextAnswers, nextTurn, nextAsked));
    }

    /** "capture company name once": only while the name is still empty, and only a found name. */
    method CaptureCompanyOnce(userText: string)
      modifies this
      ensures companyName == CaptureCompany(old(companyName), userText, extract)
      ensures messages == old(messages) && answers == old(answers) && askedQuestions == old(askedQuestions)
      ensures turn == old(turn) && loading == old(loading) && done == old(done) && brief == old(brief) && error == old(error)
    {
      if companyName == [] {
        var maybe := extract(userText);
        if maybe.Some? {
          companyName := maybe.value;
        }
      }
    }

    /** The rest of `callLlmNext` once the gateway has answered. */
    method Settle(outcome: Outcome)
      modifies this
      ensures Snapshot() == Interview.Settle(old(Snapshot()), outcome)
    {
      match outcome {
        case Done(b) =>
          done := true;
          brief := Some(b);
          messages := messages + [ChatMsg(Assistant, DoneNotice)];
        case Question(q) =>
          askedQuestions := askedQuestions + [q];
          messages := messages + [ChatMsg(Assistant, q)];
        case Failure(msg) =>
          error := Some(msg);
          messages := messages + [ChatMsg(Assistant, FailurePrefix + msg)];
      }
      loading := false;
    }
  }

  // ---- properties of one send ----

  /** A send is ignored, changing nothing and posting nothing, exactly when the guard holds. */
  lemma SendIgnoredIffGuard(c: Chat, input: string, extract: Extractor)
    ensures SendStep(c, input, extract).request.None? <==> Ignores(c, input)
    ensures Ignores(c, input) ==> SendStep(c, input, extract).chat == c
  {
  }

  /**
   * An accepted send on a consistent page: the answer goes under the text of the
   * last message, which is the assistant's (every message here has a text); the
   * request holds the transcript before the send, the updated answers, the new
   * turn and the questions asked so far; the page shows the user message after
   * that transcript.
   */
  lemma AcceptedSend(c: Chat, input: string, extract: Extractor)
    requires Consistent(c) && !Ignores(c, input)
    ensures var s := SendStep(c, input, extract);
      && s.request.Some?
      && s.chat.messages == c.messages + [ChatMsg(User, Trim(input))]
      && s.chat.turn == c.turn + 1
      && s.request.value.messages == ToApiMessages(c.messages)
      && |s.request.value.messages| == |s.chat.messages| - 1
      && s.request.value.answers == s.chat.answers
      && s.request.value.turn == s.chat.turn
      && s.request.value.askedQuestions == c.asked
      && s.chat.answers == c.answers[c.messages[|c.messages| - 1].text := Trim(input)]
  {
    AnswerKeyIsLastMessage(c, FallbackKey(c.turn + 1));
  }

  lemma InitialConsistent()
    ensures Consistent(Initial())
  {
    assert Initial().messages[0].text == Greeting;
  }

  lemma SendPreserves(c: Chat, input: string, extract: Extractor)
    requires Consistent(c)
    ensures Consistent(SendStep(c, input, extract).chat)
  {
    if !Ignores(c, input) {
      RecordPreserves(c, Trim(input), FallbackKey(c.turn + 1), extract);
    }
  }

  // ---- properties over a run ----

  /** What can happen to the page: the user sends a text, or a pending call settles. */
  datatype Event = Send(input: string) | Reply(outcome: Outcome)

  /** A gateway reply only arrives for a pending call; in any other state nothing answers. */
  function Step(c: Chat, e: Event, extract: Extractor): Chat {
    match e
    case Send(input) => SendStep(c, input, extract).chat
    case Reply(o) => if c.loading then Interview.Settle(c, o) else c
  }

  function Run(c: Chat, events: seq<Event>, extract: Extractor): Chat
    decreases |events|
  {
    if events == [] then c else Run(Step(c, events[0], extract), events[1..], extract)
  }

  /** Every reachable page is consistent. */
  lemma {:induction false} RunPreserves(c: Chat, events: seq<Event>, extract: Extractor)
    requires Consistent(c)
    ensures Consistent(Run(c, events, extract))
    decreases |events|
  {
    if events != [] {
      match events[0] {
        case Send(input) => SendPreserves(c, input, extract);
        case Reply(o) => if c.loading { SettlePreserves(c, o); }
      }
      RunPreserves(Step(c, events[0], extract), events[1..], extract);
    }
  }

  /** A finished interview is final: no later event changes the page. */
  lemma {:induction false} DoneIsFinal(c: Chat, events: seq<Event>, extract: Extractor)
    requires Consistent(c) && c.done
    ensures Run(c, events, extract) == c
    decreases |events|
  {
    if events != [] {
      assert Step(c, events[0], extract) == c;
      DoneIsFinal(c, events[1..], extract);
    }
  }

  /** Once the company name is set it never changes. */
  lemma {:induction false} CompanyNameIsStable(c: Chat, events: seq<Event>, extract: Extractor)
    requires c.companyName != []
    ensures Run(c, events, extract).companyName == c.companyName
    decreases |events|
  {
    if events != [] {
      var c' := Step(c, events[0], extract);
      assert c'.companyName == c.companyName;
      CompanyNameIsStable(c', events[1..], extract);
    }
  }

  /** The turn never goes down: a failed call does not roll it back. */
  lemma {:induction false} TurnNeverDecreases(c: Chat, events: seq<Event>, extract: Extractor)
    ensures Run(c, events, extract).turn >= c.turn
    decreases |events|
  {
    if events != [] {
      TurnNeverDecreases(Step(c, events[0], extract), events[1..], extract);
    }
  }
}
