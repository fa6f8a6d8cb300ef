/**
 * The interview page of biera/app/page.tsx. It starts with an empty transcript
 * behind a hero section, sends a signed-out user to "/login", and on the first
 * send puts the greeting in front of the user message. The answer key falls
 * back to the greeting text, which is what the first answer is stored under;
 * the first request carries an empty transcript.
 */
module BieraChatPage {
  import opened JsString
  import opened ChatTypes
  import opened ChatUtils
  import opened Interview

  /** The interview state together with whether the hero has given way to the chat. */
  datatype State = State(hasStarted: bool, chat: Chat)

  /** What `onSend` does beyond changing state. */
  datatype SendEffect = Ignored | RedirectLogin | Posted(request: Request)

  datatype Sent = Sent(state: State, effect: SendEffect)

  function Initial(): State {
    State(false, Chat([], map[], [], "", 0, false, false, None, None))
  }

  function SendStep(s: State, input: string, signedIn: bool, extract: Extractor): Sent {
    if Ignores(s.chat, input) then Sent(s, Ignored)
    else if !signedIn then Sent(s, RedirectLogin)
    else
      var c := s.chat;
      var userText := Trim(input);
      var base := if c.messages == [] then [ChatMsg(Assistant, Greeting)] else c.messages;
      Sent(State(true, Record(c, userText, base, Greeting, extract)), Posted(Outgoing(c, userText, Greeting)))
  }

  /** Before the first send nothing has happened; afterwards the interview keeps its shape. */
  predicate Valid(s: State) {
    if s.hasStarted then Consistent(s.chat) else s == Initial()
  }

  class Page {
    var hasStarted: bool
    var messages: seq<ChatMsg>
    var answers: map<string, string>
    var askedQuestions: seq<string>
    var companyName: string
    var turn: nat
    var loading: bool
    var done: bool
    var brief: Option<Brief>
    var error: Option<string>
    /** The company-name extractor the page imports. */
    const extract: Extractor

    function Snapshot(): State
      reads this
    {
      State(hasStarted, Chat(messages, answers, askedQuestions, companyName, turn, loading, done, brief, error))
    }

    constructor()
      ensures Snapshot() == Initial()
      ensures extract == ExtractCompanyNameSoft
    {
      extract := ExtractCompanyNameSoft;
      hasStarted := false;
      messages := [];
      answers := map[];
      askedQuestions := [];
      companyName := "";
      turn := 0;
      loading := false;
      done := false;
      brief := None;
      error := None;
    }

    /**
     * `onSend` up to the `await`; `signedIn` is whether `useAuth` has a user.
     * `shown` is the transcript of the render the handler belongs to: the
     * greeting set while starting is overwritten by `nextMsgs`, which is built
     * from `shown`.
     */
    method OnSend(input: string, signedIn: bool) returns (effect: SendEffect)
      modifies this
      ensures Sent(Snapshot(), effect) == SendStep(old(Snapshot()), input, signedIn, extract)
    {
      if Trim(input) == [] || loading || done {
        return Ignored;
      }
      if !signedIn {
        return RedirectLogin;
      }
      var shown := messages;
      StartChat();
      var userText := Trim(input);
      var nextTurn := turn + 1;
      turn := nextTurn;
      CaptureCompanyOnce(userText);
      var request := RecordAnswer(shown, userText, nextTurn);
      effect := Posted(request);
    }

    /** The hero gives way to the chat; an empty transcript gets the greeting. */
    method StartChat()
      modifies this
      ensures hasStarted
      ensures messages == if !old(hasStarted) && old(messages) == [] then [ChatMsg(Assistant, Greeting)] else old(messages)
      ensures answers == old(answers) && askedQuestions == old(askedQuestions) && companyName == old(companyName)
      ensures turn == old(turn) && loading == old(loading) && done == old(done) && brief == old(brief) && error == old(error)
    {
      if !hasStarted {
        hasStarted := true;
        if |messages| == 0 {
          messages := [ChatMsg(Assistant, Greeting)];
        }
      }
    }

    /**
     * The rest of an accepted send: the answer under the last assistant text
     * of `shown` (or the greeting), the user message after `shown` (after the
     * greeting when `shown` is empty), the call pending, and the request built
     * from `shown`.
     */
    method RecordAnswer(shown: seq<ChatMsg>, userText: string, nextTurn: nat) returns (request: Request)
      modifies this
      ensures answers == old(answers)[AnswerKey(shown, Greeting) := userText]
      ensures messages == (if shown == [] then [ChatMsg(Assistant, Greeting)] else shown) + [ChatMsg(User, userText)]
      ensures loading && error.None?
      ensures hasStarted == old(hasStarted) && companyName == old(companyName) && turn == old(turn)
      ensures askedQuestions == old(askedQuestions) && done == old(done) && brief == old(brief)
      ensures request == Request(ToApiMessages(shown), answers, nextTurn, askedQuestions)
    {
      var lastAssistant := match LastAssistantText(shown) case Some(t) => t case None => Greeting;
      var nextAnswers := answers[lastAssistant := userText];
      answers := nextAnswers;
      var nextMsgs := shown;
      if |shown| == 0 {
        nextMsgs := [ChatMsg(Assistant, Greeting)];
      }
      nextMsgs := nextMsgs + [ChatMsg(User, userText)];
      messages := nextMsgs;
      var nextAsked := askedQuestions;
      loading := true;
      error := None;
      request := Request(ToApiMessages(shown), nextAnswers, nextTurn, nextAsked);
    }

    /** "capture company name": only while the name is still empty, and only a found name. */
    method CaptureCompanyOnce(userText: string)
      modifies this
      ensures companyName == CaptureCompany(old(companyName), userText, extract)
      ensures messages == old(messages) && answers == old(answers) && askedQuestions == old(askedQuestions)
      ensures turn == old(turn) && loading == old(loading) && done == old(done) && brief == old(brief) && error == old(error)
      ensures hasStarted == old(hasStarted)
    {
      if companyName == [] {
        var maybe := extract(userText);
        if maybe.Some? {
          companyName := maybe.value;
        }
      }
    }

    /** The rest of `callLlmNext` once the gateway has answered. */
    method Settle(outcome: Outcome)
      modifies this
      ensures Snapshot() == State(old(hasStarted), Interview.Settle(old(Snapshot()).chat, outcome))
    {
      match outcome {
        case Done(b) =>
          done := true;
          brief := Some(b);
          messages := messages + [ChatMsg(Assistant, DoneNotice)];
        case Question(q) =>
          askedQuestions := askedQuestions + [q];
          messages := messages + [ChatMsg(Assistant, q)];
        case Failure(msg) =>
          error := Some(msg);
          messages := messages + [ChatMsg(Assistant, FailurePrefix + msg)];
      }
      loading := false;
    }
  }

  // ---- properties of one send ----

  /** The guard changes nothing; a signed-out user is sent to "/login" and nothing else happens. */
  lemma SendGuards(s: State, input: string, signedIn: bool, extract: Extractor)
    ensures Ignores(s.chat, input) ==> SendStep(s, input, signedIn, extract) == Sent(s, Ignored)
    ensures !Ignores(s.chat, input) && !signedIn ==> SendStep(s, input, signedIn, extract) == Sent(s, RedirectLogin)
    ensures SendStep(s, input, signedIn, extract).effect.Posted? <==> !Ignores(s.chat, input) && signedIn
  {
  }

  /**
   * The first send shows exactly the greeting and the user message, starts the
   * chat and files the answer under the greeting.
   */
  lemma FirstSend(input: string, extract: Extractor)
    requires Trim(input) != []
    ensures SendStep(Initial(), input, true, extract).state == State(true, FirstChat(Trim(input), CaptureCompany("", Trim(input), extract)))
  {
    var userText := Trim(input);
    assert AnswerKey([], Greeting) == Greeting;
    assert SendStep(Initial(), input, true, extract).state == State(true, Record(Initial().chat, userText, [ChatMsg(Assistant, Greeting)], Greeting, extract));
  }

  /** The first request carries an empty transcript, the one answer, turn 1 and no asked questions. */
  lemma FirstRequest(input: string, extract: Extractor)
    requires Trim(input) != []
    ensures SendStep(Initial(), input, true, extract).effect == Posted(Request([], map[Greeting := Trim(input)], 1, []))
  {
    assert AnswerKey([], Greeting) == Greeting;
  }

  /**
   * A later accepted send: the answer goes under the text of the last message,
   * the assistant's; the request holds the pre-send transcript, which leaves out
   * the new user message, and the questions asked so far.
   */
  lemma LaterSend(s: State, input: string, extract: Extractor)
    requires Valid(s) && s.hasStarted && !Ignores(s.chat, input)
    ensures var r := SendStep(s, input, true, extract); var c := s.chat;
      && r.state.chat.messages == c.messages + [ChatMsg(User, Trim(input))]
      && r.state.chat.turn == c.turn + 1
      && r.state.chat.companyName == CaptureCompany(c.companyName, Trim(input), extract)
      && r.state.chat.answers == c.answers[c.messages[|c.messages| - 1].text := Trim(input)]
      && r.effect.Posted? && r.effect.request.messages == ToApiMessages(c.messages)
      && r.effect.request.askedQuestions == c.asked
  {
    AnswerKeyIsLastMessage(s.chat, Greeting);
  }

  lemma InitialValid()
    ensures Valid(Initial())
  {
  }

  lemma FirstRecordConsistent(c: Chat, userText: string, extract: Extractor)
    requires c == Initial().chat
    ensures Consistent(Record(c, userText, [ChatMsg(Assistant, Greeting)], Greeting, extract))
  {
    var r := Record(c, userText, [ChatMsg(Assistant, Greeting)], Greeting, extract);
    FirstChatConsistent(userText, r.companyName);
    assert r == FirstChat(userText, r.companyName);
  }

  /** The page after the first accepted send: greeting, user message, one answer, a pending call. */
  function FirstChat(userText: string, name: string): Chat {
    Chat([ChatMsg(Assistant, Greeting), ChatMsg(User, userText)], map[Greeting := userText], [], name, 1, true, false, None, None)
  }

  lemma FirstChatConsistent(userText: string, name: string)
    ensures Consistent(FirstChat(userText, name))
  {
    var r := FirstChat(userText, name);
    assert r.messages[0].text == Greeting;
    assert Greeting in AssistantTexts(r.messages);
    forall i | 0 <= i < |r.messages| ensures r.messages[i].role == (if i % 2 == 0 then Assistant else User) {
      assert i == 0 || i == 1;
    }
  }

  lemma SendPreserves(s: State, input: string, signedIn: bool, extract: Extractor)
    requires Valid(s)
    ensures Valid(SendStep(s, input, signedIn, extract).state)
  {
    if !Ignores(s.chat, input) && signedIn {
      if s.hasStarted {
        RecordPreserves(s.chat, Trim(input), Greeting, extract);
      } else {
        FirstRecordConsistent(s.chat, Trim(input), extract);
      }
    }
  }

  // ---- properties over a run ----

  /** What can happen to the page: a send (with or without a signed-in user), or a pending call settles. */
  datatype Event = Send(input: string, signedIn: bool) | Reply(outcome: Outcome)

  function Step(s: State, e: Event, extract: Extractor): State {
    match e
    case Send(input, signedIn) => SendStep(s, input, signedIn, extract).state
    case Reply(o) => if s.chat.loading then State(s.hasStarted, Interview.Settle(s.chat, o)) else s
  }

  function Run(s: State, events: seq<Event>, extract: Extractor): State
    decreases |events|
  {
    if events == [] then s else Run(Step(s, events[0], extract), events[1..], extract)
  }

  /** Every reachable page is valid. */
  lemma {:induction false} RunPreserves(s: State, events: seq<Event>, extract: Extractor)
    requires Valid(s)
    ensures Valid(Run(s, events, extract))
    decreases |events|
  {
    if events != [] {
      match events[0] {
        case Send(input, signedIn) => SendPreserves(s, input, signedIn, extract);
        case Reply(o) =>
          if s.chat.loading {
            assert s.hasStarted;
            SettlePreserves(s.chat, o);
          }
      }
      RunPreserves(Step(s, events[0], extract), events[1..], extract);
    }
  }

  /** Signed-out sends never start the interview. */
  lemma {:induction false} SignedOutNeverStarts(events: seq<Event>, extract: Extractor)
    requires forall k | 0 <= k < |events| :: events[k].Send? && !events[k].signedIn
    ensures Run(Initial(), events, extract) == Initial()
    decreases |events|
  {
    if events != [] {
      assert Step(Initial(), events[0], extract) == Initial();
      SignedOutNeverStarts(events[1..], extract);
    }
  }

  /** A finished interview is final: no later event changes the page. */
  lemma {:induction false} DoneIsFinal(s: State, events: seq<Event>, extract: Extractor)
    requires Valid(s) && s.chat.done
    ensures Run(s, events, extract) == s
    decreases |events|
  {
    if events != [] {
      assert Step(s, events[0], extract) == s;
      DoneIsFinal(s, events[1..], extract);
    }
  }
}
