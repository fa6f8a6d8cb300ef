# Haze merch-brief assistant: a Dafny model of its core

Haze runs a chat interview with a founder about their merch. From the answers it
builds a designer-ready brief, and designers then claim briefs from a pool.
This project models the parts of the code base that decide something:

- **The chat helpers** of biera/lib/chat-utils.ts. page.tsx:27-85 holds a verbatim copy.
  - `firstLetter` picks the avatar initial.
  - `extractCompanyNameSoft` is the four-rule company-name heuristic. Its three
    regular expressions are written out as matchers (module `NamePatterns`).
    After a match it cuts the capture at a delimiter, trims it and collapses
    runs of white space.
  - `toApiMessages` maps the two-role chat messages to three-role API messages.
- **The interview turn engine** of the two chat pages, page.tsx and
  biera/app/page.tsx. `onSend` and `callLlmNext` are classes with the pages'
  state fields. Each method is tied to a pure step function. Invariants and
  run lemmas are proved over those step functions. The step functions take
  the company-name extractor as an argument, so they hold for any extractor.
  On each page object it is the constant `extract`, which the constructor binds
  to `extractCompanyNameSoft`, the function the pages import.
- **The client's reading of the reply** (module `LlmClient`): how
  `callLlmNext` turns the answer of `/api/llm-next` into a question, a brief
  or a failure.
- **The `/api/llm-next` handler** of route.ts. It defaults the body,
  decides whether the interview is forced to end, assembles the prompt and
  classifies the upstream reply.
- **Brief acceptance** (components/pool/brief-card.tsx).
  - The Firestore transaction is one atomic method over a map of documents.
  - The card has its own `loading` and `error` state.
  - The card also has its accept button and its tag badges.
- **Access and administration.** `ProtectedRoute` decides whether to redirect
  or to render its children. The admin dashboard builds the user list and
  promotes customers. The two admin pages share the same logic.

The JSON text format is not modelled. `JSON.stringify` and `JSON.parse` are
parameters over a JSON datatype. So are everything further downstream: the
OpenRouter call, what `new Date()` returns, and whether a Firestore call throws.

Where the prose description of the system and the code disagree, the model
follows the code:

- A capture has up to 61 characters: one leading character plus up to 60 more.
- The short-input fallback returns the trimmed input without collapsing its
  white space. It has no length bound.
- The name is extracted on every send while it is still empty, not only on
  the first message.
- The request carries the transcript as it was before the send, so it lacks
  the new user message. On the first send of biera/app/page.tsx it is empty.
- Turns are not rolled back when the gateway fails.
- A user whose role is missing or empty passes `ProtectedRoute`.

One apparent branch of the extractor never fires: the fall-through when a rule
matches but its cleaned-up candidate is empty. A capture starts with a letter or
digit, so no delimiter can cut it to nothing. `RuleCandidate` states this.

## Model

| member | source | states |
|---|---|---|
| NamePatterns.CompanyIsAt | biera/lib/chat-utils.ts:19-21 | a match of "company" or "brand", an optional "name", then "is", "=" or ":" and an optional quote at a position yields a well-formed capture span |
| NamePatterns.MyWordIsAt | biera/lib/chat-utils.ts:30-32 | a match of "my", a word of 3 to 14 word characters, an optional "name", then "is", "=" or ":" at a position yields a well-formed capture span |
| NamePatterns.WeAreAt | biera/lib/chat-utils.ts:41-43 | a match of "we are" or "our company is" / "our brand is" at a position yields a well-formed capture span |
| NamePatterns.Matches | biera/lib/chat-utils.ts:19-21 | one entry per start position of the text, from 0 to its length, each the pattern's match at that position |
| NamePatterns.FirstHit | biera/lib/chat-utils.ts:19-21 | the scan finds the leftmost position from the start where a match exists: there is one there and none before it; no result means no match from the start on |
| NamePatterns.LeftmostSpan | biera/lib/chat-utils.ts:41-43 | the capture of the leftmost match is well formed; there is none exactly when the pattern matches nowhere; otherwise it is the match at some position before which the pattern matches nowhere |
| NamePatterns.Capture | biera/lib/chat-utils.ts:19-44 | group 1 exists exactly when the pattern matches the ASCII-lower-cased text; it is 1 to 61 characters, starts with a letter or digit, is drawn from `[A-Za-z0-9&.\- ]`, and is the original text's slice at the leftmost match's span, with its own case |
| NamePatterns.CaptureIgnoresCase | biera/lib/chat-utils.ts:20 | the `i` flag: two texts equal up to ASCII case have captures together, taken at the same span and equal up to case |
| NamePatterns.CaptureShape | biera/lib/chat-utils.ts:20 | the text at a well-formed span of the lower-cased text is itself 1 to 61 characters, starts with a letter or digit and stays in the name class |
| NamePatterns.NamedCapture | biera/lib/chat-utils.ts:20 | the tail shared by the first two patterns, an optional "name", a separator "is", "=" or ":", an optional quote and the name run, from a position: a result is a well-formed capture span |
| NamePatterns.MatchAt | biera/lib/chat-utils.ts:19-44 | the match of the chosen pattern at one start position: a result is a well-formed capture span; `Matches` and `FirstHit` tie the scan to it |
| ChatUtils.FirstLetter | biera/lib/chat-utils.ts:3-8 | one character: "U" when the name has no ASCII letter or digit (empty and all-white-space names included), else the upper-cased first letter or digit |
| ChatUtils.FirstAlnumOfTrim | biera/lib/chat-utils.ts:4-6 | trimming first finds the same first letter or digit |
| ChatUtils.FirstLetterIsInitial | biera/lib/chat-utils.ts:7 | the initial is always a letter or digit, never lower case |
| ChatUtils.Cut | biera/lib/chat-utils.ts:24 | `split(...)[0]`: the prefix before the first delimiter; no delimiter starts inside it, one starts right after it unless it is the whole text |
| ChatUtils.FirstDelimFrom | biera/lib/chat-utils.ts:24 | the first position at or after the start where a delimiter begins, or the end of the text: no delimiter begins before it, and one begins there unless it is the end |
| ChatUtils.CollapseSpaces | biera/lib/chat-utils.ts:26 | replacing each run of two or more white-space characters by one space: never longer, empty only for empty input, and the first character keeps whether it is white space (and stays itself when it is not) |
| ChatUtils.WordsOfCollapse | biera/lib/chat-utils.ts:26 | collapsing keeps the words: a run of white space becomes one separator, never none |
| ChatUtils.CollapseIsJoin | biera/lib/chat-utils.ts:26 | on a trimmed text whose only white space is the plain space, collapsing gives its words joined by single spaces |
| ChatUtils.SpacedIsJoin | biera/lib/chat-utils.ts:26 | a trimmed text with single plain spaces only is its words joined by spaces |
| ChatUtils.CollapseKeepsLast | biera/lib/chat-utils.ts:26 | collapsing keeps whether the text ends in white space |
| ChatUtils.CollapseDrawsFrom | biera/lib/chat-utils.ts:26 | collapsing adds no character other than a space |
| ChatUtils.CollapseClean | biera/lib/chat-utils.ts:26 | a trimmed name of 1 to 61 characters starting with a letter or digit stays one after collapsing, with no two adjacent white-space characters and only name characters |
| ChatUtils.CleanCandidate | biera/lib/chat-utils.ts:22-26 | a well-formed capture, cut at its delimiter, trimmed and collapsed, is a non-empty trimmed name of at most 61 characters without double white space |
| ChatUtils.CollapseLeavesNoDoubleSpace | biera/lib/chat-utils.ts:26 | the result has no two adjacent white-space characters |
| ChatUtils.CollapseKeepsVisible | biera/lib/chat-utils.ts:26 | the non-white-space characters and their order are kept |
| ChatUtils.CollapseWithoutDoubleSpace | biera/lib/chat-utils.ts:26 | text without double white space is left as it is |
| ChatUtils.CollapseIdempotent | biera/lib/chat-utils.ts:26 | collapsing twice is collapsing once |
| ChatUtils.Words | biera/lib/chat-utils.ts:50 | `split(/\s+/).filter(Boolean)`: every word is non-empty and free of white space |
| ChatUtils.WordsCons | biera/lib/chat-utils.ts:50 | one more character in front: white space adds no word, any other starts a word or joins the first one |
| ChatUtils.WordsSplitAtSpace | biera/lib/chat-utils.ts:50 | a white-space character splits the words: the words before it, then the words after it |
| ChatUtils.WordsOfSolid | biera/lib/chat-utils.ts:50 | a non-empty text without white space is a single word |
| ChatUtils.WordsSkipSpaceRun | biera/lib/chat-utils.ts:50 | leading white space adds no word |
| ChatUtils.WordsDropTrailing | biera/lib/chat-utils.ts:50 | trailing white space adds no word |
| ChatUtils.WordsOfTrim | biera/lib/chat-utils.ts:50 | trimming keeps the words |
| ChatUtils.WordsCoverVisible | biera/lib/chat-utils.ts:50 | the words, joined, are exactly the non-white-space characters in order |
| ChatUtils.NoWordsIffAllSpace | biera/lib/chat-utils.ts:50-51 | there are no words exactly when the text is all white space |
| ChatUtils.CandidateOfCapture | biera/lib/chat-utils.ts:23-26 | cutting and trimming a capture leaves a trimmed, non-empty candidate of at most 61 characters from the name class |
| ChatUtils.RuleCandidate | biera/lib/chat-utils.ts:22-26 | a rule yields a candidate exactly when its pattern matches; the candidate is trimmed, 1 to 61 characters, starts with a letter or digit, and has no double white space; it has the words of the capture cut at its first delimiter |
| ChatUtils.RuleCandidateIsJoin | biera/lib/chat-utils.ts:22-26 | a rule's candidate is exactly the words of its capture, cut at the first delimiter, joined by single spaces |
| ChatUtils.CandidateWords | biera/lib/chat-utils.ts:23-26 | the trimmed, collapsed candidate has the words of the cut capture, joined by single spaces |
| ChatUtils.TrimCollapseWords | biera/lib/chat-utils.ts:25-26 | trimming then collapsing keeps the words and joins them by single spaces when the only white space is the plain space |
| ChatUtils.ExtractCompanyNameSoft | biera/lib/chat-utils.ts:14-16 | an empty or all-white-space input gives no name; any name given is non-empty and trimmed |
| ChatUtils.ExtractPriority | biera/lib/chat-utils.ts:18-53 | the first pattern that matches the trimmed input decides the result; with no match the result is the trimmed input, uncollapsed, exactly when it has at most three words, and nothing otherwise |
| ChatUtils.Fallback | biera/lib/chat-utils.ts:50-51 | the trimmed input when it has one to three words, else nothing; `ExtractPriority` states that it decides the result exactly when no pattern matches |
| ChatUtils.ExtractFromRule | biera/lib/chat-utils.ts:22-47 | a name found by a pattern is at most 61 characters, starts with a letter or digit and has no double white space |
| ChatUtils.ToApiMessages | biera/lib/chat-utils.ts:56-61 | same length and order, each content is the text, the role is "user" exactly for user messages and never "system" |
| ChatUtils.ToApiRoundTrip | biera/lib/chat-utils.ts:56-61 | mapping back recovers the chat messages: nothing is lost |
| ChatUtils.ToApiAppend | biera/lib/chat-utils.ts:56-61 | the mapping works message by message: it distributes over concatenation |
| Interview.LastAssistantText | page.tsx:199-200 | nothing exactly when the transcript has no assistant message; otherwise the text of an assistant message after which none follows |
| Interview.Ignores | page.tsx:185 | the guard `!input.trim()`, `loading` or `done` of both pages; `ChatPage.SendIgnoredIffGuard` and `BieraChatPage.SendGuards` state that a send under it changes nothing and posts nothing |
| Interview.AnswerKey | page.tsx:199-200 | the last assistant text, else the page's fallback; `AnswerKeyIsLastMessage` states that in a consistent idle transcript it is the text of the last message |
| Interview.CaptureCompany | page.tsx:193-197 | a set name is kept; an empty one takes the result of any extractor when there is one and stays empty otherwise |
| Interview.SoftCapture | page.tsx:193-197 | with `extractCompanyNameSoft`, an empty name stays empty exactly when no name is found, and a captured name is trimmed |
| Interview.Record | page.tsx:187-208 | the synchronous state change of an accepted send; `RecordEffect` states its effect field by field and `RecordPreserves` that it keeps the transcript's shape |
| Interview.Outgoing | page.tsx:132-137 | the request body of an accepted send; `ChatPage.AcceptedSend`, `BieraChatPage.FirstRequest` and `BieraChatPage.LaterSend` state that it carries the pre-send transcript, the updated answers, the new turn and the questions asked before the send |
| Interview.RecordEffect | page.tsx:187-208 | an accepted send raises the turn by one, appends the user message, adds or replaces only the answer under the key, sets `loading` and clears the error |
| Interview.AnswerKeyIsLastMessage | page.tsx:199-203 | in a consistent idle transcript the last message is the assistant's, and the answer is stored under its text (every message of the model has a text) |
| Interview.RecordPreserves | page.tsx:184-213 | an accepted send keeps the transcript's shape: greeting first, roles alternating one pair per turn, answers keyed by shown assistant texts, asked questions shown |
| Interview.SettlePreserves | page.tsx:152-172 | applying any outcome to a pending call keeps that shape |
| Interview.SettleOutcome | page.tsx:152-172 | each outcome appends one assistant message after the user message and lowers `loading`; a question is also recorded as asked, a brief sets `done` and is stored, a failure sets the error; turn, answers and company name are untouched |
| Interview.Settle | page.tsx:152-172 | applying an outcome to a pending call; `SettleOutcome` states its effect for each outcome and `SettlePreserves` that it keeps the transcript's shape |
| ChatPage.Page.constructor | page.tsx:88-107 | the page starts with only the greeting, no answers, turn 0, and its extractor is `extractCompanyNameSoft` |
| ChatPage.FallbackKey | page.tsx:200 | the key `q<nextTurn>`; `ChatPage.Page.RecordAnswer` files the answer under it when the transcript has no assistant message |
| ChatPage.SendStep | page.tsx:184-213 | one send of page.tsx; `SendIgnoredIffGuard` states when it does nothing, `AcceptedSend` what it posts and `SendPreserves` that it keeps the page consistent |
| ChatPage.Page.OnSend | page.tsx:184-213 | the handler leaves exactly the state and request of the send step |
| ChatPage.Page.CaptureCompanyOnce | page.tsx:193-197 | only the company name changes, as `CaptureCompany` says |
| ChatPage.Page.RecordAnswer | page.tsx:199-213 | the answer goes under the last assistant text of the shown transcript (or `q<turn>`), the user message follows that transcript, a call is pending with no error, nothing else changes, and the request carries the shown transcript, the new answers, the turn and the asked questions |
| ChatPage.Page.Settle | page.tsx:152-172 | the handler leaves exactly the state the outcome gives |
| ChatPage.SendIgnoredIffGuard | page.tsx:185 | a send posts nothing exactly when the trimmed input is empty, a call is pending or the interview is done, and then changes nothing |
| ChatPage.AcceptedSend | page.tsx:132-137 | the request holds the pre-send transcript (one message short of the page), the updated answers, the new turn and the questions asked before the send; the answer goes under the last assistant text |
| ChatPage.InitialConsistent | page.tsx:88-98 | the initial page is consistent |
| ChatPage.SendPreserves | page.tsx:184-213 | every send keeps the page consistent |
| ChatPage.RunPreserves | page.tsx:124-214 | every reachable page is consistent |
| ChatPage.DoneIsFinal | page.tsx:185 | once done, no event changes the page |
| ChatPage.CompanyNameIsStable | page.tsx:194-197 | once set, the company name never changes |
| ChatPage.TurnNeverDecreases | page.tsx:190-191 | the turn never goes down, also not after a failure |
| BieraChatPage.Page.constructor | biera/app/page.tsx:36-45 | the page starts with an empty transcript and the hero shown, and its extractor is `extractCompanyNameSoft` |
| BieraChatPage.SendStep | biera/app/page.tsx:124-184 | one send of biera/app/page.tsx; `SendGuards` states the guard and the login redirect, `FirstSend` and `LaterSend` the accepted sends, `SendPreserves` that it keeps the page valid |
| BieraChatPage.Page.OnSend | biera/app/page.tsx:124-184 | the handler, including its overwritten greeting, leaves exactly the state and effect of the send step |
| BieraChatPage.Page.CaptureCompanyOnce | biera/app/page.tsx:156-160 | only the company name changes, as `CaptureCompany` says |
| BieraChatPage.Page.StartChat | biera/app/page.tsx:133-147 | the chat is started; an empty transcript of a page not yet started gets the greeting; nothing else changes |
| BieraChatPage.Page.RecordAnswer | biera/app/page.tsx:162-183 | the answer goes under the last assistant text of the shown transcript (or the greeting), the user message follows that transcript (after the greeting when it is empty), a call is pending with no error, nothing else changes, and the request carries the shown transcript |
| BieraChatPage.Page.Settle | biera/app/page.tsx:93-109 | the handler leaves exactly the state the outcome gives |
| BieraChatPage.SendGuards | biera/app/page.tsx:125-131 | the guard changes nothing; a signed-out user is redirected to "/login" with the state unchanged; a request is posted exactly otherwise |
| BieraChatPage.FirstSend | biera/app/page.tsx:133-179 | the first send leaves exactly the started chat with the greeting and the user message, the one answer under the greeting, turn 1 and a pending call |
| BieraChatPage.FirstRequest | biera/app/page.tsx:162-183 | the first request carries an empty transcript, the one answer under the greeting, turn 1 and no asked questions |
| BieraChatPage.LaterSend | biera/app/page.tsx:162-183 | a later send appends the user message, raises the turn, captures the name only while empty, files the answer under the last message and posts the pre-send transcript and asked questions |
| BieraChatPage.InitialValid | biera/app/page.tsx:36-45 | the initial page is valid |
| BieraChatPage.FirstRecordConsistent | biera/app/page.tsx:170-179 | the first recorded send gives a consistent interview |
| BieraChatPage.FirstChatConsistent | biera/app/page.tsx:170-179 | the page after a first send, whatever the company name, is a consistent interview |
| BieraChatPage.SendPreserves | biera/app/page.tsx:124-184 | every send keeps the page valid |
| BieraChatPage.RunPreserves | biera/app/page.tsx:63-184 | every reachable page is valid |
| BieraChatPage.SignedOutNeverStarts | biera/app/page.tsx:128-131 | sends without a user never leave the initial page |
| BieraChatPage.DoneIsFinal | biera/app/page.tsx:125 | once done, no event changes the page |
| LlmRoute.MissingKeyComesFirst | route.ts:32-35 | without a key the answer is a 500 with "Missing OPENROUTER_API_KEY in env", whatever the body and the upstream |
| LlmRoute.Normalise | route.ts:37-47 | reading the defaults fails exactly for a `null` body |
| LlmRoute.NormaliseDefaults | route.ts:44-47 | messages and asked questions are kept only when arrays, answers default to `{}` for null or missing, the turn is kept only when a number and is 0 otherwise |
| LlmRoute.Prompt | route.ts:96-113 | the messages sent upstream; `PromptShape` states their order and the instruction that forces the end |
| LlmRoute.PromptShape | route.ts:49-113 | the prompt is the system message, the context message, the client's messages in order and one instruction, three longer than the messages; the instruction forces the end exactly when the turn is at least 10 |
| LlmRoute.ContentOf | route.ts:141-144 | `data.choices[0]?.message?.content` when it is a string, else the empty string; `ClassifyOutcomes` states that an empty content is the "Empty LLM content" failure |
| LlmRoute.Classify | route.ts:131-169 | the upstream reply becomes a 200 with a non-null body or a 500 whose body is an object with an `error` field; `ClassifyOutcomes` states which path gives which |
| LlmRoute.ClassifyOutcomes | route.ts:131-169 | the parsed content is passed on unchanged with status 200 exactly when the upstream call succeeded and its content is a non-empty string that parses to a non-null value; every other path is a 500 naming the failure, with each named case tied to its message |
| LlmRoute.Post | route.ts:30-169 | the handler answers 200 with a non-null body or 500 with an error object; `MissingKeyComesFirst` states the missing-key case |
| LlmRoute.PageRequestIsKept | route.ts:44-50 | a page's request survives the defaults: messages in order, asked questions, turn; the end is forced exactly from turn 10 |
| LlmClient.Head | page.tsx:145 | `raw.slice(0, 140)`: a prefix of at most 140 characters |
| LlmClient.PageNonJsonShape | page.tsx:145 | the non-JSON message names the status and ends with at most 140 characters of the body |
| LlmClient.Truthy | page.tsx:154 | JavaScript truthiness of `out.done`, with `undefined` falsy; `OutcomeOf` finishes the interview exactly when it holds |
| LlmClient.OutcomeOf | page.tsx:140-170 | anything but a failure needs an ok reply whose body parses to a non-null value; the interview finishes exactly for an ok parsed body whose `done` is truthy; `OutcomeCases` states each failure's message |
| LlmClient.OutcomeCases | page.tsx:140-170 | a failed fetch, a non-JSON body, a non-ok status and a `null` body all fail with their messages; an ok object ends the interview exactly when its `done` is truthy; a string question is asked as sent |
| LlmClient.ReplyOfResponse | page.tsx:140-148 | `res.ok`, `res.status` and `res.text()` of a route response, ok exactly for a 2xx status; `RouteErrorsReachThePage` states what the page makes of it |
| LlmClient.RouteErrorsReachThePage | page.tsx:148-159 | end to end, every error of the route reaches the page as a failure carrying the error body's text, and a passed-on reply with truthy `done` finishes the interview |
| BriefPool.ShownError | components/pool/brief-card.tsx:53 | the error shown is never empty, and is the thrown message when that is non-empty |
| BriefPool.AcceptTx | components/pool/brief-card.tsx:28-49 | the transaction succeeds exactly for an existing open brief, a refusal writes nothing, and no document is added or removed; `AcceptRefuses` states the messages and `AcceptClaims` the claim |
| BriefPool.BriefStore.RunAccept | components/pool/brief-card.tsx:28-49 | the transaction leaves exactly the documents and the error of `AcceptTx` |
| BriefPool.BriefCard.HandleAccept | components/pool/brief-card.tsx:24-57 | afterwards `loading` is false; a transaction fault writes nothing and shows its message or the fallback; otherwise the store is as the transaction leaves it and the error is its message, if any |
| BriefPool.AcceptRefuses | components/pool/brief-card.tsx:30-39 | a missing brief fails with "Brief does not exist!", a brief that is not open with the already-accepted message, both writing nothing; it succeeds exactly for an open brief |
| BriefPool.AcceptClaims | components/pool/brief-card.tsx:42-48 | an open brief becomes "assigned" to "designer-123" at the given instant, keeps every other field, is no longer open, and no other document changes |
| BriefPool.FirstWriterWins | components/pool/brief-card.tsx:37-48 | of two accepts of an open brief the first succeeds and the second is refused without writing |
| BriefPool.OnlyFirstAttemptWins | components/pool/brief-card.tsx:37-48 | of any number of accepts in a row, the first succeeds and every later one is refused as already accepted |
| BriefPool.ClosedStaysClosed | components/pool/brief-card.tsx:36-39 | every accept of a brief that is not open is refused |
| BriefPool.ButtonLabel | components/pool/brief-card.tsx:99 | the label is "Accept Brief" exactly when the status is "open" |
| BriefPool.AcceptDisabled | components/pool/brief-card.tsx:96 | `loading` or a status other than "open"; `EnabledIffAcceptSucceeds` states that, not loading, the button is enabled exactly when the accept would succeed |
| BriefPool.EnabledIffAcceptSucceeds | components/pool/brief-card.tsx:96 | for a card showing the current status, the button is enabled exactly when the accept would succeed |
| BriefPool.ShownTags | components/pool/brief-card.tsx:77-79 | the first tags, at most two; none when there are no tags |
| BriefPool.OverflowBadge | components/pool/brief-card.tsx:80-82 | a badge exactly when there are more than two tags: "+" followed by digits that read back as the number of tags beyond two |
| BriefPool.TagsAccountedFor | components/pool/brief-card.tsx:77-82 | the "+n" badge appears exactly when tags are hidden, and n plus the shown tags is the number of tags |
| ProtectedRoute.DecisionCases | components/auth/protected-route.tsx:17-37 | while loading, no redirect and no children; signed out, "/login"; a truthy role outside the allowed roles, "/"; children exactly when not loading, signed in and the role missing, empty or allowed |
| ProtectedRoute.Redirect | components/auth/protected-route.tsx:17-27 | the effect's `router.push`; `DecisionCases` states it case by case and `EffectAgreesWithRender` its agreement with the render |
| ProtectedRoute.RendersChildren | components/auth/protected-route.tsx:29-37 | whether the children render instead of the spinner; `DecisionCases` states exactly when, and `MoreRolesAdmitMore` that more roles admit more |
| ProtectedRoute.EffectAgreesWithRender | components/auth/protected-route.tsx:18-29 | once loading is over, the page redirects exactly when it does not render the children |
| ProtectedRoute.AdmittedRoleRenders | components/auth/protected-route.tsx:21-29 | a signed-in user with an allowed role always sees the children |
| ProtectedRoute.MoreRolesAdmitMore | components/auth/protected-route.tsx:21-29 | allowing more roles never shuts anyone out |
| AdminUsers.EntryOf | app/admin/page.tsx:28 | the entry has the document's fields and an `id`: the document id unless the data has its own |
| AdminUsers.PromoteToDesigner | app/admin/page.tsx:44 | length and order kept; each entry with the id gets role "designer" and keeps its other fields; every other entry is unchanged (biera/app/admin/page.tsx:44) |
| AdminUsers.AdminPage.FetchUsers | app/admin/page.tsx:22-36 | one entry per document, in order; on a failed read the list is unchanged; `loading` is false afterwards (same code at biera/app/admin/page.tsx:22-36) |
| AdminUsers.AdminPage.Promote | app/admin/page.tsx:41-48 | the list is promoted only when the store update succeeded, and unchanged otherwise (biera/app/admin/page.tsx:41-48) |
| AdminUsers.PromoteIdempotent | app/admin/page.tsx:44 | promoting twice is promoting once |
| AdminUsers.PromotedRow | app/admin/page.tsx:79-86 | a promoted user shows the designer badge and no promote button |
| AdminUsers.RowRules | app/admin/page.tsx:79-86 | "admin" gets the destructive badge, "designer" the default one, any other or missing role the secondary one; the promote button only for "customer" (biera/app/admin/page.tsx:74-79) |
| AdminUsers.Badge | app/admin/page.tsx:79 | the badge variant of a row; `RowRules` states which role gets which |
| AdminUsers.ShowsPromote | app/admin/page.tsx:86 | whether the row shows the promote button; `RowRules` states that only customers get it |

## Left out

- Network I/O: the `fetch` calls to `/api/llm-next` and to OpenRouter, and the model parameters sent with them. The pages take an abstract outcome; the route takes the upstream call as a function.
- The JSON text: `JSON.stringify` and `JSON.parse` are parameters. Pretty-printing with two-space indent is not modelled.
- Numbers are integers. `typeof body.turn === "number"` on a fraction, and the float `temperature`, are not modelled.
- A gateway reply whose shape is off is only partly modelled: a `brief` or a non-string `question` comes through the `asBrief` / `asText` parameters.
- Interview.AnswerKeyIsLastMessage: holds only because every message text of the model is a string. In the pages, a reply `{"done": false}` without a `question`, or with a null one, appends an assistant message whose text is `undefined` (page.tsx:161-163, biera/app/page.tsx:98-100). The next send then finds that text missing and files the answer under the fallback. That fallback is `q<turn>` in page.tsx:199-200. In biera/app/page.tsx:162-164 it is the greeting, which overwrites the first answer. The model does not reach this path: `asText` always gives a string.
- LlmClient.Head: a string here is a sequence of Unicode code points. `raw.slice(0, 140)` counts UTF-16 code units. For text outside the Basic Multilingual Plane, the model's prefix can therefore be longer than the source's, and the source's cut can split a surrogate pair. The model does not capture either.
- The text of the engine's TypeError messages (reading a member of `null`) is a parameter.
- Firebase plumbing: `getDocs`, `updateDoc`, `onSnapshot`, the auth listener with its role fallback, and sign-in / sign-out. Their results are parameters (`snapshot`, `updateFails`, `fault`, `loading` / `hasUser` / `role`).
- BriefPool.RunAccept: real concurrency of `runTransaction` is not modelled. The transaction is one atomic step, and serialisability is Firestore's guarantee.
- BriefPool.BriefCard.HandleAccept: only faults that write nothing are modelled, as a `fault` parameter.
- React's rendering schedule is not modelled. One handler runs at a time, on the state it rendered with. Updates batched between two events, or two sends racing before a re-render, are outside the model.
- AdminUsers.AdminPage.Promote reads the current list. In the source, the closure could hold a stale list.
- Presentation: styling, avatars and badges beyond the rules above, the brief display, the hero section, and the message bubbles. Also left out are the `scrollToBottom`, focus and `requestAnimationFrame` effects, and the input clearing.
- `console.log` / `console.error` calls have no effect on state and are left out.
