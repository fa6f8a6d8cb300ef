/**
 * The shared record shapes of the interview: the two-role chat message the UI
 * keeps, the three-role message the LLM call takes, the finished brief, and the
 * two-way reply of the LLM endpoint.
 */
module ChatTypes {

  datatype Option<T> = None | Some(value: T)

  /** Role of a message in the UI transcript. */
  datatype Role = User | Assistant

  datatype ChatMsg = ChatMsg(role: Role, text: string)

  /** Role of a message sent to the chat-completion API. */
  datatype ApiRole = ApiSystem | ApiUser | ApiAssistant

  datatype ApiMsg = ApiMsg(role: ApiRole, content: string)

  datatype ProductNotes = ProductNotes(tee: seq<string>, teamJacket: seq<string>, founderWear: seq<string>)

  /** The designer-ready brief an interview ends with. */
  datatype Brief = Brief(
    summary: string,
    coreDesignDirection: seq<string>,
    visualLanguage: seq<string>,
    colorAndTypography: seq<string>,
    productSpecificNotes: ProductNotes,
    dos: seq<string>,
    donts: seq<string>,
    customerEmail: Option<string>,
    closingToCustomer: string)

  /** What the LLM endpoint answers: the next question, or the finished brief. */
  datatype LlmNext = NextQuestion(question: string) | Concluded(brief: Brief)
}
