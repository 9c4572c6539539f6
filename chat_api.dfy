/**
 * The assistant's chat route: the check on the incoming message, the conversation sent to
 * the model (the client's history followed by one user turn, which carries the case
 * context when there is one), and the mapping of the model's answer or of an error to
 * the response. The model call itself is a parameter: its outcome.
 */
module ChatApi {
  import opened Wrappers
  import Text

  datatype Role = User | Assistant

  datatype ChatMessage = ChatMessage(role: Role, content: string)

  /** The `history` field: absent or null, some other value, or an array of turns. */
  datatype HistoryField = NoHistory | NotAnArray | ArrayOf(turns: seq<ChatMessage>)

  /** The `caseContext` object; a field that is absent or empty is `None` or "". */
  datatype CaseContext = CaseContext(
    caseNumber: Option<string>, caseType: Option<string>, matter: Option<string>,
    court: Option<string>, opponent: Option<string>, description: Option<string>)

  /** A JSON body that parsed; `message` is `None` when it is absent. */
  datatype ChatRequest = ChatRequest(message: Option<string>, caseContext: Option<CaseContext>, history: HistoryField)

  datatype Body = Parsed(request: ChatRequest) | Malformed(errorMessage: Option<string>)

  /** `p` closes `s`. */
  predicate Suffix(p: string, s: string) {
    |p| <= |s| && s[|s| - |p|..] == p
  }

  /** `field || 'N/A'`. */
  function Field(v: Option<string>): string {
    OrElse(v, "N/A")
  }

  const ContextMarker: string := "[CONTEXTO DEL CASO]\n"
  const QueryMarker: string := "\n[CONSULTA]\n"

  /** One line per case field, 'N/A' for a missing one. */
  function ContextLines(c: CaseContext): string {
    "Expediente: " + Field(c.caseNumber) + "\n"
    + "Tipo: " + Field(c.caseType) + "\n"
    + "Materia: " + Field(c.matter) + "\n"
    + "Juzgado: " + Field(c.court) + "\n"
    + "Contraparte: " + Field(c.opponent) + "\n"
    + "Descripción: " + Field(c.description) + "\n"
  }

  /** The lines before the query in a message sent with a case context. */
  function ContextHeader(c: CaseContext): string {
    ContextMarker + ContextLines(c) + QueryMarker
  }

  /** `userMessage`: the message, or the context header followed by it. */
  function UserContent(message: string, c: Option<CaseContext>): string {
    if c.Some? then ContextHeader(c.value) + message else message
  }

  /** The history turns that are forwarded: those of an array, and none otherwise. */
  function Forwarded(h: HistoryField): seq<ChatMessage> {
    if h.ArrayOf? then h.turns else []
  }

  /**
   * The user turn keeps the message verbatim at its end; without a context it is the
   * message itself; with one it opens with the context marker, holds 'N/A' for each
   * missing field and closes the header with the query marker.
   */
  lemma UserContentSpec(message: string, c: Option<CaseContext>)
    ensures var u := UserContent(message, c);
      && |u| >= |message| && u[|u| - |message|..] == message
      && (c.None? ==> u == message)
      && (c.Some? ==>
            && u[..|u| - |message|] == ContextHeader(c.value)
            && Text.StartsWith(u, ContextMarker)
            && Suffix(QueryMarker, u[..|u| - |message|]))
  {
    if c.Some? {
      var h := ContextHeader(c.value);
      var u := h + message;
      assert u[..|u| - |message|] == h;
      assert u[|u| - |message|..] == message;
      assert h[..|ContextMarker|] == ContextMarker;
      assert u[..|ContextMarker|] == h[..|ContextMarker|];
      assert h[|h| - |QueryMarker|..] == QueryMarker;
    }
  }

  /** Two context fields that are both missing render the same way, whatever their absence looks like. */
  lemma FalsyFieldsRenderAlike(a: Option<string>, b: Option<string>)
    requires !Truthy(a) && !Truthy(b)
    ensures Field(a) == Field(b) == "N/A"
  {
  }

  /** A content block of the model's answer. */
  datatype Block = TextBlock(text: string) | OtherBlock

  datatype Usage = Usage(inputTokens: nat, outputTokens: nat)

  /** What the model call gives back, or the error it throws. */
  datatype Outcome = Answered(content: seq<Block>, usage: Usage) | Threw(errorMessage: Option<string>)

  datatype Response =
    | Reply(response: string, usage: Usage)
    | ChatError(status: int, error: string)

  /** The TypeError message of reading `.type` of the missing first block. */
  const MissingBlockError: string := "Cannot read properties of undefined (reading 'type')"

  /** The 500 response of the catch block. */
  function ServerError(errorMessage: Option<string>): Response {
    ChatError(500, OrElse(errorMessage, "Error processing request"))
  }

  /** The response for the model's outcome. */
  function Finish(o: Outcome): (r: Response)
    ensures o.Threw? ==>
      r == ChatError(500, if Truthy(o.errorMessage) then o.errorMessage.value else "Error processing request")
    ensures o.Answered? && o.content != [] ==> r.Reply? && r.usage == o.usage
    ensures o.Answered? && o.content != [] && o.content[0].TextBlock? ==> r.response == o.content[0].text
    ensures o.Answered? && o.content != [] && o.content[0].OtherBlock? ==> r.response == ""
    ensures o.Answered? && o.content == [] ==> r == ChatError(500, MissingBlockError)
  {
    match o
    case Threw(m) => ServerError(m)
    case Answered(blocks, usage) =>
      if blocks == [] then ServerError(Some(MissingBlockError))
      else Reply(if blocks[0].TextBlock? then blocks[0].text else "", usage)
  }

  /** What the handler does with a parsed body: refuse it, or call the model with these turns. */
  datatype Step = Reject | CallModel(messages: seq<ChatMessage>)

  function StepFor(req: ChatRequest): (s: Step)
    ensures s.Reject? <==> !Truthy(req.message)
    ensures s.CallModel? ==>
      && |s.messages| == |Forwarded(req.history)| + 1
      && s.messages[..|Forwarded(req.history)|] == Forwarded(req.history)
      && s.messages[|s.messages| - 1] == ChatMessage(User, UserContent(req.message.value, req.caseContext))
  {
    if !Truthy(req.message) then Reject
    else CallModel(Forwarded(req.history) + [ChatMessage(User, UserContent(req.message.value, req.caseContext))])
  }

  /**
   * The `messages` array built by the handler: the history when it is an array, then
   * one user turn.
   */
  method BuildMessages(message: string, c: Option<CaseContext>, h: HistoryField) returns (messages: seq<ChatMessage>)
    requires message != ""
    ensures StepFor(ChatRequest(Some(message), c, h)) == CallModel(messages)
    ensures |messages| == |Forwarded(h)| + 1
    ensures messages[..|Forwarded(h)|] == Forwarded(h)
    ensures messages[|messages| - 1] == ChatMessage(User, UserContent(message, c))
  {
    messages := [];
    if h.ArrayOf? {
      messages := messages + h.turns;
    }
    var userMessage := message;
    if c.Some? {
      userMessage := ContextHeader(c.value) + message;
    }
    messages := messages + [ChatMessage(User, userMessage)];
  }

  /** POST; `outcome` is what the model call would give back. */
  function Handle(body: Body, outcome: Outcome): Response {
    match body
    case Malformed(m) => ServerError(m)
    case Parsed(req) =>
      match StepFor(req)
      case Reject => ChatError(400, "Message required")
      case CallModel(_) => Finish(outcome)
  }

  /**
   * A missing or empty message is answered with 400 'Message required' before the model
   * is called: the response is the same whatever the model would have said.
   */
  lemma MissingMessageRejected(req: ChatRequest, o1: Outcome, o2: Outcome)
    requires !Truthy(req.message)
    ensures Handle(Parsed(req), o1) == ChatError(400, "Message required")
    ensures Handle(Parsed(req), o1) == Handle(Parsed(req), o2)
  {
  }

  /** With a message, the response is the model's: its first text block, or an error mapped to 500. */
  lemma MessageReachesModel(req: ChatRequest, o: Outcome)
    requires Truthy(req.message)
    ensures Handle(Parsed(req), o) == Finish(o)
    ensures Handle(Parsed(req), o).ChatError? ==> Handle(Parsed(req), o).status == 500
  {
  }

  /**
   * A body that `request.json()` cannot parse reaches the catch block: 500 with the thrown
   * error's message, or 'Error processing request' when that message is empty or missing,
   * whatever the model would have said.
   */
  lemma MalformedBodyRejected(m: Option<string>, o: Outcome)
    ensures Handle(Malformed(m), o) == ChatError(500, if Truthy(m) then m.value else "Error processing request")
  {
  }

  /** Every error the handler returns carries a non-empty text. */
  lemma ErrorsHaveText(body: Body, o: Outcome)
    ensures Handle(body, o).ChatError? ==> Handle(body, o).error != ""
  {
  }
}
