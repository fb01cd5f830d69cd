/**
 * The companion route (`POST /api/companion`): message validation, the
 * system prompt, the conversation sent to the chat model, post-processing of
 * the reply, and the optional auxiliary image call whose failure is
 * swallowed. The chat model and the image service are function parameters;
 * the handler returns the calls it made together with the response.
 */
module CompanionRoute {
  import opened Wrappers
  import opened Json
  import opened Text
  import opened Binary
  import opened ImageTag

  /** The built-in persona; its wording is not reproduced here, only that it is a non-empty constant. */
  const CompanionSystem: string := "<companion persona>"

  /** The image-prompt template wrapped around an extracted prompt. */
  const AuxPrefix: string := "masterpiece photograph, "
  const AuxSuffix: string := ", highly detailed, professional lighting, 8k, sharp focus, beautiful, attractive"

  const MessageRequired: string := "Message is required"
  const ResponseFailed: string := "Failed to generate response"

  /** The request body as destructured; `history` and `generate_image` take their defaults when undefined. */
  datatype CompanionRequest = CompanionRequest(message: Value, history: Value, persona: Value, generateImage: Value)

  datatype ChatMessage = ChatMessage(role: Value, content: Value)

  /** What the chat model is asked: a system prompt and the conversation. */
  datatype ChatCall = ChatCall(system: Value, messages: seq<ChatMessage>)

  datatype ReplyOutcome = Replied(text: string) | ChatFailed

  /** The auxiliary image call: bytes on an ok response, otherwise a non-ok status or a thrown error. */
  datatype AuxOutcome = AuxDelivered(bytes: Bytes) | AuxNotOk(status: int) | AuxThrew

  datatype CompanionResponse =
    | Answered(text: string, image: Option<Bytes>, imagePrompt: string, message: string)
    | Rejected(status: int, error: string)

  /** The response together with the chat call and the auxiliary image prompt, when those were issued. */
  datatype CompanionExchange = CompanionExchange(
    response: CompanionResponse, chatCall: Option<ChatCall>, imageCall: Option<string>)

  /** `persona || COMPANION_SYSTEM`. */
  function SystemPrompt(persona: Value): (r: Value)
    ensures Truthy(r)
    ensures Truthy(persona) ==> r == persona
    ensures !Truthy(persona) ==> r == Str(CompanionSystem)
  {
    if Truthy(persona) then persona else Str(CompanionSystem)
  }

  /** The new user turn `{ role: "user", content: message }`. */
  function UserTurn(message: string): (t: ChatMessage)
    ensures t.role == Str("user") && t.content.Str? && t.content.s == message
  {
    ChatMessage(Str("user"), Str(message))
  }

  /** `({ role: h.role, content: h.content })`, which throws when `h` is null or undefined. */
  function ProjectEntry(h: Value): (r: Option<ChatMessage>)
    ensures r.None? <==> h.Null? || h.Undefined?
    ensures h.Obj? ==> r == Some(ChatMessage(Property(h, "role"), Property(h, "content")))
    ensures r.Some? && !h.Obj? ==> r == Some(ChatMessage(Undefined, Undefined))
  {
    if h.Null? || h.Undefined? then None
    else Some(ChatMessage(Property(h, "role"), Property(h, "content")))
  }

  /** `history.map(...)`: every entry projected in order, or a throw at the first null entry. */
  function ProjectHistory(items: seq<Value>): (r: Option<seq<ChatMessage>>)
    ensures r.None? <==> exists i :: 0 <= i < |items| && ProjectEntry(items[i]).None?
    ensures r.Some? ==> |r.value| == |items|
    ensures r.Some? ==> forall i :: 0 <= i < |items| ==> ProjectEntry(items[i]) == Some(r.value[i])
  {
    if |items| == 0 then Some([])
    else match (ProjectEntry(items[0]), ProjectHistory(items[1..]))
      case (Some(m), Some(rest)) =>
        assert forall i :: 1 <= i < |items| ==> items[i] == items[1..][i - 1];
        Some([m] + rest)
      case (None, _) => None
      case (_, None) =>
        var i :| 0 <= i < |items[1..]| && ProjectEntry(items[1..][i]).None?;
        assert ProjectEntry(items[i + 1]).None?;
        None
  }

  /** The conversation: the history (default `[]`) followed by one user turn; a non-array history throws. */
  function BuildConversation(history: Value, message: string): (r: Option<seq<ChatMessage>>)
    ensures history.Undefined? ==> r == Some([UserTurn(message)])
    ensures !history.Undefined? && !history.Arr? ==> r.None?
    ensures history.Arr? ==>
              (r.None? <==> exists i :: 0 <= i < |history.items| && ProjectEntry(history.items[i]).None?)
    ensures r.Some? && history.Arr? ==>
              && |r.value| == |history.items| + 1
              && (forall i :: 0 <= i < |history.items| ==> ProjectEntry(history.items[i]) == Some(r.value[i]))
              && r.value[|history.items|] == UserTurn(message)
  {
    match history
    case Undefined => Some([UserTurn(message)])
    case Arr(items) =>
      (match ProjectHistory(items)
       case Some(turns) => Some(turns + [UserTurn(message)])
       case None => None)
    case _ => None
  }

  /** `generate_image && imagePrompt && HF_TOKEN`, with `generate_image` defaulting to true. */
  predicate ShouldGenerateImage(generateImage: Value, imagePrompt: string, hasToken: bool)
    ensures ShouldGenerateImage(generateImage, imagePrompt, hasToken) ==> hasToken && imagePrompt != ""
    ensures !Truthy(generateImage) && !generateImage.Undefined? ==> !ShouldGenerateImage(generateImage, imagePrompt, hasToken)
    ensures (generateImage.Undefined? || Truthy(generateImage)) && imagePrompt != "" && hasToken ==>
              ShouldGenerateImage(generateImage, imagePrompt, hasToken)
  {
    (generateImage.Undefined? || Truthy(generateImage)) && imagePrompt != "" && hasToken
  }

  /** The prompt sent to the image service: the extracted prompt inside a fixed template. */
  function AuxPrompt(imagePrompt: string): (r: string)
    ensures AuxPrefix <= r && IsSuffix(AuxSuffix, r) && IsInfix(imagePrompt, r)
    ensures |r| == |AuxPrefix| + |imagePrompt| + |AuxSuffix|
    ensures r[|AuxPrefix|..|r| - |AuxSuffix|] == imagePrompt
  {
    var r := AuxPrefix + imagePrompt + AuxSuffix;
    assert r[|AuxPrefix|..][..|imagePrompt|] == imagePrompt;
    r
  }

  /** A non-ok or throwing image call leaves the image `null`. */
  function AuxImage(outcome: AuxOutcome): (r: Option<Bytes>)
    ensures r.Some? <==> outcome.AuxDelivered?
    ensures r.Some? ==> r.value == outcome.bytes
  {
    match outcome
    case AuxDelivered(b) => Some(b)
    case _ => None
  }

  /** The post-processing of one reply, and the auxiliary image prompt when the call was made. */
  datatype Turn = Turn(response: CompanionResponse, imageCall: Option<string>)

  /**
   * The reply's tag is extracted; the image call is made only when the gate
   * opens, and its failure leaves the image `null` without failing the turn.
   */
  function AnswerTurn(
    reply: string, message: string, generateImage: Value, hasToken: bool, imageService: string -> AuxOutcome)
    : (t: Turn)
    ensures t.response.Answered? && t.response.message == message
    ensures t.response.text == ExtractImagePrompt(reply).text
    ensures t.response.imagePrompt == ExtractImagePrompt(reply).imagePrompt
    ensures t.imageCall.Some? <==> ShouldGenerateImage(generateImage, t.response.imagePrompt, hasToken)
    ensures t.imageCall.Some? ==> t.imageCall.value == AuxPrompt(t.response.imagePrompt)
    ensures t.response.image.Some? ==>
              t.imageCall.Some? && imageService(t.imageCall.value) == AuxDelivered(t.response.image.value)
    ensures t.imageCall.Some? && !imageService(t.imageCall.value).AuxDelivered? ==> t.response.image.None?
    ensures t.imageCall.Some? ==> t.response.image == AuxImage(imageService(t.imageCall.value))
    ensures t.imageCall.None? ==> t.response.image.None?
  {
    var ex := ExtractImagePrompt(reply);
    if ShouldGenerateImage(generateImage, ex.imagePrompt, hasToken) then
      var aux := AuxPrompt(ex.imagePrompt);
      Turn(Answered(ex.text, AuxImage(imageService(aux)), ex.imagePrompt, message), Some(aux))
    else
      Turn(Answered(ex.text, None, ex.imagePrompt, message), None)
  }

  /** `POST /api/companion` with the credential as a flag and the two services as parameters. */
  function HandleCompanion(
    req: CompanionRequest, hasToken: bool, chat: ChatCall -> ReplyOutcome, imageService: string -> AuxOutcome)
    : (x: CompanionExchange)
    ensures !IsNonEmptyString(req.message) ==> x == CompanionExchange(Rejected(400, MessageRequired), None, None)
    ensures x.response.Rejected? ==> x.imageCall.None? && x.response.status in {400, 500}
    ensures IsNonEmptyString(req.message) ==>
              var conversation := BuildConversation(req.history, req.message.s);
              && (conversation.None? ==> x == CompanionExchange(Rejected(500, ResponseFailed), None, None))
              && (conversation.Some? ==> x.chatCall == Some(ChatCall(SystemPrompt(req.persona), conversation.value)))
              && (x.response.Answered? <==> conversation.Some? && chat(x.chatCall.value).Replied?)
              && (!x.response.Answered? ==> x.response == Rejected(500, ResponseFailed))
    ensures x.response.Answered? ==>
              && x.chatCall.Some?
              && chat(x.chatCall.value).Replied?
              && x.chatCall.value.system == SystemPrompt(req.persona)
              && BuildConversation(req.history, req.message.s) == Some(x.chatCall.value.messages)
              && x.response.message == req.message.s
    ensures x.response.Answered? ==>
              AnswerTurn(chat(x.chatCall.value).text, req.message.s, req.generateImage, hasToken, imageService)
                == Turn(x.response, x.imageCall)
  {
    if !IsNonEmptyString(req.message) then CompanionExchange(Rejected(400, MessageRequired), None, None)
    else
      var message := req.message.s;
      var system := SystemPrompt(req.persona);
      match BuildConversation(req.history, message)
      case None => CompanionExchange(Rejected(500, ResponseFailed), None, None)
      case Some(messages) =>
        var call := ChatCall(system, messages);
        match chat(call)
        case ChatFailed => CompanionExchange(Rejected(500, ResponseFailed), Some(call), None)
        case Replied(full) =>
          var turn := AnswerTurn(full, message, req.generateImage, hasToken, imageService);
          CompanionExchange(turn.response, Some(call), turn.imageCall)
  }
}
