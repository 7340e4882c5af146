/**
 * The POST /chat handler: it validates the request, asks the language model
 * for a reply given the user's recent history, and then stores the user's
 * message and the reply, in that order.
 */
module ChatRoute {

  import opened Wrappers
  import opened Text
  import DataUrl
  import opened Conversations

  const EmptyRequestError := "Message or image cannot be empty."
  const BadImageError := "Invalid image data URL format."
  const GenericError := "An error occurred while processing your request."
  /** What is stored as the user's message when only an image was sent. */
  const ImageOnlyContent := "[Image Uploaded]"

  /** The JSON body: `message` (absent reads as "") and `image_data` (absent or null reads as None). */
  datatype ChatRequest = ChatRequest(message: string, imageData: Option<string>)

  datatype ImagePart = ImagePart(mimeType: string, data: string)

  /** prompt_parts: the message text, then the image when there is one. */
  datatype Prompt = Prompt(text: string, image: Option<ImagePart>)

  datatype Body = ReplyBody(reply: string) | ErrorBody(error: string)

  datatype Response = Response(status: nat, body: Body)

  /**
   * The checks at the top of chat(): a request with neither a message nor an
   * image is refused with 400, an image that is not a base64 image data URL
   * is refused with 400, and otherwise the prompt holds the message and the
   * parsed image.
   */
  function PreparePrompt(req: ChatRequest): (r: Result<Prompt, Response>)
    ensures r.Failure? <==>
              (req.message == "" && !Truthy(req.imageData))
              || (Truthy(req.imageData) && DataUrl.ParseDataUrl(req.imageData.value).None?)
    ensures r.Failure? ==> r.error.status == 400
    ensures req.message == "" && !Truthy(req.imageData) ==> r == Failure(Response(400, ErrorBody(EmptyRequestError)))
    ensures r.Failure? && Truthy(req.imageData) ==> r.error.body == ErrorBody(BadImageError)
    ensures r.Success? ==> r.value.text == req.message
    ensures r.Success? ==> (r.value.image.Some? <==> Truthy(req.imageData))
    ensures r.Success? && r.value.image.Some? ==>
              DataUrl.IsMatch(req.imageData.value, r.value.image.value.mimeType, r.value.image.value.data)
  {
    if req.message == "" && !Truthy(req.imageData) then
      Failure(Response(400, ErrorBody(EmptyRequestError)))
    else if Truthy(req.imageData) then
      match DataUrl.ParseDataUrl(req.imageData.value)
      case None => Failure(Response(400, ErrorBody(BadImageError)))
      case Some(groups) =>
        DataUrl.ParseDataUrlSound(req.imageData.value);
        Success(Prompt(req.message, Some(ImagePart(groups.0, groups.1))))
    else
      Success(Prompt(req.message, None))
  }

  /** The content stored for the user's side of an exchange: `user_message or "[Image Uploaded]"`. */
  function StoredUserContent(message: string): (c: string)
    ensures c != ""
    ensures message != "" ==> c == message
    ensures message == "" ==> c == ImageOnlyContent
  {
    Or(message, ImageOnlyContent)
  }

  /**
   * chat(). `session` is the session's user_id, if any; `freshId` stands for
   * the random id a new session gets. `generate` stands for the language
   * model: given the history and the prompt it yields the reply text, or
   * None when the call raises. The saves come after the call, so a failed
   * call stores nothing and yields 500; a successful one stores the user's
   * row and then the model's row.
   */
  method Chat(table: ConversationTable, session: Option<string>, freshId: string, req: ChatRequest,
              generate: (seq<Entry>, Prompt) -> Option<string>)
    returns (resp: Response, userId: string)
    requires table.Valid()
    modifies table
    ensures table.Valid()
    ensures userId == if session.Some? then session.value else freshId
    ensures PreparePrompt(req).Failure? ==>
              resp == PreparePrompt(req).error && table.rows == old(table.rows) && table.nextId == old(table.nextId)
    ensures PreparePrompt(req).Success? &&
            generate(LoadHistory(old(table.rows), userId, DefaultLimit), PreparePrompt(req).value).None? ==>
              && resp == Response(500, ErrorBody(GenericError))
              && table.rows == old(table.rows) && table.nextId == old(table.nextId)
    ensures PreparePrompt(req).Success? &&
            generate(LoadHistory(old(table.rows), userId, DefaultLimit), PreparePrompt(req).value).Some? ==>
              var reply := generate(LoadHistory(old(table.rows), userId, DefaultLimit), PreparePrompt(req).value).value;
              && resp == Response(200, ReplyBody(reply))
              && table.rows == old(table.rows) + [Row(old(table.nextId), userId, "user", StoredUserContent(req.message)),
                                                  Row(old(table.nextId) + 1, userId, "model", reply)]
              && table.nextId == old(table.nextId) + 2
  {
    userId := if session.Some? then session.value else freshId;
    match PreparePrompt(req) {
      case Failure(refusal) =>
        resp := refusal;
      case Success(prompt) =>
        var history := LoadHistory(table.rows, userId, DefaultLimit);
        match generate(history, prompt) {
          case None =>
            resp := Response(500, ErrorBody(GenericError));
          case Some(reply) =>
            table.SaveMessage(userId, "user", StoredUserContent(req.message));
            table.SaveMessage(userId, "model", reply);
            resp := Response(200, ReplyBody(reply));
        }
    }
  }
}
