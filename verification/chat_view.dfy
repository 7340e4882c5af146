/**
 * The chat page's controller (NerdChat): the message list it shows, the
 * typing indicator, the mute flag, the selected persona and the state of the
 * input box and the image picker. Each network call is replaced by a
 * parameter holding its outcome, and the requests the controller issues are
 * recorded so that "no request" can be stated.
 */
module Chat {

  import opened Wrappers
  import Text

  const UserRole := "user"
  const ModelRole := "model"
  const SystemRole := "system"

  /** The user's bubble when only an image is sent. */
  const ImageOnlyText := "Image sent"
  const ErrorPrefix := "Error: "
  const ServerErrorFallback := "The server returned an error."
  const HistoryLoadError := "Could not load chat history. Please try again."
  /** The message of the TypeError thrown when a message is sent with no persona selected (V8's wording). */
  const MissingModelError := "Cannot read properties of null (reading 'endpoint')"
  const OutgoingSound := "outgoingMessageSound"
  const IncomingSound := "incomingMessageSound"

  /** A persona of the static registry: its id, display name, avatar and chat endpoint. */
  datatype Persona = Persona(id: string, name: string, image: string, endpoint: string)

  /**
   * A bubble in the view: its role and its text. The markup addMessageToUI
   * shows it as is Markup.Render(content), a function of the text alone.
   */
  datatype Message = Message(role: string, content: string)

  /** One item of a /history response. */
  datatype HistoryItem = HistoryItem(role: string, content: string)

  datatype Request =
    | ChatPost(endpoint: string, message: string, imageData: Option<string>)
    | HistoryGet(path: string)
    | ClearPost(modelId: string)

  /**
   * How a chat request ends: a 2xx response whose body has `reply`; a
   * non-2xx response whose body's `error` field is given (None when absent);
   * or a rejected promise (no connection, a body that is not JSON) with the
   * message of the error it rejects with.
   */
  datatype SendOutcome = Replied(reply: string) | Refused(error: Option<string>) | Broken(reason: string)

  /** How a history load ends: the `history` list of a 2xx response (empty when absent), or any failure. */
  datatype HistoryOutcome = Loaded(history: seq<HistoryItem>) | LoadFailed

  /** The bubbles of a history, in the server's order. */
  function Bubbles(items: seq<HistoryItem>): (ms: seq<Message>)
    ensures |ms| == |items|
    ensures forall i | 0 <= i < |items| :: ms[i].role == items[i].role && ms[i].content == items[i].content
  {
    if items == [] then []
    else Bubbles(items[..|items| - 1]) + [Message(items[|items| - 1].role, items[|items| - 1].content)]
  }

  /**
   * The message of the Error a refused send throws: the body's `error` when
   * it is a non-empty string, otherwise the fixed fallback; never empty.
   */
  function ErrorText(error: Option<string>): (t: string)
    ensures t != ""
    ensures Text.Truthy(error) ==> t == error.value
    ensures !Text.Truthy(error) ==> t == ServerErrorFallback
  {
    Text.OrElse(error, ServerErrorFallback)
  }

  /**
   * updateSendButton's rule: the button is disabled exactly when the input
   * holds nothing but whitespace and no file is selected.
   */
  function SendDisabled(input: string, file: Option<string>): (disabled: bool)
    ensures disabled <==> Text.AllWhitespace(input) && file.None?
  {
    Text.Trim(input) == [] && file.None?
  }

  /** The user's bubble text: the trimmed message, or "Image sent" when it is empty. */
  function UserText(text: string): (t: string)
    ensures t != ""
    ensures text != "" ==> t == text
    ensures text == "" ==> t == ImageOnlyText
  {
    Text.Or(text, ImageOnlyText)
  }

  /**
   * The one bubble that ends a send: the model's reply, or a system bubble
   * "Error: ..." carrying the server's error, its fallback, the rejection's
   * message, or the TypeError of a send with no persona.
   */
  function Resolution(model: Option<Persona>, outcome: SendOutcome): (m: Message)
    ensures m.role == ModelRole <==> model.Some? && outcome.Replied?
    ensures m.role != ModelRole ==> m.role == SystemRole && Text.StartsWith(m.content, ErrorPrefix)
    ensures model.Some? && outcome.Replied? ==> m.content == outcome.reply
    ensures model.Some? && outcome.Refused? ==> m.content == ErrorPrefix + ErrorText(outcome.error)
    ensures model.Some? && outcome.Broken? ==> m.content == ErrorPrefix + outcome.reason
  {
    match model
    case None => Message(SystemRole, ErrorPrefix + MissingModelError)
    case Some(p) =>
      match outcome
      case Replied(reply) => Message(ModelRole, reply)
      case Refused(error) => Message(SystemRole, ErrorPrefix + ErrorText(error))
      case Broken(reason) => Message(SystemRole, ErrorPrefix + reason)
  }

  /** The sound a bubble plays when it asks for one: outgoing for the user's, incoming for any other. */
  function SoundFor(role: string): (id: string)
    ensures id == OutgoingSound <==> role == UserRole
    ensures id == OutgoingSound || id == IncomingSound
  {
    if role == UserRole then OutgoingSound else IncomingSound
  }

  /** What a non-empty send plays: nothing when muted; else the outgoing sound and, for a reply, the incoming one. */
  function SendSounds(muted: bool, model: Option<Persona>, outcome: SendOutcome): (s: seq<string>)
    ensures |s| <= 2
    ensures muted ==> s == []
    ensures !muted ==> |s| >= 1 && s[0] == SoundFor(UserRole)
    ensures |s| == 2 <==> !muted && model.Some? && outcome.Replied?
    ensures |s| == 2 ==> s[1] == SoundFor(ModelRole)
  {
    if muted then []
    else [OutgoingSound] + (if model.Some? && outcome.Replied? then [IncomingSound] else [])
  }

  class NerdChat {
    /** The bubbles in #chat-messages, top to bottom. */
    var messages: seq<Message>
    /** Whether the "no messages yet" placeholder (#initialMessage) is shown. */
    var placeholderVisible: bool
    var isTyping: bool
    var isMuted: bool
    var selectedModel: Option<Persona>
    /** The text in the input box. */
    var input: string
    /** The image picker's file, as the data URL it reads as; None when no file is selected. */
    var selectedFile: Option<string>
    var sendDisabled: bool
    /** The ids of the sounds played, in order. */
    var soundsPlayed: seq<string>
    /** The requests issued, in order. */
    var requests: seq<Request>

    /** The placeholder is shown exactly when the view holds no bubble. */
    ghost predicate Valid()
      reads this
    {
      placeholderVisible <==> messages == []
    }

    /** A controller on a page whose send button starts as `buttonDisabled`. */
    constructor (buttonDisabled: bool)
      ensures Valid()
      ensures messages == [] && !isTyping && !isMuted && selectedModel.None?
      ensures input == "" && selectedFile.None? && sendDisabled == buttonDisabled
      ensures soundsPlayed == [] && requests == []
    {
      messages := [];
      placeholderVisible := true;
      isTyping := false;
      isMuted := false;
      selectedModel := None;
      input := "";
      selectedFile := None;
      sendDisabled := buttonDisabled;
      soundsPlayed := [];
      requests := [];
    }

    /** applyInitialSettings: the mute flag saved by an earlier visit. */
    method ApplyInitialSettings(savedMuted: bool)
      modifies this`isMuted
      ensures isMuted == savedMuted
    {
      isMuted := savedMuted;
    }

    method SetSelectedModel(model: Persona)
      modifies this`selectedModel
      ensures selectedModel == Some(model)
    {
      selectedModel := Some(model);
    }

    /** playSound: nothing while muted. */
    method PlaySound(soundId: string)
      modifies this`soundsPlayed
      ensures soundsPlayed == if isMuted then old(soundsPlayed) else old(soundsPlayed) + [soundId]
    {
      if isMuted {
        return;
      }
      soundsPlayed := soundsPlayed + [soundId];
    }

    /** addMessageToUI: appends one bubble, hides the placeholder, and plays a sound when asked and not muted. */
    method AddMessageToUI(role: string, content: string, playSound: bool)
      modifies this`messages, this`placeholderVisible, this`soundsPlayed
      ensures Valid()
      ensures messages == old(messages) + [Message(role, content)]
      ensures soundsPlayed == if playSound && !isMuted then old(soundsPlayed) + [SoundFor(role)] else old(soundsPlayed)
    {
      placeholderVisible := false;
      messages := messages + [Message(role, content)];
      if playSound {
        PlaySound(SoundFor(role));
      }
    }

    /** showTyping: sets the flag; when it is already set nothing changes. */
    method ShowTyping()
      modifies this`isTyping
      ensures isTyping
    {
      if isTyping {
        return;
      }
      isTyping := true;
    }

    /** hideTyping: always clears the flag. */
    method HideTyping()
      modifies this`isTyping
      ensures !isTyping
    {
      isTyping := false;
    }

    /** toggleMute: flips the flag (its persistence in localStorage is not modelled). */
    method ToggleMute()
      modifies this`isMuted
      ensures isMuted == !old(isMuted)
    {
      isMuted := !isMuted;
    }

    method UpdateSendButton()
      modifies this`sendDisabled
      ensures sendDisabled == SendDisabled(input, selectedFile)
    {
      var hasText := |Text.Trim(input)| > 0;
      var hasImage := selectedFile.Some?;
      sendDisabled := !hasText && !hasImage;
    }

    /** The input box's `input` event: new text, then the send button is updated. */
    method OnInput(text: string)
      modifies this`input, this`sendDisabled
      ensures input == text
      ensures sendDisabled == SendDisabled(text, selectedFile)
    {
      input := text;
      UpdateSendButton();
    }

    /** handleFileUpload: the picker's `change` event; the button is only updated when a file was chosen. */
    method HandleFileUpload(file: Option<string>)
      modifies this`selectedFile, this`sendDisabled
      ensures selectedFile == file
      ensures sendDisabled == if file.Some? then SendDisabled(input, file) else old(sendDisabled)
    {
      selectedFile := file;
      if file.None? {
        return;
      }
      UpdateSendButton();
    }

    /** clearChatInterface: empties the view and shows the placeholder (the animated variant's delay is not modelled). */
    method ClearChatInterface()
      modifies this`messages, this`placeholderVisible
      ensures Valid()
      ensures messages == []
    {
      messages := [];
      placeholderVisible := true;
    }

    /**
     * clearChat: with no persona selected nothing happens; otherwise the view
     * is emptied and a delete request is sent, whose outcome the controller
     * never reads.
     */
    method ClearChat()
      modifies this`messages, this`placeholderVisible, this`requests
      ensures selectedModel.None? ==> unchanged(this)
      ensures selectedModel.Some? ==> Valid() && messages == []
      ensures selectedModel.Some? ==> requests == old(requests) + [ClearPost(selectedModel.value.id)]
    {
      if selectedModel.None? {
        return;
      }
      ClearChatInterface();
      requests := requests + [ClearPost(selectedModel.value.id)];
    }

    /**
     * loadAndRenderHistory: the view is emptied, one request is sent, and then
     * the view holds the history's bubbles in the server's order (none, with
     * the placeholder shown, for an empty history), or one system bubble
     * when the load fails.
     */
    method LoadAndRenderHistory(modelId: string, outcome: HistoryOutcome)
      modifies this`messages, this`placeholderVisible, this`requests, this`soundsPlayed
      ensures Valid()
      ensures requests == old(requests) + [HistoryGet("/history/" + modelId)]
      ensures outcome.Loaded? ==> messages == Bubbles(outcome.history)
      ensures outcome.LoadFailed? ==> messages == [Message(SystemRole, HistoryLoadError)]
      ensures soundsPlayed == old(soundsPlayed)
    {
      ClearChatInterface();
      requests := requests + [HistoryGet("/history/" + modelId)];
      match outcome {
        case LoadFailed =>
          AddMessageToUI(SystemRole, HistoryLoadError, false);
        case Loaded(history) =>
          var i := 0;
          while i < |history|
            invariant 0 <= i <= |history|
            invariant Valid()
            invariant messages == Bubbles(history[..i])
            invariant soundsPlayed == old(soundsPlayed)
            invariant requests == old(requests) + [HistoryGet("/history/" + modelId)]
          {
            assert history[..i + 1][..i] == history[..i];
            AddMessageToUI(history[i].role, history[i].content, false);
            i := i + 1;
          }
          assert history[..|history|] == history;
      }
    }

    /**
     * sendMessage. When the trimmed input is empty and no file is selected,
     * nothing at all changes. Otherwise the user's bubble is appended at
     * once, the input and the picker are cleared, one request goes to the
     * persona's endpoint, exactly one more bubble (Resolution) is appended
     * when it ends, and typing is off on every path.
     */
    method SendMessage(outcome: SendOutcome)
      requires Valid()
      modifies this`messages, this`placeholderVisible, this`soundsPlayed, this`input, this`isTyping,
               this`selectedFile, this`sendDisabled, this`requests
      ensures Valid()
      ensures Text.Trim(old(input)) == [] && old(selectedFile).None? ==> unchanged(this)
      ensures !(Text.Trim(old(input)) == [] && old(selectedFile).None?) ==>
                && messages == old(messages) + [Message(UserRole, UserText(Text.Trim(old(input)))),
                                                Resolution(selectedModel, outcome)]
                && !isTyping
                && input == "" && selectedFile.None? && sendDisabled
                && requests == old(requests) +
                     (if selectedModel.Some?
                      then [ChatPost(selectedModel.value.endpoint, Text.Trim(old(input)), old(selectedFile))]
                      else [])
                && soundsPlayed == old(soundsPlayed) + SendSounds(isMuted, selectedModel, outcome)
    {
      var messageText := Text.Trim(input);
      if messageText == [] && selectedFile.None? {
        return;
      }
      var imageDataUrl := Submit(messageText);
      Settle(messageText, imageDataUrl, outcome);
    }

    /**
     * The first half of a non-empty send, before the request: the user's
     * bubble (with the outgoing sound), then the input and the picker are
     * cleared, typing shows and the send button is disabled. The picked
     * file's data URL is handed on to the request.
     */
    method Submit(messageText: string) returns (imageDataUrl: Option<string>)
      requires Valid()
      modifies this`messages, this`placeholderVisible, this`soundsPlayed, this`input, this`isTyping,
               this`selectedFile, this`sendDisabled
      ensures Valid()
      ensures imageDataUrl == old(selectedFile)
      ensures messages == old(messages) + [Message(UserRole, UserText(messageText))]
      ensures soundsPlayed == if isMuted then old(soundsPlayed) else old(soundsPlayed) + [OutgoingSound]
      ensures input == "" && isTyping && selectedFile.None? && sendDisabled
    {
      AddMessageToUI(UserRole, UserText(messageText), true);
      input := "";
      ShowTyping();

      imageDataUrl := None;
      if selectedFile.Some? {
        imageDataUrl := selectedFile;
        selectedFile := None;
      }

      UpdateSendButton();
    }

    /**
     * The second half of a send: the request to the persona's endpoint (none
     * when no persona is selected, where reading its endpoint throws), the
     * one bubble its outcome settles into, and typing off in every case.
     */
    method Settle(messageText: string, imageDataUrl: Option<string>, outcome: SendOutcome)
      requires Valid()
      modifies this`messages, this`placeholderVisible, this`soundsPlayed, this`isTyping, this`requests
      ensures Valid()
      ensures messages == old(messages) + [Resolution(selectedModel, outcome)]
      ensures !isTyping
      ensures requests == old(requests) +
                (if selectedModel.Some? then [ChatPost(selectedModel.value.endpoint, messageText, imageDataUrl)] else [])
      ensures soundsPlayed ==
                if !isMuted && selectedModel.Some? && outcome.Replied?
                then old(soundsPlayed) + [IncomingSound]
                else old(soundsPlayed)
    {
      if selectedModel.Some? {
        requests := requests + [ChatPost(selectedModel.value.endpoint, messageText, imageDataUrl)];
      }
      var settled := Resolution(selectedModel, outcome);
      AddMessageToUI(settled.role, settled.content, settled.role == ModelRole);
      HideTyping();
    }
  }
}
