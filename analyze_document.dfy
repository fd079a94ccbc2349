/**
 * The document-analysis feature. The first message of a transcript, and every
 * message with an attachment, goes to the analysis service; later text-only
 * messages go to the follow-up chat, which is given the transcript from before
 * the new message.
 */
module AnalyzeDocumentFeature {
  import opened Wrappers
  import opened Text
  import opened Json
  import opened Types
  import opened GeminiService
  import opened ChatTranscript

  const SystemId: string := "system-init-analysis"
  const GreetingId: string := "model-greeting-analysis"
  const Greeting: string := "Xin chào! Đây là chức năng Phân tích văn bản. Hãy cung cấp yêu cầu, dán nội dung, tải tệp (PDF, TXT, Ảnh, Âm thanh, Video...) hoặc URL để AI phân tích và hỗ trợ bạn."
  const PendingText: string := "AI đang xử lý..."
  const SessionExpiredMessage: string := "Phiên làm việc hết hạn hoặc lỗi xác thực. Vui lòng đăng nhập lại."
  const EmptyContentMessage: string := "Nội dung trống. Vui lòng cung cấp văn bản, tệp, hoặc URL để phân tích."
  const DefaultAttachmentName: string := "attached_file"
  const ChatFallbackMessage: string := "Không thể nhận phản hồi từ AI."
  /** The runtime's message when the analysis service reads a field of a missing input. */
  const MissingInputMessage: string := "Cannot read properties of null (reading 'url')"

  /**
   * The analysis input for a send: a file or image attachment with a MIME type
   * and data is file input, a URL attachment with data is URL input, no
   * attachment means the text itself; any other attachment gives no input.
   */
  function AnalysisInputFor(content: string, attachment: Option<Attachment>): (r: Option<AnalysisInput>)
    ensures attachment.None? ==> r == Some(TextInput(content))
    ensures attachment.Some? && (attachment.value.kind == File || attachment.value.kind == Image)
            && Truthy(attachment.value.mimeType) && attachment.value.data != [] ==>
      r == Some(ObjectInput(None, Some(attachment.value.data), attachment.value.mimeType,
                            Some(OrElse(attachment.value.name, DefaultAttachmentName))))
    ensures attachment.Some? && attachment.value.kind == Url && attachment.value.data != [] ==>
      r == Some(ObjectInput(Some(attachment.value.data), None, None, None))
    ensures r.None? <==> (
      || (attachment.Some? && attachment.value.data == [])
      || (attachment.Some? && attachment.value.kind == Audio)
      || (attachment.Some? && (attachment.value.kind == File || attachment.value.kind == Image) && !Truthy(attachment.value.mimeType)))
  {
    match attachment
    case None => Some(TextInput(content))
    case Some(a) =>
      match a.kind
      case File | Image =>
        if Truthy(a.mimeType) && a.data != [] then
          Some(ObjectInput(None, Some(a.data), a.mimeType, Some(OrElse(a.name, DefaultAttachmentName))))
        else None
      case Url => if a.data != [] then Some(ObjectInput(Some(a.data), None, None, None)) else None
      case Audio => None
  }

  /**
   * Every input this feature builds passes the service's dispatch, with the
   * query type matching the attachment, so the service never rejects it.
   */
  lemma AnalysisInputDispatches(content: string, attachment: Option<Attachment>)
    requires AnalysisInputFor(content, attachment).Some?
    ensures var d := DispatchAnalysisInput(AnalysisInputFor(content, attachment).value);
      d.Success?
      && d.value.queryType == (if attachment.None? then TextQuery else if attachment.value.kind == Url then UrlQuery else FileQuery)
      && (attachment.Some? && attachment.value.kind != Url ==>
            d.value.originalUserQuery == OrElse(attachment.value.name, DefaultAttachmentName))
  {
  }

  /** The outcome of the analysis call, including the crash when there is no input but the text is non-blank. */
  function AnalysisOutcome(input: Option<AnalysisInput>, reply: Result<AiReply, string>, parse: string -> Option<Json>)
    : Result<AnalysisResult, string>
  {
    if input.None? then Failure(MissingInputMessage) else GeminiService.AnalyzeDocument(input.value, reply, parse)
  }

  function AnalysisReply(now: int, result: AnalysisResult): (m: ChatMessage)
    ensures m.role == Model && !m.isLoading && m.content == result.tasks && m.analysisData == Some(result)
  {
    ChatMessage(ResponseId(now), Model, result.tasks, now, false, None, Some(result), None)
  }

  datatype Route = NotSent | Analysis | FollowUp

  /** The analysis path is taken for any attachment and for the first user message of a transcript. */
  function RouteFor(h: seq<ChatMessage>, attachment: Option<Attachment>): Route
  {
    if attachment.Some? || UserMessageCount(h) == 0 then Analysis else FollowUp
  }

  /**
   * Once a send has completed (the placeholder was replaced or failed), the
   * transcript holds a user message, so the next send without an attachment
   * goes to the follow-up chat.
   */
  lemma CompletedSendLeadsToFollowUp(h: seq<ChatMessage>, user: ChatMessage, placeholder: ChatMessage, reply: ChatMessage)
    requires user.role == User && user.id != placeholder.id
    ensures RouteFor(ReplaceById(h + [user, placeholder], placeholder.id, reply), None) == FollowUp
  {
    var r := ReplaceById(h + [user, placeholder], placeholder.id, reply);
    assert r[|h|] == user;
    CountPositive(r, |h|);
  }

  lemma {:induction false} CountPositive(h: seq<ChatMessage>, k: nat)
    requires k < |h| && h[k].role == User
    ensures UserMessageCount(h) > 0
  {
    if k > 0 {
      assert h[1..][k - 1] == h[k];
      CountPositive(h[1..], k - 1);
    }
  }

  /**
   * The analysis is refused when its input is falsy (none, or the empty text
   * typed without an attachment) and the text is blank.
   */
  predicate Refused(content: string, attachment: Option<Attachment>)
  {
    var input := AnalysisInputFor(content, attachment);
    (input.None? || input == Some(TextInput([]))) && IsBlank(content)
  }

  /**
   * The refusal happens exactly for an empty text without an attachment, or an
   * unusable attachment with blank text; a whitespace-only text without an
   * attachment is a truthy input and goes to the analysis.
   */
  lemma RefusedCases(content: string, attachment: Option<Attachment>)
    ensures Refused(content, attachment) <==>
      (attachment.None? && content == []) || (AnalysisInputFor(content, attachment).None? && IsBlank(content))
    ensures attachment.None? && content != [] ==> !Refused(content, attachment)
  {
  }

  /** The request made by a send. */
  datatype ServiceCall = NoCall | AnalysisCall(input: Option<AnalysisInput>) | ChatCall(contents: seq<Content>)

  /** The transcript with the new user message and the loading placeholder appended. */
  function Exchange(h: seq<ChatMessage>, content: string, attachment: Option<Attachment>, now: int): seq<ChatMessage>
  {
    h + [UserMessage(now, content, attachment), LoadingPlaceholder(now, PendingText)]
  }

  /**
   * The analysis path: transcript, current analysis, error and request after
   * the call. Without input and with blank text the exchange is rolled back.
   * The first analysis of a transcript clears the previous result.
   */
  function AnalysisStep(h: seq<ChatMessage>, previous: Option<AnalysisResult>, content: string,
                        attachment: Option<Attachment>, now: int,
                        reply: Result<AiReply, string>, parse: string -> Option<Json>)
    : (seq<ChatMessage>, Option<AnalysisResult>, Option<string>, ServiceCall)
  {
    StepWithOutcome(h, previous, content, attachment, now,
                    AnalysisOutcome(AnalysisInputFor(content, attachment), reply, parse))
  }

  function StepWithOutcome(h: seq<ChatMessage>, previous: Option<AnalysisResult>, content: string,
                           attachment: Option<Attachment>, now: int, outcome: Result<AnalysisResult, string>)
    : (seq<ChatMessage>, Option<AnalysisResult>, Option<string>, ServiceCall)
  {
    var exchange := Exchange(h, content, attachment, now);
    var kept := if UserMessageCount(h) == 0 then None else previous;
    var input := AnalysisInputFor(content, attachment);
    if Refused(content, attachment) then
      (RemoveIds(exchange, UserMessageId(now), PlaceholderId(now)), kept, Some(EmptyContentMessage), NoCall)
    else
      var (history, result, error) := OutcomeApplied(exchange, kept, now, outcome);
      (history, result, error, AnalysisCall(input))
  }

  /** The two paths of the analysis step: the rejected empty send, and the applied outcome. */
  lemma StepWithOutcomeCases(h: seq<ChatMessage>, previous: Option<AnalysisResult>, content: string,
                             attachment: Option<Attachment>, now: int, outcome: Result<AnalysisResult, string>,
                             rejected: bool)
    requires rejected == Refused(content, attachment)
    ensures var kept := if UserMessageCount(h) == 0 then None else previous;
      var step := StepWithOutcome(h, previous, content, attachment, now, outcome);
      if rejected then
        step == (RemoveIds(Exchange(h, content, attachment, now), UserMessageId(now), PlaceholderId(now)),
                 kept, Some(EmptyContentMessage), NoCall)
      else
        (step.0, step.1, step.2) == OutcomeApplied(Exchange(h, content, attachment, now), kept, now, outcome)
        && step.3 == AnalysisCall(AnalysisInputFor(content, attachment))
  {
  }

  /** The placeholder becomes the result's reply, or is marked failed with the error shown. */
  function OutcomeApplied(h: seq<ChatMessage>, previous: Option<AnalysisResult>, now: int,
                          outcome: Result<AnalysisResult, string>)
    : (seq<ChatMessage>, Option<AnalysisResult>, Option<string>)
  {
    match outcome
    case Success(result) =>
      (ReplaceById(h, PlaceholderId(now), AnalysisReply(now, result)), Some(result), None)
    case Failure(message) =>
      var text := "Lỗi phân tích: " + FeatureErrorText(message);
      (MarkFailedById(h, PlaceholderId(now), text), previous, Some(text))
  }

  /** The follow-up path: transcript, error and request after the chat call. */
  function FollowUpStep(h: seq<ChatMessage>, content: string, attachment: Option<Attachment>, now: int,
                        reply: Result<AiReply, string>)
    : (seq<ChatMessage>, Option<string>, ServiceCall)
  {
    var exchange := Exchange(h, content, attachment, now);
    var call := ChatCall(ChatContents(h, ChatGenerationContent(content, attachment)));
    var (history, error) := ChatReplyApplied(exchange, now, reply);
    (history, error, call)
  }

  /** The placeholder becomes the model's reply, or is marked failed with the chat error shown. */
  function ChatReplyApplied(h: seq<ChatMessage>, now: int, reply: Result<AiReply, string>)
    : (seq<ChatMessage>, Option<string>)
  {
    match reply
    case Success(response) => (ReplaceById(h, PlaceholderId(now), ModelReply(now, response.text)), None)
    case Failure(message) =>
      var text := "Lỗi chat: " + ErrorText(ErrorText(message, ChatDefaultErrorMessage), ChatFallbackMessage);
      (MarkFailedById(h, PlaceholderId(now), text), Some(text))
  }

  /** A refused analysis (falsy input, blank text) leaves a transcript without those ids as it was. */
  lemma RejectedAnalysisRestores(h: seq<ChatMessage>, previous: Option<AnalysisResult>, content: string,
                                 attachment: Option<Attachment>, now: int,
                                 reply: Result<AiReply, string>, parse: string -> Option<Json>)
    requires Refused(content, attachment)
    requires !HasId(h, UserMessageId(now)) && !HasId(h, PlaceholderId(now))
    ensures var (h', _, e, c) := AnalysisStep(h, previous, content, attachment, now, reply, parse);
      h' == h && e == Some(EmptyContentMessage) && c == NoCall
  {
    RollbackRestores(h, UserMessage(now, content, attachment), LoadingPlaceholder(now, PendingText));
  }

  /**
   * A finished analysis: the placeholder becomes the reply carrying the
   * result, which becomes the current analysis; everything before the
   * exchange is kept.
   */
  lemma AnalysisSuccessShape(h: seq<ChatMessage>, previous: Option<AnalysisResult>, content: string,
                             attachment: Option<Attachment>, now: int,
                             reply: Result<AiReply, string>, parse: string -> Option<Json>)
    requires !Refused(content, attachment)
    requires AnalysisOutcome(AnalysisInputFor(content, attachment), reply, parse).Success?
    requires !HasId(h, PlaceholderId(now))
    ensures var result := AnalysisOutcome(AnalysisInputFor(content, attachment), reply, parse).value;
      var (h', a, e, _) := AnalysisStep(h, previous, content, attachment, now, reply, parse);
      h' == h + [UserMessage(now, content, attachment), AnalysisReply(now, result)]
      && a == Some(result) && e == None && LastAnalysisData(h') == Some(result)
  {
    var result := AnalysisOutcome(AnalysisInputFor(content, attachment), reply, parse).value;
    ExchangeIdsDistinct(now, now);
    ReplacePlaceholderOnly(h, UserMessage(now, content, attachment), LoadingPlaceholder(now, PendingText), AnalysisReply(now, result));
    var h' := h + [UserMessage(now, content, attachment), AnalysisReply(now, result)];
    assert h'[|h'| - 1] == AnalysisReply(now, result);
  }

  /** The follow-up request is the earlier transcript plus the new turn: the message is sent once. */
  lemma FollowUpSendsMessageOnce(h: seq<ChatMessage>, content: string, attachment: Option<Attachment>, now: int,
                                 reply: Result<AiReply, string>)
    ensures var (_, _, c) := FollowUpStep(h, content, attachment, now, reply);
      c.ChatCall? && |c.contents| == |BuildHistoryForApi(h)| + 1
      && c.contents[..|c.contents| - 1] == BuildHistoryForApi(h)
      && c.contents[|c.contents| - 1] == Content(UserTurn, NewTurnParts(ChatGenerationContent(content, attachment)))
  {
    ChatContentsShape(h, ChatGenerationContent(content, attachment));
  }

  /** The document-analysis screen: transcript, current analysis, flags. */
  class AnalyzeDocumentSession {
    const systemInstruction: string
    var chatHistory: seq<ChatMessage>
    var analysisResult: Option<AnalysisResult>
    var isLoading: bool
    var isChatLoading: bool
    var error: Option<string>
    var hasLoadedHistory: bool

    constructor(systemInstruction: string)
      ensures this.systemInstruction == systemInstruction
      ensures chatHistory == [] && analysisResult == None && isLoading && !isChatLoading && error == None && !hasLoadedHistory
    {
      this.systemInstruction := systemInstruction;
      chatHistory := [];
      analysisResult := None;
      isLoading := true;
      isChatLoading := false;
      error := None;
      hasLoadedHistory := false;
    }

    /**
     * The load effect: a stored non-empty history is restored together with
     * the analysis of its last finished model message carrying one; otherwise a
     * fresh transcript. Signing out clears transcript and analysis.
     */
    method LoadHistory(isAuthenticated: bool, user: Option<UserProfile>, stored: Option<seq<ChatMessage>>, now: int)
      modifies this
      ensures isAuthenticated && user.Some? && !old(hasLoadedHistory) ==>
        chatHistory == RestoredHistory(stored, InitialChat(SystemId, systemInstruction, GreetingId, Greeting, now))
        && hasLoadedHistory && !isLoading
        && analysisResult == (if stored.Some? && stored.value != [] && LastAnalysisData(stored.value).Some?
                              then LastAnalysisData(stored.value) else old(analysisResult))
      ensures !isAuthenticated ==>
        chatHistory == [] && analysisResult == None && !hasLoadedHistory && !isLoading
      ensures isAuthenticated && user.Some? && old(hasLoadedHistory) ==>
        chatHistory == old(chatHistory) && analysisResult == old(analysisResult) && hasLoadedHistory && !isLoading
      ensures isAuthenticated && user.None? ==>
        chatHistory == old(chatHistory) && analysisResult == old(analysisResult)
        && hasLoadedHistory == old(hasLoadedHistory) && isLoading == old(isLoading)
      ensures error == old(error) && isChatLoading == old(isChatLoading)
    {
      if isAuthenticated && user.Some? && !hasLoadedHistory {
        isLoading := true;
        if stored.Some? && |stored.value| > 0 {
          chatHistory := stored.value;
          var last := LastAnalysisData(stored.value);
          if last.Some? {
            analysisResult := last;
          }
        } else {
          chatHistory := InitialChat(SystemId, systemInstruction, GreetingId, Greeting, now);
        }
        hasLoadedHistory := true;
        isLoading := false;
      } else if !isAuthenticated {
        chatHistory := [];
        analysisResult := None;
        hasLoadedHistory := false;
        isLoading := false;
      } else if isAuthenticated && user.Some? && hasLoadedHistory {
        isLoading := false;
      }
    }

    function ExportableChatContent(stamp: int -> string, userName: Option<string>): string
      reads this
    {
      ExportTranscript(chatHistory, (m: ChatMessage) => MessageBlock(m, stamp, userName))
    }

    predicate ShouldSave(isAuthenticated: bool, user: Option<UserProfile>)
      reads this
    {
      ShouldSaveHistory(isAuthenticated, user, chatHistory, hasLoadedHistory)
    }

    /**
     * A send. Signed out: an error and nothing else. Otherwise the user message
     * and a placeholder are appended and the route is chosen: any attachment,
     * or a transcript without a user message, goes to analysis, the rest to the
     * follow-up chat.
     */
    method HandleSendChatMessage(isAuthenticated: bool, user: Option<UserProfile>, content: string,
                                 attachment: Option<Attachment>, now: int,
                                 reply: Result<AiReply, string>, parse: string -> Option<Json>)
      returns (route: Route, call: ServiceCall)
      modifies this
      ensures !(isAuthenticated && user.Some?) ==>
        route == NotSent && call == NoCall && error == Some(SessionExpiredMessage)
        && chatHistory == old(chatHistory) && analysisResult == old(analysisResult)
        && isLoading == old(isLoading) && isChatLoading == old(isChatLoading)
      ensures isAuthenticated && user.Some? ==> route == RouteFor(old(chatHistory), attachment)
      ensures route == Analysis ==>
        AnalysisStep(old(chatHistory), old(analysisResult), content, attachment, now, reply, parse)
          == (chatHistory, analysisResult, error, call)
        && !isLoading && isChatLoading == old(isChatLoading)
      ensures route == FollowUp ==>
        FollowUpStep(old(chatHistory), content, attachment, now, reply) == (chatHistory, error, call)
        && !isChatLoading && isLoading == old(isLoading) && analysisResult == old(analysisResult)
      ensures hasLoadedHistory == old(hasLoadedHistory)
    {
      if !isAuthenticated || user.None? {
        error := Some(SessionExpiredMessage);
        return NotSent, NoCall;
      }
      if attachment.Some? || UserMessageCount(chatHistory) == 0 {
        route := Analysis;
        call := RunAnalysis(content, attachment, now, reply, parse);
      } else {
        route := FollowUp;
        call := RunFollowUp(content, attachment, now, reply);
      }
    }

    /** The common start of a send: the error is cleared, the user message and the placeholder appended. */
    method AppendExchange(content: string, attachment: Option<Attachment>, now: int)
      modifies this`chatHistory, this`error
      ensures chatHistory == Exchange(old(chatHistory), content, attachment, now) && error == None
      ensures analysisResult == old(analysisResult) && isLoading == old(isLoading)
      ensures isChatLoading == old(isChatLoading) && hasLoadedHistory == old(hasLoadedHistory)
    {
      error := None;
      chatHistory := chatHistory + [UserMessage(now, content, attachment)];
      chatHistory := chatHistory + [LoadingPlaceholder(now, PendingText)];
    }

    method RunAnalysis(content: string, attachment: Option<Attachment>, now: int,
                       reply: Result<AiReply, string>, parse: string -> Option<Json>)
      returns (call: ServiceCall)
      modifies this`chatHistory, this`analysisResult, this`error, this`isLoading
      ensures AnalysisStep(old(chatHistory), old(analysisResult), content, attachment, now, reply, parse)
              == (chatHistory, analysisResult, error, call)
      ensures !isLoading && isChatLoading == old(isChatLoading) && hasLoadedHistory == old(hasLoadedHistory)
    {
      var analysisInput := AnalysisInputFor(content, attachment);
      call := RunAnalysisWith(content, attachment, now, AnalysisOutcome(analysisInput, reply, parse));
    }

    /** The analysis path once the service's outcome is known. */
    method RunAnalysisWith(content: string, attachment: Option<Attachment>, now: int,
                           outcome: Result<AnalysisResult, string>)
      returns (call: ServiceCall)
      modifies this`chatHistory, this`analysisResult, this`error, this`isLoading
      ensures (chatHistory, analysisResult, error, call)
        == StepWithOutcome(old(chatHistory), old(analysisResult), content, attachment, now, outcome)
      ensures !isLoading && isChatLoading == old(isChatLoading) && hasLoadedHistory == old(hasLoadedHistory)
    {
      ghost var h0, r0 := chatHistory, analysisResult;
      BeginAnalysis(content, attachment, now);
      StepWithOutcomeCases(h0, r0, content, attachment, now, outcome, Refused(content, attachment));
      call := FinishAnalysis(content, attachment, now, outcome);
    }

    /** The send: the exchange is appended, loading starts, and a first analysis clears the previous result. */
    method BeginAnalysis(content: string, attachment: Option<Attachment>, now: int)
      modifies this`chatHistory, this`analysisResult, this`error, this`isLoading
      ensures chatHistory == Exchange(old(chatHistory), content, attachment, now) && error == None && isLoading
      ensures analysisResult == if UserMessageCount(old(chatHistory)) == 0 then None else old(analysisResult)
      ensures isChatLoading == old(isChatLoading) && hasLoadedHistory == old(hasLoadedHistory)
    {
      var isInitialAnalysis := UserMessageCount(chatHistory) == 0;
      AppendExchange(content, attachment, now);
      isLoading := true;
      if isInitialAnalysis {
        analysisResult := None;
      }
    }

    /** The refusal of empty content, or the service call and its outcome; loading ends either way. */
    method FinishAnalysis(content: string, attachment: Option<Attachment>, now: int,
                          outcome: Result<AnalysisResult, string>)
      returns (call: ServiceCall)
      requires error == None
      modifies this`chatHistory, this`analysisResult, this`error, this`isLoading
      ensures Refused(content, attachment) ==>
        chatHistory == RemoveIds(old(chatHistory), UserMessageId(now), PlaceholderId(now))
        && analysisResult == old(analysisResult) && error == Some(EmptyContentMessage) && call == NoCall
      ensures !Refused(content, attachment) ==>
        (chatHistory, analysisResult, error) == OutcomeApplied(old(chatHistory), old(analysisResult), now, outcome)
        && call == AnalysisCall(AnalysisInputFor(content, attachment))
      ensures !isLoading && isChatLoading == old(isChatLoading) && hasLoadedHistory == old(hasLoadedHistory)
    {
      var analysisInput := AnalysisInputFor(content, attachment);
      var rejected := Refused(content, attachment);
      if rejected {
        RejectEmptyContent(now);
        call := NoCall;
      } else {
        call := AnalysisCall(analysisInput);
        ApplyOutcome(outcome, now);
      }
      isLoading := false;
    }

    /** Nothing to analyse: the exchange is taken back and the empty-content error shown. */
    method RejectEmptyContent(now: int)
      modifies this`chatHistory, this`error
      ensures chatHistory == RemoveIds(old(chatHistory), UserMessageId(now), PlaceholderId(now))
      ensures error == Some(EmptyContentMessage) && analysisResult == old(analysisResult)
      ensures isChatLoading == old(isChatLoading) && hasLoadedHistory == old(hasLoadedHistory)
    {
      error := Some(EmptyContentMessage);
      chatHistory := RemoveIds(chatHistory, UserMessageId(now), PlaceholderId(now));
    }

    /** The end of an analysis: the placeholder becomes the result's reply or an error message. */
    method ApplyOutcome(outcome: Result<AnalysisResult, string>, now: int)
      modifies this`chatHistory, this`analysisResult, this`error
      requires error == None
      ensures (chatHistory, analysisResult, error) == OutcomeApplied(old(chatHistory), old(analysisResult), now, outcome)
      ensures isLoading == old(isLoading) && isChatLoading == old(isChatLoading) && hasLoadedHistory == old(hasLoadedHistory)
    {
      match outcome {
        case Success(result) =>
          analysisResult := Some(result);
          chatHistory := ReplaceById(chatHistory, PlaceholderId(now), AnalysisReply(now, result));
        case Failure(message) =>
          var errorMessageText := FeatureErrorText(message);
          chatHistory := MarkFailedById(chatHistory, PlaceholderId(now), "Lỗi phân tích: " + errorMessageText);
          error := Some("Lỗi phân tích: " + errorMessageText);
      }
    }

    method RunFollowUp(content: string, attachment: Option<Attachment>, now: int, reply: Result<AiReply, string>)
      returns (call: ServiceCall)
      modifies this`chatHistory, this`error, this`isChatLoading
      ensures FollowUpStep(old(chatHistory), content, attachment, now, reply) == (chatHistory, error, call)
      ensures !isChatLoading && isLoading == old(isLoading) && analysisResult == old(analysisResult)
      ensures hasLoadedHistory == old(hasLoadedHistory)
    {
      ghost var exchange := Exchange(chatHistory, content, attachment, now);
      var before := chatHistory;
      AppendExchange(content, attachment, now);
      isChatLoading := true;
      var contents := AssembleChatContents(before, ChatGenerationContent(content, attachment));
      call := ChatCall(contents);
      ApplyChatReply(reply, now);
      isChatLoading := false;
    }

    /** The end of a follow-up: the placeholder becomes the reply or a chat error. */
    method ApplyChatReply(reply: Result<AiReply, string>, now: int)
      modifies this`chatHistory, this`error
      requires error == None
      ensures (chatHistory, error) == ChatReplyApplied(old(chatHistory), now, reply)
      ensures isLoading == old(isLoading) && isChatLoading == old(isChatLoading)
      ensures analysisResult == old(analysisResult) && hasLoadedHistory == old(hasLoadedHistory)
    {
      match reply {
        case Success(response) =>
          chatHistory := ReplaceById(chatHistory, PlaceholderId(now), ModelReply(now, response.text));
        case Failure(message) =>
          var errorMessageText := ErrorText(ErrorText(message, ChatDefaultErrorMessage), ChatFallbackMessage);
          chatHistory := MarkFailedById(chatHistory, PlaceholderId(now), "Lỗi chat: " + errorMessageText);
          error := Some("Lỗi chat: " + errorMessageText);
      }
    }
  }
}
