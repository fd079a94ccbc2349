/**
 * The two generation features built on one chat loop: multimedia extraction
 * and generic drafting. They differ only in their constants (ids, greeting,
 * placeholder and error wording), so one session class serves both.
 */
module GenerationChat {
  import opened Wrappers
  import opened Text
  import opened Types
  import opened GeminiService
  import opened ChatTranscript

  /** The constants that tell the two generation features apart. */
  datatype GenerationFeature = GenerationFeature(
    key: FeatureKey,
    systemId: string,
    greetingId: string,
    greeting: string,
    greetingPrefix: string,
    pendingText: string,
    errorPrefix: string,
    errorBannerPrefix: string)

  const MultimediaGreetingPrefix: string := "Xin chào! Đây là chức năng Trích xuất Đa phương tiện"
  const DraftGreetingPrefix: string := "Xin chào! Đây là chức năng Soạn thảo văn bản."

  const Multimedia: GenerationFeature := GenerationFeature(
    ExtractMultimedia,
    "system-init-multimedia",
    "model-greeting-multimedia",
    MultimediaGreetingPrefix + ". Vui lòng tải lên tệp âm thanh (MP3, WAV,...) để AI phiên âm và tóm tắt nội dung.",
    MultimediaGreetingPrefix,
    "AI đang phân tích...",
    "Lỗi trích xuất: ",
    "Lỗi khi yêu cầu trích xuất đa phương tiện: ")

  const Draft: GenerationFeature := GenerationFeature(
    GenericDraft,
    "system-init-draft",
    "model-greeting-draft",
    DraftGreetingPrefix + " Hãy cho tôi biết bạn muốn soạn loại văn bản nào (ví dụ: công văn, tờ trình, báo cáo...) và cung cấp các thông tin, tài liệu (nếu có) để AI hỗ trợ bạn.",
    DraftGreetingPrefix,
    "AI đang soạn thảo...",
    "Lỗi soạn thảo: ",
    "Lỗi khi yêu cầu soạn thảo: ")

  const SessionExpiredMessage: string := "Phiên làm việc hết hạn hoặc lỗi xác thực. Vui lòng đăng nhập lại."

  /** The text shown for a failed chat request: the service's message, or the service's fallback. */
  function ChatFailureText(message: string): (r: string)
    ensures r != []
  {
    FeatureErrorText(ErrorText(message, ChatDefaultErrorMessage))
  }

  /** Each feature's greeting is recognised by its own greeting prefix, so it never counts as an output. */
  lemma GreetingIsNotOutput(f: GenerationFeature, now: int, instruction: string)
    requires f == Multimedia || f == Draft
    ensures LatestOutput(InitialChat(f.systemId, instruction, f.greetingId, f.greeting, now), f.greetingPrefix) == None
  {
    var h := InitialChat(f.systemId, instruction, f.greetingId, f.greeting, now);
    assert StartsWith(f.greeting, f.greetingPrefix);
    assert !IsOutput(h[0], f.greetingPrefix) && !IsOutput(h[1], f.greetingPrefix);
    LatestOutputIsLastQualifying(h, f.greetingPrefix);
  }

  /**
   * The request the source builds: the transcript already holding the new user
   * message is passed as history, and the service appends the message again.
   */
  function RequestAsWritten(h: seq<ChatMessage>, now: int, text: string, attachment: Option<Attachment>): (r: seq<Content>)
    ensures |r| == |ChatContents(h, ChatGenerationContent(text, attachment))| + 1
  {
    ChatContentsShape(h + [UserMessage(now, text, attachment)], ChatGenerationContent(text, attachment));
    ChatContentsShape(h, ChatGenerationContent(text, attachment));
    Seqs.FilterAppend(h, [UserMessage(now, text, attachment)], NotSystem);
    Seqs.FilterLength(h + [UserMessage(now, text, attachment)], NotSystem);
    Seqs.FilterLength(h, NotSystem);
    Seqs.FilterLength([UserMessage(now, text, attachment)], NotSystem);
    ChatContents(h + [UserMessage(now, text, attachment)], ChatGenerationContent(text, attachment))
  }

  /**
   * As written, the request ends with two user turns for the same message,
   * both carrying its text (when non-blank) and both carrying the inline
   * attachment (when it qualifies): the message and its upload are sent twice.
   */
  lemma RequestAsWrittenRepeatsUserTurn(h: seq<ChatMessage>, now: int, text: string, attachment: Option<Attachment>)
    ensures var r := RequestAsWritten(h, now, text, attachment);
      var m := UserMessage(now, text, attachment);
      |r| >= 2 && r[|r| - 2].role == UserTurn && r[|r| - 1].role == UserTurn
      && r[..|r| - 2] == BuildHistoryForApi(h)
      && (!IsBlank(text) ==> r[|r| - 2].parts[0] == r[|r| - 1].parts[0] == TextPart(text))
      && (HasInlineAttachment(m) ==>
            |r[|r| - 2].parts| == 2 && |r[|r| - 1].parts| == 2 && r[|r| - 2].parts[1] == r[|r| - 1].parts[1])
  {
    var m := UserMessage(now, text, attachment);
    var g := ChatGenerationContent(text, attachment);
    BuildHistoryForApiAppend(h, [m]);
    BuildHistoryForApiKeepsEveryTurn([m]);
    assert [m][1..] == [];
    assert Seqs.Filter([m], NotSystem) == [m];
    assert BuildHistoryForApi([m]) == [ConvertChatMessageToContent(m)];
    var r := RequestAsWritten(h, now, text, attachment);
    assert r == BuildHistoryForApi(h) + [ConvertChatMessageToContent(m)] + [Content(UserTurn, NewTurnParts(g))];
  }

  /** The corrected request sends the history from before the send and then the message exactly once. */
  lemma RequestSendsMessageOnce(h: seq<ChatMessage>, text: string, attachment: Option<Attachment>)
    ensures var r := ChatContents(h, ChatGenerationContent(text, attachment));
      r[..|r| - 1] == BuildHistoryForApi(h) && r[|r| - 1].role == UserTurn
      && |r| == |RequestAsWritten(h, 0, text, attachment)| - 1
  {
    ChatContentsShape(h, ChatGenerationContent(text, attachment));
  }

  /** One multimedia-extraction or drafting screen: its transcript and flags. */
  class GenerationChatSession {
    const feature: GenerationFeature
    const systemInstruction: string
    var chatHistory: seq<ChatMessage>
    var isChatLoading: bool
    var error: Option<string>
    var hasLoadedHistory: bool

    constructor(feature: GenerationFeature, systemInstruction: string)
      ensures this.feature == feature && this.systemInstruction == systemInstruction
      ensures chatHistory == [] && !isChatLoading && error == None && !hasLoadedHistory
    {
      this.feature := feature;
      this.systemInstruction := systemInstruction;
      chatHistory := [];
      isChatLoading := false;
      error := None;
      hasLoadedHistory := false;
    }

    function InitialTranscript(now: int): seq<ChatMessage>
      reads this
    {
      InitialChat(feature.systemId, systemInstruction, feature.greetingId, feature.greeting, now)
    }

    /**
     * The load effect: a signed-in user's stored history is restored once (a
     * fresh transcript when none is stored); signing out clears the transcript.
     */
    method LoadHistory(isAuthenticated: bool, user: Option<UserProfile>, stored: Option<seq<ChatMessage>>, now: int)
      modifies this
      ensures isAuthenticated && user.Some? && !old(hasLoadedHistory) ==>
        chatHistory == RestoredHistory(stored, InitialTranscript(now)) && hasLoadedHistory && !isChatLoading
      ensures !isAuthenticated ==>
        chatHistory == [] && !hasLoadedHistory && isChatLoading == old(isChatLoading)
      ensures isAuthenticated && !(user.Some? && !old(hasLoadedHistory)) ==>
        chatHistory == old(chatHistory) && hasLoadedHistory == old(hasLoadedHistory) && isChatLoading == old(isChatLoading)
      ensures error == old(error)
    {
      if isAuthenticated && user.Some? && !hasLoadedHistory {
        isChatLoading := true;
        chatHistory := RestoredHistory(stored, InitialTranscript(now));
        hasLoadedHistory := true;
        isChatLoading := false;
      } else if !isAuthenticated {
        chatHistory := [];
        hasLoadedHistory := false;
      }
    }

    /** The latest output panel: the last finished, non-blank model message that is not the greeting. */
    function LatestModelOutput(): Option<string>
      reads this
    {
      LatestOutput(chatHistory, feature.greetingPrefix)
    }

    function ExportableChatContent(stamp: int -> string, userName: Option<string>): string
      reads this
    {
      ExportTranscript(chatHistory, (m: ChatMessage) => MessageBlock(m, stamp, userName))
    }

    predicate ShouldSave(isAuthenticated: bool, user: Option<UserProfile>)
      reads this
    {
      ShouldSaveHistory(isAuthenticated, user, chatHistory, hasLoadedHistory)
    }

    /**
     * A send: refused with an error when signed out; otherwise the user message
     * and a placeholder are appended, the request is made as the page makes it
     * (from the transcript already holding the user message, which the service
     * appends once more), and the placeholder becomes the reply or an error message.
     */
    method HandleSendChatMessage(isAuthenticated: bool, user: Option<UserProfile>, text: string,
                                 attachment: Option<Attachment>, now: int, reply: Result<string, string>)
      returns (request: Option<seq<Content>>)
      modifies this
      ensures !(isAuthenticated && user.Some?) ==>
        request.None? && chatHistory == old(chatHistory) && error == Some(SessionExpiredMessage)
        && isChatLoading == old(isChatLoading)
      ensures isAuthenticated && user.Some? ==>
        request == Some(RequestAsWritten(old(chatHistory), now, text, attachment)) && !isChatLoading
      ensures isAuthenticated && user.Some? && reply.Success? ==>
        chatHistory == ReplaceById(old(chatHistory) + [UserMessage(now, text, attachment), LoadingPlaceholder(now, feature.pendingText)],
                                   PlaceholderId(now), ModelReply(now, reply.value))
        && error == None
      ensures isAuthenticated && user.Some? && reply.Failure? ==>
        chatHistory == MarkFailedById(old(chatHistory) + [UserMessage(now, text, attachment), LoadingPlaceholder(now, feature.pendingText)],
                                      PlaceholderId(now), feature.errorPrefix + ChatFailureText(reply.error))
        && error == Some(feature.errorBannerPrefix + ChatFailureText(reply.error))
      ensures isAuthenticated && user.Some? && !HasId(old(chatHistory), PlaceholderId(now)) ==>
        chatHistory == old(chatHistory) + [UserMessage(now, text, attachment),
          if reply.Success? then ModelReply(now, reply.value)
          else Failed(LoadingPlaceholder(now, feature.pendingText), feature.errorPrefix + ChatFailureText(reply.error))]
      ensures hasLoadedHistory == old(hasLoadedHistory)
    {
      if !isAuthenticated || user.None? {
        error := Some(SessionExpiredMessage);
        return None;
      }
      var before := chatHistory;
      var newUserMessage := UserMessage(now, text, attachment);
      chatHistory := chatHistory + [newUserMessage];
      isChatLoading := true;
      error := None;
      var placeholder := LoadingPlaceholder(now, feature.pendingText);
      chatHistory := chatHistory + [placeholder];
      assert chatHistory == before + [newUserMessage, placeholder];
      ExchangeIdsDistinct(now, now);
      var newHistoryWithUser := before + [newUserMessage];
      var contents := AssembleChatContents(newHistoryWithUser, ChatGenerationContent(text, attachment));
      request := Some(contents);
      match reply {
        case Success(responseText) =>
          chatHistory := ReplaceById(chatHistory, placeholder.id, ModelReply(now, responseText));
          if !HasId(before, placeholder.id) {
            ReplacePlaceholderOnly(before, newUserMessage, placeholder, ModelReply(now, responseText));
          }
        case Failure(message) =>
          var errorMessageText := ChatFailureText(message);
          chatHistory := MarkFailedById(chatHistory, placeholder.id, feature.errorPrefix + errorMessageText);
          error := Some(feature.errorBannerPrefix + errorMessageText);
          if !HasId(before, placeholder.id) {
            FailPlaceholderOnly(before, newUserMessage, placeholder, feature.errorPrefix + errorMessageText);
          }
      }
      isChatLoading := false;
    }
  }
}
