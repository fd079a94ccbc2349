/**
 * The news feature: a topic is sent, the reply's article list becomes a model
 * message with a summary sentence, and the export appends an article block to
 * each message that carries articles.
 */
module NewsChat {
  import opened Wrappers
  import opened Text
  import opened Json
  import opened Types
  import opened GeminiService
  import opened ChatTranscript
  import Seqs

  const SystemId: string := "system-init-news"
  const GreetingId: string := "model-greeting-news"
  const Greeting: string := "Xin chào! Đây là AI Tin tức. Hãy nhập hoặc nói chủ đề bạn muốn tìm hiểu, ví dụ: 'tin tức mới nhất về công nghệ AI tại Việt Nam'."
  const PendingText: string := "AI đang tìm kiếm tin tức..."
  const SessionExpiredMessage: string := "Phiên làm việc hết hạn. Vui lòng đăng nhập lại."
  const AttachmentRejectedMessage: string := "Tính năng này không hỗ trợ tệp đính kèm. Vui lòng chỉ nhập chủ đề bằng văn bản."
  const FoundPrefix: string := "Tôi đã tìm thấy "
  const FoundSuffix: string := " bài báo mới nhất liên quan đến chủ đề của bạn. Dưới đây là danh sách chi tiết. Bạn có muốn thảo luận thêm về tin tức nào không?"
  const NoneFoundPrefix: string := "Rất tiếc, tôi không tìm thấy tin tức nào phù hợp với chủ đề \""
  const NoneFoundSuffix: string := "\". Vui lòng thử lại với một từ khóa khác."

  /** The sentence that introduces the articles of a reply. */
  function SummaryText(count: nat, topic: string): string
  {
    if count > 0 then FoundPrefix + NatToString(count) + FoundSuffix
    else NoneFoundPrefix + topic + NoneFoundSuffix
  }

  /**
   * The summary depends on the topic only when nothing was found: with
   * articles it names their count (which can be read back from it), without
   * any it quotes the topic.
   */
  lemma SummaryTextDependsOnCount(count: nat, topic: string, other: string)
    ensures count > 0 ==> SummaryText(count, topic) == SummaryText(count, other)
    ensures count > 0 ==>
      var digits := SummaryText(count, topic)[|FoundPrefix|..|SummaryText(count, topic)| - |FoundSuffix|];
      (forall i :: 0 <= i < |digits| ==> IsDigit(digits[i])) && DigitsValue(digits) == count
    ensures count == 0 ==> Contains(SummaryText(count, topic), "\"" + topic + "\"")
  {
    if count > 0 {
      var s := SummaryText(count, topic);
      assert s[|FoundPrefix|..|s| - |FoundSuffix|] == NatToString(count);
      NatToStringRoundTrip(count);
    } else {
      assert NoneFoundPrefix == NoneFoundPrefix[..|NoneFoundPrefix| - 1] + "\"";
      assert NoneFoundSuffix == "\"" + NoneFoundSuffix[1..];
      assert SummaryText(count, topic)
          == NoneFoundPrefix[..|NoneFoundPrefix| - 1] + ("\"" + topic + "\"") + NoneFoundSuffix[1..];
      ContainsInfix(NoneFoundPrefix[..|NoneFoundPrefix| - 1], "\"" + topic + "\"", NoneFoundSuffix[1..]);
    }
  }

  /** The model message that carries the articles of a successful reply, exactly as returned. */
  function NewsReply(now: int, topic: string, articles: seq<NewsArticle>): ChatMessage
  {
    ChatMessage(ResponseId(now), Model, SummaryText(|articles|, topic), now, false, None, None, Some(articles))
  }

  /** One article in the export: title, optional date, source, optional summary. */
  function ArticleText(a: NewsArticle): string
  {
    "Tiêu đề: " + a.title + "\n"
    + (if Truthy(a.publicationDate) then "Thời gian: " + a.publicationDate.value + "\n" else "")
    + "Nguồn: " + a.url + "\n\n"
    + (if Truthy(a.summary) then "Tóm tắt:\n" + a.summary.value + "\n" else "")
  }

  const RelatedNewsHeader: string := "\n\n--- TIN TỨC LIÊN QUAN ---\n"

  /** A message's export block, followed by the related-news block when it carries articles. */
  function NewsMessageBlock(m: ChatMessage, stamp: int -> string, userName: Option<string>): string
  {
    MessageBlock(m, stamp, userName)
    + (if m.newsArticles.Some? && |m.newsArticles.value| > 0
       then RelatedNewsHeader + Join(Seqs.Map(m.newsArticles.value, ArticleText), BlockSeparator)
       else "")
  }

  /**
   * A message without articles exports as the plain block; one with articles
   * exports the plain block followed by the related-news header and the
   * articles' texts, in order, joined by the block separator.
   */
  lemma NewsMessageBlockShape(m: ChatMessage, stamp: int -> string, userName: Option<string>)
    ensures !(m.newsArticles.Some? && |m.newsArticles.value| > 0) ==>
      NewsMessageBlock(m, stamp, userName) == MessageBlock(m, stamp, userName)
    ensures m.newsArticles.Some? && |m.newsArticles.value| > 0 ==>
      StartsWith(NewsMessageBlock(m, stamp, userName), MessageBlock(m, stamp, userName) + RelatedNewsHeader)
    ensures m.newsArticles.Some? && |m.newsArticles.value| > 0 ==>
      NewsMessageBlock(m, stamp, userName) == MessageBlock(m, stamp, userName) + RelatedNewsHeader
        + Join(Seqs.Map(m.newsArticles.value, ArticleText), BlockSeparator)
  {
    var b := MessageBlock(m, stamp, userName);
    if m.newsArticles.Some? && |m.newsArticles.value| > 0 {
      var rest := Join(Seqs.Map(m.newsArticles.value, ArticleText), BlockSeparator);
      assert NewsMessageBlock(m, stamp, userName) == (b + RelatedNewsHeader) + rest;
      assert ((b + RelatedNewsHeader) + rest)[..|b + RelatedNewsHeader|] == b + RelatedNewsHeader;
    } else {
      assert NewsMessageBlock(m, stamp, userName) == b + "";
    }
  }

  /** One news screen: its transcript and flags. */
  class NewsSession {
    const systemInstruction: string
    var chatHistory: seq<ChatMessage>
    var isChatLoading: bool
    var error: Option<string>
    var hasLoadedHistory: bool

    constructor(systemInstruction: string)
      ensures this.systemInstruction == systemInstruction
      ensures chatHistory == [] && !isChatLoading && error == None && !hasLoadedHistory
    {
      this.systemInstruction := systemInstruction;
      chatHistory := [];
      isChatLoading := false;
      error := None;
      hasLoadedHistory := false;
    }

    /** The load effect, as in the other chat features. */
    method LoadHistory(isAuthenticated: bool, user: Option<UserProfile>, stored: Option<seq<ChatMessage>>, now: int)
      modifies this
      ensures isAuthenticated && user.Some? && !old(hasLoadedHistory) ==>
        chatHistory == RestoredHistory(stored, InitialChat(SystemId, systemInstruction, GreetingId, Greeting, now))
        && hasLoadedHistory && !isChatLoading
      ensures !isAuthenticated ==>
        chatHistory == [] && !hasLoadedHistory && isChatLoading == old(isChatLoading)
      ensures isAuthenticated && !(user.Some? && !old(hasLoadedHistory)) ==>
        chatHistory == old(chatHistory) && hasLoadedHistory == old(hasLoadedHistory) && isChatLoading == old(isChatLoading)
      ensures error == old(error)
    {
      if isAuthenticated && user.Some? && !hasLoadedHistory {
        isChatLoading := true;
        chatHistory := RestoredHistory(stored, InitialChat(SystemId, systemInstruction, GreetingId, Greeting, now));
        hasLoadedHistory := true;
        isChatLoading := false;
      } else if !isAuthenticated {
        chatHistory := [];
        hasLoadedHistory := false;
      }
    }

    function ExportableChatContent(stamp: int -> string, userName: Option<string>): string
      reads this
    {
      ExportTranscript(chatHistory, (m: ChatMessage) => NewsMessageBlock(m, stamp, userName))
    }

    predicate ShouldSave(isAuthenticated: bool, user: Option<UserProfile>)
      reads this
    {
      ShouldSaveHistory(isAuthenticated, user, chatHistory, hasLoadedHistory)
    }

    /**
     * A send: refused when signed out or when an attachment is given; otherwise
     * the user message and a placeholder are appended and the placeholder
     * becomes the articles' message or an error message.
     */
    method HandleSendMessage(isAuthenticated: bool, user: Option<UserProfile>, topic: string,
                             attachment: Option<Attachment>, now: int,
                             reply: Result<string, string>, parse: string -> Option<Json>)
      modifies this`chatHistory, this`error, this`isChatLoading
      ensures !(isAuthenticated && user.Some?) ==>
        chatHistory == old(chatHistory) && error == Some(SessionExpiredMessage) && isChatLoading == old(isChatLoading)
      ensures isAuthenticated && user.Some? && attachment.Some? ==>
        chatHistory == old(chatHistory) && error == Some(AttachmentRejectedMessage) && isChatLoading == old(isChatLoading)
      ensures isAuthenticated && user.Some? && attachment.None? ==>
        var exchange := old(chatHistory) + [UserMessage(now, topic, None), LoadingPlaceholder(now, PendingText)];
        var outcome := GetNewsUpdate(reply, parse);
        !isChatLoading
        && (outcome.Success? ==>
              chatHistory == ReplaceById(exchange, PlaceholderId(now), NewsReply(now, topic, outcome.value)) && error == None)
        && (outcome.Failure? ==>
              chatHistory == MarkFailedById(exchange, PlaceholderId(now), "Lỗi: " + FeatureErrorText(outcome.error))
              && error == Some("Lỗi khi tìm kiếm tin tức: " + FeatureErrorText(outcome.error)))
      ensures isAuthenticated && user.Some? && attachment.None? && !HasId(old(chatHistory), PlaceholderId(now)) ==>
        var outcome := GetNewsUpdate(reply, parse);
        chatHistory == old(chatHistory) + [UserMessage(now, topic, None),
          if outcome.Success? then NewsReply(now, topic, outcome.value)
          else Failed(LoadingPlaceholder(now, PendingText), "Lỗi: " + FeatureErrorText(outcome.error))]
      ensures hasLoadedHistory == old(hasLoadedHistory)
    {
      if !isAuthenticated || user.None? {
        error := Some(SessionExpiredMessage);
        return;
      }
      if attachment.Some? {
        error := Some(AttachmentRejectedMessage);
        return;
      }
      var before := chatHistory;
      var newUserMessage := UserMessage(now, topic, None);
      chatHistory := chatHistory + [newUserMessage];
      isChatLoading := true;
      error := None;
      var placeholder := LoadingPlaceholder(now, PendingText);
      chatHistory := chatHistory + [placeholder];
      assert chatHistory == before + [newUserMessage, placeholder];
      ExchangeIdsDistinct(now, now);
      match GetNewsUpdate(reply, parse) {
        case Success(articles) =>
          chatHistory := ReplaceById(chatHistory, placeholder.id, NewsReply(now, topic, articles));
          if !HasId(before, placeholder.id) {
            ReplacePlaceholderOnly(before, newUserMessage, placeholder, NewsReply(now, topic, articles));
          }
        case Failure(message) =>
          var errorMessageText := FeatureErrorText(message);
          chatHistory := MarkFailedById(chatHistory, placeholder.id, "Lỗi: " + errorMessageText);
          error := Some("Lỗi khi tìm kiếm tin tức: " + errorMessageText);
          if !HasId(before, placeholder.id) {
            FailPlaceholderOnly(before, newUserMessage, placeholder, "Lỗi: " + errorMessageText);
          }
      }
      isChatLoading := false;
    }
  }
}
