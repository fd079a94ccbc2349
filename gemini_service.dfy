/**
 * The deterministic parts of the Gemini service layer: turning a chat
 * transcript into API turns, assembling a chat request, dispatching on the kind
 * of analysis input, stripping Markdown code fences from replies, and checking
 * the JSON envelopes of analysis and news replies. The model call itself is an
 * input: a reply text or an error message.
 */
module GeminiService {
  import opened Wrappers
  import opened Text
  import opened Json
  import opened Types
  import Seqs

  datatype ApiRole = UserTurn | ModelTurn | SystemTurn

  datatype Part = TextPart(text: string) | InlineDataPart(mimeType: string, data: string)

  /** One turn of the request: a role and its parts. */
  datatype Content = Content(role: ApiRole, parts: seq<Part>)

  const AttachmentOnlyText: string := "(Nội dung được cung cấp trong tệp đính kèm)"
  const HiddenContentText: string := "(Nội dung bị ẩn hoặc không có)"

  /** An attachment travels as inline data when it is an image or a file with a MIME type and data. */
  predicate HasInlineAttachment(m: ChatMessage)
  {
    m.attachment.Some? && (m.attachment.value.kind == Image || m.attachment.value.kind == File)
    && Truthy(m.attachment.value.mimeType) && m.attachment.value.data != []
  }

  /**
   * One transcript message as an API turn. A system message becomes an empty
   * system turn; any other message gets its text part, an inline part for a
   * qualifying attachment, and a placeholder text when its content is blank.
   */
  function ConvertChatMessageToContent(m: ChatMessage): (c: Content)
    ensures m.role == System ==> c == Content(SystemTurn, [])
    ensures m.role != System ==> c.role == (if m.role == User then UserTurn else ModelTurn)
    ensures m.role != System ==> |c.parts| == (if HasInlineAttachment(m) then 2 else 1)
    ensures m.role != System ==> c.parts[0].TextPart? && !IsBlank(c.parts[0].text)
    ensures m.role != System && !IsBlank(m.content) ==> c.parts[0].text == m.content
    ensures m.role != System && IsBlank(m.content) ==>
      c.parts[0].text == (if HasInlineAttachment(m) then AttachmentOnlyText else HiddenContentText)
    ensures m.role != System && HasInlineAttachment(m) ==>
      c.parts[1] == InlineDataPart(m.attachment.value.mimeType.value, m.attachment.value.data)
  {
    if m.role == System then Content(SystemTurn, [])
    else
      var inline := if HasInlineAttachment(m)
        then [InlineDataPart(m.attachment.value.mimeType.value, m.attachment.value.data)] else [];
      var text := if !IsBlank(m.content) then m.content
        else if |inline| > 0 then AttachmentOnlyText else HiddenContentText;
      assert AttachmentOnlyText[0] == '(' && HiddenContentText[0] == '(';
      Content(if m.role == User then UserTurn else ModelTurn, [TextPart(text)] + inline)
  }

  predicate NotSystem(m: ChatMessage) { m.role != System }

  /** The final guard of the history builder: a turn with parts whose text is non-blank or that has more than one part. */
  predicate Sendable(c: Content)
  {
    |c.parts| > 0 && ((c.parts[0].TextPart? && !IsBlank(c.parts[0].text)) || |c.parts| > 1)
  }

  /** `buildHistoryForApi`: drop system messages, convert the rest, drop unsendable turns. */
  function BuildHistoryForApi(history: seq<ChatMessage>): seq<Content>
  {
    Seqs.Filter(Seqs.Map(Seqs.Filter(history, NotSystem), ConvertChatMessageToContent), Sendable)
  }

  /**
   * The last filter of the builder never removes anything: the history is
   * exactly one converted turn per non-system message, in order.
   */
  lemma BuildHistoryForApiKeepsEveryTurn(history: seq<ChatMessage>)
    ensures BuildHistoryForApi(history) == Seqs.Map(Seqs.Filter(history, NotSystem), ConvertChatMessageToContent)
    ensures |BuildHistoryForApi(history)| == Seqs.Count(history, NotSystem)
  {
    var kept := Seqs.Filter(history, NotSystem);
    var turns := Seqs.Map(kept, ConvertChatMessageToContent);
    forall i | 0 <= i < |turns|
      ensures Sendable(turns[i])
    {
      assert NotSystem(kept[i]);
    }
    Seqs.FilterKeepsAll(turns, Sendable);
    Seqs.FilterLength(history, NotSystem);
  }

  /** Every turn of the built history is a user or model turn with a non-blank first text. */
  lemma BuildHistoryForApiTurns(history: seq<ChatMessage>)
    ensures forall c :: c in BuildHistoryForApi(history) ==>
      c.role != SystemTurn && 1 <= |c.parts| <= 2 && c.parts[0].TextPart? && !IsBlank(c.parts[0].text)
  {
    BuildHistoryForApiKeepsEveryTurn(history);
    var kept := Seqs.Filter(history, NotSystem);
    forall c | c in BuildHistoryForApi(history)
      ensures c.role != SystemTurn && 1 <= |c.parts| <= 2 && c.parts[0].TextPart? && !IsBlank(c.parts[0].text)
    {
      var i :| 0 <= i < |kept| && c == ConvertChatMessageToContent(kept[i]);
      assert NotSystem(kept[i]);
    }
  }

  /** Building is compositional: the history of a concatenation is the concatenation of the histories. */
  lemma BuildHistoryForApiAppend(a: seq<ChatMessage>, b: seq<ChatMessage>)
    ensures BuildHistoryForApi(a + b) == BuildHistoryForApi(a) + BuildHistoryForApi(b)
  {
    BuildHistoryForApiKeepsEveryTurn(a + b);
    BuildHistoryForApiKeepsEveryTurn(a);
    BuildHistoryForApiKeepsEveryTurn(b);
    Seqs.FilterAppend(a, b, NotSystem);
    Seqs.MapAppend(Seqs.Filter(a, NotSystem), Seqs.Filter(b, NotSystem), ConvertChatMessageToContent);
  }

  const ChatDefaultErrorMessage: string := "Lỗi khi giao tiếp với Gemini API."

  /** The new user turn's parts: its text, and inline data when the attachment has a MIME type and data (of any kind). */
  function NewTurnParts(message: ChatGenerationContent): seq<Part>
  {
    [TextPart(message.text)]
    + (if message.attachment.Some? && Truthy(message.attachment.value.mimeType) && message.attachment.value.data != []
       then [InlineDataPart(message.attachment.value.mimeType.value, message.attachment.value.data)] else [])
  }

  /** The request contents of `generateChatResponse`: the built history followed by one new user turn. */
  function ChatContents(history: seq<ChatMessage>, message: ChatGenerationContent): seq<Content>
  {
    BuildHistoryForApi(history) + [Content(UserTurn, NewTurnParts(message))]
  }

  /**
   * The turn assembly of `generateChatResponse`, step by step: build the
   * history, start the user parts with the text, push inline data when the
   * attachment has both a MIME type and data, append the turn.
   */
  method AssembleChatContents(history: seq<ChatMessage>, message: ChatGenerationContent) returns (contents: seq<Content>)
    ensures contents == ChatContents(history, message)
  {
    var historyForApi := BuildHistoryForApi(history);
    var userParts := [TextPart(message.text)];
    if message.attachment.Some? && Truthy(message.attachment.value.mimeType) && message.attachment.value.data != [] {
      userParts := userParts + [InlineDataPart(message.attachment.value.mimeType.value, message.attachment.value.data)];
    }
    assert userParts == NewTurnParts(message);
    contents := historyForApi + [Content(UserTurn, userParts)];
  }

  /**
   * The request is the converted history plus exactly one user turn, which
   * carries the message text and, only when the attachment has both a MIME
   * type and data, one inline part.
   */
  lemma ChatContentsShape(history: seq<ChatMessage>, message: ChatGenerationContent)
    ensures var c := ChatContents(history, message);
      |c| == Seqs.Count(history, NotSystem) + 1
      && c[..|c| - 1] == BuildHistoryForApi(history)
      && c[|c| - 1].role == UserTurn
      && c[|c| - 1].parts[0] == TextPart(message.text)
      && (|c[|c| - 1].parts| == 2 <==>
          message.attachment.Some? && Truthy(message.attachment.value.mimeType) && message.attachment.value.data != [])
      && |c[|c| - 1].parts| <= 2
  {
    BuildHistoryForApiKeepsEveryTurn(history);
    var c := ChatContents(history, message);
    assert c[..|c| - 1] == BuildHistoryForApi(history);
  }

  /** What `analyzeDocument` accepts: a plain string, or an object with optional URL and file fields. */
  datatype AnalysisInput =
    | TextInput(text: string)
    | ObjectInput(url: Option<string>, base64Data: Option<string>, mimeType: Option<string>, fileName: Option<string>)

  /** The query type and original query chosen for an input, and the inline data sent with a file. */
  datatype DispatchedInput = DispatchedInput(queryType: QueryType, originalUserQuery: string, inline: Option<Part>)

  const InvalidInputMessage: string := "Đầu vào không hợp lệ để phân tích."
  const DefaultFileQuery: string := "tệp đính kèm"

  /**
   * The input dispatch of `analyzeDocument`: a string is text, a URL wins over
   * file data, file data needs both the data and the MIME type, anything else
   * is rejected before any request is made.
   */
  function DispatchAnalysisInput(input: AnalysisInput): (r: Result<DispatchedInput, string>)
    ensures r.Failure? <==> input.ObjectInput? && !Truthy(input.url) && !(Truthy(input.base64Data) && Truthy(input.mimeType))
    ensures r.Failure? ==> r.error == InvalidInputMessage
    ensures input.TextInput? ==> r == Success(DispatchedInput(TextQuery, input.text, None))
    ensures input.ObjectInput? && Truthy(input.url) ==> r == Success(DispatchedInput(UrlQuery, input.url.value, None))
    ensures r.Success? && r.value.queryType == FileQuery ==>
      input.ObjectInput? && !Truthy(input.url)
      && r.value.originalUserQuery == OrElse(input.fileName, DefaultFileQuery)
      && r.value.inline == Some(InlineDataPart(input.mimeType.value, input.base64Data.value))
  {
    match input
    case TextInput(text) => Success(DispatchedInput(TextQuery, text, None))
    case ObjectInput(url, base64Data, mimeType, fileName) =>
      if Truthy(url) then Success(DispatchedInput(UrlQuery, url.value, None))
      else if Truthy(base64Data) && Truthy(mimeType) then
        Success(DispatchedInput(FileQuery, OrElse(fileName, DefaultFileQuery), Some(InlineDataPart(mimeType.value, base64Data.value))))
      else Failure(InvalidInputMessage)
  }

  /** The end of the maximal run of `\w` characters starting at `i`. */
  function WordRunEnd(t: string, i: nat): (j: nat)
    requires i <= |t|
    ensures i <= j <= |t|
    ensures forall k :: i <= k < j ==> IsWordChar(t[k])
    ensures j == |t| || !IsWordChar(t[j])
    decreases |t| - i
  {
    if i < |t| && IsWordChar(t[i]) then WordRunEnd(t, i + 1) else i
  }

  /** The end of the maximal run of `\s` characters starting at `i`. */
  function SpaceRunEnd(t: string, i: nat): (j: nat)
    requires i <= |t|
    ensures i <= j <= |t|
    ensures IsBlank(t[i..j])
    ensures j == |t| || !IsWhitespace(t[j])
    decreases |t| - i
  {
    if i < |t| && IsWhitespace(t[i]) then SpaceRunEnd(t, i + 1) else i
  }

  /** The start of the run of whitespace that ends at `hi`, not going below `lo`. */
  function SpaceRunStart(t: string, lo: nat, hi: nat): (k: nat)
    requires lo <= hi <= |t|
    ensures lo <= k <= hi
    ensures IsBlank(t[k..hi])
    ensures k == lo || !IsWhitespace(t[k - 1])
    decreases hi
  {
    if hi > lo && IsWhitespace(t[hi - 1]) then
      var k := SpaceRunStart(t, lo, hi - 1);
      assert t[k..hi] == t[k..hi - 1] + [t[hi - 1]];
      k
    else hi
  }

  predicate IsFenced(t: string)
  {
    |t| >= 6 && StartsWith(t, "```") && EndsWith(t, "```")
  }

  /**
   * The second group of `/^```(\w*)?\s*\n?(.*?)\n?\s*```$/s` on `t`, or `None`
   * when the expression does not match. The opening fence takes the longest
   * word run and then the longest whitespace run; the lazy body ends where the
   * whitespace before the closing fence begins.
   */
  function FenceBody(t: string): Option<string>
  {
    if !IsFenced(t) then None
    else
      var close := |t| - 3;
      assert t[close] == '`' && t[..3] == "```";
      var w := WordRunEnd(t[..close], 3);
      var p := SpaceRunEnd(t[..close], w);
      var e := SpaceRunStart(t[..close], p, close);
      Some(t[p..e])
  }

  /** A body found between fences has no whitespace at either end. */
  lemma FenceBodyTrimmed(t: string)
    requires FenceBody(t).Some?
    ensures IsTrimmed(FenceBody(t).value)
  {
    var close := |t| - 3;
    var u := t[..close];
    var w := WordRunEnd(u, 3);
    var p := SpaceRunEnd(u, w);
    var e := SpaceRunStart(u, p, close);
    var b := t[p..e];
    if b != [] {
      assert b[0] == u[p];
      assert b[|b| - 1] == u[e - 1];
    }
  }

  /**
   * The fence strip of `analyzeDocument` and `getNewsUpdate`: the reply is
   * trimmed, and a fenced reply with a non-empty body is replaced by its
   * trimmed body.
   */
  function StripCodeFence(reply: string): (r: string)
    ensures IsTrimmed(r)
    ensures !IsFenced(Trim(reply)) ==> r == Trim(reply)
    ensures r != Trim(reply) ==> FenceBody(Trim(reply)).Some? && r == FenceBody(Trim(reply)).value && r != []
    ensures FenceBody(Trim(reply)).Some? && FenceBody(Trim(reply)).value != [] ==> r == FenceBody(Trim(reply)).value
    ensures FenceBody(Trim(reply)).None? || FenceBody(Trim(reply)).value == [] ==> r == Trim(reply)
  {
    var t := Trim(reply);
    TrimShape(reply);
    match FenceBody(t)
    case Some(body) =>
      if body != [] then FenceBodyTrimmed(t); TrimOfTrimmed(body); Trim(body) else t
    case None => t
  }

  /** Padding a trimmed non-empty string with whitespace on both sides and trimming gives it back. */
  lemma {:induction false} TrimPadded(pre: string, x: string, post: string)
    requires IsBlank(pre) && IsBlank(post) && IsTrimmed(x) && x != []
    ensures Trim(pre + x + post) == x
  {
    assert pre + x + post == pre + (x + post);
    assert (x + post)[0] == x[0];
    TrimStartPadded(pre, x + post);
    TrimEndPadded(x, post);
  }

  lemma {:induction false} TrimStartPadded(pre: string, rest: string)
    requires IsBlank(pre) && rest != [] && !IsWhitespace(rest[0])
    ensures TrimStart(pre + rest) == rest
  {
    if pre != [] {
      assert (pre + rest)[1..] == pre[1..] + rest;
      TrimStartPadded(pre[1..], rest);
    } else {
      assert pre + rest == rest;
    }
  }

  lemma {:induction false} TrimEndPadded(x: string, post: string)
    requires IsBlank(post) && x != [] && !IsWhitespace(x[|x| - 1])
    ensures TrimEnd(x + post) == x
  {
    if post != [] {
      assert (x + post)[..|x + post| - 1] == x + post[..|post| - 1];
      TrimEndPadded(x, post[..|post| - 1]);
    } else {
      assert x + post == x;
    }
  }

  /**
   * Round trip: wrapping a trimmed non-empty body in a fence with a word-character
   * language tag, newlines and surrounding whitespace, then stripping, gives the
   * body back.
   */
  lemma StripCodeFenceRoundTrip(pre: string, tag: string, body: string, post: string)
    requires IsBlank(pre) && IsBlank(post)
    requires forall k :: 0 <= k < |tag| ==> IsWordChar(tag[k])
    requires IsTrimmed(body) && body != []
    ensures StripCodeFence(pre + "```" + tag + "\n" + body + "\n```" + post) == body
  {
    var t := "```" + tag + "\n" + body + "\n```";
    assert pre + "```" + tag + "\n" + body + "\n```" + post == pre + t + post;
    assert t[0] == '`' && t[|t| - 1] == '`';
    TrimPadded(pre, t, post);
    FenceBodyOfWrapped(tag, body);
    TrimOfTrimmed(body);
  }

  lemma FenceBodyOfWrapped(tag: string, body: string)
    requires forall k :: 0 <= k < |tag| ==> IsWordChar(tag[k])
    requires IsTrimmed(body) && body != []
    ensures FenceBody("```" + tag + "\n" + body + "\n```") == Some(body)
  {
    var t := "```" + tag + "\n" + body + "\n```";
    assert t[..3] == "```";
    assert t[|t| - 3..] == "```";
    var close := |t| - 3;
    var u := t[..close];
    assert u == "```" + tag + "\n" + body + "\n";
    var w := WordRunEnd(u, 3);
    WordRunAcrossTag(u, tag);
    assert u[w] == '\n';
    assert u[w + 1] == body[0];
    SpaceRunEndOne(u, w);
    var p := w + 1;
    assert u[close - 1] == '\n';
    assert u[close - 2] == body[|body| - 1];
    SpaceRunStartOne(u, p, close);
    assert t[p..close - 1] == body;
    FenceBodyIs(t, w, p, close - 1);
  }

  /** One whitespace character followed by a non-whitespace one is a run of length one. */
  lemma SpaceRunEndOne(u: string, w: nat)
    requires w + 1 < |u| && IsWhitespace(u[w]) && !IsWhitespace(u[w + 1])
    ensures SpaceRunEnd(u, w) == w + 1
  {
  }

  /** One whitespace character before `hi`, after a non-whitespace one, is a run of length one. */
  lemma SpaceRunStartOne(u: string, lo: nat, hi: nat)
    requires lo + 1 < hi <= |u| && IsWhitespace(u[hi - 1]) && !IsWhitespace(u[hi - 2])
    ensures SpaceRunStart(u, lo, hi) == hi - 1
  {
  }

  /** The body between fences, given where the tag, the leading blank and the trailing blank end. */
  lemma FenceBodyIs(t: string, w: nat, p: nat, e: nat)
    requires IsFenced(t)
    requires 3 <= |t| - 3 && WordRunEnd(t[..|t| - 3], 3) == w
    requires SpaceRunEnd(t[..|t| - 3], w) == p
    requires p <= |t| - 3 && SpaceRunStart(t[..|t| - 3], p, |t| - 3) == e
    ensures FenceBody(t) == Some(t[p..e])
  {
  }

  lemma WordRunAcrossTag(u: string, tag: string)
    requires |u| > 3 + |tag| && u[3..3 + |tag|] == tag && !IsWordChar(u[3 + |tag|])
    requires forall k :: 0 <= k < |tag| ==> IsWordChar(tag[k])
    ensures WordRunEnd(u, 3) == 3 + |tag|
  {
    assert forall k :: 3 <= k < 3 + |tag| ==> u[k] == tag[k - 3];
  }

  /** A fence whose body consists only of word characters is taken as the language tag, so nothing is stripped. */
  lemma StripCodeFenceWordOnlyBody()
    ensures StripCodeFence("```123```") == "```123```"
  {
    var t := "```123```";
    assert IsTrimmed(t);
    TrimOfTrimmed(t);
    assert t[..6] == "```123";
    assert WordRunEnd(t[..6], 3) == 6;
  }

  /** The model reply: its text and the grounding chunks of its first candidate. */
  datatype AiReply = AiReply(text: string, grounding: seq<GroundingChunk>)

  const AnalysisParseErrorMessage: string := "Lỗi phân tích cú pháp phản hồi từ AI. AI có thể đã trả về định dạng không hợp lệ."
  const AnalysisDefaultErrorMessage: string := "Lỗi khi phân tích tài liệu với Gemini API."

  predicate HasWebUri(c: GroundingChunk)
  {
    c.web.Some? && c.web.value.uri.Some?
  }

  /** `e.message || fallback` for an error raised by the request. */
  function ErrorText(message: string, fallback: string): string
  {
    if message != [] then message else fallback
  }

  /**
   * `analyzeDocument`, given the reply (or the request's error message) and
   * `JSON.parse`. The envelope must be an object whose `analysis` is a string
   * and whose `extractedUrls` is an array; any other shape is one parse error.
   */
  function AnalyzeDocument(input: AnalysisInput, reply: Result<AiReply, string>, parse: string -> Option<Json>)
    : (r: Result<AnalysisResult, string>)
    ensures DispatchAnalysisInput(input).Failure? ==> r == Failure(InvalidInputMessage)
    ensures r.Success? <==>
      DispatchAnalysisInput(input).Success? && reply.Success?
      && parse(StripCodeFence(reply.value.text)).Some?
      && StringField(parse(StripCodeFence(reply.value.text)).value, "analysis").Some?
      && ArrayField(parse(StripCodeFence(reply.value.text)).value, "extractedUrls").Some?
    ensures r.Success? ==>
      var j := parse(StripCodeFence(reply.value.text)).value;
      var d := DispatchAnalysisInput(input).value;
      r.value == AnalysisResult(StringField(j, "analysis").value, ArrayField(j, "extractedUrls").value,
                                Seqs.Filter(reply.value.grounding, HasWebUri), d.originalUserQuery, d.queryType,
                                Some(reply.value.text))
    ensures DispatchAnalysisInput(input).Success? && reply.Success? && r.Failure? ==> r.error == AnalysisParseErrorMessage
    ensures DispatchAnalysisInput(input).Success? && reply.Failure? ==> r == Failure(ErrorText(reply.error, AnalysisDefaultErrorMessage))
  {
    match DispatchAnalysisInput(input)
    case Failure(e) => Failure(e)
    case Success(d) =>
      match reply
      case Failure(message) => Failure(ErrorText(message, AnalysisDefaultErrorMessage))
      case Success(response) =>
        var parsed := parse(StripCodeFence(response.text));
        if parsed.None? then Failure(AnalysisParseErrorMessage)
        else
          var analysis := StringField(parsed.value, "analysis");
          var urls := ArrayField(parsed.value, "extractedUrls");
          if analysis.None? || urls.None? then Failure(AnalysisParseErrorMessage)
          else Success(AnalysisResult(analysis.value, urls.value, Seqs.Filter(response.grounding, HasWebUri),
                                      d.originalUserQuery, d.queryType, Some(response.text)))
  }

  const NewsParseErrorMessage: string := "Lỗi khi phân tích hoặc xử lý phản hồi tin tức từ AI."
  const NewsDefaultErrorMessage: string := "Không thể lấy tin tức từ Gemini API."

  /** An element passes the news check when `title` and `url` are both strings. */
  predicate WellTypedArticle(j: Json)
  {
    StringField(j, "title").Some? && StringField(j, "url").Some?
  }

  function OptionalString(j: Json, key: string): Option<string>
  {
    StringField(j, key)
  }

  /**
   * The article an element describes; `summary` and `publication_date` are kept when they are strings.
   * A `summary` or `publication_date` of another JSON type is dropped here, while the source passes
   * the parsed value on unchanged.
   */
  function ArticleOf(j: Json): NewsArticle
  {
    NewsArticle(OrElse(StringField(j, "title"), ""), OptionalString(j, "summary"),
                OrElse(StringField(j, "url"), ""), OptionalString(j, "publication_date"))
  }

  predicate Complete(a: NewsArticle)
  {
    a.title != [] && a.url != []
  }

  /**
   * `getNewsUpdate`, given the reply text (or the request's error message) and
   * `JSON.parse`: the reply must be an array of elements with string titles and
   * URLs, and the result keeps the articles whose title and URL are non-empty.
   */
  function GetNewsUpdate(reply: Result<string, string>, parse: string -> Option<Json>): (r: Result<seq<NewsArticle>, string>)
    ensures r.Success? <==>
      reply.Success? && parse(StripCodeFence(reply.value)).Some?
      && parse(StripCodeFence(reply.value)).value.JArray?
      && (forall k :: 0 <= k < |parse(StripCodeFence(reply.value)).value.items| ==>
            WellTypedArticle(parse(StripCodeFence(reply.value)).value.items[k]))
    ensures r.Success? ==> r.value == Seqs.Filter(Seqs.Map(parse(StripCodeFence(reply.value)).value.items, ArticleOf), Complete)
    ensures reply.Success? && r.Failure? ==> r.error == NewsParseErrorMessage
    ensures reply.Failure? ==> r == Failure(ErrorText(reply.error, NewsDefaultErrorMessage))
  {
    match reply
    case Failure(message) => Failure(ErrorText(message, NewsDefaultErrorMessage))
    case Success(text) =>
      var parsed := parse(StripCodeFence(text));
      if parsed.None? || !parsed.value.JArray? then Failure(NewsParseErrorMessage)
      else if exists k :: 0 <= k < |parsed.value.items| && !WellTypedArticle(parsed.value.items[k]) then Failure(NewsParseErrorMessage)
      else Success(Seqs.Filter(Seqs.Map(parsed.value.items, ArticleOf), Complete))
  }

  /** Each returned article is complete and comes from the reply, and every complete article of the reply is returned. */
  lemma NewsSelectionMembers(items: seq<Json>, a: NewsArticle)
    ensures a in Seqs.Filter(Seqs.Map(items, ArticleOf), Complete)
        <==> (exists k :: 0 <= k < |items| && a == ArticleOf(items[k]) && Complete(a))
  {
    var m := Seqs.Map(items, ArticleOf);
    Seqs.FilterMembership(m, Complete, a);
    if a in m {
      var k :| 0 <= k < |m| && m[k] == a;
      assert a == ArticleOf(items[k]);
    }
  }

  /** The selection keeps the reply's order: selecting from two halves concatenates their selections. */
  lemma NewsSelectionOrder(items: seq<Json>, more: seq<Json>)
    ensures Seqs.Filter(Seqs.Map(items + more, ArticleOf), Complete)
         == Seqs.Filter(Seqs.Map(items, ArticleOf), Complete) + Seqs.Filter(Seqs.Map(more, ArticleOf), Complete)
  {
    Seqs.MapAppend(items, more, ArticleOf);
    Seqs.FilterAppend(Seqs.Map(items, ArticleOf), Seqs.Map(more, ArticleOf), Complete);
  }

  /** Every article returned by a successful news update has a non-empty title and URL, and there are no more than the reply held. */
  lemma NewsUpdateComplete(reply: Result<string, string>, parse: string -> Option<Json>)
    requires GetNewsUpdate(reply, parse).Success?
    ensures forall a :: a in GetNewsUpdate(reply, parse).value ==> a.title != [] && a.url != []
    ensures |GetNewsUpdate(reply, parse).value| <= |parse(StripCodeFence(reply.value)).value.items|
  {
    var r := GetNewsUpdate(reply, parse).value;
    forall a | a in r
      ensures a.title != [] && a.url != []
    {
      var k :| 0 <= k < |r| && r[k] == a;
      assert Complete(r[k]);
    }
  }
}
