/**
 * The chat panel shared by the chat features: the composer state (input,
 * pending attachment, URL box, voice recording), the per-message export text
 * and the rules for which controls are shown.
 */
module ChatInterface {
  import opened Wrappers
  import opened Text
  import opened Json
  import opened Types
  import Seqs
  import GeminiService
  import ChatTranscript
  import AnalyzeDocumentFeature
  import NewsChat

  const AnalysisTitle: string := "Phân tích Văn bản"
  const DraftTitle: string := "Soạn thảo Văn bản"
  const MultimediaTitle: string := "Trích xuất Đa phương tiện"
  const NewsTitle: string := "AI Tin tức"
  const BlankUrlAlert: string := "Vui lòng nhập URL hợp lệ."
  const InvalidUrlAlert: string := "URL không hợp lệ. Vui lòng kiểm tra lại (ví dụ: https://example.com)."
  const FileReadAlert: string := "Lỗi xử lý tệp đính kèm. Vui lòng thử lại."
  const UrlNamePrefix: string := "URL: "
  const ArticleSeparator: string := "\n\n---\n\n"

  /** What the composer hands to the feature on send. */
  datatype Outgoing = Outgoing(text: string, attachment: Option<Attachment>)

  /** A chosen file: its MIME type and name. */
  datatype ChosenFile = ChosenFile(mimeType: string, name: string)

  /** A transcript from voice input is appended to the trimmed earlier input after one space. */
  function VoiceAppended(previous: string, transcript: string): (r: string)
    ensures EndsWith(r, transcript)
    ensures IsBlank(previous) ==> r == transcript
    ensures !IsBlank(previous) ==> StartsWith(r, Trim(previous) + " ") && |r| == |Trim(previous)| + 1 + |transcript|
  {
    TrimEmptyIffBlank(previous);
    var head := if Trim(previous) != [] then Trim(previous) + " " else "";
    assert (head + transcript)[|head|..] == transcript;
    head + transcript
  }

  /** Files whose MIME type starts with `image/` are images; every other file is a plain file. */
  function AttachmentKindFor(mimeType: string): (k: AttachmentKind)
    ensures k == Image <==> StartsWith(mimeType, "image/")
    ensures k == Image || k == File
  {
    if StartsWith(mimeType, "image/") then Image else File
  }

  function FileAttachment(file: ChosenFile, data: string): Attachment
  {
    Attachment(AttachmentKindFor(file.mimeType), data, Some(file.mimeType), Some(file.name))
  }

  /** A URL attachment keeps the trimmed URL and is named after its first 60 characters. */
  function UrlAttachment(url: string): (a: Attachment)
    ensures a.kind == Url && a.data == url && a.mimeType == None
    ensures a.name.Some? && StartsWith(a.name.value, UrlNamePrefix) && EndsWith(a.name.value, "...")
    ensures |a.name.value| <= |UrlNamePrefix| + 60 + 3
  {
    var name := UrlNamePrefix + Take(url, 60) + "...";
    assert name[|name| - 3..] == "...";
    Attachment(Url, url, None, Some(name))
  }

  /**
   * A chosen file with a MIME type and data travels to the chat service as an
   * inline part next to the text.
   */
  lemma FileAttachmentSentInline(text: string, file: ChosenFile, data: string)
    requires file.mimeType != [] && data != []
    ensures GeminiService.NewTurnParts(ChatGenerationContent(text, Some(FileAttachment(file, data))))
      == [GeminiService.TextPart(text), GeminiService.InlineDataPart(file.mimeType, data)]
  {
  }

  /** An accepted URL attachment becomes URL input of the document analysis, never a rejected one. */
  lemma UrlAttachmentAnalysedAsUrl(content: string, urlInput: string)
    requires !IsBlank(urlInput)
    ensures AnalyzeDocumentFeature.AnalysisInputFor(content, Some(UrlAttachment(Trim(urlInput))))
      == Some(GeminiService.ObjectInput(Some(Trim(urlInput)), None, None, None))
  {
    TrimEmptyIffBlank(urlInput);
  }

  /** The composer below a chat transcript. */
  class Composer {
    var inputMessage: string
    var pendingAttachment: Option<Attachment>
    var showUrlInput: bool
    var urlInputValue: string
    var isRecording: bool

    constructor()
      ensures inputMessage == [] && pendingAttachment == None && !showUrlInput && urlInputValue == [] && !isRecording
    {
      inputMessage := [];
      pendingAttachment := None;
      showUrlInput := false;
      urlInputValue := [];
      isRecording := false;
    }

    /**
     * Nothing is sent while loading, or when the trimmed input is empty and no
     * attachment is pending. Otherwise the trimmed text goes out with the
     * attachment, and input, attachment and URL box are cleared.
     */
    method HandleSendMessage(isLoading: bool) returns (sent: Option<Outgoing>)
      modifies this
      ensures sent.None? <==> isLoading || (Trim(old(inputMessage)) == [] && old(pendingAttachment).None?)
      ensures sent.None? ==>
        inputMessage == old(inputMessage) && pendingAttachment == old(pendingAttachment)
        && showUrlInput == old(showUrlInput) && urlInputValue == old(urlInputValue)
      ensures sent.Some? ==>
        sent.value == Outgoing(Trim(old(inputMessage)), old(pendingAttachment))
        && inputMessage == [] && pendingAttachment == None && !showUrlInput && urlInputValue == []
      ensures isRecording == old(isRecording)
    {
      if (Trim(inputMessage) == [] && pendingAttachment.None?) || isLoading {
        return None;
      }
      sent := Some(Outgoing(Trim(inputMessage), pendingAttachment));
      inputMessage := [];
      ClearPendingAttachment();
    }

    method ClearPendingAttachment()
      modifies this
      ensures pendingAttachment == None && !showUrlInput && urlInputValue == []
      ensures inputMessage == old(inputMessage) && isRecording == old(isRecording)
    {
      pendingAttachment := None;
      showUrlInput := false;
      urlInputValue := [];
    }

    method HandleVoiceResult(transcript: string)
      modifies this
      ensures inputMessage == VoiceAppended(old(inputMessage), transcript)
      ensures pendingAttachment == old(pendingAttachment) && showUrlInput == old(showUrlInput)
      ensures urlInputValue == old(urlInputValue) && isRecording == old(isRecording)
    {
      inputMessage := VoiceAppended(inputMessage, transcript);
    }

    /**
     * The microphone button: ignored without speech support or while loading;
     * otherwise stops a recording, or starts one, which stays off if the
     * recogniser refuses to start.
     */
    method ToggleRecording(supported: bool, isLoading: bool, startAccepted: bool)
      modifies this
      ensures !supported || isLoading ==> isRecording == old(isRecording)
      ensures supported && !isLoading ==> isRecording == (!old(isRecording) && startAccepted)
      ensures inputMessage == old(inputMessage) && pendingAttachment == old(pendingAttachment)
      ensures showUrlInput == old(showUrlInput) && urlInputValue == old(urlInputValue)
    {
      if !supported || isLoading {
        return;
      }
      if isRecording {
        isRecording := false;
      } else if startAccepted {
        isRecording := true;
      } else {
        isRecording := false;
      }
    }

    /** The recogniser's end or error event. */
    method HandleRecognitionEnd()
      modifies this
      ensures !isRecording
      ensures inputMessage == old(inputMessage) && pendingAttachment == old(pendingAttachment)
      ensures showUrlInput == old(showUrlInput) && urlInputValue == old(urlInputValue)
    {
      isRecording := false;
    }

    /**
     * A file choice closes the URL box; the file becomes the pending
     * attachment when it could be read, and the attachment is dropped (with an
     * alert) when it could not.
     */
    method HandleFileChange(file: Option<ChosenFile>, encoded: Result<string, string>) returns (alert: Option<string>)
      modifies this
      ensures file.None? ==>
        alert == None && pendingAttachment == old(pendingAttachment)
        && showUrlInput == old(showUrlInput) && urlInputValue == old(urlInputValue)
      ensures file.Some? ==> !showUrlInput && urlInputValue == []
      ensures file.Some? && encoded.Success? ==>
        alert == None && pendingAttachment == Some(FileAttachment(file.value, encoded.value))
      ensures file.Some? && encoded.Failure? ==> alert == Some(FileReadAlert) && pendingAttachment == None
      ensures inputMessage == old(inputMessage) && isRecording == old(isRecording)
    {
      alert := None;
      if file.Some? {
        showUrlInput := false;
        urlInputValue := [];
        match encoded {
          case Success(data) =>
            pendingAttachment := Some(FileAttachment(file.value, data));
          case Failure(_) =>
            alert := Some(FileReadAlert);
            pendingAttachment := None;
        }
      }
    }

    /**
     * Attaching the typed URL: a blank or unparsable URL is refused with an
     * alert and nothing changes; an accepted one becomes the pending
     * attachment and the URL box closes.
     */
    method HandleAttachUrl(isValidUrl: string -> bool) returns (alert: Option<string>)
      modifies this
      ensures IsBlank(old(urlInputValue)) ==> alert == Some(BlankUrlAlert)
      ensures !IsBlank(old(urlInputValue)) && !isValidUrl(Trim(old(urlInputValue))) ==> alert == Some(InvalidUrlAlert)
      ensures alert.Some? ==>
        pendingAttachment == old(pendingAttachment) && showUrlInput == old(showUrlInput)
        && urlInputValue == old(urlInputValue)
      ensures alert.None? <==> !IsBlank(old(urlInputValue)) && isValidUrl(Trim(old(urlInputValue)))
      ensures alert.None? ==>
        pendingAttachment == Some(UrlAttachment(Trim(old(urlInputValue)))) && !showUrlInput && urlInputValue == []
      ensures inputMessage == old(inputMessage) && isRecording == old(isRecording)
    {
      var url := Trim(urlInputValue);
      TrimEmptyIffBlank(urlInputValue);
      if url == [] {
        alert := Some(BlankUrlAlert);
      } else if !isValidUrl(url) {
        alert := Some(InvalidUrlAlert);
      } else {
        AttachUrl(url);
        alert := None;
      }
    }

    /** The accepted URL becomes the pending attachment and the URL box closes empty. */
    method AttachUrl(url: string)
      modifies this
      ensures pendingAttachment == Some(UrlAttachment(url)) && !showUrlInput && urlInputValue == []
      ensures inputMessage == old(inputMessage) && isRecording == old(isRecording)
    {
      pendingAttachment := Some(UrlAttachment(url));
      showUrlInput := false;
      urlInputValue := [];
    }

    /** The link button: opening the URL box drops any pending attachment and typed URL. */
    method ToggleUrlInput()
      modifies this
      ensures showUrlInput == !old(showUrlInput)
      ensures !old(showUrlInput) ==> pendingAttachment == None && urlInputValue == []
      ensures old(showUrlInput) ==> pendingAttachment == old(pendingAttachment) && urlInputValue == old(urlInputValue)
      ensures inputMessage == old(inputMessage) && isRecording == old(isRecording)
    {
      var wasShown := showUrlInput;
      showUrlInput := !showUrlInput;
      if !wasShown {
        pendingAttachment := None;
        urlInputValue := [];
      }
    }

    /** The attach-file button closes the URL box before the file picker opens. */
    method OpenFilePicker()
      modifies this
      ensures !showUrlInput
      ensures inputMessage == old(inputMessage) && pendingAttachment == old(pendingAttachment)
      ensures urlInputValue == old(urlInputValue) && isRecording == old(isRecording)
    {
      showUrlInput := false;
    }

    /** The send button is enabled exactly when a send would go out. */
    predicate SendEnabled(isLoading: bool)
      reads this
    {
      !(isLoading || (Trim(inputMessage) == [] && pendingAttachment.None?))
    }
  }

  // ---------------------------------------------------------------------
  // Per-message export text

  /** One article in a message export: title, optional date, source, optional summary. */
  function ExportArticleText(a: NewsArticle): string
  {
    "Tiêu đề: " + a.title + "\n"
    + (if Truthy(a.publicationDate) then "Thời gian: " + a.publicationDate.value + "\n" else "")
    + "Nguồn: " + a.url + "\n\n"
    + (if Truthy(a.summary) then "Tóm tắt:\n" + a.summary.value else "")
  }

  /** Whether `\s*` followed by three backticks matches at `i`. */
  predicate ClosingFenceAt(s: string, i: nat)
    requires i <= |s|
  {
    var w := GeminiService.SpaceRunEnd(s, i);
    w + 3 <= |s| && s[w..w + 3] == "```"
  }

  /** Whether the lazy JSON group of the export pattern can end at `k`. */
  predicate GroupCloseAt(s: string, k: nat)
  {
    k < |s| && s[k] == '}' && ClosingFenceAt(s, k + 1)
  }

  /** The first position from `e` on where the lazy group can end. */
  function LazyGroupEnd(s: string, e: nat): (r: Option<nat>)
    requires e <= |s|
    ensures r.Some? ==> e <= r.value < |s| && GroupCloseAt(s, r.value)
    ensures r.Some? ==> forall k :: e <= k < r.value ==> !GroupCloseAt(s, k)
    ensures r.None? ==> forall k :: e <= k < |s| ==> !GroupCloseAt(s, k)
    decreases |s| - e
  {
    if e == |s| then None
    else if GroupCloseAt(s, e) then Some(e)
    else LazyGroupEnd(s, e + 1)
  }

  /**
   * The export pattern (three backticks, an optional `json` tag, whitespace, a
   * `{`, at least one character taken lazily, a `}`, whitespace, three
   * backticks) tried at position `i`: the captured object text.
   */
  function FencedJsonAt(s: string, i: nat): (r: Option<string>)
    requires i <= |s|
    ensures r.Some? ==> |r.value| >= 3 && r.value[0] == '{' && r.value[|r.value| - 1] == '}' && |r.value| <= |s|
  {
    if !(i + 3 <= |s| && s[i..i + 3] == "```") then None
    else
      var a := TagEnd(s, i);
      var p := GeminiService.SpaceRunEnd(s, a);
      if p + 2 <= |s| && s[p] == '{' then
        match LazyGroupEnd(s, p + 2)
        case Some(e) => Some(s[p..e + 1])
        case None => None
      else None
  }

  /** The position after the opening fence at `i` and its optional `json` tag. */
  function TagEnd(s: string, i: nat): (a: nat)
    requires i + 3 <= |s|
    ensures a <= |s|
    ensures a == i + 3 || (a == i + 7 && s[i + 3..a] == "json")
  {
    if i + 7 <= |s| && s[i + 3..i + 7] == "json" then i + 7 else i + 3
  }

  /** The leftmost match of the export pattern at or after `i`; `None` when the pattern matches nowhere there. */
  function FindFencedJson(s: string, i: nat): (r: Option<string>)
    requires i <= |s|
    ensures r.Some? ==> |r.value| >= 3 && r.value[0] == '{' && r.value[|r.value| - 1] == '}' && |r.value| <= |s|
    decreases |s| - i
  {
    if i + 3 > |s| then None
    else match FencedJsonAt(s, i)
      case Some(g) => Some(g)
      case None => FindFencedJson(s, i + 1)
  }

  /** When the search finds nothing, the pattern matches at no position from `i` on. */
  lemma {:induction false} FindFencedJsonNone(s: string, i: nat, j: nat)
    requires i <= j <= |s| && FindFencedJson(s, i).None?
    ensures FencedJsonAt(s, j).None?
    decreases j - i
  {
    if i + 3 <= |s| && i < j {
      FindFencedJsonNone(s, i + 1, j);
    }
  }

  /** The search returns the match at the first position where the pattern matches. */
  lemma {:induction false} FindFencedJsonLeftmost(s: string, i: nat, j: nat)
    requires i <= j <= |s| && FencedJsonAt(s, j).Some?
    requires forall k :: i <= k < j ==> FencedJsonAt(s, k).None?
    ensures FindFencedJson(s, i) == FencedJsonAt(s, j)
    decreases j - i
  {
    assert j + 3 <= |s|;
    if i < j {
      assert FencedJsonAt(s, i).None?;
      FindFencedJsonLeftmost(s, i + 1, j);
    }
  }

  /** The text handed to the JSON parser: the fenced object, else from the first `{` to the last `}`, else all. */
  function JsonCandidate(s: string): string
  {
    match FindFencedJson(s, 0)
    case Some(g) => g
    case None =>
      var first := IndexOf(s, '{');
      var last := LastIndexOf(s, '}');
      if first != -1 && last > first then s[first..last + 1] else s
  }

  /** What the export button of one message exports. */
  function ExportContent(featureTitle: string, m: ChatMessage, parse: string -> Option<Json>): string
  {
    if featureTitle == NewsTitle && m.newsArticles.Some? && |m.newsArticles.value| > 0 then
      m.content + "\n\n" + Join(Seqs.Map(m.newsArticles.value, ExportArticleText), ArticleSeparator)
    else if featureTitle == AnalysisTitle then AnalysisExport(m.content, parse)
    else m.content
  }

  /** An analysis reply exports its `analysis` text when it holds a parsable envelope, else as it is. */
  function AnalysisExport(content: string, parse: string -> Option<Json>): string
  {
    var t := Trim(content);
    if StartsWith(t, "```") || StartsWith(t, "{") then
      match parse(JsonCandidate(t))
      case Some(j) =>
        (match StringField(j, "analysis")
         case Some(analysis) => analysis
         case None => content)
      case None => content
    else content
  }

  /** A maximal run of whitespace of length `n` at `a`. */
  lemma SpaceRunEndAt(s: string, a: nat, n: nat)
    requires a + n <= |s| && IsBlank(s[a..a + n])
    requires a + n == |s| || !IsWhitespace(s[a + n])
    ensures GeminiService.SpaceRunEnd(s, a) == a + n
  {
  }

  /**
   * No earlier `}` can end the lazy group: the character after a `}` and its
   * whitespace is either inside the object or its closing `}`, never a backtick.
   */
  lemma NoEarlierGroupClose(s: string, p: nat, e: nat)
    requires p + 2 <= e < |s| && s[e] == '}'
    requires forall k :: p < k < e ==> s[k] != '`'
    ensures forall k :: p + 2 <= k < e ==> !GroupCloseAt(s, k)
  {
    forall k | p + 2 <= k < e
      ensures !GroupCloseAt(s, k)
    {
      if s[k] == '}' {
        var w := GeminiService.SpaceRunEnd(s, k + 1);
        assert s[w] != '`';
      }
    }
  }

  /** The export pattern at the start of a string laid out as fence, tag, blank, object, blank, fence. */
  lemma FencedMatchAtStart(s: string, a: nat, p: nat, e: nat, w: nat)
    requires 3 <= a <= p && p + 2 <= e < w && w + 3 == |s|
    requires s[..3] == "```" && s[w..] == "```"
    requires (a == 7 && s[3..7] == "json") || (a == 3 && s[3] != 'j')
    requires IsBlank(s[a..p]) && s[p] == '{' && s[e] == '}' && IsBlank(s[e + 1..w])
    requires forall k :: p < k < e ==> s[k] != '`'
    ensures FencedJsonAt(s, 0) == Some(s[p..e + 1])
  {
    assert TagEnd(s, 0) == a by {
      if a == 3 {
        assert s[3..7][0] == s[3];
      }
    }
    assert GeminiService.SpaceRunEnd(s, a) == p by {
      SpaceRunEndAt(s, a, p - a);
    }
    LazyGroupEndAtObjectEnd(s, p, e, w);
    assert s[0..3] == "```";
    FencedJsonAtIs(s, 0, a, p, e);
  }

  /** The export pattern at `i`, given where its tag, its blank and its lazy group end. */
  lemma FencedJsonAtIs(s: string, i: nat, a: nat, p: nat, e: nat)
    requires i + 3 <= |s| && s[i..i + 3] == "```"
    requires a == TagEnd(s, i)
    requires a <= |s| && GeminiService.SpaceRunEnd(s, a) == p
    requires p + 2 <= |s| && s[p] == '{'
    requires LazyGroupEnd(s, p + 2) == Some(e)
    ensures FencedJsonAt(s, i) == Some(s[p..e + 1])
  {
  }

  /** The lazy group of an object without backticks, followed by a blank and a fence, ends at the object's `}`. */
  lemma LazyGroupEndAtObjectEnd(s: string, p: nat, e: nat, w: nat)
    requires p + 2 <= e < w && w + 3 == |s|
    requires s[w..] == "```" && s[e] == '}' && IsBlank(s[e + 1..w])
    requires forall k :: p < k < e ==> s[k] != '`'
    ensures LazyGroupEnd(s, p + 2) == Some(e)
  {
    SpaceRunEndAt(s, e + 1, w - e - 1);
    assert s[w..w + 3] == "```";
    assert GroupCloseAt(s, e);
    NoEarlierGroupClose(s, p, e);
    LazyGroupEndIs(s, p + 2, e);
  }

  lemma LazyGroupEndIs(s: string, from: nat, e: nat)
    requires from <= e < |s| && GroupCloseAt(s, e)
    requires forall k :: from <= k < e ==> !GroupCloseAt(s, k)
    ensures LazyGroupEnd(s, from) == Some(e)
  {
  }

  /**
   * A reply written as a fenced JSON object is found by the export pattern
   * whatever whitespace and optional `json` tag surround it, as long as the
   * object text has no backtick.
   */
  lemma FencedJsonFound(tag: string, ws1: string, body: string, ws2: string)
    requires tag == "" || tag == "json"
    requires IsBlank(ws1) && IsBlank(ws2) && body != [] && '`' !in body
    ensures FindFencedJson("```" + tag + ws1 + "{" + body + "}" + ws2 + "```", 0) == Some("{" + body + "}")
  {
    var braced := "{" + body + "}";
    var left := "```" + tag + ws1;
    var tail := ws2 + "```";
    var right := braced + tail;
    var s := left + right;
    Seqs.Assoc(left, "{", body);
    Seqs.Assoc(left, "{" + body, "}");
    Seqs.Assoc(left + braced, ws2, "```");
    Seqs.Assoc(left, braced, tail);
    assert s == "```" + tag + ws1 + "{" + body + "}" + ws2 + "```";
    var a := 3 + |tag|;
    var p := |left|;
    var e := p + |braced| - 1;
    var w := e + 1 + |ws2|;
    FencedHead(tag, ws1, right);
    FencedTail(left, body, ws2);
    FencedMatchAtStart(s, a, p, e, w);
    LeftmostMatchAtStart(s);
  }

  /** The opening fence, the tag and the blank of a fenced reply, seen in the whole text. */
  lemma FencedHead(tag: string, ws1: string, right: string)
    requires tag == "" || tag == "json"
    requires IsBlank(ws1) && right != [] && right[0] == '{'
    ensures var s := "```" + tag + ws1 + right;
      var a := 3 + |tag|;
      s[..3] == "```" && s[a..a + |ws1|] == ws1
      && ((a == 7 && s[3..7] == "json") || (a == 3 && s[3] != 'j'))
  {
    var head := "```" + tag;
    var left := head + ws1;
    var s := left + right;
    var a := |head|;
    assert s[..|left|] == left;
    assert s[..3] == left[..3] == head[..3] == "```";
    assert s[a..a + |ws1|] == left[a..] == ws1;
    if tag == "json" {
      assert s[3..7] == left[3..7] == head[3..7] == "json";
    } else if |ws1| > 0 {
      assert s[3] == left[3] == ws1[0];
    } else {
      assert s[3] == right[0] == '{';
    }
  }

  /** The braced object, the blank and the closing fence of a fenced reply, seen in the whole text. */
  lemma FencedTail(left: string, body: string, ws2: string)
    requires '`' !in body
    ensures var s := left + (("{" + body + "}") + (ws2 + "```"));
      var p := |left|;
      var e := p + |body| + 1;
      var w := e + 1 + |ws2|;
      |s| == w + 3 && s[p] == '{' && s[e] == '}' && s[p..e + 1] == "{" + body + "}"
      && s[e + 1..w] == ws2 && s[w..] == "```"
      && forall k :: p < k < e ==> s[k] != '`'
  {
    var braced := "{" + body + "}";
    var tail := ws2 + "```";
    var right := braced + tail;
    var s := left + right;
    var p := |left|;
    var e := p + |braced| - 1;
    var w := e + 1 + |ws2|;
    assert s[p..] == right;
    assert right[..|braced|] == braced && right[|braced|..] == tail;
    assert s[p..e + 1] == right[..|braced|];
    assert s[e + 1..w] == right[|braced|..][..|ws2|] == ws2;
    assert s[w..] == right[|braced|..][|ws2|..] == "```";
    forall k | p < k < e
      ensures s[k] != '`'
    {
      assert s[k] == braced[k - p] == body[k - p - 1];
    }
  }

  lemma LeftmostMatchAtStart(s: string)
    requires 3 <= |s| && FencedJsonAt(s, 0).Some?
    ensures FindFencedJson(s, 0) == FencedJsonAt(s, 0)
  {
  }

  /**
   * The candidate handed to the parser is the content itself or a piece of it
   * that starts with `{` and ends with `}`.
   */
  lemma JsonCandidateShape(s: string)
    ensures var c := JsonCandidate(s);
      c == s || (|c| >= 2 && c[0] == '{' && c[|c| - 1] == '}' && |c| <= |s|)
  {
    if FindFencedJson(s, 0).None? {
      var first := IndexOf(s, '{');
      var last := LastIndexOf(s, '}');
      if first != -1 && last > first {
        var c := s[first..last + 1];
        assert c[0] == s[first] && c[|c| - 1] == s[last];
      }
    }
  }

  /** Without a fenced match, text that lacks a `{` or a `}` is handed over whole. */
  lemma JsonCandidateWithoutBraces(s: string)
    requires FindFencedJson(s, 0).None? && ('{' !in s || '}' !in s)
    ensures JsonCandidate(s) == s
  {
    if '}' !in s {
      assert LastIndexOf(s, '}') == -1;
    }
  }

  /** Without a fenced match, the candidate runs from the first `{` to the last `}` when that one comes later. */
  lemma JsonCandidateFallback(s: string, first: nat, last: nat)
    requires FindFencedJson(s, 0).None?
    requires first < last < |s| && s[first] == '{' && s[last] == '}'
    requires forall k :: 0 <= k < first ==> s[k] != '{'
    requires forall k :: last < k < |s| ==> s[k] != '}'
    ensures JsonCandidate(s) == s[first..last + 1]
  {
    assert IndexOf(s, '{') == first;
    assert LastIndexOf(s, '}') == last;
  }

  /** News and analysis messages export specially; every other title exports the content unchanged. */
  lemma PlainExportForOtherTitles(featureTitle: string, m: ChatMessage, parse: string -> Option<Json>)
    requires featureTitle != NewsTitle && featureTitle != AnalysisTitle
    ensures ExportContent(featureTitle, m, parse) == m.content
  {
  }

  /**
   * An analysis reply stored as a fenced envelope exports the envelope's
   * `analysis` text.
   */
  lemma AnalysisExportOfFencedReply(tag: string, ws1: string, body: string, ws2: string,
                                    parse: string -> Option<Json>, analysis: string)
    requires tag == "" || tag == "json"
    requires IsBlank(ws1) && IsBlank(ws2) && body != [] && '`' !in body
    requires parse("{" + body + "}").Some? && StringField(parse("{" + body + "}").value, "analysis") == Some(analysis)
    ensures AnalysisExport("```" + tag + ws1 + "{" + body + "}" + ws2 + "```", parse) == analysis
  {
    var braced := "{" + body + "}";
    var rest := tag + ws1 + braced + ws2;
    var s := "```" + rest + "```";
    assert s == "```" + tag + ws1 + "{" + body + "}" + ws2 + "```";
    assert s[..3] == "```" && s[0] == '`' && s[|s| - 1] == '`';
    FencedJsonFound(tag, ws1, body, ws2);
    AnalysisExportOfFencedText(s, braced, parse, analysis);
  }

  lemma AnalysisExportOfFencedText(s: string, braced: string, parse: string -> Option<Json>, analysis: string)
    requires |s| >= 3 && s[..3] == "```" && s[|s| - 1] == '`'
    requires FindFencedJson(s, 0) == Some(braced)
    requires parse(braced).Some? && StringField(parse(braced).value, "analysis") == Some(analysis)
    ensures AnalysisExport(s, parse) == analysis
  {
    JsonCandidateOfFenced(s, braced);
    assert s[0] == s[..3][0];
    assert StartsWith(s, "```");
    TrimOfTrimmed(s);
    AnalysisExportIs(s, parse, braced, analysis);
  }

  lemma AnalysisExportIs(content: string, parse: string -> Option<Json>, candidate: string, analysis: string)
    requires Trim(content) == content && StartsWith(content, "```")
    requires JsonCandidate(content) == candidate
    requires parse(candidate).Some? && StringField(parse(candidate).value, "analysis") == Some(analysis)
    ensures AnalysisExport(content, parse) == analysis
  {
  }

  lemma JsonCandidateOfFenced(s: string, g: string)
    requires FindFencedJson(s, 0) == Some(g)
    ensures JsonCandidate(s) == g
  {
  }

  // ---------------------------------------------------------------------
  // Controls

  /** Copy and export controls sit on finished model messages with visible text. */
  predicate ShowMessageActions(m: ChatMessage)
  {
    !m.isLoading && m.role == Model && Trim(m.content) != []
  }

  /** Per-message export is offered by the four document features. */
  predicate ExportOffered(featureTitle: string)
  {
    featureTitle == AnalysisTitle || featureTitle == DraftTitle || featureTitle == MultimediaTitle || featureTitle == NewsTitle
  }

  /** The whole-conversation export is disabled until the user has written something. */
  predicate ChatExportDisabled(h: seq<ChatMessage>)
  {
    ChatTranscript.UserMessageCount(h) == 0
  }

  /** A fresh conversation (system message and greeting) cannot be exported. */
  lemma FreshChatNotExportable(systemId: string, instruction: string, greetingId: string, greeting: string, now: int)
    ensures ChatExportDisabled(ChatTranscript.InitialChat(systemId, instruction, greetingId, greeting, now))
  {
    var h := ChatTranscript.InitialChat(systemId, instruction, greetingId, greeting, now);
    assert ChatTranscript.UserMessageCount(h) == ChatTranscript.UserMessageCount(h[1..]);
    assert ChatTranscript.UserMessageCount(h[1..]) == ChatTranscript.UserMessageCount(h[1..][1..]);
    assert h[1..][1..] == [];
  }

  /** The export file name: whitespace and slashes of the title become `_`, then `_` and the message id. */
  function ExportFileStem(featureTitle: string, messageId: string): (r: string)
    ensures |r| == |featureTitle| + 1 + |messageId|
    ensures forall i :: 0 <= i < |featureTitle| ==> !IsWhitespace(r[i]) && r[i] != '/'
    ensures forall i :: 0 <= i < |featureTitle| && !IsWhitespace(featureTitle[i]) && featureTitle[i] != '/' ==> r[i] == featureTitle[i]
    ensures r[|featureTitle|..] == "_" + messageId
  {
    Seqs.Map(featureTitle, (c: char) => if IsWhitespace(c) || c == '/' then '_' else c) + "_" + messageId
  }

  /**
   * A message export agrees with the feature's transcript export of the same
   * article except for the newline that the transcript adds after a summary.
   */
  lemma ArticleTextsAgree(a: NewsArticle)
    ensures ExportArticleText(a) + (if Truthy(a.summary) then "\n" else "") == NewsChat.ArticleText(a)
  {
  }
}
