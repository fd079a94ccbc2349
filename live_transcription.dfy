/**
 * The live-transcription page: record, transcribe, detect the language,
 * polish (and for English, translate) the transcript, take a title from the
 * polished note, and download both texts as a Word document.
 */
module LiveTranscription {
  import opened Wrappers
  import opened Text
  import Seqs
  import NoteTitle

  const DefaultTitle: string := "Ghi chép chưa có tiêu đề"
  const DefaultFileStem: string := "ghi_chep"
  const FileExtension: string := ".docx"
  const ReadyStatus: string := "Sẵn sàng ghi âm"
  const RecordingStatus: string := "Đang ghi âm..."
  const NoAudioStatus: string := "Không có dữ liệu âm thanh. Sẵn sàng ghi âm."
  const ErrorStatus: string := "Lỗi. Sẵn sàng ghi âm."
  const NoTranscriptStatus: string := "Không có bản phiên âm để sửa. Sẵn sàng ghi âm."
  const TranslatedStatus: string := "Ghi chép đã được sửa và dịch. Sẵn sàng cho bản ghi tiếp theo."
  const PolishedStatus: string := "Ghi chép đã được sửa. Sẵn sàng cho bản ghi tiếp theo."
  const PermissionDeniedMessage: string := "Quyền truy cập micro bị từ chối. Vui lòng kiểm tra cài đặt trình duyệt."
  const NoMicrophoneMessage: string := "Không tìm thấy micro. Vui lòng kết nối micro."
  const StartErrorPrefix: string := "Lỗi: "
  const ReadErrorPrefix: string := "Lỗi xử lý bản ghi: "
  const TranscriptionErrorPrefix: string := "Lỗi lấy bản phiên âm: "
  const PolishErrorPrefix: string := "Lỗi xử lý ghi chép: "
  const EmptyEnglishPolishMessage: string := "Polishing English note returned empty content."
  const EmptyPolishMessage: string := "AI không trả về nội dung đã sửa."
  const PolishErrorHtml: string := "<p><em>Lỗi trong quá trình sửa ghi chép. Bản nháp vẫn có sẵn.</em></p>"
  const DocxErrorMessage: string := "Lỗi khi tạo tệp DOCX."
  const NothingToDownloadAlert: string := "Không có nội dung để tải xuống."
  const PolishedHeading: string := "Ghi chép đã sửa"
  const RawHeading: string := "Bản nháp"

  datatype View = PolishedView | RawView

  /** The `name` and `message` of the error thrown when the microphone cannot be opened. */
  datatype StartError = StartError(name: string, message: string)

  /** What a click on the record button did. */
  datatype Toggle = Ignored | Stopped | Started

  /** The replies of the four model calls, in the order they are made. */
  datatype Replies = Replies(
    transcription: Result<string, string>,
    language: Result<string, string>,
    polish: Result<string, string>,
    translation: Result<string, string>)

  /** The end of the polishing step. */
  datatype Polishing = NothingToPolish | Polished(text: string, english: bool) | PolishFailed(message: string)

  /** The message shown when recording cannot start. */
  function StartErrorMessage(e: StartError): (m: string)
    ensures e.name == "NotAllowedError" || e.name == "PermissionDeniedError" ==> m == PermissionDeniedMessage
    ensures e.name == "NotFoundError" ==> m == NoMicrophoneMessage
    ensures e.name !in {"NotAllowedError", "PermissionDeniedError", "NotFoundError"} ==> m == StartErrorPrefix + e.message
  {
    if e.name == "NotAllowedError" || e.name == "PermissionDeniedError" then PermissionDeniedMessage
    else if e.name == "NotFoundError" then NoMicrophoneMessage
    else StartErrorPrefix + e.message
  }

  /** The language reply names English (trimmed and lower-cased, anywhere in the text). */
  predicate NamesEnglish(reply: string)
  {
    Contains(ToLowerAscii(Trim(reply)), "english")
  }

  /**
   * `processTranscriptionAndPolish` once the replies are known: nothing for a blank transcript;
   * English text is polished then translated, anything else is polished; an empty result fails.
   */
  function PolishingOf(transcription: string, r: Replies): (o: Polishing)
    ensures o.NothingToPolish? <==> Trim(transcription) == []
    ensures o.Polished? ==> Trim(o.text) != [] && r.language.Success? && o.english == NamesEnglish(r.language.value)
    ensures o.Polished? && o.english ==> r.polish.Success? && Trim(r.polish.value) != [] && r.translation == Success(o.text)
    ensures o.Polished? && !o.english ==> r.polish == Success(o.text)
    ensures Trim(transcription) != [] && r.language.Failure? ==> o == PolishFailed(r.language.error)
  {
    if Trim(transcription) == [] then NothingToPolish
    else if r.language.Failure? then PolishFailed(r.language.error)
    else
      var english := NamesEnglish(r.language.value);
      var final :=
        if !english then r.polish
        else if r.polish.Failure? then r.polish
        else if Trim(r.polish.value) == [] then Failure(EmptyEnglishPolishMessage)
        else r.translation;
      if final.Failure? then PolishFailed(final.error)
      else if Trim(final.value) == [] then PolishFailed(EmptyPolishMessage)
      else Polished(final.value, english)
  }

  /** How many model calls polishing makes: none for a blank transcript, three only for English. */
  function PolishCalls(transcription: string, r: Replies): (n: nat)
    ensures n == 0 <==> PolishingOf(transcription, r).NothingToPolish?
    ensures n <= 3
    ensures n == 3 ==> r.language.Success? && NamesEnglish(r.language.value)
    ensures PolishingOf(transcription, r).Polished? ==> n == (if PolishingOf(transcription, r).english then 3 else 2)
  {
    if Trim(transcription) == [] then 0
    else if r.language.Failure? then 1
    else if NamesEnglish(r.language.value) && r.polish.Success? && Trim(r.polish.value) != [] then 3
    else 2
  }

  /** The title after polishing: the extracted one, or the title as it was. */
  function TitleAfterPolish(current: string, text: string): string
  {
    match NoteTitle.TitleOf(NoteTitle.Lines(text), NoteTitle.Live)
    case Some(t) => t
    case None => current
  }

  /** The title after the user edits it: an emptied or blank title goes back to the default. */
  function EditedTitle(content: string): (t: string)
    ensures Trim(t) != []
    ensures Trim(content) != [] ==> t == content
    ensures Trim(content) == [] ==> t == DefaultTitle
  {
    var newTitle := if content == [] then DefaultTitle else content;
    if Trim(newTitle) != [] then newTitle
    else
      assert Trim(DefaultTitle) == DefaultTitle by {
        assert !IsWhitespace(DefaultTitle[0]) && !IsWhitespace(DefaultTitle[|DefaultTitle| - 1]);
        TrimOfTrimmed(DefaultTitle);
      }
      DefaultTitle
  }

  // ---------------------------------------------------------------------
  // Download

  datatype DocParagraph = TitleLine(text: string) | SectionHeading(text: string) | TextLine(text: string)

  /** One paragraph per line of the text. */
  function TextLines(text: string): (ps: seq<DocParagraph>)
    ensures |ps| == |Split(text, '\n')|
    ensures forall i :: 0 <= i < |ps| ==> ps[i] == TextLine(Split(text, '\n')[i])
  {
    Seqs.Map(Split(text, '\n'), (line: string) => TextLine(line))
  }

  /** A section: its heading, then one paragraph per line; nothing when the text is blank. */
  function Section(heading: string, text: string): seq<DocParagraph>
  {
    if Trim(text) != [] then [SectionHeading(heading)] + TextLines(text) else []
  }

  /** The document: the title, then the polished and the raw sections. */
  function LiveDocument(title: string, polished: string, raw: string): seq<DocParagraph>
  {
    [TitleLine(title)] + Section(PolishedHeading, polished) + Section(RawHeading, raw)
  }

  function SectionHeadings(ps: seq<DocParagraph>): seq<string>
  {
    if ps == [] then []
    else (if ps[0].SectionHeading? then [ps[0].text] else []) + SectionHeadings(ps[1..])
  }

  lemma {:induction false} SectionHeadingsAppend(a: seq<DocParagraph>, b: seq<DocParagraph>)
    ensures SectionHeadings(a + b) == SectionHeadings(a) + SectionHeadings(b)
  {
    if a == [] {
      assert a + b == b;
    } else {
      assert (a + b)[1..] == a[1..] + b;
      SectionHeadingsAppend(a[1..], b);
    }
  }

  /** A section holds its own heading and no other, and one paragraph per line after it. */
  lemma {:induction false} SectionShape(heading: string, text: string)
    ensures Trim(text) == [] ==> Section(heading, text) == []
    ensures Trim(text) != [] ==>
      |Section(heading, text)| == 1 + |Split(text, '\n')| && SectionHeadings(Section(heading, text)) == [heading]
  {
    if Trim(text) != [] {
      var lines := TextLines(text);
      NoSectionHeadings(lines);
      SectionHeadingsAppend([SectionHeading(heading)], lines);
    }
  }

  lemma {:induction false} NoSectionHeadings(ps: seq<DocParagraph>)
    requires forall i :: 0 <= i < |ps| ==> ps[i].TextLine?
    ensures SectionHeadings(ps) == []
  {
    if ps != [] {
      NoSectionHeadings(ps[1..]);
    }
  }

  /**
   * The document opens with the title and has a section exactly for each non-blank text,
   * polished first; each text contributes one paragraph per line.
   */
  lemma LiveDocumentShape(title: string, polished: string, raw: string)
    ensures LiveDocument(title, polished, raw)[0] == TitleLine(title)
    ensures |LiveDocument(title, polished, raw)| ==
      1 + (if Trim(polished) != [] then 1 + |Split(polished, '\n')| else 0)
        + (if Trim(raw) != [] then 1 + |Split(raw, '\n')| else 0)
    ensures SectionHeadings(LiveDocument(title, polished, raw)) ==
      (if Trim(polished) != [] then [PolishedHeading] else []) + (if Trim(raw) != [] then [RawHeading] else [])
  {
    var p := Section(PolishedHeading, polished);
    var q := Section(RawHeading, raw);
    SectionHeadingsAppend([TitleLine(title)], p);
    SectionHeadingsAppend([TitleLine(title)] + p, q);
    SectionShape(PolishedHeading, polished);
    SectionShape(RawHeading, raw);
    assert SectionHeadings([TitleLine(title)]) == [];
  }

  /** The `forEach` that pushes one paragraph per line. */
  method AppendLines(doc: seq<DocParagraph>, text: string) returns (r: seq<DocParagraph>)
    ensures r == doc + TextLines(text)
  {
    var lines := Split(text, '\n');
    r := doc;
    var i := 0;
    while i < |lines|
      invariant 0 <= i <= |lines|
      invariant |r| == |doc| + i && r[..|doc|] == doc
      invariant forall k :: 0 <= k < i ==> r[|doc| + k] == TextLine(lines[k])
    {
      r := r + [TextLine(lines[i])];
      i := i + 1;
    }
  }

  /** Appends a section when its text is not blank. */
  method AppendSection(doc: seq<DocParagraph>, heading: string, text: string) returns (r: seq<DocParagraph>)
    ensures r == doc + Section(heading, text)
  {
    var present := Trim(text) != [];
    if present {
      r := AppendLines(doc + [SectionHeading(heading)], text);
    } else {
      r := doc;
    }
    SectionAppended(doc, heading, text, present, r);
  }

  lemma SectionAppended(doc: seq<DocParagraph>, heading: string, text: string, present: bool, r: seq<DocParagraph>)
    requires present == (Trim(text) != [])
    requires present ==> r == doc + [SectionHeading(heading)] + TextLines(text)
    requires !present ==> r == doc
    ensures r == doc + Section(heading, text)
  {
    if !present {
      assert doc + [] == doc;
    }
  }

  method BuildDocument(title: string, polished: string, raw: string) returns (doc: seq<DocParagraph>)
    ensures doc == LiveDocument(title, polished, raw)
  {
    doc := AppendSection([TitleLine(title)], PolishedHeading, polished);
    doc := AppendSection(doc, RawHeading, raw);
  }

  /** The characters `/[^a-z0-9\s]/gi` leaves in place. */
  predicate KeptInStem(c: char)
  {
    IsAsciiAlnum(c) || IsWhitespace(c)
  }

  predicate NotUnderscore(c: char)
  {
    c != '_'
  }

  /**
   * `replace(/[^a-z0-9\s]/gi, '').replace(/\s+/g, '_').toLowerCase()`, or `ghi_chep` when nothing is left.
   */
  function SafeFileStem(title: string): (stem: string)
    ensures stem != []
    ensures forall i :: 0 <= i < |stem| ==> ('a' <= stem[i] <= 'z') || IsDigit(stem[i]) || stem[i] == '_'
    ensures forall i :: 0 <= i < |stem| - 1 ==> !(stem[i] == '_' && stem[i + 1] == '_')
  {
    var kept := Seqs.Filter(title, KeptInStem);
    var lowered := JoinedLower(kept);
    LoweredStemChars(kept);
    DefaultStemShape();
    if lowered == [] then DefaultFileStem else lowered
  }

  /**
   * The stem falls back to `ghi_chep` when the title keeps no ASCII letter, digit or whitespace;
   * otherwise, with the `_` separators taken out, it is the title's ASCII letters and digits, lower-cased, in order.
   */
  lemma SafeFileStemLetters(title: string)
    ensures Seqs.Filter(title, KeptInStem) == [] ==> SafeFileStem(title) == DefaultFileStem
    ensures Seqs.Filter(title, KeptInStem) != [] ==>
      Seqs.Filter(SafeFileStem(title), NotUnderscore) == ToLowerAscii(Seqs.Filter(title, IsAsciiAlnum))
  {
    StemOfTitle(title);
  }

  /** The fallback stem has the shape of every other stem. */
  lemma DefaultStemShape()
    ensures forall i :: 0 <= i < |DefaultFileStem| ==>
      ('a' <= DefaultFileStem[i] <= 'z') || IsDigit(DefaultFileStem[i]) || DefaultFileStem[i] == '_'
    ensures forall i :: 0 <= i < |DefaultFileStem| - 1 ==> !(DefaultFileStem[i] == '_' && DefaultFileStem[i + 1] == '_')
  {
  }

  /** The kept characters with each whitespace run joined into one `_`, lower-cased. */
  function JoinedLower(kept: string): string
  {
    ToLowerAscii(ReplaceRuns(kept, IsWhitespace, '_'))
  }

  /** Lower-cased, the joined kept characters are lower-case letters, digits and single `_` separators. */
  lemma LoweredStemChars(kept: string)
    requires forall i :: 0 <= i < |kept| ==> KeptInStem(kept[i])
    ensures forall i :: 0 <= i < |JoinedLower(kept)| ==>
      ('a' <= JoinedLower(kept)[i] <= 'z') || IsDigit(JoinedLower(kept)[i]) || JoinedLower(kept)[i] == '_'
    ensures forall i :: 0 <= i < |JoinedLower(kept)| - 1 ==> !(JoinedLower(kept)[i] == '_' && JoinedLower(kept)[i + 1] == '_')
  {
    var joined := ReplaceRuns(kept, IsWhitespace, '_');
    JoinedStem(kept);
    var lowered := ToLowerAscii(joined);
    forall i | 0 <= i < |lowered|
      ensures ('a' <= lowered[i] <= 'z') || IsDigit(lowered[i]) || lowered[i] == '_'
    {
      assert joined[i] == '_' || IsAsciiAlnum(joined[i]);
    }
    forall i | 0 <= i < |lowered| - 1
      ensures !(lowered[i] == '_' && lowered[i + 1] == '_')
    {
      assert !(joined[i] == '_' && joined[i + 1] == '_');
    }
  }

  /** Joining the kept characters leaves `_` separators, never two in a row, between ASCII letters and digits. */
  lemma JoinedStem(kept: string)
    requires forall i :: 0 <= i < |kept| ==> KeptInStem(kept[i])
    ensures forall i :: 0 <= i < |ReplaceRuns(kept, IsWhitespace, '_')| ==>
      ReplaceRuns(kept, IsWhitespace, '_')[i] == '_' || IsAsciiAlnum(ReplaceRuns(kept, IsWhitespace, '_')[i])
    ensures forall i :: 0 <= i < |ReplaceRuns(kept, IsWhitespace, '_')| - 1 ==>
      !(ReplaceRuns(kept, IsWhitespace, '_')[i] == '_' && ReplaceRuns(kept, IsWhitespace, '_')[i + 1] == '_')
  {
    assert forall i :: 0 <= i < |kept| ==> kept[i] != '_';
    ReplaceRunsSeparated(kept, IsWhitespace, '_');
    ReplaceRunsKeeps(kept, IsWhitespace, '_', KeptInStem);
  }

  /** Whenever the joined, lower-cased kept characters are not empty, they are the stem. */
  lemma StemIsJoined(title: string)
    requires JoinedLower(Seqs.Filter(title, KeptInStem)) != []
    ensures SafeFileStem(title) == JoinedLower(Seqs.Filter(title, KeptInStem))
  {
  }

  /** A title of ASCII letters and digits alone is its own stem, lower-cased. */
  lemma {:induction false} SafeFileStemOfWord(w: string)
    requires w != [] && forall k :: 0 <= k < |w| ==> IsAsciiAlnum(w[k])
    ensures SafeFileStem(w) == ToLowerAscii(w)
  {
    Seqs.FilterKeepsAll(w, KeptInStem);
    JoinedLowerOfWord(w);
    StemIsJoined(w);
  }

  /** A word without whitespace is joined unchanged, so joined and lower-cased it is just lower-cased. */
  lemma {:induction false} JoinedLowerOfWord(w: string)
    requires w != [] && forall k :: 0 <= k < |w| ==> IsAsciiAlnum(w[k])
    ensures JoinedLower(w) == ToLowerAscii(w) && JoinedLower(w) != []
  {
    forall k | 0 <= k < |w| ensures !IsWhitespace(w[k]) {
      AlnumIsNotWhitespace(w[k]);
    }
    assert w + [] == w;
    ReplaceRunsKeepsPrefix(w, [], IsWhitespace, '_');
  }

  /**
   * A whitespace run between two words becomes a single `_` in its place: the stem of
   * `w1 + ws + w2` is the lower-cased `w1`, one `_`, then the stem of `w2`.
   */
  lemma {:induction false} SafeFileStemJoinsWords(w1: string, ws: string, w2: string)
    requires w1 != [] && forall k :: 0 <= k < |w1| ==> IsAsciiAlnum(w1[k])
    requires ws != [] && forall k :: 0 <= k < |ws| ==> IsWhitespace(ws[k])
    requires w2 != [] && IsAsciiAlnum(w2[0])
    ensures SafeFileStem(w1 + ws + w2) == ToLowerAscii(w1) + "_" + SafeFileStem(w2)
  {
    KeptOfWords(w1, ws, w2);
    var k2 := Seqs.Filter(w2, KeptInStem);
    JoinedLowerOfWords(w1, ws, k2);
    StemIsJoined(w1 + ws + w2);
    StemIsJoined(w2);
  }

  /** The kept characters of two words around a whitespace run: the first word, the run, then what the second keeps. */
  lemma {:induction false} KeptOfWords(w1: string, ws: string, w2: string)
    requires forall k :: 0 <= k < |w1| ==> IsAsciiAlnum(w1[k])
    requires forall k :: 0 <= k < |ws| ==> IsWhitespace(ws[k])
    requires w2 != [] && IsAsciiAlnum(w2[0])
    ensures Seqs.Filter(w1 + ws + w2, KeptInStem) == w1 + ws + Seqs.Filter(w2, KeptInStem)
    ensures Seqs.Filter(w2, KeptInStem) != [] && Seqs.Filter(w2, KeptInStem)[0] == w2[0]
  {
    assert Seqs.Filter(w2, KeptInStem) == [w2[0]] + Seqs.Filter(w2[1..], KeptInStem);
    Seqs.FilterAppend(w1 + ws, w2, KeptInStem);
    Seqs.FilterKeepsAll(w1 + ws, KeptInStem);
  }

  /** Joined and lower-cased, the first word is lower-cased, the run becomes one `_`, and the rest is joined on its own. */
  lemma {:induction false} JoinedLowerOfWords(w1: string, ws: string, k2: string)
    requires forall k :: 0 <= k < |w1| ==> IsAsciiAlnum(w1[k])
    requires ws != [] && forall k :: 0 <= k < |ws| ==> IsWhitespace(ws[k])
    requires k2 != [] && IsAsciiAlnum(k2[0])
    ensures JoinedLower(w1 + ws + k2) == ToLowerAscii(w1) + "_" + JoinedLower(k2)
    ensures JoinedLower(k2) != []
  {
    var rest := ReplaceRuns(k2, IsWhitespace, '_');
    JoinedOfWords(w1, ws, k2);
    ToLowerAsciiAppend(w1 + "_", rest);
    ToLowerAsciiAppend(w1, "_");
    assert ToLowerAscii("_") == "_";
    AlnumIsNotWhitespace(k2[0]);
    assert rest != [];
  }

  /** Two words separated by whitespace give their lower-cased forms joined by one `_`. */
  lemma SafeFileStemTwoWords(w1: string, ws: string, w2: string)
    requires w1 != [] && forall k :: 0 <= k < |w1| ==> IsAsciiAlnum(w1[k])
    requires ws != [] && forall k :: 0 <= k < |ws| ==> IsWhitespace(ws[k])
    requires w2 != [] && forall k :: 0 <= k < |w2| ==> IsAsciiAlnum(w2[k])
    ensures SafeFileStem(w1 + ws + w2) == ToLowerAscii(w1) + "_" + ToLowerAscii(w2)
  {
    SafeFileStemJoinsWords(w1, ws, w2);
    SafeFileStemOfWord(w2);
  }

  /** Joining keeps the first word, turns the run into one `_`, then joins the rest. */
  lemma JoinedOfWords(w1: string, ws: string, k2: string)
    requires forall k :: 0 <= k < |w1| ==> IsAsciiAlnum(w1[k])
    requires ws != [] && forall k :: 0 <= k < |ws| ==> IsWhitespace(ws[k])
    requires k2 != [] && IsAsciiAlnum(k2[0])
    ensures ReplaceRuns(w1 + ws + k2, IsWhitespace, '_') == w1 + "_" + ReplaceRuns(k2, IsWhitespace, '_')
  {
    forall k | 0 <= k < |w1| ensures !IsWhitespace(w1[k]) {
      AlnumIsNotWhitespace(w1[k]);
    }
    AlnumIsNotWhitespace(k2[0]);
    assert w1 + ws + k2 == w1 + (ws + k2);
    ReplaceRunsKeepsPrefix(w1, ws + k2, IsWhitespace, '_');
    ReplaceRunsOneRun(ws, k2, IsWhitespace, '_');
  }

  lemma AlnumIsNotWhitespace(c: char)
    requires IsAsciiAlnum(c)
    ensures !IsWhitespace(c)
  {
  }

  /** What joining and lower-casing makes of a title, before the `ghi_chep` fallback. */
  lemma StemOfTitle(title: string)
    ensures var kept := Seqs.Filter(title, KeptInStem);
      (kept == [] ==> JoinedLower(kept) == [])
      && (kept != [] ==> JoinedLower(kept) != [] && Seqs.Filter(JoinedLower(kept), NotUnderscore) == ToLowerAscii(Seqs.Filter(title, IsAsciiAlnum)))
  {
    var kept := Seqs.Filter(title, KeptInStem);
    LoweredStem(kept);
    FilterOfKept(title);
  }

  /** The joined, lower-cased kept characters: empty only when nothing was kept, and without `_` their letters and digits. */
  lemma LoweredStem(kept: string)
    requires forall i :: 0 <= i < |kept| ==> KeptInStem(kept[i])
    ensures kept != [] ==> JoinedLower(kept) != []
    ensures Seqs.Filter(JoinedLower(kept), NotUnderscore)
      == ToLowerAscii(Seqs.Filter(kept, IsAsciiAlnum))
  {
    var joined := ReplaceRuns(kept, IsWhitespace, '_');
    if kept != [] {
      if IsWhitespace(kept[0]) {
        assert joined[0] == '_';
      } else {
        assert joined[0] == kept[0];
      }
    }
    StemKeepsAlnum(kept);
    LowerCommutesWithFilter(joined);
  }

  /** Taking the `_` separators out of the joined text leaves its letters and digits. */
  lemma {:induction false} StemKeepsAlnum(s: string)
    requires forall i :: 0 <= i < |s| ==> KeptInStem(s[i])
    ensures Seqs.Filter(ReplaceRuns(s, IsWhitespace, '_'), NotUnderscore) == Seqs.Filter(s, IsAsciiAlnum)
    decreases |s|
  {
    if s != [] {
      if IsWhitespace(s[0]) {
        var e := RunEnd(s, 0, IsWhitespace);
        StemKeepsAlnum(s[e..]);
        var t := ReplaceRuns(s[e..], IsWhitespace, '_');
        assert ReplaceRuns(s, IsWhitespace, '_') == ['_'] + t;
        assert (['_'] + t)[1..] == t;
        LeadingSpaceHasNoAlnum(s, e);
      } else {
        StemKeepsAlnum(s[1..]);
        var t := ReplaceRuns(s[1..], IsWhitespace, '_');
        assert ReplaceRuns(s, IsWhitespace, '_') == [s[0]] + t;
        assert ([s[0]] + t)[1..] == t;
        assert IsAsciiAlnum(s[0]);
      }
    }
  }

  /** A leading run of whitespace adds no letter or digit. */
  lemma {:induction false} LeadingSpaceHasNoAlnum(s: string, e: nat)
    requires e <= |s| && forall i :: 0 <= i < e ==> IsWhitespace(s[i])
    ensures Seqs.Filter(s, IsAsciiAlnum) == Seqs.Filter(s[e..], IsAsciiAlnum)
  {
    var lead, rest := s[..e], s[e..];
    assert s == lead + rest;
    forall i | 0 <= i < |lead|
      ensures !IsAsciiAlnum(lead[i])
    {
      WhitespaceIsNotAlnum(s[i]);
    }
    Seqs.FilterKeepsNone(lead, IsAsciiAlnum);
    Seqs.FilterAppend(lead, rest, IsAsciiAlnum);
  }

  lemma WhitespaceIsNotAlnum(c: char)
    requires IsWhitespace(c)
    ensures !IsAsciiAlnum(c)
  {
  }

  /** Lower-casing neither makes nor removes a `_`, so it commutes with taking the `_` out. */
  lemma {:induction false} LowerCommutesWithFilter(s: string)
    ensures Seqs.Filter(ToLowerAscii(s), NotUnderscore) == ToLowerAscii(Seqs.Filter(s, NotUnderscore))
  {
    if s != [] {
      LowerCommutesWithFilter(s[1..]);
      assert ToLowerAscii(s)[1..] == ToLowerAscii(s[1..]);
      assert (AsciiLower(s[0]) == '_') == (s[0] == '_');
      if s[0] != '_' {
        assert ToLowerAscii([s[0]] + Seqs.Filter(s[1..], NotUnderscore))
          == [AsciiLower(s[0])] + ToLowerAscii(Seqs.Filter(s[1..], NotUnderscore));
      }
    }
  }

  /** The letters and digits of the kept characters are the letters and digits of the title. */
  lemma {:induction false} FilterOfKept(t: string)
    ensures Seqs.Filter(Seqs.Filter(t, KeptInStem), IsAsciiAlnum) == Seqs.Filter(t, IsAsciiAlnum)
  {
    if t != [] {
      FilterOfKept(t[1..]);
      var k := Seqs.Filter(t[1..], KeptInStem);
      if KeptInStem(t[0]) {
        assert Seqs.Filter(t, KeptInStem) == [t[0]] + k;
        assert ([t[0]] + k)[1..] == k;
        assert Seqs.Filter([t[0]] + k, IsAsciiAlnum)
          == (if IsAsciiAlnum(t[0]) then [t[0]] else []) + Seqs.Filter(k, IsAsciiAlnum);
      } else {
        assert Seqs.Filter(t, KeptInStem) == k;
        assert !IsAsciiAlnum(t[0]);
      }
    }
  }

  /** What a click on the download button did. */
  datatype Download = DownloadIgnored | NothingToDownload | Saved(document: seq<DocParagraph>, fileName: string) | PackFailed

  class LiveTranscriptionPage {
    var status: string
    var isRecording: bool
    var isProcessing: bool
    var rawTranscription: string
    /** The polished pane's HTML. */
    var polishedNote: string
    var editorTitle: string
    var error: Option<string>
    var activeView: View

    /** The page as it mounts: fresh state, then `handleNewNote`. */
    constructor ()
      ensures !isRecording && !isProcessing && status == ReadyStatus && error.None?
      ensures editorTitle == DefaultTitle && rawTranscription == [] && polishedNote == [] && activeView == PolishedView
    {
      status := ReadyStatus;
      isRecording := false;
      isProcessing := false;
      rawTranscription := [];
      polishedNote := [];
      editorTitle := DefaultTitle;
      error := None;
      activeView := PolishedView;
    }

    /** The record button: ignored while processing; stops a recording, or starts one. */
    method ToggleRecording(start: Result<(), StartError>) returns (t: Toggle)
      modifies this`isRecording, this`isProcessing, this`status, this`error
      ensures t == (if old(isProcessing) then Ignored else if old(isRecording) then Stopped else Started)
      ensures t == Ignored ==> isRecording == old(isRecording) && isProcessing && status == old(status) && error == old(error)
      ensures t == Stopped ==> !isRecording && isProcessing == old(isProcessing) && status == old(status) && error == old(error)
      ensures t == Started ==> !isProcessing && (isRecording <==> start.Success?)
      ensures t == Started && start.Success? ==> status == RecordingStatus && error.None?
      ensures t == Started && start.Failure? ==> status == ReadyStatus && error == Some(StartErrorMessage(start.error))
    {
      if isProcessing {
        return Ignored;
      }
      if isRecording {
        isRecording := false;
        return Stopped;
      }
      StartRecording(start);
      t := Started;
    }

    /** `startRecording`: the microphone opens and recording begins, or the error is shown and both flags drop. */
    method StartRecording(start: Result<(), StartError>)
      modifies this`isRecording, this`isProcessing, this`status, this`error
      ensures !isProcessing && (isRecording <==> start.Success?)
      ensures start.Success? ==> status == RecordingStatus && error.None?
      ensures start.Failure? ==> status == ReadyStatus && error == Some(StartErrorMessage(start.error))
    {
      error := None;
      match start {
        case Success(_) =>
          isRecording := true;
          isProcessing := false;
          status := RecordingStatus;
        case Failure(e) =>
          error := Some(StartErrorMessage(e));
          status := ReadyStatus;
          isRecording := false;
          isProcessing := false;
      }
    }

    /**
     * The recorder's `onstop` and what follows: reading the audio, transcribing it and polishing the
     * transcript. Whatever happens, processing has ended when it returns.
     */
    method RecordingStopped(hasAudio: bool, readError: Option<string>, r: Replies, render: string -> string)
      modifies this`isRecording, this`isProcessing, this`status, this`error, this`rawTranscription,
        this`polishedNote, this`editorTitle
      ensures !isRecording && !isProcessing
      ensures !hasAudio ==> status == NoAudioStatus && unchanged(this`error, this`rawTranscription, this`polishedNote, this`editorTitle)
      ensures hasAudio && readError.Some? ==>
        status == ErrorStatus && error == Some(ReadErrorPrefix + readError.value)
        && unchanged(this`rawTranscription, this`polishedNote, this`editorTitle)
      ensures hasAudio && readError.None? && r.transcription.Failure? ==>
        status == ErrorStatus && error == Some(TranscriptionErrorPrefix + r.transcription.error)
        && unchanged(this`rawTranscription, this`polishedNote, this`editorTitle)
      ensures hasAudio && readError.None? && r.transcription.Success? ==>
        rawTranscription == r.transcription.value
        && Applied(PolishingOf(r.transcription.value, r), render, old(editorTitle), old(polishedNote), old(error))
           == (status, error, polishedNote, editorTitle)
    {
      isRecording := false;
      isProcessing := true;
      if !hasAudio {
        status := NoAudioStatus;
        isProcessing := false;
        return;
      }
      if readError.Some? {
        error := Some(ReadErrorPrefix + readError.value);
        status := ErrorStatus;
        isProcessing := false;
        return;
      }
      match r.transcription {
        case Failure(m) =>
          error := Some(TranscriptionErrorPrefix + m);
          status := ErrorStatus;
          isProcessing := false;
        case Success(text) =>
          rawTranscription := text;
          ApplyPolishing(PolishingOf(text, r), render);
      }
    }

    /** `processTranscriptionAndPolish` with `updatePolishedNoteUI`, ending with processing cleared. */
    method ApplyPolishing(o: Polishing, render: string -> string)
      modifies this`isProcessing, this`status, this`error, this`polishedNote, this`editorTitle
      ensures !isProcessing
      ensures Applied(o, render, old(editorTitle), old(polishedNote), old(error)) == (status, error, polishedNote, editorTitle)
    {
      match o {
        case NothingToPolish =>
          status := NoTranscriptStatus;
        case Polished(text, english) =>
          polishedNote := render(text);
          UpdateTitle(text);
          status := if english then TranslatedStatus else PolishedStatus;
        case PolishFailed(message) =>
          error := Some(PolishErrorPrefix + message);
          polishedNote := PolishErrorHtml;
          status := ErrorStatus;
      }
      isProcessing := false;
    }

    /** `extractTitleFromPolished`: the title found in the polished text, if any. */
    method UpdateTitle(text: string)
      modifies this`editorTitle
      ensures editorTitle == TitleAfterPolish(old(editorTitle), text)
    {
      var extracted := NoteTitle.ExtractTitle(text, NoteTitle.Live);
      if extracted.Some? {
        editorTitle := extracted.value;
      }
    }

    /** `handleNewNote`: ignored while recording or processing, otherwise a clean page. */
    method HandleNewNote()
      modifies this`editorTitle, this`rawTranscription, this`polishedNote, this`status, this`error, this`activeView
      ensures old(isRecording) || old(isProcessing) ==>
        unchanged(this`editorTitle, this`rawTranscription, this`polishedNote, this`status, this`error, this`activeView)
      ensures !old(isRecording) && !old(isProcessing) ==>
        editorTitle == DefaultTitle && rawTranscription == [] && polishedNote == []
        && status == ReadyStatus && error.None? && activeView == PolishedView
    {
      if isRecording || isProcessing {
        return;
      }
      editorTitle := DefaultTitle;
      rawTranscription := [];
      polishedNote := [];
      status := ReadyStatus;
      error := None;
      activeView := PolishedView;
    }

    /** `handleTitleChange`: the edited text, or the default when it is blank. */
    method HandleTitleChange(content: string)
      modifies this`editorTitle
      ensures editorTitle == EditedTitle(content)
    {
      editorTitle := EditedTitle(content);
    }

    /**
     * `handleDownload` with the panes' visible texts: ignored while busy, refused when both are
     * blank, otherwise the document and its file name (or the packing error).
     */
    method HandleDownload(polished: string, raw: string, packed: bool) returns (d: Download)
      modifies this`error
      ensures d == DownloadIgnored <==> old(isRecording) || old(isProcessing)
      ensures !old(isRecording) && !old(isProcessing) ==>
        (d == NothingToDownload <==> Trim(polished) == [] && Trim(raw) == [])
      ensures d.Saved? ==>
        packed && d.document == LiveDocument(editorTitle, polished, raw)
        && d.fileName == SafeFileStem(editorTitle) + FileExtension
      ensures d.PackFailed? ==> !packed && error == Some(DocxErrorMessage)
      ensures !d.PackFailed? ==> error == old(error)
    {
      if isRecording || isProcessing {
        return DownloadIgnored;
      }
      if Trim(polished) == [] && Trim(raw) == [] {
        return NothingToDownload;
      }
      var doc := BuildDocument(editorTitle, polished, raw);
      if packed {
        d := Saved(doc, SafeFileStem(editorTitle) + FileExtension);
      } else {
        error := Some(DocxErrorMessage);
        d := PackFailed;
      }
    }
  }

  /** The status, error, polished pane and title once polishing ends with `o`. */
  function Applied(o: Polishing, render: string -> string, title: string, pane: string, error: Option<string>)
    : (s: (string, Option<string>, string, string))
    ensures s.1 != error ==> o.PolishFailed? && s.1 == Some(PolishErrorPrefix + o.message)
    ensures s.2 != pane ==> (o.PolishFailed? && s.2 == PolishErrorHtml) || (o.Polished? && s.2 == render(o.text))
    ensures s.3 != title ==> o.Polished?
  {
    match o
    case NothingToPolish => (NoTranscriptStatus, error, pane, title)
    case Polished(text, english) =>
      (if english then TranslatedStatus else PolishedStatus, error, render(text), TitleAfterPolish(title, text))
    case PolishFailed(message) => (ErrorStatus, Some(PolishErrorPrefix + message), PolishErrorHtml, title)
  }
}
