/**
 * The quick-note recorder: one open note with a raw and a polished pane, the
 * polishing step that also picks the note's title, and the Word download of
 * the active tab, whose lines are classified as Markdown and split into bold,
 * italic and plain runs.
 */
module QuickNotes {
  import opened Wrappers
  import opened Text
  import Seqs
  import NoteTitle

  const NoteIdPrefix: string := "note_"
  const DefaultTitlePlaceholder: string := "Ghi chú không tiêu đề"
  const DefaultFileTitle: string := "Ghi chú"
  const UntitledFileTitle: string := "Ghi-chú-không-tiêu-đề"
  const FileExtension: string := ".docx"
  const NoRawStatus: string := "Không có bản ghi âm thô để tinh chỉnh"
  const PolishingStatus: string := "Đang tinh chỉnh ghi chú..."
  const PolishedStatus: string := "Ghi chú đã được tinh chỉnh. Sẵn sàng cho bản ghi tiếp theo."
  const EmptyPolishStatus: string := "Tinh chỉnh thất bại hoặc trả về trống."
  const PolishErrorStatus: string := "Lỗi khi tinh chỉnh ghi chú. Vui lòng thử lại."
  const ReadyStatus: string := "Sẵn sàng ghi âm"
  const NoActiveTabAlert: string := "Không thể xác định tab đang hoạt động."
  const NothingToDownloadAlert: string := "Không có nội dung để tải xuống trong tab này. Vui lòng ghi âm hoặc chọn tab khác."

  datatype QuickNote = QuickNote(id: string, rawTranscription: string, polishedNote: string, timestamp: int)

  /** The `placeholder` attributes of the title, raw and polished panes (empty when missing). */
  datatype Placeholders = Placeholders(title: string, raw: string, polished: string)

  // ---------------------------------------------------------------------
  // Runs: `line.split(/(\*\*.*?\*\*|\*.*?\*)/g).filter(p => p)`

  datatype Style = Plain | Bold | Italic
  datatype Run = Run(text: string, style: Style)

  /** The lazy `.*?` followed by `**`, from `j`: the end of the closing `**`, if one comes before a line break. */
  function CloseDouble(s: string, j: nat): (e: Option<nat>)
    requires j <= |s|
    ensures e.Some? ==> j + 2 <= e.value <= |s| && s[e.value - 2] == '*' && s[e.value - 1] == '*'
    decreases |s| - j
  {
    if j + 1 < |s| && s[j] == '*' && s[j + 1] == '*' then Some(j + 2)
    else if j < |s| && !IsLineTerminator(s[j]) then CloseDouble(s, j + 1)
    else None
  }

  /** The lazy `.*?` followed by `*`, from `j`: the end of the closing `*`, if one comes before a line break. */
  function CloseSingle(s: string, j: nat): (e: Option<nat>)
    requires j <= |s|
    ensures e.Some? ==> j + 1 <= e.value <= |s| && s[e.value - 1] == '*'
    decreases |s| - j
  {
    if j < |s| && s[j] == '*' then Some(j + 1)
    else if j < |s| && !IsLineTerminator(s[j]) then CloseSingle(s, j + 1)
    else None
  }

  /** The end of the match of `\*\*.*?\*\*|\*.*?\*` at `i`: the bold form first, then the italic one. */
  function MatchEnd(s: string, i: nat): (e: Option<nat>)
    requires i <= |s|
    ensures e.Some? ==> i + 2 <= e.value <= |s| && s[i] == '*' && s[e.value - 1] == '*'
  {
    if i < |s| && s[i] == '*' then
      var bold := if i + 1 < |s| && s[i + 1] == '*' then CloseDouble(s, i + 2) else None;
      if bold.Some? then bold else CloseSingle(s, i + 1)
    else None
  }

  /**
   * `split` with a capturing separator, from the piece starting at `p`, looking for a
   * match at `q`: the text before each match, then the match itself, then the rest.
   */
  function SplitParts(s: string, p: nat, q: nat): (parts: seq<string>)
    requires p <= q <= |s|
    decreases |s| - q
  {
    if q == |s| then [s[p..]]
    else
      match MatchEnd(s, q)
      case Some(e) => [s[p..q], s[q..e]] + SplitParts(s, e, e)
      case None => SplitParts(s, p, q + 1)
  }

  function Concat(parts: seq<string>): string
  {
    if parts == [] then [] else parts[0] + Concat(parts[1..])
  }

  /** Splitting loses nothing: the pieces and matches, in order, spell the text again. */
  lemma {:induction false} SplitPartsConcat(s: string, p: nat, q: nat)
    requires p <= q <= |s|
    ensures Concat(SplitParts(s, p, q)) == s[p..]
    decreases |s| - q
  {
    if q == |s| {
      assert Concat([s[p..]]) == s[p..] + Concat([]);
    } else {
      match MatchEnd(s, q)
      case Some(e) =>
        SplitPartsConcat(s, e, e);
        var rest := SplitParts(s, e, e);
        var parts := [s[p..q], s[q..e]] + rest;
        assert parts[1..] == [s[q..e]] + rest;
        assert ([s[q..e]] + rest)[1..] == rest;
        assert s[p..] == s[p..q] + (s[q..e] + s[e..]);
      case None =>
        SplitPartsConcat(s, p, q + 1);
    }
  }

  /** Text without `*` has no match, so it splits into itself alone. */
  lemma {:induction false} SplitWithoutStar(s: string, p: nat, q: nat)
    requires p <= q <= |s| && forall k :: q <= k < |s| ==> s[k] != '*'
    ensures SplitParts(s, p, q) == [s[p..]]
    decreases |s| - q
  {
    if q < |s| {
      SplitWithoutStar(s, p, q + 1);
    }
  }

  function NonEmptyParts(parts: seq<string>): seq<string>
  {
    Seqs.Filter(parts, (part: string) => part != [])
  }

  /** `s.slice(a, -b)`. */
  function SliceBoth(s: string, a: nat, b: nat): string
    requires a <= |s|
  {
    if |s| - b >= a then s[a..|s| - b] else []
  }

  /** A piece of the line as a run: `**x**` bold, `*x*` italic, anything else plain. */
  function RunOf(part: string): (r: Run)
    ensures r.style == Bold <==> StartsWith(part, "**") && EndsWith(part, "**")
    ensures r.style == Italic <==> !(StartsWith(part, "**") && EndsWith(part, "**")) && StartsWith(part, "*") && EndsWith(part, "*")
    ensures r.style == Plain ==> r.text == part
    ensures r.style == Bold && |part| >= 4 ==> part == "**" + r.text + "**"
    ensures r.style == Italic && |part| >= 2 ==> part == "*" + r.text + "*"
    ensures (r.style == Bold && |part| < 4) || (r.style == Italic && |part| < 2) ==> r.text == []
  {
    if StartsWith(part, "**") && EndsWith(part, "**") then Run(SliceBoth(part, 2, 2), Bold)
    else if StartsWith(part, "*") && EndsWith(part, "*") then Run(SliceBoth(part, 1, 1), Italic)
    else Run(part, Plain)
  }

  /** The runs of a line, as `createRunsFromLine` builds them. */
  function Runs(line: string): seq<Run>
  {
    Seqs.Map(NonEmptyParts(SplitParts(line, 0, 0)), RunOf)
  }

  /** `createRunsFromLine`: one run per non-empty piece of the split line, in order. */
  method CreateRunsFromLine(line: string) returns (runs: seq<Run>)
    ensures runs == Runs(line)
  {
    runs := RunsOfParts(NonEmptyParts(SplitParts(line, 0, 0)));
  }

  method RunsOfParts(parts: seq<string>) returns (runs: seq<Run>)
    ensures runs == Seqs.Map(parts, RunOf)
  {
    runs := [];
    var i := 0;
    while i < |parts|
      invariant 0 <= i <= |parts|
      invariant runs == Seqs.Map(parts[..i], RunOf)
    {
      assert parts[..i + 1] == parts[..i] + [parts[i]];
      Seqs.MapAppend(parts[..i], [parts[i]], RunOf);
      runs := runs + [RunOf(parts[i])];
      i := i + 1;
    }
    assert parts[..|parts|] == parts;
  }

  /** A line without `*` is one plain run holding the whole line, or no run when it is empty. */
  lemma RunsWithoutStar(line: string)
    requires '*' !in line
    ensures line == [] ==> Runs(line) == []
    ensures line != [] ==> Runs(line) == [Run(line, Plain)]
  {
    SplitWithoutStar(line, 0, 0);
    assert line[0..] == line;
    assert SplitParts(line, 0, 0) == [line];
    if line != [] {
      assert !StartsWith(line, "*") by { assert line[0] != '*'; }
      assert Seqs.Filter([line], (part: string) => part != []) == [line];
    } else {
      assert Seqs.Filter([line], (part: string) => part != []) == [];
    }
  }

  predicate PlainText(x: string)
  {
    forall k :: 0 <= k < |x| ==> x[k] != '*' && !IsLineTerminator(x[k])
  }

  lemma {:induction false} CloseDoubleAfter(s: string, j: nat, x: string)
    requires j <= |s| && s[j..] == x + "**" && PlainText(x)
    ensures CloseDouble(s, j) == Some(|s|)
    decreases |x|
  {
    assert s[j..][..|x|] == x;
    if x != [] {
      assert s[j] == x[0];
      assert s[j + 1..] == x[1..] + "**";
      CloseDoubleAfter(s, j + 1, x[1..]);
    } else {
      assert s[j] == '*' && s[j + 1] == '*';
    }
  }

  lemma {:induction false} CloseSingleAfter(s: string, j: nat, x: string)
    requires j <= |s| && s[j..] == x + "*" && PlainText(x)
    ensures CloseSingle(s, j) == Some(|s|)
    decreases |x|
  {
    assert s[j..][..|x|] == x;
    if x != [] {
      assert s[j] == x[0];
      assert s[j + 1..] == x[1..] + "*";
      CloseSingleAfter(s, j + 1, x[1..]);
    } else {
      assert s[j] == '*';
    }
  }

  /** `**x**` with plain text `x` is one bold run of `x`. */
  lemma BoldLine(x: string)
    requires PlainText(x)
    ensures Runs("**" + x + "**") == [Run(x, Bold)]
  {
    var s := "**" + x + "**";
    assert s[2..] == x + "**";
    CloseDoubleAfter(s, 2, x);
    assert MatchEnd(s, 0) == Some(|s|);
    WholeMatchParts(s);
    assert StartsWith(s, "**") && EndsWith(s, "**");
    assert s[2..|s| - 2] == x;
  }

  /** `*x*` with non-empty plain text `x` is one italic run of `x`. */
  lemma ItalicLine(x: string)
    requires x != [] && PlainText(x)
    ensures Runs("*" + x + "*") == [Run(x, Italic)]
  {
    var s := "*" + x + "*";
    assert s[1..] == x + "*";
    assert s[1] == x[0] && s[1] != '*';
    CloseSingleAfter(s, 1, x);
    assert MatchEnd(s, 0) == Some(|s|);
    WholeMatchParts(s);
    assert !StartsWith(s, "**");
    assert s[1..|s| - 1] == x;
  }

  /** A line that is one match splits into empty text, the match, empty text; only the match survives. */
  lemma WholeMatchParts(s: string)
    requires s != [] && MatchEnd(s, 0) == Some(|s|)
    ensures NonEmptyParts(SplitParts(s, 0, 0)) == [s]
  {
    assert s[|s|..] == [];
    assert SplitParts(s, |s|, |s|) == [[]];
    assert s[0..0] == [] && s[0..|s|] == s;
    assert SplitParts(s, 0, 0) == [[], s] + [[]];
    var keep := (part: string) => part != [];
    Seqs.FilterAppend([[]], [s] + [[]], keep);
    Seqs.FilterAppend([s], [[]], keep);
    assert Seqs.Filter([[]], keep) == [];
    assert Seqs.Filter([s], keep) == [s];
    assert [[], s] + [[]] == [[]] + ([s] + [[]]);
  }

  // ---------------------------------------------------------------------
  // The downloaded document

  datatype Paragraph =
    | EmptyParagraph
    | Heading(level: nat, runs: seq<Run>)
    | BulletItem(runs: seq<Run>)
    | Body(runs: seq<Run>)
    | RawLine(text: string)

  /** The length of the `^\d+\.\s` prefix of `t`, if it has one. */
  function NumberedPrefix(t: string): (n: Option<nat>)
    ensures n.Some? ==> 3 <= n.value <= |t| && t[n.value - 2] == '.' && IsWhitespace(t[n.value - 1])
    ensures n.Some? ==> forall k :: 0 <= k < n.value - 2 ==> IsDigit(t[k])
    ensures n.None? ==>
      forall m :: 1 <= m < |t| - 1 && t[m] == '.' && (forall k :: 0 <= k < m ==> IsDigit(t[k])) ==> !IsWhitespace(t[m + 1])
  {
    var d := RunEnd(t, 0, IsDigit);
    if d > 0 && d + 1 < |t| && t[d] == '.' && IsWhitespace(t[d + 1]) then Some(d + 2) else None
  }

  /** One line of Markdown: classified on its trimmed text, with the marker removed. */
  function MarkdownParagraph(line: string): Paragraph
  {
    var t := Trim(line);
    if t == [] then EmptyParagraph
    else if StartsWith(t, "# ") then Heading(1, Runs(t[2..]))
    else if StartsWith(t, "## ") then Heading(2, Runs(t[3..]))
    else if StartsWith(t, "### ") then Heading(3, Runs(t[4..]))
    else if StartsWith(t, "* ") || StartsWith(t, "- ") then BulletItem(Runs(t[2..]))
    else if NumberedPrefix(t).Some? then BulletItem(Runs(t[NumberedPrefix(t).value..]))
    else Body(Runs(t))
  }

  function ParagraphFor(isMarkdown: bool, line: string): Paragraph
  {
    if isMarkdown then MarkdownParagraph(line) else RawLine(line)
  }

  /** The loop of `downloadAsDocx` over the lines of the exported text. */
  method DocumentParagraphs(content: string, isMarkdown: bool) returns (ps: seq<Paragraph>)
    ensures |ps| == |Split(content, '\n')|
    ensures forall i :: 0 <= i < |ps| ==> ps[i] == ParagraphFor(isMarkdown, Split(content, '\n')[i])
  {
    var lines := Split(content, '\n');
    ps := [];
    var i := 0;
    while i < |lines|
      invariant 0 <= i <= |lines|
      invariant |ps| == i
      invariant forall k :: 0 <= k < i ==> ps[k] == ParagraphFor(isMarkdown, lines[k])
    {
      ps := ps + [ParagraphFor(isMarkdown, lines[i])];
      i := i + 1;
    }
  }

  /** A trimmed line with no marker and no `*` is one plain paragraph holding the whole trimmed line. */
  lemma PlainMarkdownLine(line: string)
    requires Trim(line) != [] && '*' !in Trim(line)
    requires Trim(line)[0] != '#' && Trim(line)[0] != '-' && !IsDigit(Trim(line)[0])
    ensures MarkdownParagraph(line) == Body([Run(Trim(line), Plain)])
  {
    var t := Trim(line);
    assert !StartsWith(t, "# ") && !StartsWith(t, "## ") && !StartsWith(t, "### ");
    assert !StartsWith(t, "* ") && !StartsWith(t, "- ");
    assert RunEnd(t, 0, IsDigit) == 0;
    RunsWithoutStar(t);
  }

  /** The tab being downloaded decides the text and whether it is Markdown. */
  datatype Download =
    | NoActiveTab
    | NothingToDownload
    | Ready(paragraphs: seq<Paragraph>, fileName: string)

  /** The text of the active tab: the polished note as Markdown, the raw transcription as plain text. */
  function TabContent(note: Option<QuickNote>, tab: string): (string, bool)
  {
    if tab == "note" then (if note.Some? then note.value.polishedNote else [], true)
    else if tab == "raw" then (if note.Some? then note.value.rawTranscription else [], false)
    else ([], false)
  }

  /** The title used for the file: the trimmed editor title, unless it is empty or the placeholder. */
  function FileTitle(editorTitle: string, titlePlaceholder: string): string
  {
    var title := if Trim(editorTitle) == [] then DefaultFileTitle else Trim(editorTitle);
    if (titlePlaceholder != [] && title == titlePlaceholder) || title == [] then UntitledFileTitle else title
  }

  /** The file title is never empty; a real title is kept, the placeholder becomes the untitled name. */
  lemma FileTitleCases(editorTitle: string, titlePlaceholder: string)
    ensures FileTitle(editorTitle, titlePlaceholder) != []
    ensures Trim(editorTitle) != [] && Trim(editorTitle) != titlePlaceholder ==>
      FileTitle(editorTitle, titlePlaceholder) == Trim(editorTitle)
    ensures titlePlaceholder != [] && Trim(editorTitle) == titlePlaceholder ==>
      FileTitle(editorTitle, titlePlaceholder) == UntitledFileTitle
    ensures Trim(editorTitle) == [] && titlePlaceholder != DefaultFileTitle ==>
      FileTitle(editorTitle, titlePlaceholder) == DefaultFileTitle
  {
  }

  /** `replace(/[^a-z0-9]/gi, '_').toLowerCase()`. */
  function FileStem(title: string): (stem: string)
    ensures |stem| == |title|
    ensures forall i :: 0 <= i < |stem| ==> ('a' <= stem[i] <= 'z') || IsDigit(stem[i]) || stem[i] == '_'
    ensures forall i :: 0 <= i < |stem| ==> (IsAsciiAlnum(title[i]) <==> stem[i] != '_')
    ensures forall i :: 0 <= i < |stem| && IsAsciiAlnum(title[i]) ==> stem[i] == AsciiLower(title[i])
  {
    if title == [] then []
    else [if IsAsciiAlnum(title[0]) then AsciiLower(title[0]) else '_'] + FileStem(title[1..])
  }

  /** A stem is already a file stem: applying the replacement again changes nothing. */
  lemma FileStemIdempotent(title: string)
    ensures FileStem(FileStem(title)) == FileStem(title)
  {
    var stem := FileStem(title);
    forall i | 0 <= i < |stem|
      ensures FileStem(stem)[i] == stem[i]
    {
      if stem[i] != '_' {
        assert IsAsciiAlnum(stem[i]) && AsciiLower(stem[i]) == stem[i];
      }
    }
  }

  function DownloadFileName(editorTitle: string, titlePlaceholder: string): string
  {
    FileStem(FileTitle(editorTitle, titlePlaceholder)) + FileExtension
  }

  // ---------------------------------------------------------------------
  // The page

  function NewNote(now: int): (n: QuickNote)
    ensures n.id == NoteIdPrefix + IntToString(now) && n.timestamp == now
    ensures n.rawTranscription == [] && n.polishedNote == []
  {
    QuickNote(NoteIdPrefix + IntToString(now), [], [], now)
  }

  function TitlePlaceholder(ph: Placeholders): string
  {
    if ph.title == [] then DefaultTitlePlaceholder else ph.title
  }

  /** The title after polishing `text`, starting from `current`. */
  function PolishedTitle(current: string, ph: Placeholders, text: string): string
  {
    NoteTitle.ShownTitle(current, TitlePlaceholder(ph), NoteTitle.TitleOf(NoteTitle.Lines(text), NoteTitle.Recorder))
  }

  class QuickNotesApp {
    const ph: Placeholders
    var currentNote: Option<QuickNote>
    var editorTitle: string
    var rawText: string
    var rawPlaceholderActive: bool
    /** The visible text of the polished pane (rendered markdown or its placeholder). */
    var polishedShown: string
    var polishedPlaceholderActive: bool
    var status: string
    var isRecording: bool

    constructor (ph: Placeholders, now: int)
      ensures this.ph == ph && currentNote == Some(NewNote(now))
      ensures rawText == ph.raw && rawPlaceholderActive
      ensures polishedShown == ph.polished && polishedPlaceholderActive
      ensures editorTitle == TitlePlaceholder(ph)
      ensures status == ReadyStatus && !isRecording
    {
      this.ph := ph;
      currentNote := None;
      editorTitle := [];
      rawText := [];
      rawPlaceholderActive := false;
      polishedShown := [];
      polishedPlaceholderActive := false;
      status := [];
      isRecording := false;
      new;
      CreateNewNote(now);
    }

    /** Opens an empty note; every pane shows its placeholder and recording stops. */
    method CreateNewNote(now: int)
      modifies this
      ensures currentNote == Some(NewNote(now))
      ensures rawText == ph.raw && rawPlaceholderActive
      ensures polishedShown == ph.polished && polishedPlaceholderActive
      ensures editorTitle == TitlePlaceholder(ph)
      ensures status == ReadyStatus && !isRecording
    {
      currentNote := Some(NewNote(now));
      rawText := ph.raw;
      rawPlaceholderActive := true;
      polishedShown := ph.polished;
      polishedPlaceholderActive := true;
      editorTitle := TitlePlaceholder(ph);
      status := ReadyStatus;
      isRecording := false;
    }

    /**
     * `getPolishedNote`: without raw text nothing is requested; otherwise the reply (or the
     * failure) is shown, and a non-empty reply also sets the note's polished text and the title.
     */
    method GetPolishedNote(reply: Result<string, string>, rendered: string) returns (requested: bool)
      modifies this`currentNote, this`editorTitle, this`polishedShown, this`polishedPlaceholderActive, this`status
      ensures requested <==> Trim(old(rawText)) != [] && !old(rawPlaceholderActive)
      ensures !requested ==>
        && status == NoRawStatus && polishedShown == ph.polished && polishedPlaceholderActive
        && currentNote == old(currentNote) && editorTitle == old(editorTitle)
      ensures requested && reply.Success? && reply.value != [] ==>
        && status == PolishedStatus
        && currentNote == (if old(currentNote).Some? then Some(old(currentNote).value.(polishedNote := reply.value)) else None)
        && (Trim(reply.value) != [] ==> polishedShown == rendered && !polishedPlaceholderActive)
        && (Trim(reply.value) == [] ==> polishedShown == ph.polished && polishedPlaceholderActive)
        && editorTitle == PolishedTitle(old(editorTitle), ph, reply.value)
      ensures requested && !(reply.Success? && reply.value != []) ==>
        && status == (if reply.Success? then EmptyPolishStatus else PolishErrorStatus)
        && polishedShown == ph.polished && polishedPlaceholderActive
        && currentNote == old(currentNote) && editorTitle == old(editorTitle)
    {
      if rawText == [] || Trim(rawText) == [] || rawPlaceholderActive {
        ShowPolishFailure(NoRawStatus);
        return false;
      }
      requested := true;
      status := PolishingStatus;
      match reply {
        case Success(text) =>
          if text != [] {
            ShowPolishedText(text, rendered);
          } else {
            ShowPolishFailure(EmptyPolishStatus);
          }
        case Failure(_) =>
          ShowPolishFailure(PolishErrorStatus);
      }
    }

    /** Every unsuccessful outcome ends on the polished pane's placeholder, with its own status. */
    method ShowPolishFailure(message: string)
      modifies this`status, this`polishedShown, this`polishedPlaceholderActive
      ensures status == message && polishedShown == ph.polished && polishedPlaceholderActive
    {
      status := message;
      polishedShown := ph.polished;
      polishedPlaceholderActive := true;
    }

    /** A non-empty reply: stored on the note, rendered, and mined for a title. */
    method ShowPolishedText(text: string, rendered: string)
      modifies this`currentNote, this`editorTitle, this`polishedShown, this`polishedPlaceholderActive, this`status
      ensures status == PolishedStatus
      ensures currentNote == (if old(currentNote).Some? then Some(old(currentNote).value.(polishedNote := text)) else None)
      ensures Trim(text) != [] ==> polishedShown == rendered && !polishedPlaceholderActive
      ensures Trim(text) == [] ==> polishedShown == ph.polished && polishedPlaceholderActive
      ensures editorTitle == PolishedTitle(old(editorTitle), ph, text)
    {
      StorePolished(text);
      ShowPolishedPane(text, rendered);
      RetitleFrom(text);
      status := PolishedStatus;
    }

    method StorePolished(text: string)
      modifies this`currentNote
      ensures currentNote == (if old(currentNote).Some? then Some(old(currentNote).value.(polishedNote := text)) else None)
    {
      if currentNote.Some? {
        currentNote := Some(currentNote.value.(polishedNote := text));
      }
    }

    method ShowPolishedPane(text: string, rendered: string)
      modifies this`polishedShown, this`polishedPlaceholderActive
      ensures Trim(text) != [] ==> polishedShown == rendered && !polishedPlaceholderActive
      ensures Trim(text) == [] ==> polishedShown == ph.polished && polishedPlaceholderActive
    {
      if Trim(text) != [] {
        polishedShown := rendered;
        polishedPlaceholderActive := false;
      } else {
        polishedShown := ph.polished;
        polishedPlaceholderActive := true;
      }
    }

    /** The title from the polished text: a heading, else a body line, else the kept or placeholder title. */
    method RetitleFrom(text: string)
      modifies this`editorTitle
      ensures editorTitle == PolishedTitle(old(editorTitle), ph, text)
    {
      var extracted := NoteTitle.ExtractTitle(text, NoteTitle.Recorder);
      editorTitle := NoteTitle.ShownTitle(editorTitle, TitlePlaceholder(ph), extracted);
    }

    /** `downloadAsDocx` up to the file: which text, its paragraphs and the file name, or why not. */
    method PrepareDownload(activeTab: Option<string>) returns (d: Download)
      ensures activeTab.None? ==> d == NoActiveTab
      ensures activeTab.Some? ==>
        var (content, isMarkdown) := TabContent(currentNote, activeTab.value);
        && (d == NothingToDownload <==> currentNote.None? || IsBlank(content))
        && (d.Ready? ==>
              && |d.paragraphs| == |Split(content, '\n')| >= 1
              && (forall i :: 0 <= i < |d.paragraphs| ==> d.paragraphs[i] == ParagraphFor(isMarkdown, Split(content, '\n')[i]))
              && d.fileName == DownloadFileName(editorTitle, ph.title))
      ensures !d.NothingToDownload? && !d.NoActiveTab? ==> d.Ready?
    {
      if activeTab.None? {
        return NoActiveTab;
      }
      var (content, isMarkdown) := TabContent(currentNote, activeTab.value);
      TrimEmptyIffBlank(content);
      if currentNote.None? || content == [] || Trim(content) == [] {
        return NothingToDownload;
      }
      var paragraphs := DocumentParagraphs(content, isMarkdown);
      d := Ready(paragraphs, DownloadFileName(editorTitle, ph.title));
    }
  }
}
