/**
 * What the voice-note recorder shows and writes besides the history itself: the recording
 * timer, the paragraphs of the downloaded document and the names of the audio files that go
 * with it.
 */
module VoiceNotesExport {
  import opened Wrappers
  import opened Text
  import Seqs
  import opened VoiceNotes

  // ---------------------------------------------------------------------
  // The recording timer

  /** `mm:ss.hh` for the time since recording started, each field padded to two digits. */
  function TimerText(elapsedMs: nat): string
  {
    var totalSeconds := elapsedMs / 1000;
    PadStart2(NatToString(totalSeconds / 60)) + ":" + PadStart2(NatToString(totalSeconds % 60)) + "."
      + PadStart2(NatToString(elapsedMs % 1000 / 10))
  }

  /** A number below 100, padded to two digits, is two digits that read back as the number. */
  lemma TwoDigits(n: nat)
    requires n < 100
    ensures |PadStart2(NatToString(n))| == 2
    ensures forall i :: 0 <= i < 2 ==> IsDigit(PadStart2(NatToString(n))[i])
    ensures DigitsValue(PadStart2(NatToString(n))) == n
  {
    NatToStringShort(n);
    NatToStringRoundTrip(n);
    var d := NatToString(n);
    if n < 10 {
      var p := PadStart2(d);
      assert p == ['0'] + d;
      assert p[..1] == "0";
      assert DigitsValue(p[..1]) == 0 by { assert p[..1][..0] == []; }
      assert d[..0] == [];
    }
  }

  /**
   * Under 100 minutes the timer has the fixed shape `mm:ss.hh`: the fields read back as the
   * minutes, the seconds (below 60) and the hundredths of a second.
   */
  lemma TimerFields(elapsedMs: nat)
    requires elapsedMs < 100 * 60 * 1000
    ensures var r := TimerText(elapsedMs);
      && |r| == 8 && r[2] == ':' && r[5] == '.'
      && (forall i :: 0 <= i < 8 && i != 2 && i != 5 ==> IsDigit(r[i]))
      && DigitsValue(r[0..2]) == elapsedMs / 60000
      && DigitsValue(r[3..5]) == elapsedMs / 1000 % 60 < 60
      && DigitsValue(r[6..8]) == elapsedMs % 1000 / 10 < 100
  {
    var m, sec, h := elapsedMs / 1000 / 60, elapsedMs / 1000 % 60, elapsedMs % 1000 / 10;
    assert m == elapsedMs / 60000;
    TwoDigits(m);
    TwoDigits(sec);
    TwoDigits(h);
    var pm, ps, phs := PadStart2(NatToString(m)), PadStart2(NatToString(sec)), PadStart2(NatToString(h));
    var r := TimerText(elapsedMs);
    assert r == pm + ":" + ps + "." + phs;
    assert r[0..2] == pm && r[3..5] == ps && r[6..8] == phs;
  }

  // ---------------------------------------------------------------------
  // The downloaded document

  const DefaultAudioTitle: string := "ghi_chep_khong_tieu_de"
  const MaxAudioTitleLength: nat := 50
  const DocumentTitle: string := "Lịch sử Ghi chép Âm thanh"
  const PolishedHeading: string := "Ghi chép đã trau chuốt"
  const RawHeading: string := "Ghi chép nguyên văn"
  const EmptyHistoryAlert: string := "Không có nội dung để tải xuống. Vui lòng ghi âm hoặc viết ghi chép trước."

  /** The paragraphs of the document, without their styling. */
  datatype Paragraph =
    | DocTitle(text: string)
    | NoteHeading(text: string)
    | SavedAt(timestamp: int)
    | SectionHeading(text: string)
    | Plain(text: string)
    | Bullet(text: string)
    | Divider

  predicate IsBulletLine(line: string)
  {
    StartsWith(Trim(line), "- ") || StartsWith(Trim(line), "* ")
  }

  // A line whose `trim()` is `''` is exactly a blank line (Text.TrimEmptyIffBlank), which is how
  // the document model below tests for it.

  /** A paragraph of a note body: a bullet with text after its marker, or a plain paragraph that is not blank. */
  predicate IsBodyParagraph(p: Paragraph)
  {
    (p.Bullet? && p.text != []) || (p.Plain? && !IsBlank(p.text))
  }

  /** One line of polished markdown: skipped when blank, a bullet after `- ` or `* `, otherwise kept as it is. */
  function PolishedLine(line: string): (ps: seq<Paragraph>)
    ensures IsBlank(line) ==> ps == []
    ensures !IsBlank(line) && IsBulletLine(line) ==> ps == [Bullet(Trim(line)[2..])]
    ensures !IsBlank(line) && !IsBulletLine(line) ==> ps == [Plain(line)]
    ensures forall i :: 0 <= i < |ps| ==> IsBodyParagraph(ps[i])
  {
    if IsBlank(line) then []
    else if IsBulletLine(line) then
      TrimShape(line);
      var t := Trim(line);
      assert t[1] == ' ' && !IsWhitespace(t[|t| - 1]);
      [Bullet(t[2..])]
    else [Plain(line)]
  }

  /** `line.trim() !== ''`. */
  predicate NonBlankLine(line: string)
  {
    !IsBlank(line)
  }

  /** The paragraph a kept polished line gives: the text after its marker as a bullet, or the line as a plain paragraph. */
  function PolishedParagraph(line: string): Paragraph
  {
    if IsBulletLine(line) then Bullet(Trim(line)[2..]) else Plain(line)
  }

  function PlainParagraph(line: string): Paragraph
  {
    Plain(line)
  }

  function NonBlankCount(lines: seq<string>): nat
  {
    if lines == [] then 0 else (if IsBlank(lines[0]) then 0 else 1) + NonBlankCount(lines[1..])
  }

  /** The polished part has one paragraph per non-blank line, each a bullet or a plain paragraph. */
  function PolishedParagraphs(lines: seq<string>): (ps: seq<Paragraph>)
    ensures |ps| == NonBlankCount(lines)
    ensures forall i :: 0 <= i < |ps| ==> IsBodyParagraph(ps[i])
  {
    if lines == [] then [] else PolishedLine(lines[0]) + PolishedParagraphs(lines[1..])
  }

  /** The raw transcription: its non-blank lines, each a plain paragraph. */
  function RawParagraphs(lines: seq<string>): (ps: seq<Paragraph>)
    ensures |ps| == NonBlankCount(lines)
    ensures forall i :: 0 <= i < |ps| ==> ps[i].Plain? && IsBodyParagraph(ps[i])
  {
    if lines == [] then []
    else (if IsBlank(lines[0]) then [] else [Plain(lines[0])]) + RawParagraphs(lines[1..])
  }

  /** The polished part is the non-blank lines, in order, each turned into its bullet or plain paragraph. */
  lemma {:induction false} PolishedParagraphsByLine(lines: seq<string>)
    ensures PolishedParagraphs(lines) == Seqs.Map(Seqs.Filter(lines, NonBlankLine), PolishedParagraph)
  {
    if lines != [] {
      PolishedParagraphsByLine(lines[1..]);
      var head := if NonBlankLine(lines[0]) then [lines[0]] else [];
      assert Seqs.Filter(lines, NonBlankLine) == head + Seqs.Filter(lines[1..], NonBlankLine);
      Seqs.MapAppend(head, Seqs.Filter(lines[1..], NonBlankLine), PolishedParagraph);
      assert PolishedLine(lines[0]) == Seqs.Map(head, PolishedParagraph);
    }
  }

  /** The raw part is the non-blank lines, in order and unchanged, each a plain paragraph. */
  lemma {:induction false} RawParagraphsByLine(lines: seq<string>)
    ensures RawParagraphs(lines) == Seqs.Map(Seqs.Filter(lines, NonBlankLine), PlainParagraph)
  {
    if lines != [] {
      RawParagraphsByLine(lines[1..]);
      var head := if NonBlankLine(lines[0]) then [lines[0]] else [];
      assert Seqs.Filter(lines, NonBlankLine) == head + Seqs.Filter(lines[1..], NonBlankLine);
      Seqs.MapAppend(head, Seqs.Filter(lines[1..], NonBlankLine), PlainParagraph);
      assert (if IsBlank(lines[0]) then [] else [Plain(lines[0])]) == Seqs.Map(head, PlainParagraph);
    }
  }

  function DisplayTitle(n: Note): string
  {
    if n.title == [] then UntitledNoteTitle else n.title
  }

  /** A section heading followed by body paragraphs. */
  function Headed(heading: string, body: seq<Paragraph>): (ps: seq<Paragraph>)
    requires forall i :: 0 <= i < |body| ==> IsBodyParagraph(body[i])
    ensures |ps| == |body| + 1 && ps[0] == SectionHeading(heading) && ps[1..] == body
    ensures forall i :: 0 <= i < |ps| ==> !ps[i].NoteHeading?
  {
    var ps := [SectionHeading(heading)] + body;
    assert ps[1..] == body;
    forall i | 1 <= i < |ps| ensures !ps[i].NoteHeading? {
      assert ps[i] == body[i - 1] && IsBodyParagraph(body[i - 1]);
    }
    ps
  }

  /** The polished part of a note's section: a heading and its lines, or nothing when it is blank. */
  function PolishedPart(n: Note): (ps: seq<Paragraph>)
    ensures forall i :: 0 <= i < |ps| ==> !ps[i].NoteHeading?
  {
    if IsBlank(n.polishedNote) then [] else Headed(PolishedHeading, PolishedParagraphs(Split(n.polishedNote, '\n')))
  }

  /** The raw part of a note's section: a heading and its non-blank lines, or nothing when it is blank. */
  function RawPart(n: Note): (ps: seq<Paragraph>)
    ensures forall i :: 0 <= i < |ps| ==> !ps[i].NoteHeading?
  {
    if IsBlank(n.rawTranscription) then [] else Headed(RawHeading, RawParagraphs(Split(n.rawTranscription, '\n')))
  }

  /** The section of one note: heading, save date, the polished and raw parts when not blank, a divider. */
  function NoteSection(n: Note): seq<Paragraph>
  {
    [NoteHeading(DisplayTitle(n)), SavedAt(n.timestamp)] + PolishedPart(n) + RawPart(n) + [Divider]
  }

  function Sections(notes: seq<Note>): seq<Paragraph>
  {
    if notes == [] then [] else NoteSection(notes[0]) + Sections(notes[1..])
  }

  /** The document: its title, then each note in order, without the divider after the last one. */
  function Document(notes: seq<Note>): seq<Paragraph>
  {
    var children := [DocTitle(DocumentTitle)] + Sections(notes);
    if |children| > 1 then children[..|children| - 1] else children
  }

  /** The texts of the note headings, in order. */
  function Headings(ps: seq<Paragraph>): seq<string>
  {
    if ps == [] then [] else (if ps[0].NoteHeading? then [ps[0].text] else []) + Headings(ps[1..])
  }

  lemma {:induction false} HeadingsAppend(a: seq<Paragraph>, b: seq<Paragraph>)
    ensures Headings(a + b) == Headings(a) + Headings(b)
  {
    if a == [] {
      assert a + b == b;
    } else {
      assert (a + b)[0] == a[0];
      assert (a + b)[1..] == a[1..] + b;
      HeadingsAppend(a[1..], b);
    }
  }

  lemma {:induction false} HeadingsOfBody(ps: seq<Paragraph>)
    requires forall i :: 0 <= i < |ps| ==> !ps[i].NoteHeading?
    ensures Headings(ps) == []
  {
    if ps != [] {
      HeadingsOfBody(ps[1..]);
    }
  }

  lemma NoteSectionHeadings(n: Note)
    ensures Headings(NoteSection(n)) == [DisplayTitle(n)]
    ensures NoteSection(n)[|NoteSection(n)| - 1] == Divider
  {
    var head := [NoteHeading(DisplayTitle(n)), SavedAt(n.timestamp)];
    HeadingsOfBody(PolishedPart(n));
    HeadingsOfBody(RawPart(n));
    HeadingsOfBody([Divider]);
    HeadingsAppend(head, PolishedPart(n));
    HeadingsAppend(head + PolishedPart(n), RawPart(n));
    HeadingsAppend(head + PolishedPart(n) + RawPart(n), [Divider]);
    assert Headings(head) == [DisplayTitle(n)] by {
      assert head[1..] == [SavedAt(n.timestamp)];
      assert head[1..][1..] == [];
    }
  }

  lemma {:induction false} SectionsHeadings(notes: seq<Note>)
    ensures Headings(Sections(notes)) == Seqs.Map(notes, DisplayTitle)
    ensures notes != [] ==> Sections(notes) != [] && Sections(notes)[|Sections(notes)| - 1] == Divider
  {
    if notes != [] {
      SectionsHeadings(notes[1..]);
      NoteSectionHeadings(notes[0]);
      HeadingsAppend(NoteSection(notes[0]), Sections(notes[1..]));
      assert Seqs.Map(notes, DisplayTitle) == [DisplayTitle(notes[0])] + Seqs.Map(notes[1..], DisplayTitle);
    }
  }

  lemma HeadingsDropLast(ps: seq<Paragraph>)
    requires ps != [] && !ps[|ps| - 1].NoteHeading?
    ensures Headings(ps[..|ps| - 1]) == Headings(ps)
  {
    var last := |ps| - 1;
    assert ps == ps[..last] + [ps[last]];
    HeadingsAppend(ps[..last], [ps[last]]);
    HeadingsOfBody([ps[last]]);
  }

  /** The document holds one heading per note, titled as the note is, in the order the notes are given. */
  lemma DocumentHeadings(notes: seq<Note>)
    ensures Headings(Document(notes)) == Seqs.Map(notes, DisplayTitle)
    ensures Document(notes)[0] == DocTitle(DocumentTitle)
  {
    var children := [DocTitle(DocumentTitle)] + Sections(notes);
    assert Document(notes) == if |children| > 1 then children[..|children| - 1] else children;
    assert Document(notes)[0] == DocTitle(DocumentTitle) by {
      assert children[0] == DocTitle(DocumentTitle);
    }
    assert Headings(Document(notes)) == Seqs.Map(notes, DisplayTitle) by {
      SectionsHeadings(notes);
      HeadingsAppend([DocTitle(DocumentTitle)], Sections(notes));
      HeadingsOfBody([DocTitle(DocumentTitle)]);
      if notes != [] {
        assert children[|children| - 1] == Sections(notes)[|Sections(notes)| - 1];
        HeadingsDropLast(children);
      }
    }
  }

  // ---------------------------------------------------------------------
  // Audio files in the download

  /** The MIME subtype before any parameters, or `bin` when there is no subtype. */
  function AudioExtension(mimeType: string): (e: string)
    ensures '/' !in e && ';' !in e
    ensures '/' !in mimeType ==> e == "bin"
  {
    var parts := Split(mimeType, '/');
    assert '/' !in mimeType ==> |parts| == 1 by {
      if '/' !in mimeType { SplitWithoutSeparator(mimeType, '/'); }
    }
    var subtype := if |parts| > 1 && parts[1] != [] then parts[1] else "bin";
    SplitFirstIsPrefix(subtype, ';');
    assert '/' !in subtype;
    Split(subtype, ';')[0]
  }

  /** The ISO date with `:` and `.` turned into `-`. */
  function DatePrefix(iso: string): (r: string)
    ensures |r| == |iso| && ':' !in r && '.' !in r
    ensures forall i :: 0 <= i < |iso| ==> r[i] == (if iso[i] == ':' || iso[i] == '.' then '-' else iso[i])
  {
    if iso == [] then [] else [if iso[0] == ':' || iso[0] == '.' then '-' else iso[0]] + DatePrefix(iso[1..])
  }

  /**
   * A MIME type `<type>/<subtype>` followed by nothing, a parameter list after `;` or a further
   * `/` piece names its file by the subtype.
   */
  lemma AudioExtensionOfSubtype(t: string, sub: string, rest: string)
    requires '/' !in t && sub != [] && '/' !in sub && ';' !in sub
    requires rest == [] || rest[0] == '/' || rest[0] == ';'
    ensures AudioExtension(t + "/" + sub + rest) == sub
  {
    var mime := t + "/" + sub + rest;
    assert mime == t + ['/'] + (sub + rest);
    SplitAfterFirst(t, sub + rest, '/');
    var piece := Split(sub + rest, '/')[0];
    SplitFirstConcat(sub, rest, '/');
    if rest == [] || rest[0] == '/' {
      assert Split(rest, '/')[0] == [];
      assert piece == sub;
      SplitWithoutSeparator(sub, ';');
    } else {
      var q := Split(rest, '/')[0];
      assert q == [rest[0]] + Split(rest[1..], '/')[0];
      SplitFirstConcat(sub, q, ';');
      assert Split(q, ';')[0] == [];
      assert Split(piece, ';')[0] == sub;
    }
  }

  predicate AllowedInAudioTitle(isLetterOrNumber: char -> bool, c: char)
  {
    isLetterOrNumber(c) || c == ' ' || c == '.' || c == '_' || c == '-'
  }

  /** The title the file is named after: the note's title, or a default when it is empty. */
  function AudioTitleSource(title: string): string
  {
    if title == [] then DefaultAudioTitle else title
  }

  /** The characters of the title that may appear in a file name, in order. */
  function KeptTitleChars(t: string, isLetterOrNumber: char -> bool): (k: string)
    ensures forall i :: 0 <= i < |k| ==> AllowedInAudioTitle(isLetterOrNumber, k[i]) && k[i] in t
  {
    var k := Seqs.Filter(t, c => AllowedInAudioTitle(isLetterOrNumber, c));
    assert forall i :: 0 <= i < |k| ==> k[i] in k;
    k
  }

  /**
   * The kept characters are taken in order: keeping distributes over concatenation, and a
   * single character is kept exactly when it is allowed.
   */
  lemma KeptTitleCharsInOrder(a: string, b: string, c: char, isLetterOrNumber: char -> bool)
    ensures KeptTitleChars(a + b, isLetterOrNumber) == KeptTitleChars(a, isLetterOrNumber) + KeptTitleChars(b, isLetterOrNumber)
    ensures KeptTitleChars([c], isLetterOrNumber) == if AllowedInAudioTitle(isLetterOrNumber, c) then [c] else []
  {
    Seqs.FilterAppend(a, b, c => AllowedInAudioTitle(isLetterOrNumber, c));
    assert [c][1..] == [];
  }

  /**
   * The title part of an audio file name: the title (or a default), keeping letters, numbers,
   * space, `.`, `_` and `-`, whitespace runs as `_`, cut to 50 characters.
   */
  function SanitizedAudioTitle(title: string, isLetterOrNumber: char -> bool): (r: string)
    ensures |r| <= MaxAudioTitleLength
    ensures forall i :: 0 <= i < |r| ==> !IsWhitespace(r[i])
    ensures forall i :: 0 <= i < |r| ==>
      r[i] == '_' || (AllowedInAudioTitle(isLetterOrNumber, r[i]) && r[i] in AudioTitleSource(title))
  {
    var kept := KeptTitleChars(AudioTitleSource(title), isLetterOrNumber);
    var joined := ReplaceRuns(kept, IsWhitespace, '_');
    assert forall i :: 0 <= i < |joined| ==> joined[i] == '_' || joined[i] in kept;
    var r := Take(joined, MaxAudioTitleLength);
    assert forall i :: 0 <= i < |r| ==> r[i] == joined[i];
    r
  }

  /** `<date>_<title>.<extension>` for a note that carries a recording. */
  function AudioFileName(n: Note, iso: string, isLetterOrNumber: char -> bool): string
    requires n.audioMimeType.Some?
  {
    DatePrefix(iso) + "_" + SanitizedAudioTitle(n.title, isLetterOrNumber) + "." + AudioExtension(n.audioMimeType.value)
  }

  /** `note.audioData && note.audioMimeType`: both present and non-empty. */
  predicate HasRecording(n: Note)
  {
    n.audioData.Some? && n.audioData.value != [] && n.audioMimeType.Some? && n.audioMimeType.value != []
  }

  /** The audio files of the download, one per note that has both recording data and a MIME type, in order. */
  function AudioFileNames(notes: seq<Note>, isoOf: int -> string, isLetterOrNumber: char -> bool): (r: seq<string>)
    ensures |r| == Seqs.Count(notes, HasRecording) <= |notes|
  {
    if notes == [] then []
    else
      var n := notes[0];
      (if HasRecording(n)
       then [AudioFileName(n, isoOf(n.timestamp), isLetterOrNumber)] else [])
      + AudioFileNames(notes[1..], isoOf, isLetterOrNumber)
  }

  /**
   * The audio names follow the notes in order: the names of two runs of notes concatenate, and
   * one note gives its `AudioFileName` exactly when it has a recording.
   */
  lemma AudioFileNamesInOrder(a: seq<Note>, b: seq<Note>, n: Note, isoOf: int -> string, isLetterOrNumber: char -> bool)
    ensures AudioFileNames(a + b, isoOf, isLetterOrNumber)
      == AudioFileNames(a, isoOf, isLetterOrNumber) + AudioFileNames(b, isoOf, isLetterOrNumber)
    ensures AudioFileNames([n], isoOf, isLetterOrNumber)
      == (if HasRecording(n) then [AudioFileName(n, isoOf(n.timestamp), isLetterOrNumber)] else [])
  {
    AudioFileNamesAppend(a, b, isoOf, isLetterOrNumber);
    assert [n][1..] == [];
  }

  lemma {:induction false} AudioFileNamesAppend(a: seq<Note>, b: seq<Note>, isoOf: int -> string, isLetterOrNumber: char -> bool)
    ensures AudioFileNames(a + b, isoOf, isLetterOrNumber)
      == AudioFileNames(a, isoOf, isLetterOrNumber) + AudioFileNames(b, isoOf, isLetterOrNumber)
  {
    if a == [] {
      assert a + b == b;
    } else {
      assert (a + b)[1..] == a[1..] + b;
      AudioFileNamesAppend(a[1..], b, isoOf, isLetterOrNumber);
    }
  }
}
