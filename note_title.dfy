/**
 * Title extraction from a polished Markdown note, as done by the two voice
 * recorder apps and by the live-transcription feature: the first heading wins;
 * otherwise the first line that still has text after its list, quote and
 * emphasis markers are stripped, cut to a maximum length.
 */
module NoteTitle {
  import opened Wrappers
  import opened Text
  import Seqs

  /**
   * The recorder apps and the live-transcription feature differ in small ways:
   * the recorders also strip `_`, accept any non-empty line and need more than
   * three characters of title text; the live feature needs a line longer than
   * three characters and any title text.
   */
  datatype Flavor = Recorder | Live

  /** The maximum title length before `...` is added. */
  function MaxTitleLength(f: Flavor): nat
  {
    match f
    case Recorder => 60
    case Live => 80
  }

  /** The markers removed from the start of a line: list, quote, emphasis, link and numbering characters. */
  predicate IsLeadMarker(c: char, f: Flavor)
  {
    c == '*' || (f == Recorder && c == '_') || c == '`' || c == '#' || c == '-' || c == '>'
    || IsWhitespace(c) || c == '[' || c == ']' || c == '(' || c == '.' || IsDigit(c) || c == ')'
  }

  /** The emphasis markers removed from the end of a line. */
  predicate IsTrailMarker(c: char, f: Flavor)
  {
    c == '*' || (f == Recorder && c == '_') || c == '`' || c == '#'
  }

  /** The lines of the note, each trimmed. */
  function Lines(text: string): (lines: seq<string>)
    ensures forall i :: 0 <= i < |lines| ==> IsTrimmed(lines[i])
  {
    var lines := Seqs.Map(Split(text, '\n'), Trim);
    forall i | 0 <= i < |lines|
      ensures IsTrimmed(lines[i])
    {
      TrimShape(Split(text, '\n')[i]);
    }
    lines
  }

  /** The text of a heading line: the `#` run and the whitespace after it removed (when there is whitespace), then trimmed. */
  function HeadingText(line: string): string
  {
    var hashes := RunEnd(line, 0, c => c == '#');
    var spaces := RunEnd(line, hashes, IsWhitespace);
    if hashes > 0 && spaces > hashes then Trim(line[spaces..]) else Trim(line)
  }

  /** The title text a line offers: leading markers and trailing emphasis removed, then trimmed. */
  function Candidate(line: string, f: Flavor): string
  {
    var start := RunEnd(line, 0, c => IsLeadMarker(c, f));
    var rest := line[start..];
    var stop := RunStart(rest, |rest|, c => IsTrailMarker(c, f));
    Trim(rest[..stop])
  }

  /** Whether a line can give the title when no heading did. */
  predicate Qualifies(line: string, f: Flavor)
  {
    match f
    case Recorder => |line| > 0 && |Candidate(line, f)| > 3
    case Live => |line| > 3 && Candidate(line, f) != []
  }

  /** `t.substring(0, max) + (t.length > max ? '...' : '')`. */
  function Capped(t: string, max: nat): (r: string)
    ensures |t| <= max ==> r == t
    ensures |t| > max ==> |r| == max + 3 && r == t[..max] + "..."
    ensures |r| <= max + 3
  {
    Take(t, max) + (if |t| > max then "..." else "")
  }

  /** The title from the first line starting with `#` whose heading text is not empty. */
  function HeadingTitle(lines: seq<string>): Option<string>
  {
    if lines == [] then None
    else if StartsWith(lines[0], "#") && HeadingText(lines[0]) != [] then Some(HeadingText(lines[0]))
    else HeadingTitle(lines[1..])
  }

  /** The title from the first qualifying line. */
  function BodyTitle(lines: seq<string>, f: Flavor): Option<string>
  {
    if lines == [] then None
    else if Qualifies(lines[0], f) then Some(Capped(Candidate(lines[0], f), MaxTitleLength(f)))
    else BodyTitle(lines[1..], f)
  }

  /** The extracted title: a heading first, then a body line; `None` leaves the title as it was. */
  function TitleOf(lines: seq<string>, f: Flavor): Option<string>
  {
    if HeadingTitle(lines).Some? then HeadingTitle(lines) else BodyTitle(lines, f)
  }

  /** The two passes over the note's lines: headings first, then body lines. */
  method ExtractTitle(text: string, f: Flavor) returns (title: Option<string>)
    ensures title == TitleOf(Lines(text), f)
  {
    var lines := Lines(text);
    title := FindHeadingTitle(lines);
    if title.None? {
      title := FindBodyTitle(lines, f);
    }
  }

  /** The heading pass, stopping at the first line that gives a heading. */
  method FindHeadingTitle(lines: seq<string>) returns (title: Option<string>)
    ensures title == HeadingTitle(lines)
  {
    var i := 0;
    while i < |lines|
      invariant 0 <= i <= |lines|
      invariant HeadingTitle(lines) == HeadingTitle(lines[i..])
    {
      assert lines[i..][0] == lines[i] && lines[i..][1..] == lines[i + 1..];
      if StartsWith(lines[i], "#") {
        var heading := HeadingText(lines[i]);
        if heading != [] {
          return Some(heading);
        }
      }
      i := i + 1;
    }
    return None;
  }

  /** The body pass, stopping at the first qualifying line. */
  method FindBodyTitle(lines: seq<string>, f: Flavor) returns (title: Option<string>)
    ensures title == BodyTitle(lines, f)
  {
    var i := 0;
    while i < |lines|
      invariant 0 <= i <= |lines|
      invariant BodyTitle(lines, f) == BodyTitle(lines[i..], f)
    {
      BodyTitleStep(lines, i, f);
      if Qualifies(lines[i], f) {
        return Some(Capped(Candidate(lines[i], f), MaxTitleLength(f)));
      }
      i := i + 1;
    }
    return None;
  }

  lemma BodyTitleStep(lines: seq<string>, i: nat, f: Flavor)
    requires i < |lines|
    ensures BodyTitle(lines[i..], f)
      == if Qualifies(lines[i], f) then Some(Capped(Candidate(lines[i], f), MaxTitleLength(f))) else BodyTitle(lines[i + 1..], f)
  {
    assert lines[i..][0] == lines[i] && lines[i..][1..] == lines[i + 1..];
  }

  /**
   * A trimmed line that starts with `#` always has non-empty heading text, so
   * the heading rule never passes over such a line.
   */
  lemma HeadingTextNonEmpty(line: string)
    requires IsTrimmed(line) && StartsWith(line, "#")
    ensures HeadingText(line) != [] && IsTrimmed(HeadingText(line))
  {
    var hashes := RunEnd(line, 0, c => c == '#');
    var spaces := RunEnd(line, hashes, IsWhitespace);
    assert line[0] == '#';
    if hashes > 0 && spaces > hashes {
      assert spaces < |line|;
      TrimShape(line[spaces..]);
      TrimEmptyIffBlank(line[spaces..]);
      assert !IsWhitespace(line[spaces..][|line| - spaces - 1]);
    } else {
      TrimOfTrimmed(line);
    }
    TrimShape(if hashes > 0 && spaces > hashes then line[spaces..] else line);
  }

  /** The index of the first line starting with `#`, or `|lines|`. */
  function FirstHashLine(lines: seq<string>): (k: nat)
    ensures k <= |lines|
    ensures forall j :: 0 <= j < k ==> !StartsWith(lines[j], "#")
    ensures k < |lines| ==> StartsWith(lines[k], "#")
  {
    if lines == [] then 0
    else if StartsWith(lines[0], "#") then 0
    else 1 + FirstHashLine(lines[1..])
  }

  /**
   * With trimmed lines, the heading title is exactly the heading text of the
   * first line starting with `#`, and there is none when no line starts with `#`.
   */
  lemma {:induction false} HeadingTitleIsFirstHashLine(lines: seq<string>)
    requires forall i :: 0 <= i < |lines| ==> IsTrimmed(lines[i])
    ensures FirstHashLine(lines) == |lines| ==> HeadingTitle(lines) == None
    ensures FirstHashLine(lines) < |lines| ==> HeadingTitle(lines) == Some(HeadingText(lines[FirstHashLine(lines)]))
  {
    if lines != [] {
      if StartsWith(lines[0], "#") {
        HeadingTextNonEmpty(lines[0]);
      } else {
        HeadingTitleIsFirstHashLine(lines[1..]);
      }
    }
  }

  /** A body title is the capped text of a line and never empty; a recorder title has more than three characters. */
  lemma {:induction false} BodyTitleShape(lines: seq<string>, f: Flavor)
    ensures BodyTitle(lines, f).Some? ==>
      var t := BodyTitle(lines, f).value;
      t != [] && |t| <= MaxTitleLength(f) + 3 && (f == Recorder ==> |t| > 3)
  {
    if lines != [] && !Qualifies(lines[0], f) {
      BodyTitleShape(lines[1..], f);
    }
  }

  /**
   * The text a line offers has no whitespace at its ends and does not start
   * with a leading marker, and it lies inside the line.
   */
  lemma CandidateShape(line: string, f: Flavor)
    ensures var c := Candidate(line, f);
      IsTrimmed(c) && (c == [] || !IsLeadMarker(c[0], f)) && |c| <= |line|
  {
    var start := RunEnd(line, 0, c => IsLeadMarker(c, f));
    var rest := line[start..];
    var stop := RunStart(rest, |rest|, c => IsTrailMarker(c, f));
    var body := rest[..stop];
    TrimShape(body);
    var c := Trim(body);
    if c != [] {
      assert stop > 0;
      assert !IsLeadMarker(rest[0], f);
      assert !IsWhitespace(body[0]);
      TrimStartKeepsNonBlankHead(body);
    }
  }

  /** Trimming a string whose first character is not whitespace keeps that character first. */
  lemma TrimStartKeepsNonBlankHead(s: string)
    requires s != [] && !IsWhitespace(s[0])
    ensures Trim(s) != [] && Trim(s)[0] == s[0]
  {
    assert TrimStart(s) == s;
    TrimEndPrefix(s);
    assert TrimEnd(s)[0] == s[0];
  }

  /**
   * The title shown after polishing: the extracted title when there is one;
   * otherwise an empty title or one equal to the placeholder shows the
   * placeholder, and any other title is kept.
   */
  function ShownTitle(current: string, placeholder: string, extracted: Option<string>): (r: string)
    ensures extracted.Some? ==> r == extracted.value
    ensures extracted.None? && Trim(current) != [] && Trim(current) != placeholder ==> r == current
    ensures extracted.None? && (Trim(current) == [] || Trim(current) == placeholder) ==> r == placeholder
  {
    match extracted
    case Some(t) => t
    case None => if Trim(current) == [] || Trim(current) == placeholder then placeholder else current
  }
}
