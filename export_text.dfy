/**
 * `cleanTextForExport` of the Word export button: a fixed chain of global
 * regular-expression replacements that drops the assistant footer, HTML tags
 * and Markdown markup, squeezes blank lines and trims. Each expression is
 * modelled by the match it makes at a position (with the leftmost, greedy or
 * lazy choice JavaScript makes), and `replace` with the `g` flag by a scan
 * that tries every position in turn and resumes after each match.
 */
module ExportText {
  import opened Wrappers
  import opened Text

  const FooterMarker: string := "Trợ lý được tạo bởi:"
  const EmptyContentAlert: string := "Không có nội dung để xuất tệp."

  /** A match at some position: where it ends, and the text that replaces it. */
  datatype Match = Match(end: nat, replacement: string)

  /** `m(s, i)` is a match that ends inside `s` and after `i`. */
  predicate Matches(s: string, i: nat, m: (string, nat) -> Option<Match>)
  {
    i < |s| && m(s, i).Some? && i < m(s, i).value.end <= |s|
  }

  /**
   * `s.replace(re, …)` with the `g` flag, from position `i`: where `re` matches at `i`
   * the match is replaced and the scan resumes at its end; elsewhere the character is kept.
   */
  function ReplaceAll(s: string, i: nat, m: (string, nat) -> Option<Match>): string
    requires i <= |s|
    decreases |s| - i
  {
    if i == |s| then []
    else if Matches(s, i, m) then m(s, i).value.replacement + ReplaceAll(s, m(s, i).value.end, m)
    else [s[i]] + ReplaceAll(s, i + 1, m)
  }

  /** Where nothing matches, nothing changes. */
  lemma {:induction false} ReplaceAllNoMatch(s: string, i: nat, m: (string, nat) -> Option<Match>)
    requires i <= |s|
    requires forall j :: i <= j < |s| ==> !Matches(s, j, m)
    ensures ReplaceAll(s, i, m) == s[i..]
    decreases |s| - i
  {
    if i < |s| {
      ReplaceAllNoMatch(s, i + 1, m);
      assert s[i..] == [s[i]] + s[i + 1..];
    }
  }

  /** `^` in multiline mode: the start of the text or just after a line terminator. */
  predicate LineStart(s: string, i: nat)
  {
    i == 0 || (0 < i <= |s| && IsLineTerminator(s[i - 1]))
  }

  /** `$` in multiline mode: the end of the text or just before a line terminator. */
  predicate LineEnd(s: string, j: nat)
  {
    j == |s| || (j < |s| && IsLineTerminator(s[j]))
  }

  /** The last position in `[x, j]` where a line ends, searching down from `j`. */
  function LastLineEnd(s: string, x: nat, j: nat): (r: Option<nat>)
    requires x <= j <= |s|
    ensures r.Some? ==> x <= r.value <= j && LineEnd(s, r.value)
    ensures r.Some? ==> forall k :: r.value < k <= j ==> !LineEnd(s, k)
    ensures r.None? ==> forall k :: x <= k <= j ==> !LineEnd(s, k)
    decreases j - x
  {
    if LineEnd(s, j) then Some(j)
    else if j == x then None
    else LastLineEnd(s, x, j - 1)
  }

  /** `\s*$` at `x`, greedy: the end of the longest whitespace stretch from `x` that stops where a line ends. */
  function BlankToLineEnd(s: string, x: nat): (r: Option<nat>)
    requires x <= |s|
    ensures r.Some? ==> x <= r.value <= |s| && LineEnd(s, r.value) && IsBlank(s[x..r.value])
  {
    var w := RunEnd(s, x, IsWhitespace);
    var r := LastLineEnd(s, x, w);
    assert r.Some? ==> IsBlank(s[x..r.value]) by {
      if r.Some? {
        assert forall k :: 0 <= k < r.value - x ==> s[x..r.value][k] == s[x + k];
      }
    }
    r
  }

  // ---------------------------------------------------------------------
  // 1. `/---[\r\n\s]+Trợ lý được tạo bởi:[\s\S]*/gm` -> ''

  /** The footer starts at `i`: `---`, whitespace, then the marker. */
  predicate FooterAt(s: string, i: nat)
  {
    i + 3 <= |s| && s[i..i + 3] == "---"
    && RunEnd(s, i + 3, IsWhitespace) > i + 3 && StartsWith(s[RunEnd(s, i + 3, IsWhitespace)..], FooterMarker)
  }

  function FooterMatch(s: string, i: nat): Option<Match>
  {
    if FooterAt(s, i) then Some(Match(|s|, [])) else None
  }

  function RemoveFooter(s: string): string
  {
    ReplaceAll(s, 0, FooterMatch)
  }

  // ---------------------------------------------------------------------
  // 2. `/<[^>]*>/g` -> ''

  /** The first `c` at or after `from`. */
  function FindChar(s: string, from: nat, c: char): (r: Option<nat>)
    requires from <= |s|
    ensures r.Some? ==> from <= r.value < |s| && s[r.value] == c
    ensures r.Some? ==> forall k :: from <= k < r.value ==> s[k] != c
    ensures r.None? ==> forall k :: from <= k < |s| ==> s[k] != c
    decreases |s| - from
  {
    if from == |s| then None
    else if s[from] == c then Some(from)
    else FindChar(s, from + 1, c)
  }

  function TagMatch(s: string, i: nat): Option<Match>
  {
    if i < |s| && s[i] == '<' then
      match FindChar(s, i + 1, '>')
      case Some(k) => Some(Match(k + 1, []))
      case None => None
    else None
  }

  function StripTags(s: string): string
  {
    ReplaceAll(s, 0, TagMatch)
  }

  // ---------------------------------------------------------------------
  // 3. `/^#{1,6}\s*(.*?):?\s*$/gm` -> '$1'

  predicate IsHash(c: char) { c == '#' }

  /**
   * The lazy `(.*?)` from `p`, tried at each end `q` in turn: it is followed by `:` and `\s*$`,
   * or by `\s*$` alone. The capture cannot cross a line terminator.
   */
  function LazyHeading(s: string, p: nat, q: nat): (r: Option<Match>)
    requires p <= q <= |s|
    ensures r.Some? ==> q <= r.value.end <= |s|
    decreases |s| - q
  {
    if q < |s| && s[q] == ':' && BlankToLineEnd(s, q + 1).Some? then Some(Match(BlankToLineEnd(s, q + 1).value, s[p..q]))
    else if BlankToLineEnd(s, q).Some? then Some(Match(BlankToLineEnd(s, q).value, s[p..q]))
    else if q < |s| && !IsLineTerminator(s[q]) then LazyHeading(s, p, q + 1)
    else None
  }

  function HeadingMatch(s: string, i: nat): Option<Match>
  {
    if i < |s| && LineStart(s, i) && s[i] == '#' then
      var run := RunEnd(s, i, IsHash);
      var hashes := if run - i > 6 then i + 6 else run;
      var p := RunEnd(s, hashes, IsWhitespace);
      LazyHeading(s, p, p)
    else None
  }

  function StripHeadings(s: string): string
  {
    ReplaceAll(s, 0, HeadingMatch)
  }

  // ---------------------------------------------------------------------
  // 4-6. `/(\*\*|__)(.*?)\1/g`, `/(\*|_)(.*?)\1/g` and `/~~(.*?)~~/g` -> the text between

  /** The first `k >= j` where `d` starts, with no line terminator before it. */
  function CloseAfter(s: string, j: nat, d: string): (r: Option<nat>)
    requires j <= |s|
    ensures r.Some? ==> j <= r.value && r.value + |d| <= |s| && s[r.value..r.value + |d|] == d
    ensures r.Some? ==> forall k :: j <= k < r.value ==> !IsLineTerminator(s[k])
    decreases |s| - j
  {
    if StartsWith(s[j..], d) then Some(j)
    else if j < |s| && !IsLineTerminator(s[j]) then CloseAfter(s, j + 1, d)
    else None
  }

  /** `d`, the shortest text without a line break, then `d` again: replaced by that text. */
  function DelimitedMatch(s: string, i: nat, d: string): Option<Match>
  {
    if d != [] && i + |d| <= |s| && s[i..i + |d|] == d then
      match CloseAfter(s, i + |d|, d)
      case Some(k) => Some(Match(k + |d|, s[i + |d|..k]))
      case None => None
    else None
  }

  function StrongMatch(s: string, i: nat): Option<Match>
  {
    if DelimitedMatch(s, i, "**").Some? then DelimitedMatch(s, i, "**") else DelimitedMatch(s, i, "__")
  }

  function EmphasisMatch(s: string, i: nat): Option<Match>
  {
    if DelimitedMatch(s, i, "*").Some? then DelimitedMatch(s, i, "*") else DelimitedMatch(s, i, "_")
  }

  function StrikeMatch(s: string, i: nat): Option<Match>
  {
    DelimitedMatch(s, i, "~~")
  }

  // ---------------------------------------------------------------------
  // 7. `/^>\s?/gm` -> ''

  function QuoteMatch(s: string, i: nat): Option<Match>
  {
    if i < |s| && LineStart(s, i) && s[i] == '>' then
      Some(Match(if i + 1 < |s| && IsWhitespace(s[i + 1]) then i + 2 else i + 1, []))
    else None
  }

  // ---------------------------------------------------------------------
  // 8. `/^(---|\*\*\*|___)\s*$/gm` -> ''

  function RuleMatch(s: string, i: nat): Option<Match>
  {
    if LineStart(s, i) && i + 3 <= |s| && s[i..i + 3] in {"---", "***", "___"} then
      match BlankToLineEnd(s, i + 3)
      case Some(j) => Some(Match(j, []))
      case None => None
    else None
  }

  // ---------------------------------------------------------------------
  // 9. `/^[\s]*([*+-]|\d+\.)\s+/gm` -> ''

  predicate IsBulletChar(c: char)
  {
    c == '*' || c == '+' || c == '-'
  }

  /** The end of a list marker at `w`: one of `*`, `+`, `-`, or digits and a dot. */
  function MarkerEnd(s: string, w: nat): (r: Option<nat>)
    requires w <= |s|
    ensures r.Some? ==> w < r.value <= |s|
    ensures w < |s| && IsBulletChar(s[w]) ==> r == Some(w + 1)
    ensures r.Some? && !(w < |s| && IsBulletChar(s[w])) ==>
      w + 1 < r.value && s[r.value - 1] == '.' && forall k :: w <= k < r.value - 1 ==> IsDigit(s[k])
    ensures r.None? ==> !(w < |s| && IsBulletChar(s[w]))
    ensures r.None? ==> forall d :: w < d < |s| && s[d] == '.' ==> exists k :: w <= k < d && !IsDigit(s[k])
  {
    if w < |s| && IsBulletChar(s[w]) then Some(w + 1)
    else
      var d := RunEnd(s, w, IsDigit);
      if d > w && d < |s| && s[d] == '.' then Some(d + 1) else None
  }

  function ListMatch(s: string, i: nat): Option<Match>
  {
    if i < |s| && LineStart(s, i) then
      var w := RunEnd(s, i, IsWhitespace);
      match MarkerEnd(s, w)
      case Some(m) => if RunEnd(s, m, IsWhitespace) > m then Some(Match(RunEnd(s, m, IsWhitespace), [])) else None
      case None => None
    else None
  }

  // ---------------------------------------------------------------------
  // 10. `/!?\[([^\]]*)\]\([^)]+\)/g` -> '$1'

  function LinkMatch(s: string, i: nat): Option<Match>
  {
    if i >= |s| then None
    else
      var b := if s[i] == '!' then i + 1 else i;
      if b < |s| && s[b] == '[' then
        match FindChar(s, b + 1, ']')
        case Some(close) =>
          if close + 1 < |s| && s[close + 1] == '(' then
            match FindChar(s, close + 2, ')')
            case Some(e) => if e > close + 2 then Some(Match(e + 1, s[b + 1..close])) else None
            case None => None
          else None
        case None => None
      else None
  }

  // ---------------------------------------------------------------------
  // 11. `/`([^`]+)`/g` -> '$1'

  function CodeSpanMatch(s: string, i: nat): Option<Match>
  {
    if i < |s| && s[i] == '`' then
      match FindChar(s, i + 1, '`')
      case Some(k) => if k > i + 1 then Some(Match(k + 1, s[i + 1..k])) else None
      case None => None
    else None
  }

  // ---------------------------------------------------------------------
  // 12. /```[\s\S]*?```/g -> ''

  /** The first `k >= j` where `d` starts. */
  function FindFrom(s: string, j: nat, d: string): (r: Option<nat>)
    requires j <= |s|
    ensures r.Some? ==> j <= r.value && r.value + |d| <= |s|
    decreases |s| - j
  {
    if StartsWith(s[j..], d) then Some(j)
    else if j < |s| then FindFrom(s, j + 1, d)
    else None
  }

  function FenceMatch(s: string, i: nat): Option<Match>
  {
    if i + 3 <= |s| && s[i..i + 3] == "```" then
      match FindFrom(s, i + 3, "```")
      case Some(k) => Some(Match(k + 3, []))
      case None => None
    else None
  }

  // ---------------------------------------------------------------------
  // 13. `/\n{3,}/g` -> '\n\n'

  predicate IsNewline(c: char) { c == '\n' }

  function NewlinesMatch(s: string, i: nat): Option<Match>
  {
    if i < |s| && s[i] == '\n' && RunEnd(s, i, IsNewline) >= i + 3 then Some(Match(RunEnd(s, i, IsNewline), "\n\n"))
    else None
  }

  function SqueezeNewlines(s: string): string
  {
    ReplaceAll(s, 0, NewlinesMatch)
  }

  // ---------------------------------------------------------------------
  // The chain

  function StripStrong(s: string): string { ReplaceAll(s, 0, StrongMatch) }
  function StripEmphasis(s: string): string { ReplaceAll(s, 0, EmphasisMatch) }
  function StripStrike(s: string): string { ReplaceAll(s, 0, StrikeMatch) }
  function StripQuotes(s: string): string { ReplaceAll(s, 0, QuoteMatch) }
  function StripRules(s: string): string { ReplaceAll(s, 0, RuleMatch) }
  function StripListMarkers(s: string): string { ReplaceAll(s, 0, ListMatch) }
  function StripLinks(s: string): string { ReplaceAll(s, 0, LinkMatch) }
  function StripCodeSpans(s: string): string { ReplaceAll(s, 0, CodeSpanMatch) }
  function StripFences(s: string): string { ReplaceAll(s, 0, FenceMatch) }

  /** Steps 4 to 12, in the order the replacements are made. */
  function StripInline(s: string): string
  {
    StripFences(StripCodeSpans(StripLinks(StripListMarkers(StripRules(StripQuotes(
      StripStrike(StripEmphasis(StripStrong(s)))))))))
  }

  /** Steps 1 to 12. */
  function StripMarkup(s: string): string
  {
    StripInline(StripHeadings(StripTags(RemoveFooter(s))))
  }

  /** No three line feeds in a row. */
  predicate NoTripleNewline(t: string)
  {
    forall i :: 0 <= i < |t| ==> !TripleAt(t, i)
  }

  /** Three line feeds start at `i`. */
  predicate TripleAt(t: string, i: nat)
  {
    i + 2 < |t| && t[i] == '\n' && t[i + 1] == '\n' && t[i + 2] == '\n'
  }

  /** `cleanTextForExport`: nothing for no text; otherwise the chain, squeezed and trimmed. */
  function CleanTextForExport(text: Option<string>): (r: string)
    ensures text.None? || text.value == [] ==> r == []
    ensures IsTrimmed(r) && NoTripleNewline(r)
  {
    if text.None? || text.value == [] then []
    else
      var stripped := StripMarkup(text.value);
      SqueezeFrom(stripped, 0);
      TrimKeepsNoTriple(SqueezeNewlines(stripped));
      TrimShape(SqueezeNewlines(stripped));
      Trim(SqueezeNewlines(stripped))
  }

  // ---------------------------------------------------------------------
  // The export button

  /** What pressing the button does. */
  datatype Export =
    | NoContent                                          // the "nothing to export" alert
    | Exported(paragraphs: seq<string>, fileName: string)
    | PackFailed                                         // the error alert

  /**
   * `handleExport`: refuses missing or empty content; otherwise one paragraph per line of the
   * cleaned text, saved as `<filename>.docx`. `packed` is whether building the file succeeded.
   */
  function HandleExport(content: Option<string>, filename: string, packed: bool): (r: Export)
    ensures r.NoContent? <==> content.None? || content.value == []
    ensures r.Exported? ==> Join(r.paragraphs, "\n") == CleanTextForExport(content)
    ensures r.Exported? ==> forall k :: 0 <= k < |r.paragraphs| ==> '\n' !in r.paragraphs[k]
    ensures r.Exported? ==> r.fileName == filename + ".docx" && |r.paragraphs| >= 1
    ensures r.PackFailed? <==> content.Some? && content.value != [] && !packed
  {
    if content.None? || content.value == [] then NoContent
    else if !packed then PackFailed
    else
      SplitJoin(CleanTextForExport(content), '\n');
      Exported(Split(CleanTextForExport(content), '\n'), filename + ".docx")
  }

  /** `isDisabled`: the button is off when told so or when there is no content. */
  function IsDisabled(disabled: bool, content: Option<string>): (r: bool)
    ensures r <==> disabled || content.None? || content.value == []
  {
    disabled || content.None? || content.value == []
  }

  /** An enabled button never shows the "nothing to export" alert. */
  lemma EnabledButtonHasContent(disabled: bool, content: Option<string>, filename: string, packed: bool)
    requires !IsDisabled(disabled, content)
    ensures !HandleExport(content, filename, packed).NoContent?
  {
  }

  // ---------------------------------------------------------------------
  // Properties

  /** The number of line feeds `t` starts with. */
  function LeadingNewlines(t: string): nat
  {
    if t != [] && t[0] == '\n' then 1 + LeadingNewlines(t[1..]) else 0
  }

  lemma NoTripleCons(c: char, t: string)
    requires NoTripleNewline(t)
    requires c == '\n' ==> LeadingNewlines(t) <= 1
    ensures NoTripleNewline([c] + t)
    ensures LeadingNewlines([c] + t) == if c == '\n' then 1 + LeadingNewlines(t) else 0
  {
    var u := [c] + t;
    assert u[1..] == t;
    forall i | 0 <= i < |u|
      ensures !TripleAt(u, i)
    {
      if i == 0 {
        if c == '\n' && |t| >= 2 && t[0] == '\n' {
          assert t[1..][0] == t[1];
        }
      } else {
        assert TripleAt(u, i) == TripleAt(t, i - 1);
      }
    }
  }

  /**
   * Squeezing leaves no three line feeds in a row, and what it produces from `i` starts with
   * at most two line feeds, and no more than the run of line feeds at `i`.
   */
  lemma {:induction false} SqueezeFrom(s: string, i: nat)
    requires i <= |s|
    ensures NoTripleNewline(ReplaceAll(s, i, NewlinesMatch))
    ensures LeadingNewlines(ReplaceAll(s, i, NewlinesMatch)) <= 2
    ensures LeadingNewlines(ReplaceAll(s, i, NewlinesMatch)) <= RunEnd(s, i, IsNewline) - i
    decreases |s| - i
  {
    if i < |s| {
      var next := if Matches(s, i, NewlinesMatch) then RunEnd(s, i, IsNewline) else i + 1;
      SqueezeFrom(s, next);
      var t := ReplaceAll(s, next, NewlinesMatch);
      if next == i + 1 {
        SqueezeKeep(s, i, t);
      } else {
        SqueezeRun(s, i, next, t);
      }
    }
  }

  /** A run of three or more line feeds becomes two, followed by what the rest becomes. */
  lemma SqueezeRun(s: string, i: nat, e: nat, t: string)
    requires i < |s| && Matches(s, i, NewlinesMatch) && e == RunEnd(s, i, IsNewline)
    requires t == ReplaceAll(s, e, NewlinesMatch)
    requires NoTripleNewline(t) && LeadingNewlines(t) <= RunEnd(s, e, IsNewline) - e
    ensures NoTripleNewline(ReplaceAll(s, i, NewlinesMatch))
    ensures LeadingNewlines(ReplaceAll(s, i, NewlinesMatch)) == 2 <= RunEnd(s, i, IsNewline) - i
  {
    assert RunEnd(s, e, IsNewline) == e;
    NoTripleCons('\n', t);
    NoTripleCons('\n', ['\n'] + t);
    assert ReplaceAll(s, i, NewlinesMatch) == ['\n'] + (['\n'] + t);
  }

  /** A character where no run of three line feeds starts is kept. */
  lemma SqueezeKeep(s: string, i: nat, t: string)
    requires i < |s| && !Matches(s, i, NewlinesMatch)
    requires t == ReplaceAll(s, i + 1, NewlinesMatch)
    requires NoTripleNewline(t) && LeadingNewlines(t) <= RunEnd(s, i + 1, IsNewline) - (i + 1)
    ensures NoTripleNewline(ReplaceAll(s, i, NewlinesMatch))
    ensures LeadingNewlines(ReplaceAll(s, i, NewlinesMatch)) <= 2
    ensures LeadingNewlines(ReplaceAll(s, i, NewlinesMatch)) <= RunEnd(s, i, IsNewline) - i
  {
    if s[i] == '\n' {
      assert RunEnd(s, i, IsNewline) == RunEnd(s, i + 1, IsNewline);
    }
    NoTripleCons(s[i], t);
    assert ReplaceAll(s, i, NewlinesMatch) == [s[i]] + t;
  }

  /** Trimming cuts a piece out of the text, so it cannot create three line feeds in a row. */
  lemma TrimKeepsNoTriple(s: string)
    requires NoTripleNewline(s)
    ensures NoTripleNewline(Trim(s))
  {
    TrimShape(s);
    var i, j :| 0 <= i <= j <= |s| && Trim(s) == s[i..j];
    NoTripleSlice(s, i, j);
  }

  /** A piece of a text without three line feeds in a row has none either. */
  lemma NoTripleSlice(s: string, i: nat, j: nat)
    requires NoTripleNewline(s) && i <= j <= |s|
    ensures NoTripleNewline(s[i..j])
  {
    var t := s[i..j];
    forall k: nat | k < |t|
      ensures !TripleAt(t, k)
    {
      var m: nat := i + k;
      assert TripleAt(t, k) ==> TripleAt(s, m);
    }
  }

  /** The text is cut at the first footer; with no footer it is kept whole. */
  lemma {:induction false} RemoveFooterCut(s: string, i: nat, k: nat)
    requires i <= k <= |s|
    requires forall j :: i <= j < k ==> !FooterAt(s, j)
    requires k == |s| || FooterAt(s, k)
    ensures ReplaceAll(s, i, FooterMatch) == s[i..k]
    decreases k - i
  {
    if i < k {
      RemoveFooterCut(s, i + 1, k);
      assert s[i..k] == [s[i]] + s[i + 1..k];
    }
  }

  /** After stripping tags, no `<` is followed anywhere by a `>`: no tag is left. */
  lemma {:induction false} StripTagsFrom(s: string, i: nat)
    requires i <= |s|
    ensures forall c :: c in ReplaceAll(s, i, TagMatch) ==> c in s[i..]
    ensures forall a, b :: 0 <= a < b < |ReplaceAll(s, i, TagMatch)| ==>
      !(ReplaceAll(s, i, TagMatch)[a] == '<' && ReplaceAll(s, i, TagMatch)[b] == '>')
    decreases |s| - i
  {
    if i < |s| {
      if Matches(s, i, TagMatch) {
        var e := TagMatch(s, i).value.end;
        StripTagsFrom(s, e);
        assert s[e..] == s[i..][e - i..];
      } else {
        StripTagsFrom(s, i + 1);
        var t := ReplaceAll(s, i + 1, TagMatch);
        var u := [s[i]] + t;
        assert ReplaceAll(s, i, TagMatch) == u;
        assert s[i..] == [s[i]] + s[i + 1..];
        if s[i] == '<' {
          assert '>' !in t;
        }
        forall a, b | 0 <= a < b < |u|
          ensures !(u[a] == '<' && u[b] == '>')
        {
          assert u[b] == t[b - 1];
          if a > 0 {
            assert u[a] == t[a - 1];
          }
        }
      }
    }
  }

  /** An end `q` after which neither `:\s*$` nor `\s*$` can follow, and which the capture may pass. */
  predicate PassableEnd(s: string, q: nat)
    requires q < |s|
  {
    !IsLineTerminator(s[q]) && BlankToLineEnd(s, q).None? && (s[q] == ':' ==> BlankToLineEnd(s, q + 1).None?)
  }

  /** The lazy capture passes over every passable end. */
  lemma {:induction false} LazyHeadingSkips(s: string, p: nat, q: nat, e: nat)
    requires p <= q <= e <= |s|
    requires forall k :: q <= k < e ==> PassableEnd(s, k)
    ensures LazyHeading(s, p, q) == LazyHeading(s, p, e)
    decreases e - q
  {
    if q < e {
      LazyHeadingStep(s, p, q);
      LazyHeadingSkips(s, p, q + 1, e);
    }
  }

  /** One end the lazy capture passes over. */
  lemma LazyHeadingStep(s: string, p: nat, q: nat)
    requires p <= q < |s| && PassableEnd(s, q)
    ensures LazyHeading(s, p, q) == LazyHeading(s, p, q + 1)
  {
  }

  /** On a text without line breaks that ends in a non-blank character, `\s*$` only matches at the end. */
  lemma NoBlankToLineEnd(s: string, k: nat)
    requires k < |s| && !IsWhitespace(s[|s| - 1])
    requires forall m :: k <= m < |s| ==> !IsLineTerminator(s[m])
    ensures BlankToLineEnd(s, k).None?
  {
    assert RunEnd(s, k, IsWhitespace) < |s|;
  }

  /**
   * On a single line that ends in a non-blank character, the lazy capture from `p` runs to `e`,
   * where the line ends, or where only a final `:` is left.
   */
  lemma LazyHeadingToEnd(s: string, p: nat, e: nat)
    requires p < e <= |s| && s[e - 1] != ':'
    requires e == |s| || (e + 1 == |s| && s[e] == ':')
    requires !IsWhitespace(s[|s| - 1])
    requires forall m :: 0 <= m < |s| ==> !IsLineTerminator(s[m])
    ensures LazyHeading(s, p, p) == Some(Match(|s|, s[p..e]))
  {
    forall k | p <= k < e
      ensures PassableEnd(s, k)
    {
      NoBlankToLineEnd(s, k);
      if s[k] == ':' {
        NoBlankToLineEnd(s, k + 1);
      }
    }
    LazyHeadingSkips(s, p, p, e);
    if e == |s| {
      assert BlankToLineEnd(s, e) == Some(|s|);
    } else {
      assert BlankToLineEnd(s, e + 1) == Some(|s|);
    }
  }

  /** After one to six `#` and one blank at the start of the text, the heading is the lazy capture. */
  lemma HeadingMatchAt(s: string, h: nat, r: Match)
    requires 1 <= h <= 6 && h + 1 < |s|
    requires forall k :: 0 <= k < h ==> s[k] == '#'
    requires s[h] == ' ' && !IsWhitespace(s[h + 1])
    requires LazyHeading(s, h + 1, h + 1) == Some(r)
    ensures HeadingMatch(s, 0) == Some(r)
  {
    assert RunEnd(s, 0, IsHash) == h;
    assert RunEnd(s, h, IsWhitespace) == h + 1;
  }

  /** A heading `## Text` or `## Text:` on its own becomes `Text`. */
  lemma HeadingLine(hashes: string, t: string, colon: string)
    requires 1 <= |hashes| <= 6 && forall k :: 0 <= k < |hashes| ==> hashes[k] == '#'
    requires colon == [] || colon == ":"
    requires t != [] && !IsWhitespace(t[0]) && !IsWhitespace(t[|t| - 1]) && t[|t| - 1] != ':'
    requires forall k :: 0 <= k < |t| ==> !IsLineTerminator(t[k])
    ensures StripHeadings(hashes + " " + t + colon) == t
  {
    var s := hashes + " " + t + colon;
    var h := |hashes|;
    var p := h + 1;
    var e := p + |t|;
    assert LazyHeading(s, p, p) == Some(Match(|s|, t)) by {
      assert s[p..e] == t;
      assert s[e - 1] == t[|t| - 1];
      assert s[|s| - 1] == if colon == [] then t[|t| - 1] else ':';
      forall m | 0 <= m < |s| ensures !IsLineTerminator(s[m]) {
        if p <= m < e {
          assert s[m] == t[m - p];
        }
      }
      LazyHeadingToEnd(s, p, e);
    }
    assert forall k :: 0 <= k < h ==> s[k] == hashes[k];
    assert s[h] == ' ' && s[p] == t[0];
    HeadingMatchAt(s, h, Match(|s|, t));
    WholeMatch(s, HeadingMatch, t);
  }

  /** The closing delimiter search passes over characters that cannot start it. */
  lemma {:induction false} CloseAfterSkips(s: string, j: nat, e: nat, d: string)
    requires j <= e <= |s| && d != []
    requires forall k :: j <= k < e ==> s[k] != d[0] && !IsLineTerminator(s[k])
    ensures CloseAfter(s, j, d) == CloseAfter(s, e, d)
    decreases e - j
  {
    if j < e {
      assert !StartsWith(s[j..], d) by { assert s[j..][0] == s[j]; }
      CloseAfterSkips(s, j + 1, e, d);
    }
  }

  /** `d text d` on one line, with no `d` inside, is matched whole and replaced by `text`. */
  lemma DelimitedWhole(d: string, t: string)
    requires d != []
    requires forall k :: 0 <= k < |t| ==> t[k] != d[0] && !IsLineTerminator(t[k])
    ensures DelimitedMatch(d + t + d, 0, d) == Some(Match(|d + t + d|, t))
  {
    var s := d + t + d;
    var e := |d| + |t|;
    assert s[0..|d|] == d;
    assert s[|d|..e] == t;
    assert CloseAfter(s, |d|, d) == Some(e) by {
      forall k | |d| <= k < e ensures s[k] != d[0] && !IsLineTerminator(s[k]) {
        assert s[k] == t[k - |d|];
      }
      CloseAfterSkips(s, |d|, e, d);
      assert StartsWith(s[e..], d) by { assert s[e..] == d; }
    }
    DelimitedMatchAt(s, d, e);
  }

  /** The delimited match at the start, from where the closing delimiter is found. */
  lemma DelimitedMatchAt(s: string, d: string, e: nat)
    requires d != [] && |d| <= |s| && s[0..|d|] == d && CloseAfter(s, |d|, d) == Some(e)
    ensures DelimitedMatch(s, 0, d) == Some(Match(e + |d|, s[|d|..e]))
  {
  }

  /** A match that covers the whole text leaves just its replacement. */
  lemma WholeMatch(s: string, m: (string, nat) -> Option<Match>, t: string)
    requires s != [] && m(s, 0) == Some(Match(|s|, t))
    ensures ReplaceAll(s, 0, m) == t
  {
    assert ReplaceAll(s, 0, m) == t + ReplaceAll(s, |s|, m);
  }

  /** `**text**` and `__text__` become `text`. */
  lemma StrongLine(d: string, t: string)
    requires d == "**" || d == "__"
    requires forall k :: 0 <= k < |t| ==> t[k] != d[0] && !IsLineTerminator(t[k])
    ensures StripStrong(d + t + d) == t
  {
    DelimitedWhole(d, t);
    var s := d + t + d;
    assert s[0..2] == d;
    WholeMatch(s, StrongMatch, t);
  }

  /** `*text*` and `_text_` become `text`. */
  lemma EmphasisLine(d: string, t: string)
    requires d == "*" || d == "_"
    requires forall k :: 0 <= k < |t| ==> t[k] != d[0] && !IsLineTerminator(t[k])
    ensures StripEmphasis(d + t + d) == t
  {
    DelimitedWhole(d, t);
    var s := d + t + d;
    assert s[0..1] == d;
    WholeMatch(s, EmphasisMatch, t);
  }

  /** `~~text~~` becomes `text`. */
  lemma StrikeLine(t: string)
    requires forall k :: 0 <= k < |t| ==> t[k] != '~' && !IsLineTerminator(t[k])
    ensures StripStrike("~~" + t + "~~") == t
  {
    DelimitedWhole("~~", t);
    WholeMatch("~~" + t + "~~", StrikeMatch, t);
  }

  /** A list line loses its marker and the blank after it. */
  lemma ListLineFrom(marker: string, t: string)
    requires MarkerEnd(marker + " " + t, 0) == Some(|marker|)
    requires forall k :: 0 <= k < |marker| ==> !IsLineTerminator(marker[k])
    requires t == [] || !IsWhitespace(t[0])
    requires forall k :: 0 <= k < |t| ==> !IsLineTerminator(t[k])
    ensures StripListMarkers(marker + " " + t) == t
  {
    var s := marker + " " + t;
    var m := |marker|;
    assert s[m] == ' ';
    assert forall k :: 0 <= k < m ==> s[k] == marker[k];
    assert forall k :: m < k < |s| ==> s[k] == t[k - m - 1];
    assert RunEnd(s, 0, IsWhitespace) == 0;
    assert RunEnd(s, m, IsWhitespace) == m + 1 by {
      if t != [] {
        assert s[m + 1] == t[0];
      }
    }
    assert ListMatch(s, 0) == Some(Match(m + 1, []));
    forall j | m + 1 <= j < |s|
      ensures !Matches(s, j, ListMatch)
    {
      assert !LineStart(s, j) by {
        assert !IsLineTerminator(s[j - 1]);
      }
    }
    ReplaceAllNoMatch(s, m + 1, ListMatch);
    assert s[m + 1..] == t;
  }

  /** `- text`, `* text` and `+ text` become `text`. */
  lemma BulletLine(b: char, t: string)
    requires b == '-' || b == '*' || b == '+'
    requires t == [] || !IsWhitespace(t[0])
    requires forall k :: 0 <= k < |t| ==> !IsLineTerminator(t[k])
    ensures StripListMarkers([b] + " " + t) == t
  {
    ListLineFrom([b], t);
  }

  /** `12. text` becomes `text`. */
  lemma NumberedLine(n: nat, t: string)
    requires t == [] || !IsWhitespace(t[0])
    requires forall k :: 0 <= k < |t| ==> !IsLineTerminator(t[k])
    ensures StripListMarkers(NatToString(n) + "." + " " + t) == t
  {
    var digits := NatToString(n);
    var marker := digits + ".";
    var s := marker + " " + t;
    assert forall k :: 0 <= k < |digits| ==> s[k] == digits[k] && IsDigit(s[k]);
    assert s[|digits|] == '.';
    assert RunEnd(s, 0, IsDigit) == |digits|;
    assert MarkerEnd(s, 0) == Some(|marker|);
    assert forall k :: 0 <= k < |marker| ==> !IsLineTerminator(marker[k]) by {
      forall k | 0 <= k < |marker| ensures !IsLineTerminator(marker[k]) {
        if k < |digits| {
          assert marker[k] == digits[k];
        }
      }
    }
    ListLineFrom(marker, t);
  }

  /** The first `c` in `x + [c] + y`, when `x` has none, is right after `x`. */
  lemma IndexOfAfter(x: string, c: char, y: string)
    requires c !in x
    ensures IndexOf(x + [c] + y, c) == |x|
  {
    var s := x + [c] + y;
    assert s[|x|] == c;
  }

  /** A link `[text](url)` or an image `![text](url)` becomes `text`. */
  lemma LinkLine(bang: string, t: string, u: string)
    requires bang == [] || bang == "!"
    requires ']' !in t && u != [] && ')' !in u
    ensures StripLinks(bang + "[" + t + "](" + u + ")") == t
  {
    var s := bang + "[" + t + "](" + u + ")";
    LinkMatchWhole(bang, t, u);
    WholeMatch(s, LinkMatch, t);
  }

  lemma LinkMatchWhole(bang: string, t: string, u: string)
    requires bang == [] || bang == "!"
    requires ']' !in t && u != [] && ')' !in u
    ensures LinkMatch(bang + "[" + t + "](" + u + ")", 0) == Some(Match(|bang| + |t| + |u| + 4, t))
  {
    var s := bang + "[" + t + "](" + u + ")";
    var b := |bang|;
    var close := b + 1 + |t|;
    var e := close + 2 + |u|;
    assert s[0] == if b == 1 then '!' else '[';
    assert s[b] == '[' && s[close] == ']' && s[close + 1] == '(' && s[e] == ')';
    assert s[b + 1..close] == t;
    assert FindChar(s, b + 1, ']') == Some(close) by {
      forall m | b + 1 <= m < close ensures s[m] != ']' {
        assert s[m] == t[m - b - 1];
      }
      FindCharAt(s, b + 1, close, ']');
    }
    assert FindChar(s, close + 2, ')') == Some(e) by {
      forall m | close + 2 <= m < e ensures s[m] != ')' {
        assert s[m] == u[m - close - 2];
      }
      FindCharAt(s, close + 2, e, ')');
    }
    LinkMatchAt(s, b, close, e);
  }

  /** The link match from its three landmarks: the `[`, the `]` and the `)`. */
  lemma LinkMatchAt(s: string, b: nat, close: nat, e: nat)
    requires b <= 1 && b < |s| && (s[0] == '!' <==> b == 1) && s[b] == '['
    requires FindChar(s, b + 1, ']') == Some(close) && close + 1 < |s| && s[close + 1] == '('
    requires FindChar(s, close + 2, ')') == Some(e) && e > close + 2
    ensures LinkMatch(s, 0) == Some(Match(e + 1, s[b + 1..close]))
  {
  }

  /** `FindChar` finds the position of the first `c`. */
  lemma {:induction false} FindCharAt(s: string, from: nat, k: nat, c: char)
    requires from <= k < |s| && s[k] == c && forall m :: from <= m < k ==> s[m] != c
    ensures FindChar(s, from, c) == Some(k)
    decreases k - from
  {
    if from < k {
      FindCharAt(s, from + 1, k, c);
    }
  }

  /** Characters that no step of the chain reacts to. */
  predicate PlainChar(c: char)
  {
    c !in "#*_~>`[-+<" && !IsDigit(c)
  }

  predicate Plain(s: string)
  {
    forall k :: 0 <= k < |s| ==> PlainChar(s[k])
  }

  /** No delimiter, quote or rule pattern matches in a text without markup characters. */
  lemma PlainNoEmphasis(s: string, j: nat)
    requires Plain(s) && j < |s|
    ensures !Matches(s, j, StrongMatch) && !Matches(s, j, EmphasisMatch) && !Matches(s, j, StrikeMatch)
    ensures !Matches(s, j, QuoteMatch) && !Matches(s, j, RuleMatch)
  {
    assert PlainChar(s[j]);
    NoDelimitedAt(s, j, "**");
    NoDelimitedAt(s, j, "__");
    NoDelimitedAt(s, j, "*");
    NoDelimitedAt(s, j, "_");
    NoDelimitedAt(s, j, "~~");
    if j + 3 <= |s| { assert s[j..j + 3][0] == s[j]; }
  }

  /** A delimiter cannot open where its first character is not. */
  lemma NoDelimitedAt(s: string, j: nat, d: string)
    requires j < |s| && d != [] && s[j] != d[0]
    ensures DelimitedMatch(s, j, d).None?
  {
    if j + |d| <= |s| {
      assert s[j..j + |d|][0] == s[j];
    }
  }

  /** No list, link, code or fence pattern matches in a text without markup characters. */
  lemma PlainNoBlocks(s: string, j: nat)
    requires Plain(s) && j < |s|
    ensures !Matches(s, j, ListMatch) && !Matches(s, j, LinkMatch)
    ensures !Matches(s, j, CodeSpanMatch) && !Matches(s, j, FenceMatch)
  {
    assert PlainChar(s[j]);
    if j + 3 <= |s| { assert s[j..j + 3][0] == s[j]; }
    if j + 1 < |s| { assert PlainChar(s[j + 1]); }
    var w := RunEnd(s, j, IsWhitespace);
    if w < |s| { assert PlainChar(s[w]); }
  }

  /** Steps 4 to 12 leave a text without markup characters alone. */
  lemma PlainInlineUntouched(s: string)
    requires Plain(s)
    ensures StripInline(s) == s
  {
    forall j | 0 <= j < |s|
      ensures !Matches(s, j, StrongMatch) && !Matches(s, j, EmphasisMatch) && !Matches(s, j, StrikeMatch)
      ensures !Matches(s, j, QuoteMatch) && !Matches(s, j, RuleMatch) && !Matches(s, j, ListMatch)
      ensures !Matches(s, j, LinkMatch) && !Matches(s, j, CodeSpanMatch) && !Matches(s, j, FenceMatch)
    {
      PlainNoEmphasis(s, j);
      PlainNoBlocks(s, j);
    }
    ReplaceAllNoMatch(s, 0, StrongMatch);
    ReplaceAllNoMatch(s, 0, EmphasisMatch);
    ReplaceAllNoMatch(s, 0, StrikeMatch);
    ReplaceAllNoMatch(s, 0, QuoteMatch);
    ReplaceAllNoMatch(s, 0, RuleMatch);
    ReplaceAllNoMatch(s, 0, ListMatch);
    ReplaceAllNoMatch(s, 0, LinkMatch);
    ReplaceAllNoMatch(s, 0, CodeSpanMatch);
    ReplaceAllNoMatch(s, 0, FenceMatch);
  }

  /** Steps 1 to 12 leave a text without markup characters alone. */
  lemma PlainUntouched(s: string)
    requires Plain(s)
    ensures StripMarkup(s) == s
  {
    forall j | 0 <= j < |s|
      ensures !Matches(s, j, FooterMatch) && !Matches(s, j, TagMatch) && !Matches(s, j, HeadingMatch)
    {
      assert PlainChar(s[j]);
      if j + 3 <= |s| { assert s[j..j + 3][0] == s[j]; }
    }
    ReplaceAllNoMatch(s, 0, FooterMatch);
    ReplaceAllNoMatch(s, 0, TagMatch);
    ReplaceAllNoMatch(s, 0, HeadingMatch);
    PlainInlineUntouched(s);
  }

  /** Squeezing leaves a text without three line feeds in a row alone. */
  lemma SqueezeUntouched(s: string)
    requires NoTripleNewline(s)
    ensures SqueezeNewlines(s) == s
  {
    forall j | 0 <= j < |s|
      ensures !Matches(s, j, NewlinesMatch)
    {
      assert !TripleAt(s, j);
    }
    ReplaceAllNoMatch(s, 0, NewlinesMatch);
  }

  /** Text without markup and without runs of blank lines is only trimmed. */
  lemma PlainTextOnlyTrimmed(s: string)
    requires s != [] && Plain(s) && NoTripleNewline(s)
    ensures CleanTextForExport(Some(s)) == Trim(s)
  {
    PlainUntouched(s);
    SqueezeUntouched(s);
  }

  /** A heading line of plain text exports as its bare text. */
  lemma HeadingCleaned(hashes: string, t: string, colon: string)
    requires 1 <= |hashes| <= 6 && forall k :: 0 <= k < |hashes| ==> hashes[k] == '#'
    requires colon == [] || colon == ":"
    requires t != [] && !IsWhitespace(t[0]) && !IsWhitespace(t[|t| - 1]) && t[|t| - 1] != ':'
    requires Plain(t) && forall k :: 0 <= k < |t| ==> !IsLineTerminator(t[k])
    ensures CleanTextForExport(Some(hashes + " " + t + colon)) == t
  {
    var s := hashes + " " + t + colon;
    var p := |hashes| + 1;
    forall j | 0 <= j < |s|
      ensures !Matches(s, j, FooterMatch) && !Matches(s, j, TagMatch)
    {
      if p <= j < p + |t| {
        assert s[j] == t[j - p] && PlainChar(t[j - p]);
      }
      if j + 3 <= |s| { assert s[j..j + 3][0] == s[j]; }
    }
    ReplaceAllNoMatch(s, 0, FooterMatch);
    ReplaceAllNoMatch(s, 0, TagMatch);
    HeadingLine(hashes, t, colon);
    PlainInlineUntouched(t);
    assert NoTripleNewline(t);
    SqueezeUntouched(t);
    TrimOfTrimmed(t);
  }
}
