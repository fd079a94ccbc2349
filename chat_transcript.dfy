/**
 * The transcript operations the four chat features share: building the user
 * message and the loading placeholder of a send, replacing or failing the
 * placeholder by id, rolling a send back, picking the latest output, restoring
 * the last analysis, and rendering the transcript for export.
 */
module ChatTranscript {
  import opened Wrappers
  import opened Text
  import opened Types
  import Seqs

  function UserMessageId(now: int): string { "user-" + IntToString(now) }

  function PlaceholderId(now: int): string { "model-loading-" + IntToString(now) }

  function ResponseId(now: int): string { "model-resp-" + IntToString(now) }

  /** The user message and the placeholder of a send never share an id, whatever the clock says. */
  lemma ExchangeIdsDistinct(a: int, b: int)
    ensures UserMessageId(a) != PlaceholderId(b)
    ensures ResponseId(a) != PlaceholderId(b) && ResponseId(a) != UserMessageId(b)
  {
    assert UserMessageId(a)[0] == 'u' && PlaceholderId(b)[0] == 'm';
    assert ResponseId(a)[6] == 'r' && PlaceholderId(b)[6] == 'l';
  }

  function UserMessage(now: int, content: string, attachment: Option<Attachment>): ChatMessage
  {
    ChatMessage(UserMessageId(now), User, content, now, false, attachment, None, None)
  }

  /** The loading placeholder shown while a reply is pending. */
  function LoadingPlaceholder(now: int, text: string): ChatMessage
  {
    ChatMessage(PlaceholderId(now), Model, text, now, true, None, None, None)
  }

  function ModelReply(now: int, content: string): ChatMessage
  {
    ChatMessage(ResponseId(now), Model, content, now, false, None, None, None)
  }

  predicate HasId(h: seq<ChatMessage>, id: string)
  {
    exists i :: 0 <= i < |h| && h[i].id == id
  }

  /** `prev.map(msg => msg.id === id ? m : msg)`. */
  function ReplaceById(h: seq<ChatMessage>, id: string, m: ChatMessage): (r: seq<ChatMessage>)
    ensures |r| == |h|
    ensures forall i :: 0 <= i < |h| && h[i].id != id ==> r[i] == h[i]
    ensures forall i :: 0 <= i < |h| && h[i].id == id ==> r[i] == m
  {
    Seqs.Map(h, (msg: ChatMessage) => if msg.id == id then m else msg)
  }

  /** A placeholder turned into a finished model message carrying an error text. */
  function Failed(m: ChatMessage, text: string): (r: ChatMessage)
    ensures r.id == m.id && r.role == Model && !r.isLoading && r.content == text
  {
    m.(isLoading := false, role := Model, content := text)
  }

  /** `prev.map(msg => msg.id === id ? {...msg, isLoading: false, role: 'model', content: text} : msg)`. */
  function MarkFailedById(h: seq<ChatMessage>, id: string, text: string): (r: seq<ChatMessage>)
    ensures |r| == |h|
    ensures forall i :: 0 <= i < |h| && h[i].id != id ==> r[i] == h[i]
    ensures forall i :: 0 <= i < |h| && h[i].id == id ==> r[i] == Failed(h[i], text)
  {
    Seqs.Map(h, (msg: ChatMessage) => if msg.id == id then Failed(msg, text) else msg)
  }

  /** `prev.filter(msg => msg.id !== a && msg.id !== b)`. */
  function RemoveIds(h: seq<ChatMessage>, a: string, b: string): seq<ChatMessage>
  {
    Seqs.Filter(h, (msg: ChatMessage) => msg.id != a && msg.id != b)
  }

  /** Replacing the placeholder of a send changes that one message and nothing else. */
  lemma ReplacePlaceholderOnly(h: seq<ChatMessage>, user: ChatMessage, placeholder: ChatMessage, reply: ChatMessage)
    requires !HasId(h, placeholder.id) && user.id != placeholder.id
    ensures ReplaceById(h + [user, placeholder], placeholder.id, reply) == h + [user, reply]
  {
    var s := h + [user, placeholder];
    var r := ReplaceById(s, placeholder.id, reply);
    forall i | 0 <= i < |r|
      ensures r[i] == (h + [user, reply])[i]
    {
      if i < |h| {
        assert s[i] == h[i];
      }
    }
  }

  /** Failing the placeholder of a send turns it into a finished error message and changes nothing else. */
  lemma FailPlaceholderOnly(h: seq<ChatMessage>, user: ChatMessage, placeholder: ChatMessage, text: string)
    requires !HasId(h, placeholder.id) && user.id != placeholder.id
    ensures MarkFailedById(h + [user, placeholder], placeholder.id, text) == h + [user, Failed(placeholder, text)]
  {
    var s := h + [user, placeholder];
    var r := MarkFailedById(s, placeholder.id, text);
    forall i | 0 <= i < |r|
      ensures r[i] == (h + [user, Failed(placeholder, text)])[i]
    {
      if i < |h| {
        assert s[i] == h[i];
      }
    }
  }

  /** Rolling back a send whose two ids are new to the transcript restores the transcript. */
  lemma RollbackRestores(h: seq<ChatMessage>, user: ChatMessage, placeholder: ChatMessage)
    requires !HasId(h, user.id) && !HasId(h, placeholder.id)
    ensures RemoveIds(h + [user, placeholder], user.id, placeholder.id) == h
  {
    var p := (msg: ChatMessage) => msg.id != user.id && msg.id != placeholder.id;
    assert Seqs.Filter(h, p) == h by {
      forall i | 0 <= i < |h|
        ensures p(h[i])
      {
      }
      Seqs.FilterKeepsAll(h, p);
    }
    assert Seqs.Filter([user, placeholder], p) == [] by {
      Seqs.FilterKeepsNone([user, placeholder], p);
    }
    Seqs.FilterAppend(h, [user, placeholder], p);
  }

  /** A finished, non-blank model message that is not the feature's greeting. */
  predicate IsOutput(m: ChatMessage, greetingPrefix: string)
  {
    m.role == Model && !m.isLoading && !IsBlank(m.content) && !StartsWith(m.content, greetingPrefix)
  }

  /** `history.filter(IsOutput).pop()?.content || null`. */
  function LatestOutput(h: seq<ChatMessage>, greetingPrefix: string): Option<string>
  {
    var outputs := Seqs.Filter(h, (m: ChatMessage) => IsOutput(m, greetingPrefix));
    if outputs == [] then None else Some(outputs[|outputs| - 1].content)
  }

  /**
   * The latest output is the content of the last qualifying message, and there
   * is none exactly when no message qualifies.
   */
  lemma {:induction false} LatestOutputIsLastQualifying(h: seq<ChatMessage>, greetingPrefix: string)
    ensures LatestOutput(h, greetingPrefix).None? <==> forall i :: 0 <= i < |h| ==> !IsOutput(h[i], greetingPrefix)
    ensures LatestOutput(h, greetingPrefix).Some? ==>
      exists i :: 0 <= i < |h| && IsOutput(h[i], greetingPrefix) && LatestOutput(h, greetingPrefix) == Some(h[i].content)
        && forall j :: i < j < |h| ==> !IsOutput(h[j], greetingPrefix)
  {
    if h != [] {
      var init := h[..|h| - 1];
      var last := h[|h| - 1];
      assert h == init + [last];
      LatestOutputSnoc(init, last, greetingPrefix);
      if !IsOutput(last, greetingPrefix) {
        LatestOutputIsLastQualifying(init, greetingPrefix);
        if LatestOutput(init, greetingPrefix).Some? {
          var i :| 0 <= i < |init| && IsOutput(init[i], greetingPrefix)
            && LatestOutput(init, greetingPrefix) == Some(init[i].content)
            && forall j :: i < j < |init| ==> !IsOutput(init[j], greetingPrefix);
          assert h[i] == init[i];
        } else {
          assert forall i :: 0 <= i < |init| ==> h[i] == init[i];
        }
      }
    } else {
      assert Seqs.Filter(h, (m: ChatMessage) => IsOutput(m, greetingPrefix)) == [];
    }
  }

  /** A message appended at the end is the latest output if it qualifies; otherwise nothing changes. */
  lemma LatestOutputSnoc(init: seq<ChatMessage>, last: ChatMessage, greetingPrefix: string)
    ensures LatestOutput(init + [last], greetingPrefix)
      == if IsOutput(last, greetingPrefix) then Some(last.content) else LatestOutput(init, greetingPrefix)
  {
    var p := (m: ChatMessage) => IsOutput(m, greetingPrefix);
    Seqs.FilterAppend(init, [last], p);
    if IsOutput(last, greetingPrefix) {
      assert Seqs.Filter([last], p) == [last];
    } else {
      assert Seqs.Filter([last], p) == [];
    }
  }

  predicate CarriesAnalysis(m: ChatMessage)
  {
    m.role == Model && !m.isLoading && m.analysisData.Some?
  }

  /**
   * The analysis data of the last finished model message that carries one
   * (`history.slice().reverse().find(...)`).
   */
  function LastAnalysisData(h: seq<ChatMessage>): (r: Option<AnalysisResult>)
    ensures r.None? <==> forall i :: 0 <= i < |h| ==> !CarriesAnalysis(h[i])
    ensures r.Some? ==>
      (exists i :: 0 <= i < |h| && CarriesAnalysis(h[i]) && h[i].analysisData == r
                   && forall j :: i < j < |h| ==> !CarriesAnalysis(h[j]))
  {
    if h == [] then None
    else if CarriesAnalysis(h[|h| - 1]) then h[|h| - 1].analysisData
    else
      var r := LastAnalysisData(h[..|h| - 1]);
      assert forall j :: 0 <= j < |h| - 1 ==> h[..|h| - 1][j] == h[j];
      r
  }

  /** Messages that appear in an export: neither system messages nor pending placeholders. */
  predicate IsExportable(m: ChatMessage)
  {
    m.role != System && !m.isLoading
  }

  /** The speaker label: the user's name (or `Bạn`) for user messages, `AI (ABAII)` otherwise. */
  function Speaker(m: ChatMessage, userName: Option<string>): string
  {
    if m.role == User then OrElse(userName, "Bạn") else "AI (ABAII)"
  }

  /** `[time] speaker:\ncontent`, with the locale date rendering given as `stamp`. */
  function MessageBlock(m: ChatMessage, stamp: int -> string, userName: Option<string>): string
  {
    "[" + stamp(m.timestamp) + "] " + Speaker(m, userName) + ":\n" + m.content
  }

  const BlockSeparator: string := "\n\n---\n\n"

  /** The export text: one block per exportable message, in order, joined by the separator. */
  function ExportTranscript(h: seq<ChatMessage>, block: ChatMessage -> string): string
  {
    Join(Seqs.Map(Seqs.Filter(h, IsExportable), block), BlockSeparator)
  }

  /** A system message or a pending placeholder anywhere in the transcript does not affect the export. */
  lemma ExportIgnoresHidden(a: seq<ChatMessage>, m: ChatMessage, b: seq<ChatMessage>, block: ChatMessage -> string)
    requires !IsExportable(m)
    ensures ExportTranscript(a + [m] + b, block) == ExportTranscript(a + b, block)
  {
    Seqs.FilterAppend(a + [m], b, IsExportable);
    Seqs.FilterAppend(a, [m], IsExportable);
    Seqs.FilterAppend(a, b, IsExportable);
    assert Seqs.Filter([m], IsExportable) == [];
    assert Seqs.Filter(a + [m], IsExportable) == Seqs.Filter(a, IsExportable);
  }

  /** Appending an exportable message appends its block, after a separator when the export was non-empty. */
  lemma ExportAppend(h: seq<ChatMessage>, m: ChatMessage, block: ChatMessage -> string)
    requires IsExportable(m)
    ensures ExportTranscript(h + [m], block) ==
      if Seqs.Filter(h, IsExportable) == [] then block(m)
      else ExportTranscript(h, block) + BlockSeparator + block(m)
  {
    var f := Seqs.Filter(h, IsExportable);
    assert Seqs.Filter(h + [m], IsExportable) == f + [m] by {
      Seqs.FilterAppend(h, [m], IsExportable);
      assert [m][1..] == [];
      assert Seqs.Filter([m], IsExportable) == [m];
    }
    assert Seqs.Map(f + [m], block) == Seqs.Map(f, block) + [block(m)] by {
      Seqs.MapAppend(f, [m], block);
    }
    if f != [] {
      JoinSnoc(Seqs.Map(f, block), block(m), BlockSeparator);
    } else {
      assert Seqs.Map(f, block) + [block(m)] == [block(m)];
    }
  }

  function UserMessageCount(h: seq<ChatMessage>): nat
  {
    Seqs.Count(h, (m: ChatMessage) => m.role == User)
  }

  /** A fresh transcript: the feature's system instruction, then its greeting. */
  function InitialChat(systemId: string, instruction: string, greetingId: string, greeting: string, now: int): seq<ChatMessage>
  {
    [ChatMessage(systemId, System, instruction, now, false, None, None, None),
     ChatMessage(greetingId, Model, greeting, now, false, None, None, None)]
  }

  /** A stored non-empty history is used as is; a missing or empty one starts a fresh transcript. */
  function RestoredHistory(stored: Option<seq<ChatMessage>>, initial: seq<ChatMessage>): (r: seq<ChatMessage>)
    ensures stored.Some? && stored.value != [] ==> r == stored.value
    ensures !(stored.Some? && stored.value != []) ==> r == initial
  {
    if stored.Some? && |stored.value| > 0 then stored.value else initial
  }

  /** History is written back only for a signed-in user, after loading, and when there is something to write. */
  predicate ShouldSaveHistory(isAuthenticated: bool, user: Option<UserProfile>, h: seq<ChatMessage>, hasLoadedHistory: bool)
  {
    isAuthenticated && user.Some? && |h| > 0 && hasLoadedHistory
  }

  /** The error text a feature shows for a failed request: the error's message, or the feature's fallback. */
  function FeatureErrorText(message: string): string
  {
    if message != [] then message else "Không thể kết nối hoặc AI gặp sự cố."
  }
}
