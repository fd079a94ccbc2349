/**
 * The voice-note recorder: the note open in the editor, the history of saved
 * notes (kept newest first in local storage), and the text utilities used when
 * a history is downloaded.
 */
module VoiceNotes {
  import opened Wrappers
  import opened Text
  import Seqs
  import NoteTitle

  const UntitledNoteTitle: string := "Ghi chép không có tiêu đề"
  const DefaultTitlePlaceholder: string := "Ghi chép chưa có tiêu đề"
  const NoteIdPrefix: string := "note_"

  datatype Note = Note(id: string, title: string, rawTranscription: string, polishedNote: string,
                       timestamp: int, audioData: Option<string>, audioMimeType: Option<string>)

  /** The `placeholder` attributes of the title, raw and polished panes (empty when missing). */
  datatype Placeholders = Placeholders(title: string, raw: string, polished: string)

  /** What the editor shows: title text, raw text, rendered polished text and whether that is the placeholder. */
  datatype EditorView = EditorView(title: string, raw: string, polishedShown: string, polishedPlaceholderActive: bool)

  // ---------------------------------------------------------------------
  // Ids and ordering

  function Ids(s: seq<Note>): set<string>
  {
    set i | 0 <= i < |s| :: s[i].id
  }

  predicate UniqueIds(s: seq<Note>)
  {
    forall i, j :: 0 <= i < j < |s| ==> s[i].id != s[j].id
  }

  /** Newest first: timestamps never increase along the history. */
  predicate NewestFirst(s: seq<Note>)
  {
    forall i, j :: 0 <= i < j < |s| ==> s[i].timestamp >= s[j].timestamp
  }

  /** `findIndex` by id: the first position holding `id`, or -1. */
  function FirstIndexOfId(s: seq<Note>, id: string): (k: int)
    ensures -1 <= k < |s|
    ensures k == -1 <==> id !in Ids(s)
    ensures k >= 0 ==> s[k].id == id && forall j :: 0 <= j < k ==> s[j].id != id
  {
    if s == [] then -1
    else if s[0].id == id then 0
    else
      var k := FirstIndexOfId(s[1..], id);
      assert Ids(s) == {s[0].id} + Ids(s[1..]) by {
        forall x | x in Ids(s) ensures x in {s[0].id} + Ids(s[1..]) {
          var i :| 0 <= i < |s| && s[i].id == x;
          if i > 0 { assert s[1..][i - 1] == s[i]; }
        }
      }
      if k < 0 then -1 else k + 1
  }

  /** The loop behind `findIndex`. */
  method FindNoteIndex(s: seq<Note>, id: string) returns (k: int)
    ensures k == FirstIndexOfId(s, id)
  {
    k := 0;
    while k < |s|
      invariant 0 <= k <= |s|
      invariant forall j :: 0 <= j < k ==> s[j].id != id
      invariant FirstIndexOfId(s, id) == -1 || FirstIndexOfId(s, id) >= k
    {
      if s[k].id == id {
        return;
      }
      k := k + 1;
    }
    k := -1;
  }

  /** Insertion of one note before the first note that is not newer; an earlier note stays before equal ones. */
  function InsertNewest(x: Note, s: seq<Note>): seq<Note>
  {
    if s == [] then [x]
    else if x.timestamp >= s[0].timestamp then [x] + s
    else [s[0]] + InsertNewest(x, s[1..])
  }

  /** The insertion adds exactly `x`. */
  lemma {:induction false} InsertNewestPermutes(x: Note, s: seq<Note>)
    ensures multiset(InsertNewest(x, s)) == multiset(s) + multiset{x}
    ensures |InsertNewest(x, s)| == |s| + 1
  {
    if s != [] && x.timestamp < s[0].timestamp {
      InsertNewestPermutes(x, s[1..]);
      assert s == [s[0]] + s[1..];
    }
  }

  /** The stable sort by timestamp, newest first, that `sort((a, b) => b.timestamp - a.timestamp)` performs. */
  function SortNewest(s: seq<Note>): seq<Note>
  {
    if s == [] then [] else InsertNewest(s[0], SortNewest(s[1..]))
  }

  /** Inserting behind a newer first note keeps that note in front. */
  lemma InsertNewestBehind(x: Note, s: seq<Note>, k: nat)
    requires k < |s| && s[k].timestamp > x.timestamp
    ensures InsertNewest(x, s[k..]) == [s[k]] + InsertNewest(x, s[k + 1..])
  {
    assert s[k..][0] == s[k];
    assert s[k..][1..] == s[k + 1..];
  }

  /** Inserting in front of a note that is not newer puts `x` first. */
  lemma InsertNewestInFront(x: Note, s: seq<Note>, k: nat)
    requires k <= |s| && (k == |s| || s[k].timestamp <= x.timestamp)
    ensures InsertNewest(x, s[k..]) == [x] + s[k..]
  {
  }

  /** One insertion: the first position whose note is not newer than `x`. */
  method InsertByTimestamp(x: Note, sorted: seq<Note>) returns (r: seq<Note>)
    ensures r == InsertNewest(x, sorted)
  {
    var k := 0;
    assert sorted[0..] == sorted;
    while k < |sorted| && sorted[k].timestamp > x.timestamp
      invariant 0 <= k <= |sorted|
      invariant InsertNewest(x, sorted) == sorted[..k] + InsertNewest(x, sorted[k..])
    {
      InsertNewestBehind(x, sorted, k);
      assert sorted[..k + 1] == sorted[..k] + [sorted[k]];
      Seqs.Assoc(sorted[..k], [sorted[k]], InsertNewest(x, sorted[k + 1..]));
      k := k + 1;
    }
    InsertNewestInFront(x, sorted, k);
    r := sorted[..k] + ([x] + sorted[k..]);
  }

  /** The in-place sort of the history, as insertions from the back. */
  method SortNewestFirst(s: seq<Note>) returns (r: seq<Note>)
    ensures r == SortNewest(s)
  {
    r := [];
    var i := |s|;
    while i > 0
      invariant 0 <= i <= |s|
      invariant r == SortNewest(s[i..])
    {
      i := i - 1;
      assert s[i..][1..] == s[i + 1..];
      r := InsertByTimestamp(s[i], r);
    }
    assert s[0..] == s;
  }

  lemma {:induction false} InsertNewestSorted(x: Note, s: seq<Note>)
    requires NewestFirst(s)
    ensures NewestFirst(InsertNewest(x, s))
  {
    if s != [] && x.timestamp < s[0].timestamp {
      InsertNewestSorted(x, s[1..]);
      InsertNewestBounded(x, s[1..], s[0].timestamp);
      assert InsertNewest(x, s) == [s[0]] + InsertNewest(x, s[1..]);
    }
  }

  /** Inserting a note no newer than `t` among notes no newer than `t` gives notes no newer than `t`. */
  lemma {:induction false} InsertNewestBounded(x: Note, s: seq<Note>, t: int)
    requires x.timestamp <= t && forall i :: 0 <= i < |s| ==> s[i].timestamp <= t
    ensures forall i :: 0 <= i < |InsertNewest(x, s)| ==> InsertNewest(x, s)[i].timestamp <= t
  {
    if s != [] && x.timestamp < s[0].timestamp {
      InsertNewestBounded(x, s[1..], t);
      assert InsertNewest(x, s) == [s[0]] + InsertNewest(x, s[1..]);
    }
  }

  /** The sorted history is newest first and holds exactly the same notes. */
  lemma {:induction false} SortNewestSortsAndPermutes(s: seq<Note>)
    ensures NewestFirst(SortNewest(s))
    ensures multiset(SortNewest(s)) == multiset(s)
  {
    if s != [] {
      SortNewestSortsAndPermutes(s[1..]);
      InsertNewestSorted(s[0], SortNewest(s[1..]));
      InsertNewestPermutes(s[0], SortNewest(s[1..]));
      assert s == [s[0]] + s[1..];
    }
  }

  /** A history that is already newest first is left as it is (the sort is stable). */
  lemma {:induction false} SortNewestOfSorted(s: seq<Note>)
    requires NewestFirst(s)
    ensures SortNewest(s) == s
  {
    if s != [] {
      SortNewestOfSorted(s[1..]);
      assert s == [s[0]] + s[1..];
    }
  }

  /** Notes with the same multiset have the same ids. */
  lemma SameNotesSameIds(a: seq<Note>, b: seq<Note>)
    requires multiset(a) == multiset(b)
    ensures Ids(a) == Ids(b)
  {
    forall x | x in Ids(a) ensures x in Ids(b) {
      var i :| 0 <= i < |a| && a[i].id == x;
      assert a[i] in multiset(b);
      var j :| 0 <= j < |b| && b[j] == a[i];
    }
    forall x | x in Ids(b) ensures x in Ids(a) {
      var i :| 0 <= i < |b| && b[i].id == x;
      assert b[i] in multiset(a);
      var j :| 0 <= j < |a| && a[j] == b[i];
    }
  }

  lemma {:induction false} InsertNewestUnique(x: Note, s: seq<Note>)
    requires UniqueIds(s) && x.id !in Ids(s)
    ensures UniqueIds(InsertNewest(x, s))
  {
    if s != [] && x.timestamp < s[0].timestamp {
      assert Ids(s[1..]) <= Ids(s) by {
        forall y | y in Ids(s[1..]) ensures y in Ids(s) {
          var i :| 0 <= i < |s[1..]| && s[1..][i].id == y;
          assert s[i + 1].id == y;
        }
      }
      InsertNewestUnique(x, s[1..]);
      InsertNewestPermutes(x, s[1..]);
      var r := InsertNewest(x, s[1..]);
      SameNotesSameIds(r, s[1..] + [x]);
      assert s[0].id !in Ids(s[1..] + [x]) by {
        forall i | 0 <= i < |s[1..] + [x]| ensures (s[1..] + [x])[i].id != s[0].id {
          if i < |s| - 1 { assert (s[1..] + [x])[i] == s[i + 1]; }
          else { assert (s[1..] + [x])[i] == x; assert s[0].id in Ids(s); }
        }
      }
      forall k | 0 <= k < |r| ensures r[k].id != s[0].id {
        assert r[k].id in Ids(r);
      }
    }
  }

  /** Sorting keeps ids unique and keeps the set of ids. */
  lemma {:induction false} SortNewestUnique(s: seq<Note>)
    requires UniqueIds(s)
    ensures UniqueIds(SortNewest(s)) && Ids(SortNewest(s)) == Ids(s)
  {
    SortNewestSortsAndPermutes(s);
    SameNotesSameIds(SortNewest(s), s);
    if s != [] {
      SortNewestUnique(s[1..]);
      SortNewestSortsAndPermutes(s[1..]);
      SameNotesSameIds(SortNewest(s[1..]), s[1..]);
      assert s[0].id !in Ids(s[1..]) by {
        forall i | 0 <= i < |s[1..]| ensures s[1..][i].id != s[0].id {
          assert s[1..][i] == s[i + 1];
        }
      }
      InsertNewestUnique(s[0], SortNewest(s[1..]));
    }
  }

  // ---------------------------------------------------------------------
  // Saving the open note

  /** `notes[i] = note` at the first index holding the note's id, or `unshift` when there is none. */
  function Upsert(h: seq<Note>, n: Note): seq<Note>
  {
    var k := FirstIndexOfId(h, n.id);
    if k >= 0 then h[k := n] else [n] + h
  }

  /** `splice(findIndex(...), 1)` when the id is present. */
  function RemoveFirstId(h: seq<Note>, id: string): seq<Note>
  {
    var k := FirstIndexOfId(h, id);
    if k >= 0 then h[..k] + h[k + 1..] else h
  }

  /** Both panes are empty or show only their placeholders: there is nothing worth saving. */
  predicate NothingToSave(view: EditorView, ph: Placeholders)
  {
    var polished := Trim(view.polishedShown);
    var raw := Trim(view.raw);
    (polished == [] || polished == ph.polished) && (raw == [] || raw == ph.raw)
  }

  /** The note written into the history: title, polished markdown, raw text and a fresh timestamp. */
  function SavedNote(n: Note, view: EditorView, ph: Placeholders, now: int): (r: Note)
    ensures r.id == n.id && r.timestamp == now
    ensures r.audioData == n.audioData && r.audioMimeType == n.audioMimeType
    ensures r.polishedNote == (if view.polishedPlaceholderActive then [] else n.polishedNote)
    ensures IsTrimmed(r.rawTranscription) && (r.rawTranscription == [] || r.rawTranscription != ph.raw)
    ensures r.title == UntitledNoteTitle || (IsTrimmed(r.title) && r.title != ph.title)
    ensures var t := Trim(if view.title == [] then UntitledNoteTitle else view.title);
      (t == ph.title ==> r.title == UntitledNoteTitle) && (t != ph.title ==> r.title == t)
    ensures var raw := Trim(view.raw);
      (raw == [] || raw == ph.raw ==> r.rawTranscription == []) && (raw != [] && raw != ph.raw ==> r.rawTranscription == raw)
  {
    var title := Trim(if view.title == [] then UntitledNoteTitle else view.title);
    var raw := Trim(view.raw);
    TrimShape(if view.title == [] then UntitledNoteTitle else view.title);
    TrimShape(view.raw);
    Note(n.id, if title == ph.title then UntitledNoteTitle else title,
         if raw == ph.raw || raw == [] then [] else raw,
         if view.polishedPlaceholderActive then [] else n.polishedNote,
         now, n.audioData, n.audioMimeType)
  }

  /** The open note after `saveCurrentNoteToHistory`: the saved copy, or unchanged when there was nothing to save. */
  function AfterSave(n: Note, view: EditorView, ph: Placeholders, now: int): (r: Note)
    ensures r.id == n.id
    ensures NothingToSave(view, ph) ==> r == n
    ensures !NothingToSave(view, ph) ==> r.timestamp == now && r.audioData == n.audioData
  {
    if NothingToSave(view, ph) then n else SavedNote(n, view, ph, now)
  }

  /** The history after `saveCurrentNoteToHistory` for the open note `n`. */
  function SavedHistory(h: seq<Note>, n: Note, view: EditorView, ph: Placeholders, now: int): seq<Note>
  {
    if NothingToSave(view, ph) then RemoveFirstId(h, n.id)
    else SortNewest(Upsert(h, SavedNote(n, view, ph, now)))
  }

  /**
   * Whether saving `n` writes the history to storage: it does when there is something to save,
   * and when there is nothing to save but the history holds an entry to splice out.
   */
  predicate SaveWrites(h: seq<Note>, n: Note, view: EditorView, ph: Placeholders)
  {
    !NothingToSave(view, ph) || n.id in Ids(h)
  }

  /**
   * The history as seen through the open note while it is the very object the
   * history holds: the first entry with `n`'s id reads as `n`.
   */
  function WithEntry(h: seq<Note>, n: Note): (r: seq<Note>)
    ensures |r| == |h|
    ensures forall i :: 0 <= i < |h| && h[i].id != n.id ==> r[i] == h[i]
    ensures n.id in Ids(h) ==> n in r
  {
    var k := FirstIndexOfId(h, n.id);
    if k >= 0 then assert h[k := n][k] == n; h[k := n] else h
  }

  /**
   * Whatever the shared entry held, the save overwrites or removes it: saving
   * `n` over a history whose entry for `n`'s id was changed in place gives
   * the same history as saving over the unchanged one.
   */
  lemma SavedHistoryOverridesEntry(h: seq<Note>, m: Note, n: Note, view: EditorView, ph: Placeholders, now: int)
    requires m.id == n.id
    ensures SavedHistory(WithEntry(h, m), n, view, ph, now) == SavedHistory(h, n, view, ph, now)
  {
    var k := FirstIndexOfId(h, n.id);
    if k >= 0 {
      var h' := h[k := m];
      FirstIndexOfUpdate(h, k, m);
      assert FirstIndexOfId(h', n.id) == k;
      assert h'[k := SavedNote(n, view, ph, now)] == h[k := SavedNote(n, view, ph, now)];
      assert h'[..k] == h[..k] && h'[k + 1..] == h[k + 1..];
    }
  }

  /** Replacing the first entry with an id by a note with that id keeps it the first entry with that id. */
  lemma FirstIndexOfUpdate(h: seq<Note>, k: nat, m: Note)
    requires k < |h| && FirstIndexOfId(h, m.id) == k
    ensures FirstIndexOfId(h[k := m], m.id) == k
  {
    var h' := h[k := m];
    assert h'[k].id == m.id;
    assert m.id in Ids(h');
  }

  /** Seeing the shared entry through the open note changes no id. */
  lemma WithEntryIds(h: seq<Note>, n: Note)
    ensures Ids(WithEntry(h, n)) == Ids(h)
  {
    var k := FirstIndexOfId(h, n.id);
    if k >= 0 {
      IdsOfUpdate(h, k, n);
    }
  }

  lemma IdsOfUpdate(h: seq<Note>, k: nat, n: Note)
    requires k < |h| && h[k].id == n.id
    ensures Ids(h[k := n]) == Ids(h)
  {
    forall x | x in Ids(h) ensures x in Ids(h[k := n]) {
      var i :| 0 <= i < |h| && h[i].id == x;
      assert h[k := n][i].id == x;
    }
  }

  /** Upserting into a history with distinct ids keeps them distinct, holds `n` and keeps every other note. */
  lemma UpsertKeepsIdsDistinct(h: seq<Note>, n: Note)
    requires UniqueIds(h)
    ensures UniqueIds(Upsert(h, n))
    ensures Ids(Upsert(h, n)) == Ids(h) + {n.id}
    ensures n in Upsert(h, n)
    ensures forall m :: m in h && m.id != n.id ==> m in Upsert(h, n)
  {
    var k := FirstIndexOfId(h, n.id);
    if k >= 0 {
      IdsOfUpdate(h, k, n);
      forall m | m in h && m.id != n.id ensures m in Upsert(h, n) {
        var i :| 0 <= i < |h| && h[i] == m;
        assert h[k := n][i] == m;
      }
    } else {
      var r := [n] + h;
      forall i, j | 0 <= i < j < |r| ensures r[i].id != r[j].id {
        if i == 0 { assert r[j] == h[j - 1]; assert h[j - 1].id in Ids(h); }
        else { assert r[i] == h[i - 1] && r[j] == h[j - 1]; }
      }
      assert r[0] == n;
      forall x | x in Ids(r) ensures x in Ids(h) + {n.id} {
        var i :| 0 <= i < |r| && r[i].id == x;
        if i > 0 { assert r[i] == h[i - 1]; }
      }
      forall x | x in Ids(h) ensures x in Ids(r) {
        var i :| 0 <= i < |h| && h[i].id == x;
        assert r[i + 1] == h[i];
      }
    }
  }

  /** Removing the first note with an id from a history with distinct ids removes that id and nothing else. */
  lemma RemoveFirstIdRemoves(h: seq<Note>, id: string)
    requires UniqueIds(h)
    ensures UniqueIds(RemoveFirstId(h, id))
    ensures Ids(RemoveFirstId(h, id)) == Ids(h) - {id}
    ensures NewestFirst(h) ==> NewestFirst(RemoveFirstId(h, id))
  {
    var k := FirstIndexOfId(h, id);
    if k >= 0 {
      RemoveAtOrder(h, k);
      RemoveAtIds(h, k);
    }
  }

  lemma RemoveAtOrder(h: seq<Note>, k: nat)
    requires k < |h|
    ensures UniqueIds(h) ==> UniqueIds(h[..k] + h[k + 1..])
    ensures NewestFirst(h) ==> NewestFirst(h[..k] + h[k + 1..])
  {
    var r := h[..k] + h[k + 1..];
    RemoveAtShape(h, k);
    forall i, j | 0 <= i < j < |r|
      ensures UniqueIds(h) ==> r[i].id != r[j].id
      ensures NewestFirst(h) ==> r[i].timestamp >= r[j].timestamp
    {
      var i' := if i < k then i else i + 1;
      var j' := if j < k then j else j + 1;
      assert r[i] == h[i'] && r[j] == h[j'] && i' < j';
    }
  }

  lemma RemoveAtIds(h: seq<Note>, k: nat)
    requires k < |h| && UniqueIds(h)
    ensures Ids(h[..k] + h[k + 1..]) == Ids(h) - {h[k].id}
  {
    var r := h[..k] + h[k + 1..];
    RemoveAtShape(h, k);
    forall x | x in Ids(r) ensures x in Ids(h) - {h[k].id} {
      var i :| 0 <= i < |r| && r[i].id == x;
      var i' := if i < k then i else i + 1;
      assert r[i] == h[i'];
    }
    forall x | x in Ids(h) - {h[k].id} ensures x in Ids(r) {
      var i :| 0 <= i < |h| && h[i].id == x;
      if i < k { assert r[i] == h[i]; } else { assert r[i - 1] == h[i]; }
    }
  }

  lemma RemoveAtShape(h: seq<Note>, k: nat)
    requires k < |h|
    ensures |h[..k] + h[k + 1..]| == |h| - 1
    ensures forall i :: 0 <= i < k ==> (h[..k] + h[k + 1..])[i] == h[i]
    ensures forall i :: k < i < |h| ==> (h[..k] + h[k + 1..])[i - 1] == h[i]
  {
  }

  /** A well-kept history: ids are distinct and notes are newest first. */
  predicate ValidHistory(h: seq<Note>)
  {
    UniqueIds(h) && NewestFirst(h)
  }

  /**
   * Saving keeps the history well kept; the open note's id is in the history exactly
   * when there was something to save, and every other note stays.
   */
  lemma SavedHistoryValid(h: seq<Note>, n: Note, view: EditorView, ph: Placeholders, now: int)
    requires ValidHistory(h)
    ensures ValidHistory(SavedHistory(h, n, view, ph, now))
    ensures n.id in Ids(SavedHistory(h, n, view, ph, now)) <==> !NothingToSave(view, ph)
    ensures Ids(SavedHistory(h, n, view, ph, now)) - {n.id} == Ids(h) - {n.id}
    ensures !NothingToSave(view, ph) ==> SavedNote(n, view, ph, now) in SavedHistory(h, n, view, ph, now)
  {
    if NothingToSave(view, ph) {
      RemoveFirstIdRemoves(h, n.id);
    } else {
      var u := Upsert(h, SavedNote(n, view, ph, now));
      UpsertKeepsIdsDistinct(h, SavedNote(n, view, ph, now));
      SortNewestUnique(u);
      SortNewestSortsAndPermutes(u);
      assert SavedNote(n, view, ph, now) in multiset(SortNewest(u));
    }
  }

  /** The editor right after `createNewNote`: both panes show their placeholders. */
  function FreshView(ph: Placeholders): EditorView
  {
    EditorView(if ph.title == [] then DefaultTitlePlaceholder else ph.title, ph.raw, ph.polished, true)
  }

  /** Saving a note that was just created and never edited changes nothing when the history does not hold it. */
  lemma FreshNoteNotSaved(h: seq<Note>, n: Note, ph: Placeholders, now: int)
    requires IsTrimmed(ph.raw) && IsTrimmed(ph.polished)
    requires n.id !in Ids(h)
    ensures NothingToSave(FreshView(ph), ph)
    ensures SavedHistory(h, n, FreshView(ph), ph, now) == h
  {
    TrimOfTrimmed(ph.raw);
    TrimOfTrimmed(ph.polished);
  }

  // ---------------------------------------------------------------------
  // Deleting from the history

  function WithoutId(h: seq<Note>, noteId: string): seq<Note>
  {
    Seqs.Filter(h, (n: Note) => n.id != noteId)
  }

  /**
   * `deleteNoteFromHistory` as written: it filters the note out and, when it was the open note,
   * calls `createNewNote()` with its default `savePrevious = true`, which saves the open note first.
   */
  function DeleteAsWritten(h: seq<Note>, current: Option<Note>, view: EditorView, ph: Placeholders,
                           now: int, noteId: string): seq<Note>
  {
    var kept := WithoutId(h, noteId);
    if current.Some? && current.value.id == noteId then SavedHistory(kept, current.value, view, ph, now)
    else kept
  }

  /** The deletion as intended: the open note is replaced without being saved again. */
  function DeleteNote(h: seq<Note>, noteId: string): seq<Note>
  {
    WithoutId(h, noteId)
  }

  lemma WithoutIdValid(h: seq<Note>, noteId: string)
    requires ValidHistory(h)
    ensures ValidHistory(WithoutId(h, noteId))
    ensures Ids(WithoutId(h, noteId)) == Ids(h) - {noteId}
  {
    var p := (n: Note) => n.id != noteId;
    var r := WithoutId(h, noteId);
    FilterSublist(h, p);
    forall x | x in Ids(h) - {noteId} ensures x in Ids(r) {
      var i :| 0 <= i < |h| && h[i].id == x;
      Seqs.FilterMembership(h, p, h[i]);
      var j :| 0 <= j < |r| && r[j] == h[i];
    }
    forall x | x in Ids(r) ensures x in Ids(h) - {noteId} {
      var j :| 0 <= j < |r| && r[j].id == x;
      assert r[j] in h;
      var i :| 0 <= i < |h| && h[i] == r[j];
    }
  }

  /** A filtered history is an order-preserving selection of the original. */
  lemma {:induction false} FilterSublist(h: seq<Note>, p: Note -> bool)
    ensures ValidHistory(h) ==> ValidHistory(Seqs.Filter(h, p))
  {
    if h != [] && ValidHistory(h) {
      FilterSublist(h[1..], p);
      assert ValidHistory(h[1..]);
      var rest := Seqs.Filter(h[1..], p);
      forall m | m in rest ensures m.timestamp <= h[0].timestamp && m.id != h[0].id {
        var i :| 0 <= i < |h[1..]| && h[1..][i] == m;
        assert h[i + 1] == m;
      }
      assert Seqs.Filter(h, p) == if p(h[0]) then [h[0]] + rest else rest;
    }
  }

  /** As written, deleting the open note that has content puts it straight back into the history. */
  lemma DeleteAsWrittenRestoresOpenNote(h: seq<Note>, n: Note, view: EditorView, ph: Placeholders, now: int)
    requires ValidHistory(h) && n.id in Ids(h)
    requires !NothingToSave(view, ph)
    ensures n.id in Ids(DeleteAsWritten(h, Some(n), view, ph, now, n.id))
  {
    WithoutIdValid(h, n.id);
    SavedHistoryValid(WithoutId(h, n.id), n, view, ph, now);
  }

  /** The intended deletion removes the note and keeps every other one, in order. */
  lemma DeleteNoteRemoves(h: seq<Note>, noteId: string)
    requires ValidHistory(h)
    ensures ValidHistory(DeleteNote(h, noteId))
    ensures Ids(DeleteNote(h, noteId)) == Ids(h) - {noteId}
  {
    WithoutIdValid(h, noteId);
  }

  /** The title placeholder as `createNewNote` and `updatePolishedNoteUI` read it, with their default. */
  function TitlePlaceholder(ph: Placeholders): string
  {
    if ph.title == [] then DefaultTitlePlaceholder else ph.title
  }

  /** The editor after a note is opened: its title, its raw text or the raw placeholder, and its polished pane. */
  function LoadedView(n: Note, rendered: string, ph: Placeholders): EditorView
  {
    var hasPolished := Trim(n.polishedNote) != [];
    EditorView(n.title, if n.rawTranscription == [] then ph.raw else n.rawTranscription,
               if hasPolished then rendered else ph.polished, !hasPolished)
  }

  /**
   * Reopening a note in the shape saving produces and saving it again without edits changes
   * only its timestamp.
   */
  lemma ReopenedNoteSavesUnchanged(n: Note, rendered: string, ph: Placeholders, now: int)
    requires IsTrimmed(ph.raw)
    requires n.title != [] && IsTrimmed(n.title) && n.title != ph.title
    requires IsTrimmed(n.rawTranscription) && (n.rawTranscription == [] || n.rawTranscription != ph.raw)
    requires n.polishedNote == [] || Trim(n.polishedNote) != []
    ensures SavedNote(n, LoadedView(n, rendered, ph), ph, now) == n.(timestamp := now)
  {
    TrimOfTrimmed(n.title);
    TrimOfTrimmed(n.rawTranscription);
    TrimOfTrimmed(ph.raw);
  }

  /**
   * The note `createNewNote` opens: id `note_<now>`, everything else empty.
   * The source reads the clock twice (for the id and for the timestamp); one
   * reading `now` stands for both.
   */
  function NewNote(now: int): (n: Note)
    ensures n.id == NoteIdPrefix + IntToString(now) && n.timestamp == now
    ensures n.title == [] && n.rawTranscription == [] && n.polishedNote == []
  {
    Note(NoteIdPrefix + IntToString(now), [], [], [], now, None, None)
  }

  /** The history start-up reads: the parsed stored list, empty when nothing is stored or it does not parse. */
  function StartupHistory(saved: Option<string>, decode: string -> Option<seq<Note>>): seq<Note>
  {
    if saved.Some? && saved.value != [] && decode(saved.value).Some? then decode(saved.value).value else []
  }

  /**
   * Saving is stable: a saved note, opened in the editor and saved again without edits,
   * is the same note with the later timestamp.
   */
  lemma SavedNoteStable(n: Note, view: EditorView, ph: Placeholders, t1: int, rendered: string, t2: int)
    requires IsTrimmed(ph.raw)
    requires view.title == [] || Trim(view.title) != []
    requires view.polishedPlaceholderActive || n.polishedNote == [] || Trim(n.polishedNote) != []
    ensures var saved := SavedNote(n, view, ph, t1);
      SavedNote(saved, LoadedView(saved, rendered, ph), ph, t2) == saved.(timestamp := t2)
  {
    var saved := SavedNote(n, view, ph, t1);
    var again := SavedNote(saved, LoadedView(saved, rendered, ph), ph, t2);
    SavedTitleStable(n, view, ph, t1);
    SavedRawStable(saved, ph);
    assert again.title == saved.title;
    assert again.rawTranscription == saved.rawTranscription;
  }

  /** A saved title is never empty and reads the same when the editor shows it and it is saved again. */
  lemma SavedTitleStable(n: Note, view: EditorView, ph: Placeholders, now: int)
    requires view.title == [] || Trim(view.title) != []
    ensures var t := SavedNote(n, view, ph, now).title;
      t != [] && Trim(t) == t && (t == ph.title ==> t == UntitledNoteTitle)
  {
    var t := SavedNote(n, view, ph, now).title;
    UntitledTitleTrimmed();
    TrimOfTrimmed(t);
  }

  lemma UntitledTitleTrimmed()
    ensures UntitledNoteTitle != [] && IsTrimmed(UntitledNoteTitle)
  {
  }

  /** A saved raw text survives the raw pane's placeholder: the pane shows it, or the placeholder when it is empty. */
  lemma SavedRawStable(saved: Note, ph: Placeholders)
    requires IsTrimmed(ph.raw)
    requires IsTrimmed(saved.rawTranscription) && (saved.rawTranscription == [] || saved.rawTranscription != ph.raw)
    ensures var shown := if saved.rawTranscription == [] then ph.raw else saved.rawTranscription;
      var raw := Trim(shown);
      (raw == [] || raw == ph.raw ==> saved.rawTranscription == []) && (raw != [] && raw != ph.raw ==> raw == saved.rawTranscription)
  {
    TrimOfTrimmed(ph.raw);
    TrimOfTrimmed(saved.rawTranscription);
  }

  function Opened(n: Note): (r: Note)
    ensures r.id == n.id && r.polishedNote == n.polishedNote && r.rawTranscription == n.rawTranscription
    ensures r.title != [] && (n.title != [] ==> r.title == n.title)
  {
    n.(title := if n.title == [] then UntitledNoteTitle else n.title)
  }

  /** The recorder page: the open note, the history, what local storage holds and what the editor shows. */
  class VoiceNotesApp {
    const ph: Placeholders
    var currentNote: Option<Note>
    var notesHistory: seq<Note>
    /** The history as last written to local storage. */
    var stored: seq<Note>
    var editorTitle: string
    var rawText: string
    /** The visible text of the polished pane (the rendered markdown or its placeholder). */
    var polishedShown: string
    var polishedPlaceholderActive: bool
    var isRecording: bool
    /**
     * The open note is the very object the history holds under its id: it was
     * opened from the history and no save has replaced that entry by a copy
     * since, so a change made to the open note is made to the entry as well.
     */
    var sharedWithHistory: bool

    function View(): EditorView
      reads this`editorTitle, this`rawText, this`polishedShown, this`polishedPlaceholderActive
    {
      EditorView(editorTitle, rawText, polishedShown, polishedPlaceholderActive)
    }

    /** Starts with the history from storage, then opens the newest note or a fresh one. */
    constructor (ph: Placeholders, saved: Option<string>, decode: string -> Option<seq<Note>>,
                 rendered: string, now: int)
      ensures this.ph == ph && stored == [] && !isRecording
      ensures var h := StartupHistory(saved, decode);
        if h == [] then
          currentNote == Some(NewNote(now)) && View() == FreshView(ph) && notesHistory == [] && !sharedWithHistory
        else
          currentNote == Some(Opened(h[0])) && View() == LoadedView(h[0], rendered, ph)
          && notesHistory == h[0 := Opened(h[0])] && sharedWithHistory
    {
      this.ph := ph;
      currentNote := None;
      notesHistory := [];
      stored := [];
      editorTitle := [];
      rawText := [];
      polishedShown := [];
      polishedPlaceholderActive := false;
      isRecording := false;
      sharedWithHistory := false;
      new;
      LoadHistory(saved, decode);
      OpenInitialNote(rendered, now);
    }

    /**
     * The end of start-up, with no note open yet: opens the newest note of the
     * history, or a fresh note when there is none. The newest entry is opened
     * as the history's own object, so the untitled label given to an empty
     * title shows in the history too.
     */
    method OpenInitialNote(rendered: string, now: int)
      requires currentNote.None? && !isRecording
      modifies this`currentNote, this`notesHistory, this`stored, this`editorTitle, this`rawText, this`polishedShown,
        this`polishedPlaceholderActive, this`isRecording, this`sharedWithHistory
      ensures stored == old(stored) && !isRecording
      ensures old(notesHistory) == [] ==>
        currentNote == Some(NewNote(now)) && View() == FreshView(ph) && notesHistory == [] && !sharedWithHistory
      ensures old(notesHistory) != [] ==>
        var n := old(notesHistory)[0];
        currentNote == Some(Opened(n)) && View() == LoadedView(n, rendered, ph)
        && notesHistory == old(notesHistory)[0 := Opened(n)] && sharedWithHistory
    {
      if |notesHistory| == 0 {
        CreateNewNote(true, now);
      } else {
        ghost var h := notesHistory;
        LoadNoteIntoEditor(notesHistory[0], false, rendered, now);
        assert FirstIndexOfId(h, h[0].id) == 0;
      }
    }

    /** Reads the stored history; a value that does not parse leaves an empty history. */
    method LoadHistory(saved: Option<string>, decode: string -> Option<seq<Note>>)
      modifies this`notesHistory
      ensures saved.None? || saved.value == [] ==> notesHistory == old(notesHistory)
      ensures saved.Some? && saved.value != [] ==>
        notesHistory == (if decode(saved.value).Some? then decode(saved.value).value else [])
    {
      if saved.Some? && saved.value != [] {
        match decode(saved.value)
        case Some(h) => notesHistory := h;
        case None => notesHistory := [];
      }
    }

    /**
     * Writes the open note into the history, or drops its entry when the editor holds nothing.
     * Either way the entry no longer is the open note's object.
     */
    method SaveCurrentNoteToHistory(now: int)
      modifies this`currentNote, this`notesHistory, this`stored, this`sharedWithHistory
      ensures old(currentNote).None? ==> notesHistory == old(notesHistory) && currentNote == old(currentNote)
      ensures old(currentNote).Some? ==>
        notesHistory == SavedHistory(old(notesHistory), old(currentNote).value, View(), ph, now)
        && currentNote == Some(AfterSave(old(currentNote).value, View(), ph, now))
      ensures NothingToSave(View(), ph) ==> currentNote == old(currentNote)
      ensures stored == if old(currentNote).Some? && SaveWrites(old(notesHistory), old(currentNote).value, View(), ph)
        then notesHistory else old(stored)
      ensures sharedWithHistory == (old(currentNote).None? && old(sharedWithHistory))
    {
      if currentNote.None? {
        return;
      }
      sharedWithHistory := false;
      var n := currentNote.value;
      var view := View();
      ghost var h0 := notesHistory;
      if NothingToSave(view, ph) {
        DropEntry(n.id);
        assert View() == view;
        assert SavedHistory(h0, n, view, ph, now) == RemoveFirstId(h0, n.id);
        assert SaveWrites(h0, n, view, ph) == (n.id in Ids(h0));
        return;
      }
      var saved := SavedNote(n, view, ph, now);
      currentNote := Some(saved);
      WriteEntry(saved);
      assert View() == view;
      assert SavedHistory(h0, n, view, ph, now) == notesHistory;
      assert SaveWrites(h0, n, view, ph);
    }

    /** The `splice` branch: removes the first entry with the id and stores the history if it held one. */
    method DropEntry(id: string)
      modifies this`notesHistory, this`stored
      ensures notesHistory == RemoveFirstId(old(notesHistory), id)
      ensures stored == if id in Ids(old(notesHistory)) then notesHistory else old(stored)
    {
      var k := FindNoteIndex(notesHistory, id);
      if k > -1 {
        notesHistory := notesHistory[..k] + notesHistory[k + 1..];
        stored := notesHistory;
      }
    }

    /** Replaces or prepends the entry, sorts newest first and stores the history. */
    method WriteEntry(saved: Note)
      modifies this`notesHistory, this`stored
      ensures notesHistory == SortNewest(Upsert(old(notesHistory), saved)) && stored == notesHistory
    {
      var k := FindNoteIndex(notesHistory, saved.id);
      if k > -1 {
        notesHistory := notesHistory[k := saved];
      } else {
        notesHistory := [saved] + notesHistory;
      }
      notesHistory := SortNewestFirst(notesHistory);
      stored := notesHistory;
    }

    /** Saves the open note when asked to, then opens an empty note with every pane on its placeholder. */
    method CreateNewNote(savePrevious: bool, now: int)
      modifies this`currentNote, this`notesHistory, this`stored, this`editorTitle, this`rawText, this`polishedShown,
        this`polishedPlaceholderActive, this`isRecording, this`sharedWithHistory
      ensures notesHistory == if savePrevious && old(currentNote).Some?
        then SavedHistory(old(notesHistory), old(currentNote).value, old(View()), ph, now)
        else old(notesHistory)
      ensures stored == if savePrevious && old(currentNote).Some?
          && SaveWrites(old(notesHistory), old(currentNote).value, old(View()), ph)
        then notesHistory else old(stored)
      ensures currentNote == Some(NewNote(now))
      ensures View() == FreshView(ph)
      ensures !isRecording && !sharedWithHistory
    {
      if savePrevious {
        ghost var view := View();
        SaveCurrentNoteToHistory(now);
        assert View() == view;
      }
      OpenFreshNote(now);
    }

    /** Opens an empty note with every pane on its placeholder. */
    method OpenFreshNote(now: int)
      modifies this`currentNote, this`editorTitle, this`rawText, this`polishedShown,
        this`polishedPlaceholderActive, this`isRecording, this`sharedWithHistory
      ensures currentNote == Some(NewNote(now))
      ensures View() == FreshView(ph)
      ensures !isRecording && !sharedWithHistory
    {
      currentNote := Some(NewNote(now));
      sharedWithHistory := false;
      rawText := ph.raw;
      polishedShown := ph.polished;
      polishedPlaceholderActive := true;
      editorTitle := TitlePlaceholder(ph);
      isRecording := false;
    }

    /**
     * Shows new polished markdown. Unless it comes from the history, the title is taken from it
     * and the note is saved.
     */
    method UpdatePolishedNoteUI(polishedText: string, rendered: string, fromHistory: bool, now: int)
      modifies this`currentNote, this`notesHistory, this`stored, this`editorTitle, this`polishedShown,
        this`polishedPlaceholderActive, this`sharedWithHistory
      ensures Trim(polishedText) != [] ==> polishedShown == rendered && !polishedPlaceholderActive
      ensures Trim(polishedText) == [] ==> polishedShown == ph.polished && polishedPlaceholderActive
      ensures fromHistory ==> editorTitle == old(editorTitle)
      ensures !fromHistory ==> editorTitle == NoteTitle.ShownTitle(old(editorTitle), TitlePlaceholder(ph),
        NoteTitle.TitleOf(NoteTitle.Lines(polishedText), NoteTitle.Recorder))
      ensures old(currentNote).None? ==>
        currentNote.None? && notesHistory == old(notesHistory) && sharedWithHistory == old(sharedWithHistory)
      ensures fromHistory || old(currentNote).None? ==> stored == old(stored)
      ensures old(currentNote).Some? ==>
        var n := old(currentNote).value.(polishedNote := polishedText,
                                         title := if editorTitle == [] then UntitledNoteTitle else editorTitle);
        if fromHistory then
          currentNote == Some(n) && sharedWithHistory == old(sharedWithHistory)
          && notesHistory == (if old(sharedWithHistory) then WithEntry(old(notesHistory), n) else old(notesHistory))
        else
          currentNote == Some(AfterSave(n, View(), ph, now)) && !sharedWithHistory
          && notesHistory == SavedHistory(old(notesHistory), n, View(), ph, now)
          && stored == (if SaveWrites(old(notesHistory), n, View(), ph) then notesHistory else old(stored))
    {
      ghost var note0, history0 := currentNote, notesHistory;
      ShowPolished(polishedText, rendered);
      if !fromHistory {
        var extracted := NoteTitle.ExtractTitle(polishedText, NoteTitle.Recorder);
        editorTitle := NoteTitle.ShownTitle(editorTitle, TitlePlaceholder(ph), extracted);
      }
      assert currentNote == note0 && notesHistory == history0;
      var view := View();
      var title := editorTitle;
      StorePolished(polishedText, fromHistory, now);
      assert View() == view && editorTitle == title;
    }

    /**
     * The note half of `updatePolishedNoteUI`: the open note takes the markdown and the shown title,
     * which its history entry sees too while the two are one object; outside a history load the
     * note is then saved.
     */
    method StorePolished(polishedText: string, fromHistory: bool, now: int)
      modifies this`currentNote, this`notesHistory, this`stored, this`sharedWithHistory
      ensures old(currentNote).None? ==>
        currentNote.None? && notesHistory == old(notesHistory) && sharedWithHistory == old(sharedWithHistory)
      ensures fromHistory || old(currentNote).None? ==> stored == old(stored)
      ensures old(currentNote).Some? ==>
        var n := old(currentNote).value.(polishedNote := polishedText,
                                         title := if editorTitle == [] then UntitledNoteTitle else editorTitle);
        if fromHistory then
          currentNote == Some(n) && sharedWithHistory == old(sharedWithHistory)
          && notesHistory == (if old(sharedWithHistory) then WithEntry(old(notesHistory), n) else old(notesHistory))
        else
          currentNote == Some(AfterSave(n, View(), ph, now)) && !sharedWithHistory
          && notesHistory == SavedHistory(old(notesHistory), n, View(), ph, now)
          && stored == (if SaveWrites(old(notesHistory), n, View(), ph) then notesHistory else old(stored))
    {
      if currentNote.Some? {
        var n := currentNote.value.(polishedNote := polishedText,
                                    title := if editorTitle == [] then UntitledNoteTitle else editorTitle);
        currentNote := Some(n);
        ghost var h0 := notesHistory;
        if sharedWithHistory {
          notesHistory := WithEntry(notesHistory, n);
        }
        if !fromHistory {
          WithEntryIds(h0, n);
          SaveCurrentNoteToHistory(now);
          SavedHistoryOverridesEntry(h0, n, n, View(), ph, now);
        }
      }
    }

    /** Renders the markdown into the polished pane, or shows the placeholder when it is blank. */
    method ShowPolished(polishedText: string, rendered: string)
      modifies this`polishedShown, this`polishedPlaceholderActive
      ensures Trim(polishedText) != [] ==> polishedShown == rendered && !polishedPlaceholderActive
      ensures Trim(polishedText) == [] ==> polishedShown == ph.polished && polishedPlaceholderActive
    {
      if Trim(polishedText) != [] {
        polishedShown := rendered;
        polishedPlaceholderActive := false;
      } else {
        polishedShown := ph.polished;
        polishedPlaceholderActive := true;
      }
    }

    /**
     * Saves the open note, then shows `note`, an entry of the history. When `isOpenNote`,
     * `note` is the open note's own object, which the save has just updated, so the note
     * shown is the open note as saved. The note opened is shared with the history unless
     * the save replaced or removed the entry under its id.
     */
    method LoadNoteIntoEditor(note: Note, isOpenNote: bool, rendered: string, now: int)
      requires isOpenNote ==> currentNote.Some? && currentNote.value.id == note.id
      modifies this`currentNote, this`notesHistory, this`stored, this`editorTitle, this`rawText, this`polishedShown,
        this`polishedPlaceholderActive, this`sharedWithHistory
      ensures var saved := if old(currentNote).Some?
          then SavedHistory(old(notesHistory), old(currentNote).value, old(View()), ph, now)
          else old(notesHistory);
        var loaded := if isOpenNote then AfterSave(old(currentNote).value, old(View()), ph, now) else note;
        && currentNote == Some(Opened(loaded))
        && View() == LoadedView(loaded, rendered, ph)
        && sharedWithHistory == !(old(currentNote).Some? && old(currentNote).value.id == note.id)
        && notesHistory == (if sharedWithHistory then WithEntry(saved, Opened(loaded)) else saved)
        && stored == (if old(currentNote).Some? && SaveWrites(old(notesHistory), old(currentNote).value, old(View()), ph)
                      then saved else old(stored))
      ensures isRecording == old(isRecording)
    {
      var replacesEntry := currentNote.Some? && currentNote.value.id == note.id;
      ghost var view := View();
      SaveCurrentNoteToHistory(now);
      assert View() == view;
      var loaded := if isOpenNote then currentNote.value else note;
      ShowLoaded(loaded, !replacesEntry, rendered, now);
    }

    /** Puts `loaded` into the editor as the open note; when `shared`, it is the history entry's own object. */
    method ShowLoaded(loaded: Note, shared: bool, rendered: string, now: int)
      modifies this`currentNote, this`notesHistory, this`stored, this`editorTitle, this`rawText, this`polishedShown,
        this`polishedPlaceholderActive, this`sharedWithHistory
      ensures currentNote == Some(Opened(loaded)) && View() == LoadedView(loaded, rendered, ph)
      ensures sharedWithHistory == shared
      ensures notesHistory == if shared then WithEntry(old(notesHistory), Opened(loaded)) else old(notesHistory)
      ensures stored == old(stored)
    {
      sharedWithHistory := shared;
      currentNote := Some(loaded);
      editorTitle := loaded.title;
      rawText := if loaded.rawTranscription == [] then ph.raw else loaded.rawTranscription;
      UpdatePolishedNoteUI(loaded.polishedNote, rendered, true, now);
    }

    /**
     * A click on a history entry: the note with that id is looked up, then opened. When the
     * open note is that entry's own object, the save inside the opening updates it, and the
     * note shown is the open note as saved; otherwise it is the entry as it was before the save.
     */
    method OpenFromHistory(noteId: string, rendered: string, now: int)
      modifies this`currentNote, this`notesHistory, this`stored, this`editorTitle, this`rawText, this`polishedShown,
        this`polishedPlaceholderActive, this`sharedWithHistory
      ensures noteId !in Ids(old(notesHistory)) ==>
        notesHistory == old(notesHistory) && currentNote == old(currentNote) && View() == old(View())
        && sharedWithHistory == old(sharedWithHistory) && stored == old(stored)
      ensures noteId in Ids(old(notesHistory)) ==>
        var isOpenNote := old(sharedWithHistory) && old(currentNote).Some? && old(currentNote).value.id == noteId;
        var loaded := if isOpenNote then AfterSave(old(currentNote).value, old(View()), ph, now)
          else old(notesHistory)[FirstIndexOfId(old(notesHistory), noteId)];
        var saved := if old(currentNote).Some?
          then SavedHistory(old(notesHistory), old(currentNote).value, old(View()), ph, now)
          else old(notesHistory);
        && loaded.id == noteId
        && currentNote == Some(Opened(loaded))
        && View() == LoadedView(loaded, rendered, ph)
        && sharedWithHistory == !(old(currentNote).Some? && old(currentNote).value.id == noteId)
        && notesHistory == (if sharedWithHistory then WithEntry(saved, Opened(loaded)) else saved)
        && stored == (if old(currentNote).Some? && SaveWrites(old(notesHistory), old(currentNote).value, old(View()), ph)
                      then saved else old(stored))
    {
      var k := FindNoteIndex(notesHistory, noteId);
      if k >= 0 {
        var isOpenNote := sharedWithHistory && currentNote.Some? && currentNote.value.id == noteId;
        LoadNoteIntoEditor(notesHistory[k], isOpenNote, rendered, now);
      }
    }

    /** `deleteNoteFromHistory` as written: the fresh note is created with `savePrevious` left at `true`. */
    method DeleteNoteFromHistoryAsWritten(noteId: string, now: int)
      modifies this`currentNote, this`notesHistory, this`stored, this`editorTitle, this`rawText, this`polishedShown,
        this`polishedPlaceholderActive, this`isRecording, this`sharedWithHistory
      ensures notesHistory == DeleteAsWritten(old(notesHistory), old(currentNote), old(View()), ph, now, noteId)
      ensures old(currentNote).Some? && old(currentNote).value.id == noteId ==>
        currentNote == Some(NewNote(now)) && View() == FreshView(ph) && !isRecording && !sharedWithHistory
        && stored == (if SaveWrites(WithoutId(old(notesHistory), noteId), old(currentNote).value, old(View()), ph)
                      then notesHistory else WithoutId(old(notesHistory), noteId))
      ensures !(old(currentNote).Some? && old(currentNote).value.id == noteId) ==>
        currentNote == old(currentNote) && View() == old(View()) && isRecording == old(isRecording)
        && sharedWithHistory == old(sharedWithHistory) && stored == notesHistory
    {
      notesHistory := WithoutId(notesHistory, noteId);
      stored := notesHistory;
      if currentNote.Some? && currentNote.value.id == noteId {
        CreateNewNote(true, now);
      }
    }

    /**
     * Deletes every entry with the id; deleting the open note opens a fresh one without saving.
     * The filter keeps the other entries' objects, so an open note shared with its entry stays so.
     */
    method DeleteNoteFromHistory(noteId: string, now: int)
      modifies this`currentNote, this`notesHistory, this`stored, this`editorTitle, this`rawText, this`polishedShown,
        this`polishedPlaceholderActive, this`isRecording, this`sharedWithHistory
      ensures notesHistory == DeleteNote(old(notesHistory), noteId) && stored == notesHistory
      ensures old(currentNote).Some? && old(currentNote).value.id == noteId ==>
        currentNote == Some(NewNote(now)) && View() == FreshView(ph) && !sharedWithHistory && !isRecording
      ensures !(old(currentNote).Some? && old(currentNote).value.id == noteId) ==>
        currentNote == old(currentNote) && View() == old(View()) && sharedWithHistory == old(sharedWithHistory)
        && isRecording == old(isRecording)
    {
      notesHistory := WithoutId(notesHistory, noteId);
      stored := notesHistory;
      if currentNote.Some? && currentNote.value.id == noteId {
        CreateNewNote(false, now);
      }
    }

    /**
     * The start of `downloadAsDocx`: saves the open note, refuses an empty history and otherwise
     * hands the notes on oldest first.
     */
    method NotesForDownload(now: int) returns (refused: bool, chronological: seq<Note>)
      modifies this`currentNote, this`notesHistory, this`stored, this`sharedWithHistory
      ensures notesHistory == if old(currentNote).Some?
        then SavedHistory(old(notesHistory), old(currentNote).value, old(View()), ph, now)
        else old(notesHistory)
      ensures stored == if old(currentNote).Some? && SaveWrites(old(notesHistory), old(currentNote).value, View(), ph)
        then notesHistory else old(stored)
      ensures currentNote == if old(currentNote).Some? then Some(AfterSave(old(currentNote).value, View(), ph, now))
        else old(currentNote)
      ensures sharedWithHistory == (old(currentNote).None? && old(sharedWithHistory))
      ensures refused <==> notesHistory == []
      ensures !refused ==> chronological == Reversed(notesHistory)
      ensures refused ==> chronological == []
    {
      SaveCurrentNoteToHistory(now);
      if |notesHistory| == 0 {
        return true, [];
      }
      chronological := Reversed(notesHistory);
      refused := false;
    }
  }

  function Reversed(s: seq<Note>): (r: seq<Note>)
    ensures |r| == |s|
    ensures forall i :: 0 <= i < |s| ==> r[i] == s[|s| - 1 - i]
  {
    if s == [] then [] else Reversed(s[1..]) + [s[0]]
  }

  /** A newest-first history read backwards is oldest first, with the same notes. */
  lemma ReversedIsChronological(h: seq<Note>)
    requires NewestFirst(h)
    ensures forall i, j :: 0 <= i < j < |h| ==> Reversed(h)[i].timestamp <= Reversed(h)[j].timestamp
    ensures multiset(Reversed(h)) == multiset(h)
  {
    ReversedPermutes(h);
  }

  lemma {:induction false} ReversedPermutes(h: seq<Note>)
    ensures multiset(Reversed(h)) == multiset(h)
  {
    if h != [] {
      ReversedPermutes(h[1..]);
      assert h == [h[0]] + h[1..];
    }
  }
}
