# ABAII assistant — verified model of its deterministic core

ABAII is a browser assistant for Vietnamese civil servants. Its pages hand documents, questions,
recordings and news topics to a generative model, and they keep the conversation on screen as a chat
transcript. Each signed-in user's transcript is stored per feature in the browser, and a transcript or
note can be exported as a Word document. Several voice-note recorders are part of the app: they
transcribe, polish and title notes and keep a history of them.

The model answers, the browser APIs and the document libraries are not modelled. Everything around
them is modelled:

- how a transcript becomes the turns sent to the model;
- how replies are checked, stripped of code fences and filtered;
- how every chat page appends, replaces, rolls back and exports its messages;
- the composer's attachment and voice-input rules;
- the voice-note history: upsert, delete, newest-first order;
- title extraction, bold and italic runs, Markdown line classification, timer text and file names;
- the export text cleaner;
- the chat-history store keyed by `user_feature`;
- the sign-in session;
- the error panel;
- navigation between the home page and the features.

Each module follows one source file, or a group of source files that share logic:

- `GeminiService`: the request and reply handling of the model service.
- `ChatTranscript`: the list operations shared by every chat page.
- `AnalyzeDocumentFeature`: the document analysis page.
- `GenerationChat`: the extraction and drafting pages, one parameterised module.
- `NewsChat`: the news page.
- `ChatInterface`: the composer and the per-message export.
- `NoteTitle`: title extraction, shared by three recorders.
- `VoiceNotes` and `VoiceNotesExport`: the recorder with a history.
- `QuickNotes`: the single-note recorder.
- `LiveTranscription`: the live transcription page.
- `ExportText`: the export button.
- `ChatStore`, `Auth`, `ErrorMessage`, `AppShell`, `HomePage` and `Types`.
- `Wrappers`, `Seqs`, `Text` and `Json`: helpers with their own lemmas (`trim` with JavaScript's
  whitespace set, `split`/`join`, decimal printing).

Code that changes state in place is modelled as classes: the pages, the composer, the recorders, the
store and the session. Their methods carry `modifies` frames and state their whole new state. The
pure list and string logic is modelled as functions, with lemmas about them.

## Model

| member | source | states |
|---|---|---|
| GeminiService.ConvertChatMessageToContent | services/geminiService.ts:709-744 | a system message becomes an empty system turn; any other message becomes a user or model turn whose first part is non-blank text (the content, or one of the two placeholders when the content is blank), plus one inline-data part exactly when an image or file attachment has a MIME type and data |
| GeminiService.BuildHistoryForApiKeepsEveryTurn | services/geminiService.ts:746-751 | the history sent to the model is the non-system messages converted in order; the final emptiness filter never drops a converted turn, so there is one turn per non-system message |
| GeminiService.BuildHistoryForApiTurns | services/geminiService.ts:746-751 | every turn sent is a user or model turn with one or two parts, the first a non-blank text |
| GeminiService.BuildHistoryForApiAppend | services/geminiService.ts:746-751 | building the history of a concatenation is concatenating the built histories |
| GeminiService.AssembleChatContents | services/geminiService.ts:757-775 | the step-by-step request assembly equals the converted history followed by one user turn for the new message |
| GeminiService.ChatContentsShape | services/geminiService.ts:763-775 | the request has one more turn than there are non-system messages; the last is a user turn starting with the message text, with a second (inline) part exactly when the attachment has both a MIME type and data |
| GeminiService.DispatchAnalysisInput | services/geminiService.ts:837-859 | a string input is a text query; a URL wins over file data; file data needs both data and MIME type and takes the file name or the default label as its query; any other object is rejected with the invalid-input message |
| GeminiService.FenceBodyTrimmed | services/geminiService.ts:881-886 | a body taken from between code fences has no surrounding whitespace |
| GeminiService.StripCodeFence | services/geminiService.ts:881-886 | the reply is trimmed; a fenced reply whose fence body is non-empty becomes exactly that body, and any other reply (unfenced, or with an empty body) is only trimmed |
| GeminiService.StripCodeFenceRoundTrip | services/geminiService.ts:881-886 | a trimmed non-empty body wrapped in a fence with any word-character language tag and any surrounding whitespace is recovered exactly |
| GeminiService.FenceBodyOfWrapped | services/geminiService.ts:882-885 | the fence pattern finds exactly the wrapped body after a language tag and newline |
| GeminiService.StripCodeFenceWordOnlyBody | services/geminiService.ts:882-885 | a fence whose whole body is word characters is read as a language tag with an empty body, so the reply is left as it is |
| GeminiService.AnalyzeDocument | services/geminiService.ts:797-912 | rejected input fails with the invalid-input message; a request error fails with its message or the default; success exactly when the de-fenced reply parses to an object with a string `analysis` and an array `extractedUrls`, and then the result carries them, the grounding chunks that have a web URI, the dispatched query and its type, and the raw reply; every other reply fails with the parse-error message |
| GeminiService.GetNewsUpdate | services/geminiService.ts:914-952 | success exactly when the de-fenced reply parses to an array whose every element has string `title` and `url`; the result is those articles, in order, whose title and URL are non-empty; otherwise the parse-error message, or the request error's message or the default |
| GeminiService.NewsSelectionMembers | services/geminiService.ts:941 | an article is returned exactly when it comes from an element of the reply and has a non-empty title and URL |
| GeminiService.NewsSelectionOrder | services/geminiService.ts:941 | the selection keeps the reply's order: selecting from two halves concatenates the two selections |
| GeminiService.NewsUpdateComplete | services/geminiService.ts:936-941 | every returned article has a non-empty title and URL, and there are no more articles than elements in the reply |
| ChatTranscript.ExchangeIdsDistinct | components/features/ExtractMultimediaFeature.tsx:84-105 | the ids a send gives its user message, its placeholder and its reply never collide, whatever the two clock readings are |
| ChatTranscript.ReplaceById | components/features/ExtractMultimediaFeature.tsx:106 | the transcript keeps its length; messages with the placeholder id become the reply, every other message is unchanged |
| ChatTranscript.MarkFailedById | components/features/ExtractMultimediaFeature.tsx:110 | the transcript keeps its length; messages with the placeholder id become finished model messages with the error text and keep their id, every other message is unchanged |
| ChatTranscript.ReplacePlaceholderOnly | components/features/ExtractMultimediaFeature.tsx:92-106 | after a send whose placeholder id is new, a reply turns the transcript into the old one plus the user message and the reply |
| ChatTranscript.FailPlaceholderOnly | components/features/ExtractMultimediaFeature.tsx:92-110 | after a send whose placeholder id is new, a failure turns the transcript into the old one plus the user message and the finished error message |
| ChatTranscript.RollbackRestores | Work/ABAII/Project/cbcc/components/features/UnderstandDocumentFeature.tsx:142-147 | removing the two messages of a rejected send restores the transcript as it was before the send |
| ChatTranscript.LatestOutputIsLastQualifying | components/features/ExtractMultimediaFeature.tsx:21-23 | the output panel shows the content of the last finished, non-blank, non-greeting model message, and nothing exactly when no message qualifies |
| ChatTranscript.LastAnalysisData | Work/ABAII/Project/cbcc/components/features/UnderstandDocumentFeature.tsx:49-56 | the restored analysis is that of the last finished model message carrying analysis data, and there is none exactly when no message carries any |
| ChatTranscript.ExportIgnoresHidden | components/features/ExtractMultimediaFeature.tsx:71-76 | about `ExportTranscript`: a system message or a pending placeholder anywhere in the transcript does not change the export text |
| ChatTranscript.ExportAppend | components/features/ExtractMultimediaFeature.tsx:71-76 | about `ExportTranscript`: appending an exportable message appends its `[time] speaker:` block, after the `---` separator when the export was non-empty |
| ChatTranscript.RestoredHistory | components/features/ExtractMultimediaFeature.tsx:42-58 | a stored non-empty history is used as it is; a missing or empty one starts a fresh transcript |
| AnalyzeDocumentFeature.AnalysisInputFor | Work/ABAII/Project/cbcc/components/features/UnderstandDocumentFeature.tsx:126-140 | no attachment sends the text itself; a file or image with a MIME type and data is file input named after the attachment or `attached_file`; a URL attachment with data is URL input; there is no input exactly for an empty attachment, an audio attachment, or a file or image without a MIME type |
| AnalyzeDocumentFeature.AnalysisInputDispatches | Work/ABAII/Project/cbcc/components/features/UnderstandDocumentFeature.tsx:128-151 | every input the screen builds passes the service's input check, with the query type matching the attachment, so the service never rejects it as invalid |
| AnalyzeDocumentFeature.AnalysisReply | Work/ABAII/Project/cbcc/components/features/UnderstandDocumentFeature.tsx:154-160 | the reply to a finished analysis is a finished model message whose content is the analysis text and which carries the result |
| AnalyzeDocumentFeature.CompletedSendLeadsToFollowUp | Work/ABAII/Project/cbcc/components/features/UnderstandDocumentFeature.tsx:107-120 | once a send has been answered the transcript holds a user message, so the next send without an attachment goes to the follow-up chat |
| AnalyzeDocumentFeature.RefusedCases | Work/ABAII/Project/cbcc/components/features/UnderstandDocumentFeature.tsx:139-147 | the send is refused exactly for an empty text without an attachment, or for an unusable attachment with blank text; a whitespace-only text without an attachment is a truthy input and is analysed |
| AnalyzeDocumentFeature.RejectedAnalysisRestores | Work/ABAII/Project/cbcc/components/features/UnderstandDocumentFeature.tsx:142-147 | when the input is falsy (none, or the empty text without an attachment) and the text is blank, the transcript is restored exactly, the empty-content error is shown and no request is made |
| AnalyzeDocumentFeature.AnalysisSuccessShape | Work/ABAII/Project/cbcc/components/features/UnderstandDocumentFeature.tsx:151-161 | a finished analysis leaves the old transcript plus the user message and the reply carrying the result, which becomes the current analysis and is what a reload restores |
| AnalyzeDocumentFeature.FollowUpSendsMessageOnce | Work/ABAII/Project/cbcc/components/features/UnderstandDocumentFeature.tsx:171-177 | the follow-up request is the transcript from before the send plus one user turn: the new message is sent once |
| AnalyzeDocumentFeature.AnalyzeDocumentSession.constructor | Work/ABAII/Project/cbcc/components/features/UnderstandDocumentFeature.tsx:18-24 | the screen starts with an empty transcript, no analysis, loading, and history not yet loaded |
| AnalyzeDocumentFeature.AnalyzeDocumentSession.LoadHistory | Work/ABAII/Project/cbcc/components/features/UnderstandDocumentFeature.tsx:42-76 | the first load for a signed-in user restores a stored non-empty history with the analysis of its last finished model message carrying one, or starts a fresh transcript; signing out clears transcript and analysis; later runs change only the loading flag |
| AnalyzeDocumentFeature.AnalyzeDocumentSession.HandleSendChatMessage | Work/ABAII/Project/cbcc/components/features/UnderstandDocumentFeature.tsx:91-190 | signed out, only the session error is set; otherwise an attachment or a first message takes the analysis path and anything else the follow-up path, and the new transcript, analysis, error and request are exactly those of that path |
| AnalyzeDocumentFeature.AnalyzeDocumentSession.AppendExchange | Work/ABAII/Project/cbcc/components/features/UnderstandDocumentFeature.tsx:96-116 | the error is cleared and the user message and the loading placeholder are appended |
| AnalyzeDocumentFeature.AnalyzeDocumentSession.RunAnalysis | Work/ABAII/Project/cbcc/components/features/UnderstandDocumentFeature.tsx:120-169 | the analysis path ends in the state of the analysis step for the service's outcome (refusing a falsy input with blank text, otherwise applying the reply), with loading off |
| AnalyzeDocumentFeature.AnalyzeDocumentSession.RunAnalysisWith | Work/ABAII/Project/cbcc/components/features/UnderstandDocumentFeature.tsx:120-169 | a first analysis clears the previous result; with a falsy input (none, or the empty text) and blank text the exchange is rolled back with the empty-content error and no request; otherwise the analysis request is made and its outcome applied to the placeholder (the two halves are the helpers `BeginAnalysis` and `FinishAnalysis`) |
| AnalyzeDocumentFeature.AnalyzeDocumentSession.RejectEmptyContent | Work/ABAII/Project/cbcc/components/features/UnderstandDocumentFeature.tsx:142-147 | the two messages of the send are removed and the empty-content error is shown |
| AnalyzeDocumentFeature.AnalyzeDocumentSession.ApplyOutcome | Work/ABAII/Project/cbcc/components/features/UnderstandDocumentFeature.tsx:151-166 | success turns the placeholder into the analysis reply and sets the analysis; failure marks the placeholder failed and shows the prefixed error |
| AnalyzeDocumentFeature.AnalyzeDocumentSession.RunFollowUp | Work/ABAII/Project/cbcc/components/features/UnderstandDocumentFeature.tsx:171-189 | the follow-up path sends the transcript from before the send plus the new turn and applies the reply, with chat loading off |
| AnalyzeDocumentFeature.AnalyzeDocumentSession.ApplyChatReply | Work/ABAII/Project/cbcc/components/features/UnderstandDocumentFeature.tsx:177-185 | success turns the placeholder into the model reply; failure marks it failed and shows the prefixed chat error |
| GenerationChat.ChatFailureText | components/features/ExtractMultimediaFeature.tsx:109 | the text shown for a failed request is never empty: the error's message, or a fallback |
| GenerationChat.GreetingIsNotOutput | components/features/GenericDraftFeature.tsx:21-23 | a fresh transcript of either generation feature has no output to show: its greeting is recognised by the feature's own greeting prefix |
| GenerationChat.RequestAsWritten | components/features/ExtractMultimediaFeature.tsx:92-104 | the request built from the transcript that already holds the new user message has one turn more than the request built from the transcript before the send |
| GenerationChat.RequestAsWrittenRepeatsUserTurn | components/features/ExtractMultimediaFeature.tsx:92-104 | that request ends in two user turns for the same message, with the same text and the same inline attachment: the message and its upload are sent twice |
| GenerationChat.RequestSendsMessageOnce | components/features/ExtractMultimediaFeature.tsx:100-104 | the corrected request is the history before the send followed by exactly one user turn, one turn shorter than the request as written |
| GenerationChat.GenerationChatSession.constructor | components/features/ExtractMultimediaFeature.tsx:15-19 | a screen starts with an empty transcript, not loading, no error, history not loaded |
| GenerationChat.GenerationChatSession.LoadHistory | components/features/ExtractMultimediaFeature.tsx:42-63 | the first load for a signed-in user restores the stored non-empty history or starts a fresh transcript and marks the history loaded; signing out clears the transcript and the loaded mark; otherwise nothing changes |
| GenerationChat.GenerationChatSession.HandleSendChatMessage | components/features/ExtractMultimediaFeature.tsx:78-115 | signed out, only the session error is set and no request is made; otherwise the request is built as the page builds it, from the transcript already holding the user message (so the message is sent twice, as RequestAsWrittenRepeatsUserTurn shows), and the transcript gains the user message and either the reply or the prefixed error message, with the banner error set on failure |
| NewsChat.SummaryTextDependsOnCount | components/features/NewsAIFeature.tsx:114-116 | about `SummaryText`: with articles the summary names their count, which can be read back from it, and does not depend on the topic; without any it quotes the topic |
| NewsChat.NewsMessageBlockShape | components/features/NewsAIFeature.tsx:68-81 | a message without articles exports as the plain block; one with articles exports the plain block, the related-news header, then the articles' texts in order joined by the block separator |
| NewsChat.NewsSession.constructor | components/features/NewsAIFeature.tsx:14-19 | a screen starts with an empty transcript, not loading, no error, history not loaded |
| NewsChat.NewsSession.LoadHistory | components/features/NewsAIFeature.tsx:37-57 | the first load for a signed-in user restores the stored non-empty history or starts a fresh transcript; signing out clears it; otherwise nothing changes |
| NewsChat.NewsSession.HandleSendMessage | components/features/NewsAIFeature.tsx:86-133 | signed out or with an attachment, only the matching error is set; otherwise the transcript gains the topic and either the article message (count summary, articles as returned) or the prefixed error message, with the banner error set on failure |
| ChatInterface.VoiceAppended | components/ui/ChatInterface.tsx:122-125 | a recognised phrase ends the input; it replaces a blank input and otherwise follows the trimmed input and one space |
| ChatInterface.AttachmentKindFor | components/ui/ChatInterface.tsx:175-178 | a chosen file is an image attachment exactly when its type starts with `image/`, otherwise a file attachment |
| ChatInterface.UrlAttachment | components/ui/ChatInterface.tsx:209-214 | a URL attachment carries the address as data, no MIME type, and a name made of the `URL: ` prefix, at most 60 characters of the address and `...` |
| ChatInterface.FileAttachmentSentInline | components/ui/ChatInterface.tsx:185-190 | a chosen file with a type and data travels to the model as an inline part of the new turn |
| ChatInterface.UrlAttachmentAnalysedAsUrl | components/ui/ChatInterface.tsx:209-214 | an attached URL becomes URL input of the document analysis |
| ChatInterface.Composer.constructor | components/ui/ChatInterface.tsx:86-90 | the composer starts with empty input, no attachment, the URL box closed and empty, not recording |
| ChatInterface.Composer.HandleSendMessage | components/ui/ChatInterface.tsx:231-241 | nothing is sent (and nothing changes) exactly while loading or when the trimmed input is empty with no attachment; otherwise the trimmed text and the attachment go out and input, attachment and URL box are cleared |
| ChatInterface.Composer.ClearPendingAttachment | components/ui/ChatInterface.tsx:222-229 | the attachment is dropped and the URL box closed and emptied; the typed input is kept |
| ChatInterface.Composer.HandleVoiceResult | components/ui/ChatInterface.tsx:122-125 | the input becomes the phrase appended to the previous input; nothing else changes |
| ChatInterface.Composer.ToggleRecording | components/ui/ChatInterface.tsx:144-160 | unsupported or loading: nothing changes; otherwise recording stops when it was on and starts only when the recogniser accepts the start |
| ChatInterface.Composer.HandleRecognitionEnd | components/ui/ChatInterface.tsx:127-131 | the end of recognition, or an error, turns recording off and changes nothing else |
| ChatInterface.Composer.HandleFileChange | components/ui/ChatInterface.tsx:170-201 | no file changes nothing; a file closes and empties the URL box and becomes the pending attachment when it could be read, or raises the read alert and clears the attachment when it could not |
| ChatInterface.Composer.HandleAttachUrl | components/ui/ChatInterface.tsx:203-220 | a blank address raises the blank-URL alert and an unparsable one the invalid-URL alert, changing nothing; a valid trimmed address becomes the pending URL attachment and the box is closed and emptied |
| ChatInterface.Composer.AttachUrl | components/ui/ChatInterface.tsx:210-216 | the pending attachment becomes the URL attachment and the URL box is closed and emptied |
| ChatInterface.Composer.ToggleUrlInput | components/ui/ChatInterface.tsx:480-483 | the URL box flips; opening it drops the pending attachment and empties the address |
| ChatInterface.Composer.OpenFilePicker | components/ui/ChatInterface.tsx:467-471 | choosing to attach a file closes the URL box and changes nothing else |
| ChatInterface.LazyGroupEnd | components/ui/ChatInterface.tsx:277 | the lazy group of the fence pattern ends at the first `}` followed by optional whitespace and a closing fence, and there is none exactly when no such `}` exists |
| ChatInterface.FencedJsonAt | components/ui/ChatInterface.tsx:277 | a fenced object found at a position starts with `{`, ends with `}` and lies inside the text |
| ChatInterface.FindFencedJson | components/ui/ChatInterface.tsx:277-279 | the leftmost fenced object starts with `{`, ends with `}` and lies inside the text |
| ChatInterface.FindFencedJsonLeftmost | components/ui/ChatInterface.tsx:277 | the search returns the match at the first position where the pattern matches |
| ChatInterface.FindFencedJsonNone | components/ui/ChatInterface.tsx:277-278 | a search that finds nothing means the pattern matches at no later position |
| ChatInterface.FencedJsonFound | components/ui/ChatInterface.tsx:277-279 | an object wrapped in a fence with an optional `json` tag and whitespace is found exactly |
| ChatInterface.LeftmostMatchAtStart | components/ui/ChatInterface.tsx:277 | a match at the start of the text is the leftmost match |
| ChatInterface.JsonCandidateShape | components/ui/ChatInterface.tsx:274-286 | the text handed to the parser is the content itself, or a piece of it that starts with `{` and ends with `}` |
| ChatInterface.JsonCandidateOfFenced | components/ui/ChatInterface.tsx:277-279 | when the fenced pattern matches, the parser gets the captured object text |
| ChatInterface.JsonCandidateFallback | components/ui/ChatInterface.tsx:280-285 | without a fenced match, the parser gets the text from the first `{` to the last `}` when that `}` comes later |
| ChatInterface.JsonCandidateWithoutBraces | components/ui/ChatInterface.tsx:274-285 | without a fenced match, text lacking a `{` or a `}` goes to the parser whole |
| ChatInterface.PlainExportForOtherTitles | components/ui/ChatInterface.tsx:257-301 | outside the news and analysis features a message exports its content unchanged |
| ChatInterface.AnalysisExportOfFencedReply | components/ui/ChatInterface.tsx:268-291 | an analysis reply stored as a fenced envelope exports the envelope's `analysis` text |
| ChatInterface.AnalysisExportOfFencedText | components/ui/ChatInterface.tsx:268-291 | any analysis reply whose fenced object parses with a string `analysis` exports that text |
| ChatInterface.FreshChatNotExportable | components/ui/ChatInterface.tsx:540 | a fresh conversation (system message and greeting) cannot be exported: the button is disabled until the user has written something |
| ChatInterface.ExportFileStem | components/ui/ChatInterface.tsx:384 | the export file name keeps the title's length, replaces each whitespace character and slash by `_` and keeps every other character, then adds `_` and the message id |
| ChatInterface.ArticleTextsAgree | components/ui/ChatInterface.tsx:259-264 | a message's article export agrees with the news feature's transcript export except for the newline after a summary |
| NoteTitle.Lines | Work/ABAII/Project/ver03newtk/index.tsx:941 | the note is split at newlines and every line is trimmed |
| NoteTitle.Capped | Work/ABAII/Project/ver03newtk/index.tsx:962-966 | a text within the maximum is kept; a longer one is cut to the maximum and followed by `...`, so a title never exceeds the maximum plus three |
| NoteTitle.ExtractTitle | Work/ABAII/Project/ver03newtk/index.tsx:940-973 | the title chosen by the two passes is the first heading title, else the first qualifying body line's capped text, else none |
| NoteTitle.FindHeadingTitle | Work/ABAII/Project/ver03newtk/index.tsx:943-953 | the heading loop finds the first line starting with `#` whose heading text is non-empty |
| NoteTitle.FindBodyTitle | Work/ABAII/Project/ver03newtk/index.tsx:955-973 | the body loop finds the first qualifying line and gives its capped candidate text |
| NoteTitle.BodyTitleStep | Work/ABAII/Project/ver03newtk/index.tsx:956-972 | scanning from a line either takes that line, when it qualifies, or continues with the next one |
| NoteTitle.HeadingTextNonEmpty | components/features/LiveTranscriptionFeature.tsx:255-257 | a trimmed line that starts with `#` and has text after its hashes gives a non-empty trimmed heading text |
| NoteTitle.FirstHashLine | Work/ABAII/Project/ver03newtk/index.tsx:943-944 | the first line starting with `#`: no earlier line starts with `#` |
| NoteTitle.HeadingTitleIsFirstHashLine | Work/ABAII/Project/ver03newtk/index.tsx:943-953 | among trimmed lines the heading title is that of the first line starting with `#`, and there is none when no line starts with `#` |
| NoteTitle.BodyTitleShape | Work/ABAII/Project/ver03newtk/index.tsx:958-966 | a body title is never empty, never exceeds the maximum plus three, and for the recorders has more than three characters |
| NoteTitle.CandidateShape | components/features/LiveTranscriptionFeature.tsx:265-266 | the text a line offers is trimmed, does not start with a leading marker, and is no longer than the line |
| NoteTitle.ShownTitle | Work/ABAII/Project/ver03newtk/index.tsx:975-984 | an extracted title is shown; otherwise an empty title or one equal to the placeholder shows the placeholder, and any other title is kept |
| VoiceNotes.FirstIndexOfId | Work/ABAII/Project/ver03newtk/index.tsx:310 | the index of the first note with the id, and -1 exactly when no note has it |
| VoiceNotes.FindNoteIndex | Work/ABAII/Project/ver03newtk/index.tsx:326 | the search loop returns the first index with the id, or -1 |
| VoiceNotes.InsertNewestPermutes | Work/ABAII/Project/ver03newtk/index.tsx:334 | inserting a note into the ordered history adds exactly that note |
| VoiceNotes.InsertByTimestamp | Work/ABAII/Project/ver03newtk/index.tsx:334 | the insertion loop places the note after every newer note, keeping the order of equal timestamps |
| VoiceNotes.SortNewestFirst | Work/ABAII/Project/ver03newtk/index.tsx:334 | the sort loop computes the stable newest-first order of the history |
| VoiceNotes.InsertNewestSorted | Work/ABAII/Project/ver03newtk/index.tsx:334 | inserting into a newest-first history keeps it newest-first |
| VoiceNotes.SortNewestSortsAndPermutes | Work/ABAII/Project/ver03newtk/index.tsx:334 | the sorted history is newest-first and holds exactly the same notes |
| VoiceNotes.SortNewestOfSorted | Work/ABAII/Project/ver03newtk/index.tsx:334 | sorting a history that is already newest-first leaves it unchanged (the sort is stable) |
| VoiceNotes.InsertNewestUnique | Work/ABAII/Project/ver03newtk/index.tsx:331-334 | inserting a note with a new id keeps the ids distinct |
| VoiceNotes.SortNewestUnique | Work/ABAII/Project/ver03newtk/index.tsx:334 | sorting keeps the ids distinct and the set of ids unchanged |
| VoiceNotes.SavedNote | Work/ABAII/Project/ver03newtk/index.tsx:320-324 | the saved copy keeps the note's id and audio, takes the clock reading, keeps the Markdown only when the polished pane is not showing its placeholder, stores a trimmed raw text that is never the raw placeholder, and a title that is the trimmed editor title (the untitled label when the editor title is empty) or the untitled label when that equals the title placeholder; the raw text is the trimmed raw pane, or empty when that is empty or the raw placeholder |
| VoiceNotes.SavedNoteStable | Work/ABAII/Project/ver03newtk/index.tsx:320-324 | a saved note, opened in the editor and saved again without edits, is the same note with the later timestamp, when the editor title was empty or not blank and any Markdown it kept is not blank |
| VoiceNotes.SavedHistoryOverridesEntry | Work/ABAII/Project/ver03newtk/index.tsx:310-331 | a save overwrites or splices out the entry under the open note's id, so changes made to that entry through the shared object before the save do not show in the saved history |
| VoiceNotes.UpsertKeepsIdsDistinct | Work/ABAII/Project/ver03newtk/index.tsx:326-332 | replacing or prepending the saved note keeps ids distinct, adds its id, holds the saved note, and keeps every note with another id |
| VoiceNotes.RemoveFirstIdRemoves | Work/ABAII/Project/ver03newtk/index.tsx:310-313 | splicing out the entry of the open note removes its id only and keeps the history newest-first |
| VoiceNotes.SavedHistoryValid | Work/ABAII/Project/ver03newtk/index.tsx:294-338 | saving keeps the history valid (distinct ids, newest first); the open note's id is present afterwards exactly when the editor holds something to save; no other id changes; and the saved copy is in the history |
| VoiceNotes.FreshNoteNotSaved | Work/ABAII/Project/ver03newtk/index.tsx:305-318 | a fresh editor holds nothing to save, so saving a fresh note that is not in the history changes nothing |
| VoiceNotes.WithoutIdValid | Work/ABAII/Project/ver03newtk/index.tsx:219 | filtering out an id keeps the history valid and removes exactly that id |
| VoiceNotes.DeleteAsWrittenRestoresOpenNote | Work/ABAII/Project/ver03newtk/index.tsx:218-225 | as written, deleting the open note while the editor holds content puts the note straight back into the history |
| VoiceNotes.DeleteNoteRemoves | Work/ABAII/Project/ver03newtk/index.tsx:218-225 | the corrected delete keeps the history valid and removes exactly the deleted id |
| VoiceNotes.ReopenedNoteSavesUnchanged | Work/ABAII/Project/ver03newtk/index.tsx:193-216 | a note opened from the history and saved without edits is stored again unchanged apart from its timestamp |
| VoiceNotes.NewNote | Work/ABAII/Project/ver03newtk/index.tsx:1000-1006 | a new note has the id `note_` followed by the clock reading, that timestamp, and empty title, transcript and Markdown |
| VoiceNotes.VoiceNotesApp.constructor | Work/ABAII/Project/ver03newtk/index.tsx:148-154 | the app starts not recording with nothing written to storage; with an empty or unparsable stored history it opens a fresh note with every pane on its placeholder; otherwise it opens the first (newest) entry as that entry's own object, with the editor showing it and an empty title read back as the untitled label in both the open note and the history |
| VoiceNotes.VoiceNotesApp.OpenInitialNote | Work/ABAII/Project/ver03newtk/index.tsx:150-154 | with no note open yet: an empty history gets a fresh note with placeholder panes; otherwise the first entry is opened, shown in the editor, and shared with the history, which sees the untitled label given to an empty title; storage is not written |
| VoiceNotes.VoiceNotesApp.LoadHistory | Work/ABAII/Project/ver03newtk/index.tsx:240-251 | a stored history replaces the current one when it parses and empties it when it does not; no stored value changes nothing |
| VoiceNotes.VoiceNotesApp.SaveCurrentNoteToHistory | Work/ABAII/Project/ver03newtk/index.tsx:294-338 | with a note open, the history becomes the saved history of the note and the editor view; the open note becomes the saved copy when there was something to save; storage is written exactly when the history changed; the open note no longer shares its object with a history entry |
| VoiceNotes.VoiceNotesApp.DropEntry | Work/ABAII/Project/ver03newtk/index.tsx:310-316 | the entry of the id is spliced out and storage is written when it existed |
| VoiceNotes.VoiceNotesApp.WriteEntry | Work/ABAII/Project/ver03newtk/index.tsx:326-337 | the saved note replaces its entry or is prepended, the history is sorted newest first and written to storage |
| VoiceNotes.VoiceNotesApp.CreateNewNote | Work/ABAII/Project/ver03newtk/index.tsx:995-1036 | the previous note is saved only when asked; a fresh note is opened (the helper `OpenFreshNote`) with every pane showing its placeholder, recording stopped and no sharing with the history; storage then holds the saved history when that save wrote, and is unchanged otherwise |
| VoiceNotes.VoiceNotesApp.UpdatePolishedNoteUI | Work/ABAII/Project/ver03newtk/index.tsx:924-993 | non-blank Markdown is shown rendered, otherwise the placeholder; outside a history load the title becomes the extracted or kept title and the note is saved; in a history load the open note takes the Markdown and title, and so does its history entry when the two are one object; storage is unchanged in a history load or with no note open, and otherwise holds the saved history when the save wrote |
| VoiceNotes.VoiceNotesApp.StorePolished | Work/ABAII/Project/ver03newtk/index.tsx:935-992 | with no note open nothing changes; otherwise the note takes the new Markdown and the editor title (the untitled label when it is empty); while the open note is the history's own object its entry changes with it; outside a history load the history becomes the saved history of that note, and storage holds it when the save wrote; in a history load storage is unchanged |
| VoiceNotes.VoiceNotesApp.ShowPolished | Work/ABAII/Project/ver03newtk/index.tsx:926-934 | the polished pane shows the rendered Markdown, or its placeholder when the Markdown is blank; nothing else changes |
| VoiceNotes.VoiceNotesApp.LoadNoteIntoEditor | Work/ABAII/Project/ver03newtk/index.tsx:193-216 | the open note is saved first; then the chosen entry is opened (the open note as just saved when the entry is the open note's own object), an empty title reads back as the untitled label, and the panes show its title, transcript or placeholder, and Markdown; the opened note shares its object with the history unless the save replaced or removed the entry under its id (the helper `ShowLoaded`); storage holds the saved history when the save wrote and is unchanged otherwise |
| VoiceNotes.VoiceNotesApp.OpenFromHistory | Work/ABAII/Project/ver03newtk/index.tsx:185-189 | an unknown id changes nothing, storage included; otherwise the entry is looked up before the save: when it is the open note's own object, the note shown is the open note as just saved (edits kept), otherwise the entry as it was before the save; the resulting history, editor view, sharing and storage are those of the load |
| VoiceNotes.VoiceNotesApp.DeleteNoteFromHistoryAsWritten | Work/ABAII/Project/ver03newtk/index.tsx:218-225 | as written, the history after a delete is the filtered history followed by the save that `createNewNote()` performs; deleting the open note opens a fresh note with placeholder panes, stops recording and drops the sharing, and storage then holds that save's history when it wrote and the filtered history otherwise; deleting another note leaves the editor, recording and sharing unchanged and stores the filtered history |
| VoiceNotes.VoiceNotesApp.DeleteNoteFromHistory | Work/ABAII/Project/ver03newtk/index.tsx:218-230 | the corrected delete removes every entry with the id and writes storage; deleting the open note opens a fresh one without saving and stops recording, otherwise the editor, the recording flag and the open note's sharing with its entry are unchanged |
| VoiceNotes.VoiceNotesApp.NotesForDownload | Work/ABAII/Project/ver03newtk/index.tsx:1038-1046 | the open note is saved first; the download is refused exactly when the history is then empty, and otherwise the notes are handed on oldest first; the open note becomes its saved form, storage holds the saved history when the save wrote, and the open note's sharing with its entry ends |
| VoiceNotes.Reversed | Work/ABAII/Project/ver03newtk/index.tsx:1046 | the reversed history has the same length with the notes in the opposite order |
| VoiceNotes.ReversedIsChronological | Work/ABAII/Project/ver03newtk/index.tsx:1046 | reversing a newest-first history gives the same notes in chronological order |
| VoiceNotesExport.TwoDigits | Work/ABAII/Project/ver03newtk/index.tsx:489 | a number below 100 padded to two characters is two digits that read back as the number |
| VoiceNotesExport.TimerFields | Work/ABAII/Project/ver03newtk/index.tsx:479-490 | about `TimerText`: under 100 minutes the timer reads `mm:ss.hh`, and its fields read back as the elapsed minutes, the seconds (below 60) and the hundredths (below 100) |
| VoiceNotesExport.PolishedLine | Work/ABAII/Project/ver03newtk/index.tsx:1090-1098 | a blank Markdown line gives no paragraph; a line whose trimmed text starts with `- ` or `* ` gives a bullet holding the trimmed text after those two characters; any other line gives a plain paragraph holding the line unchanged |
| VoiceNotesExport.PolishedParagraphs | Work/ABAII/Project/ver03newtk/index.tsx:1090-1099 | the polished part has one body paragraph per non-blank line |
| VoiceNotesExport.PolishedParagraphsByLine | Work/ABAII/Project/ver03newtk/index.tsx:1090-1099 | the polished part is exactly the non-blank lines, in order, each mapped to its bullet or plain paragraph |
| VoiceNotesExport.RawParagraphs | Work/ABAII/Project/ver03newtk/index.tsx:1110-1112 | the raw part has one plain body paragraph per non-blank line |
| VoiceNotesExport.RawParagraphsByLine | Work/ABAII/Project/ver03newtk/index.tsx:1110-1112 | the raw part is exactly the non-blank lines, in order and unchanged, each as a plain paragraph |
| VoiceNotesExport.PolishedPart | Work/ABAII/Project/ver03newtk/index.tsx:1082-1100 | the polished part of a section holds no note heading |
| VoiceNotesExport.RawPart | Work/ABAII/Project/ver03newtk/index.tsx:1102-1113 | the raw part of a section holds no note heading |
| VoiceNotesExport.HeadingsAppend | Work/ABAII/Project/ver03newtk/index.tsx:1063-1123 | the note headings of two pieces of a document are those of the first followed by those of the second |
| VoiceNotesExport.NoteSectionHeadings | Work/ABAII/Project/ver03newtk/index.tsx:1063-1122 | a note's section has exactly one note heading, its title or the untitled label, and ends with a divider |
| VoiceNotesExport.SectionsHeadings | Work/ABAII/Project/ver03newtk/index.tsx:1063-1123 | the sections carry one heading per note, in the notes' order, and end with a divider |
| VoiceNotesExport.DocumentHeadings | Work/ABAII/Project/ver03newtk/index.tsx:1054-1127 | the document starts with its title and has one note heading per note, in order; dropping the last divider loses no heading |
| VoiceNotesExport.AudioExtension | Work/ABAII/Project/ver03newtk/index.tsx:1146 | the extension contains no `/` or `;`, and is `bin` when the MIME type has no `/` |
| VoiceNotesExport.AudioExtensionOfSubtype | Work/ABAII/Project/ver03newtk/index.tsx:1146 | for a MIME type `type/subtype` followed by nothing, by `;` parameters or by another `/` piece, the extension is exactly the subtype |
| VoiceNotesExport.DatePrefix | Work/ABAII/Project/ver03newtk/index.tsx:1148 | the date prefix is the ISO text with every `:` and `.` replaced by `-` and every other character kept in place |
| VoiceNotesExport.KeptTitleChars | Work/ABAII/Project/ver03newtk/index.tsx:1151 | the kept title characters are letters, numbers, space, `.`, `_` or `-`, all taken from the title |
| VoiceNotesExport.KeptTitleCharsInOrder | Work/ABAII/Project/ver03newtk/index.tsx:1151 | keeping distributes over concatenation, so the order is kept, and a single character is kept exactly when it is allowed |
| VoiceNotesExport.SanitizedAudioTitle | Work/ABAII/Project/ver03newtk/index.tsx:1150-1153 | the file title has at most 50 characters, no whitespace, and each character is `_` or an allowed character of the title (or of the default title) |
| VoiceNotesExport.AudioFileNames | Work/ABAII/Project/ver03newtk/index.tsx:1141-1159 | the download holds exactly one audio file per note that has both recording data and a MIME type |
| VoiceNotesExport.AudioFileNamesInOrder | Work/ABAII/Project/ver03newtk/index.tsx:1141-1159 | the names follow the notes in order: two runs of notes give their names concatenated, and one note gives its `date_title.extension` name exactly when it has a recording |
| QuickNotes.CloseDouble | Work/ABAII/Project/tockyamthanh/index.tsx:753 | the lazy `\*\*.*?\*\*` alternative, when it matches, ends just after a closing `**` inside the line |
| QuickNotes.CloseSingle | Work/ABAII/Project/tockyamthanh/index.tsx:753 | the lazy `\*.*?\*` alternative, when it matches, ends just after a closing `*` inside the line |
| QuickNotes.MatchEnd | Work/ABAII/Project/tockyamthanh/index.tsx:753 | a match of the splitting pattern starts at a `*` and ends on a `*` within the line |
| QuickNotes.SplitPartsConcat | Work/ABAII/Project/tockyamthanh/index.tsx:753 | splitting with the capturing pattern loses nothing: the parts put back together are the line |
| QuickNotes.SplitWithoutStar | Work/ABAII/Project/tockyamthanh/index.tsx:753 | a line with no `*` splits into itself alone |
| QuickNotes.RunOf | Work/ABAII/Project/tockyamthanh/index.tsx:757-763 | a part starting and ending with `**` is a bold run of the text between the two markers; otherwise a part starting and ending with `*` is an italic run of the text between them; a marker-only part gives an empty run, as `slice` does; any other part becomes a plain run of exactly that text |
| QuickNotes.CreateRunsFromLine | Work/ABAII/Project/tockyamthanh/index.tsx:751-765 | the runs are one per non-empty part of the split line, in order, each styled by its delimiters |
| QuickNotes.RunsWithoutStar | Work/ABAII/Project/tockyamthanh/index.tsx:751-765 | a line with no `*` gives no run when empty and otherwise one plain run of the whole line |
| QuickNotes.BoldLine | Work/ABAII/Project/tockyamthanh/index.tsx:757-758 | a line wrapped in `**` with no `*` inside becomes one bold run of the inner text |
| QuickNotes.ItalicLine | Work/ABAII/Project/tockyamthanh/index.tsx:759-760 | a line wrapped in `*` with no `*` inside becomes one italic run of the inner text |
| QuickNotes.NumberedPrefix | Work/ABAII/Project/tockyamthanh/index.tsx:832-836 | the `^\d+\.\s` prefix is found exactly when the line starts with digits, a dot and whitespace, and its length is returned |
| QuickNotes.DocumentParagraphs | Work/ABAII/Project/tockyamthanh/index.tsx:792-851 | the document has one paragraph per line of the text, each classified as Markdown (polished tab) or kept as plain text (raw tab) |
| QuickNotes.PlainMarkdownLine | Work/ABAII/Project/tockyamthanh/index.tsx:840-843 | a trimmed line with no marker and no `*` becomes one body paragraph holding one plain run of the whole trimmed line |
| QuickNotes.FileTitleCases | Work/ABAII/Project/tockyamthanh/index.tsx:868-872 | the file title is never empty: a real title is kept trimmed, the placeholder becomes the untitled name, an empty title becomes `Ghi chú` |
| QuickNotes.FileStem | Work/ABAII/Project/tockyamthanh/index.tsx:874 | the file stem has the title's length; each ASCII letter or digit becomes its lower-case form in the same place, and every other character becomes `_` |
| QuickNotes.FileStemIdempotent | Work/ABAII/Project/tockyamthanh/index.tsx:874 | a file stem run through the same replacement and lower-casing again comes out unchanged |
| QuickNotes.NewNote | Work/ABAII/Project/tockyamthanh/index.tsx:887-892 | a new note is empty, stamped with the clock reading, with id `note_` followed by that reading |
| QuickNotes.QuickNotesApp.constructor | Work/ABAII/Project/tockyamthanh/index.tsx:52-118 | the page starts on a fresh empty note, with every pane and the title on its placeholder, the ready status, and recording off |
| QuickNotes.QuickNotesApp.CreateNewNote | Work/ABAII/Project/tockyamthanh/index.tsx:886-918 | a new note replaces the open one; every pane shows its placeholder, the status is ready and recording stops |
| QuickNotes.QuickNotesApp.GetPolishedNote | Work/ABAII/Project/tockyamthanh/index.tsx:616-749 | polishing is requested exactly when there is real raw text; a non-empty reply is stored, shown and titles the note; an empty reply or a failure only sets its status and the pane's placeholder |
| QuickNotes.QuickNotesApp.ShowPolishFailure | Work/ABAII/Project/tockyamthanh/index.tsx:720-748 | an unsuccessful polish leaves its status and the polished pane's placeholder |
| QuickNotes.QuickNotesApp.ShowPolishedText | Work/ABAII/Project/tockyamthanh/index.tsx:652-719 | a non-empty reply becomes the note's polished text, is shown (or the placeholder when blank) and sets the title |
| QuickNotes.QuickNotesApp.PrepareDownload | Work/ABAII/Project/tockyamthanh/index.tsx:767-880 | without an active tab nothing is made; without content in that tab nothing is made; otherwise one paragraph per line and the cleaned file name |
| LiveTranscription.StartErrorMessage | components/features/LiveTranscriptionFeature.tsx:110-117 | a refused microphone and a missing microphone get their own messages; any other start error shows its own message after the prefix |
| LiveTranscription.PolishingOf | components/features/LiveTranscriptionFeature.tsx:176-245 | nothing is polished exactly when the transcript is blank; English text is polished then translated, other text only polished; a failed call or a blank result is a failure, so a polished text is never blank |
| LiveTranscription.PolishCalls | components/features/LiveTranscriptionFeature.tsx:186-229 | polishing makes no model call for a blank transcript, at most three calls, and three only on the English path |
| LiveTranscription.EditedTitle | components/features/LiveTranscriptionFeature.tsx:354-357 | an edited title is kept unless it is blank, in which case the default title returns; the title is never blank |
| LiveTranscription.TextLines | components/features/LiveTranscriptionFeature.tsx:379-381 | a text gives one plain paragraph per line, in order |
| LiveTranscription.SectionShape | components/features/LiveTranscriptionFeature.tsx:373-392 | a blank text gives no section; otherwise the section is its one heading followed by one paragraph per line |
| LiveTranscription.LiveDocumentShape | components/features/LiveTranscriptionFeature.tsx:370-393 | the document opens with the title, then has a section exactly for each non-blank pane, polished first, each with one paragraph per line |
| LiveTranscription.BuildDocument | components/features/LiveTranscriptionFeature.tsx:370-393 | the paragraphs pushed one by one form exactly the described document |
| LiveTranscription.SafeFileStem | components/features/LiveTranscriptionFeature.tsx:399-400 | the file stem is never empty and holds only lower-case ASCII letters, digits and single underscores |
| LiveTranscription.SafeFileStemLetters | components/features/LiveTranscriptionFeature.tsx:399-400 | a title with no ASCII letter, digit or whitespace gets the stem `ghi_chep`; any other title's stem, with its underscores taken out, is the title's ASCII letters and digits lower-cased, in order |
| LiveTranscription.SafeFileStemOfWord | components/features/LiveTranscriptionFeature.tsx:399-400 | a title of ASCII letters and digits alone gets that title lower-cased as its stem |
| LiveTranscription.SafeFileStemJoinsWords | components/features/LiveTranscriptionFeature.tsx:399-400 | a run of whitespace after a word of ASCII letters and digits becomes a single `_`: the stem is the word lower-cased, `_`, then the stem of what follows |
| LiveTranscription.SafeFileStemTwoWords | components/features/LiveTranscriptionFeature.tsx:399-400 | two words of ASCII letters and digits separated by whitespace give both words lower-cased and joined by one `_` |
| LiveTranscription.Applied | components/features/LiveTranscriptionFeature.tsx:231-250 | polishing changes the error only on failure, the pane only to the error note or the rendered text, and the title only on success |
| LiveTranscription.LiveTranscriptionPage.constructor | components/features/LiveTranscriptionFeature.tsx:22-29 | the page mounts idle, ready, without error, with the default title, empty panes and the polished view |
| LiveTranscription.LiveTranscriptionPage.ToggleRecording | components/features/LiveTranscriptionFeature.tsx:61-68 | the button does nothing while processing, stops a running recording, and otherwise starts one |
| LiveTranscription.LiveTranscriptionPage.StartRecording | components/features/LiveTranscriptionFeature.tsx:70-122 | recording is on exactly when the microphone opened; on failure the error message is shown and the status is ready |
| LiveTranscription.LiveTranscriptionPage.RecordingStopped | components/features/LiveTranscriptionFeature.tsx:90-174 | a stop ends recording and processing; no audio, a read error or a transcription error each leave the panes and title alone with their own status or error; a transcript is shown and then polished |
| LiveTranscription.LiveTranscriptionPage.ApplyPolishing | components/features/LiveTranscriptionFeature.tsx:176-250 | the page ends in the state the polishing outcome prescribes, with processing cleared |
| LiveTranscription.LiveTranscriptionPage.UpdateTitle | components/features/LiveTranscriptionFeature.tsx:252-273 | the title becomes the one extracted from the polished text, or stays as it was when none is found |
| LiveTranscription.LiveTranscriptionPage.HandleNewNote | components/features/LiveTranscriptionFeature.tsx:344-352 | a new note is ignored while recording or processing, otherwise clears the panes, the error and the title |
| LiveTranscription.LiveTranscriptionPage.HandleTitleChange | components/features/LiveTranscriptionFeature.tsx:354-357 | an edit sets the title to the edited text, or to the default when blank |
| LiveTranscription.LiveTranscriptionPage.HandleDownload | components/features/LiveTranscriptionFeature.tsx:359-405 | a download is ignored while busy and refused when both panes are blank; otherwise it saves the described document under the cleaned name, or records the packing error and nothing else |
| ExportText.ReplaceAllNoMatch | Work/ABAII/Project/cbcc/components/ui/ExportButton.tsx:21-56 | a global replacement whose pattern matches nowhere leaves the text unchanged |
| ExportText.LazyHeading | Work/ABAII/Project/cbcc/components/ui/ExportButton.tsx:28 | the lazy heading pattern, when it matches, ends at or after the point reached and inside the text |
| ExportText.CloseAfter | Work/ABAII/Project/cbcc/components/ui/ExportButton.tsx:31-35 | the closing delimiter found is the same delimiter, on the same line as the opening one |
| ExportText.MarkerEnd | Work/ABAII/Project/cbcc/components/ui/ExportButton.tsx:44 | a `*`, `+` or `-` at the position is a one-character marker; any other marker found is one or more digits followed by a dot; nothing is found when neither is there |
| ExportText.RemoveFooterCut | Work/ABAII/Project/cbcc/components/ui/ExportButton.tsx:20-21 | removing the footer keeps exactly the text before the first footer, and everything when there is none |
| ExportText.StripTagsFrom | Work/ABAII/Project/cbcc/components/ui/ExportButton.tsx:24 | removing tags adds no character and leaves no `<` before a `>` |
| ExportText.HeadingLine | Work/ABAII/Project/cbcc/components/ui/ExportButton.tsx:28 | a heading line of one to six `#` keeps only its text, without the hashes and an optional trailing colon |
| ExportText.StrongLine | Work/ABAII/Project/cbcc/components/ui/ExportButton.tsx:31 | a text between `**` or `__` on one line loses the delimiters |
| ExportText.EmphasisLine | Work/ABAII/Project/cbcc/components/ui/ExportButton.tsx:32 | a text between `*` or `_` on one line loses the delimiters |
| ExportText.StrikeLine | Work/ABAII/Project/cbcc/components/ui/ExportButton.tsx:35 | a text between `~~` on one line loses the delimiters |
| ExportText.BulletLine | Work/ABAII/Project/cbcc/components/ui/ExportButton.tsx:44 | a `-`, `*` or `+` bullet line keeps only its text |
| ExportText.NumberedLine | Work/ABAII/Project/cbcc/components/ui/ExportButton.tsx:44 | a numbered list line keeps only its text |
| ExportText.LinkLine | Work/ABAII/Project/cbcc/components/ui/ExportButton.tsx:47 | a link or image becomes its text or alt text |
| ExportText.SqueezeFrom | Work/ABAII/Project/cbcc/components/ui/ExportButton.tsx:56 | after squeezing, no three newlines follow one another |
| ExportText.TrimKeepsNoTriple | Work/ABAII/Project/cbcc/components/ui/ExportButton.tsx:57 | trimming does not bring three newlines together |
| ExportText.SqueezeUntouched | Work/ABAII/Project/cbcc/components/ui/ExportButton.tsx:56 | a text without three newlines in a row is not changed by squeezing |
| ExportText.CleanTextForExport | Work/ABAII/Project/cbcc/components/ui/ExportButton.tsx:15-60 | missing or empty text cleans to nothing; the cleaned text is always trimmed and never holds three newlines in a row |
| ExportText.PlainUntouched | Work/ABAII/Project/cbcc/components/ui/ExportButton.tsx:19-53 | a text with none of the markup characters passes the whole replacement chain unchanged |
| ExportText.PlainTextOnlyTrimmed | Work/ABAII/Project/cbcc/components/ui/ExportButton.tsx:15-60 | a text without markup characters or triple newlines is only trimmed |
| ExportText.HeadingCleaned | Work/ABAII/Project/cbcc/components/ui/ExportButton.tsx:15-60 | a single heading line exports as its bare text |
| ExportText.HandleExport | Work/ABAII/Project/cbcc/components/ui/ExportButton.tsx:71-115 | missing or empty content is refused; otherwise the paragraphs are the lines of the cleaned text, in order, saved as `<filename>.docx`, or the packing error is reported |
| ExportText.IsDisabled | Work/ABAII/Project/cbcc/components/ui/ExportButton.tsx:117 | the button is disabled exactly when asked to be or when there is no content |
| ExportText.EnabledButtonHasContent | Work/ABAII/Project/cbcc/components/ui/ExportButton.tsx:72-117 | an enabled button never hits the "no content" alert |
| ChatStore.CompositeKeyInjective | Work/ABAII/Project/cbcc/services/dbService.ts:42-44 | two (user, feature) pairs share a composite key only when they are the same pair |
| ChatStore.Saved | Work/ABAII/Project/cbcc/services/dbService.ts:46-69 | a save without a user or with a store failure changes nothing; otherwise it adds or replaces the pair's record and keeps every other record |
| ChatStore.Loaded | Work/ABAII/Project/cbcc/services/dbService.ts:71-88 | a load finds a history exactly when there is a user, the store works and the pair has a record, and then it is that record's history |
| ChatStore.Cleared | Work/ABAII/Project/cbcc/services/dbService.ts:90-105 | a clear removes exactly the pair's record, or nothing without a user or on failure, and alters no other record |
| ChatStore.ClearedAll | Work/ABAII/Project/cbcc/services/dbService.ts:107-126 | clearing a user keeps exactly the other users' records, unaltered, or everything without a user or on failure |
| ChatStore.ChatHistoryStore.constructor | Work/ABAII/Project/cbcc/services/dbService.ts:46-126 | the store starts empty |
| ChatStore.ChatHistoryStore.SaveChatHistory | Work/ABAII/Project/cbcc/services/dbService.ts:46-69 | the records become those of the save, and stay keyed by their own user and feature |
| ChatStore.ChatHistoryStore.LoadChatHistory | Work/ABAII/Project/cbcc/services/dbService.ts:71-88 | the result is what the store holds for the pair |
| ChatStore.ChatHistoryStore.ClearChatHistory | Work/ABAII/Project/cbcc/services/dbService.ts:90-105 | the records become those of the clear, and stay keyed by their own user and feature |
| ChatStore.ChatHistoryStore.ClearAllUserChatHistory | Work/ABAII/Project/cbcc/services/dbService.ts:107-126 | deleting the user's records one at a time leaves exactly the other users' records |
| ChatStore.LoadAfterSave | Work/ABAII/Project/cbcc/services/dbService.ts:46-88 | loading a pair right after saving it returns the saved history |
| ChatStore.SaveKeepsOthers | Work/ABAII/Project/cbcc/services/dbService.ts:46-88 | saving one pair does not change what any other pair loads |
| ChatStore.SaveKeepsWellKeyed | Work/ABAII/Project/cbcc/services/dbService.ts:56-65 | a save keeps every record under the key of its own user and feature |
| ChatStore.NothingSavedLoadsNothing | Work/ABAII/Project/cbcc/services/dbService.ts:71-88 | an empty store loads nothing |
| ChatStore.ClearRemovesOnlyItsPair | Work/ABAII/Project/cbcc/services/dbService.ts:71-105 | after a clear the pair loads nothing and every other pair loads as before |
| ChatStore.ClearAllRemovesOnlyThatUser | Work/ABAII/Project/cbcc/services/dbService.ts:71-126 | after clearing a user none of their features loads anything, and other users load as before |
| Auth.SessionProfile | contexts/AuthContext.tsx:20-39 | a stored session is accepted exactly when it is non-empty, parses and has a non-empty id and name, which become the profile |
| Auth.LoginProfile | contexts/AuthContext.tsx:41-51 | a blank name gives no profile; otherwise id and name are both the trimmed name |
| Auth.LoginSessionRestored | contexts/AuthContext.tsx:20-58 | a session saved at sign-in is accepted by the next startup as the same profile |
| Auth.AuthState.constructor | contexts/AuthContext.tsx:16-18 | the provider starts with nobody signed in and loading |
| Auth.AuthState.Startup | contexts/AuthContext.tsx:20-39 | startup signs in the stored profile when it is acceptable, discards an unacceptable stored session, and ends loading |
| Auth.AuthState.LoginWithName | contexts/AuthContext.tsx:41-58 | a blank name is rejected and changes nothing; otherwise the user is signed in with the trimmed name and the session is stored |
| Auth.AuthState.Logout | contexts/AuthContext.tsx:60-72 | logout clears the user's chat histories, signs out and forgets the session |
| ErrorMessage.Classify | Work/ABAII/Project/cbcc/components/ui/ErrorMessage.tsx:14-21 | a message is an API-key failure when it names one; a network failure when it names one and no API-key failure; a quota failure only when it names neither |
| ErrorMessage.DisplayMessage | Work/ABAII/Project/cbcc/components/ui/ErrorMessage.tsx:9-21 | nothing is shown for a missing or empty message; a recognised failure shows its explanation; anything else is shown as it is |
| ErrorMessage.ClassifyIgnoresCase | Work/ABAII/Project/cbcc/components/ui/ErrorMessage.tsx:15-19 | the classification does not depend on letter case |
| ErrorMessage.ApiKeyTakesPriority | Work/ABAII/Project/cbcc/components/ui/ErrorMessage.tsx:15-16 | a message naming an invalid API key gets the configuration explanation whatever else it mentions |
| ErrorMessage.ToLowerAsciiIdempotent | Work/ABAII/Project/cbcc/components/ui/ErrorMessage.tsx:15-19 | lower-casing a lower-cased message changes nothing |
| AppShell.FeatureTable | App.tsx:23-61 | the table has six cards with distinct keys, and only the law lookup has an external address |
| AppShell.FindFeature | App.tsx:83 | the card found has the key asked for and is the first such card; none is found exactly when no card has the key |
| AppShell.EveryFeatureHasDetail | App.tsx:81-84 | every feature view finds its own card |
| AppShell.ShownScreen | App.tsx:86-166 | the loading screen shows exactly while the session is read and nobody is signed in; then home shows for the home view or a visitor, and a feature only for a signed-in user on that feature's view |
| AppShell.NoMissingFeatureScreen | App.tsx:150-166 | with this table the "feature not found" panel is never shown |
| AppShell.App.constructor | App.tsx:66 | the shell starts on the home view |
| AppShell.App.HandleFeatureSelect | App.tsx:69-75 | a signed-in user opens the chosen feature; a visitor stays on the home screen |
| AppShell.App.HandleGoHome | App.tsx:77-79 | going home sets the home view |
| AppShell.App.HandleLogout | App.tsx:129-133 | the sign-out button signs out (no user, not authenticated, the stored session removed), clears that user's histories and shows the home screen |
| HomePage.ClickAction | Work/ABAII/Project/cbcc/components/pages/HomePage.tsx:29-40 | a card with an external address opens it whoever clicks; otherwise a signed-in user selects the feature and a visitor is asked for a name |
| HomePage.Greeting | Work/ABAII/Project/cbcc/components/pages/HomePage.tsx:60 | the greeting appends the user's name when there is one, and nothing otherwise |
| HomePage.GreetingAfterLogin | Work/ABAII/Project/cbcc/components/pages/HomePage.tsx:42-60 | whoever signs in through the form is greeted by the trimmed name they typed |
| HomePage.HomePageState.constructor | Work/ABAII/Project/cbcc/components/pages/HomePage.tsx:17-19 | the form starts empty, without error and not signing in |
| HomePage.HomePageState.HandleFeatureClick | Work/ABAII/Project/cbcc/components/pages/HomePage.tsx:29-40 | a click does what the card prescribes and sets the "enter your name" error only for a visitor |
| HomePage.HomePageState.HandleAccess | Work/ABAII/Project/cbcc/components/pages/HomePage.tsx:42-58 | a blank name only sets the empty-name error and signs nobody in, leaving the stored session and the loading flag as they were; any other name clears the error, signs in with the trimmed name, stores that user as the session and ends loading |
| Types.FeatureKeyValue | Work/ABAII/Project/cbcc/types.ts:11-18 | every feature key's value is non-empty and holds no underscore |
| Types.FeatureKeyValueInjective | Work/ABAII/Project/cbcc/types.ts:11-18 | distinct feature keys have distinct values |

## Left out

- Generative model calls are left out: prompts, system instructions and the embedded legal texts. Every reply, or its error, is an input value.
- `JSON.parse` and `JSON.stringify` are function parameters. A thrown parse error is `None`.
- The clock is an integer input. Locale date formatting and ISO date text are function parameters.
- Unicode `\p{L}\p{N}` tests are a parameter (`isLetterOrNumber`). Markdown rendering is a parameter (`render`). URL validity is a parameter.
- Browser media is left out: microphone, `MediaRecorder`, audio context and waveform canvas, speech recognition, `FileReader` and base64 decoding. Each outcome becomes an input: access granted or refused, audio present, read error.
- Document packing is left out: `docx`, `JSZip` and `file-saver`. The model stops at the list of paragraphs and the file names; packing success is a boolean input.
- DOM work is left out: placeholder classes, clipboard, `alert`, focus and scrolling.
- IndexedDB mechanics are left out: the cached connection, transactions, cursors and asynchronous ordering. The store is a map.
- Concurrency and React effect ordering are left out. Each handler runs to completion before the next one starts.
- Purely presentational components and the disabled voice widget are left out. Card icons and descriptions are left out too.
- Whether history is saved after a change (authenticated, loaded and non-empty) is a predicate on each page. It is not a method, because the effect that calls it is React scheduling.
- ErrorMessage.Classify: `toLowerCase` is modelled for ASCII letters only. A non-ASCII capital in a recognised phrase is therefore not folded.
- Auth.SessionProfile: a stored `id` or `name` that is truthy but not a string is rejected. The source would accept it.
- Auth.AuthState.Logout: the asynchronous clearing of the user's histories is modelled as finishing before sign-out.
- ChatStore.ChatHistoryStore.ClearAllUserChatHistory: a store failure is modelled as deleting nothing. A failure part-way through the cursor walk would leave some records deleted.
- ExportText.PlainTextOnlyTrimmed: the "plain" characters also exclude digits and `-`. That keeps list, rule and footer markers out of the statement, so the lemma covers a smaller set of texts than every text the chain leaves alone.
- ExportText.CleanTextForExport: its contract states the final shape: trimmed, no triple newline, empty for missing input. Each replacement step is stated by its own lemma on one-line inputs, not for arbitrary multi-line texts.
- VoiceNotesExport.SanitizedAudioTitle: the contract does not state that a whitespace run becomes exactly one `_`.
- NoteTitle.Capped: lengths are counted in code points, because a Dafny `char` is one Unicode scalar value. JavaScript counts UTF-16 code units, so the `length > 3` test and the 60- and 80-character cuts differ from the source for characters outside the Basic Multilingual Plane.
- ChatInterface.UrlAttachment: the 60-character name cut counts code points, not UTF-16 code units, so a URL with characters outside the Basic Multilingual Plane is cut at a different place.
- VoiceNotesExport.SanitizedAudioTitle: the 50-character cut counts code points, not UTF-16 code units.
- GeminiService.ArticleOf: a `summary` or `publication_date` that parses to a non-string JSON value is dropped; the source keeps it as parsed.
- QuickNotes.FileStem: a character outside the Basic Multilingual Plane becomes one `_` here. The source's pattern works on UTF-16 code units, so it becomes two (`🎉` gives `__`).
- VoiceNotes.VoiceNotesApp: after a note is opened from the history, the source's open note and its history entry are one object. The model tracks that sharing (`sharedWithHistory`) for the save and polish steps. It does not track it for the in-place edits made while recording (audio data and type, raw text) or by the title field's blur handler. Those edits reach the history entry at once in the source; in the model they reach it at the next save.
- HomePage.HomePageState.HandleAccess: the "login failed" error is never reached, because sign-in accepts every non-blank name. The model states that instead of modelling the catch branch.

## Findings

| source | as written | input that shows it | evidently intended | confidence | as-written member | corrected member |
|---|---|---|---|---|---|---|
| Work/ABAII/Project/ver03newtk/index.tsx:218-225 | deleting a note from the history calls `createNewNote()`, which saves the open note first | open a saved note that has content, then delete it from the history: the save puts it straight back | the deleted note stays deleted, i.e. a fresh note is started without saving the previous one | not executed | VoiceNotes.DeleteAsWrittenRestoresOpenNote | VoiceNotes.DeleteNoteRemoves |
| components/features/ExtractMultimediaFeature.tsx:92-104 | the history passed to the chat service already ends with the new user message, and the service appends the message again | any send on the extraction or drafting page: the request ends with two identical user turns, and an attached file is uploaded twice | the history from before the send, with the message appended once (as the analysis page does) | not executed | GenerationChat.RequestAsWrittenRepeatsUserTurn | GenerationChat.RequestSendsMessageOnce |
