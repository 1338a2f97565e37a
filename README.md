# subjeto.com core, modelled in Dafny

subjeto.com is a browser IDE for a Next.js app. The app runs inside a
WebContainer sandbox, with a chat box, a console, an editor and a live
preview. This project models the logic behind those parts and proves what the
code promises about it:

- **WebContainer provider** (`web_container.dfy`). The single sandbox is booted
  or reused, and `npm install` runs once per process. The preview server is
  started and two sandbox event handlers adopt its URL. The project also models
  the one-shot auto-start, reboot, unmount and `writeFile` / `runCommand`.
  - Class `Runtime` holds the module globals and the sandbox's handler table.
  - Class `Provider` holds one mounted provider's React state and refs.
  - What the sandbox answers is a parameter. What it is asked to do is recorded
    in order in the call log `Runtime.calls`.
- **Event bus** (`event_bus.dfy`). The `fileModified` listener list, its
  unsubscribe closures and `emit`. Emit calls the handlers registered when it
  started; handlers may unsubscribe during the emit.
- **Build store** (`store.dfy`). The module-level map from build id to exported
  files.
- **Console** (`console.dfy`):
  - intercepted `console.*` calls, skipped while paused;
  - the log buffer, trimmed to the newest 1000 entries;
  - the text filter and type filter.
- **Message box** (`message_box.dfy`):
  - `@[name](id)` mention parsing, modelled as an explicit leftmost-match
    search equivalent to the regular expression;
  - `/command` parsing over `split(/\s+/)`;
  - the mention and slash pop-ups;
  - grouping of chat messages by role;
  - drag-and-drop attachments and submission.
- **Code utilities** (`code_utils.dfy`). Detection of fenced and inline code
  blocks, done as explicit searches that mirror the two global regular
  expressions. Also their replacement by numbered placeholders.
- **Code editor** (`code_editor.dfy`). The tab bar is the value `Editor`
  (tabs and the active tab). The model covers:
  - open, close, load, edit and save of tabs;
  - language and tab-type inference;
  - the file tree built from a snapshot of the sandbox filesystem.
- **Build route** `guessContentType`, **ESLint marker mapping**, the
  **preview modal**, both **schema viewers**' expand toggles, the **syntax
  highlighter**'s class choice and **FileMentionLink**'s click handler.
- Shared helpers:
  - `Strings` holds `startsWith`, `endsWith`, `indexOf`, `lastIndexOf`,
    `trim`, the `\s` class, ASCII `toLowerCase` and `join`.
  - `Lists` holds `filter` and the includes-then-filter-or-append toggle.

Each source object whose fields change in place is a Dafny class, and each of
its methods states in `ensures` every field it may change. The editor's tab
bar, which the source updates through state copies, is the value `Editor`. Pure source functions are Dafny functions. Loops in the
source are methods with loops, proved equal to a defining function. The
defining function's own properties are proved as lemmas.

### Where the code departs from its intent

The model follows the code as written in four places:

1. Both sandbox handlers in `startPreviewServer` call `setPreviewUrl`
   unconditionally. After a successful start, whichever of `server-ready` and
   the matching `port` event fires second overwrites the URL.
   `LaterEventOverwritesUrl` proves this.
2. `rebootWebContainer` unsubscribes nothing and does not reset
   `serverIsStarting`. A reboot during a start leaves the flag set, so the
   auto-start never fires again and manual starts are no-ops
   (`RebootWhileStartingBlocksAutoStart`).
3. The once-per-process install flag is set whatever the exit code of
   `npm install`. A remount adopts the container even after a failed install
   (`RemountReusesContainer`).
4. An `npm install` that throws leaves `installingDeps` true, and the next
   fresh boot installs again (`ThrowingInstallIsRetried`).

Two consequences of the regular expressions are kept as written:

- The inline-code regex `` /`([^`]+)`/ `` spans line breaks, although its
  comment says it has no multiline support.
- The inline regex also matches inside fenced blocks, so a fence's backticks
  can yield inline blocks.

## Model

| member | source | states |
|---|---|---|
| BuildRoute.GuessContentType | app/build/route.ts:84-92 | one of seven content types; each is returned exactly when the name has its suffix (".jpg" or ".jpeg" for JPEG), and "text/plain" exactly when it has none of them |
| BuildRoute.SuffixesExclusive | app/build/route.ts:85-90 | the suffixes it checks exclude each other, so the order of the tests does not change the result |
| SyntaxHighlighter.GetLanguageClass | components/syntax-highlighter.tsx:25-39 | each Prism class is returned exactly for its language names ("md" and "markdown" share one); "language-jsx" exactly for every other name |
| FileMentionLink.StripMention | components/FileMentionLink.tsx:17-21 | a leading "@" is removed and nothing else changes; a name without one is passed on unchanged |
| FileMentionLink.StripOnlyOne | components/FileMentionLink.tsx:19 | only the first "@" goes ("@@a" gives "@a"), and an "@" later in the name is kept |
| BuildStore.Lookup | utils/store.ts:19-21 | a value exactly for a stored id, and it is the stored map |
| BuildStore.Store.constructor | utils/store.ts:8 | the store starts empty: every id is unknown |
| BuildStore.Store.StoreBuild | utils/store.ts:11-16 | the id then maps to the given files, replacing an earlier map; every other id is unchanged; the key set gains the id |
| BuildStore.Store.GetBuild | utils/store.ts:19-21 | returns the stored files exactly when the id is stored |
| BuildStore.Store.DeleteBuild | utils/store.ts:24-26 | the id is unknown afterwards; every other id is unchanged |
| EventBusProvider.EventBus.constructor | app/providers/EventBusProvider.tsx:23-25 | the `fileModified` list starts empty |
| EventBusProvider.EventBus.On | app/providers/EventBusProvider.tsx:27-33 | the handler is appended after the existing ones; the returned closure unsubscribes that handler |
| EventBusProvider.EventBus.Unsubscribe | app/providers/EventBusProvider.tsx:29-32 | every copy of the handler is removed, the others keep their order, and a second call changes nothing |
| EventBusProvider.EventBus.Emit | app/providers/EventBusProvider.tsx:35-39 | every handler registered when the emit starts is called once, in order, with the payload, including one an earlier handler unsubscribed; afterwards the list is the old one without exactly the handlers unsubscribed during the emit |
| EventBusProvider.EventBus.UnsubscribeAll | app/providers/EventBusProvider.tsx:29-32 | calling several unsubscribe closures in a row removes all of their handlers |
| EslintService.OrElse | services/eslintService.ts:51-52 | an absent or zero number gives the fallback, any other the number |
| EslintService.ToMarker | services/eslintService.ts:43-53 | the marker is an Error exactly for severity 2, keeps the message and start position, and ends at the given end or else one column after the start on the same line |
| EslintService.DefaultRangeIsOneColumn | services/eslintService.ts:51-52 | without an explicit end, a marker spans one column of its start line |
| EslintService.MarkedMessages | services/eslintService.ts:40-41 | the messages of the first result, or none when there are no results |
| EslintService.LaterResultsIgnored | services/eslintService.ts:40-41 | results after the first never affect the markers |
| EslintService.SetMarkersFromESLint | services/eslintService.ts:35-61 | one marker per message of the first result, in order, each the message's marker; they are handed to the editor exactly when it has a model |
| PreviewModal.IframeSrc | components/Preview.tsx:50-53 | empty exactly when no truthy URL is known or a start is in progress; otherwise the URL |
| PreviewModal.BodyOf | components/Preview.tsx:93-104 | the starting message while starting; else the no-preview message for an empty source; else the frame with the current key and source |
| PreviewModal.FrameShowsUrl | components/Preview.tsx:50-104 | the frame is shown exactly when a truthy URL is known and no start is in progress, and it shows that URL |
| PreviewModal.KnownUrlIsShown | components/Preview.tsx:50-53 | with a consistent provider (a known URL means no start in progress), a known URL is always the frame's source |
| PreviewModal.Preview.constructor | components/Preview.tsx:23 | the key starts at 0 |
| PreviewModal.Preview.ForceReload | components/Preview.tsx:25-27 | the key is one more than before |
| PreviewModal.Preview.OnMount | components/Preview.tsx:30-35 | a start is requested exactly when no truthy URL is known and none is in progress; with an instance, the start sets the starting flag to the spawn's outcome, subscribes `server-ready` and `port` handlers, stores their two unsubscribes and spawns `npm run dev`; without a request or an instance nothing changes; the URL, instance, boot and install flags and the frame key never change |
| SchemaViewer.ToggleSchema | components/schema-viewer.tsx:23-29 | a schema's expanded state flips and no other schema's changes; a collapsed one is appended last; collapsing keeps the others in order |
| SchemaViewer.InitiallyCollapsed | components/schema-viewer.tsx:21 | nothing is expanded at first |
| SchemaViewer.ToggleTwiceRestores | components/schema-viewer.tsx:23-29 | expanding a collapsed schema and collapsing it again restores the state |
| GraphqlSchemaViewer.ToggleType | components/graphql-schema-viewer.tsx:19-25 | a type's expanded state flips and no other type's changes; a collapsed one is appended last; collapsing keeps the others in order |
| GraphqlSchemaViewer.InitiallyCollapsed | components/graphql-schema-viewer.tsx:17 | nothing is expanded at first |
| GraphqlSchemaViewer.ToggleTwiceRestores | components/graphql-schema-viewer.tsx:19-25 | expanding a collapsed type and collapsing it again restores the state |
| Lists.Toggle | components/Console.tsx:291-295 | the includes-then-filter-or-append idiom: the element's membership flips, no other's changes, and an absent element is appended after the rest |
| Lists.Filter | components/Console.tsx:278-281 | `filter` keeps exactly the passing elements, at most as many as given |
| Lists.FilterMultiset | components/Console.tsx:278-281 | `filter` keeps every occurrence of a passing element and no occurrence of a failing one |
| Lists.FilterIsSubsequence | components/Console.tsx:278-281 | `filter` keeps the order of what it keeps |
| ConsolePanel.Newest | components/Console.tsx:255-257 | the last n entries: all of them when there are no more than n, otherwise exactly n, and what precedes them is the rest |
| ConsolePanel.AppendBounded | components/Console.tsx:246-260 | the entry is last, the length is one more but at most 1000, and the result is the newest 1000 of the old logs plus the entry |
| ConsolePanel.AppendAllKeepsNewest | components/Console.tsx:246-260 | however many entries are logged in a row, the buffer holds exactly the newest 1000 of everything logged, and at most 1000 |
| ConsolePanel.FilteredLogs | components/Console.tsx:276-282 | an entry is shown exactly when its type is enabled and its message contains the filter ignoring ASCII case; the shown entries keep their order |
| ConsolePanel.ShowsEverythingByDefault | components/Console.tsx:204-209 | with all four types enabled and an empty filter every entry is shown, in order |
| ConsolePanel.ToggleLogTypeFilter | components/Console.tsx:291-295 | the type's enabled state flips; other types are unaffected |
| ConsolePanel.ToggleOffHidesType | components/Console.tsx:291-295 | disabling a type hides exactly that type's entries from what was shown, keeping the rest in order |
| ConsolePanel.ToggleTwiceShowsSame | components/Console.tsx:291-295 | toggling a type twice shows the same entries as before |
| ConsolePanel.Console.constructor | components/Console.tsx:189-216 | restored logs, all four types enabled, not paused, empty filter |
| ConsolePanel.Console.AddLog | components/Console.tsx:246-260 | the logs become the bounded append of the new entry |
| ConsolePanel.Console.Intercept | components/Console.tsx:231-236 | the call always reaches the original console with its arguments; unless paused, the arguments joined by single spaces (`null` and `undefined` as empty strings) are logged, and while paused the logs are unchanged |
| ConsolePanel.ArgTexts | components/Console.tsx:233 | `join` puts one string per argument: the empty string for `null` and `undefined`, the converted value otherwise |
| ConsolePanel.MissingArgumentJoinsAsEmpty | components/Console.tsx:233 | a `null` or `undefined` argument between two others leaves two adjacent spaces |
| ConsolePanel.Console.TogglePause | components/Console.tsx:403 | the pause state flips |
| ConsolePanel.Console.SetFilter | components/Console.tsx:266-274 | the debounced filter takes the typed value |
| ConsolePanel.Console.ClearConsole | components/Console.tsx:284-286 | the logs become empty |
| ConsolePanel.Console.ToggleType | components/Console.tsx:291-295 | the type filter becomes its toggle |
| ConsolePanel.Console.Visible | components/Console.tsx:276-282 | the visible entries are the enabled-type entries whose message contains the filter, in order |
| ConsolePanel.PausedCallsAreNotLogged | components/Console.tsx:232-235 | after pausing, a console call is forwarded and leaves the logs as they were |
| CodeUtils.WordRunEnd | utils/codeUtils.ts:24 | the greedy `(\w+)?`: the longest run of word characters from a position |
| CodeUtils.NextBacktick | utils/codeUtils.ts:34 | the greedy `` [^`]+ ``: the next backtick at or after a position, or the end |
| CodeUtils.FenceAt | utils/codeUtils.ts:24-30 | a fenced match at a position spans at least seven characters and its full match is exactly the matched text |
| CodeUtils.FenceBounds | utils/codeUtils.ts:24-27 | a fence opens with three backticks, a word run and a newline, and closes at the first three backticks after that newline; when no such closing exists, or the word run is not followed by a newline, there is no match |
| CodeUtils.FenceAtParts | utils/codeUtils.ts:24-30 | a fenced match is the block cut at the bounds found for that position |
| CodeUtils.FenceMatch | utils/codeUtils.ts:27-30 | the block cut at an opening fence, word end and closing fence has the word (or "plaintext") as language and the trimmed body as code |
| CodeUtils.FenceAtShape | utils/codeUtils.ts:24-30 | read on its own, every fenced match begins and ends with three backticks, and its language and code are the word and the trimmed body |
| CodeUtils.FindFence | utils/codeUtils.ts:26 | `exec` from `lastIndex`: a match found at or after the position is the fenced match there |
| CodeUtils.FindFenceIsLeftmost | utils/codeUtils.ts:26 | the match `exec` finds is the leftmost: no fenced match starts between the position and it, and when it finds none there is no fenced match from the position on |
| CodeUtils.InlineAt | utils/codeUtils.ts:34-39 | an inline match spans at least three characters, is the matched text and has language "plaintext" |
| CodeUtils.FindInline | utils/codeUtils.ts:36 | a match found at or after the position is the inline match there |
| CodeUtils.FindInlineIsLeftmost | utils/codeUtils.ts:36 | the inline match found is the leftmost, and when none is found there is no inline match from the position on |
| CodeUtils.DetectCodeBlocks | utils/codeUtils.ts:20-43 | all fenced blocks in order of occurrence, then all inline blocks in order |
| CodeUtils.ScanFenced | utils/codeUtils.ts:26-31 | the `exec` loop collects exactly the successive fenced matches, each search resuming after the previous match |
| CodeUtils.ScanInline | utils/codeUtils.ts:36-40 | the `exec` loop collects exactly the successive inline matches |
| CodeUtils.FencedBlocksOccur | utils/codeUtils.ts:27 | every fenced block's full match occurs in the text |
| CodeUtils.InlineBlocksOccur | utils/codeUtils.ts:37 | every inline block's full match occurs in the text |
| CodeUtils.InlineAtShape | utils/codeUtils.ts:34-39 | every inline match is a backtick, a non-empty run without backticks and a backtick; its code is that run trimmed and its language "plaintext" |
| CodeUtils.InlineBlocksShaped | utils/codeUtils.ts:34-39 | every detected inline block has that shape |
| CodeUtils.FencedBlocksShaped | utils/codeUtils.ts:24-30 | every detected fenced block has the fenced shape: backtick fences at both ends, the word or "plaintext" as language, the trimmed body as code |
| CodeUtils.LoneFenceIsDetected | utils/codeUtils.ts:24-30 | a fence around backtick-free code is detected as one block with its language ("plaintext" when none is written), its trimmed code and the whole fence |
| CodeUtils.ReplaceFirst | utils/codeUtils.ts:56 | `replace` with a string pattern: the first occurrence is replaced and the rest kept; without one the text is unchanged |
| CodeUtils.ReplaceCodeBlocks | utils/codeUtils.ts:53-59 | block i's first remaining occurrence becomes placeholder i, block after block |
| CodeUtils.BlockReplacedInPlace | utils/codeUtils.ts:53-59 | a block whose match is the first backtick in the text is replaced in place by `[[CODEBLOCK_0]]`, with the text around it intact |
| CodeEditor.InferLanguage | code-editor.tsx:91-101 | one of six languages; each is returned exactly for its suffixes; every other name is "javascript" |
| CodeEditor.SuffixesExclusive | code-editor.tsx:92-99 | the suffixes it checks exclude each other, so the order of the tests does not matter |
| CodeEditor.GetFileType | code-editor.tsx:256-262 | each data type is returned exactly for its suffix, "code" exactly for every other name |
| CodeEditor.FileTypeAgreesWithLanguage | code-editor.tsx:256-262 | a tab's data type is also the editor's language for that file, and a "code" tab is edited as TypeScript or JavaScript |
| CodeEditor.InitialEditorValid | code-editor.tsx:140-163 | the initial README tab has a unique id and is active |
| CodeEditor.FindById | code-editor.tsx:288 | `find` by id: none exactly when no tab has the id, otherwise an open tab with it |
| CodeEditor.FindByTitle | code-editor.tsx:266 | `find` by title: the first tab with that title, or none exactly when none has it |
| CodeEditor.ActiveTabData | code-editor.tsx:288 | the tab shown is an open tab whose id is the active id, and there is one whenever the active id names an open tab |
| CodeEditor.CloseTab | code-editor.tsx:223-229 | exactly the tabs with other ids remain, in order; another active tab stays active; closing the active tab activates the last remaining one, or none when there is none or its id is "" |
| CodeEditor.CloseTabValid | code-editor.tsx:223-229 | closing keeps ids unique and the active tab open |
| CodeEditor.ContentOrEmpty | code-editor.tsx:274 | the content when present, else the empty string |
| CodeEditor.HandleFileSelect | code-editor.tsx:264-280 | a folder changes nothing; an open title is activated without adding a tab; a new file is appended as a tab with its type and content and activated |
| CodeEditor.FileSelectShowsFile | code-editor.tsx:264-280 | selecting a file keeps the invariant and the editor then shows a tab with that file's name |
| CodeEditor.FileSelectTwiceOpensOnce | code-editor.tsx:266-268 | selecting the same file twice opens one tab |
| CodeEditor.HandleLoad | code-editor.tsx:245-254 | the loaded file is appended as a new tab and activated |
| CodeEditor.LoadShowsFile | code-editor.tsx:245-254 | with a fresh id, loading keeps the invariant and the editor shows exactly the loaded file |
| CodeEditor.HandleTabContentChange | code-editor.tsx:290-294 | tabs with that id get the new content; every other tab and every id, title and type is unchanged |
| CodeEditor.EditActiveTab | code-editor.tsx:290-294 | editing the active tab keeps the invariant and the editor shows the new code |
| CodeEditor.SavePath | code-editor.tsx:238-240 | an absolute name is kept, any other goes under "/src/"; the path is absolute and ends with the name |
| CodeEditor.SavePathIdempotent | code-editor.tsx:238-240 | saving to a saved path writes to the same place |
| CodeEditor.HandleSave | code-editor.tsx:231-243 | with a tab shown, the file takes that tab's content and type and the content is written to its path; without one nothing happens |
| CodeEditor.JoinPath | code-editor.tsx:57-59 | the child path starts with the parent path, ends with the name and has a "/" just before it |
| CodeEditor.JoinNoDoubleSlash | code-editor.tsx:57-59 | joining a slash-free name never creates "//" |
| CodeEditor.BuildFileTree | code-editor.tsx:47-88 | no tree without a container; otherwise the tree of the listing, with unlistable directories empty and entries that are neither files nor directories skipped |
| CodeEditor.ListTreeIdsArePaths | code-editor.tsx:62-80 | every node's id is its parent's path joined with its name, all the way down |
| MessageBoxComponent.Split | components/message-box.tsx:67 | `split(/\s+/)` yields at least one piece |
| MessageBoxComponent.SplitPieces | components/message-box.tsx:67 | no piece holds whitespace and together they hold every other character, in order |
| MessageBoxComponent.SplitEmptyPieces | components/message-box.tsx:67 | only the first and the last piece can be empty; the first is empty exactly for leading whitespace, the last exactly for trailing whitespace or an empty text |
| MessageBoxComponent.SplitCuts | components/message-box.tsx:67 | the text is the pieces with one separator put back between each two consecutive ones, so each cut sits at a whitespace run |
| MessageBoxComponent.SeparatorsAreRuns | components/message-box.tsx:67 | every separator the text is cut at is a non-empty run of whitespace |
| MessageBoxComponent.SlashCommands | components/message-box.tsx:68-72 | a command is listed exactly when "/" followed by it is a token |
| MessageBoxComponent.ParseUsedSlashCommands | components/message-box.tsx:65-74 | exactly the tokens starting with "/", less the "/", in order; none holds whitespace |
| MessageBoxComponent.UsedCommandsAreWords | components/message-box.tsx:67-70 | a used command never holds whitespace |
| MessageBoxComponent.SlashCommandsOfAppend | components/message-box.tsx:65-74 | text appended after whitespace adds its commands after the earlier ones |
| MessageBoxComponent.SelectedSlashCommandIsUsed | components/message-box.tsx:316-327 | a command chosen from the pop-up after whitespace is exactly the one command the completed text adds |
| MessageBoxComponent.FindNameEnd | components/message-box.tsx:55 | the lazy `(.*?)\]\(`: the first "](" on the same line |
| MessageBoxComponent.FindNameEndNone | components/message-box.tsx:55 | when none is found, every later "](" has a line break before it |
| MessageBoxComponent.FindIdEnd | components/message-box.tsx:55 | the lazy `(.*?)\)`: the first ")" on the same line |
| MessageBoxComponent.FindIdEndNone | components/message-box.tsx:55 | when none is found, every later ")" has a line break before it |
| MessageBoxComponent.MatchAt | components/message-box.tsx:55 | a match at a position reads "@[", a name, "](", an id and ")" |
| MessageBoxComponent.FindMention | components/message-box.tsx:58 | `exec` from `lastIndex`: the match found starts at or after it |
| MessageBoxComponent.FindMentionIsLeftmost | components/message-box.tsx:58 | no match starts before the one found, nor anywhere when none is found |
| MessageBoxComponent.MentionIdsAreClean | components/message-box.tsx:55-61 | every parsed id is free of ")" and line breaks |
| MessageBoxComponent.ParseMentionedFileIds | components/message-box.tsx:54-63 | the loop collects exactly the ids of the successive leftmost matches |
| MessageBoxComponent.SelectedMentionIsParsed | components/message-box.tsx:302-314 | a mention inserted by the pop-up (no "@" before it; a name without "]", an id without ")", neither with a line break) parses back to exactly the file's id |
| MessageBoxComponent.InsertedMentionMatches | components/message-box.tsx:55 | at the inserted "@[", the expression matches the whole mention, with the id as its second group |
| MessageBoxComponent.AfterEdit | components/message-box.tsx:254-286 | a pop-up is open exactly when some trigger character has no whitespace after it; the query is then the text after the last one; when closed, the query is left as it was |
| MessageBoxComponent.FilteredFiles | components/message-box.tsx:288-293 | nothing for a blank query; otherwise exactly the files whose name contains the query ignoring ASCII case, in order |
| MessageBoxComponent.FilteredSlashCommands | components/message-box.tsx:295-300 | nothing for a blank query; otherwise exactly the commands starting with the query ignoring ASCII case, in order |
| MessageBoxComponent.GroupMessagesByRole | components/message-box.tsx:93-109 | the groups, concatenated, are the messages; each is a non-empty run of one role and neighbours differ in role |
| MessageBoxComponent.WellGroupedPrefix | components/message-box.tsx:93-109 | a prefix of a well-formed grouping is well formed |
| MessageBoxComponent.MessageBox.constructor | components/message-box.tsx:208-220 | empty text and attachments, both pop-ups closed with empty queries, not dragging |
| MessageBoxComponent.MessageBox.HandleDragEnter | components/message-box.tsx:221-225 | dragging is set |
| MessageBoxComponent.MessageBox.HandleDragLeave | components/message-box.tsx:226-230 | dragging is cleared |
| MessageBoxComponent.MessageBox.HandleDrop | components/message-box.tsx:235-242 | dragging is cleared and the dropped files follow those already attached |
| MessageBoxComponent.MessageBox.HandleMessageChange | components/message-box.tsx:254-286 | the text is taken and each pop-up follows its trigger character as `AfterEdit` says |
| MessageBoxComponent.MessageBox.HandleFileMentionSelect | components/message-box.tsx:302-314 | without "@" nothing changes; otherwise the text from the last "@" on becomes the mention and the pop-up closes |
| MessageBoxComponent.MessageBox.HandleSlashCommandSelect | components/message-box.tsx:316-327 | without "/" nothing changes; otherwise the text from the last "/" on becomes the command and a space, and the pop-up closes |
| MessageBoxComponent.MessageBox.HandleSubmit | components/message-box.tsx:329-341 | a blank text without attachments sends nothing and changes nothing; otherwise the text, attachments, mentioned ids and used commands are sent and the box is emptied |
| WebContainerProvider.FreshBootCalls | app/providers/WebContainerProvider.tsx:192-206 | a fresh boot asks for one boot, then a mount when the boot succeeded, then one `npm install` exactly when the mount succeeded and dependencies were not yet installed |
| WebContainerProvider.ReleasedTwice | app/providers/WebContainerProvider.tsx:176 | running the unsubscribes for two lists in turn is running them for both |
| WebContainerProvider.CollectOutput | app/providers/WebContainerProvider.tsx:263-271 | every output chunk is collected, in arrival order |
| WebContainerProvider.Runtime.constructor | app/providers/WebContainerProvider.tsx:17-20 | no global container, dependencies not installed, no handlers |
| WebContainerProvider.Runtime.Subscribe | app/providers/WebContainerProvider.tsx:290 | the handler is registered last and its unsubscribe removes exactly it |
| WebContainerProvider.Runtime.Unsubscribe | app/providers/WebContainerProvider.tsx:294 | exactly that handler is removed, and releasing it again would change nothing |
| WebContainerProvider.ReleasedAgain | app/providers/WebContainerProvider.tsx:176 | running the same unsubscribes a second time removes nothing more |
| WebContainerProvider.Provider.constructor | app/providers/WebContainerProvider.tsx:162-171 | no instance, no URL, not starting, booting, not installing, no subscriptions, auto-start not yet fired |
| WebContainerProvider.Provider.Boot | app/providers/WebContainerProvider.tsx:182-215 | a global container is adopted with no sandbox call. Otherwise boot, mount and a once-per-process install are issued in order. The container is published only when all of them succeed. The install flag is set whatever the exit code, and a throwing install leaves `installingDeps` set. Booting always ends false |
| WebContainerProvider.Provider.Reboot | app/providers/WebContainerProvider.tsx:236-243 | the global container, instance and URL are forgotten and the auto-start is re-armed before a fresh boot. `installedDependencies`, `serverIsStarting`, the subscriptions and the listener ids are kept; `installingDeps` ends set exactly when the fresh boot starts an install that throws. The auto-start is due afterwards exactly when the boot succeeded and no start was in progress |
| WebContainerProvider.Provider.WriteFile | app/providers/WebContainerProvider.tsx:245-256 | without an instance nothing is written; otherwise exactly one write of that path and content |
| WebContainerProvider.Provider.RunCommand | app/providers/WebContainerProvider.tsx:258-272 | without an instance it fails with "not ready" and spawns nothing; otherwise it spawns the command once and returns its output in order, or the spawn's failure |
| WebContainerProvider.Provider.StartPreviewServer | app/providers/WebContainerProvider.tsx:274-317 | a no-op without an instance, with a URL, or while starting. Otherwise it marks the start and registers a `server-ready` and a `port` handler, keeping both unsubscribes. It then spawns `npm run dev`. A failed spawn clears the start and leaves the handlers registered |
| WebContainerProvider.Provider.OnServerReady | app/providers/WebContainerProvider.tsx:290-295 | with a handler of this session registered, the URL is adopted whatever the port, the start ends and the handler is removed; otherwise nothing changes |
| WebContainerProvider.Provider.OnPort | app/providers/WebContainerProvider.tsx:298-308 | only port 3000 with status "open" and a registered handler adopts the URL, ends the start and removes the handler; every other event changes nothing |
| WebContainerProvider.Provider.AutoStart | app/providers/WebContainerProvider.tsx:319-330 | fires exactly when an instance exists, no URL is known, no start is in progress and it has not fired; it then sets its flag and starts the server, with the start's new state. The instance, URL, boot and install flags and both module globals never change |
| WebContainerProvider.Provider.Unmount | app/providers/WebContainerProvider.tsx:175-178 | every stored unsubscribe runs, in order, and the list is emptied |
| WebContainerProvider.RemountReusesContainer | app/providers/WebContainerProvider.tsx:185-206 | over two sessions the sandbox is booted once and installed once, even after an install that exited with failure; the second session adopts the first container |
| WebContainerProvider.RebootKeepsInstall | app/providers/WebContainerProvider.tsx:236-243 | a reboot boots a second container but does not install again |
| WebContainerProvider.LaterEventOverwritesUrl | app/providers/WebContainerProvider.tsx:290-309 | after an auto-start, whichever of the `port` and `server-ready` events fires second decides the URL |
| WebContainerProvider.RebootWhileStartingBlocksAutoStart | app/providers/WebContainerProvider.tsx:236-243 | a reboot during a start keeps the start flag, so the auto-start does not fire and a manual start spawns nothing |
| WebContainerProvider.BootFailureThenStart | app/providers/WebContainerProvider.tsx:210-214 | a boot that throws leaves the session not booting, with no instance and no URL, and a later start spawns nothing |
| WebContainerProvider.ThrowingInstallIsRetried | app/providers/WebContainerProvider.tsx:197-206 | an install that throws leaves `installingDeps` set, and the next fresh boot installs again |

## Left out

- The WebContainer API is not modelled (`WebContainer.boot`, `mount`,
  `spawn`, `fs`, `on`, output streams). Its answers are method parameters and
  its requests are entries of `Runtime.calls`.
- React scheduling is not modelled. Each handler and effect is one atomic
  method, state setters take effect at once, and intermediate states across
  `await` points are not modelled.
- Console output, `localStorage` persistence of the logs, `JSON.parse` of
  saved logs, clipboard, timers and the 300 ms debounce are I/O or timing.
  The restored logs and the debounced filter value are inputs.
- In `addLog`, the in-place `splice` on the fresh copy is modelled as taking
  the newest slice of that copy. The result is the same.
- `generateId`, `Date.now` and `new Date()` are clocks and randomness. Tab
  ids, log ids and timestamps are parameters.
- `toLowerCase` is modelled for the ASCII letters only. Other characters are
  compared unchanged.
- The file tree reads the filesystem through an `FsEntry` snapshot. A directory whose listing fails is not listable, and a file whose
  read fails has no contents.
- Rendering, styling, icons, keyboard shortcuts, modals and the drag-over
  handler are presentation only.
- Authentication (`AuthGuard`, nhost sign-in) is not modelled.
- The chat submit and preview handlers of the editor page
  (`handleChatSubmit`, `handlePreview`) are timers and logging around calls
  modelled elsewhere.
- The build route's POST handler and `collectExportedFiles` use the sandbox
  filesystem and the network. Only `guessContentType` is modelled.
- `prettierService.ts` and `lintCode` call foreign libraries. Only the
  marker mapping `setMarkersFromESLint` is modelled.
- The Preview modal's event-bus subscription is modelled through the event
  bus itself, not as a second copy.
- `utils/copyFolderRecursive.ts` and `utils/runCommand.ts` are not part of
  this model.
- ConsolePanel.Console.Intercept: an argument other than `null` or
  `undefined` enters as the string `String(value)` would give. That
  conversion (`toString`, arrays, objects) is a foreign call, so it is an input.
- EventBusProvider.EventBus.Emit: a handler that subscribes during an emit
  is not modelled. In the source `for…of` walks the live array, so such a
  handler is called in the same emit as long as no unsubscribe has replaced
  the array. The model's handlers can only unsubscribe.
- CodeEditor.HandleSave: the source assigns `content` and `type` on the
  caller's file object in place. The model returns the updated file as a new
  value, so aliasing of that object by other holders is not modelled.
