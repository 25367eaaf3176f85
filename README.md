# React AI Studio client: the in-browser build and preview pipeline

This Dafny project models the core of the React AI Studio client. It is a
browser playground: the user edits a small React project (a collection of
named files), a web worker compiles it with Babel, and the result runs in an
iframe beside an AI chat panel. The model covers:

- the file collection and its operations (add, remove, rename, edit), kept as
  a JavaScript object whose keys enumerate in insertion order
  (`file_collection.dfy`, `aistudio.dfy`, `code_editor.dfy`);
- the language chosen for a file name and the template files a project starts
  with (`utils.dfy`, `files.dfy`);
- the tab strip of the editor (`file_name_list.dfy`);
- the compiler worker: the automatic `import React` line, module lookup for
  relative imports, the JSON and CSS loaders, and the recursive rewriting of
  import declarations to blob URLs (`compiler_text.dfy`, `compiler_worker.dfy`);
- the preview host, which fills the import map and the compiled code into
  the iframe's HTML template through `String.prototype.replace`, including its
  `$` replacement patterns (`preview.dfy`);
- the chat store and the chat panel: the context-file prompt and the reading
  of the streamed reply, line by line, into the last message
  (`chat_store.dfy`, `chat_component.dfy`);
- the Markdown `code` renderer's choice between a highlighted block and
  inline code (`markdown.dfy`).

`strings.dfy` holds the string operations of JavaScript that the rest relies
on (`startsWith`, `indexOf`, `split`, `join`, `trim`, the decimal form of a
number). `wrappers.dfy` holds `Option`, which stands for `undefined` and for
failures.

Babel, the network, the clock and the random number generator are
parameters. Babel is `parse` and `generate` in `CompilerWorker.Env`. The
reply stream is the list of decoded chunks, and `JSON.parse(...).content` is
a function `parse`. The clock is `now`, and the random file name is a short
digit string. Components whose state React keeps are classes. Their fields
are the state, and their methods are the handlers and effects.

## Model

The table lists the members whose contracts state something about the
source. A definition that only computes (such as `CompilerWorker.Transform`,
`ResolveOne`, `ResolveAll` and `Reply`, `CompilerText.GetModuleFile`,
`ModuleName` and `CssModule`, `Preview.Expand`, `ReplaceFirst` and
`IframeDocument`, `ChatComponent.ContextBlock` and `StreamDeltas`, or
`Strings.Trim`, `IsSpace` and `SplitOn`) is listed through the lemmas about
it, whose rows cite the same source lines.

| member | source | states |
|---|---|---|
| StudioUtils.Suffix | src/ReactAiStudio/utils.ts:28 | the suffix holds no dot, ends the name, and follows a dot when shorter than the name |
| StudioUtils.SuffixIsLastSplitPiece | src/ReactAiStudio/utils.ts:28 | the suffix is the last piece of `name.split('.')` |
| StudioUtils.SuffixAfterLastDot | src/ReactAiStudio/utils.ts:28 | the suffix follows the last dot, and is the whole name when there is no dot |
| StudioUtils.FileName2Language | src/ReactAiStudio/utils.ts:26-36 | the result is one of four languages; each is chosen exactly when the suffix is one of its extensions (case-sensitive), and JavaScript is the result for every other suffix |
| StudioUtils.DotlessName | src/ReactAiStudio/utils.ts:26-36 | a name without a dot that is not itself a known extension is JavaScript |
| TemplateFiles.TemplateNamesDistinct | src/ReactAiStudio/files.ts:24-36 | the reserved file names are pairwise different |
| TemplateFiles.InitFiles | src/ReactAiStudio/files.ts:42-67 | the initial collection has exactly the four template keys in declaration order, each entry named after its key with its text and language |
| TemplateFiles.ReservedLanguages | src/ReactAiStudio/files.ts:42-67 | the languages written into the initial files are the ones `fileName2Language` gives their names |
| FileCollection.Assign | src/ReactAiStudio/AIStudioContext.tsx:104-108 | `files[k] = f` sets `k`, leaves every other key alone, keeps an existing key's place, puts a new key last, and keeps the collection well formed |
| FileCollection.Without | src/ReactAiStudio/components/ChatComponent/index.tsx:276 | the filter drops exactly the given name (the definition keeps the others in their order), leaves a list without that name unchanged, and keeps a list without duplicates free of duplicates |
| FileCollection.Delete | src/ReactAiStudio/AIStudioContext.tsx:117 | `delete files[k]` removes `k` only, keeps the others in order, and changes nothing when `k` is absent |
| AIStudio.Renamed | src/ReactAiStudio/AIStudioContext.tsx:126-147 | no change without the old file or without a new name; otherwise the new key holds the old text with the new name's language, the old key is gone, other keys are untouched, and the key order is `{...rest, ...newFile}` |
| AIStudio.RenamedKeepsNames | src/ReactAiStudio/AIStudioContext.tsx:126-147 | a rename keeps every entry named after its key |
| AIStudio.AddKeepsNames | src/ReactAiStudio/AIStudioContext.tsx:103-110 | adding a file keeps every entry named after its key |
| AIStudio.RenameToSelf | src/ReactAiStudio/AIStudioContext.tsx:126-147 | renaming a file to its own name recomputes its language, leaves every other entry alone, and moves its key to the last place of the order, as `{...rest, ...newFile}` adds it again |
| AIStudio.Studio.constructor | src/ReactAiStudio/AIStudioContext.tsx:87-97 | the state starts with the collection from the URL hash if it decodes, `initFiles` otherwise, `App.tsx` selected and the chat hidden |
| AIStudio.Studio.AddFile | src/ReactAiStudio/AIStudioContext.tsx:103-110 | the name gets a fresh empty file with its language; nothing else changes |
| AIStudio.Studio.RemoveFile | src/ReactAiStudio/AIStudioContext.tsx:116-119 | only the named key goes; an absent name changes nothing |
| AIStudio.Studio.UpdateFileName | src/ReactAiStudio/AIStudioContext.tsx:126-147 | the collection becomes the renamed one; the selection and the chat flag stay |
| AIStudio.Studio.SetFiles | src/ReactAiStudio/AIStudioContext.tsx:91 | the collection is replaced and nothing else changes |
| AIStudio.Studio.SetSelectedFileName | src/ReactAiStudio/AIStudioContext.tsx:94 | any name can be selected; nothing else changes |
| AIStudio.Studio.SetIsShow | src/ReactAiStudio/AIStudioContext.tsx:97 | only the chat flag changes |
| CodeEditor.Edited | src/ReactAiStudio/components/CodeEditor/index.tsx:37-49 | the edit succeeds exactly when the selected file exists and its own name is a key; then only the entry under that name gets the new text, and the keys and their order stay |
| CodeEditor.EditSelected | src/ReactAiStudio/components/CodeEditor/index.tsx:44-49 | in a collection whose entries are named after their keys, the selected file gets the text and keeps its name and language |
| CodeEditor.OnEditorChange | src/ReactAiStudio/components/CodeEditor/index.tsx:44-49 | the handler stores the edited collection, or leaves it alone where the source throws |
| FileNameList.Tabs | src/ReactAiStudio/components/CodeEditor/FileNameList/index.tsx:89-98 | one tab per key, in order; only the last tab is in creating mode, and only while creating; readonly exactly for the reserved names; active exactly for the selected name |
| FileNameList.OneActiveTab | src/ReactAiStudio/components/CodeEditor/FileNameList/index.tsx:98 | with distinct keys at most one tab is active, and one is exactly when the selection is a key |
| FileNameList.NewTabName | src/ReactAiStudio/components/CodeEditor/FileNameList/index.tsx:68 | a new tab's name is `comp`, at most four characters without a dot, then `tsx` |
| FileNameList.NewTabIsJavaScript | src/ReactAiStudio/components/CodeEditor/FileNameList/index.tsx:68 | that name has no dot, so the new file's language is JavaScript |
| FileNameList.AddedTabIsCreating | src/ReactAiStudio/components/CodeEditor/FileNameList/index.tsx:66-70 | after adding an unused name, its tab is the last one and the only one in creating mode |
| FileNameList.TabList.constructor | src/ReactAiStudio/components/CodeEditor/FileNameList/index.tsx:42 | the strip starts out not creating |
| FileNameList.TabList.HandleEditComplete | src/ReactAiStudio/components/CodeEditor/FileNameList/index.tsx:56-60 | the old name is renamed to the new one, the new name is selected, and creating mode ends |
| FileNameList.TabList.AddTab | src/ReactAiStudio/components/CodeEditor/FileNameList/index.tsx:66-70 | a file with the random name is added and creating mode starts |
| FileNameList.TabList.HandleRemove | src/ReactAiStudio/components/CodeEditor/FileNameList/index.tsx:76-80 | the file is removed and the entry file is selected |
| FileNameList.TabList.HandleClick | src/ReactAiStudio/components/CodeEditor/FileNameList/index.tsx:100 | clicking a tab selects its name and changes nothing else |
| CompilerText.ReactImportFromSpec | src/ReactAiStudio/components/Preview/compiler.worker.ts:30-32 | the left-to-right scan finds the React import pattern exactly when it occurs somewhere |
| CompilerText.ReactImportAtIsRegexMatch | src/ReactAiStudio/components/Preview/compiler.worker.ts:30 | matching with maximal space runs agrees with the regular expression of `regexReact`, in which each space run may stop anywhere, at every index |
| CompilerText.BeforeTransformCode | src/ReactAiStudio/components/Preview/compiler.worker.ts:27-36 | the code is always a suffix of the result; the import line is prepended exactly for a JSX/TSX name without a React import |
| CompilerText.ReactImportLineImportsReact | src/ReactAiStudio/components/Preview/compiler.worker.ts:30-33 | the prepended line itself matches the pattern |
| CompilerText.BeforeTransformCodeIdempotent | src/ReactAiStudio/components/Preview/compiler.worker.ts:27-36 | applying `beforeTransformCode` twice is the same as once |
| CompilerText.ModuleNameEndsPath | src/ReactAiStudio/components/Preview/compiler.worker.ts:71 | the module name is a suffix of the import path |
| CompilerText.ModuleNameHasNoDotSlash | src/ReactAiStudio/components/Preview/compiler.worker.ts:71 | the module name holds no `./` |
| CompilerText.ModuleNameFollowsDotSlash | src/ReactAiStudio/components/Preview/compiler.worker.ts:71 | the module name follows a `./`, or is the whole path when there is none |
| CompilerText.FirstMatchSpec | src/ReactAiStudio/components/Preview/compiler.worker.ts:74-81 | the search returns the first script key having the name as a dot-separated segment, and `None` only when no key has it |
| CompilerText.FirstMatchIsFirst | src/ReactAiStudio/components/Preview/compiler.worker.ts:74-81 | the first matching key is the one found |
| CompilerText.GetModuleFileFinds | src/ReactAiStudio/components/Preview/compiler.worker.ts:69-87 | a dotted name is looked up as it is; a dotless one under the first matching script key, else as it is; whatever is found is an entry of the collection |
| CompilerText.MatchingKeyResolves | src/ReactAiStudio/components/Preview/compiler.worker.ts:73-86 | a dotless name that matches some script key always resolves to a file |
| CompilerText.JsonModule | src/ReactAiStudio/components/Preview/compiler.worker.ts:95-98 | the JSON module is `export default ` followed by the file's text |
| CompilerText.CssModuleEmbeds | src/ReactAiStudio/components/Preview/compiler.worker.ts:106-120 | the CSS module holds the id `style_<time>_<name>` and the raw CSS inside a template literal |
| CompilerWorker.PluginEnv | src/ReactAiStudio/components/Preview/compiler.worker.ts:128-158 | the environment the worker builds resolves with `getModuleFile` and loads with the CSS and JSON loaders |
| CompilerWorker.BlobUrlIsNotRelative | src/ReactAiStudio/components/Preview/compiler.worker.ts:134 | a rewritten source never starts with `.`, so it is not taken for a relative import |
| CompilerWorker.BlobUrlInjective | src/ReactAiStudio/components/Preview/compiler.worker.ts:148-152 | different blobs have different URLs |
| CompilerWorker.ResolveOneShape | src/ReactAiStudio/components/Preview/compiler.worker.ts:131-155 | the visitor leaves a non-relative or unresolved import, and all other code, unchanged and creates no blob; any other import becomes the URL of the last blob it created |
| CompilerWorker.ResolveAllKeeps | src/ReactAiStudio/components/Preview/compiler.worker.ts:131-155 | a completed visit keeps the number of pieces and every untouched piece |
| CompilerWorker.ResolveAllRewrites | src/ReactAiStudio/components/Preview/compiler.worker.ts:131-155 | after a completed visit, every resolvable relative import points at a blob created during that visit |
| CompilerWorker.ErrorOnlyWithoutEntry | src/ReactAiStudio/components/Preview/compiler.worker.ts:166-184 | the worker replies `ERROR` exactly when `main.tsx` is missing |
| CompilerWorker.ParseFailureIsEmptyModule | src/ReactAiStudio/components/Preview/compiler.worker.ts:49-59 | a Babel failure is caught and gives the empty module with no blob |
| CompilerWorker.FailingImportIsEmptyBlob | src/ReactAiStudio/components/Preview/compiler.worker.ts:146-152 | an import of a script Babel cannot compile is still rewritten, to one new empty blob |
| CompilerWorker.JsonImportIsOneBlob | src/ReactAiStudio/components/Preview/compiler.worker.ts:143-145 | a JSON import becomes one blob holding `export default` and the file's text |
| CompilerWorker.CssImportIsOneBlob | src/ReactAiStudio/components/Preview/compiler.worker.ts:140-142 | a CSS import becomes one blob holding the style module, ahead of the JSON check |
| CompilerWorker.ScriptImportIsCompiled | src/ReactAiStudio/components/Preview/compiler.worker.ts:146-152 | an import of any other file is compiled recursively with the same collection: that compile's blobs, then one blob holding its code, and the import points at that last blob; a compile out of depth makes the visit out of depth |
| CompilerWorker.TransformFuel | src/ReactAiStudio/components/Preview/compiler.worker.ts:46-60 | a result reached within a depth bound does not change with a larger bound |
| CompilerWorker.ResolveStep | src/ReactAiStudio/components/Preview/compiler.worker.ts:131-155 | visiting one more piece extends the visit of the prefix by that piece's visit |
| CompilerWorker.ResolvePrefixNone | src/ReactAiStudio/components/Preview/compiler.worker.ts:131-155 | a visit that runs out of depth on a prefix runs out on the whole |
| CompilerWorker.Worker.constructor | src/ReactAiStudio/components/Preview/compiler.worker.ts:175 | the worker starts with no blobs and no replies |
| CompilerWorker.Worker.CreateObjectUrl | src/ReactAiStudio/components/Preview/compiler.worker.ts:97 | one new blob holding the text, and its URL |
| CompilerWorker.Worker.BabelTransform | src/ReactAiStudio/components/Preview/compiler.worker.ts:46-60 | the compiled code and the blobs created are those of the specification `Transform` |
| CompilerWorker.Prepare | src/ReactAiStudio/components/Preview/compiler.worker.ts:47 | the text handed to Babel is the one `beforeTransformCode` gives |
| CompilerWorker.Worker.ResolveImports | src/ReactAiStudio/components/Preview/compiler.worker.ts:128-158 | the in-place traversal leaves the program and the blob registry as the specification `ResolveAll` says |
| CompilerWorker.VisitAdvances | src/ReactAiStudio/components/Preview/compiler.worker.ts:131-155 | one visited declaration extends the visited prefix and the blob registry by that declaration's visit |
| CompilerWorker.Worker.ImportDeclaration | src/ReactAiStudio/components/Preview/compiler.worker.ts:131-155 | the visitor overwrites only its own declaration, as `ResolveOne` says, and appends its blobs |
| CompilerWorker.Worker.OnMessage | src/ReactAiStudio/components/Preview/compiler.worker.ts:175-184 | the worker posts exactly one reply, the one `Reply` gives for the posted collection |
| Preview.ExpandLiteral | src/ReactAiStudio/components/Preview/index.tsx:85-95 | replacement text without `$` is inserted as it is |
| Preview.ReplaceFirstKeepsRest | src/ReactAiStudio/components/Preview/index.tsx:85-95 | `replace` with a string pattern changes nothing without the pattern, and otherwise keeps the text before and after its first occurrence |
| Preview.ReplaceFirstLiteral | src/ReactAiStudio/components/Preview/index.tsx:85-95 | for replacement text without `$`, `replace` is the verbatim replacement |
| Preview.DollarAmpersandKeepsText | src/ReactAiStudio/components/Preview/index.tsx:85-95 | a replacement that is exactly `$&` puts the matched slot back, so the text is unchanged |
| Preview.ExpandDollarAmpersand | src/ReactAiStudio/components/Preview/index.tsx:85-95 | a `$&` inside replacement text expands to the matched text, the text around it kept |
| Preview.CodeWithDollarAmpersand | src/ReactAiStudio/components/Preview/index.tsx:88-94 | code holding `$&` among `$`-free text gets the slot itself where `$&` stood, and differs from the verbatim splice unless the slot is `$&` |
| Preview.TagsAreLiteral | src/ReactAiStudio/components/Preview/index.tsx:88-94 | the tags around the inserted values hold no `$` |
| Preview.IframeDocumentVerbatim | src/ReactAiStudio/components/Preview/index.tsx:84-98 | with an import map and code free of `$`, the document is the template with both slots filled verbatim |
| Preview.ReplaceVerbatimContains | src/ReactAiStudio/components/Preview/index.tsx:85-95 | when the slot occurs, the inserted tag is in the result |
| Preview.PreviewHost.constructor | src/ReactAiStudio/components/Preview/index.tsx:48-101 | the host starts with no code and no error, and shows the template filled with the import map and empty code |
| Preview.PreviewHost.OnWorkerMessage | src/ReactAiStudio/components/Preview/index.tsx:62-68 | only `COMPILED_CODE` replaces the code, and nothing clears the error |
| Preview.PreviewHost.OnWindowMessage | src/ReactAiStudio/components/Preview/index.tsx:115-120 | an `ERROR` message sets the error and any other message is ignored |
| Preview.PreviewHost.Rendered | src/ReactAiStudio/components/Preview/index.tsx:106-108 | a new document in a new blob is built exactly when the import map or the code differs from the last build |
| ChatStore.UpdatedLast | src/store/chatStore.tsx:86-93 | only the last message can change, and only its content, only when it is the assistant's |
| ChatStore.UpdatedLastTwice | src/store/chatStore.tsx:86-93 | two updates in a row leave the second content: updates replace rather than append |
| ChatStore.UpdateAfterAppend | src/store/chatStore.tsx:75-93 | an update after appending an empty assistant message fills exactly that message |
| ChatStore.Store.constructor | src/store/chatStore.tsx:53-57 | conversation 4, no messages, not typing |
| ChatStore.Store.SetConversationId | src/store/chatStore.tsx:63 | only the id changes |
| ChatStore.Store.SetIsTyping | src/store/chatStore.tsx:69 | only the typing flag changes |
| ChatStore.Store.AddMessage | src/store/chatStore.tsx:75-79 | one message is appended at the end |
| ChatStore.Store.UpdateLastMessage | src/store/chatStore.tsx:86-93 | the messages become `UpdatedLast` of the old ones |
| ChatStore.Store.ClearHistory | src/store/chatStore.tsx:99 | the messages are emptied; the id and the flag stay |
| Strings.TrimSpec | src/ReactAiStudio/components/ChatComponent/index.tsx:91 | `trim` cuts only white space before and after its result, which neither starts nor ends with white space, so it is the largest such infix; it is empty exactly for all-white-space text |
| Strings.TrimSlice | src/ReactAiStudio/components/ChatComponent/index.tsx:91 | the trimmed text is `s[a..b]` with only white space before `a` and from `b` on |
| Strings.JoinWithContains | src/ReactAiStudio/components/ChatComponent/index.tsx:94-96 | every joined block occurs in the joined text |
| ChatComponent.ContextBlockHoldsFile | src/ReactAiStudio/components/ChatComponent/index.tsx:95 | a context block starts with `File: <name>` and holds the file's text between line breaks |
| ChatComponent.FinalPrompt | src/ReactAiStudio/components/ChatComponent/index.tsx:99-101 | the prompt ends with the question; it is the question alone exactly without context files |
| ChatComponent.FinalPromptHoldsContext | src/ReactAiStudio/components/ChatComponent/index.tsx:94-101 | with context files the prompt starts with `Context Files:` and holds every file's block |
| ChatComponent.Blocks | src/ReactAiStudio/components/ChatComponent/index.tsx:94-96 | one block per listed name, in list order |
| ChatComponent.FinalPromptLayout | src/ReactAiStudio/components/ChatComponent/index.tsx:99-101 | with context files: the header, the blocks in list order joined by blank lines, a blank line, `User Question: ` and the text; the first block follows the header directly |
| ChatComponent.StreamDeltasAppend | src/ReactAiStudio/components/ChatComponent/index.tsx:135-154 | a `[DONE]` ends only its own chunk: the contents of the stream are those of each chunk in turn |
| ChatComponent.StopEndsDeltas | src/ReactAiStudio/components/ChatComponent/index.tsx:145 | nothing after a stop counts |
| ChatComponent.DeltasFrom | src/ReactAiStudio/components/ChatComponent/index.tsx:140-153 | the contents of a chunk from one line on: an ignored line adds nothing, `[DONE]` ends them, parsed content comes first |
| ChatComponent.DoneEndsChunk | src/ReactAiStudio/components/ChatComponent/index.tsx:142-145 | lines after a `[DONE]` payload contribute nothing to their chunk |
| ChatComponent.IgnoreAddsNothing | src/ReactAiStudio/components/ChatComponent/index.tsx:140-153 | an ignored line adds nothing |
| ChatComponent.SkippedLineIgnored | src/ReactAiStudio/components/ChatComponent/index.tsx:142-151 | a line that is not a data line, or whose payload does not parse, contributes nothing |
| ChatComponent.ConcatAppend | src/ReactAiStudio/components/ChatComponent/index.tsx:149 | the text accumulated over two runs of contents is the two texts one after the other |
| ChatComponent.WithContextFile | src/ReactAiStudio/components/ChatComponent/index.tsx:296 | the name is listed afterwards, a listed name changes nothing, and no name is listed twice |
| ChatComponent.ChatPanel.constructor | src/ReactAiStudio/components/ChatComponent/index.tsx:50-52 | no context files and an empty input |
| ChatComponent.ChatPanel.OnSelectedFileName | src/ReactAiStudio/components/ChatComponent/index.tsx:216-220 | a non-empty selection joins the context files unless listed |
| ChatComponent.ChatPanel.PickFile | src/ReactAiStudio/components/ChatComponent/index.tsx:295-298 | a picked file joins the context files unless listed |
| ChatComponent.ChatPanel.RemoveContextFile | src/ReactAiStudio/components/ChatComponent/index.tsx:276 | exactly that name leaves the list |
| ChatComponent.ChatPanel.SetInput | src/ReactAiStudio/components/ChatComponent/index.tsx:314 | only the input changes |
| ChatComponent.ChatPanel.SubmitChat | src/ReactAiStudio/components/ChatComponent/index.tsx:89-162 | blank text or a streaming reply changes nothing; otherwise the request carries the prompt, the store gains the user message and the assistant message holding the whole streamed reply, and typing ends |
| ChatComponent.ChatPanel.HandleSend | src/ReactAiStudio/components/ChatComponent/index.tsx:206-211 | the input is submitted and then cleared |
| ChatComponent.Send | src/ReactAiStudio/components/ChatComponent/index.tsx:103-162 | the two messages are appended, the reply fills the assistant one, and typing ends |
| ChatComponent.ReadStream | src/ReactAiStudio/components/ChatComponent/index.tsx:135-154 | the loop's running text is every chunk's contents joined, and the last message holds it once any content arrived |
| ChatComponent.ReadLines | src/ReactAiStudio/components/ChatComponent/index.tsx:140-153 | the inner loop appends one chunk's contents up to `[DONE]` and keeps the last message equal to the running text |
| ChatComponent.ReadChunk | src/ReactAiStudio/components/ChatComponent/index.tsx:136-153 | one chunk split at `\n` and read: the running text and the last message advance by that chunk's contents |
| ChatComponent.ReadStep | src/ReactAiStudio/components/ChatComponent/index.tsx:140-153 | one line of the inner loop keeps its invariant: the contents read so far, the running text and the last message |
| ChatComponent.ReadLine | src/ReactAiStudio/components/ChatComponent/index.tsx:142-151 | one line: `[DONE]` stops the chunk, parsed content is appended to the running text and written to the last message, and any other line changes nothing |
| Markdown.WordsEnd | src/ReactAiStudio/components/ChatComponent/MarkdownRenderer/index.tsx:49 | the greedy `\w+` stops at the first non-word character |
| Markdown.LanguageFrom | src/ReactAiStudio/components/ChatComponent/MarkdownRenderer/index.tsx:49 | `exec` finds the leftmost index where `language-` is followed by a word character |
| Markdown.FindLanguage | src/ReactAiStudio/components/ChatComponent/MarkdownRenderer/index.tsx:49-53 | a found language is a non-empty run of word characters |
| Markdown.FindLanguageSpec | src/ReactAiStudio/components/ChatComponent/MarkdownRenderer/index.tsx:49-53 | a language is found exactly when the pattern matches, and it is the whole word run after the leftmost match |
| Markdown.FindLanguageExample | src/ReactAiStudio/components/ChatComponent/MarkdownRenderer/index.tsx:49 | `language-tsx` names `tsx`, and `language-` alone names nothing |
| Markdown.StripTrailingNewline | src/ReactAiStudio/components/ChatComponent/MarkdownRenderer/index.tsx:54 | one final line feed is removed, and other text is unchanged |
| Markdown.StripAfterNewline | src/ReactAiStudio/components/ChatComponent/MarkdownRenderer/index.tsx:54 | stripping undoes adding one line feed |
| Markdown.StripRemovesOneNewline | src/ReactAiStudio/components/ChatComponent/MarkdownRenderer/index.tsx:54 | of two final line feeds, only one goes |
| Markdown.RenderCode | src/ReactAiStudio/components/ChatComponent/MarkdownRenderer/index.tsx:47-62 | a code block exactly for a non-inline element whose class names a language, with that language and the text less one final line feed; inline code with the children otherwise |
| Markdown.NoLanguageIsInline | src/ReactAiStudio/components/ChatComponent/MarkdownRenderer/index.tsx:49-61 | a missing class, or one naming no language, gives inline code |

## Left out

- Babel is a parameter. `parse` stands for `transform` up to the plugin run, and `generate` prints the program back. Only import declarations are pieces the model distinguishes, and the TypeScript/React presets and `retainLines` are not modelled.
- A blob URL is `blob:` plus the blob's index in the worker's registry. Real URLs are opaque and unique, and the model relies only on uniqueness (`BlobUrlInjective`).
- The clock `new Date().getTime()` is one parameter `now` for a whole compile, although each CSS import reads it anew.
- The recursion of the compiler has no cycle guard. On a cyclic import the source recurses until the JavaScript stack overflows. The `RangeError` is caught by the `try`/`catch` around `transform` in the deepest `babelTransform` that can still complete, which returns the empty module `''`. The recursion then unwinds and the worker still posts `COMPILED_CODE`. The model does not follow the stack: the specification functions carry a depth bound `fuel`, and `None` means only that the bound was reached.
- Object keys that look like array indices enumerate first in JavaScript. Keys inherited from `Object.prototype` (`constructor`, `toString`) are found by `files[k]`. Neither is modelled: keys enumerate in insertion order and only own entries are found.
- Strings are sequences of characters. UTF-16 surrogate pairs are not modelled.
- The URL-hash persistence (`compress`, `uncompress`, `JSON.stringify`, `encodeURIComponent`) is left out. The decoded collection is the constructor's parameter `fromUrl`.
- The debounce of the editor and of the compile trigger, and React's scheduling of effects, are left out. Each handler and effect is one method call.
- CodeEditor.OnEditorChange: `value!` with an `undefined` value is not modelled; the text is always a string.
- FileNameList.TabList: the tab list starts as `['']` until its first effect. The model draws the tabs from the keys directly (`TabsOf`).
- The `ERROR` reply of the worker carries the exception. The model posts `CompileError` without it.
- TemplateFiles.InitFiles: the languages are written out as values, not computed. `ReservedLanguages` proves that they agree with `fileName2Language`.
- The iframe template `iframe.html` is a parameter of the preview host.
- Preview.PreviewHost: `useState(getIframeUrl())` evaluates `getIframeUrl()` on every render and so creates one more blob each time. The model creates blobs only on the first render and in the effect.
- Preview.PreviewHost: a missing `import-map.json` makes the render throw. The model takes the import map's text as a parameter.
- The network is a parameter: `chunks` are the decoded chunks delivered before the stream ended, failed or was aborted. A response without a body, a failed `fetch` and an abort all read as a shorter list of chunks. The `Authorization` header and the URL are not modelled.
- ChatComponent.ChatPanel.SubmitChat: the source reads `isTyping` from the render that created the callback. The model reads the store's current flag.
- ChatComponent.ChatPanel.SubmitChat: the model shows the store only at the end of the stream. The intermediate states are those of `ReadLines`, one `UpdateLastMessage` per parsed content.
- `parse` stands for `JSON.parse(payload)` followed by reading `content` and converting it to a string, `None` where that throws. A missing `content` therefore appends whatever text `parse` gives (`"undefined"` in the source).
- Scrolling, the file-picker dropdown's visibility, the textarea height and the syntax highlighter of `CodeBlock` are presentation and are not modelled.
- The `fix-compiler-error` listener of the chat panel (ChatComponent/index.tsx:192-201) is not modelled. It calls `submitChat` with a fixed prompt followed by two line breaks and the error text, so it reduces to `ChatComponent.ChatPanel.SubmitChat` with that prompt.
- The Markdown parser (`react-markdown` with `remark-gfm`) is not part of this model. `RenderCode` starts from a code element's `inline` flag, class and text.
