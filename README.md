# Portfolio site logic, modelled in Dafny

This project models the logic at the core of a personal portfolio website
(Next.js, React) and of two libraries it vendors. Each piece is modelled in
its own module:

- **`ModelCoordinator`**: the coordinator that decides which in-browser model
  (translator or chatbot) may hold memory. Switch requests dispatch a
  "dispose" command to the other consumer at once and an "activate" command
  only when a timer fires.
- **`Translation`**: the page translator. It covers the browser-language
  lookup, the RAM/WebGPU gate, the load guard, idempotent disposal, the
  coordinator-event handler, the text-node filter and the batch loop that
  rewrites node texts four at a time.
- **`ChatBot`** and **`LegacyChatBot`**: the two chat widgets. Each models
  its send guard, placeholder, prompt format and reply landing.
- **`GfmTable`**: pipe escaping in GitHub Flavored Markdown tables, the
  serializer settings and the table-to-matrix conversion (section 4.10
  "Tables (extension)" of the GitHub Flavored Markdown Spec).
- **`ClipanionCounter`**: the CLI counter option. It is a fold over parsed
  flags that counts positives and resets on each negation.
- **`ViewCounter`**: the `uniqueId` cookie lookup and the view counter's
  tracking state.
- **`RepositoryDetails`**: the repository page's README image rewriting and
  its choice of view.
- **`MdxComponents`**: the MDX element overrides (`clsx`, link and code
  classification).
- **`ProjectsPage`**: the projects page's view table, featured exclusion,
  newest-first sort and three-column split.
- **`Navigation`**: the header's active-route matching.
- **`ContentConfig`**: the content layer's computed `slug`/`path` and its
  highlighting visitors.

Parts of the source update state in place: React state, refs,
`this.data` and hast nodes. Each of these is a Dafny `class` whose
methods are proved equal to a pure step function of the old state, and the
properties are proved as lemmas about those step functions. Each loop of
the source is a method whose invariant ties it to a recursive function. Network calls,
SDKs, timers and the DOM are replaced by parameters:

- a fetch outcome;
- a batch result;
- a URL resolver;
- a fresh id;
- a cookie jar string;
- a pending-timer queue.

`Wrappers` holds the `Option` type. `Strings` holds the JavaScript string
operations used throughout: `join`, `split`, `indexOf`, `startsWith`,
`trim` and the UTF-16 `length`.

## Model

| member | source | states |
|---|---|---|
| ModelCoordinator.ShippedProviderStaysRemote | src/app/components/ModelCoordinatorContext.tsx:39-68 | After the shipped RAM check, whatever RAM is reported and whatever operations follow, no coordinator event is ever dispatched and no local model becomes active |
| ModelCoordinator.WithoutRamNothingHappens | src/app/components/ModelCoordinatorContext.tsx:75-77 | From a state without enough RAM and with no pending timer, any sequence of checks, preloads, switches and timer firings leaves RAM off, the active model `none`, the event log and `preloadComplete` unchanged |
| ModelCoordinator.SwitchWithoutRamIsIgnored | src/app/components/ModelCoordinatorContext.tsx:133-136 | Without enough RAM, any sequence of switch requests leaves the whole state unchanged |
| ModelCoordinator.PreloadSuccess | src/app/components/ModelCoordinatorContext.tsx:97-119 | A successful preload marks both tokenizers, completes, makes the translator active, appends exactly one `activate-translator`, and shuts the preload guard |
| ModelCoordinator.PreloadFailureIsFinal | src/app/components/ModelCoordinatorContext.tsx:121-125 | A failed preload leaves the active model `none` and shuts the guard, so no later preload changes anything |
| ModelCoordinator.FireTimersDrains | src/app/components/ModelCoordinatorContext.tsx:147-151 | Firing n pending timers moves exactly the first n queued commands, in order, from the queue to the event log |
| ModelCoordinator.SwitchToChatbotDisposesFirst | src/app/components/ModelCoordinatorContext.tsx:138-151 | With RAM, a chatbot switch makes the chatbot active; once its timer fires the log has grown by `dispose-translator`, the earlier pending commands, then `activate-chatbot` |
| ModelCoordinator.SwitchToTranslatorDisposesFirst | src/app/components/ModelCoordinatorContext.tsx:161-174 | Mirror image: `dispose-chatbot` at once, `activate-translator` after the timer, the active model set without consulting the old one |
| ModelCoordinator.EmptyLogIsValid | src/app/components/ModelCoordinatorContext.tsx:28-35 | Any state that has dispatched and scheduled nothing, the first render among them, satisfies the dispose-before-activate invariant |
| ModelCoordinator.StepKeepsValid | src/app/components/ModelCoordinatorContext.tsx:132-175 | Every operation preserves the invariant: in every prefix of the log, activations of a consumer never outnumber disposals of the other one, counting the activations still queued |
| ModelCoordinator.RunKeepsValid | src/app/components/ModelCoordinatorContext.tsx:132-175 | Any sequence of operations preserves the invariant |
| ModelCoordinator.ActivateChatbotFollowsDispose | src/app/components/ModelCoordinatorContext.tsx:142-151 | In a valid state every `activate-chatbot` in the log has a `dispose-translator` at an earlier index |
| ModelCoordinator.ChatbotNeverActivatedBeforeDispose | src/app/components/ModelCoordinatorContext.tsx:138-151 | From any state with an empty event log, whatever the RAM check decided, every `activate-chatbot` ever dispatched comes after some `dispose-translator` |
| ModelCoordinator.SwitchThenTimer | src/app/components/ModelCoordinatorContext.tsx:138-151 | With enough memory, a switch to the chatbot and its timer dispatch exactly `dispose-translator` then `activate-chatbot` |
| ModelCoordinator.Coordinator.constructor | src/app/components/ModelCoordinatorContext.tsx:28-35 | The provider starts with no RAM, no active model, no preload and an empty log |
| ModelCoordinator.Coordinator.CheckRAM | src/app/components/ModelCoordinatorContext.tsx:39-68 | The new state is the RAM-check step; RAM stays off, no model is active and the log is untouched |
| ModelCoordinator.Coordinator.PreloadModels | src/app/components/ModelCoordinatorContext.tsx:77-126 | The new state is the preload step for the given outcome; the log only grows |
| ModelCoordinator.Coordinator.RequestSwitchToChatbot | src/app/components/ModelCoordinatorContext.tsx:132-152 | The new state is the chatbot-switch step; the log only grows |
| ModelCoordinator.Coordinator.RequestSwitchToTranslator | src/app/components/ModelCoordinatorContext.tsx:155-175 | The new state is the translator-switch step; the log only grows |
| ModelCoordinator.Coordinator.TimerFires | src/app/components/ModelCoordinatorContext.tsx:147-151 | The oldest pending command is dispatched; the log only grows |
| Translation.TargetLanguageFor | src/app/components/Translation/TranslationProvider.tsx:110-121 | The target is always a value of the language map: the map's entry for the leading subtag when there is one, English otherwise |
| Translation.BrowserPrefixIsLeadingSubtag | src/app/components/Translation/TranslationProvider.tsx:110 | The lookup key is the browser language up to its first `-` (all of it when there is none) and holds no `-` |
| Translation.CapabilityGate | src/app/components/Translation/TranslationProvider.tsx:98-124 | Translation is supported exactly when RAM is at least 4 and WebGPU is present; the target leaves its English default only then, and it is always a mapped language |
| Translation.LoadGuard | src/app/components/Translation/TranslationProvider.tsx:129-133 | A held model or a load in flight makes the call a no-op; otherwise the load starts and the in-flight flag is raised |
| Translation.OneLoadAtATime | src/app/components/Translation/TranslationProvider.tsx:129-173 | While a load is in flight a second call starts nothing; after the load the flag is down on every outcome; a failed load turns support off with the error status; the model is held exactly when the load succeeded |
| Translation.DisposeIdempotent | src/app/components/Translation/TranslationProvider.tsx:78-94 | Disposing twice is disposing once; no model is held afterwards; without a model nothing changes |
| Translation.DisposeDuringLoadIsLost | src/app/components/Translation/TranslationProvider.tsx:58-94 | A dispose command that arrives while the model is loading deactivates the translator but releases nothing, and the load still ends holding the model |
| Translation.EventsForTranslator | src/app/components/Translation/TranslationProvider.tsx:58-69 | `activate-translator` only sets `isActive`; `dispose-translator` disposes and clears `isActive`; the chatbot's commands change nothing |
| Strings.Utf16Length | src/app/components/Translation/TranslationProvider.tsx:210 | `length` counts each character outside the Basic Multilingual Plane twice, so it lies between the number of characters and twice that |
| Strings.Utf16LengthOfBmp | mdast-util-gfm-table/lib/index.js:167 | On text inside the Basic Multilingual Plane the UTF-16 length is the number of characters |
| Translation.Walk | src/app/components/Translation/TranslationProvider.tsx:206-216 | Every text collected is trimmed and longer than two UTF-16 code units; nothing is collected under `script`, `style`, `noscript` or a `data-no-translate` element |
| Translation.WalkAll | src/app/components/Translation/TranslationProvider.tsx:206-216 | The same for a list of sibling nodes |
| Translation.Leaves | src/app/components/Translation/TranslationProvider.tsx:207-215 | Lists every text node in document order with its excluded flag; under an excluded element every flag is set |
| Translation.LeavesAll | src/app/components/Translation/TranslationProvider.tsx:207-215 | The same for a list of sibling nodes |
| Translation.CollectAppend | src/app/components/Translation/TranslationProvider.tsx:208-212 | Filtering two runs of text nodes is filtering each, in order |
| Translation.CollectMembers | src/app/components/Translation/TranslationProvider.tsx:208-212 | A text is collected exactly when some text node holds it untrimmed, passes the length test and has no excluded ancestor |
| Translation.WalkIsFilteredLeaves | src/app/components/Translation/TranslationProvider.tsx:206-216 | The walk collects exactly the collectable text nodes, trimmed, each once and in document order |
| Translation.WalkAllIsFilteredLeaves | src/app/components/Translation/TranslationProvider.tsx:206-216 | The same for a list of sibling nodes |
| Translation.FlagIsCollected | src/app/components/Translation/TranslationProvider.tsx:209-210 | A two-character flag emoji, four code units long, passes the length test and is collected |
| Translation.TranslateNodes | src/app/components/Translation/TranslationProvider.tsx:224-270 | The loop over the node array leaves it equal to the batch-by-batch specification |
| Translation.WriteBatch | src/app/components/Translation/TranslationProvider.tsx:262-266 | The inner loop gives node start+idx the decoded output idx when that output is non-empty and leaves every other node as it was |
| Translation.TranslatedNode | src/app/components/Translation/TranslationProvider.tsx:224-266 | Node k takes output k mod 4 of its own batch exactly when no earlier batch threw, its batch decoded, and that output is non-empty; otherwise its text is unchanged |
| Translation.BatchesPartition | src/app/components/Translation/TranslationProvider.tsx:224-232 | The slices cover the nodes exactly once, in order, each holding one to four nodes, and there are ceil(n/4) of them |
| Translation.BatchesAreLoopSlices | src/app/components/Translation/TranslationProvider.tsx:224-232 | Slice number b starts inside the list and is `textNodes.slice(i, i + 4)` for `i = 4b` |
| Translation.TranslationProvider.constructor | src/app/components/Translation/TranslationProvider.tsx:44-54 | The provider starts unsupported, inactive, without a model or a load, targeting English |
| Translation.TranslationProvider.CheckCapabilities | src/app/components/Translation/TranslationProvider.tsx:98-124 | The new state is the capability step, with a missing `deviceMemory` read as 0 |
| Translation.TranslationProvider.StartInit | src/app/components/Translation/TranslationProvider.tsx:129-133 | The new state and the started flag are the load guard's |
| Translation.TranslationProvider.FinishInit | src/app/components/Translation/TranslationProvider.tsx:146-172 | The new state is the load's outcome, with the in-flight flag cleared |
| Translation.TranslationProvider.DisposeTranslator | src/app/components/Translation/TranslationProvider.tsx:78-94 | The new state is the disposal step |
| Translation.TranslationProvider.HandleCoordinatorEvent | src/app/components/Translation/TranslationProvider.tsx:58-69 | The new state is the event handler's step |
| ChatBot.Lines | src/app/components/ChatBot/ChatBootComponent.tsx:126 | One history line per message, each the message's `User:`/`Assistant:` line |
| ChatBot.HistoryExtends | src/app/components/ChatBot/ChatBootComponent.tsx:126 | Adding a message adds one `\n`-separated line to the history |
| ChatBot.HistoryLines | src/app/components/ChatBot/ChatBootComponent.tsx:126 | When no message text holds a line break, splitting the history on `\n` gives back exactly one line per message |
| ChatBot.LastAssistantIndex | src/app/components/ChatBot/ChatBootComponent.tsx:150 | The index found holds an assistant message and no later one does; -1 exactly when there is none |
| ChatBot.SendGuards | src/app/components/ChatBot/ChatBootComponent.tsx:100-115 | An empty trimmed input or a pending reply changes nothing; with no initial prompt only the "Iniciando sistema" notice is appended; a request is made exactly when input is non-empty, nothing is pending and the prompt is loaded |
| ChatBot.RequestHistory | src/app/components/ChatBot/ChatBootComponent.tsx:108-129 | The request carries the history of the earlier messages, a line break and the new user line (only that line on an empty chat), without the placeholder, and the first initial text as system instruction |
| ChatBot.SendThenComplete | src/app/components/ChatBot/ChatBootComponent.tsx:108-190 | After a send and its reply the list holds the earlier messages, the user message, and the reply in the placeholder's slot; the loading flag is down |
| ChatBot.SettleTouchesOneMessage | src/app/components/ChatBot/ChatBootComponent.tsx:148-188 | Landing a reply either replaces the last assistant `...` in place (same length, every other message unchanged) or appends one assistant message |
| ChatBot.SettledTextIsNeverEmpty | src/app/components/ChatBot/ChatBootComponent.tsx:152-185 | The landed message is from the assistant and its text is never empty: an empty response becomes "No se recibió respuesta.", an error the long or the short apology |
| ChatBot.ChatBotComponent.constructor | src/app/components/ChatBot/ChatBootComponent.tsx:23-29 | The widget starts with no messages, empty input, not loading, no prompt |
| ChatBot.ChatBotComponent.SetInput | src/app/components/ChatBot/ChatBootComponent.tsx:242 | Only the input changes |
| ChatBot.ChatBotComponent.PromptLoaded | src/app/components/ChatBot/ChatBootComponent.tsx:55-77 | Only the initial prompt changes |
| ChatBot.ChatBotComponent.SendMessage | src/app/components/ChatBot/ChatBootComponent.tsx:99-115 | The new state and request are the send step's |
| ChatBot.ChatBotComponent.ReceiveReply | src/app/components/ChatBot/ChatBootComponent.tsx:148-191 | The array search and in-place update leave the state equal to the reply step's |
| LegacyChatBot.RawLines | src/app/componets/ChatBot/ChatBootComponent.tsx:69 | One `role: content` line per message, with the raw role names |
| LegacyChatBot.FullPromptIsOneList | src/app/componets/ChatBot/ChatBootComponent.tsx:68-69 | With initial texts the prompt is one `\n`-joined list of the initial texts and then the message lines; without any it starts with a bare line break |
| LegacyChatBot.SendGuard | src/app/componets/ChatBot/ChatBootComponent.tsx:60-69 | Only an empty trimmed input blocks a send; otherwise the user message is appended, the input cleared and the prompt built from the new list |
| LegacyChatBot.ReceiveAppendsOne | src/app/componets/ChatBot/ChatBootComponent.tsx:76-79 | A reply appends exactly one assistant message, the fixed apology on error |
| LegacyChatBot.MessagesOnlyGrow | src/app/componets/ChatBot/ChatBootComponent.tsx:63-79 | Over any sequence of events the earlier message list is a prefix of the later one |
| LegacyChatBot.LegacyChatBotComponent.constructor | src/app/componets/ChatBot/ChatBootComponent.tsx:21-24 | The widget starts with no messages, empty input, no prompt |
| LegacyChatBot.LegacyChatBotComponent.SetInput | src/app/componets/ChatBot/ChatBootComponent.tsx:116 | The new state is the typing step |
| LegacyChatBot.LegacyChatBotComponent.PromptLoaded | src/app/componets/ChatBot/ChatBootComponent.tsx:38-47 | Only the initial prompt changes |
| LegacyChatBot.LegacyChatBotComponent.SendMessage | src/app/componets/ChatBot/ChatBootComponent.tsx:59-69 | The new state and prompt are the submit step's |
| LegacyChatBot.LegacyChatBotComponent.ReceiveReply | src/app/componets/ChatBot/ChatBootComponent.tsx:76-79 | The new state is the receive step's and the old messages are a prefix |
| GfmTable.Unescape | mdast-util-gfm-table/lib/index.js:136-152 | The result is never longer than the input, and text without a backslash is unchanged |
| GfmTable.Escape | mdast-util-gfm-table/lib/index.js:278 | The result is never shorter, and text without a pipe is unchanged |
| GfmTable.EscapedPipesArePreceded | mdast-util-gfm-table/lib/index.js:277-279 | Every pipe in escaped text has a backslash right before it |
| GfmTable.UnescapeEscape | mdast-util-gfm-table/lib/index.js:136-152 | For backslash-free text, escaping for a cell and then unescaping inside a table gives back the original |
| GfmTable.BackslashBeforePipeStaysEscaped | mdast-util-gfm-table/lib/index.js:150-152 | A backslash pair is kept whole, so a backslash, a backslash and a pipe survive unescaping unchanged; the round trip therefore fails for text with a backslash before a pipe |
| GfmTable.TableScope | mdast-util-gfm-table/lib/index.js:82-136 | After entering a table, inline code is unescaped; after exiting it, or with no data, it is kept verbatim |
| GfmTable.MapAlign | mdast-util-gfm-table/lib/index.js:74-76 | The mapped alignment has the same length |
| GfmTable.MapAlignInverse | mdast-util-gfm-table/lib/index.js:74-76 | Reading `null` back as `none` gives the original array, and no entry is the string `none` |
| GfmTable.CompileContext.constructor | mdast-util-gfm-table/lib/index.js:69-70 | The context starts without data |
| GfmTable.CompileContext.EnterTable | mdast-util-gfm-table/lib/index.js:65-83 | Sets the table flag and opens a table node with the mapped alignment |
| GfmTable.CompileContext.ExitTable | mdast-util-gfm-table/lib/index.js:90-99 | Clears the table flag |
| GfmTable.CompileContext.ExitCodeText | mdast-util-gfm-table/lib/index.js:131-143 | The inline-code value is the table-scoped unescape of the resumed text |
| GfmTable.SettingsFor | mdast-util-gfm-table/lib/index.js:164-168 | Padding and delimiter alignment are on unless explicitly `false`; the length is counted in UTF-16 code units when none is given |
| GfmTable.NullOptionsThrow | mdast-util-gfm-table/lib/index.js:163-165 | As written, a `null` argument throws while an absent one gets the defaults |
| GfmTable.Settle | mdast-util-gfm-table/lib/index.js:163-168 | Given options produce their settings (the corrected function) |
| GfmTable.DefaultSettings | mdast-util-gfm-table/lib/index.js:163-168 | With no options (absent or null) padding and alignment are on and lengths are counted in UTF-16 code units; wherever the code as written does not throw, it agrees with the corrected settings |
| GfmTable.AroundFollowsPadding | mdast-util-gfm-table/lib/index.js:169-171 | `around` is a pipe exactly when padding is explicitly off, a space otherwise |
| GfmTable.RowCells | mdast-util-gfm-table/lib/index.js:257-269 | One cell string per cell |
| GfmTable.RowAsData | mdast-util-gfm-table/lib/index.js:257-269 | The loop yields the cells rendered in order with `tableRow` entered |
| GfmTable.TableAsData | mdast-util-gfm-table/lib/index.js:238-250 | One row per table row, in order, each the row's cells rendered with `table` entered |
| GfmTable.CellsRenderInsideTableCell | mdast-util-gfm-table/lib/index.js:216-223 | Each cell of the matrix is rendered with `table`, `tableRow`, `tableCell` and `phrasing` on the construct stack, in that order |
| GfmTable.InlineCodeInCell | mdast-util-gfm-table/lib/index.js:275-281 | Inline code inside a cell has its pipes escaped; outside any cell it is left as written |
| GfmTable.HandleTableRow | mdast-util-gfm-table/lib/index.js:206-210 | The row is a prefix of the serialized text with no line break, ending right before the first one; with none, `slice(0, -1)` drops the last character |
| ClipanionCounter.OptionNames | clipanion/lib/advanced/options/Counter.mjs:5 | The descriptor yields at least one name |
| ClipanionCounter.Definition | clipanion/lib/advanced/options/Counter.mjs:8-17 | The option takes no argument and no binding; its names hold no comma and join back to the descriptor |
| ClipanionCounter.NameSetMembers | clipanion/lib/advanced/options/Counter.mjs:5-6 | A name is in the set exactly when it is one of the split names |
| ClipanionCounter.OnlyMatchingNamesCount | clipanion/lib/advanced/options/Counter.mjs:20-22 | Only options with a listed name are counted; when none match, nothing is |
| ClipanionCounter.FoldStep | clipanion/lib/advanced/options/Counter.mjs:23-30 | Each matching option first coerces a missing counter to 0, then resets it on a negation or adds one |
| ClipanionCounter.Transformer | clipanion/lib/advanced/options/Counter.mjs:18-33 | The loop returns the fold of the matching flags from the initial value |
| ClipanionCounter.LastNegation | clipanion/lib/advanced/options/Counter.mjs:25-26 | The index found is a negation and every later flag is positive; -1 when there is none |
| ClipanionCounter.FoldIsCounterValue | clipanion/lib/advanced/options/Counter.mjs:19-32 | The result is the number of positives after the last negation when there is one, otherwise the initial value (0 if missing) plus every positive; with no matching flag it is the initial value, even a missing one |
| ClipanionCounter.ResultIsANumber | clipanion/lib/advanced/options/Counter.mjs:23 | Once any option has matched, the result is a non-negative number, provided the initial value is absent or non-negative |
| ViewCounter.FirstWithPrefix | src/app/components/Repositories/ViewCounter.tsx:27 | The row found starts with the prefix and no earlier one does; none found means no row does |
| ViewCounter.CookieRowPieces | src/app/components/Repositories/ViewCounter.tsx:28 | For a `uniqueId=` row the second `=` piece is the value up to its next `=` |
| ViewCounter.CookieUniqueId | src/app/components/Repositories/ViewCounter.tsx:25-28 | An id read from the cookie holds no `=` |
| ViewCounter.ReadsBackStoredId | src/app/components/Repositories/ViewCounter.tsx:25-28 | A jar whose first `uniqueId=` pair holds an `=`-free id yields exactly that id |
| ViewCounter.CookieAssignmentPairs | src/app/components/Repositories/ViewCounter.tsx:32 | The written cookie splits into the id pair followed by `max-age=31536000; path=/; SameSite=Strict; Secure` |
| ViewCounter.FreshIdIsStored | src/app/components/Repositories/ViewCounter.tsx:30-33 | A cookie is written exactly when the id is missing or empty, and then it stores the fresh id with a one-year lifetime; otherwise the found id is used |
| ViewCounter.StartGuard | src/app/components/Repositories/ViewCounter.tsx:14-20 | A request is made exactly when `trackView` is true, the view is not yet tracked and the slug is non-empty; otherwise nothing changes |
| ViewCounter.SuccessTracksOnce | src/app/components/Repositories/ViewCounter.tsx:35-55 | After a successful round the count is the server's, no dash shows, and the guard blocks another round |
| ViewCounter.FailureAllowsRetry | src/app/components/Repositories/ViewCounter.tsx:57-61 | After a failure the count is unchanged, the dash shows and the guard is open again |
| ViewCounter.DisplayFor | src/app/components/Repositories/ViewCounter.tsx:73 | The dash shows exactly when there is an error |
| ViewCounter.ViewCounterComponent.constructor | src/app/components/Repositories/ViewCounter.tsx:15-17 | The counter starts with the initial views, untracked, without error |
| ViewCounter.ViewCounterComponent.StartTracking | src/app/components/Repositories/ViewCounter.tsx:19-44 | The new state and request are the start step's |
| ViewCounter.ViewCounterComponent.FinishTracking | src/app/components/Repositories/ViewCounter.tsx:47-61 | The new state is the settle step's |
| RepositoryDetails.StripLeadingSlash | src/app/components/Repositories/RepositoryDetails.tsx:51 | At most one leading `/` is removed |
| RepositoryDetails.ImageSrc | src/app/components/Repositories/RepositoryDetails.tsx:44-58 | A source outside the rewrite guard is passed through; inside it the result is always a string |
| RepositoryDetails.LeftAlone | src/app/components/Repositories/RepositoryDetails.tsx:48 | A missing source, an `http://`/`https://` URL, or a missing owner or repository name leaves the source unchanged; `HTTPS://` is not recognised as absolute |
| RepositoryDetails.PlainPathUnderBase | src/app/components/Repositories/RepositoryDetails.tsx:49-52 | A plain relative path, with or without one leading `/`, becomes the raw `main`-branch base followed by the path |
| RepositoryDetails.AbsoluteIsNotPlain | src/app/components/Repositories/RepositoryDetails.tsx:48-52 | An `http://` or `https://` URL is never a plain relative path |
| RepositoryDetails.ResolutionFailure | src/app/components/Repositories/RepositoryDetails.tsx:53-56 | A path the URL constructor rejects becomes `#error-constructing-image-url` |
| RepositoryDetails.RepositoryImage | src/app/components/Repositories/RepositoryDetails.tsx:59-69 | The image loads lazily and its `alt` is empty exactly when none or an empty one is given |
| RepositoryDetails.RepositoryImageLooksLikeImg | src/app/components/Repositories/RepositoryDetails.tsx:59-69 | Apart from `src` and loading, the image has the generic `img` classes and `alt` |
| RepositoryDetails.OnlyImageReplaced | src/app/components/Repositories/RepositoryDetails.tsx:73-76 | The render map has the same elements as the generic map; only `img` is replaced |
| RepositoryDetails.PageBranches | src/app/components/Repositories/RepositoryDetails.tsx:33-159 | A missing owner gives the configuration error whatever was fetched; otherwise a missing repository gives not-found; the README shows exactly when non-empty; the counter tracks exactly when the repository name is non-empty |
| MdxComponents.Kept | src/app/components/Mdx/customComponents.tsx:8 | The filter keeps no more than it is given and only non-empty strings |
| MdxComponents.KeptAppend | src/app/components/Mdx/customComponents.tsx:8 | The filter works argument by argument: filtering a concatenation is filtering each part, in order, so every truthy argument is kept in its place |
| MdxComponents.KeptMembers | src/app/components/Mdx/customComponents.tsx:8 | A string is kept exactly when some argument is that truthy string |
| MdxComponents.ClsxEmptyIffAllFalsy | src/app/components/Mdx/customComponents.tsx:7-9 | `clsx` is empty exactly when every argument is falsy |
| MdxComponents.KeptEmptyIffAllFalsy | src/app/components/Mdx/customComponents.tsx:8 | The filter keeps nothing exactly when every argument is falsy |
| MdxComponents.BaseThenCaller | src/app/components/Mdx/customComponents.tsx:7-9 | With a non-empty base, the class is the base, then one space and the caller's class when that is truthy |
| MdxComponents.ElementClassStartsWithBase | src/app/components/Mdx/customComponents.tsx:13-186 | Every overridden element's class is its base classes, then the caller's class when given |
| MdxComponents.RuleClassReplacesBase | src/app/components/Mdx/customComponents.tsx:115-117 | A rule gets its fixed classes only without a caller class; a caller class replaces them rather than being appended as `clsx` would |
| MdxComponents.LinkRender | src/app/components/Mdx/customComponents.tsx:67-81 | A link renders through the router exactly when it is internal, otherwise as an anchor opening a new tab with `noopener noreferrer`; a missing or empty `href` becomes `#` |
| MdxComponents.LinkClassification | src/app/components/Mdx/customComponents.tsx:68 | A missing `href` gives an external-style anchor to `#`; an `href` is internal exactly when its first character is `/` or `#` |
| MdxComponents.CodeStyling | src/app/components/Mdx/customComponents.tsx:159-180 | Block styling exactly for string children holding a line break, inline styling otherwise, each followed by the caller's class |
| MdxComponents.AltText | src/app/components/Mdx/customComponents.tsx:111 | `alt` is empty exactly when missing or empty, else the given text |
| MdxComponents.CustomComponents | src/app/components/Mdx/customComponents.tsx:12-186 | The map overrides exactly the 22 listed elements, each with its own override |
| ProjectsPage.LastWithId | src/app/projects/page.tsx:27-31 | The index found holds the id and no later document does |
| ProjectsPage.ViewsDataLastWins | src/app/projects/page.tsx:27-31 | An id is in the table exactly when some document has it, and its entry is the last such document's views, or 0 when that field is falsy |
| ProjectsPage.BuildViews | src/app/projects/page.tsx:27-31 | The loop builds exactly the views table |
| ProjectsPage.CardViews | src/app/projects/page.tsx:85-91 | A card shows its slug's entry, or 0 when there is none or the table is missing |
| ProjectsPage.Find | src/app/projects/page.tsx:42-44 | A project found is the first in the list with that slug; none found means no project has it |
| ProjectsPage.Published | src/app/projects/page.tsx:47 | Exactly the published projects are kept |
| ProjectsPage.WithoutFeatured | src/app/projects/page.tsx:48-53 | With all three featured projects present, the filter succeeds, keeps exactly the others, and adds nothing |
| ProjectsPage.Insert | src/app/projects/page.tsx:54-58 | Inserting adds exactly the one project |
| ProjectsPage.SortByDate | src/app/projects/page.tsx:54-58 | The sort is a permutation |
| ProjectsPage.InsertKeepsOrder | src/app/projects/page.tsx:54-58 | Inserting a dated project into a dated newest-first list keeps it newest first |
| ProjectsPage.SortedNewestFirst | src/app/projects/page.tsx:54-58 | A list of dated projects sorts newest first |
| ProjectsPage.SortKeepsMembers | src/app/projects/page.tsx:54-58 | The sort keeps exactly the members, and every project of a dated result was dated |
| ProjectsPage.SortedContents | src/app/projects/page.tsx:42-58 | With the three featured projects present, the list holds exactly the other published projects, newest first when all are dated; a missing featured project with any published project makes the filter throw |
| ProjectsPage.ColumnUpToShape | src/app/projects/page.tsx:100-125 | The column of residue k up to n has (n-k+2)/3 entries, entry j being element 3j+k |
| ProjectsPage.ColumnOfIndex | src/app/projects/page.tsx:100-125 | Element i sits in column i mod 3 at position i div 3 |
| ProjectsPage.ColumnsCover | src/app/projects/page.tsx:100-125 | Every element sits in its column at its position |
| ProjectsPage.ColumnEntries | src/app/projects/page.tsx:100-125 | Each column holds exactly its residue class, in order |
| ProjectsPage.ColumnSizes | src/app/projects/page.tsx:100-125 | The three residue counts add up to n and differ by at most one |
| ProjectsPage.ColumnsBalanced | src/app/projects/page.tsx:100-125 | The columns together have as many entries as the list, the first is never shorter and they differ by at most one |
| ProjectsPage.FailureKeepsLoading | src/app/projects/page.tsx:33-66 | After a failed fetch the page shows the loading view, never the error view |
| ProjectsPage.SuccessShowsGrid | src/app/projects/page.tsx:60-100 | After a successful fetch, with the featured projects present, the page shows the grid headed by the featured project |
| ProjectsPage.ProjectsPageComponent.constructor | src/app/projects/page.tsx:13-15 | The page starts loading without views or error |
| ProjectsPage.ProjectsPageComponent.FetchSucceeded | src/app/projects/page.tsx:24-32 | The views table is built, loading ends, the error is kept |
| ProjectsPage.ProjectsPageComponent.FetchFailed | src/app/projects/page.tsx:33-36 | Only the error is set; loading stays on |
| Navigation.NeverBothActive | src/app/components/Navigation/Navigation.tsx:26-27 | The two links are never active together |
| Navigation.ProjectsPrefixIsASegment | src/app/components/Navigation/Navigation.tsx:26 | `/repositories` followed by a `/` path is active; followed by anything else, such as `X`, it is not |
| Navigation.ProjectsLink | src/app/components/Navigation/Navigation.tsx:51-59 | The link is `/` "Home" exactly on a repositories page, and `/repositories` "Projects" everywhere else |
| Navigation.ContactLink | src/app/components/Navigation/Navigation.tsx:62-70 | The link is `/` "Home" exactly on the contact page, and `/contact` "Contact" everywhere else |
| Navigation.LinksLeaveThePage | src/app/components/Navigation/Navigation.tsx:51-70 | No link leads to the page it is on (except the home page), and at most one leads home |
| Navigation.HeaderClass | src/app/components/Navigation/Navigation.tsx:41-45 | The header's class starts with its fixed base |
| ContentConfig.Slug | contentlayer.config.ts:38-41 | The slug is never longer than the path |
| ContentConfig.SlugCutsFirstOccurrence | contentlayer.config.ts:40 | Without `projects` the path is its own slug; otherwise putting back `projects` (and one `/` when one was cut) before the first occurrence gives the path, later occurrences kept |
| ContentConfig.SlugOfProjectFile | contentlayer.config.ts:40 | `projects/<name>` has slug `<name>` |
| ContentConfig.MakeProject | contentlayer.config.ts:12-45 | `published` is true exactly when the front matter says true; `path` is the flattened path |
| ContentConfig.PublishedDefault | contentlayer.config.ts:12-15 | Without the field a project is unpublished |
| ContentConfig.FilledLine | contentlayer.config.ts:51-55 | A line always has children; one with children keeps them |
| ContentConfig.FilledLineIdempotent | contentlayer.config.ts:51-55 | Visiting twice changes nothing more; an empty line gets exactly one space |
| ContentConfig.LineNode.constructor | contentlayer.config.ts:51-61 | A node holds the given children and classes |
| ContentConfig.LineNode.VisitLine | contentlayer.config.ts:51-55 | The children are filled, the classes untouched |
| ContentConfig.LineNode.VisitHighlightedLine | contentlayer.config.ts:56-58 | `line--highlighted` is appended after the earlier classes |
| ContentConfig.LineNode.VisitHighlightedChars | contentlayer.config.ts:59-61 | The classes become exactly `word--highlighted` |

## Left out

- Network, storage and SDK calls are parameters, not modelled. This covers the GitHub fetches, the Gemini and transformers SDKs, the views and log-chat APIs, Firestore and Redis. Their outcomes are inputs: a fetch result, a batch result, a preload outcome.
- The chat widget's logging of the finished conversation and the agent-context fetch (with its fallback to `system_prompt.json`) are not modelled; they change no state the widget shows.
- `markdownTable`, the default inline-code handler and `containerPhrasing` are foreign; `containerPhrasing` is a function parameter.
- `rerouteArguments` and `makeCommandOption` are foreign; the counter starts from the initial value they hand over.
- `uuidv4` is a fresh-id parameter and `Intl.NumberFormat` is left out. The display is the count itself.
- Full URL resolution (the WHATWG URL Standard behind `new URL`) is modelled only for plain relative paths under plain owner and repository names. For any other path a resolver parameter decides, and its `None` stands for a thrown error.
- Timers are a queue of pending commands fired in order; their 100 ms delay is not modelled. Observers, `requestAnimationFrame`, textarea auto-height and scrolling are also left out.
- The translator's `isActive` check inside the batch loop reads the value captured when `translate` was created, not a live flag. The model leaves it out.
- The translator's progress and "Traduciendo" status messages, the two-second status clear, and the effects that start an initial or route-change translation are not modelled.
- `translate`'s entry guards (not supported, not active, no model yet) are not modelled; the batch loop starts from a held model.
- Translation.Walk: the tree walker is modelled as recursion over a node tree instead of a push loop over a `TreeWalker`, and only the element tags and `data-no-translate` flags the filter reads are kept.
- Translation.Collectable: lengths count UTF-16 code units as in JavaScript, but the model's strings are sequences of Unicode scalar values, so a text node holding a lone surrogate cannot be represented.
- GfmTable.HandleTableRow: JavaScript's `slice(0, -1)` drops one UTF-16 code unit and can leave half of a surrogate pair; the model's strings hold whole characters, so it drops the last character instead.
- Translation.TranslateFrom: a batch's outcome is a function of its texts alone, so two batches with the same texts decode alike; the tokenizer and generator promise no such thing, though no property here relies on it.
- MdxComponents: the `div` wrapping a table, with its fixed classes, is not modelled; only the table's own class is.
- Translation.TargetLanguageFor: inherited object keys such as `constructor` are not modelled as map hits.
- The RAM check's commented-out threshold logic is not modelled (it is not part of the program).
- LegacyChatBot.SendGuard: the `!initialPrompt` test is dropped, because an array is always truthy and the test never fires.
- ProjectsPage.SortByDate: the order of undated projects is not pinned down. The comparator returns NaN for them, and such a comparator leaves the order to the engine. The model uses a stable insertion sort, which is one of the permitted orders; when every project is dated the order is newest first either way.
- Dates are integer timestamps; date-string parsing is not modelled.
- The hast visitors' node stack and the `className`-missing case are not modelled: a node always has a class list.
- `getViews` on the repository page is not part of this model; the source that defines it is not available.
- GfmTable: the `unsafe` patterns handed to the serializer are data for a foreign library and are not modelled.

## Findings

| source | as written | input that shows it | evidently intended | confidence | as-written member | corrected member |
|---|---|---|---|---|---|---|
| mdast-util-gfm-table/lib/index.js:163-168 | `options = {}` only replaces `undefined`, so `options.tableCellPadding` is read on `null` | `gfmTableToMarkdown(null)`, which the documented parameter type admits, throws a TypeError | `null` gets the defaults like `undefined` | high, not executed | GfmTable.NullOptionsThrow | GfmTable.DefaultSettings |
