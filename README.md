# Atomberg company chat: a Dafny model

This project models the core of the Atomberg company chat application. It is a Next.js app. It
uploads a folder of company PDF files into an OpenAI vector store, answers questions about them
with the Responses API and file search, and shows the cited PDF page beside the chat.

The model covers six parts of the app:

- **The vector-store id cache** (`src/lib/vectorStore.ts`). Four layers are searched in a fixed
  order: the `VECTOR_STORE_ID` environment variable, a process global, a module variable and the
  `.vector-store-id` file. Module `VectorStore` models them as the `Layers` value, the `Lookup`,
  `AfterSet` and `AfterClear` functions over it, and the `IdStore` class whose `Set` and `Clear`
  methods update the layers in place.
- **`GET /api/status`** (module `StatusRoute`): whether the store is ready, as a pure function
  of the cached id, the API key and what `vectorStores.retrieve` answers.
- **`GET /api/init`** (module `InitRoute`). It reuses a ready cached store. Otherwise it lists
  the knowledge-base PDF files (module `KnowledgeBase`), uploads them one by one, creates the store,
  caches its id and polls the store up to 120 times. The upload and poll loops are methods with
  loop invariants, proved against the functions `Uploaded` and `IsReady`.
- **`POST /api/chat`** (modules `ChatRoute` and `Citations`). It resolves the store id, adopting a
  discovered store by name when none is cached. It then refuses to ask the model unless the store
  is ready. Finally it extracts the reply and its page citations from the `SOURCES_JSON=` line the
  model is told to append. The citation regex, the JSON repair retry, the removal of the line and
  the "sfa" annotation fallback are specified directly and proved.
- **The chat page** (`src/app/page.tsx`, module `ChatPage`). It is a `ChatClient` class holding
  the page's five pieces of React state. Its methods model the status polling loop, the init
  sequence and `sendMessage` with its typing indicator and error handling.
- **The PDF viewer** (`src/app/components/PdfViewerClient.tsx`, module `PdfViewer`). It is a
  `Viewer` class holding the zoom, the measured width and the page count, with the zoom buttons,
  the width measurement and the page list.

Everything the app gets from outside is a parameter of the member that uses it: the OpenAI SDK,
`fetch`, the file system, the environment and the clock. A call that can throw is a `Result` whose
`Err` carries the error message. A sequence of calls is a function from the call's index to its
answer.

Shared pieces:

- `Wrappers`: `Option` and `Result`.
- `Text`: JavaScript's `trim`, ASCII `toLowerCase`, `endsWith` and `includes`.
- `Stores`: the vector-store snapshot and the readiness test shared by all three routes.

## Model

| member | source | states |
|---|---|---|
| VectorStore.Lookup | src/lib/vectorStore.ts:14-47 | `getVectorStoreId` over the four layers; specified by `LookupOrder` |
| VectorStore.AfterSet | src/lib/vectorStore.ts:49-66 | the layers after `setVectorStoreId`; specified by `SetThenLookup`, `SetIsObserved`, `LayersAgree` and `IdStore.Set` |
| VectorStore.AfterClear | src/lib/vectorStore.ts:68-80 | the layers after `clearVectorStoreId`; specified by `ClearThenLookup`, `ClearUndoesSet`, `LayersAgree` and `IdStore.Clear` |
| VectorStore.LookupOrder | src/lib/vectorStore.ts:14-47 | the id found is the first truthy one of environment, global and memory; failing those, the trimmed file content when the file exists (even if it trims to ""); otherwise none |
| VectorStore.FirstTruthy | src/lib/vectorStore.ts:16-31 | the first truthy id of a sequence is one of its elements and truthy; none means no element is truthy |
| VectorStore.EnvWins | src/lib/vectorStore.ts:16-19 | a truthy `VECTOR_STORE_ID` is what every lookup returns, and neither set nor clear changes that |
| VectorStore.SetThenLookup | src/lib/vectorStore.ts:49-66 | without an environment id, a lookup after setting a non-empty id returns that id, whether or not the file write succeeded |
| VectorStore.SetIsObserved | src/app/api/init/route.ts:147 | after setting a non-empty id, the lookup returns it exactly when no environment id is set or the environment id equals it (the `storedSuccessfully` flag) |
| VectorStore.ClearThenLookup | src/lib/vectorStore.ts:68-80 | without an environment id, a lookup after a clear finds nothing when the file was removed, and the trimmed file content when removing it failed |
| VectorStore.LayersAgree | src/lib/vectorStore.ts:49-80 | set and clear never touch the environment layer and always leave global and memory equal |
| VectorStore.ClearUndoesSet | src/lib/vectorStore.ts:49-80 | clearing after a set (both reaching the file) leaves the same layers as clearing alone |
| VectorStore.IdStore.constructor | src/lib/vectorStore.ts:6-11 | a fresh cache holds the environment id and file content, with global and memory empty |
| VectorStore.IdStore.Set | src/lib/vectorStore.ts:49-66 | global and memory become the id, the file becomes the id only when the write succeeds, and without an environment id the cache then reports the id |
| VectorStore.IdStore.Clear | src/lib/vectorStore.ts:68-80 | global and memory are emptied, the file only when removal succeeds, the environment is kept |
| KnowledgeBase.PdfNames | src/app/api/init/route.ts:29-31 | a listed name is kept exactly when its lower-cased form ends with ".pdf" |
| KnowledgeBase.PdfNamesAppend | src/app/api/init/route.ts:30-31 | the filter keeps directory order: filtering a concatenation concatenates the filtered parts |
| KnowledgeBase.PdfNamesAllOrNothing | src/app/api/init/route.ts:30-31 | a listing of PDFs only passes unchanged; a listing with none gives nothing |
| KnowledgeBase.Existing | src/app/api/init/route.ts:42-45 | a candidate path is kept exactly when it exists |
| KnowledgeBase.KnowledgeBaseFiles | src/app/api/init/route.ts:21-49 | `getKnowledgeBaseFiles`; specified by `KnowledgeBaseFilesSpec` |
| KnowledgeBase.KnowledgeBaseFilesSpec | src/app/api/init/route.ts:21-49 | with a knowledge-base directory: its PDF entries, in order, joined to that directory; without one: the Atomberg file then the generic file under public, each only if present |
| StatusRoute.Status | src/app/api/status/route.ts:13-36 | code is always 200; ready exactly when an id is cached, the key is set, retrieve succeeds and the store is not in progress with a completed count above 0; the not_initialized, missing-key and retrieve-error bodies; otherwise status, counts and id echoed |
| InitRoute.Uploaded | src/app/api/init/route.ts:93-110 | a successful run of n uploads yields n ids, the i-th being what the i-th upload returned |
| InitRoute.UploadedFailsAtFirstError | src/app/api/init/route.ts:96-110 | the uploads fail exactly when some upload throws, and with the error of the first one that does |
| InitRoute.UploadAll | src/app/api/init/route.ts:92-110 | the loop returns the ids of `Uploaded` or its error, and the i-th detail pairs the i-th id with the i-th path's base name; it makes one call per path, or stops right after the first call that throws, every earlier call having succeeded |
| InitRoute.PollUntilReady | src/app/api/init/route.ts:124-137 | starting from the created store, between 1 and 120 retrieves; every retrieve before the last succeeded and was not ready; ready exactly when the last is ready; a store still not ready was polled 120 times; a throwing retrieve stops the loop |
| InitRoute.Reuse | src/app/api/init/route.ts:57-75 | the early answer exists exactly when the cached id is truthy, retrievable and ready, and echoes that id, status and counts |
| InitRoute.Build | src/app/api/init/route.ts:92-155 | an upload error answers 500 with the error of the first upload that throws, after exactly the calls up to it; the store is cached exactly when all uploads and the create succeed; the answer lists every file with its id and name, the new id, the last poll's status and counts, ready as that poll says, and storedSuccessfully exactly when the cache then reports the new id |
| InitRoute.Init | src/app/api/init/route.ts:51-156 | missing key gives 500; a ready cached store is reused with nothing uploaded; the 400 no-files answer exactly when neither applies and no PDF is found; uploads never exceed the files found; the cache changes only by setting the created store's id |
| ChatRoute.Discover | src/app/api/chat/route.ts:63 | a discovered store carries the knowledge-base name and a completed count above 0 |
| ChatRoute.DiscoverIsFirst | src/app/api/chat/route.ts:63 | discovery returns the first such store in the listing |
| ChatRoute.ResolvedId | src/app/api/chat/route.ts:58-72 | the id the route goes on with: the cached one, or the discovered one; specified by `CachedIdIsUsed` and `AdoptedIsFirstKnowledgeBase` |
| ChatRoute.Gate | src/app/api/chat/route.ts:80-105 | the model is consulted exactly when retrieve succeeds, the store is not in progress and its completed count exists and is not 0; every refusal is a 400 or 500 error |
| ChatRoute.GateRefusals | src/app/api/chat/route.ts:86-104 | a throwing retrieve (including missing file counts) gives 500 "Unable to verify…"; in progress gives 400 "still being processed"; 0 completed gives 400 "not ready yet" |
| ChatRoute.GateAgreesWithReadiness | src/app/api/chat/route.ts:86-98 | the chat gate admits every store the status route calls ready, and, for a completed count that is not negative, only those |
| ChatRoute.StatusReadyAdmits | src/app/api/status/route.ts:15-25 | whenever the status route reports ready, the chat route for the same id and retrieve passes its gate |
| ChatRoute.CachedIdIsUsed | src/app/api/chat/route.ts:58-72 | a cached truthy id is used as is and nothing is adopted; an adopted id happens only without a cached one and is the id used |
| ChatRoute.AdoptedIsFirstKnowledgeBase | src/app/api/chat/route.ts:59-68 | with no cached id, a listing holding a discoverable store adopts one at or before it |
| ChatRoute.PostResponse | src/app/api/chat/route.ts:51-201 | the route's answer as a function; specified by `NeverAskedUnlessReady`, `Gate`, `GateRefusals` and the `Citations` lemmas |
| ChatRoute.NeverAskedUnlessReady | src/app/api/chat/route.ts:51-201 | a request body that cannot be read gives 500 with its error; then missing key gives 500; no id gives 400 "not initialized"; a throwing retrieve gives 500; in progress gives 400; a reply is produced only after all of these pass |
| ChatRoute.Post | src/app/api/chat/route.ts:51-201 | the response is the route's answer for the cache state before the call; the model is asked only for a readable request with a resolved id that passes the gate; an adopted id is written to the cache and nothing else changes it |
| Citations.BlobEndUnique | src/app/api/chat/route.ts:153 | the closing brace of the match is the unique `}` followed only by an optional backtick and white space |
| Citations.BlobStartSpec | src/app/api/chat/route.ts:153 | the opening brace is the one that follows the marker after only white space and at most one backtick |
| Citations.MatchFromFinds | src/app/api/chat/route.ts:153 | the search finds a marker whose brace group ends at the closing brace, at or before any such marker |
| Citations.SourcesLine | src/app/api/chat/route.ts:153 | the `match` of the sources-line regex; specified by `SourcesLineIsFirstMatch` and `NoMatchBefore` |
| Citations.SourcesLineIsFirstMatch | src/app/api/chat/route.ts:153 | the match found satisfies the regex, and every match of the regex starts at or after it, with the same groups when it starts there |
| Citations.NoMatchBefore | src/app/api/chat/route.ts:153-154 | any regex match implies the line is found, at or before that match |
| Citations.CutPoint | src/app/api/chat/route.ts:170 | where the `replace` starts cutting; specified by `FirstMarkerIsFirst`, `CutBeforeEveryMarker` and `CutAtMarker` |
| Citations.StrippedReply | src/app/api/chat/route.ts:170 | the reply after the `replace` and `trim`; specified by `StrippedReplyHasNoMarker` and `TrailingLineReply` |
| Citations.FirstMarkerIsFirst | src/app/api/chat/route.ts:170 | the removal starts at the first occurrence of the marker |
| Citations.CutBeforeEveryMarker | src/app/api/chat/route.ts:170 | the cut falls before the end of every occurrence of the marker |
| Citations.StrippedReplyHasNoMarker | src/app/api/chat/route.ts:170 | the cleaned reply never contains the marker |
| Citations.TrailingLineReply | src/app/api/chat/route.ts:170 | for text with no marker followed by a marker, the cleaned reply is the trimmed text, whether or not a newline preceded the marker |
| Citations.ParseBlob | src/app/api/chat/route.ts:155-169 | the two `JSON.parse` attempts; specified by `RepairRecovers`, `RepairedLine` and `UnparsableLine` |
| Citations.RepairRecovers | src/app/api/chat/route.ts:155-169 | a brace group with one `}` too many that does not parse parses as the group without it |
| Citations.FindSfaIsFirst | src/app/api/chat/route.ts:179 | the fallback annotation is the first file citation whose file name contains "sfa" in any ASCII case |
| Citations.SfaFallback | src/app/api/chat/route.ts:177-183 | when no sources were parsed and the annotations are an array holding an "sfa" citation, the sources become that first citation's file at page 1; in every other case the parsed sources stay |
| Citations.Extraction | src/app/api/chat/route.ts:149-183 | the reply and sources as a function; specified by `TrailingLine`, the four line lemmas and `NoSourcesLine` |
| Citations.ExtractReply | src/app/api/chat/route.ts:149-183 | the reply and sources are those of the specification `Extraction`; without a sources line the reply is the raw text |
| Citations.NoSourcesLine | src/app/api/chat/route.ts:153-154 | text the regex does not match keeps its raw reply and only the "sfa" fallback can add sources |
| Citations.TrailingLine | src/app/api/chat/route.ts:150-174 | for text, marker, blank gap, brace group and blank tail: a group that parses gives the trimmed text and its sources; one that throws keeps the raw text with no parsed sources |
| Citations.WellFormedLine | src/app/api/chat/route.ts:153-170 | a parsed `sources` array is returned as is when non-empty, with the text before the line as reply |
| Citations.RepairedLine | src/app/api/chat/route.ts:161-170 | an extra closing brace is repaired: the answer equals that for the well-formed line |
| Citations.UnparsableLine | src/app/api/chat/route.ts:161-174 | when the group parses neither as is nor repaired, the reply keeps the raw text including the line |
| Citations.LineWithoutSources | src/app/api/chat/route.ts:156-170 | JSON without a `sources` array still strips the line, leaving sources to the fallback |
| ChatPage.StatusText | src/app/page.tsx:77-86 | a failed check gives "Checking status...", status error gives "Error verifying knowledge base. Retrying...", not_initialized gives "Preparing knowledge base...", in_progress gives "Processing knowledge base...", and any other status keeps the text |
| ChatPage.FirstReady | src/app/page.tsx:68-76 | the attempt that ends the polling is below the limit and its reply is ready |
| ChatPage.FirstReadyIsFirst | src/app/page.tsx:68-76 | polling ends at the first ready reply |
| ChatPage.FirstReadyNone | src/app/page.tsx:68-91 | when polling gives up, no reply within the limit was ready |
| ChatPage.StatusAfterRange | src/app/page.tsx:67-91 | after a polling run that gives up, the status is the old one or one of the four status messages |
| ChatPage.FirstReadyPrefix | src/app/page.tsx:68-76 | a ready reply after a run of not-ready ones is where every longer polling run stops |
| ChatPage.ErrorField | src/app/page.tsx:157 | a non-empty `error` field is the message, a missing or empty one gives the fallback |
| ChatPage.IsProcessing | src/app/page.tsx:158-159 | the test for an error that means the knowledge base is being prepared; specified by `MentionIsProcessing` |
| ChatPage.MentionIsProcessing | src/app/page.tsx:158-159 | any message holding "still being processed" or "not ready", in any ASCII case, counts as processing |
| ChatPage.RemoveId | src/app/page.tsx:152 | the typing filter; specified by `RemoveIdKeeps`, `RemoveIdAppend`, `RemoveIdIdempotent` and `TypingFilter` |
| ChatPage.RemoveIdKeeps | src/app/page.tsx:152 | the typing filter keeps exactly the messages whose id differs |
| ChatPage.RemoveIdAppend | src/app/page.tsx:152 | the filter keeps order: filtering a concatenation concatenates the filtered parts |
| ChatPage.RemoveIdIdempotent | src/app/page.tsx:171 | filtering a second time (the catch block after the first filter) changes nothing |
| ChatPage.TypingFilter | src/app/page.tsx:133-152 | after adding the user's message and the indicator, the filter removes each exactly when its timestamp id equals the indicator's id |
| ChatPage.BotMessages | src/app/page.tsx:154-182 | a reply adds exactly one bot message with the reply text; a processing error adds none; any other error adds one bot message, "❌ Sorry, I encountered an error: " followed by the error |
| ChatPage.ChatClient.constructor | src/app/page.tsx:14-18 | no messages, empty input, not loading, not initialised, status "Initializing..." |
| ChatPage.ChatClient.AddMessage | src/app/page.tsx:115-123 | appends one message stamped with the clock and nothing else changes |
| ChatPage.ChatClient.SetInput | src/app/page.tsx:263 | replaces the input and nothing else changes |
| ChatPage.ChatClient.PollStatus | src/app/page.tsx:67-91 | returns true exactly when some reply within the limit is ready, after that first ready attempt, with the page initialised and "Ready!"; otherwise all attempts run and the status is what the replies leave |
| ChatPage.ChatClient.InitializeSystem | src/app/page.tsx:38-65 | a successful init marks the page ready; a failure shows "Error: " and the message; the welcome or apology is added only when the rendered list was empty |
| ChatPage.ChatClient.CheckOnce | src/app/page.tsx:94-95 | one status check: ready exactly when the reply says so, otherwise the status text it sets |
| ChatPage.ChatClient.CheckReadinessAndInit | src/app/page.tsx:93-113 | a ready first check only welcomes; otherwise init runs, then up to 60 polls decide initialised and the final status, and a page rendered empty gets the init notice and, if ready, a second welcome |
| ChatPage.ChatClient.InitThenPoll | src/app/page.tsx:103-112 | initialised afterwards exactly when it was before, init succeeded, or a poll within 60 was ready |
| ChatPage.ChatClient.FinishBoot | src/app/page.tsx:105-112 | a poll run that gives up leaves the "Still preparing" status; a ready one welcomes a page rendered empty |
| ChatPage.ChatClient.SendMessage | src/app/page.tsx:126-186 | blank input or loading does nothing; not initialised only sets the processing status; a sent message clears the input, appends the user's message and then the bot's answer after the typing filter, and a processing error re-polls instead of showing an error |
| ChatPage.ChatClient.Request | src/app/page.tsx:141-185 | removes the typing indicator, adds the bot messages for the answer, re-polls on a processing error, and always ends not loading |
| PdfViewer.ZoomIn | src/app/components/PdfViewerClient.tsx:55-62 | from page width goes to 125%; otherwise adds 25 points, capped at 300 |
| PdfViewer.ZoomOut | src/app/components/PdfViewerClient.tsx:64-69 | page width stays; otherwise removes 25 points, floored at 50 |
| PdfViewer.ZoomKeepsValid | src/app/components/PdfViewerClient.tsx:55-69 | both buttons keep the zoom at page width or a multiple of 25 between 50 and 300 |
| PdfViewer.ZoomInverse | src/app/components/PdfViewerClient.tsx:55-69 | below the cap zoom-out undoes zoom-in, and above the floor zoom-in undoes zoom-out |
| PdfViewer.ApplyKeepsValid | src/app/components/PdfViewerClient.tsx:55-71 | any sequence of zoom-in, zoom-out and fit presses keeps the zoom valid |
| PdfViewer.ClimbBy | src/app/components/PdfViewerClient.tsx:55-62 | n presses of zoom-in below the cap add 25 points each |
| PdfViewer.DescendBy | src/app/components/PdfViewerClient.tsx:64-69 | n presses of zoom-out above the floor remove 25 points each |
| PdfViewer.ValidIsReachable | src/app/components/PdfViewerClient.tsx:55-71 | every valid zoom is reached from page width by some button sequence |
| PdfViewer.ViewerWidth | src/app/components/PdfViewerClient.tsx:29-35 | the container width, less 16 pixels of padding on windows of at most 768 pixels |
| PdfViewer.ComputedWidth | src/app/components/PdfViewerClient.tsx:93-95 | `computedWidth`; specified by `ComputedWidthScales` and `ZoomInWidens` |
| PdfViewer.ComputedWidthScales | src/app/components/PdfViewerClient.tsx:93-95 | at page width the page is drawn at the viewer's width; a percentage zoom draws it at least 200 pixels wide, and otherwise at the floor of width times percentage over 100 |
| PdfViewer.ZoomInWidens | src/app/components/PdfViewerClient.tsx:55-95 | zooming in never narrows the rendered page |
| PdfViewer.Pages | src/app/components/PdfViewerClient.tsx:122-123 | pages 1 to numPages, none when the count is unknown or 0 |
| PdfViewer.PagesInOrder | src/app/components/PdfViewerClient.tsx:122-123 | a page is listed exactly when it is between 1 and the count, in increasing order |
| PdfViewer.Viewer.constructor | src/app/components/PdfViewerClient.tsx:22-25 | page width zoom, width 0, no page count |
| PdfViewer.Viewer.PressZoomIn | src/app/components/PdfViewerClient.tsx:55-62 | the zoom becomes `ZoomIn` of the old zoom and stays valid; width and page count unchanged |
| PdfViewer.Viewer.PressZoomOut | src/app/components/PdfViewerClient.tsx:64-69 | the zoom becomes `ZoomOut` of the old zoom and stays valid; width and page count unchanged |
| PdfViewer.Viewer.FitToWidth | src/app/components/PdfViewerClient.tsx:71 | the zoom becomes page width, as on a file change; nothing else changes |
| PdfViewer.Viewer.ResetOnMobile | src/app/components/PdfViewerClient.tsx:43-48 | a visible viewer on a window of at most 768 pixels returns to page width; otherwise the zoom is kept |
| PdfViewer.Viewer.UpdateWidth | src/app/components/PdfViewerClient.tsx:29-36 | a mounted container sets the width to `ViewerWidth`; an unmounted one changes nothing |
| PdfViewer.Viewer.LoadSuccess | src/app/components/PdfViewerClient.tsx:73-75 | the page count becomes the loaded document's; nothing else changes |
| Text.Trim | src/app/api/chat/route.ts:155 | JavaScript's `trim`; specified by `TrimShape` and `TrimUnique` |
| Text.TrimShape | src/app/api/chat/route.ts:155 | `trim` returns a slice of its input with only white space cut off either end, and the result neither starts nor ends with white space |
| Text.TrimUnique | src/app/api/chat/route.ts:155 | `trim` removes exactly the leading and trailing white space: any split into blank, body without blank ends, blank gives that body |

## Left out

- The OpenAI SDK (`files.create`, `vectorStores.create/retrieve/list`, `responses.create`) is not modelled. Its answers are parameters: `Result` values or functions from the call index to a `Result`.
- `JSON.parse` is a parameter (`Parser`) returning the parsed `sources` field or failure. The model does not check that a parsed `sources` array holds well-formed entries, just as the route does not.
- The regex engine is not modelled. The one pattern used in each place is specified directly: the leftmost, lazy match of the sources line and the removal from the first marker.
- The file system, `process.env` and `process.cwd()` are not modelled. The model keeps only whether the id file write or removal succeeds (`writeOk`, `removeOk`), the directory listing or its absence, and a presence test for the two fallback files. A read error on the id file, which the source logs before falling through to `null`, is not modelled. `path.join` normalisation is not modelled either: a path is a directory sequence plus a name.
- Asynchrony, timers, the 2000 ms poll intervals, concurrency between requests, React rendering, scrolling, the auto-scroll effect, `encodeURI` of the file URL and the pdf.js worker set-up are not modelled. The page's state updates are applied in program order.
- Console logging, the prompt text and the model name are not modelled.
- How the route picks the text item from `response.output` is not modelled. The model receives the selected `output_text` item or nothing; the file-search log at lines 187-191 has no effect on the answer.
- The user's message is not modelled; its only use is inside the prompt. A request body that `request.json()` cannot read is modelled: the route answers 500 with the error before any other check (`message` is then an `Err`).
- Case mapping is ASCII only (`Text.LowerChar`). JavaScript's Unicode `toLowerCase` is not modelled, so a file name or error message is only matched against "sfa", "still being processed" or "not ready" through its ASCII letters.
- PdfViewer.ComputedWidthScales: the source computes the width in floating point (`viewerWidth * (p / 100)`); the model uses exact integer floor division, which can differ by one pixel where `p / 100` is not exact in binary.
- PdfViewer.ZoomIn, PdfViewer.ZoomOut: the zoom is kept as a number, not as the string `parseInt` reads back, and the `'100'` default for an empty string is not modelled because the zoom is never empty.
- The chat route repeats `getOpenAIClient` and `getKnowledgeBaseFiles` from the init route. Only the init route's copy of the file listing is modelled; in the chat route only the missing-key answer is.
- A non-string `error` field in a JSON answer is not modelled: errors are strings or absent.
- The `/api/health` route, the page layout and the setup scripts are not modelled. They are outside this core.
- ChatPage.ChatClient.CheckReadinessAndInit, ChatPage.ChatClient.InitializeSystem: the `messages.length === 0` tests read the list as it was rendered when the boot sequence started. The model passes that as `renderedEmpty`. As a result, a successful init followed by a ready poll adds the welcome twice, which the contract states (`BootNotices`).
- ChatPage.ChatClient.SendMessage: message ids are `Date.now()` readings, passed as `clock`. When the user's message and the indicator share a millisecond, the typing filter removes the user's message too; the contract states this through `RemoveId`.
