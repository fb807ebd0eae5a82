# A verified model of the OpenAI examples app's deterministic core

The application is a Next.js front end with API routes over hosted AI
services. Around that glue sit several small routines whose behaviour can be
stated exactly once the network results are passed in as values. This project
models those routines in Dafny and proves what they promise.

- **News corroboration.** The mock search engine, the pairing of results into
  at most three previews, and domain normalisation and extraction. It also
  covers the rule that a preview needs two distinct non-empty domains, with the
  diagnostics list stopping at the first failing preview because JavaScript's
  `some` stops there. The two fixture endpoints and the scenarios of the
  validator's test file and script are included.
- **Newline-delimited JSON streaming.** The two chat routes write one
  serialised event plus `'\n'` per event, and one error line on failure. The
  OpenAI wrapper folds function-call fragments. The two chat clients cut
  their buffer at each `'\n'` and apply each line to the message list. The
  model proves a full round trip: whatever the route writes, however the
  bytes are re-chunked, the basic chat client ends with the same message list
  it would get from applying the events directly.
- **Decision chains.** The news handler's and the news page's error-code
  mapping, the weather route's dispatch on the first output item, the weather
  handler's suffix rule, `getResponseError` and `getSearchParam`.
- **Coding sessions.** The content list, citation deduplication by
  `container::file`, and the cleanup route's ordered subsequence of deleted ids.
- **Small rules.** `slugifyPrompt`, the PDF file name, the text-file test in
  `convertFiles`, the pagination loop in `text2pdf`, `imageSrc` and
  `toPreview`, the generation guard on preview images, and
  `parse_year_month` of the Python example.

## How the model is organised

There is one module per source file, plus shared modules:
- `Wrappers`: Option.
- `Strings`: JavaScript's `trim`, `toLowerCase`, `split` and `indexOf`, plus dedup.
- `Js`: a JSON value datatype, property access with JavaScript's nullish and
  falsy rules, and `JSON.stringify`.
- `ChatState`: the message list.
- `Ndjson`: framing and line splitting.

How the source's constructs become Dafny:
- Pure source code becomes functions with lemmas.
- Loops become methods proved equal to a specification function.
- Objects whose fields the source updates become classes:
  - `ChatRoutes.StreamController`, a stream's controller;
  - `ChatView.Chat`, the chat component's state;
  - `NewsSearchView.NewsSearch`, the news search page's state;
  - `NewsPage.Page`, the page's refs and its previews.

What becomes a parameter:
- `JSON.parse`, URL host parsing and jsPDF's line wrapping.
- Every network outcome: uploads, deletions, model replies and fetch replies.

`JSON.stringify` is modelled concretely, so "a framed payload holds no raw
newline" is proved rather than assumed.

Where the source's tests or comments and its code disagree, the code wins:
- `normalizeDomain` removes a single leading `www.`, so it is not idempotent.
- The absent `existingFileIds` path of the coding route fails with a
  TypeError (`JSON.parse(null)` is `null`, whose `length` throws) rather
  than yielding an empty list. `CodingRoute.AbsentExistingFails` shows this.
- `handleBasic` reads a JSON error body only as `errorData?.error`; the
  source's other handlers read more fields.

## Model

| member | source | states |
|---|---|---|
| NewsValidate.NormalizeDomain | app/api/news-search/route.ts:40-44 | an absent or empty domain gives ''; the result never holds an ASCII upper-case letter |
| NewsValidate.NormalizeStripsOneWww | app/api/news-search/route.ts:42-43 | when the lowercased, trimmed domain starts with 'www.', exactly that one prefix is removed |
| NewsValidate.NormalizeStripsWww | tests/test-news-validate.test.ts:5-9 | 'www.' + a plain host normalises to that host |
| NewsValidate.NormalizeIgnoresCase | scripts/test-news-validate.js:4-8 | lowercasing the input first does not change the normalised domain |
| NewsValidate.NormalizePlain | app/api/news-search/route.ts:40-44 | a plain lower-case host without 'www.' is its own normal form |
| NewsValidate.DomainFromSource | app/api/news-search/route.ts:47-63 | a falsy or non-object source gives ''; the result never holds an ASCII upper-case letter |
| NewsValidate.DomainTakesPrecedence | tests/test-news-validate.test.ts:11-24 | two object sources with the same non-blank string `domain` get the same domain, whatever their urls and URL parsers |
| NewsValidate.DomainFieldUsed | scripts/test-news-validate.js:10-23 | a non-blank string `domain` field is normalised and used |
| NewsValidate.UrlFailureGivesEmpty | app/api/news-search/route.ts:52-62 | without a non-blank domain field, a non-string or blank url, or a url that does not parse, gives '' |
| NewsValidate.UrlFallbackGivesHost | app/api/news-search/route.ts:52-60 | without a non-blank domain field, a url that parses gives its normalised host name |
| NewsValidate.PlainDomainWins | app/api/news-search/route.ts:47-51 | a plain lower-case `domain` not starting with 'w' is taken unchanged |
| NewsValidate.DomainsOf | app/api/news-search/route.ts:121-124 | the kept domains are all non-empty, and no more than the sources |
| NewsValidate.DomainsOfMembers | app/api/news-search/route.ts:122-124 | a string is among the kept domains iff some source yields it and it is non-empty |
| NewsValidate.UniformDomains | tests/test-news-validate.test.ts:85-94 | sources that all yield one non-empty domain keep it once per source |
| NewsValidate.DiagnoseMalformed | tests/test-news-validate.test.ts:33-36 | a falsy or non-object preview gets an empty diagnostic; non-array `sources` gives no domains; domains are non-empty; `unique` has exactly the members of `domains` |
| NewsValidate.Diagnose | tests/test-news-validate.test.ts:33-41 | the `some` callback's diagnostic of one preview: a falsy or non-object item counts as `{}`, a non-array `sources` as none; the domains are the non-empty source domains and `unique` their deduplication (properties in DiagnoseMalformed, CorroboratedIff) |
| NewsValidate.DistinctFromDedup | tests/test-news-validate.test.ts:37-40 | two or more unique domains mean two sources with distinct non-empty domains |
| NewsValidate.DedupFromDistinct | tests/test-news-validate.test.ts:37-40 | two sources with distinct non-empty domains give at least two unique domains |
| NewsValidate.CorroboratedIff | app/api/news-search/route.ts:115-129 | a preview passes iff two of its sources have distinct non-empty domains |
| NewsValidate.DiagnoseAll | app/api/news-search/route.ts:115-129 | one diagnostic per preview |
| NewsValidate.Scan | app/api/news-search/route.ts:115-129 | the short-circuiting `some`: diagnostics are recorded in order up to and including the first preview with fewer than two unique domains, which makes the verdict invalid (characterised by ScanMeaning) |
| NewsValidate.DiagnoseAllAt | app/api/news-search/route.ts:115-129 | diagnostic i is that of preview i |
| NewsValidate.ScanMeaning | tests/test-news-validate.test.ts:26-46 | invalid iff some diagnostic fails; the recorded diagnostics are a prefix ending at the first failure, or all of them when none fails |
| NewsValidate.Validate | tests/test-news-validate.test.ts:26-46 | `validateParsed` as a function: the scan of the previews' diagnostics (characterised by ValidateMeaning; the push loop ValidateParsed computes it) |
| NewsValidate.PreviewScanIsScan | scripts/test-news-validate.js:25-39 | the preview-by-preview statement of the scan agrees with the statement on diagnostics, both directions |
| NewsValidate.ValidateMeaning | scripts/test-news-validate.js:25-39 | invalid iff some preview fails; diagnostic i is that of preview i; the last recorded one is the first failure, or all previews are recorded |
| NewsValidate.ResumeStep | app/api/news-search/route.ts:115-129 | one `some` callback: the preview's diagnostic is recorded, and a failing preview ends the scan as invalid |
| NewsValidate.ValidateParsed | app/api/news-search/route.ts:115-129 | the loop that pushes diagnostics inside `some` computes exactly `Validate` of the previews: the verdict and the diagnostics up to the first failure |
| NewsRoute.MockFetchSerp | app/api/news-search/route.ts:9-31 | exactly 20 results; result i has title 'Event i+1', the mock snippet for i+1 and the query, rank i+1, domain `MOCK_DOMAINS[i mod 5]`, and a url from the domain, the dashed query and i+1 |
| NewsRoute.PairsShape | app/api/news-search/route.ts:97-112 | three previews from six or more results, else half rounded up; preview k holds results 2k and, when present, 2k+1; title, imagePrompt, summary and url come from result 2k |
| NewsRoute.Pairs | app/api/news-search/route.ts:97-112 | the pairing as a function: preview k from results 2k and 2k+1, at most three previews (characterised by PairsShape; PairPreviews computes it) |
| NewsRoute.PairPreviews | app/api/news-search/route.ts:97-112 | the pairing loop builds exactly `Pairs` of the results |
| NewsRoute.LastUserFound | app/api/news-search/route.ts:72-77 | a found message is an element with role 'user', and every later element was passed over |
| NewsRoute.LastUser | app/api/news-search/route.ts:72-77 | the reversed `find` for the last 'user' message, throwing on a nullish element it reaches (characterised by LastUserFound, LastUserNone, LastUserThrows) |
| NewsRoute.LastUserNone | app/api/news-search/route.ts:72-77 | no user message is found iff every element is passed over |
| NewsRoute.LastUserThrows | app/api/news-search/route.ts:72-77 | the backward search throws iff it reaches a nullish element before any user message |
| NewsRoute.Post | app/api/news-search/route.ts:65-175 | a non-JSON or nullish body gives INTERNAL_ERROR; without the fake backend nothing is answered; a search that throws gives INTERNAL_ERROR; otherwise the mock answer for the last user message's content |
| NewsRoute.MockResponse | app/api/news-search/route.ts:83-164 | the mock answer: the paired mock results validated, 400 NO_VERIFIED_EVENTS with the query (or 'the locality'), previews and diagnostics when invalid, else the previews with '/preview.jpg' (RespondMock computes it; MockAlwaysAnswersPreviews shows the valid branch is always taken) |
| NewsRoute.RespondMock | app/api/news-search/route.ts:83-164 | the mock path's steps compute `MockResponse`: 400 with NO_VERIFIED_EVENTS, the query (or 'the locality') and the diagnostics when invalid, else the previews with '/preview.jpg' |
| NewsRoute.MockDomainsPlain | app/api/news-search/route.ts:20-26 | the five mock domains are plain lower-case hosts |
| NewsRoute.MockDomainsDistinct | app/api/news-search/route.ts:20-26 | the five mock domains are non-empty and pairwise distinct |
| NewsRoute.PlainSourceDomain | app/api/news-search/route.ts:47-51 | a mock source yields its own domain |
| NewsRoute.SourcesOfPreview | app/api/news-search/route.ts:102-110 | the validator sees exactly a paired preview's sources |
| NewsRoute.PairedPreviewCorroborated | app/api/news-search/route.ts:97-129 | a preview paired from two results with distinct domains passes |
| NewsRoute.CycledPreviewCorroborated | app/api/news-search/route.ts:9-31 | with the domains cycling, each of the first three pairs passes |
| NewsRoute.MockPreviewCorroborated | app/api/news-search/route.ts:9-129 | each mock preview passes the validator |
| NewsRoute.MockPreviewsCorroborated | app/api/news-search/route.ts:9-129 | the mock previews are three and all pass |
| NewsRoute.MockAlwaysAnswersPreviews | app/api/news-search/route.ts:151-164 | the mock path always answers 200 with three previews, each with image '/preview.jpg' |
| NewsFixtures.RawDomains | app/api/news-search/test-invalid/route.ts:21-25 | one raw domain per source, in source order |
| NewsFixtures.FixtureDiagnostics | app/api/news-search/test-invalid/route.ts:21-25 | one diagnostic per preview: its title, its raw domains in order, and their dedup as `unique` |
| NewsFixtures.TestValidGet | app/api/news-search/test-valid/route.ts:6-53 | the valid fixture answers 200 with a plain {previews} body |
| NewsFixtures.TestInvalidGet | app/api/news-search/test-invalid/route.ts:27-34 | the invalid fixture answers 400 with NO_VERIFIED_EVENTS and the diagnostics of its previews |
| NewsFixtures.SourcesOfFixture | app/api/news-search/test-valid/route.ts:6-51 | the validator sees exactly a fixture preview's sources |
| NewsFixtures.FixtureCorroborated | app/api/news-search/test-valid/route.ts:6-51 | a fixture preview with two sources of different mock domains passes |
| NewsFixtures.DiagnoseFixture | app/api/news-search/test-invalid/route.ts:21-25 | the validator diagnoses a fixture preview under its own title, with its kept domains and their dedup |
| NewsFixtures.FixtureUniformDomains | app/api/news-search/test-invalid/route.ts:6-25 | when a fixture preview uses one mock domain throughout, the validator keeps exactly its raw domains |
| NewsFixtures.FixtureSingleDomain | app/api/news-search/test-invalid/route.ts:6-25 | a fixture preview with one mock domain is diagnosed with that single unique domain, and fails |
| NewsFixtures.ValidFixtureShape | app/api/news-search/test-valid/route.ts:6-51 | two previews of three sources with pairwise distinct domains, url from the first source, verified and '/preview.jpg' |
| NewsFixtures.ValidPreviewsCorroborated | app/api/news-search/test-valid/route.ts:6-51 | every valid fixture preview passes |
| NewsFixtures.ValidFixturePasses | app/api/news-search/test-valid/route.ts:6-53 | the valid fixture validates with two passing diagnostics, and `verified` matches the verdict |
| NewsFixtures.InvalidFixtureShape | app/api/news-search/test-invalid/route.ts:6-25 | one preview with two example.com sources, not verified; its diagnostics are [example.com, example.com] with unique [example.com] |
| NewsFixtures.InvalidFixtureFails | app/api/news-search/test-invalid/route.ts:6-34 | the validator rejects the invalid fixture with exactly the endpoint's diagnostics, matching `verified: false` |
| NewsScenarios.MockFetchSerpWithDomains | tests/test-news-validate.test.ts:48-60 | ten results; result i has rank i+1 and domain `domains[i mod len]`, none when the list is empty |
| NewsScenarios.BuildParsedFromResults | scripts/test-news-validate.js:55-77 | the build succeeds iff results 0, 3 and 5 are not nullish |
| NewsScenarios.BuiltPreviewFields | tests/test-news-validate.test.ts:62-83 | a built preview carries its sources, the title 'Preview n' and the url |
| NewsScenarios.BuildParsedShape | scripts/test-news-validate.js:55-77 | from eight or more results: three previews of results 0-2, 3-4 and 5-7, each with the url of its first source |
| NewsScenarios.ResultDomainField | tests/test-news-validate.test.ts:48-60 | a result's `domain` field is its domain |
| NewsScenarios.DistinctMockDomains | tests/test-news-validate.test.ts:96-111 | a preview with sources of two different mock domains passes |
| NewsScenarios.OneMockDomain | tests/test-news-validate.test.ts:85-94 | a preview whose sources all carry one mock domain fails |
| NewsScenarios.FirstFails | tests/test-news-validate.test.ts:26-46 | a failing first preview ends the scan as invalid with its one diagnostic |
| NewsScenarios.SecondFails | tests/test-news-validate.test.ts:26-46 | a passing first and failing second preview end the scan as invalid with two diagnostics |
| NewsScenarios.SerpCarriesDomains | tests/test-news-validate.test.ts:48-60 | the fake engine's ten results carry its domains in turn |
| NewsScenarios.SingleDomainResults | tests/test-news-validate.test.ts:85-94 | previews built from single-domain results are invalid with one failing diagnostic |
| NewsScenarios.SingleDomainSerpInvalid | scripts/test-news-validate.js:79-83 | scenario A: the build succeeds, and the previews are invalid with one diagnostic of fewer than 2 unique domains |
| NewsScenarios.ConsecutiveSourcesCorroborated | tests/test-news-validate.test.ts:96-111 | a preview of two or more consecutive five-domain results, not starting at the fifth domain, passes |
| NewsScenarios.VariedDomainResults | tests/test-news-validate.test.ts:96-111 | all three previews built from five-domain results pass |
| NewsScenarios.VariedDomainSerpValid | scripts/test-news-validate.js:85-95 | scenario B: the build succeeds, and the previews are valid with three diagnostics of at least 2 unique domains |
| NewsScenarios.MixedFirstCorroborated | tests/test-news-validate.test.ts:113-134 | the mixed scenario's first preview passes |
| NewsScenarios.MixedSecondFails | tests/test-news-validate.test.ts:113-134 | the mixed scenario's second preview, 'Preview 2', fails |
| NewsScenarios.MixedDomainSerpInvalid | scripts/test-news-validate.js:97-115 | scenario C: invalid with two diagnostics, one of them 'Preview 2' with fewer than 2 unique domains |
| Ndjson.Lines | app/components/chat/handlers/basic-handler.ts:81-103 | no complete line holds a '\n' |
| Ndjson.Rest | app/components/chat/handlers/basic-handler.ts:81-103 | the leftover after the last '\n' holds no '\n' |
| Ndjson.IndexOfUnique | app/components/chat/handlers/basic-handler.ts:81 | `indexOf` finds the first occurrence |
| Ndjson.LinesStep | app/components/chat/handlers/basic-handler.ts:82-84 | cutting at the first '\n' takes off exactly one complete line |
| Ndjson.NoNewline | app/components/chat/handlers/basic-handler.ts:82 | a buffer without '\n' has no line and is kept whole |
| Ndjson.LinesAppend | app/components/chat/handlers/basic-handler.ts:79-103 | reading more text adds the lines of the old leftover plus the new text |
| Ndjson.CutBeforeAppend | app/components/chat/handlers/basic-handler.ts:79-84 | text appended after a '\n' does not move the first line |
| Ndjson.IndexOfAppend | app/components/chat/handlers/basic-handler.ts:81 | the first '\n' of a buffer stays first when more text arrives |
| Ndjson.UnterminatedIgnored | app/components/chat/handlers/basic-handler.ts:75-104 | text no '\n' ends adds no complete line |
| Ndjson.FrameLines | app/api/basic-chat/route.ts:44-54 | one frame is one line with nothing left over |
| Ndjson.FrameAllStep | app/api/chat/route.ts:18-39 | framing one more payload adds exactly one line |
| Ndjson.ReadStep | app/components/chat/handlers/basic-handler.ts:75-79 | a read appends the new lines of the buffer |
| Ndjson.CutStep | app/components/chat/handlers/basic-handler.ts:82-84 | the inner loop's cut moves one line to those done |
| Ndjson.CutDone | app/components/chat/handlers/basic-handler.ts:82 | the inner loop ends with every line done and the leftover buffered |
| Ndjson.FrameAllLines | app/api/basic-chat/route.ts:44-54 | framing round trip: newline-free payloads come back as exactly the lines, nothing left over |
| Ndjson.StringifiedFramesRoundTrip | app/api/chat/route.ts:18-39 | serialised values never hold a raw '\n', so their frames come back intact |
| Js.Get | app/api/news-search/route.ts:47-51 | property access throws exactly on a nullish base and reads an object's own property |
| Js.Stringify | app/api/basic-chat/route.ts:44-54 | `JSON.stringify` for the values the routes send: quoted escaped strings, comma-joined arrays and objects, `undefined` members omitted (StringifyNoNewline, StringifyObjectTrimmed) |
| Js.StringifyNoNewline | app/api/chat/route.ts:23-26 | `JSON.stringify` output holds no raw '\n' |
| Js.StringifyObjectTrimmed | app/components/chat/handlers/basic-handler.ts:83 | a serialised object starts with '{', ends with '}' and is unchanged by `trim` |
| Js.LookupAt | app/api/news-search/route.ts:49-50 | reading a property gives the value of its first binding |
| Js.EscapeStringNoNewline | app/api/chat/route.ts:23-26 | an escaped JSON string holds no raw '\n' |
| Strings.TrimEmptyIffBlank | app/utils/get-search-param.ts:4 | `trim()` is empty iff the string is all whitespace |
| Strings.TrimStart | app/utils/get-search-param.ts:4 | drops exactly the leading JavaScript whitespace: a suffix that starts with a non-space |
| Strings.TrimEnd | app/utils/get-search-param.ts:4 | drops exactly the trailing JavaScript whitespace: a prefix that ends with a non-space |
| Strings.TrimIsTrimmed | app/api/news-search/route.ts:42 | a trimmed string is empty or starts and ends with a non-space |
| Strings.TrimKeeps | app/api/news-search/route.ts:42 | a string that starts and ends with a non-space is its own trim |
| Strings.ToLower | app/api/news-search/route.ts:42 | the result holds no ASCII upper-case letter |
| Strings.ToLowerAppend | app/api/news-search/route.ts:42 | lowercasing works character by character |
| Strings.ToLowerIdempotent | app/api/news-search/route.ts:42 | lowercasing twice is lowercasing once |
| Strings.JoinSplit | app/utils/text2pdf.ts:24 | joining the parts of a split with the separator gives the string back |
| Strings.IndexOf | app/components/chat/handlers/basic-handler.ts:81 | `indexOf` gives the first position holding the character |
| Strings.Split | app/utils/text2pdf.ts:24 | at least one part, none holding the separator, and two or more when the separator occurs |
| Strings.Collapse | app/api/gen-image/route.ts:14 | the rewrite leaves no whitespace and never lengthens the text (its full meaning is ReplaceSpaceRunsMeaning) |
| Strings.ReplaceSpaceRunsMeaning | app/api/gen-image/route.ts:13 | for an optional leading run, words separated by runs and an optional trailing run, the rewrite is the words joined with '-', with one '-' for each outer run present |
| Strings.ReplaceBlank | app/api/gen-image/route.ts:13 | all-whitespace text becomes a single '-' (nothing when empty) |
| Strings.CollapseInterleave | app/api/news-search/route.ts:25 | words separated by runs become the words joined with '-', then the rewrite of what follows |
| Strings.CollapseText | app/api/news-search/route.ts:25 | words separated by runs, then trailing space: the words joined with '-', plus one '-' when trailing space is present |
| Strings.CollapseRun | app/api/gen-image/route.ts:13 | a whitespace run is written as one '-', or nothing inside a run already begun |
| Strings.CollapseWord | app/api/gen-image/route.ts:13 | a non-space word is copied unchanged and ends any run |
| Strings.NatToString | app/pages/news-search/page.tsx:17 | a number's decimal text is non-empty and made of digits |
| Strings.DedupSpec | app/api/news-search/route.ts:125 | `[...new Set(xs)]` has the same members as xs and no repeats |
| Strings.Dedup | app/api/news-search/route.ts:125 | `Array.from(new Set(xs))` is never longer than xs (same members without repeats in DedupSpec; first-occurrence order in DedupOrder) |
| Strings.DedupBelowTwo | tests/test-news-validate.test.ts:37-40 | fewer than two unique values iff all values are equal |
| Strings.DedupFirst | tests/test-news-validate.test.ts:37-40 | dedup keeps the first occurrence first |
| Strings.DedupOrder | tests/test-news-validate.test.ts:37-40 | each kept value stands for its first occurrence in the input, and those first positions increase along the result: the subsequence of first occurrences |
| Strings.FirstIndex | app/api/news-search/route.ts:125 | the first position at which a value occurs: it holds that value and no earlier position does |
| Strings.DedupConstant | tests/test-news-validate.test.ts:85-94 | a non-empty sequence of one value dedups to that value alone |
| ChatState.AppendMessage | app/hooks/useChat.ts:26-33 | one message more, built from the arguments, at the end; earlier messages unchanged |
| Completion.RequestOf | app/openai.ts:36-44 | model gpt-4.1 and streaming; the weather function and `function_call: 'auto'` are sent iff `enableFunctions` |
| Completion.OpenAiOutcome | app/openai.ts:32-74 | the events of `createChatCompletion`: the content events in order, then one function_call event after a normal end when some delta was a call, or a rethrow (OpenAiEventOrder, AccumulatedIsConcatenation; CreateChatCompletion computes it) |
| Completion.CreateChatCompletion | app/openai.ts:32-74 | the generator loop yields exactly `OpenAiOutcome`'s events and rethrows a failure |
| Completion.ContentEventsAreContent | app/openai.ts:62-64 | the per-chunk events are all content events, at most one per chunk |
| Completion.OpenAiEventOrder | app/openai.ts:67-69 | every event but the last is content; the last is a function call iff the stream ended normally and some delta carried a function call |
| Completion.CallTextsSnoc | app/openai.ts:52-61 | a function-call delta appends its name and arguments fragments at the end, others change nothing |
| Completion.AccumulatedIsConcatenation | app/openai.ts:52-61 | an accumulator exists iff some delta carries `function_call`, and it is the in-order concatenation of all fragments |
| Completion.CallYieldsNoContent | app/openai.ts:52-64 | a delta carrying `function_call` yields no content event |
| Completion.BasicChatCompletion | app/api/basic-chat/route.ts:8-28 | the basic generator yields exactly `BasicOutcome`'s events and ends quietly on a stream error |
| Completion.BasicEventsMatchChunks | app/api/basic-chat/route.ts:18-23 | all events are content events; event k carries the k-th non-empty chunk content, in upstream order, and there are no others |
| Completion.BasicOutcome | app/api/basic-chat/route.ts:8-28 | the basic generator's events: one content event per non-empty content, a failed stream ending quietly, a failed request propagating (BasicEventsMatchChunks; BasicChatCompletion computes it) |
| Completion.SomesSnoc | app/api/basic-chat/route.ts:18-23 | one more chunk adds its content, if any, at the end |
| ChatRoutes.StreamController.Enqueue | app/api/chat/route.ts:21-37 | the chunk is appended to what the stream has written; it stays open |
| ChatRoutes.Body | app/api/basic-chat/route.ts:44-66 | the chunks a route enqueues: one `JSON.stringify(event) + '\n'` frame per event, plus the error frame when the generator threw (BodyFrames, ErrorLineIffThrew, BodyReadsBack) |
| ChatRoutes.StreamController.Close | app/api/chat/route.ts:53 | the stream is closed and what it wrote is kept |
| ChatRoutes.BodyFrames | app/api/chat/route.ts:17-52 | one frame per event, in order, then the error frame exactly when the generator threw |
| ChatRoutes.Pump | app/api/chat/route.ts:14-54 | the start loop enqueues exactly `Body` of the generator's outcome and closes the stream |
| ChatRoutes.BasicChatPost | app/api/basic-chat/route.ts:32-71 | the basic route writes its events framed, an error line on failure, and closes |
| ChatRoutes.ChatPost | app/api/chat/route.ts:5-57 | the chat route writes its content and function_call events framed, an error line on failure, and closes |
| ChatRoutes.ConcatFrames | app/api/chat/route.ts:18-39 | the frames enqueued one by one read as the framing of the payloads |
| ChatRoutes.BodyReadsBack | app/api/basic-chat/route.ts:44-66 | a reader splitting the body at '\n' gets exactly the serialised payloads, with nothing left over |
| ChatRoutes.ErrorLineIffThrew | app/api/chat/route.ts:40-52 | no event line is an error line; there is one extra line, the error, exactly when the generator threw |
| ChatRoutes.BasicChatErrorLine | app/api/basic-chat/route.ts:25-27 | the basic route ends in an error line iff the model request failed; a failing stream just ends |
| ChatRoutes.ChatErrorLine | app/api/chat/route.ts:40-52 | the chat route ends in an error line iff the request or the stream failed, and then writes no function_call line |
| BasicHandler.FindIndex | app/components/chat/handlers/basic-handler.ts:16 | the first message carrying the id, or none iff no message carries it |
| BasicHandler.UpdateMessageById | app/components/chat/handlers/basic-handler.ts:11-26 | unchanged when no message has the id; otherwise only the first such message gets the new text and error flag |
| BasicHandler.AppendToMessage | app/components/chat/handlers/basic-handler.ts:28-45 | unchanged when no message has the id; otherwise only the first such message has the content appended |
| BasicHandler.FindIndexAt | app/components/chat/handlers/basic-handler.ts:16 | a message with the id and none before it is the one found |
| BasicHandler.OnlyTargetKeepsIndex | app/components/chat/handlers/basic-handler.ts:16-25 | changing only the target's text and error keeps it the first message with its id |
| BasicHandler.ApplyEvent | app/components/chat/handlers/basic-handler.ts:47-64 | an event changes at most the targeted message, and never its role or id |
| BasicHandler.ApplyLine | app/components/chat/handlers/basic-handler.ts:83-101 | a line changes at most the targeted message, and never its role or id |
| BasicHandler.ParsedLineApplies | app/components/chat/handlers/basic-handler.ts:83-93 | a trimmed non-empty line that parses is applied as the event it parses to |
| BasicHandler.ApplyLinesSnoc | app/components/chat/handlers/basic-handler.ts:82-103 | lines are applied one after the other, in stream order |
| BasicHandler.ProcessStream | app/components/chat/handlers/basic-handler.ts:66-108 | the nested read and cut loops apply exactly the complete lines of all text read, in order, and keep the text after the last '\n' |
| BasicHandler.DrainBuffer | app/components/chat/handlers/basic-handler.ts:81-103 | the inner loop applies every complete line of the buffer and keeps the leftover |
| BasicHandler.HandleStreamingResponse | app/components/chat/handlers/basic-handler.ts:110-137 | a missing body marks the placeholder TRY_AGAIN with error; otherwise the stream's lines are applied, and a failed read then marks it TRY_AGAIN |
| BasicHandler.StreamResult | app/components/chat/handlers/basic-handler.ts:110-137 | the streamed message: every complete line of the concatenated reads applied in order, then TRY_AGAIN with error on a failed read; a missing body gives TRY_AGAIN with error (ApplyLinesFrame, TrailingTextIgnored, StreamFailureShowsTryAgain, BasicChatRoundTrip) |
| BasicHandler.BasicResult | app/components/chat/handlers/basic-handler.ts:139-170 | `handleBasic`: a thrown fetch appends TRY_AGAIN; a non-ok reply appends the mapped error; an ok reply appends an empty placeholder with a fresh id and streams into it (NonOkAppendsError, StreamFailureShowsTryAgain) |
| BasicHandler.HandleBasic | app/components/chat/handlers/basic-handler.ts:139-170 | `handleBasic` computes `BasicResult` for every fetch outcome |
| BasicHandler.ApplyLinesFrame | app/components/chat/handlers/basic-handler.ts:82-103 | a whole stream changes at most the targeted message |
| BasicHandler.TrailingTextIgnored | app/components/chat/handlers/basic-handler.ts:75-104 | text after the last '\n' is never applied |
| BasicHandler.NonOkAppendsError | app/components/chat/handlers/basic-handler.ts:151-161 | a non-ok reply appends one assistant error message without id and no placeholder; its text is a non-empty string `errorData.error`, or TRY_AGAIN without a body |
| BasicHandler.StreamFailureShowsTryAgain | app/components/chat/handlers/basic-handler.ts:115-136 | a missing body or a failed read leaves one new message, the placeholder, as TRY_AGAIN with error |
| ChatRoundTrip.ObjectLine | app/components/chat/handlers/basic-handler.ts:83-93 | the serialised line of an object, parsed back, applies as that object |
| ChatRoundTrip.TextsApply | app/components/chat/handlers/basic-handler.ts:82-103 | applying the serialised payloads as lines is applying the payloads |
| ChatRoundTrip.ContentEventApplies | app/components/chat/handlers/basic-handler.ts:53-55 | a content event appends its text to the target |
| ChatRoundTrip.AppendTwice | app/components/chat/handlers/basic-handler.ts:28-45 | appending a then b is appending a + b |
| ChatRoundTrip.ContentEventsApply | app/components/chat/handlers/basic-handler.ts:47-64 | content events together append their joined text |
| ChatRoundTrip.ErrorEventApplies | app/components/chat/handlers/basic-handler.ts:56-61 | an error event sets the target's text to the failure and its error flag |
| ChatRoundTrip.ReceivedApply | app/api/basic-chat/route.ts:44-66 | however the route's body is re-chunked, the client applies exactly its payloads |
| ChatRoundTrip.BasicChatRoundTrip | app/api/basic-chat/route.ts:8-71 | end to end: the target ends with the joined streamed content appended, or with the failure text as an error |
| ChatRoundTrip.FailedRequestApplies | app/api/basic-chat/route.ts:56-66 | a failed model request marks the target with the failure text as an error |
| ChatRoundTrip.StreamedChunksApply | app/api/basic-chat/route.ts:18-27 | a streamed answer appends its joined content to the target |
| ChatView.AppendToLast | app/components/chat/chat.tsx:79-90 | only the last message changes: its role is kept, the text is appended, and it is an error iff it was one or the new part is |
| ChatView.ApplyData | app/components/chat/chat.tsx:119-140 | a parsed line throws iff it is nullish; otherwise at most the last message changes, keeping its role |
| ChatView.ApplyChatLine | app/components/chat/chat.tsx:112-145 | a line changes at most the last message |
| ChatView.ApplyChatLines | app/components/chat/chat.tsx:111-146 | a sequence of lines changes at most the last message |
| ChatView.ApplyChatLinesSnoc | app/components/chat/chat.tsx:111-146 | lines are applied one after the other, in stream order |
| ChatView.Flush | app/components/chat/chat.tsx:148-151 | the leftover flush changes at most the last message |
| ChatView.ReadStepSpec | app/components/chat/chat.tsx:105-151 | one read changes at most the last message |
| ChatView.Drain | app/components/chat/chat.tsx:104-152 | all reads together change at most the last message |
| ChatView.FlushShape | app/components/chat/chat.tsx:148-151 | after the flush the buffer holds no '\n' and is blank or holds a '{' |
| ChatView.DrainShape | app/components/chat/chat.tsx:104-152 | after any read the buffer holds no '\n' and is blank or holds a '{' |
| ChatView.DrainLines | app/components/chat/chat.tsx:111-146 | the inner cut loop applies every complete line of the buffer and keeps the leftover |
| ChatView.ProcessChunks | app/components/chat/chat.tsx:92-160 | the read loop computes `ProcessResult` of the reads |
| ChatView.ProcessResult | app/components/chat/chat.tsx:92-160 | earlier messages kept and one assistant message added; a failed read leaves it marked as an error |
| ChatView.SubmittedText | app/components/chat/chat.tsx:204-208 | nothing is sent iff the input is blank or a request is in progress; otherwise the trimmed input, which is non-empty |
| ChatView.SendResult | app/components/chat/chat.tsx:162-202 | `sendMessage`'s outcome: whether the weather callback fires, and TRY_AGAIN for a failed fetch, a non-ok status or no body, else the streamed messages (Chat.Send is proved against it) |
| ChatView.Chat.constructor | app/components/chat/chat.tsx:61-63 | empty input, no messages, not processing, no weather updates or requests |
| ChatView.Chat.Submit | app/components/chat/chat.tsx:204-214 | a blank input or a busy state changes nothing; otherwise the input is cleared, processing set and the trimmed user message appended |
| ChatView.Chat.Send | app/components/chat/chat.tsx:162-202 | `onWeatherRequest` is called iff the lowercased text contains 'weather'; the messages and weather updates are those specified; processing ends and the input is kept |
| NewsHandler.Slice3 | app/components/chat/handlers/news-handler.ts:59-66 | arrays and strings keep their first min(3, length) elements; any other value has no `slice` and throws |
| NewsHandler.Locality | app/components/chat/handlers/news-handler.ts:48-50 | always truthy; details.query when details and details.query are truthy |
| NewsHandler.ErrorText | app/components/chat/handlers/news-handler.ts:43-57 | a non-empty string userMessage wins; else NO_VERIFIED_EVENTS names the locality; else a non-string code gives TRY_AGAIN; empty only for an empty-string code |
| NewsHandler.Notify | app/components/chat/handlers/news-handler.ts:17 | without a callback nothing is called; with one, a call is recorded iff the preceding slice did not throw |
| NewsHandler.Handle | app/components/chat/handlers/news-handler.ts:19-83 | the handler after `onNewsResults(null)`: the effects log of the non-ok mapping, the forwarded previews and the ok-path messages, and whether it threw (properties in NonOkAppendsOneError, OkPreviewsAppendNothing, OkWithoutPreviewsAppendsOne) |
| NewsHandler.HandleNews | app/components/chat/handlers/news-handler.ts:12-83 | with a callback the first effect is `onNewsResults(null)`; without one no callback is called; no call forwards more than three previews |
| NewsHandler.AppendedTextsAppend | app/components/chat/handlers/news-handler.ts:12-83 | the appended messages of two logs are those of each, in order |
| NewsHandler.NonOkAppendsOneError | app/components/chat/handlers/news-handler.ts:42-62 | a non-ok reply appends exactly one error message with the mapped text; it throws iff the body is nullish; forwarded previews are a prefix of a non-empty top-level array |
| NewsHandler.OkPreviewsAppendNothing | app/components/chat/handlers/news-handler.ts:65-66 | an ok reply with a previews array appends nothing and forwards null then its first three previews |
| NewsHandler.OkWithoutPreviewsAppendsOne | app/components/chat/handlers/news-handler.ts:67-82 | an ok reply without a previews array appends one message: the parse-failure text for PARSE_FAILURE, else the unexpected-response text |
| NewsSearchView.Say | app/examples/search/news-search.tsx:21-28 | the message goes at the end and the previews stay |
| NewsSearchView.ShowSlice | app/examples/search/news-search.tsx:44-55 | messages stay; it throws iff the value cannot be sliced, and then nothing changes; otherwise the first three are shown |
| NewsSearchView.TestErrorText | app/examples/search/news-search.tsx:33-43 | agrees with the full error chain except on string codes other than NO_VERIFIED_EVENTS without userMessage, which give TRY_AGAIN |
| NewsSearchView.TestResponse | app/examples/search/news-search.tsx:31-64 | earlier messages kept, at most one added, at most 3 previews; a non-ok object reply adds its mapped error and shows previews only from details.previews |
| NewsSearchView.PostFlow | app/examples/search/news-search.tsx:107-172 | the POST path's `try` block: the mapped error and the top-level previews when non-ok; ready, PARSE_FAILURE, unparsed-content or unexpected messages when ok (bounded by PostResponseBounded) |
| NewsSearchView.PostResponse | app/examples/search/news-search.tsx:117-183 | a non-ok object reply first adds the handler's mapped error; the previews shown come from top-level `previews`, never from details |
| NewsSearchView.PostResponseBounded | app/examples/search/news-search.tsx:117-183 | the POST path keeps earlier messages, adds one or two assistant messages and shows at most three previews |
| NewsSearchView.ValidFixtureShown | app/examples/search/news-search.tsx:52-55 | the valid fixture shows its two previews and adds 'Top previews ready.' |
| NewsSearchView.InvalidFixtureShown | app/examples/search/news-search.tsx:33-50 | the invalid fixture adds its userMessage as an error and shows its one preview |
| NewsSearchView.NewsSearch.constructor | app/examples/search/news-search.tsx:16-69 | no messages, empty input, not processing, no previews, mock mode |
| NewsSearchView.NewsSearch.SetTestMode | app/examples/search/news-search.tsx:201-207 | only the test mode changes |
| NewsSearchView.NewsSearch.Submit | app/examples/search/news-search.tsx:185-193 | sends iff the trimmed input is non-empty and not processing; then the input is cleared, processing set and the user message appended; otherwise nothing changes |
| NewsSearchView.NewsSearch.SendMessage | app/examples/search/news-search.tsx:71-183 | the endpoint is the POST iff mock mode, else the selected fixture; the screen is the POST outcome or the test-response outcome; processing ends |
| NewsSearchView.NewsSearch.PressTestButton | app/examples/search/news-search.tsx:216-247 | each button fetches its own fixture endpoint, handles the reply as a test response and ends processing |
| NewsPage.ToPreview | app/pages/news-search/page.tsx:13-20 | throws iff the element is nullish; every field is non-nullish; title and url kept when present; url falls back to the first source's url then 'preview-i'; image ''; imagePrompt falls back to image |
| NewsPage.MapPreviews | app/pages/news-search/page.tsx:47 | throws iff some element is nullish; otherwise element i is `toPreview(p, i)` |
| NewsPage.ImageSrc | app/pages/news-search/page.tsx:22-27 | falsy gives '/preview.jpg'; a truthy non-string throws; 'data:' strings kept; strings over 50 chars become a PNG data URL; always a data URL or '/preview.jpg' |
| NewsPage.ImageSrcIdempotent | app/pages/news-search/page.tsx:22-27 | the source computed for an image maps to itself |
| NewsPage.ImageUpdate | app/pages/news-search/page.tsx:69-78 | no change when there are no previews, idx is out of range or the image is equal; otherwise only preview idx gets the image |
| NewsPage.Issued | app/pages/news-search/page.tsx:50-62 | at most one request per preview, each of the given generation, with consecutive controllers and an index in range |
| NewsPage.IssuedSound | app/pages/news-search/page.tsx:51 | each request targets a preview with a truthy imagePrompt and carries that prompt, in increasing preview order |
| NewsPage.IssuedComplete | app/pages/news-search/page.tsx:51-62 | every preview with a truthy imagePrompt gets a request |
| NewsPage.IssuedStep | app/pages/news-search/page.tsx:50-62 | one more preview adds its request, with the next controller, iff its imagePrompt is truthy |
| NewsPage.ControllersSnoc | app/pages/news-search/page.tsx:53-55 | one more request adds its controller at the end |
| NewsPage.IssueRequests | app/pages/news-search/page.tsx:50-62 | the `forEach` loop issues exactly `Issued` of the previews |
| NewsPage.Begun | app/pages/news-search/page.tsx:35-40 | the generation goes up by 1, the current controllers are aborted and the list emptied; previews and requests stay |
| NewsPage.AfterResultsKeepsHistory | app/pages/news-search/page.tsx:34-84 | keeps the page invariant; the generation goes up by 1; the earlier controllers are aborted; the earlier requests are kept and are all of an older generation |
| NewsPage.AfterResults | app/pages/news-search/page.tsx:34-84 | `handleNewsResults` on the page state: a new generation with earlier controllers aborted, then either a throw or the mapped previews with their image requests (properties in AfterResultsKeepsHistory, AfterResultsShows, AfterResultsThrows) |
| NewsPage.AfterResultsThrows | app/pages/news-search/page.tsx:47 | a batch throws iff it has a nullish element, and then previews and requests stay |
| NewsPage.AfterResultsShows | app/pages/news-search/page.tsx:42-62 | null clears the previews and issues nothing; a batch shows its mapped previews and issues exactly their requests |
| NewsPage.ResultsStep | app/pages/news-search/page.tsx:34-84 | the body of `handleNewsResults` computes `AfterResults` of the old state |
| NewsPage.AfterImage | app/pages/news-search/page.tsx:64-78 | a falsy image or a stale generation changes nothing; generation, requests and controllers stay; only preview idx can change; the invariant is kept |
| NewsPage.StaleImageDropped | app/pages/news-search/page.tsx:64-67 | after another batch, a reply to any earlier request changes nothing |
| NewsPage.Page.constructor | app/pages/news-search/page.tsx:29-32 | no previews, generation 0, no controllers, no requests; the invariant holds |
| NewsPage.Page.HandleNewsResults | app/pages/news-search/page.tsx:34-84 | the page's state becomes that of `handleNewsResults` on its old state |
| NewsPage.Page.ImageArrived | app/pages/news-search/page.tsx:64-78 | the page's state becomes that of the image reply on its old state |
| WeatherRoute.ErrorBody | app/api/weather/route.ts:116-141 | the error JSON's `error` and `details` fields are the given ones |
| WeatherRoute.FunctionCallOutputIff | app/api/weather/route.ts:2-15 | an output item is a weather function call iff it is an object with type 'function_call', name 'get_weather' and string `arguments` |
| WeatherRoute.TextOutputIff | app/api/weather/route.ts:16-23 | an output item is a text output iff it is an object with a string `text` |
| WeatherRoute.Rebind | app/api/weather/route.ts:33-35 | overwriting an existing key keeps the number of properties |
| WeatherRoute.RebindLookup | app/api/weather/route.ts:33-35 | overwriting a key changes only that key, which then reads the new value |
| WeatherRoute.AppendLookup | app/api/weather/route.ts:33-35 | adding a new key changes only that key, which then reads the new value |
| WeatherRoute.SetPropLookup | app/api/weather/route.ts:32-35 | after spreading and setting `localtime`, `localtime` reads the new value and every other key reads as before |
| WeatherRoute.GetWeatherCall | app/api/weather/route.ts:30-36 | destructuring nullish arguments throws; a result means the lookup succeeded and is an object |
| WeatherRoute.Spread | app/api/weather/route.ts:33-34 | the own properties `{...weather}` copies: an object's bindings, the indexed elements of an array or string, nothing otherwise (used by GetWeatherCall, SetPropLookup) |
| WeatherRoute.SetProp | app/api/weather/route.ts:33-35 | `localtime` after the spread: an existing binding is rebound in place, otherwise added at the end (SetPropLookup) |
| WeatherRoute.FunctionCallReply | app/api/weather/route.ts:111-123 | the inner `try`: parsed arguments passed to `get_weather` give 200 with its result; any throw gives 500 with the parse-failure message and `String(err)` (used by OutputReply) |
| WeatherRoute.OutputReply | app/api/weather/route.ts:108-142 | 200 only for a first item that is the weather call, with `localtime` set; a weather call otherwise gives the parse-failure 500; a text item gives 500 with its text; anything else the fallback |
| WeatherRoute.CatchReply | app/api/weather/route.ts:143-165 | 500 with the assistant error; details are `error.response.data` when present, else the error's string form |
| WeatherRoute.WeatherGet | app/api/weather/route.ts:55-167 | 400 with the query error iff `q` is missing or blank; otherwise the model's output dispatched, or the catch reply when the call failed; every non-200 carries a string error |
| WeatherRoute.WeatherGetSucceeds | app/api/weather/route.ts:108-114 | a 200 reply means the arguments parsed and the lookup succeeded, and every key but `localtime` is the lookup's |
| WeatherRoute.FirstItemDecides | app/api/weather/route.ts:108-109 | outputs with the same first item get the same reply |
| WeatherHandler.NotOkText | app/components/chat/handlers/weather-handler.ts:18-25 | `errorData.error` in string form when the body and its error are truthy, else TRY_AGAIN |
| WeatherHandler.DetectedRegion | app/components/chat/handlers/weather-handler.ts:35 | `location?.includes(',')`: undefined for nullish, whether a string contains ',', and a throw for other non-array values |
| WeatherHandler.ResolvedSuffix | app/components/chat/handlers/weather-handler.ts:36-39 | the suffix is non-empty iff resolvedName is truthy and no region was detected, and then names resolvedName |
| WeatherHandler.SuffixIffNoComma | app/components/chat/handlers/weather-handler.ts:35-39 | for a string location, the suffix appears iff resolvedName is truthy and the location has no ',' |
| WeatherHandler.HandleWeather | app/components/chat/handlers/weather-handler.ts:12-71 | a non-ok reply says the error text only; a body with a truthy error says it as an error; a fetch or parse throw says nothing; every non-error message starts with the received sentence; without a callback nothing else happens |
| WeatherHandler.WeatherShown | app/components/chat/handlers/weather-handler.ts:40-69 | a usable reply says the received sentence plus the suffix, and with a callback updates the widget with the reply's fields, conditions '' and unit 'C' |
| CodingRoute.ProvidedContainer | app/api/coding/route.ts:17-19 | truthy iff the form's containerId is a non-empty string, and then it is that string |
| CodingRoute.ExistingIds | app/api/coding/route.ts:28-34 | a missing field gives null; a File entry or unparsable text gives [] |
| CodingRoute.UploadedId | app/api/coding/route.ts:41-72 | an id is recorded iff the entry is a File whose upload replied ok with a truthy id, and then it is that id |
| CodingRoute.UploadIds | app/api/coding/route.ts:39-77 | at most one id per entry, each truthy |
| CodingRoute.UploadIdsAllSucceed | app/api/coding/route.ts:39-77 | when every entry is a File uploaded with a truthy id, all ids are recorded in order |
| CodingRoute.ExistingItems | app/api/coding/route.ts:80-89 | after uploads the existing ids are ignored; without uploads a nullish list throws and an array becomes one input_file per id |
| CodingRoute.ContentItems | app/api/coding/route.ts:81-95 | input_text first, then the existing items, then one input_file per upload id, in order |
| CodingRoute.ErrorReply | app/api/coding/route.ts:171-182 | 500 with status 'error', the message, the upload ids so far, and containerId (undefined when null) |
| CodingRoute.OkReply | app/api/coding/route.ts:165-170 | 200 with status 'ok', the upload ids, the model's output text and containerId |
| CodingRoute.ContainerStep | app/api/coding/route.ts:17-25 | a provided id is reused; otherwise the created container's id, or a failure when creation threw |
| CodingRoute.Post | app/api/coding/route.ts:4-184 | the whole request step by step: content-type, form, container, existing ids, uploads, content list, model call and citations, each failure giving the 500 reply with the progress so far (properties in PostStatuses, PostSucceeds, PostReportsProgress; HandlePost computes it) |
| CodingRoute.UploadAll | app/api/coding/route.ts:39-77 | the upload loop records exactly `UploadIds` of the entries |
| CodingRoute.HandlePost | app/api/coding/route.ts:4-184 | the handler's straight-line steps compute `Post`'s reply and citations |
| CodingRoute.PostStatuses | app/api/coding/route.ts:165-182 | the reply is 200 with status 'ok' or 500 with status 'error' and a string error, and an error logs no citations |
| CodingRoute.NotMultipartRejected | app/api/coding/route.ts:8-11 | a non-multipart content type gives the content-type error with no uploads and no container |
| CodingRoute.ContainerCreationFails | app/api/coding/route.ts:20-25 | a failed container creation gives 500 with its message, no uploads and a falsy containerId |
| CodingRoute.PostReportsProgress | app/api/coding/route.ts:171-182 | after the container step, the reply carries all upload ids and the containerId, success or not |
| CodingRoute.PostSucceeds | app/api/coding/route.ts:4-170 | a 200 reply means multipart, a container, a model reply to the specified content list, its output_text, and the citations of that reply |
| CodingRoute.FreshUploadsReplaceExisting | app/api/coding/route.ts:79-95 | when files were uploaded, the existing ids are not used |
| CodingRoute.AbsentExistingFails | app/api/coding/route.ts:28-34 | with no files and no existingFileIds field, the request fails with the TypeError before the model is called |
| CodingCitations.Ext | app/api/coding/route.ts:154 | a nullish filename gives 'txt'; a non-string one throws; otherwise the text after the last '.', or all of it without '.' |
| CodingCitations.ExtAfterLastDot | app/api/coding/route.ts:154 | for a name with '.', the extension is what follows the last '.' |
| CodingCitations.KeysOfSnoc | app/api/coding/route.ts:148-150 | recording one more citation adds its key |
| CodingCitations.Citations | app/api/coding/route.ts:127-162 | the citations of a response: the nested scan over output blocks, content items and annotations (CitationsDistinct; ExtractCitations computes it) |
| CodingCitations.ScanAnnotation | app/api/coding/route.ts:141-156 | only container_file_citation entries with a non-empty string file_id and a new key are recorded; a filename that is not a string throws; the seen-set invariant is kept |
| CodingCitations.ScanAnnotations | app/api/coding/route.ts:141-157 | the annotation loop as a fold of ScanAnnotation, stopping at a throw (AnnotationsConsistent, AnnotationsStay) |
| CodingCitations.AnnotationsConsistent | app/api/coding/route.ts:141-157 | the annotation loop keeps the seen set equal to the citation keys |
| CodingCitations.ItemConsistent | app/api/coding/route.ts:140-158 | one content item keeps the seen set consistent |
| CodingCitations.ItemsConsistent | app/api/coding/route.ts:140-158 | the content loop keeps the seen set consistent |
| CodingCitations.BlocksConsistent | app/api/coding/route.ts:136-159 | the block loop keeps the seen set consistent |
| CodingCitations.CitationsDistinct | app/api/coding/route.ts:136-162 | the citations have pairwise distinct `container::file` keys, non-empty file ids and dot-free extensions |
| CodingCitations.AnnotationsStay | app/api/coding/route.ts:135-162 | once an annotation throws, later annotations change nothing |
| CodingCitations.ItemsStay | app/api/coding/route.ts:135-162 | once an item throws, later items change nothing |
| CodingCitations.BlocksStay | app/api/coding/route.ts:135-162 | once a block throws, later blocks change nothing |
| CodingCitations.ScanAnnotationsLoop | app/api/coding/route.ts:141-157 | the annotation loop computes `ScanAnnotations` |
| CodingCitations.ExtractCitations | app/api/coding/route.ts:127-162 | the nested loops compute `Citations` of the response |
| CodingCleanup.Body | app/api/coding/cleanup/route.ts:7-18 | a non-JSON body that was read always gives a value; an empty one reads as {} |
| CodingCleanup.DeletedIds | app/api/coding/cleanup/route.ts:26-50 | no more deleted ids than requested |
| CodingCleanup.OkReply | app/api/coding/cleanup/route.ts:52 | 200 with status 'ok' and the deleted ids |
| CodingCleanup.ErrorReply | app/api/coding/cleanup/route.ts:53-58 | 500 with status 'error' and the message |
| CodingCleanup.Cleanup | app/api/coding/cleanup/route.ts:3-59 | the whole cleanup request: the body fallback, the empty-list shortcut and the ids whose delete succeeded (properties in CleanupReplies, DeletedIsSubsequence; HandleCleanup computes it) |
| CodingCleanup.HandleCleanup | app/api/coding/cleanup/route.ts:3-59 | the handler's loop computes `Cleanup`'s reply |
| CodingCleanup.DeletedIsSubsequence | app/api/coding/cleanup/route.ts:26-50 | the deleted ids are an ordered subsequence of the requested ones |
| CodingCleanup.DropLastKeepsSubsequence | app/api/coding/cleanup/route.ts:26-50 | a subsequence minus its last element is still a subsequence |
| CodingCleanup.ExtendKeepsSubsequence | app/api/coding/cleanup/route.ts:26-50 | a subsequence stays one when the sequence grows |
| CodingCleanup.AllDeleted | app/api/coding/cleanup/route.ts:26-50 | when every delete succeeds, every id is deleted |
| CodingCleanup.NoneDeleted | app/api/coding/cleanup/route.ts:26-50 | when every delete fails, none is reported |
| CodingCleanup.CleanupReplies | app/api/coding/cleanup/route.ts:20-58 | 200 with status 'ok' or 500 with status 'error'; a readable list of ids always gets 200 with deleted a subsequence of it |
| CodingCleanup.UnreadableBeaconDeletesNothing | app/api/coding/cleanup/route.ts:12-24 | an empty or unparsable text body gives 200 with nothing deleted |
| GenImage.KeepSlugChars | app/api/gen-image/route.ts:12 | only a-z, 0-9, '-', '_' and whitespace remain, and nothing is added |
| GenImage.Dashed | app/api/gen-image/route.ts:10-14 | the lowercased, filtered, trimmed prompt with whitespace runs made '-' is a slug |
| GenImage.Slugify | app/api/gen-image/route.ts:8-17 | never empty, at most 120 characters, only a-z, 0-9, '-' and '_' |
| GenImage.Cut | app/api/gen-image/route.ts:15 | `slice(0, 120)` of a slug is its prefix of length min(120, length), still a slug, and empty only for '' |
| GenImage.FallbackIsSlug | app/api/gen-image/route.ts:15 | the fallback 'image' is a slug |
| GenImage.DashedIsSlug | app/api/gen-image/route.ts:12-14 | trimming filtered text and dashing its whitespace runs leaves only slug characters |
| GenImage.TrimChars | app/api/gen-image/route.ts:13 | trimming adds no character |
| GenImage.KeepSlugCharsOfSlug | app/api/gen-image/route.ts:12 | filtering a slug keeps it whole |
| GenImage.CollapseNoSpace | app/api/gen-image/route.ts:14 | a slug has no whitespace run to replace |
| GenImage.SlugOfSlug | app/api/gen-image/route.ts:8-17 | a non-empty slug of at most 120 characters slugifies to itself |
| GenImage.SlugifyIdempotent | app/api/gen-image/route.ts:8-17 | slugifying twice is slugifying once |
| GenImage.BlankPromptFallsBack | app/api/gen-image/route.ts:15 | an all-whitespace prompt gives 'image' |
| GenImage.ToLowerSpaces | app/api/gen-image/route.ts:11 | lowercasing leaves whitespace alone |
| GenImage.KeepSpaces | app/api/gen-image/route.ts:12 | filtering keeps whitespace |
| GenImage.LongPromptCut | app/api/gen-image/route.ts:14 | a dashed prompt over 120 characters is cut to its first 120 |
| ResponseUtils.GetResponseError | app/utils/get-response-error.ts:3-12 | details when not nullish, else error when not nullish, else TRY_AGAIN; TRY_AGAIN when the body is not JSON; never nullish |
| ResponseUtils.PrimitiveBodyTriesAgain | app/utils/get-response-error.ts:6-8 | a JSON body that is not an object gives TRY_AGAIN |
| ResponseUtils.GetSearchParam | app/utils/get-search-param.ts:1-8 | absent iff `q` is missing or trims to ''; otherwise `q` untrimmed |
| ResponseUtils.SearchParamNotBlank | app/utils/get-search-param.ts:4-7 | a value is returned iff `q` has a non-whitespace character |
| TextToPdf.Resolve | app/utils/text2pdf.ts:18-21 | missing options take fontSize 10, courier, a4 and margin 40; given ones are kept |
| TextToPdf.LineHeight | app/utils/text2pdf.ts:33 | the least whole number at or above fontSize × 1.25 |
| TextToPdf.SplitLines | app/utils/text2pdf.ts:24 | split on '\n' with a '\r' right before it dropped: one line per '\n', none holding '\n' (round trips SplitLinesRoundTrip, SplitLinesJoined, SplitLinesCrlf) |
| TextToPdf.SplitLinesRoundTrip | app/utils/text2pdf.ts:24 | for text without '\r', joining the lines with '\n' gives the text back |
| TextToPdf.SplitLinesJoined | app/utils/text2pdf.ts:24 | lines joined with any mix of '\r\n' and '\n' come back from the split, when no line holds '\n' and none before a bare '\n' ends in '\r' |
| TextToPdf.SplitLinesCrlf | app/utils/text2pdf.ts:24 | lines free of '\r' and '\n' come back from their '\r\n'-joined text |
| TextToPdf.JoinAllCrlf | app/utils/text2pdf.ts:24 | joining with CRLF after every line equals joining with "\r\n" |
| TextToPdf.SplitJoinLines | app/utils/text2pdf.ts:24 | cutting mixed-separator text at '\n' leaves each CRLF line with its '\r' |
| TextToPdf.TerminatedAt | app/utils/text2pdf.ts:24 | each piece cut at '\n' is its line, plus the '\r' when a CRLF followed it |
| TextToPdf.PlaceLine | app/utils/text2pdf.ts:38-48 | one more line is placed, on the cursor's resulting page and one line height above its new y |
| TextToPdf.PlaceLineWellPlaced | app/utils/text2pdf.ts:39-47 | placing a line keeps the layout well formed: pages start at the margin, lines follow one line height apart, and a new page starts when the next line would pass pageHeight − margin |
| TextToPdf.PlaceLineNext | app/utils/text2pdf.ts:39-47 | the added line comes one line height lower on the same page or at the margin of the next page, and it fits above the bottom margin unless it opens its page |
| TextToPdf.PlaceAll | app/utils/text2pdf.ts:36-49 | the layout of the wrapped lines from the first page's margin, one PlaceLine per line (PlaceAllWellPlaced, PlaceAllTexts) |
| TextToPdf.PlaceAllWellPlaced | app/utils/text2pdf.ts:36-49 | placing all wrapped lines gives a well-formed layout |
| TextToPdf.PlaceAllTexts | app/utils/text2pdf.ts:36-49 | there is one placement per wrapped line, holding that line, in order |
| TextToPdf.LayoutWellFormed | app/utils/text2pdf.ts:14-52 | the layout of a text places every wrapped piece of every line, in order, well formed |
| TextToPdf.Layout | app/utils/text2pdf.ts:14-52 | the document `textFileToPdfBlob` writes: the resolved settings, the lines split on CRLF or LF, each wrapped and placed in turn (LayoutWellFormed; LayOut computes it) |
| TextToPdf.LayOut | app/utils/text2pdf.ts:14-52 | the nested loops compute `Layout`'s placements, and the page count is the last page + 1 |
| TextToPdf.PlaceWrapped | app/utils/text2pdf.ts:38-48 | the inner loop continues the layout by one line's wrapped pieces |
| TextToPdf.TailLength | app/utils/text2pdf.ts:62 | the final piece after the last '.' or '/' holds neither |
| TextToPdf.StripExtension | app/utils/text2pdf.ts:62 | `replace(/\.[^/.]+$/, '')`: a final '.' plus a non-empty tail free of '.' and '/' is removed (PdfNameReplacesExtension, PdfNameNoExtension) |
| TextToPdf.TailLengthOf | app/utils/text2pdf.ts:62 | the final piece of head + tail is tail when head ends at '.' or '/' and tail holds neither |
| TextToPdf.PdfName | app/utils/text2pdf.ts:62-63 | the output name always ends in '.pdf' |
| TextToPdf.PdfNameReplacesExtension | app/utils/text2pdf.ts:62 | a final '.ext' without '.' or '/' is replaced by '.pdf' |
| TextToPdf.PdfNameNoExtension | app/utils/text2pdf.ts:62 | a name without '.' gets '.pdf' appended |
| TextToPdf.PdfNameEmpty | app/utils/text2pdf.ts:62 | an empty name gives 'converted.pdf' |
| ConvertFiles.AsPdf | app/utils/text2pdf.ts:57-64 | the converted file has type application/pdf and the PDF name |
| ConvertFiles.Outcome | app/utils/convert-files.ts:21-35 | a file is either kept or replaced by its PDF; non-text files are always kept |
| ConvertFiles.ConvertAll | app/utils/convert-files.ts:20-36 | one output file per input file |
| ConvertFiles.ConvertAllPointwise | app/utils/convert-files.ts:20-36 | output k is the outcome of input k, so order is kept |
| ConvertFiles.Convert | app/utils/convert-files.ts:12-46 | the loop computes `ConvertAll` of the files, and the event is sent iff some text file converted |
| ConvertFiles.AnyConvertsStep | app/utils/convert-files.ts:20-36 | one more file sets the flag iff it was already set or this text file converted |
| ConvertFiles.ExtensionAnyCase | app/utils/convert-files.ts:8-22 | a listed extension makes a file text in any ASCII case |
| ConvertFiles.TextMimeIsText | app/utils/convert-files.ts:21-22 | a 'text/' mime type makes the file text |
| ConvertFiles.FoldAscii | app/utils/convert-files.ts:8 | the `i` flag's ASCII case folding keeps the length |
| ConvertFiles.FoldAppend | app/utils/convert-files.ts:8 | case folding works character by character |
| ConvertFiles.EndsWithAnyMember | app/utils/convert-files.ts:8 | a name ending in any listed extension matches the alternation |
| YearMonth.ParseYearMonth | public/examples/needs_tests.py:35-71 | raises 'Input must be a string' iff not a str, 'Empty string' iff blank after strip, 'Unsupported date separator' iff neither '.' nor '-'; never 'Missing month'; a returned month is in 1..12 |
| YearMonth.StripStart | public/examples/needs_tests.py:48 | `strip` drops exactly the leading Python whitespace |
| YearMonth.StripEnd | public/examples/needs_tests.py:48 | `strip` drops exactly the trailing Python whitespace |
| YearMonth.Strip | public/examples/needs_tests.py:48 | `str.strip()`: leading and trailing Python whitespace removed (StripStart, StripEnd, StripKeeps) |
| YearMonth.StripKeeps | public/examples/needs_tests.py:48 | a string that starts and ends with a non-space is its own strip |
| YearMonth.PyInt | public/examples/needs_tests.py:63-64 | `int()` succeeds only on text with a non-space character |
| YearMonth.ParseStripped | public/examples/needs_tests.py:48-71 | on stripped text: empty raises the empty error, no separator the separator error; never the type or missing-month errors; months in 1..12 |
| YearMonth.Pieces | public/examples/needs_tests.py:52-57 | a present separator gives at least 2 parts |
| YearMonth.ReadParts | public/examples/needs_tests.py:59-71 | fewer than two parts raise 'Missing month'; a result iff both first parts are integers and the month is in 1..12, and then it is those two integers |
| YearMonth.ParsedFromFirstTwo | public/examples/needs_tests.py:62-66 | a result is read from the first two parts of the split on '.' (or else '-'); later parts such as a day are ignored |
| YearMonth.NatDigitsRoundTrip | public/examples/needs_tests.py:63-64 | a number's decimal digits read back as the number |
| YearMonth.IntRoundTrip | public/examples/needs_tests.py:63 | `int(str(y)) == y` for every integer y |
| YearMonth.DotRoundTrip | public/examples/needs_tests.py:35-71 | 'year.month' parses back to (year, month) for every month in 1..12 |

## Left out

- Network I/O is not modelled. Every upstream result is an input value.
  This covers the OpenAI chat, responses and container calls, Google GenAI,
  file uploads and deletes, and geocoding and weather lookups.
- `JSON.parse` and `new URL(...).hostname` are function parameters. The
  round-trip lemmas require the parser to invert `JSON.stringify` on the
  payloads.
- TextDecoder is not modelled: bytes are taken as already-decoded strings.
- String lengths count Dafny characters, not JavaScript's UTF-16 code units.
  This matters only for the 120-character slug cut and the 50-character
  `imageSrc` rule on astral characters.
- `toLowerCase` maps ASCII and the two non-ASCII characters that lower-case
  to ASCII. Other non-ASCII case mappings are left out; they affect only
  whether two domains are equal.
- The regex `i` flag in `convertFiles` is modelled as ASCII case folding.
  A custom `textExtensions` regex is a predicate parameter.
- React state and refs are values or class fields. Rendering, styling and
  DOM code are left out.
- `useChat`'s ids come from the clock. They are a parameter.
- AbortController, promise races and async interleaving are concurrency. An
  abort is modelled only as a generation change plus the log of aborted
  controllers. Image replies are applied one at a time in any order.
- Thrown values become message strings or tagged failures.
- `console` logging is left out.
- `app/components/chat/handlers/coding-handler.ts` only wraps `FormData` and
  `fetch`, so it is left out. The `previousResponseId` behaviour that
  `tests/coding-previous-response.test.ts` expects is not in that handler
  and is not modelled.
- The non-mock news-search path falls through without answering, and is
  modelled as no response.
- In the gen-image route only `slugifyPrompt` is modelled. Its POST
  handler discards its error responses.
- The coding route's `input` entry and its `formData` parsing are inputs.
  A non-string `input` is not modelled.
- The coding route computes its citations only to log them. They are
  returned beside the reply.
- WeatherHandler.HandleWeather: `localHour` depends on the clock and Intl.
  It is a parameter.
- `csv2pdf.js` is left out (pdfkit text measurement, float widths).
- `safe_divide` of `needs_tests.py` is floating point and left out.
- TextToPdf.LayOut: jsPDF drawing is abstract and `splitTextToSize` is a
  parameter. The page height is a real parameter, and the text's baseline
  offset `y + fontSize` is not modelled.
- YearMonth.PyInt: Python's `int()` is modelled for ASCII digits, with an
  optional sign, surrounding whitespace and single '_' between digits.
  Unicode digits are left out. So is the 4300-digit limit that Python 3.11
  and later put on decimal strings: there `int()` raises ValueError and
  `parse_year_month` raises 'Year and month must be integers', where the
  model returns the number.
- CodingCleanup: `Symbol.iterator` on a non-array object is treated as not
  iterable, so such a `fileIds` throws.
- The TRY_AGAIN text is taken from `app/utils/error-messages.ts`.
