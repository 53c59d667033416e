# Project Genesis: a Dafny model of its request shaping and answer handling

Project Genesis is a React application that turns a product concept into
documentation, brainstorms product ideas, and chats with an assistant,
over one of four AI back ends (the Gemini client library, or the
OpenAI-compatible HTTP APIs of OpenAI, OpenRouter and a local Ollama).
This project models, in Dafny, the logic the screens and the two service
classes apply between the user and the back end:

- `Generator` (`components/Generator.tsx`): the blueprint request for a
  concept, the extraction of the four `[X_START]…[X_END]` sections from the
  answer, and the markdown export with its file name.
- `IdeaGenerator` (`components/IdeaGenerator.tsx`): the ideas request and
  the line filter applied to the answer.
- `Settings` (`components/Settings.tsx`): the keep-or-fallback choice of the
  active model after a model listing, and the edits that change one field.
- `Chat` (`components/ChatBot.tsx`): the chat as a class whose transcript
  only grows, one question and one answer at a time, and the "Sources"
  block built from grounding chunks.
- `AiService` (`services/aiService.ts`): provider endpoints, the shape of
  chat-completion requests and headers, the error chosen for a failed
  request, and the model listing with its shape sniffing and Ollama
  fallback, which never throws.
- `GeminiService` (`services/geminiService.ts`): model and thinking-budget
  choice, the search tool, the image configuration, the scan for the first
  inline image, and the stripping of a `data:` URI prefix.
- `JsString`, `JsValue`, `Types`: the JavaScript string operations the
  code relies on (`trim`, `split`/`join`, `indexOf`, `includes`, `replace`,
  `slice`, number rendering), parsed JSON values with JavaScript
  truthiness and property access, exceptions as values, and the shared
  record types of `types.ts`.

The network, the Gemini client and `Date.now` are inputs: each operation
receives the outcome of the call it makes (`Completion<T>`, a value or a
thrown exception) and returns the request it made, so that both the
request and the handling of every outcome are stated.

## Model

| member | source | states |
|---|---|---|
| JsValue.Truthy | services/aiService.ts:49 | JavaScript's ToBoolean: `null` is falsy, a string is truthy exactly when non-empty, arrays and objects always are |
| Types.IsSet | services/geminiService.ts:27 | `!!flag` on an optional flag holds exactly for a defined `true` |
| Types.IsNonEmpty | services/aiService.ts:34 | `!!s` on an optional string holds exactly for a defined non-empty string |
| JsValue.Get | services/aiService.ts:54 | `v.key` throws a TypeError exactly on `null`; an object holding the key yields that field, and every other non-null value yields `undefined` |
| JsValue.GetOpt | services/aiService.ts:49 | `v?.key` yields a value exactly when `v` is an object holding the key, and that value is the key's field |
| JsString.IsSpace | components/Generator.tsx:40 | the `\s` class and `trim`'s set: space, tab, line feed and carriage return are in it, and no other printable ASCII character is |
| JsString.Trim | components/Generator.tsx:40 | the trim is no longer than the input and has no space at either end |
| JsString.TrimFrame | components/Generator.tsx:40 | the input is its trim framed by a leading and a trailing run of spaces |
| JsString.TrimOfFramed | components/Generator.tsx:40 | any unpadded text framed by spaces trims to itself, so the characterisation of `trim` determines it |
| JsString.TrimEmptyIffAllSpace | components/ChatBot.tsx:26 | `s.trim()` is empty exactly when `s` is made of spaces only |
| JsString.TrimIdempotent | components/IdeaGenerator.tsx:25 | trimming twice is trimming once |
| JsString.IndexOf | components/Generator.tsx:39-40 | `indexOf(pat, from)` returns an occurrence at or after `from` with none between, or none when there is none |
| JsString.Includes | services/geminiService.ts:97 | `includes` holds only for a pattern no longer than the text |
| JsString.IncludesIffOccurs | services/geminiService.ts:33 | `includes` holds exactly when the pattern occurs somewhere |
| JsString.ReplaceFirst | services/aiService.ts:97 | `replace` with a string pattern replaces the first occurrence only, keeping both sides, and changes nothing when there is none |
| JsString.SliceTo | components/Generator.tsx:77 | `slice(0, n)` is the prefix of length `min(n, length)` |
| JsString.Split | components/IdeaGenerator.tsx:25 | `split` on one character gives at least one piece and no piece holds the separator |
| JsString.Join | components/ChatBot.tsx:49 | `join` of no pieces is "", of one piece is that piece, and otherwise starts with the first piece followed by the separator |
| JsString.JoinSplit | components/IdeaGenerator.tsx:25 | joining the pieces of a split gives back the text |
| JsString.SplitJoin | components/ChatBot.tsx:49 | splitting a join of separator-free pieces gives back the pieces |
| JsString.Decimal | services/aiService.ts:49 | `${status}` is a non-empty string of digits without a leading zero |
| JsString.DecimalRoundTrip | services/aiService.ts:49 | reading the rendered status back gives the status |
| JsString.DecimalInjective | services/aiService.ts:49 | two statuses with the same rendering are equal |
| GeminiService.OrDefault | services/geminiService.ts:21 | `o \|\| d` on an optional string: the string when it is non-empty, else the default |
| GeminiService.FirstCandidateParts | services/geminiService.ts:78-79 | `candidates?.[0]?.content?.parts`: the first candidate's parts when it has some, else no parts |
| GeminiService.FirstInlineIndex | services/geminiService.ts:78-85 | the index found carries inline data and none before it does; none found means no part does |
| GeminiService.ImageUrlOf | services/geminiService.ts:77-86 | the loop returns the `data:image/png;base64,` URL of the first inline part of the first candidate, or "" |
| GeminiService.LaterPartsIgnored | services/geminiService.ts:79-83 | parts after the first inline one never change the result (the `break`) |
| GeminiService.GenerateText | services/geminiService.ts:13-47 | model is the one asked for, else pro with thinking and flash without; search tool exactly when asked; thinking budget exactly when asked, 32768 for a name containing "pro" and 24576 otherwise; client failures propagate; text defaults to "" and chunks to [] |
| GeminiService.ListedModelBudgets | services/geminiService.ts:33 | of the listed models only `gemini-3-pro-preview` gets the pro budget |
| GeminiService.NoPro | services/geminiService.ts:33 | a model name without an `o` never gets the pro budget |
| GeminiService.GenerateImage | services/geminiService.ts:49-87 | flash image model and aspect ratio `1:1` by default; an image size (default `1K`) exactly for the pro image model; the answer is read as the first inline image |
| GeminiService.Before | services/geminiService.ts:97 | the text before the first separator is a separator-free prefix, followed by the separator when shorter than the input |
| GeminiService.After | services/geminiService.ts:97 | the input is the text before the first separator, the separator, and the text after it |
| GeminiService.SplitHead | services/geminiService.ts:97 | the first piece of a split is the text before the first separator, the rest is the split of what follows |
| GeminiService.StripDataUriPrefix | services/geminiService.ts:97 | a comma-free string is kept; otherwise the text between the first and second comma, which is comma-free and shorter |
| GeminiService.DataUriRoundTrip | services/geminiService.ts:97 | stripping `data:<metadata>,<payload>` gives back the payload |
| GeminiService.ImageRequestParts | services/geminiService.ts:94-102 | two parts: the image data stripped of its `data:` prefix with the MIME type (default `image/png`), then the prompt as text |
| GeminiService.EditImage | services/geminiService.ts:89-116 | the stripped image part (mime type defaulting to `image/png`) then the prompt, sent to the flash image model without config; answer read as the first inline image |
| GeminiService.AnalyzeImage | services/geminiService.ts:118-136 | the same two parts sent to the pro text model; the answer's text returned as is, failures propagate |
| AiService.BaseUrl | services/aiService.ts:63-70 | the endpoint is empty exactly for Gemini |
| AiService.BaseUrlInjective | services/aiService.ts:64-69 | different providers have different endpoints |
| AiService.HttpError | services/aiService.ts:47-50 | a failed request throws the server's `error.message` when truthy, else `HTTP Error <status>` |
| AiService.HttpErrorFallbackNamesStatus | services/aiService.ts:49 | two fallback errors are equal only for equal statuses |
| AiService.First | services/aiService.ts:54 | `x[0]` throws a TypeError exactly on `null`, gives the first item of a non-empty array, the first character of a non-empty string or the `"0"` field of an object, and `undefined` otherwise |
| AiService.ChoiceContent | services/aiService.ts:52-56 | a text is returned exactly when `choices[0].message.content` is a string, and it is that string; every other answer throws a TypeError |
| AiService.GenerateText | services/aiService.ts:6-61 | Gemini goes to the client with the selected model and the options; otherwise a POST to `<base>/chat/completions` with a JSON content type, a bearer token exactly when a key is set, the system message before the user's; transport, parse, status and shape failures each throw as stated; success yields the content and no grounding; on Gemini the text and the first candidate's grounding chunks pass through unchanged |
| AiService.MapField | services/aiService.ts:110-117 | mapping entries to a field throws a TypeError exactly when an entry is `null`, else yields one name per entry in order |
| AiService.ListedIds | services/aiService.ts:107-119 | `data` array ids first, else `models` array names, else nothing |
| AiService.FieldText | services/aiService.ts:111 | a string `id` or `name` field gives its text, any other entry gives "" |
| AiService.TagNames | services/aiService.ts:99-102 | a `models` array gives its entries' names (a TypeError on a `null` entry); a missing or `null` `models` gives []; a `null` answer or a `models` that is not an array throws a TypeError |
| AiService.OrEmpty | services/aiService.ts:120-123 | any exception becomes the empty list |
| AiService.TagsUrl | services/aiService.ts:97 | the native URL ends in `/api/tags`; a base without `/v1` is kept whole, one with it loses three characters |
| AiService.TagsUrlOfVersioned | services/aiService.ts:97 | a base URL ending in its only `/v1` loses exactly that suffix |
| AiService.OllamaTagsUrl | services/aiService.ts:97 | the Ollama fallback URL is `http://localhost:11434/api/tags` |
| AiService.ListingHeaders | services/aiService.ts:82-85 | a bearer token exactly when a key is set, and no other header |
| AiService.FetchAvailableModels | services/aiService.ts:72-124 | the fixed list for Gemini with no request; otherwise a GET of `<base>/models`, and a second GET of the tags URL exactly for Ollama after a non-OK status; every failure yields [] |
| AiService.ListsDataIds | services/aiService.ts:110-112 | an OpenAI-style listing yields exactly its ids, in order |
| Generator.Extract | components/Generator.tsx:38-41 | a section is the placeholder or a non-empty trimmed text |
| Generator.Span | components/Generator.tsx:39-40 | the lazy group lies inside the text |
| Generator.Section | components/Generator.tsx:40 | `?.trim() \|\| NotFound`: a group made only of spaces gives the placeholder, any other gives its non-empty trim |
| Generator.SpanBetween | components/Generator.tsx:39-40 | the group runs from the end of the first start marker to the first end marker after it |
| Generator.ExtractUnterminated | components/Generator.tsx:39-40 | a start marker not followed by an end marker gives no match and the placeholder |
| Generator.ExtractMissingMarker | components/Generator.tsx:40 | without a start marker, or without any end marker, the section is the placeholder |
| Generator.ExtractAvoidsEnd | components/Generator.tsx:39-40 | an extracted section never holds its own end marker |
| Generator.ExtractOfBlock | components/Generator.tsx:39-40 | a block of unbordered markers around an end-free body, after start-free text, extracts to the section of the body |
| Generator.ExtractFramed | components/Generator.tsx:44-47 | a section's own block decides it, whatever start-free text precedes it and whatever follows |
| Generator.BlueprintExample | components/Generator.tsx:44 | `[PRD_START]Problem: X[PRD_END]` gives the PRD `Problem: X` |
| Generator.GapBlockAbsent | components/Generator.tsx:44-47 | blocks of other sections, with `[`-free text around them, hold no marker of this section |
| Generator.SectionRecovered | components/Generator.tsx:38-41 | a recoverable section comes back unchanged from its block |
| Generator.PrdRecovered | components/Generator.tsx:44 | the PRD of a labelled answer comes back |
| Generator.SpecsRecovered | components/Generator.tsx:45 | the specs of a labelled answer come back, past the PRD block |
| Generator.DesignRecovered | components/Generator.tsx:46 | the design of a labelled answer comes back, past two blocks |
| Generator.PlansRecovered | components/Generator.tsx:47 | the plans of a labelled answer come back, past three blocks |
| Generator.ExtractDocs | components/Generator.tsx:43-48 | each of the four sections is the placeholder or a non-empty text with no space at either end, and never holds its own end marker |
| Generator.ExtractDocsRoundTrip | components/Generator.tsx:43-48 | extraction recovers all four sections of an answer labelled as the prompt asks |
| Generator.SectionOfRecoverable | components/Generator.tsx:40 | a non-empty unpadded text is its own section |
| Generator.BlueprintPrompt | components/Generator.tsx:22-29 | the prompt is the fixed head, the concept in quotes, and the instructions naming the four labelled sections |
| Generator.BlueprintRequest | components/Generator.tsx:18-35 | no request for an empty concept; otherwise the config as given, thinking exactly on Gemini, the architect instruction, no search flag, and the concept quoted in the prompt |
| Generator.DocsAfter | components/Generator.tsx:36-50 | the extracted sections on success; the docs unchanged on failure or without a request |
| Generator.Underscored | components/Generator.tsx:77 | `replace(/\s/g, '_')` maps each whitespace character to `_` and keeps the rest |
| Generator.ExportFileName | components/Generator.tsx:77 | `Project_Genesis_` + the first ten characters with whitespace as `_` + `.md`, at most 29 characters, none of them whitespace |
| Generator.ConcatOccurs | components/Generator.tsx:58-72 | each piece of the template lies right after the pieces before it |
| Generator.ConcatPrefixLength | components/Generator.tsx:58-72 | the pieces' offsets add up |
| Generator.ExportPieces | components/Generator.tsx:58-72 | eleven pieces with the concept and the four sections in template order |
| Generator.ExportContent | components/Generator.tsx:58-72 | the document is the template literal with the concept and the four sections under their headings |
| Generator.HandleExport | components/Generator.tsx:56-79 | no file without docs; otherwise the named markdown document |
| Generator.ExportSectionsInOrder | components/Generator.tsx:58-72 | the export holds the concept and the four sections after their headings, in order, at known offsets |
| IdeaGenerator.IdeasPrompt | components/IdeaGenerator.tsx:21 | the prompt is the fixed head, the topic in quotes, and the request for names and value propositions |
| IdeaGenerator.IdeasRequest | components/IdeaGenerator.tsx:17-24 | no request for an empty topic; otherwise the config as given, the strategist instruction and no other option, and the topic quoted in the prompt |
| IdeaGenerator.Keep | components/IdeaGenerator.tsx:25 | a kept line is longer than five characters |
| IdeaGenerator.Filter | components/IdeaGenerator.tsx:25 | the kept lines all pass the length test and are no more than the input |
| IdeaGenerator.FilterCounts | components/IdeaGenerator.tsx:25 | every passing line is kept as often as it occurs and no other line is |
| IdeaGenerator.FilterKeepsOrder | components/IdeaGenerator.tsx:25 | the kept lines are a subsequence of the input |
| IdeaGenerator.FilterKeepsAll | components/IdeaGenerator.tsx:25 | lines that all pass are kept as they are |
| IdeaGenerator.IdeaLines | components/IdeaGenerator.tsx:25 | every idea passes the length test, and there are no more ideas than lines |
| IdeaGenerator.IdeaLinesUnbroken | components/IdeaGenerator.tsx:25 | no idea holds a line break |
| IdeaGenerator.IdeaLinesIdempotent | components/IdeaGenerator.tsx:25 | the ideas joined by line breaks filter to the same ideas |
| IdeaGenerator.IdeaLinesOfLines | components/IdeaGenerator.tsx:25 | an answer made of break-free lines yields exactly its passing lines |
| IdeaGenerator.KeepByLength | components/IdeaGenerator.tsx:25 | a line of at most five characters is dropped; a longer one with no space at either end is kept |
| IdeaGenerator.IdeasAfter | components/IdeaGenerator.tsx:16-32 | the kept lines on success; the ideas unchanged on failure or without a request |
| Settings.ChosenModel | components/Settings.tsx:25 | the current model if offered, else the first offered; always one of the offered |
| Settings.AfterFetch | components/Settings.tsx:16-29 | a non-empty list replaces the models, keeps or falls back the selection, keeps provider, key and image model, clears the error; an empty list leaves the config and reports "No models found or connection failed." |
| Settings.FetchMakesConsistent | components/Settings.tsx:21-26 | after a non-empty fetch the selected model is one of the models |
| Settings.FetchIdempotent | components/Settings.tsx:21-26 | fetching the same list twice is fetching it once |
| Settings.FetchKeepsOfferedSelection | components/Settings.tsx:25 | a fetch offering the selected model changes only the list |
| Settings.SelectProvider | components/Settings.tsx:52 | only `provider` changes |
| Settings.SetApiKey | components/Settings.tsx:76 | only `apiKey` changes |
| Settings.SelectModel | components/Settings.tsx:91 | only `selectedModel` changes |
| Settings.ImageModelId | components/Settings.tsx:124-131 | the two buttons name `gemini-2.5-flash-image` and `gemini-3-pro-image-preview` |
| Settings.SetImageModel | components/Settings.tsx:124-131 | only `imageModel` changes, to one of the two ids |
| Settings.EditsKeepConsistent | components/Settings.tsx:52-94 | provider, key and image edits, and choosing among the offered models, keep the selection among the models |
| Chat.LinkOf | components/ChatBot.tsx:44 | `chunk.web?.uri` is present exactly when the chunk has a web source with an address, and is that address |
| Chat.SourceLinks | components/ChatBot.tsx:43-45 | the non-empty `web.uri`s, no more than the chunks |
| Chat.SourceLinksInChunkOrder | components/ChatBot.tsx:43-45 | the links follow the chunks' order: those of `a + b` are those of `a` then those of `b`, and one chunk gives its non-empty address or nothing |
| Chat.SourceLinksMembership | components/ChatBot.tsx:43-45 | an address is listed exactly when it is non-empty and some chunk carries it |
| Chat.Dedup | components/ChatBot.tsx:48 | `Array.from(new Set(links))` has no duplicates and the same elements |
| Chat.FirstIndex | components/ChatBot.tsx:48 | the first position of an element |
| Chat.FirstIndexOfPrefix | components/ChatBot.tsx:48 | extending a list does not move first occurrences |
| Chat.DedupFirstSeenOrder | components/ChatBot.tsx:48 | the distinct links come in the order of their first occurrences |
| Chat.LinkLine | components/ChatBot.tsx:49 | `- [u](u)` holds the address as text and as target |
| Chat.LinkLines | components/ChatBot.tsx:49 | one link line per address, in order |
| Chat.SourcesBlock | components/ChatBot.tsx:49 | the block starts with the `**Sources:**` heading; no links give the bare heading, one link gives the heading and its line |
| Chat.SourcesBlockLines | components/ChatBot.tsx:49 | the block is the heading then lines that split back into the link lines |
| Chat.ReplyContent | components/ChatBot.tsx:40-51 | the content starts with the answer's text and adds the sources block of the distinct links exactly when sources are cited |
| Chat.CitesSources | components/ChatBot.tsx:42-47 | sources are cited only with search on and at least one distinct link |
| Chat.CitesSourcesIff | components/ChatBot.tsx:42-47 | sources are cited exactly when search was on and some chunk has a non-empty address |
| Chat.AssistantContent | components/ChatBot.tsx:53-61 | the fixed apology after a failure, otherwise content starting with the answer's text |
| Chat.ChatOptions | components/ChatBot.tsx:34-38 | the assistant instruction; search and thinking as toggled on Gemini, both false on any other provider |
| Chat.AlternatingSnoc | components/ChatBot.tsx:29 | appending the message whose turn it is keeps questions and answers alternating |
| Chat.ChatBot.constructor | components/ChatBot.tsx:12-16 | no messages, empty input, not loading, search on for Gemini only, thinking off |
| Chat.ChatBot.SetInput | components/ChatBot.tsx:123 | only the input changes |
| Chat.ChatBot.ToggleSearch | components/ChatBot.tsx:103 | only the search flag flips |
| Chat.ChatBot.ToggleThinking | components/ChatBot.tsx:110 | only the thinking flag flips |
| Chat.ChatBot.BeginSend | components/ChatBot.tsx:25-38 | nothing happens for a blank input or while loading; otherwise the raw input is appended as a question, the input cleared, loading set, and the call made with the gated options |
| Chat.ChatBot.FinishSend | components/ChatBot.tsx:53-64 | exactly one answer (or the apology) is appended and loading cleared; alternation is kept |
| Chat.ChatBot.HandleSend | components/ChatBot.tsx:25-65 | an accepted send appends exactly a question and its answer; a refused one changes nothing |

## Left out

- Strings are sequences of Unicode scalar values; JavaScript counts UTF-16 code units, so `slice(0, 10)` and `length` differ for characters outside the Basic Multilingual Plane.
- Parsed JSON numbers are integers; fractional numbers and `NaN` are not modelled. The only number the modelled code could meet in a body is an `error.message` tested for truthiness (services/aiService.ts:49), where a non-zero integer stands for any truthy number and 0 for the falsy ones.
- AiService.FieldText: a listed entry whose `id` or `name` is missing or not a string yields "" in the model; the source puts `undefined` or the raw value into the list.
- AiService.GenerateText: the request's fixed `temperature: 0.7` is not modelled.
- AiService.ChoiceContent: a `content` that is missing or not a string (or read through a `message` that is a non-null non-object) is a TypeError in the model; the source returns the raw value, possibly `undefined`, as the text. So for a `null` or missing `content` the chat (components/ChatBot.tsx:40-58) appends an assistant message holding that value, while the model appends the apology.
- The `console.error` logging and the exact text of engine-made errors are not modelled; exceptions are kept as values.
- The Gemini client construction and its API key from the environment are not modelled; the client is an input.
- The Blob, object URL and anchor click of the export are not modelled; `HandleExport` returns the file name and content.
- `Date.now` is a parameter of the chat operations.
- React state updates and async interleaving: each handler is modelled as one step given the outcome of its call. The chat splits `handleSend` into `BeginSend` and `FinishSend` so that the loading guard is visible. The `loading` and `fetching` flags of the generator, idea and settings screens only drive the UI and are left out.
- The `catch` of `handleFetchModels` (components/Settings.tsx:30-31) cannot run, because the listing catches every failure itself (`FetchAvailableModels` never throws), so it is not modelled.
- The prompt texts are kept in full only where their properties are stated (quoting the concept or topic); their wording is not otherwise reasoned about.
- The `constants` module (`PROVIDERS`, `GEMINI_MODELS`, icons) is not part of this model; the Gemini list returned by the listing is modelled from `services/aiService.ts:74-78`.
- The image studio and landing screens and the application shell are not part of this model.
