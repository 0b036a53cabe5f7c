# Pose How AI: a Dafny model of its server routes and client state

Pose How AI is a Next.js web app. A user photographs someone, and the app returns
photography advice and a reference pose. This project models the app's logic:

- **`POST /api/analyze`** (`analyze_route.dfy`). The handler:
  - reads `image` from the JSON body;
  - strips a leading `data:image/<subtype>;base64,` header with an anchored regex;
  - hands the payload to base64 decoding and `sharp` compression;
  - sends the result to the Gemini vision model with a fixed Vietnamese instruction;
  - removes the Markdown code fences ```` ```json ```` and ```` ``` ```` from the reply, trims it and parses it as JSON;
  - answers `{success: true, advice}`. Failures become 400 (no image), 504 (`AbortError`) or 500 (anything else).
- **`POST /api/generate-pose`** (`generate_pose_route.dfy`). The handler:
  - continues the active chat session and asks it for an English mannequin prompt;
  - takes `rawText` from the reply's `text()`, or from a fallback chain over `candidates[0].content.parts` when that text is empty;
  - answers with a Pollinations rendering URL that carries `encodeURIComponent(rawText)` as its path segment.
  - With no active session it answers 400. Every thrown error becomes 500 `{success: false, error: message}`.
- **`lib/gemini-session.ts`** (`gemini_session.dfy`): the single mutable slot that holds the active chat session. It is a class with one nullable field.
- **`lib/LanguageContext.tsx`** (`language_context.dfy`):
  - the English and Vietnamese string tables, copied entry for entry;
  - the lookup `t`, which falls back to the key;
  - the provider's initial language;
  - the `useLanguage` guard.
- **`lib/store.ts`** (`pose_store.dfy`): the zustand store with two fields and two setters. It is a class whose setters are proved against zustand's shallow merge.

The support modules are:

- `wrappers.dfy`: `Option` and `Result`.
- `js_runtime.dfy`: JSON values, JavaScript errors and responses. It also holds the JavaScript semantics the handlers rely on: object destructuring, truthiness and `String.prototype.trim`, with the ECMAScript whitespace and line-terminator sets.
- `genai.dfy`: the shapes of the Gemini SDK values the handlers read.
- `uri_component.dfy`: `encodeURIComponent`, and `decodeURIComponent` as its proved inverse.

Calls into code outside the model are parameters of the handlers:

- `req.json()` is a `Result` value.
- Node's base64 codec, `sharp`, `generateContent`, `sendMessage` and `JSON.parse` are function-typed parameters.

The handlers are methods with early returns and a labelled block for `try`/`catch`. Each is proved to produce `Respond` of a specification function (`Analyze`, `GeneratePose`), and the lemmas are about those functions.

The analyze handler returns only `advice`, with no `imageUrl`, and never registers a chat session. Both prompts are fixed strings that mention nothing from the request, and the generate-pose handler never reads `pose_summary`.

## Model

| member | source | states |
|---|---|---|
| JsRuntime.Member | app/api/analyze/route.ts:11 | an object has a value for `key` exactly when some member has that name, and the value returned belongs to a member with that name |
| JsRuntime.Destructure | app/api/analyze/route.ts:11 | `const { key } = value` throws exactly when the value is `null`; only an object can yield a present value |
| JsRuntime.Truthy | app/api/analyze/route.ts:13 | a value is truthy exactly when it is present and is not `null`, `false`, `0` or `""`, the JSON values ECMAScript's ToBoolean maps to false |
| JsRuntime.TrimStart | app/api/analyze/route.ts:68 | the result is a suffix of the input; everything removed is ECMAScript whitespace; the result does not start with whitespace |
| JsRuntime.TrimEnd | app/api/analyze/route.ts:68 | the result is a prefix of the input; everything removed is whitespace; the result does not end with whitespace |
| JsRuntime.Trim | app/api/generate-pose/route.ts:47 | `trim()` never lengthens its input, and the result neither starts nor ends with whitespace |
| JsRuntime.TrimIsInfix | app/api/analyze/route.ts:68 | `trim()` keeps one contiguous piece of the input, and only whitespace lies before and after it |
| JsRuntime.TrimAllWhitespace | app/api/generate-pose/route.ts:47 | a string made only of whitespace trims to "" |
| JsRuntime.TrimUnchanged | app/api/analyze/route.ts:68 | a string with non-whitespace at both ends is left as it is |
| JsRuntime.TrimIdempotent | app/api/analyze/route.ts:68 | trimming twice equals trimming once |
| AnalyzeRoute.WordRun | app/api/analyze/route.ts:21 | the greedy `\w+` consumes a maximal run of word characters |
| AnalyzeRoute.HeaderLength | app/api/analyze/route.ts:21 | the anchored regex matches either nothing or a prefix that is a complete `data:image/\w+;base64,` header |
| AnalyzeRoute.StripDataUrlHeader | app/api/analyze/route.ts:21 | the payload is always a suffix of the uploaded string |
| AnalyzeRoute.HeaderUnique | app/api/analyze/route.ts:21 | no header is a proper prefix of another, so a string begins with at most one header |
| AnalyzeRoute.StripHeader | app/api/analyze/route.ts:21 | for every header `h`, the input `h + rest` becomes exactly `rest` |
| AnalyzeRoute.StripWithoutHeader | app/api/analyze/route.ts:21 | a string with no header prefix is returned unchanged |
| AnalyzeRoute.StripOnlyLeadingHeader | app/api/analyze/route.ts:21 | the replace is anchored and not global: a second header after the first is kept |
| AnalyzeRoute.SvgHeaderKept | app/api/analyze/route.ts:21 | `data:image/svg+xml;base64,` is not stripped, because `+` is not a word character |
| AnalyzeRoute.StripFences | app/api/analyze/route.ts:68 | the global replace of ```` ```json ```` (tried first) and ```` ``` ```` never lengthens the text |
| AnalyzeRoute.StripFencesHead | app/api/analyze/route.ts:68 | a text that does not begin with two backticks does not become one that does |
| AnalyzeRoute.StripFencesLeavesNoFence | app/api/analyze/route.ts:68 | no ```` ``` ```` survives the replace, not even one formed across a deletion |
| AnalyzeRoute.StripFencesFixpoint | app/api/analyze/route.ts:68 | a text with no fence passes through the replace unchanged |
| AnalyzeRoute.NoFenceInSlice | app/api/analyze/route.ts:68 | a slice of a fence-free text is fence-free |
| AnalyzeRoute.TrimKeepsNoFence | app/api/analyze/route.ts:68 | trimming a fence-free text cannot create a fence |
| AnalyzeRoute.StripFencesPlainPrefix | app/api/analyze/route.ts:68 | text without backticks passes through the replace, whatever follows it |
| AnalyzeRoute.StripLeadingFence | app/api/analyze/route.ts:68 | a leading ```` ``` ```` not followed by `json` is dropped |
| AnalyzeRoute.StripLeadingJsonFence | app/api/analyze/route.ts:68 | a leading ```` ```json ```` is dropped as a whole |
| AnalyzeRoute.StripFencesKeepsAroundFence | app/api/analyze/route.ts:68 | a ```` ``` ```` not followed by `json` is deleted, and the backtick-free text before it and the text after it are kept |
| AnalyzeRoute.StripFencesKeepsAroundJsonFence | app/api/analyze/route.ts:68 | a ```` ```json ```` is deleted, and the backtick-free text before it and the text after it are kept |
| AnalyzeRoute.StripFencesJsonBlock | app/api/analyze/route.ts:67-68 | a fenced JSON block whose body has no backtick comes out as exactly its body |
| AnalyzeRoute.StripFencesExample | app/api/analyze/route.ts:67-68 | ```` ```json\n{"a":1}\n``` ```` loses both fences |
| AnalyzeRoute.TrimExample | app/api/analyze/route.ts:68 | trimming removes the line breaks around `{"a":1}` |
| AnalyzeRoute.SanitizeFencedJson | app/api/analyze/route.ts:67-68 | the fenced reply ```` ```json\n{"a":1}\n``` ```` sanitises to `{"a":1}` |
| AnalyzeRoute.SanitizeReply | app/api/analyze/route.ts:68 | the string handed to `JSON.parse` is never longer than the reply and has no whitespace at either end |
| AnalyzeRoute.SanitizeLeavesNoFence | app/api/analyze/route.ts:68 | the string handed to `JSON.parse` contains no ```` ``` ```` |
| AnalyzeRoute.SanitizeIdempotent | app/api/analyze/route.ts:68 | sanitising twice equals sanitising once |
| AnalyzeRoute.Process | app/api/analyze/route.ts:21-71 | once the `image` check has passed, the outcome is advice or a thrown error, never the 400 answer |
| AnalyzeRoute.Post | app/api/analyze/route.ts:5-85 | the response is `Respond(Analyze(body))`; on the 400 path nothing is decoded, compressed or sent to the model and the timer is not cleared; on every other path the timer is cleared; the model is called only after the image was processed |
| AnalyzeRoute.RespondStatus | app/api/analyze/route.ts:13-84 | 400 exactly for a missing image; 504 exactly for an `AbortError`; 500 exactly for every other error; 200 exactly on success, with the body `{success: true, advice}` and nothing else; every error body starts with `success: false` |
| AnalyzeRoute.MissingImageExactly | app/api/analyze/route.ts:11-18 | the answer is 400 exactly when the body parsed to a non-null value whose `image` is absent or falsy |
| AnalyzeRoute.ImageRequestProcessed | app/api/analyze/route.ts:11-21 | a body carrying a non-empty image string goes on to processing |
| AnalyzeRoute.HeaderMakesNoDifference | app/api/analyze/route.ts:21-22 | a request with `header + payload` has the same outcome as one with the bare payload |
| AnalyzeRoute.ReplyIsSanitisedThenParsed | app/api/analyze/route.ts:62-71 | once decoding, compression and the model call succeed, the outcome is the parse of the sanitised reply: its value becomes the advice, and its error is thrown |
| UriComponent.Utf8 | app/api/generate-pose/route.ts:50-52 | a code point encodes as 1 to 4 bytes |
| UriComponent.PercentByte | app/api/generate-pose/route.ts:50-52 | `%XY` with hex digits whose value is the byte |
| UriComponent.EncodeUriComponent | app/api/generate-pose/route.ts:50-52 | the output is at least as long as the input, and every character is unreserved or `%` |
| UriComponent.DecodeEncode | app/api/generate-pose/route.ts:50-52 | `decodeURIComponent(encodeURIComponent(s)) == s` for every string |
| UriComponent.EncodeUnreservedUnchanged | app/api/generate-pose/route.ts:50-52 | text of unreserved characters is copied unchanged |
| GeneratePoseRoute.JoinPartsAppend | app/api/generate-pose/route.ts:43-45 | `map(...).join("")` distributes over concatenation of the parts: each part contributes its text, in order |
| GeneratePoseRoute.DropNonLineTerminators | app/api/generate-pose/route.ts:46 | `.replace(/./g, "")` keeps exactly the line terminators: only they remain, and each one present survives |
| GeneratePoseRoute.DropNonLineTerminatorsAppend | app/api/generate-pose/route.ts:46 | the replace distributes over concatenation, so the surviving line terminators keep their order |
| GeneratePoseRoute.FallbackText | app/api/generate-pose/route.ts:40-47 | the fallback throws a TypeError exactly when `candidates` is missing or empty, or the first candidate lacks `content` or `parts` |
| GeneratePoseRoute.FallbackAlwaysEmpty | app/api/generate-pose/route.ts:39-48 | whenever the fallback does not throw, it yields "" |
| GeneratePoseRoute.RawText | app/api/generate-pose/route.ts:37-48 | an error from `text()` propagates; a successful `rawText` is either the reply's own text or empty; a failure after a successful `text()` is the fallback's TypeError |
| GeneratePoseRoute.RenderUrl | app/api/generate-pose/route.ts:50-52 | the URL starts with the fixed Pollinations prefix and ends with the fixed query |
| GeneratePoseRoute.ParseRenderUrlInverse | app/api/generate-pose/route.ts:50-52 | the URL gives back exactly `rawText`: the prompt is carried losslessly |
| GeneratePoseRoute.RenderSegmentSafe | app/api/generate-pose/route.ts:50-52 | the encoded segment holds no `/`, `?`, `&`, `#` or space, whatever the model answers |
| GeneratePoseRoute.Post | app/api/generate-pose/route.ts:4-67 | the response is `Respond(GeneratePose(body, slot))`; on the 400 path no message is sent and the timer is not cleared; on every other path it is cleared |
| GeneratePoseRoute.PrimaryTextUsedVerbatim | app/api/generate-pose/route.ts:36-52 | a non-empty `text()` is used verbatim, and the URL carries exactly that text |
| GeneratePoseRoute.EmptyReplyRendersEmptyPrompt | app/api/generate-pose/route.ts:39-52 | an empty `text()` with a fallback that does not throw yields the URL with an empty prompt segment |
| GeneratePoseRoute.PoseSummaryIgnored | app/api/generate-pose/route.ts:14-34 | any two non-null bodies give the same outcome, because `pose_summary` is never used |
| GeneratePoseRoute.RespondStatus | app/api/generate-pose/route.ts:17-66 | 400 exactly for no context; 200 exactly for a rendered URL; 500 exactly for a thrown error, with the body `{success: false, error: message}` |
| GeneratePoseRoute.NoContextExactly | app/api/generate-pose/route.ts:11-21 | the answer is 400 exactly when the body is non-null and no session is active |
| GeneratePoseRoute.FallbackFailureIs500 | app/api/generate-pose/route.ts:40-65 | missing or empty `candidates` on the fallback path gives a 500 carrying the TypeError's message |
| GeneratePoseRoute.FreshProcessRejects | app/api/generate-pose/route.ts:17-21 | with nothing ever registered, every non-null body is answered 400 and nothing is sent |
| GeneratePoseRoute.AsWrittenAlwaysFails | app/api/generate-pose/route.ts:2-17 | with `getActiveSession` imported from a module that does not export it, every request is answered 500, a well-formed body with the lookup's TypeError, so no request that the registry-reading handler would render is rendered |
| GeminiSession.SessionRegistry.constructor | lib/gemini-session.ts:3 | the slot starts out null |
| GeminiSession.SessionRegistry.SetActiveSession | lib/gemini-session.ts:5-7 | the slot holds the given session afterwards |
| GeminiSession.SessionRegistry.GetActiveSession | lib/gemini-session.ts:9-11 | returns the slot and changes nothing |
| GeminiSession.ReadBeforeAnySet | lib/gemini-session.ts:3-11 | before any set, a get returns null |
| GeminiSession.ReadAfterSet | lib/gemini-session.ts:5-11 | after `setActiveSession(s)`, a get returns `s` |
| GeminiSession.LastWriterWins | lib/gemini-session.ts:5-7 | after setting `a` and then `b`, a get returns `b` |
| GeminiSession.ReadTwice | lib/gemini-session.ts:9-11 | two reads in a row agree with each other and with the slot |
| LanguageContext.T | lib/LanguageContext.tsx:135-137 | the result is either the key itself or one of the current table's entries, and it is empty only for the empty key |
| LanguageContext.SameKeys | lib/LanguageContext.tsx:14-121 | the `en` and `vi` tables have the same key set |
| LanguageContext.EnEntriesAreText | lib/LanguageContext.tsx:14-68 | every English entry is non-empty and differs from its key |
| LanguageContext.ViEntriesAreText | lib/LanguageContext.tsx:69-121 | every Vietnamese entry is non-empty and differs from its key |
| LanguageContext.EntriesAreText | lib/LanguageContext.tsx:14-121 | the same, for either language |
| LanguageContext.FallbackExactly | lib/LanguageContext.tsx:13-137 | `t` returns the key exactly when the key is untranslated, and that does not depend on the language |
| LanguageContext.HitReturnsEntry | lib/LanguageContext.tsx:135-137 | a present key translates to its entry |
| LanguageContext.InitialLanguageExample | lib/LanguageContext.tsx:133-137 | under the initial language, `analyze` reads "✨ Phân tích" |
| LanguageContext.UnknownKeyExample | lib/LanguageContext.tsx:136 | an unknown key comes back as itself |
| LanguageContext.TAsWritten | lib/LanguageContext.tsx:136 | the lookup as written yields an inherited `Object.prototype` member exactly for an untranslated inherited name, and text otherwise |
| LanguageContext.TAsWrittenReturnsInheritedMember | lib/LanguageContext.tsx:136 | `t("toString")` as written yields `Object.prototype.toString`, while the corrected `T` yields "toString" |
| LanguageContext.TAsWrittenAgreesElsewhere | lib/LanguageContext.tsx:136 | away from the inherited names, the lookup as written agrees with `T` |
| LanguageContext.UseLanguage | lib/LanguageContext.tsx:146-151 | throws `Error("useLanguage must be used within a LanguageProvider")` exactly when there is no provider; otherwise returns the provider's value |
| LanguageContext.FreshProviderSpeaksVietnamese | lib/LanguageContext.tsx:132-151 | under a freshly mounted provider, `useLanguage().t` translates with the Vietnamese table |
| PoseStore.Merge | lib/store.ts:13-14 | an empty partial changes nothing; a partial naming both fields gives exactly those values, whatever the old state |
| PoseStore.MergeIdempotent | lib/store.ts:13-14 | applying the same partial twice equals applying it once |
| PoseStore.SettersCommute | lib/store.ts:13-14 | the two setters touch different fields, so their order does not matter |
| PoseStore.LastImageWins | lib/store.ts:13 | only the last `setGeneratedImage` is visible |
| PoseStore.Store.constructor | lib/store.ts:10-12 | the store starts with `generatedImage = null` and `isGeneratingPose = false` |
| PoseStore.Store.SetGeneratedImage | lib/store.ts:13 | sets `generatedImage` to `url`, which may be null; `isGeneratingPose` is unchanged; this equals the merge of `{generatedImage: url}` |
| PoseStore.Store.SetIsGeneratingPose | lib/store.ts:14 | sets `isGeneratingPose`; `generatedImage` is unchanged; this equals the merge of `{isGeneratingPose}` |
| PoseStore.GenerationRoundTrip | lib/store.ts:10-14 | on a fresh store, setting the flag, publishing an image and clearing the flag leaves the image and a false flag |
| PoseStore.SetImageTwice | lib/store.ts:13 | calling `setGeneratedImage` twice with the same URL leaves the same state as calling it once |

## Left out

- Image work is not modelled. `sharp` resizing and JPEG re-encoding, and Node's lenient base64 codec, are opaque function parameters. Nothing is claimed about image size or quality.
- `JSON.parse`, `generateContent` and `sendMessage` are parameters; an `Err` result stands for the call throwing. The network, the model and the SDK are outside the model.
- The timers and `AbortController` are not modelled. Each handler reports only whether `clearTimeout` runs before it returns. The abort never fires in the model, so an `AbortError` can only come from a service parameter. The abort signal is never passed to the SDK anyway.
- `console.log` calls are not modelled.
- `app/api/generate-pose/route.ts` imports `getActiveSession` from `../analyze/route`, which exports only `POST`. The TypeScript check rejects that import, and a build that skips the check binds `undefined`, so the call at line 17 throws and every request is answered 500 (`AsWrittenAlwaysFails`, listed under Findings). `GeneratePose` and `Post` read the slot of `lib/gemini-session.ts` instead, which is the evident intent. Even then nothing in the code calls `setActiveSession`, so `FreshProcessRejects` shows every well-formed request answered 400.
- GeneratePoseRoute.UnboundLookup: the message wording of the TypeError for calling `undefined` depends on the bundler's rewriting of the import and is assumed.
- Dafny strings hold Unicode scalar values. Lone UTF-16 surrogates therefore cannot be represented, so the URIError `encodeURIComponent` throws for them is not modelled.
- `UriComponent.EncodeUriComponent` follows the ECMAScript unreserved set, which leaves `! * ' ( )` unescaped, not the RFC 3986 set.
- The wording of V8's TypeError messages is assumed. This covers destructuring `null`, reading a property of `undefined` and calling `replace` on a non-string.
- Values JSON cannot produce are not modelled. A thrown value without `message`, a `part.text` that is not a string, and a `parts` that is not an array are all left out. `JsError` always carries a name and a message.
- The prompt wordings are data. Each is a one-value `Instruction` datatype whose `Text()` returns the exact template literal, and the model services receive that value.
- The React provider, `useState`, `setLanguage`, re-rendering and zustand's subscriptions are not modelled. The current language is a parameter.
- The UI components, the Supabase auth and profile code, and `lib/gemini.ts` are not part of this model.
- AnalyzeRoute.StripFences: its own contract bounds only the length. What the replace removes and keeps is stated by the lemmas beside it: `StripFencesLeavesNoFence` (no fence survives), `StripFencesFixpoint` and `StripFencesPlainPrefix` (fence-free and backtick-free text is kept), and `StripFencesKeepsAroundFence`, `StripFencesKeepsAroundJsonFence` and `StripFencesJsonBlock` (each fence is deleted and the text around it kept). Text before a fence that itself holds a stray backtick is covered only by the general no-fence lemma.

## Findings

| source | as written | input that shows it | evidently intended | confidence | as-written member | corrected member |
|---|---|---|---|---|---|---|
| lib/LanguageContext.tsx:136 | `translations[language][key] \|\| key` reads the key as a property of a plain object literal, so names inherited from `Object.prototype` are found, and `t` returns a function where its type promises a string | `t("toString")`; likewise `constructor`, `valueOf`, `hasOwnProperty` and the other inherited names | an untranslated key comes back as itself, as it does for every other key | medium: not executed; no caller in the repository passes such a key | LanguageContext.TAsWrittenReturnsInheritedMember | LanguageContext.T |
| app/api/generate-pose/route.ts:2 | `getActiveSession` is imported from `../analyze/route`, which exports only `POST`; the import fails the TypeScript check, or binds `undefined` so that the call at line 17 throws | any request with a non-null JSON body: answered 500 with a TypeError instead of 400 or 200 | import it from `lib/gemini-session.ts`, which defines it | medium: not executed; depends on the build tooling | GeneratePoseRoute.AsWrittenAlwaysFails | GeneratePoseRoute.NoContextExactly |
