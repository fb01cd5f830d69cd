# AI Studio API routes — a Dafny model

This project models the pure logic in the two API routes of AI Studio. It also proves properties of that logic.

- **`POST /api/generate`** (image generation) is the first route. The model covers:
  - the prompt check and the clamp of the image count to 1..4;
  - the model table and its fallback to `flux-schnell`;
  - the txt2img/img2img decision and prompt embellishment (`enhancePrompt`);
  - stripping the payload from a `data:` URL and the default negative prompt;
  - the all-or-nothing join of the per-image provider calls (`Promise.all`).
- **`POST /api/companion`** (the companion chat) is the second route. The model covers:
  - the message check and the choice of system prompt;
  - assembling the conversation (history, then the new user turn);
  - extracting and removing the first `[IMAGE]:` tag line from the model's reply;
  - the gate on the auxiliary image call, and downgrading a failed call to a null image.

All I/O becomes a parameter:
- the hosted model, the chat model and the image provider are function parameters from each issued call to its outcome;
- the `HF_TOKEN` environment variable is a boolean;
- the random picks of `enhancePrompt` are bounded index parameters (`PrefixPick` < 5, `SuffixPick` < 3).

Each handler returns the calls it issued along with its response. That lets the contracts say that no call was made, or that one call was made per image.

The image-generation handler exists in two versions. `HandleGenerate` uses the corrected model lookup, and the property lemmas are about it. `HandleGenerateAsWritten` reproduces the lookup exactly as the source evaluates it. The two differ only on keys that name Object.prototype members (see "## Findings").

Modules:
- `Wrappers` and `Binary` hold `Option` and bytes.
- `Json` holds request values and JavaScript truthiness.
- `Text` holds JavaScript whitespace, line terminators and `trim`.
- `GenerateRoute` and `GenerateProperties` cover `src/app/api/generate/route.ts`.
- `ImageTag`, `CompanionRoute` and `CompanionProperties` cover `src/app/api/companion/route.ts`.

How the tag regex `/\[IMAGE\]:\s*(.+?)(?:\n|$)/i` is modelled:
- The leftmost tag position wins.
- The greedy `\s*` backtracks through the whitespace run, which may cross line breaks.
- The lazy capture is the non-empty rest of a line. That line must end in `\n` or at the end of the input.
- Under `i`, an ASCII lower-case letter matches its upper-case partner. No non-ASCII character matches a character of the all-ASCII tag.
- `.` does not match `\r`, U+2028 or U+2029.

## Model

| member | source | states |
|---|---|---|
| GenerateRoute.SelectModel | src/app/api/generate/route.ts:2-27 | the selected entry is always one of the six table entries; a listed key selects its own entry and any other key selects `flux-schnell` |
| GenerateRoute.ModelKeys | src/app/api/generate/route.ts:154 | `available_models` lists the table's keys, one per entry, in declaration order |
| GenerateRoute.ModelIndex | src/app/api/generate/route.ts:81 | a found index holds the key, and no index is found only when no entry has that key |
| GenerateProperties.SelectModelByKey | src/app/api/generate/route.ts:81 | the lookup `MODELS[model]` with its `flux-schnell` fallback: an own key gives its entry, otherwise the first (`flux-schnell`) entry |
| GenerateProperties.ModelKeysDistinct | src/app/api/generate/route.ts:2-27 | no two table entries share a key, so a key identifies its entry |
| GenerateRoute.SelectModelAsWritten | src/app/api/generate/route.ts:81 | the lookup as JavaScript evaluates it: a listed key gives its entry, an Object.prototype member name gives the inherited member, and only other keys fall back to `flux-schnell` |
| GenerateProperties.PrototypeKeyBypassesFallback | src/app/api/generate/route.ts:81 | the key "constructor" is not in the table, yet the lookup as written yields the inherited member instead of the `flux-schnell` fallback |
| GenerateRoute.EnhancePrompt | src/app/api/generate/route.ts:30-51 | disabled embellishment returns the prompt unchanged; enabled, the result starts with the picked prefix and a space, ends with the picked suffix, contains the prompt, and has exactly the combined length |
| GenerateRoute.EnhanceEnabled | src/app/api/generate/route.ts:63 | embellishment is on exactly when `enhance` is absent (destructuring default `true`) or truthy, so `true` enables it; any other given falsy value, such as `null`, `false` or `""`, disables it |
| GenerateProperties.StripEmbellishment | src/app/api/generate/route.ts:33-51 | a reference inverse: whatever it recovers re-embellishes, with some listed prefix and suffix, to its input |
| GenerateProperties.EnhanceRoundTrip | src/app/api/generate/route.ts:30-51 | stripping an embellished prompt recovers the original prompt for every prompt and every pair of picks |
| GenerateProperties.EnhanceInjective | src/app/api/generate/route.ts:30-51 | equal embellished prompts come from the same prompt and the same prefix and suffix picks |
| GenerateProperties.PrefixesDistinguishable | src/app/api/generate/route.ts:34-40 | at most one listed prefix (followed by a space) begins any string |
| GenerateProperties.SuffixesDistinguishable | src/app/api/generate/route.ts:42-46 | at most one listed suffix ends any string |
| GenerateProperties.PrefixPickOf | src/app/api/generate/route.ts:48 | the first prefix index the string starts with, and none before it; none found means no listed prefix begins the string |
| GenerateProperties.SuffixPickOf | src/app/api/generate/route.ts:49 | the first suffix index the string ends with, and none before it; none found means no listed suffix ends the string |
| GenerateProperties.Reassemble | src/app/api/generate/route.ts:51 | a string with a known prefix and suffix is that prefix, its middle and that suffix |
| GenerateRoute.ClampCount | src/app/api/generate/route.ts:73 | the count lies in 1..4; a count in range is kept, a larger one becomes 4, and NaN, zero or a negative count becomes 1 |
| GenerateProperties.ClampCountIdempotent | src/app/api/generate/route.ts:73 | clamping an already clamped count changes nothing |
| GenerateRoute.NegativePrompt | src/app/api/generate/route.ts:88-89 | the negative prompt sent is always truthy: the given one when truthy, else the fixed default list |
| GenerateRoute.CommaFrom | src/app/api/generate/route.ts:100 | the first comma at or after a position, or the end of the string when there is none |
| GenerateRoute.SecondPiece | src/app/api/generate/route.ts:100 | `split(",")[1]` is undefined exactly when there is no comma; otherwise it is comma-free and runs from just after the first comma to the next comma or the end |
| GenerateRoute.ImagePayload | src/app/api/generate/route.ts:98-101 | a string without the `data:` prefix is sent unchanged; a `data:` URL sends nothing exactly when it has no comma, and otherwise sends the comma-free text from just after its first comma up to the next comma or the end |
| GenerateProperties.DataUrlRoundTrip | src/app/api/generate/route.ts:98-101 | for a comma-free header and payload, `data:` + header + "," + payload sends exactly the payload |
| GenerateProperties.DataUrlStopsAtNextComma | src/app/api/generate/route.ts:98-101 | for a comma-free header and piece, `data:` + header + "," + piece + "," + anything sends exactly the piece |
| GenerateProperties.DataUrlWithoutComma | src/app/api/generate/route.ts:99-100 | a `data:` URL without a comma sends no image parameter (`undefined`) |
| GenerateRoute.ModeFor | src/app/api/generate/route.ts:82 | img2img exactly when the image is truthy and the selected model supports img2img |
| GenerateRoute.BuildBody | src/app/api/generate/route.ts:96-122 | the body is missing (the per-image callback throws) exactly in img2img mode with a non-string image; otherwise it carries the prompt, mode and negative prompt, and an image only in img2img mode |
| GenerateRoute.JoinAll | src/app/api/generate/route.ts:144 | the join succeeds exactly when every outcome delivered, and then yields one image per call, in call order |
| GenerateRoute.HandleGenerateWith | src/app/api/generate/route.ts:54-163 | the handler after the table lookup: an invalid prompt gives 400 and a missing token gives 500, both without a call. An inherited lookup gives 500 without a call, because `fetch` rejects an undefined URL. A table entry with a sendable image gives one call per counted image, each to that entry's URL in the decided mode, with the body built from the embellished prompt, the negative prompt and the image. When every issued call delivers, the request succeeds. Success echoes the requested model key and the original prompt, lists the table keys, and gives each call's delivered bytes in order. A failed call happens exactly when calls were made and the response is the 500 |
| GenerateRoute.HandleGenerate | src/app/api/generate/route.ts:54-163 | with the corrected lookup: 400 or 500 with no call for an invalid prompt or a missing token. Past those checks there are exactly as many calls as counted images, unless an img2img image is not a string. Every call goes to the selected model's URL. A generation failure means a call failed or the image could not be sent, and any failed call gives that failure. When every issued call delivers, the request succeeds. Every call carries the embellished prompt, the negative prompt and the mode, and it carries the image payload only in img2img mode. Success has one image per call, the delivered bytes in order, and echoes the model key and the prompt |
| GenerateRoute.HandleGenerateAsWritten | src/app/api/generate/route.ts:81-161 | as the source evaluates the lookup: a model key naming an Object.prototype member ends in 500 with no provider call; every other key is handled exactly as by the corrected handler |
| GenerateProperties.ConstructorKeyFails | src/app/api/generate/route.ts:81-161 | with a valid prompt, a token and a provider that always delivers, model "constructor" fails with 500 as written, while the corrected handler succeeds with the counted calls to the `flux-schnell` URL |
| GenerateProperties.PromptCheckedFirst | src/app/api/generate/route.ts:69-78 | with an invalid prompt the result is 400 whatever the token and provider, so the check precedes the token check and every call |
| GenerateProperties.GeneratedCalls | src/app/api/generate/route.ts:82-131 | on success every call goes to the selected model's URL with the response's prompt and mode; every call carries the negative prompt (the given one or the default); txt2img calls carry no image and img2img calls carry the image payload |
| GenerateProperties.GeneratedPrompt | src/app/api/generate/route.ts:85 | the response prompt equals the original when embellishment is off and is the original embellished when it is on |
| GenerateProperties.NonStringImageFails | src/app/api/generate/route.ts:99 | a truthy non-string image on an img2img model gives 500 with no provider call |
| GenerateProperties.AllDeliveredSucceeds | src/app/api/generate/route.ts:144-155 | with a valid prompt, a token, a usable image and a provider that always delivers, the request succeeds with the clamped number of images |
| GenerateProperties.RedAppleScenario | src/app/api/generate/route.ts:57-155 | prompt "a red apple", count 2, unknown model "flux" and `enhance` false give two txt2img images from the `flux-schnell` URL, with the model echoed as "flux" and the prompt unchanged |
| Json.IsNonEmptyString | src/app/api/generate/route.ts:69 | the check that rejects a falsy or non-string value passes exactly for truthy string values, the non-empty strings; the companion route's message check is the same test |
| Json.Property | src/app/api/companion/route.ts:42-43 | reading a property gives the field when the object has it and `undefined` otherwise |
| Text.SpaceRunEnd | src/app/api/companion/route.ts:62 | the end of the whitespace run `\s*` can take: all whitespace before it, none at it |
| Text.LineEnd | src/app/api/companion/route.ts:62 | the first line terminator at or after a position (or the end): what `.` cannot cross |
| Text.LineEndAt | src/app/api/companion/route.ts:62 | any position that ends a terminator-free stretch at a terminator or the end is the line end |
| Text.TrailingSpaceStart | src/app/api/companion/route.ts:64-65 | the start of a trailing whitespace run: whitespace after it, none just before it |
| Text.Trim | src/app/api/companion/route.ts:64-65 | `trim` returns a slice of its input with only whitespace cut from either end and non-whitespace at both ends of the result |
| Text.TrimIdempotent | src/app/api/companion/route.ts:64-65 | trimming twice equals trimming once |
| Text.TrimUnchanged | src/app/api/companion/route.ts:64-65 | a string with non-whitespace at both ends is its own trim |
| Text.TrimCharacterised | src/app/api/companion/route.ts:64-65 | the trim is the slice between the first and last non-whitespace characters |
| Text.TrimKeepsNoLineTerminator | src/app/api/companion/route.ts:64 | trimming a single line leaves a single line |
| ImageTag.AsciiUpper | src/app/api/companion/route.ts:62 | against the all-ASCII tag only `a`..`z` fold, each to its upper-case letter, and no non-ASCII character matches |
| ImageTag.MatchEnd | src/app/api/companion/route.ts:65 | a match ends after the `\n` that closes its line, or at the end of the input |
| ImageTag.ReportedMatchUnique | src/app/api/companion/route.ts:62 | there is at most one leftmost, longest-whitespace match |
| ImageTag.SpacesStayInRun | src/app/api/companion/route.ts:62 | `\s*` from a position never reaches past the end of the whitespace run there |
| ImageTag.BacktrackSpaces | src/app/api/companion/route.ts:62 | backtracking `\s*` finds the largest position in the run from which the capture matches, or reports that none does |
| ImageTag.MatchAt | src/app/api/companion/route.ts:62 | an attempt at a position reports a match starting at that position |
| ImageTag.MatchAtSpec | src/app/api/companion/route.ts:62 | the attempt at a position finds a match exactly when one exists there, and then the one with the longest whitespace run |
| ImageTag.FirstMatchFrom | src/app/api/companion/route.ts:62 | the scan returns the first position at which the attempt matches, or none when no attempt in range matches |
| ImageTag.FindImageTag | src/app/api/companion/route.ts:62-63 | `match` finds nothing exactly when no tag, whitespace and line fit anywhere; otherwise it reports the leftmost tag with the longest whitespace run |
| ImageTag.ExtractImagePrompt | src/app/api/companion/route.ts:58-66 | with no match the reply is the text unchanged and the prompt is empty; the prompt is always one line, trimmed |
| ImageTag.ExtractAtReportedMatch | src/app/api/companion/route.ts:62-66 | with a match, the prompt is the trimmed rest of the tag's line, and the text is the reply with only that match cut out, trimmed |
| CompanionProperties.FirstTagMatch | src/app/api/companion/route.ts:62 | a full match at the first `[`, followed by non-whitespace, is the match reported |
| CompanionProperties.ExtractAtFirstTag | src/app/api/companion/route.ts:62-66 | the extraction when the first `[` opens a tag whose whitespace ends right before the capture |
| CompanionProperties.ExtractTrailingTagLine | src/app/api/companion/route.ts:62-66 | a reply that is text followed by a final `[IMAGE]: prompt` line gives that prompt, and the text trimmed |
| CompanionProperties.ExtractLowerCaseTagOverLineBreak | src/app/api/companion/route.ts:62-64 | a lower-case `[image]:` tag followed by a line break still captures the next line, since `\s*` crosses it |
| CompanionProperties.FirstOfTwoTagLines | src/app/api/companion/route.ts:62 | in a reply with two tag lines, the first line is a full match with its capture and extent as stated |
| CompanionProperties.OnlyFirstTagRemoved | src/app/api/companion/route.ts:62-66 | with two tag lines, the first gives the prompt and the second tag line stays in the visible text |
| CompanionProperties.CarriageReturnTagNotMatched | src/app/api/companion/route.ts:62-63 | a tag line ended by `\r\n` does not match: the reply is shown unchanged and the prompt is empty |
| CompanionRoute.SystemPrompt | src/app/api/companion/route.ts:37 | the system prompt is the persona when truthy, else the fixed companion persona |
| CompanionRoute.ProjectEntry | src/app/api/companion/route.ts:41-44 | each history entry maps to its `role` and `content`; a null or undefined entry throws |
| CompanionRoute.ProjectHistory | src/app/api/companion/route.ts:41-44 | mapping the history fails exactly when some entry is null or undefined; otherwise it keeps length and order |
| CompanionRoute.UserTurn | src/app/api/companion/route.ts:45 | the new turn has role "user" and the message as its content |
| CompanionRoute.BuildConversation | src/app/api/companion/route.ts:30-46 | absent history gives only the user turn; a non-array history throws; an array gives its entries in order followed by exactly one user turn (length + 1) |
| CompanionRoute.ShouldGenerateImage | src/app/api/companion/route.ts:69 | the image call runs exactly when `generate_image` is absent (default `true`) or truthy, the image prompt is non-empty, and a token is configured |
| CompanionRoute.AuxPrompt | src/app/api/companion/route.ts:72 | the auxiliary prompt is the fixed prefix, the extracted prompt and the fixed suffix, so the prompt can be cut back out of it |
| CompanionRoute.AuxImage | src/app/api/companion/route.ts:88-96 | an image results exactly when the auxiliary call delivered, and it is the delivered bytes |
| CompanionRoute.AnswerTurn | src/app/api/companion/route.ts:55-105 | after a reply, the text and prompt are the extraction's. The image call happens exactly when the gate opens, and it sends the auxiliary prompt. The image is the delivered bytes when that call delivers; it is null when the call fails or is not made, and the answer is given either way |
| CompanionRoute.HandleCompanion | src/app/api/companion/route.ts:27-113 | an invalid message gives 400 with no calls. For a valid message: a history that cannot be mapped gives 500 before any chat call; otherwise the chat model gets the chosen system prompt and the assembled conversation. The request is answered exactly when the chat replies, and every other outcome is 500 "Failed to generate response" without an image call. An answer echoes the message and is the post-processed reply |
| CompanionProperties.AuxFailureDowngraded | src/app/api/companion/route.ts:88-105 | the auxiliary outcome changes only the image; a failed auxiliary call still gives a successful answer with a null image |
| CompanionProperties.OpenGateCallsImage | src/app/api/companion/route.ts:69-93 | with a token, `generate_image` absent or truthy and a non-empty extracted prompt, the image call is made with the auxiliary prompt and the image returned is what that call delivers |
| CompanionProperties.NoImageWithoutGate | src/app/api/companion/route.ts:69 | without a token, or with `generate_image` false, no image call is made and no image is returned |
| CompanionProperties.UntaggedReplyUnchanged | src/app/api/companion/route.ts:58-63 | a reply without a tag is answered verbatim, with an empty image prompt and no image call |
| CompanionProperties.ConversationSent | src/app/api/companion/route.ts:40-53 | the chat model receives the history entries in order followed by exactly one user turn with the message |
| CompanionProperties.ImageNeedsTag | src/app/api/companion/route.ts:62-69 | an image call implies the reply contained a tag match and the extracted prompt is non-empty |

## Left out

- The network and the environment are not modelled.
  - The HuggingFace `fetch` calls and the Gemini `generateText` call become function parameters that return abstract outcomes.
  - `process.env.HF_TOKEN` is a boolean.
  - The request headers and the `Authorization` token text are not modelled.
- Base64 encoding through `Buffer` and the `data:image/png;base64,` wrapping are left out. They are library calls whose output is never inspected, so images are the delivered bytes.
- The numeric tuning parameters `strength`, `guidance_scale` and `num_inference_steps` are left out. They are floating point and pass through untouched, so provider bodies omit them.
- `Number(count)` coercion of arbitrary JSON and fractional counts are left out.
  - The count is an `Option<int>` that has already been coerced, with `None` for NaN.
  - A fractional count (which `Array.from` truncates) is not modelled.
- `model` is a string with its default applied. A non-string `model` value used as a property key is not modelled.
- A malformed JSON body, a `null` body, and the `details` text of 500 responses are left out. They come from `req.json()` and `String(error)`, which are outside the pure logic.
- The companion persona text is left out. It is the opaque constant `CompanionSystem`.
- History entries are read with their `role` and `content` as given. The TypeScript cast to `"user" | "assistant"` is not checked at run time, so it is not modelled either.
- Which image model URL the companion's auxiliary call goes to is left out. The image service is the parameter `imageService`, which receives the auxiliary prompt.
- `src/app/api/chat/route.ts` is not part of this model. It passes straight through to a streaming call.
- Strings are sequences of Unicode scalar values, whereas JavaScript strings are UTF-16 code units. Lone surrogates therefore cannot be written, and the model does not cover them.
- The `console.error` logging in both routes' catch blocks is left out. It is output only and does not change any response.
- The React UI files are not part of this model. They are rendering and component state.
- The image-generation code has no model-switch reporting and no substitution of a capable model. An image sent to a model without img2img support is silently ignored (mode txt2img), and the model follows that code.

## Findings

| source | as written | input that shows it | evidently intended | confidence | as-written member | corrected member |
|---|---|---|---|---|---|---|
| src/app/api/generate/route.ts:81 | `MODELS[model]`, whose falsy result selects the `flux-schnell` fallback, also reads properties that `MODELS` inherits from Object.prototype. Those are truthy values, so the fallback is skipped and the selected "model" has no `url`, so every fetch fails and the request ends in 500 | `{"prompt": "cat", "model": "constructor"}` | an unknown key, including an inherited member name, falls back to `flux-schnell` | not executed | GenerateRoute.HandleGenerateAsWritten, through GenerateRoute.SelectModelAsWritten (shown by GenerateProperties.ConstructorKeyFails and GenerateProperties.PrototypeKeyBypassesFallback) | GenerateRoute.HandleGenerate, through GenerateRoute.SelectModel (proved by GenerateProperties.ConstructorKeyFails and GenerateProperties.SelectModelByKey) |
