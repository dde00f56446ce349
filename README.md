# Gemini chat front-end: session state and the generate route

This project models the two pieces of logic in a small Next.js chat front-end for Google's
Gemini API. It proves properties of both in Dafny.

- **The chat page** (`src/app/page.tsx`). The page keeps its state in React `useState` cells:
  - the list of chats (id, messages, title) and the active chat id;
  - the composer: the prompt, the image previews with their base64 payloads, and the loading flag;
  - the typewriter reveal buffer.

  The model is the class `HomePage.Session`, with one field per cell and one method per handler:
  new chat, delete chat, add and remove an attachment, and send. Send is split at its `await`:
  `BeginSend` runs the guard and the updates made before the request, `CompleteSend` handles the
  outcome, and `Send` composes the two. `TypeWriterEffect` is a loop with one iteration per timer
  tick. The pure parts live in module `Chats` as functions with lemmas:
  - the map inside `updateChatMessages` and the title derivation;
  - the filter of a delete and the new active id;
  - the reply a send ends with.

  The JavaScript string built-ins the page relies on are in `JsText`: `slice`, `trim`, and the
  `*` replacement.
- **The `POST /api/generate` route** (`src/app/api/generate/route.ts`). It is modelled as one
  function, `GenerateRoute.Post`, from the request body, the `GEMINI_API_KEY` value and the SDK's
  behaviour to an HTTP status and JSON body. The SDK is a function parameter: from the call the
  route makes to its outcome (throws, or resolves with an optional response).

The model follows the code, including where it differs from what the interface suggests.
Deleting the active chat reads as "move to the first remaining chat, or back to the default
chat when none remains". `handleDeleteChat`
(`src/app/page.tsx:201-206`) instead reads the new active id from the list as it was *before*
the filter. So deleting the first chat while it is active, including the only chat, leaves the
active id naming a chat that no longer exists, and no default chat is recreated.
`Chats.ActiveAfterDelete` models the code as written. `Chats.DeleteFirstActiveLeavesDanglingId`
shows the consequence, and `Chats.DeleteActiveMovesToFirstRemaining` shows the case where the
code does move to the first remaining chat.

## Model

| member | source | states |
|---|---|---|
| JsText.Take | src/app/page.tsx:135 | `slice(0, n)`: a prefix of the string, `n` characters long or the whole string when it is shorter |
| JsText.LeadingSpace | src/app/page.tsx:84 | the leading run that `trim` removes is all space, and the character after it is not a space |
| JsText.TrailingSpace | src/app/page.tsx:84 | the trailing run that `trim` removes is all space, and the character before it is not a space |
| JsText.Trim | src/app/page.tsx:84 | `prompt.trim()` is never longer than the prompt; the four lemmas below pin down exactly what it keeps |
| JsText.TrimIsSlice | src/app/page.tsx:84 | `prompt.trim()` is the contiguous slice of the prompt starting after its leading spaces |
| JsText.TrimRemovesOnlySpace | src/app/page.tsx:84 | everything `trim` drops, before and after the result, is space |
| JsText.TrimEdgesAreNotSpace | src/app/page.tsx:84 | a non-empty trimmed prompt neither starts nor ends with a space character |
| JsText.TrimEmptyIffBlank | src/app/page.tsx:84 | the trimmed prompt is empty exactly when the prompt is blank (both directions) |
| JsText.RemoveStars | src/app/page.tsx:110 | `replace(/\*/g, "")`: no `*` is left, and every other character is kept with its multiplicity |
| JsText.RemoveStarsAppend | src/app/page.tsx:110 | the replacement works character by character, so it keeps the order of what it keeps |
| JsText.RemoveStarsKeepsStarless | src/app/page.tsx:110 | a text without `*` is left as it is |
| JsText.RemoveStarsIdempotent | src/app/page.tsx:110 | removing the asterisks twice is removing them once |
| Chats.Title | src/app/page.tsx:157 | the title is the first 20 characters of the first message, or "Obrolan Baru" when there is no message or its text is empty; never empty, at most 20 characters |
| Chats.FindIndex | src/app/page.tsx:46 | `chats.find`: none exactly when no chat has the id; otherwise the first chat with it |
| Chats.Find | src/app/page.tsx:46 | the current chat is absent exactly when no chat has the active id; otherwise it is the first chat of the list with that id |
| Chats.ReplaceMessages | src/app/page.tsx:150-161 | the map keeps the number of chats |
| Chats.ReplaceMessagesPointwise | src/app/page.tsx:150-161 | only the chats with the given id change; they get the new messages and the title derived from them; every other chat and every id and position stay the same |
| Chats.FindAfterReplace | src/app/page.tsx:150-161 | after the update the same chat is found for the active id, holding the new messages |
| Chats.ReplaceMessagesTwice | src/app/page.tsx:93 | the second update of a send supersedes the first: updating twice is updating once with the later list |
| Chats.RemoveChat | src/app/page.tsx:202 | after the filter no chat has the deleted id; a chat remains exactly when it was there and has another id |
| Chats.RemoveChatAppend | src/app/page.tsx:202 | the filter keeps the order of the remaining chats |
| Chats.RemoveAbsentChat | src/app/page.tsx:202 | deleting an id no chat has leaves the list unchanged |
| Chats.ActiveAfterDelete | src/app/page.tsx:203-205 | the active id is unchanged when another chat is deleted; otherwise it is the first id of the list before the filter, or "default" when that list is empty |
| Chats.DeleteActiveMovesToFirstRemaining | src/app/page.tsx:201-205 | deleting the active chat when it is not first makes the first chat, still present, the current one |
| Chats.DeleteFirstActiveLeavesDanglingId | src/app/page.tsx:201-205 | deleting the first chat while it is active leaves an active id that no chat has |
| Chats.RemoveAt | src/app/page.tsx:403-410 | `filter((_, i) => i !== idx)`: the element at `idx` is removed when there is one; otherwise the list is unchanged |
| Chats.NoAnswerReplyIsStarless | src/app/page.tsx:110 | the fallback text "Saya belum bisa menjawab itu." has no `*`, so the replacement keeps it as it is |
| Chats.Reply | src/app/page.tsx:107-125 | the reply is an AI message without images; a thrown request gives a message without `typing`, any response one with `typing: false` |
| Chats.ReplyText | src/app/page.tsx:107-125 | the reply text: the failure text when the request throws, "Terjadi kesalahan server." when not ok, the fallback for an absent or empty output, otherwise exactly `RemoveStars` of the output: its characters in order with every `*` removed |
| Chats.ReplyHasNoStars | src/app/page.tsx:110 | a reply built from a response body never contains `*` |
| HomePage.RevealTicks | src/app/page.tsx:133-146 | the reveal takes one tick per character of a non-empty text, and exactly one tick for an empty text |
| HomePage.RevealShowsGrowingPrefixes | src/app/page.tsx:135-137 | every frame of the reveal is a prefix of the text, frames only grow, and the last frame is the whole text |
| HomePage.SendText | src/app/page.tsx:84 | `text ?? prompt.trim()`: a preset question as given; otherwise the trimmed prompt, which is empty exactly when the prompt is blank |
| HomePage.SendProceeds | src/app/page.tsx:83-85 | the guard stops the send exactly when there is no current chat, or the text is empty and no payload is attached |
| HomePage.CanSubmit | src/app/page.tsx:449 | the send button is enabled exactly when nothing is loading and the prompt has a non-space character or an image is selected |
| HomePage.StartSend | src/app/page.tsx:82-104 | the send goes ahead exactly when there is a current chat and the text or the payload list is non-empty; the message shown carries the posted text and the previews; the posted body is never empty on both counts |
| HomePage.TypedPromptIsSentTrimmed | src/app/page.tsx:84-85 | a typed prompt is posted trimmed, and an empty text only goes out with an image payload |
| HomePage.CanSubmitIffSendProceeds | src/app/page.tsx:449 | with a current chat, the send button is enabled exactly when nothing is loading and `handleSend`'s guard would let the send through |
| HomePage.SendUpdatesCurrentChat | src/app/page.tsx:150-161 | after an update the active chat is found again, with the new messages and their title |
| HomePage.SendAppendsUserMessageAndReply | src/app/page.tsx:93-144 | after both halves of a send, the chat holds its old messages, then the user message, then exactly one reply, with the title of that list; no other chat changes |
| HomePage.NewChatIsCurrent | src/app/page.tsx:188-194 | a new chat with a fresh id is the one the new active id finds: empty and titled "Obrolan Baru" |
| HomePage.Session.constructor | src/app/page.tsx:30-41 | the initial state: a single chat "default" titled "Obrolan Pertama", active, with an empty composer and no reveal |
| HomePage.Session.NewChat | src/app/page.tsx:188-199 | exactly one empty chat "Obrolan Baru" is appended and made active; the prompt and both attachment lists are cleared |
| HomePage.Session.DeleteChat | src/app/page.tsx:201-206 | the chats become the filtered list; the active id becomes `ActiveAfterDelete` of the list before the filter |
| HomePage.Session.AddAttachment | src/app/page.tsx:177-181 | a payload and its preview are appended together, so the two lists keep the same length |
| HomePage.Session.RemovePreview | src/app/page.tsx:403-410 | the same index leaves both attachment lists, so their lengths stay equal |
| HomePage.Session.UpdateChatMessages | src/app/page.tsx:150-161 | the chats become the list with the captured id's messages replaced |
| HomePage.Session.ApplySendStart | src/app/page.tsx:93-98 | the active chat gets the given messages; the prompt and both attachment lists are cleared; loading starts; the reveal buffer is emptied |
| HomePage.Session.BeginSend | src/app/page.tsx:82-98 | nothing changes when the guard stops the send; otherwise the user message is appended to the active chat's messages, the composer is cleared and loading starts |
| HomePage.Session.TypeWriterEffect | src/app/page.tsx:129-148 | after tick k the buffer is the text sliced to k characters; the loop stops after one tick per character, and at least one; the full text is then stored after the history and user message with `typing: false`; the buffer ends empty |
| HomePage.Session.CompleteSend | src/app/page.tsx:100-125 | the chat becomes the history, the user message and the reply; a thrown request appends the failure message without a reveal; loading ends either way |
| HomePage.Session.Send | src/app/page.tsx:82-148 | a whole send: no change when the guard stops it; otherwise the posted body is the text and payloads, the chat gains the user message and one reply, the composer is empty and loading is off |
| GenerateRoute.PromptValid | src/app/api/generate/route.ts:36 | the prompt passes the check exactly when it is a string of at least one character |
| GenerateRoute.KeyPresent | src/app/api/generate/route.ts:43-44 | the key passes the check exactly when it is set and has at least one character |
| GenerateRoute.DataUriPrefixLength | src/app/api/generate/route.ts:60 | a non-zero match length covers `data:image/`, a word of at least one character and `;base64,`, and lies within the string |
| GenerateRoute.WordRun | src/app/api/generate/route.ts:60 | the greedy `\w*` run: all word characters, stopped by the first non-word character |
| GenerateRoute.StripDataUriPrefix | src/app/api/generate/route.ts:60 | either nothing is removed, or exactly `data:image/`, one word and `;base64,` are removed from the front |
| GenerateRoute.WordRunOfWord | src/app/api/generate/route.ts:60 | the word run over a word followed by a non-word character is the word |
| GenerateRoute.StripDataUriPrefixRoundTrip | src/app/api/generate/route.ts:60 | every `data:image/<word>;base64,` header is stripped and the payload after it is sent untouched |
| GenerateRoute.StripKeepsUnprefixed | src/app/api/generate/route.ts:60 | a string that does not start with `data:image/` is sent unchanged |
| GenerateRoute.MimeTypeOrDefault | src/app/api/generate/route.ts:61 | the supplied MIME type, or "image/png" when it is absent or empty |
| GenerateRoute.BuildParts | src/app/api/generate/route.ts:55-64 | the parts start with the prompt's text part and have one further inline-data part exactly when `image` is a non-empty string; that part carries the stripped image and the defaulted MIME type |
| GenerateRoute.BuildCall | src/app/api/generate/route.ts:28-69 | the call uses the key, the model or "gemini-2.5-flash", one user turn with the parts, and each parameter or its default (0.2, 1024, 0.8, 40) |
| GenerateRoute.ExtractOutput | src/app/api/generate/route.ts:72-81 | "" without a response object; otherwise the text accessor's result, or the serialised response when the accessor is missing or throws |
| GenerateRoute.ErrorMessage | src/app/api/generate/route.ts:84-90 | an `Error`'s message, or "Terjadi kesalahan pada server" for any other thrown value |
| GenerateRoute.Post | src/app/api/generate/route.ts:22-92 | the status is 200, 400 or 500; 200 exactly for an `output` body; 400 exactly for a parsed body with an invalid prompt, whatever the key; 500 with the key message for a valid prompt without a key; 500 with the thrown message for an unreadable body or a failed SDK call |
| GenerateRoute.InvalidPromptIgnoresKeyAndSdk | src/app/api/generate/route.ts:36-49 | the prompt is checked before the key: an invalid prompt gets 400 "Prompt wajib diisi" whatever the key and the SDK |
| GenerateRoute.DefaultsApplied | src/app/api/generate/route.ts:28-32 | a request without parameters is sent with "gemini-2.5-flash", 0.2, 1024, 0.8 and 40 |

## Left out

- Rendering: the JSX, CSS, `DotTyping`, scrolling, the header component, and the preset and sidebar toggles. They are UI only.
- `localStorage` loading and saving (`src/app/page.tsx:56-70`). This is browser I/O.
- `FileReader`, `URL.createObjectURL` and the `split(",")[1]` of the data URL in `handleImageUpload`. `AddAttachment` receives the preview and the payload as parameters.
- Clipboard copy and its timeout. This is browser I/O.
- Switching chats by clicking (`setActiveChat`) and the Enter-key and form-submit handlers. They only call `handleSend` when nothing is loading.
- `fetch` and `res.json()`. They are an abstract `FetchOutcome`: throws, not ok, or ok with an optional `output`. The Gemini SDK is likewise a function parameter of `Post`.
- Real time. The 25 ms interval is modelled as loop iterations. Interleavings of a reveal with a later send, a chat switch or a delete are not modelled; each send is completed before the next handler runs. `CompleteSend` sets `loading` to false after the reveal's ticks instead of before the first tick. No tick reads `loading`, so the final state is the same.
- React's batching of the updates in one handler. Each handler's updates are applied together, in the order the handler makes them.
- `Date.now().toString()` as the id of a new chat. It is the parameter `newId`; `NewChatIsCurrent` takes its freshness as a precondition.
- JavaScript strings are sequences of UTF-16 code units. Here they are sequences of Unicode characters, so `slice(0, 20)` and the reveal count characters, not code units.
- JSON numbers are `real`, and the route does no arithmetic on them.
- GenerateRoute.Post: a JSON `null` parameter is not modelled. Destructuring defaults replace only `undefined`, so `null` would be sent as `null`; the model treats a parameter as absent or present. The same holds for a non-string `model`, `image` or `mimeType`. The model treats those as absent, though `mimeType` and `model` would be passed on as they are.
- GenerateRoute.Post: a parameter of the wrong JSON type, such as a string `temperature`, is passed through unchanged by destructuring. `Number` values only are modelled, so such a parameter cannot be represented.
- GenerateRoute.ExtractOutput: a `JSON.stringify(result.response)` that throws (`src/app/api/generate/route.ts:77`, `:79`) escapes the inner `catch` and becomes the outer 500. `SdkResponse.serialized` is always a string, so that path is not modelled.
- The client posts `images` (a list) while the route reads `image` (one string). Each side is modelled as written: `ClientRequest` carries `images`, and `GenerateRequest` reads `image`.
- `console.error` in the route's `catch`. It is logging only.
