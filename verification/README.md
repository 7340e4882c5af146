# Nerd-bot chat core, modelled in Dafny

Nerd-bot is a browser chat client for a set of chatbot personas, with a small
Flask server behind it. This project models and verifies the three pieces of
sequential logic in it:

- **The chat controller** (`NerdChat`, chat.js). It keeps the list of message
  bubbles, the typing indicator, the mute flag, the selected persona, the
  input box and the image picker. It sends a message optimistically, loads and
  clears history, and enables the send button. Before a bubble is inserted as
  markup, its text is HTML-escaped and then its ```` ``` ```` spans become
  `<pre>` blocks.
- **The server's `/chat` route and history store** (app.py):
  - `save_message` appends to the `conversations` table;
  - `load_history` reads a user's last rows;
  - `chat()` validates the request, parses the image data URL and stores the
    user's message and then the reply.
- **The authentication controller** (`AuthManager`, auth.js). It covers:
  - the sign-up checks;
  - the request `callAuthAPI` builds and the error it throws;
  - the life cycle of `currentUser`;
  - the guards around Google Sign-In.

Each network call becomes a parameter holding its outcome. Every fetch,
Google Identity Services call and page change the controllers ask for is
recorded in a sequence field. That makes it possible to state "no request
was sent".

Files and modules:

| file | module | contents |
|---|---|---|
| `wrappers.dfy` | `Wrappers` | `Option`, `Result` |
| `text.dfy` | `Text` | JavaScript's `trim` and UTF-16 `length`, prefix tests, truthiness and the empty-string fallback both languages use |
| `markup.dfy` | `Markup` | escaping, code-block formatting, the bubble's markup and their inverses |
| `chat_view.dfy` | `Chat` | the `NerdChat` class |
| `data_url.dfy` | `DataUrl` | the `re.match` of `data:(image/.+);base64,(.+)` |
| `conversations.dfy` | `Conversations` | the table (`ConversationTable` class) and `load_history` |
| `chat_route.dfy` | `ChatRoute` | the `/chat` handler |
| `auth.dfy` | `Auth` | the `AuthManager` class |

Notes on the model:

- The escaping follows "escaping a string" (attribute mode off) in section
  13.3 of the WHATWG HTML Living Standard. That is what reading `innerHTML`
  of a `div` after setting its `textContent` produces:
  - `&` becomes `&amp;`;
  - U+00A0 becomes `&nbsp;`;
  - `<` becomes `&lt;`;
  - `>` becomes `&gt;`.
- The code-block regex `/```([\s\S]*?)```/g` pairs each fence with the
  nearest later one (`FormatCodeBlocksPairs`). Once a fence has no partner,
  no later fence is paired either.
- The image check follows Python's `re.match` semantics:
  - the match is anchored at the start only;
  - `.` matches anything but a line feed;
  - the first group is greedy, so it backtracks to the last possible
    `;base64,`.
- A bubble is its role and text. The markup it is shown with is
  `Markup.Render` of the text, a function of the text alone.
- The `#initialMessage` placeholder is shown exactly when the view holds no
  bubble. Every `NerdChat` method keeps this invariant (`Valid`).
- In `sendMessage` with no persona selected, reading `.endpoint` of `null`
  throws a TypeError inside the `try`. The model sends no request and shows
  the system bubble `"Error: " + <the TypeError's message>`. The message
  constant uses V8's wording.
- `setCurrentUser(data.user)` for a reply without a `user` field stores
  `undefined`, and `isAuthenticated()` then holds. `UserValue` therefore
  separates `Null`, `Undefined` and `Known(user)`.
- The password length check uses JavaScript's `length`, which counts UTF-16
  code units. A character outside the Basic Multilingual Plane counts twice.
- SQLite treats a negative `LIMIT` as "no limit"; `Kept` models this. The
  AUTOINCREMENT key is the table's `nextId`, which only grows.

## Model

| member | source | states |
|---|---|---|
| Text.Trim | chat.js:233 | `trim`: the result is a slice of the input between whitespace-only margins, it neither starts nor ends with whitespace, and it is empty exactly when the input is all whitespace |
| Text.TrimIdempotent | chat.js:255 | trimming the trimmed text changes nothing |
| Text.Utf16Length | auth.js:180 | `length` lies between the number of code points and twice that, and equals it for BMP-only text |
| Text.Or | chat.js:260 | JavaScript's `or` fallback (and Python's `or`) on a string: the text when it is not empty, otherwise the fallback; always one of the two, and never empty when the fallback is not |
| Text.OrElse | auth.js:330 | JavaScript's `or` fallback on an optional field: the field when it is a non-empty string, the fallback when it is absent or empty; always the fallback or the field itself, and never empty when the fallback is not |
| Markup.Escape | chat.js:344-348 | `sanitizeHTML`: no `<` or `>` survives, and nothing gets shorter |
| Markup.UnescapeEscape | chat.js:344-348 | escaping loses nothing: decoding the four entities gives the original text back |
| Markup.FindFence | chat.js:323 | the regex's search for a fence: the leftmost ```` ``` ```` at or after a position, or none at all |
| Markup.UnformatFormat | chat.js:323 | on escaped text the `<pre>` replacement is undone by putting the fences back: it only adds tags and keeps every other character |
| Markup.FormatOnlyAddsPreTags | chat.js:323 | after escaping, every `<` the replacement produces opens `<pre>` or `</pre>` |
| Markup.FormatCodeBlocks | chat.js:323 | the `<pre>` replacement: a text with no fence is returned unchanged and the result is never shorter than the text. Its pairing is stated by `FormatCodeBlocksPairs` and `FormatWithoutPairIsIdentity`, and what it adds and keeps by `UnformatFormat` and `FormatOnlyAddsPreTags` |
| Markup.FormatWithoutPairIsIdentity | chat.js:323 | a single fence with no partner after it leaves the text unchanged |
| Markup.FormatCodeBlocksPairs | chat.js:323 | the pairing rule of the lazy global replacement: text `a`, a fence, `b`, a fence and `c`, with no fence starting inside `a` or `b`, becomes `a`, `<pre>` + `b` + `</pre>`, then the replacement of `c`; so the first fence pairs with the nearest one after it |
| Markup.Render | chat.js:320-324 | the bubble's markup starts with `<p>` |
| Markup.RenderIsInert | chat.js:320-324 | whatever the text contains, the bubble's only markup is its `<p>` and the `<pre>` blocks of fenced spans |
| Markup.RenderRoundTrip | chat.js:320-324 | stripping `<p>`, un-formatting and un-escaping the bubble's markup gives back exactly the message text |
| Chat.Bubbles | chat.js:154-161 | one bubble per history item, in server order, with its role and content |
| Chat.ErrorText | chat.js:284-287 | the server's `error` when it is a non-empty string, otherwise "The server returned an error."; never empty |
| Chat.SendDisabled | chat.js:231-236 | the button is disabled exactly when the input is all whitespace and no file is selected |
| Chat.UserText | chat.js:260 | the user's bubble shows the trimmed text, or "Image sent" when it is empty |
| Chat.Resolution | chat.js:273-297 | the one bubble a send ends with: the reply under role `model` exactly when a persona is selected and the request succeeded; otherwise a `system` bubble "Error: " + the server error, its fallback or the rejection's message |
| Chat.SoundFor | chat.js:337 | the outgoing sound exactly for the user's role, the incoming sound for any other |
| Chat.SendSounds | chat.js:254-298 | at most two sounds. Nothing when muted; otherwise the user's (outgoing) sound first, and a second sound, the model's (incoming) one, exactly when a persona is selected and the reply arrives |
| Chat.NerdChat.constructor | chat.js:2-8 | empty view with the placeholder, not typing, not muted, no persona, no request |
| Chat.NerdChat.ApplyInitialSettings | chat.js:223-229 | the mute flag becomes the saved one |
| Chat.NerdChat.SetSelectedModel | chat.js:124-137 | the persona is selected |
| Chat.NerdChat.PlaySound | chat.js:395-402 | nothing plays while muted; otherwise exactly that sound |
| Chat.NerdChat.AddMessageToUI | chat.js:309-342 | exactly one bubble is appended, the placeholder is hidden, and the outgoing or incoming sound plays when asked for and not muted |
| Chat.NerdChat.ShowTyping | chat.js:350-357 | typing is on, and nothing changes when it already was |
| Chat.NerdChat.HideTyping | chat.js:359-364 | typing is off |
| Chat.NerdChat.ToggleMute | chat.js:380-384 | the mute flag flips, so two toggles restore it |
| Chat.NerdChat.UpdateSendButton | chat.js:231-237 | the button state becomes `SendDisabled` of the input and the picker |
| Chat.NerdChat.OnInput | chat.js:56-59 | new input text, then the button follows it |
| Chat.NerdChat.HandleFileUpload | chat.js:246-252 | the picker's file; the button is updated only when a file was chosen |
| Chat.NerdChat.ClearChatInterface | chat.js:174-193 | the view is empty and the placeholder is shown |
| Chat.NerdChat.ClearChat | chat.js:195-211 | with no persona nothing changes; otherwise the view is emptied and one clear request for the persona is sent, whatever its outcome |
| Chat.NerdChat.LoadAndRenderHistory | chat.js:139-172 | one history request; then the view holds exactly the history's bubbles in order (none, with the placeholder, for an empty history), or exactly one system bubble "Could not load chat history. Please try again."; no sound |
| Chat.NerdChat.SendMessage | chat.js:254-298 | empty trimmed input and no file: nothing at all changes. Otherwise exactly two bubbles are appended, the user's (`UserText` of the trimmed input) and `Resolution`. Typing ends off, the input and picker are cleared, the button is disabled, one request carries the trimmed text and image to the persona's endpoint (none without a persona), and the sounds are `SendSounds` |
| Chat.NerdChat.Submit | chat.js:260-271 | the optimistic half: the user's bubble and outgoing sound, input and picker cleared, typing on, button disabled, and the picked file handed on |
| Chat.NerdChat.Settle | chat.js:273-297 | the request (none without a persona), exactly one `Resolution` bubble, typing off on every path |
| DataUrl.LineEnd | app.py:83 | where `.+` must stop: the first line feed at or after a position, or the end |
| DataUrl.LastCandidate | app.py:83 | the last position in a range where `;base64,` is followed by a non-line-feed character, or none |
| DataUrl.ParseDataUrl | app.py:83-88 | on a match, the MIME group starts with `image/` and has more after it, and the payload is not empty |
| DataUrl.ParseDataUrlSound | app.py:83-88 | the groups returned are a match of the pattern at the start of the string |
| DataUrl.ParseDataUrlGreedy | app.py:83-88 | whenever any match exists the parse succeeds, and its MIME group is the longest possible |
| DataUrl.ParseDataUrlComplete | app.py:83-85 | when the parse fails, no match exists |
| Conversations.RowsOf | app.py:47 | `WHERE user_id = ?`: exactly the user's rows, in table (id) order |
| Conversations.Reverse | app.py:51 | reversal keeps the length |
| Conversations.ReverseAt | app.py:51 | item `i` of the reversal is item `n-1-i` of the input |
| Conversations.Kept | app.py:47-48 | `LIMIT` keeps exactly `min(limit, count)` rows, and all `count` of them for a negative limit |
| Conversations.NewestFirst | app.py:47 | the first `n` rows of the reversed rows are in descending id order, come from the input, and are newer than every row left out |
| Conversations.Query | app.py:47-49 | the query returns as many rows as `LIMIT` keeps |
| Conversations.QueryIsNewestFirst | app.py:47-49 | `ORDER BY id DESC LIMIT`: only the user's rows, in descending id order, and every row of the user left out is older than every row returned |
| Conversations.Entries | app.py:51 | one `{"role", "parts"}` entry per row |
| Conversations.LoadHistory | app.py:46-51 | at most `limit` entries, exactly as many as the limit keeps of the user's rows |
| Conversations.QueryReversed | app.py:49-51 | reversing the query result gives the user's last rows in table order |
| Conversations.LoadHistoryIsMostRecent | app.py:46-51 | `load_history` is exactly the user's most recent rows, oldest first, each as role and a one-part content list |
| Conversations.LoadHistoryFromUserOnly | app.py:46-51 | every entry comes from a row of that user |
| Conversations.ReverseReverse | app.py:49-51 | reversing the first `n` items of a reversal gives the last `n` items in their original order |
| Conversations.ConversationTable.constructor | app.py:31-39 | the new table is empty and the first id is 1 |
| Conversations.ConversationTable.SaveMessage | app.py:41-44 | exactly one row is appended, with a fresh id larger than every earlier one; earlier rows are unchanged |
| ChatRoute.PreparePrompt | app.py:71-96 | 400 "Message or image cannot be empty." exactly when there is neither a message nor an image. 400 "Invalid image data URL format." exactly when the image does not match. Otherwise the prompt carries the message and the image's groups, which are a match |
| ChatRoute.StoredUserContent | app.py:106 | the stored user content is the message, or "[Image Uploaded]" when it is empty |
| ChatRoute.Chat | app.py:64-113 | a refused request saves nothing. A failed model call saves nothing and yields 500 with the generic error. Success yields 200 with the reply, after appending the user row and then the model row, with consecutive fresh ids. The id counter is unchanged on the two failure paths and advances by two on success |
| Auth.AuthRequestFor | auth.js:314-318 | the endpoint is `/auth/signin` exactly when the type is "signin"; the body always carries the email and password, and a registration carries the name too |
| Auth.AuthRequestConsistent | auth.js:315-318 | credentials go to sign-in and a registration goes to sign-up, never the other way |
| Auth.InterpretAuthReply | auth.js:327-337 | success exactly for an ok response, returning its body. A failed response's error message is `data.error` when that is a non-empty string, otherwise "Authentication failed", never empty. A rejected fetch passes its own message through. `verification_required` is set only when the body says so |
| Auth.SignUpCheck | auth.js:175-183 | "Passwords do not match" comes first. A matching password passes exactly when its UTF-16 length is at least 6, and a shorter one gets "Password must be at least 6 characters" |
| Auth.AuthManager.constructor | auth.js:3-26 | no user but the restored one; Google is initialized exactly when the library is loaded, the client id is usable and initialization does not throw; no request, notice or navigation |
| Auth.AuthManager.InitializeAuth | auth.js:11-26 | a saved user is restored; Google Sign-In is initialized only with a usable client id |
| Auth.AuthManager.InitializeGoogleSignIn | auth.js:28-49 | nothing without the library or a client id; otherwise one initialize call, and the flag is set unless it throws |
| Auth.AuthManager.SetGoogleClientId | auth.js:51-66 | the id is stored; within ten attempts, the first one that finds the library initializes Google, and only when the id is usable |
| Auth.AuthManager.ClearMessages | auth.js:113-119 | every notice is hidden |
| Auth.AuthManager.ShowError | auth.js:121-125 | the chosen form's error notice shows the message; nothing else changes |
| Auth.AuthManager.ShowSuccess | auth.js:127-131 | the chosen form's success notice shows the message; nothing else changes |
| Auth.AuthManager.CallAuthApi | auth.js:314-338 | one request, `AuthRequestFor`; the result is `InterpretAuthReply` of the reply |
| Auth.AuthManager.SetCurrentUser | auth.js:340-347 | after `setCurrentUser(user)`, `getCurrentUser()` returns exactly `user`, and `isAuthenticated()` holds exactly when it is not null (`undefined` included) |
| Auth.AuthManager.ShowResendVerificationOption | auth.js:212-241 | the resend link, replacing any earlier one, is offered for that email |
| Auth.AuthManager.HandleEmailSignIn | auth.js:133-164 | one sign-in request. Success sets the user to the reply's user, shows only the success notice and leads to the app page. Failure leaves the user unchanged, shows only the error and offers the resend link exactly when verification is required |
| Auth.AuthManager.HandleEmailSignUp | auth.js:166-210 | a failed local check shows its error and sends nothing. A verification-required reply shows its message, offers the resend link and leaves the user unchanged. Any other success sets the user and leads to the app page. A failure shows the error and leaves the user unchanged |
| Auth.AuthManager.ResendVerificationEmail | auth.js:243-264 | one request; the body's `success` flag picks the success notice or the error (`data.error` or the fallback); a rejected fetch shows the network error |
| Auth.AuthManager.InitiateGoogleSignIn | auth.js:266-283 | without both the initialized flag and a client id: the "not available" error and no prompt. Without the library: the "not loaded" error and no prompt. Otherwise one prompt, and an error if it throws |
| Auth.AuthManager.HandleGoogleSignIn | auth.js:285-312 | one request. An ok reply sets its user, shows success and leads to the app page. Anything else shows one fixed error and leaves the user unchanged |
| Auth.AuthManager.SignOut | auth.js:349-371 | the user becomes null and is no longer authenticated, whether the request fails or not. Auto-select is disabled only when Google was initialized and is loaded. The sign-in page follows |
| Auth.SignInThenSignOut | auth.js:340-375 | on a fresh controller, an ok sign-in sets the reply's user and authenticates exactly when that user is not null; a following sign-out always ends unauthenticated |

## Left out

- DOM work is not modelled:
  - element lookup, and what happens when an element is missing;
  - `innerHTML`, `classList` and `style` updates;
  - scrolling and textarea resizing;
  - the settings modal and the mute icon;
  - the read-receipt and time line of a bubble (locale time formatting);
  - page transitions, including `goBackToHome`, which resets the persona after a timer.
- The browser's HTML parser is not modelled. It may move a `<pre>` out of the enclosing `<p>`; the model stops at the markup string.
- Whether `#initialMessage` survives `innerHTML = ''` is not modelled. The placeholder is a flag kept in step with the view.
- Timers are not modelled: the 700 ms animated clear, the 500 ms waits between `setGoogleClientId` attempts, and the delayed redirects (recorded as a navigation when they are scheduled).
- Text.Trim and Text.Utf16Length: a JavaScript string may hold an unpaired surrogate, which a Dafny `char` cannot represent, so such input is outside the model.
- Concurrency is not modelled. Each async method runs to completion before the next event, so overlapping sends and overlapping history loads are not modelled.
- `localStorage` is not modelled. The saved mute flag and the restored user enter as parameters, and their text encoding is not modelled. That includes `JSON.stringify(undefined)`, which is not JSON text and makes the later `JSON.parse` throw.
- `FileReader` is not modelled. The picked file enters as the data URL it reads as, and a read error, which the source lets escape before its `try`, is not modelled.
- Audio playback is not modelled. A played sound is recorded by id; whether the audio element exists and whether `play()` fails are not.
- JSON values of unexpected types are not modelled: a non-string `reply`, `error` or `message`, a non-array `history`, or a non-boolean flag. Fields are strings, optional strings or booleans.
- HTTP transport is not modelled, nor the server routes `/history`, `/clear_history` and `/auth/*`. None of them is implemented in app.py.
- The Google Identity Services library is not modelled. Its presence and whether its calls throw enter as parameters, and the credential callback is `HandleGoogleSignIn`.
- Server-side, the following are not modelled:
  - the Gemini call (a function parameter whose `None` stands for an exception);
  - SQLite I/O errors and the connection and commit mechanics;
  - the random session id, which enters as `freshId`;
  - Flask request parsing, with `message` and `image_data` taken as already-read fields.
- models.js is not part of this model. Its personas enter as `Persona` values.
- Conversations.Reverse: its contract gives only the length. The position of each element is stated by `ReverseAt`, to keep proofs small.
- Conversations.Query: its contract gives only the size. The ordering and "left-out rows are older" facts are stated by `QueryIsNewestFirst`, to keep proofs small.
