# InChatSight popup and WhatsApp scraper, modelled in Dafny

InChatSight is a browser extension that lets a user ask a language model
about the chat open in the current tab. This project models its two pieces of
real logic and proves properties of them.

- **The content script** (`content.js`) reads every chat row of WhatsApp Web
  into a message record `{direction, author, timestamp, text}` and answers the
  popup's `getChatMessages` request with the list. The row header
  `data-pre-plain-text` is parsed with `^\[(.+?)\]\s*(.*?):\s*$`. The model
  gives a functional matcher for that expression, and proves that it matches
  exactly when the expression matches. It also proves that the matcher
  reports the groups a backtracking engine reports: the shortest group 1,
  then the longest leading `\s*`.
- **The popup** (`popup/popup.js`) turns scraped messages into prompt lines
  (`formatChatForAI`, `formatDate`, `formatTime`) and names the chat partner
  (`getChatPartner`). It picks the model once, when the script loads. It draws
  message bubbles (right-to-left detection, newlines to `<br>` for user
  bubbles). It keeps the conversation sent to the model: `handleUserMessage`
  appends a context entry, the user's message and the answer, or stops early
  with a notice.

The model has six files:

- `js_string.dfy` (module `JsString`) holds the JavaScript string semantics
  the code relies on:
  - `trim`, with ECMAScript's whitespace and line-terminator set;
  - `includes`, `split` and `join` with a one-character separator;
  - ASCII case mapping;
  - `parseInt`: leading whitespace, sign, `0x` prefix, longest digit run, NaN;
  - number-to-string.
- `chat_message.dfy` holds the scraped message record.
- `content_script.dfy` (module `ContentScript`) holds the regular expression
  and the row scraper.
- `transcript.dfy` (module `Transcript`) holds the formatting helpers and
  `getChatPartner`.
- `popup.dfy` (module `Popup`) holds the model default, the bubbles, the turn
  logic and a `Popup` class. The class has the module-level `messages` array
  (`history`), the chat window (`window`) and the model fixed at load
  (`model`).

The browser is replaced by inputs:

- The active tab's URL is an `Option<string>`: `None` when there is no
  active tab or it has no URL. `getCurrentTabUrl` rejects on `None` and on
  the empty URL (`NoTabUrl`).
- The content-script round trip is a `ScrapeOutcome`, or the page's rows for
  `GetChatMessagesFromContentScript`.
- The completion request is a `Completion`:
  - `Replied(content)`;
  - `NoMessage`, when there is no first choice or it has no message;
  - `RequestFailed`, when anything on the way throws.

Some consequences of the code, all modelled:

- Every message that mentions the chat scrapes again and pushes a new context
  entry.
- The keyword test looks for "chat" and "messages".
- Notices are drawn but never enter the conversation.
- The "Typing..." bubble stays in the window, and the answer is drawn after
  it.
- The conversation lives only in the popup's memory.
- `formatDate` validates nothing: `99/13/2024` prints as `99 undefined 2024`
  (`FormatDateMonthOffTable`).
- A message field that holds a newline spreads its prompt line over several
  lines. One-line-per-message (`FormatChatForAILines`) is therefore stated for
  messages whose fields hold no newline.

## Model

| member | source | states |
|---|---|---|
| ContentScript.MatchHeaderCorrect | content.js:16 | `MatchHeader` (the `match` call): the header matcher succeeds exactly when `^\[(.+?)\]\s*(.*?):\s*$` matches. Its groups are those of the backtracking split: the shortest non-empty group 1 followed by `]`, then the longest leading whitespace, with the colon as the last non-whitespace character. |
| ContentScript.MatchFromCorrect | content.js:16 | `MatchFrom`: trying group-1 lengths from `n` upward finds a match exactly when one with group 1 of at least `n` characters exists. The reported group 1 has at least `n` characters, and the split is the best such one. |
| ContentScript.ReadContainerCorrect | content.js:9-18 | `ReadContainer` (one row's record): direction is outgoing exactly when `.message-out` is present. Text is the span's text or `''`. A matching header gives groups 1 and 2 as timestamp and author. A missing or non-matching header gives timestamp `''` and author `You` (outgoing) or `''` (incoming). |
| ContentScript.MessagesOfRow | content.js:6-20 | `Messages` (the rows' records): a row without a `[data-id]` container yields no message. A row with one yields exactly the message read from that container. |
| ContentScript.MessagesAppend | content.js:5-21 | `Messages`: scraping distributes over concatenation of rows: messages come out in row order, each row read independently. |
| ContentScript.GrabWhatsAppMessages | content.js:1-23 | The loop over the rows returns exactly `Messages(rows)`: one message per row with a container, in row order. |
| ContentScript.OnMessage | content.js:25-29 | The listener answers exactly the requests whose action is `getChatMessages`, and the answer carries the scraped messages. |
| JsString.TrimIsSlice | popup/popup.js:221 | `Trim` (`trim`): `trim` returns a contiguous slice of its input with only whitespace cut on either side, and its result neither starts nor ends with whitespace. |
| JsString.TrimIdempotent | popup/popup.js:221 | `Trim` (`trim`): trimming twice is trimming once. |
| JsString.ContainsIff | popup/popup.js:163 | `Contains` (`includes`): `includes` holds exactly when the substring occurs at some index. |
| JsString.ToUpperCase | popup/popup.js:96 | Upper-casing keeps the length and maps every character through the ASCII upper-case mapping. |
| JsString.ToLowerCase | popup/popup.js:165 | Lower-casing keeps the length and maps every character through the ASCII lower-case mapping. |
| JsString.IndexOf | popup/popup.js:76 | The first occurrence of a character: `None` exactly when it is absent, otherwise an index holding it with no earlier occurrence. |
| JsString.Split | popup/popup.js:76 | `split` returns at least one piece, and exactly one when the separator does not occur. |
| JsString.SplitJoin | popup/popup.js:86 | `Split` and `Join` (`split`, `join`): joining separator-free pieces with the separator and splitting again gives the pieces back. |
| JsString.JoinSplit | popup/popup.js:81 | `Split` and `Join` (`split`, `join`): splitting on a character and joining with it gives the string back. |
| JsString.SplitPiecesOmitSeparator | popup/popup.js:76 | No piece of a split contains the separator. |
| JsString.ParseIntDigits | popup/popup.js:91 | `ParseInt` (`parseInt`): `parseInt` of a non-empty decimal digit string is the numeral's value. |
| JsString.ParseIntNatToString | popup/popup.js:91 | `ParseInt` and `NatToString` (`parseInt`, `${n}`): `parseInt` of a printed natural number gives the number back. |
| JsString.NatToStringValue | popup/popup.js:91 | The decimal numeral of `n` has value `n`. |
| Transcript.FormatDateDigits | popup/popup.js:84-92 | `FormatDate` (`formatDate`): for digit-string day and month and a year without `/`, the result is the day's value, the month's name (or `undefined` outside 1..12) and the year, separated by spaces. |
| Transcript.FormatDateExample | popup/popup.js:84-92 | `FormatDate` (`formatDate`): `15/06/2024` prints as `15 June 2024`. |
| Transcript.FormatDateMonthOffTable | popup/popup.js:91 | `FormatDate` (`formatDate`): `99/13/2024` prints as `99 undefined 2024`: nothing is validated. |
| Transcript.FormatTimeUpper | popup/popup.js:94-97 | `FormatTime` (`formatTime`): the time keeps its length, has no lower-case ASCII letter left, keeps every other character, and upper-casing again changes nothing. |
| Transcript.FormatLineFallback | popup/popup.js:70-72 | `FormatLine` (one line of `formatChatForAI`): without a timestamp, or with one that has no comma, the line is `author: text`, with `Unknown` and `[No text provided]` for empty fields. |
| Transcript.FormatLineStamped | popup/popup.js:75-80 | `FormatLine` (one line of `formatChatForAI`): with a comma in the timestamp, the line is `author [date, TIME]: text`. The time is the trimmed text before the first comma. The date is the trimmed text between the first comma and the next comma or the end. |
| Transcript.FormatLineSingleLine | popup/popup.js:68-80 | `FormatLine`: a message whose fields hold no newline gives a line without a newline. |
| Transcript.FormatChatForAILines | popup/popup.js:68-82 | `FormatChatForAI` (`formatChatForAI`): for a non-empty chat whose fields hold no newline, splitting the transcript at newlines gives exactly one line per message, in message order. |
| Transcript.IncomingAuthors | popup/popup.js:100-104 | An author is collected exactly when some incoming message with a non-empty author has it. |
| Transcript.Distinct | popup/popup.js:100-106 | Deduplication keeps exactly the same set of names and repeats none. |
| Transcript.DistinctFirstSeenOrder | popup/popup.js:100-106 | Deduplicated names are in the order of their first appearance. |
| Transcript.ParticipantsCorrect | popup/popup.js:99-106 | `Participants` (the `Set` in `getChatPartner`): the participants are exactly the authors of incoming messages with a non-empty author, none repeated, in first-seen order. |
| Transcript.GetChatPartnerNobody | popup/popup.js:107 | `GetChatPartner` (`getChatPartner`): with no named incoming message the partner is `Unknown`. |
| Transcript.GetChatPartnerOne | popup/popup.js:108 | `GetChatPartner` (`getChatPartner`): when all named incoming messages share one author, the partner is that author. |
| Transcript.GetChatPartnerGroup | popup/popup.js:109 | `GetChatPartner` (`getChatPartner`): two different named incoming authors give `Group Chat: ` followed by the participants joined by `, `, and there are at least two. |
| Transcript.GetChatPartnerIgnores | popup/popup.js:102 | `GetChatPartner` (`getChatPartner`): appending an outgoing message, or one with an empty author, never changes the partner. |
| Transcript.GetChatPartnerRepeat | popup/popup.js:100-106 | `GetChatPartner` (`getChatPartner`): appending a message from an author already seen never changes the partner. |
| Popup.ModelFor | popup/popup.js:42 | The model is never the placeholder. It is the default when the label trims to `Select a model`, and the trimmed label otherwise. |
| Popup.ModelForTrimmed | popup/popup.js:42 | The chosen model never has surrounding whitespace. |
| Popup.BreakLines | popup/popup.js:151 | The HTML of a user bubble holds no newline. |
| Popup.BreakLinesJoinsLines | popup/popup.js:151 | `BreakLines` (the newline replacement in `appendMessage`): replacing every newline by `<br>` equals splitting at newlines and joining with `<br>`. |
| Popup.MakeBubbleBody | popup/popup.js:135-152 | `MakeBubble` and `IsRtl` (`appendMessage` and its RTL test): a bubble's direction is right-to-left exactly when the content holds an Arabic-block character. An AI bubble carries the markdown as given. A user bubble carries its lines joined by `<br>`. |
| Popup.GetChatMessagesFromContentScript | popup/popup.js:45-57 | Asking the active tab's content script yields exactly the messages of its rows. With no tab or no answer, it yields a failure. |
| Popup.MentionsChatIff | popup/popup.js:165 | `MentionsChat` (the keyword test): the keyword test holds exactly when `chat` or `messages` occurs in the lower-cased message. |
| Popup.MentionsChatIgnoresCase | popup/popup.js:165 | `MentionsChat` (the keyword test): two messages that agree up to ASCII letter case pass or fail the keyword test together. |
| Popup.RecordedAnswer | popup/popup.js:210-217 | `Recorded` and `AnswerText`: an answer is recorded exactly when the request did not fail. The recorded answer is the text shown, non-empty and without surrounding whitespace. |
| Popup.AdmitAbandons | popup/popup.js:160-163 | `Admit` (the checks before the request): a turn is abandoned, with nothing drawn or recorded, exactly when the tab has no URL or an empty one. |
| Popup.AdmitStops | popup/popup.js:165-187 | `Admit` with `IsSupportedPlatform` and `MentionsChat`: a turn stops with a notice exactly when the tab URL is non-empty, the message mentions the chat, and the platform is unsupported or the scrape failed or came back empty. The unsupported-platform and retrieval-failure notices each appear exactly in their case. |
| Popup.AdmitContext | popup/popup.js:172-183 | `Admit`: an admitted turn adds context exactly when the message mentions the chat. The context is then one system entry, `Here is the chat history:` and the formatted non-empty scrape from a supported platform. |
| Popup.AdmitIgnoresScrape | popup/popup.js:165-190 | `Admit`: a message that does not mention the chat goes through with no context, whatever the platform or scrape, unless the URL is empty. |
| Popup.TurnKeepsWellFormed | popup/popup.js:114-218 | `TurnHistory` (the conversation after a turn) with `WellFormed`: every turn keeps the conversation well formed. It starts with a system entry. Each later system entry is chat context directly followed by its user message. Each answer directly follows a user message. |
| Popup.TurnRequestIsHistoryPrefix | popup/popup.js:179-214 | `TurnHistory` and `TurnRequest`: the conversation only grows, and only on admitted turns. A request is posted exactly on admitted turns. It carries the model, 1000 tokens and the conversation ending with the user's message. The conversation afterwards is that request's messages plus the recorded answer. |
| Popup.Popup.constructor | popup/popup.js:114-129 | At load, the conversation is the system prompt alone, the window is empty, and the model is fixed from the dropdown's label. |
| Popup.Popup.AppendMessage | popup/popup.js:135-157 | Drawing a message appends its bubble to the window and leaves the conversation alone. |
| Popup.Popup.HandleUserMessage | popup/popup.js:160-218 | The new conversation, window and posted request are those of the admitted, stopped or abandoned turn. The conversation stays well formed and keeps its first entry, the system prompt. |
| Popup.Popup.Ask | popup/popup.js:190-217 | The user's message is recorded, "Typing..." and the answer are drawn, and the conversation up to the message is posted. |
| Popup.Popup.Send | popup/popup.js:220-228 | Blank input does nothing. Otherwise the trimmed input is drawn as the user's bubble and handled as a turn. The conversation stays well formed and keeps its first entry. |

## Left out

- The custom dropdown widget (popup/popup.js:1-28) is DOM event wiring. Since the model is read once at load (line 42), later choices in the dropdown have no effect, and the model has no operation for them.
- If `.selected-option` is missing at load, line 42 throws. `ModelFor` takes the label's text and does not model that case.
- Loading the API key and opening the options page (popup/popup.js:32-39) are browser storage calls. The `Authorization` header is not modelled.
- Popup.Popup.HandleUserMessage: turns are atomic in the model. The code's send handler is `async` and the send button stays enabled, so a second send during `getCurrentTabUrl`, the scrape or `fetch` starts an overlapping turn, and both push into `messages` (for example system, user, user, answer, answer). `WellFormed` is proved only for turns run one at a time.
- Tab queries, runtime messaging and `fetch` with JSON decoding are replaced by the inputs described above.
- The float `temperature: 0.7` is not part of `Request`. The endpoint URL is not modelled: the request is described by its body.
- Markdown rendering (`marked.parse`) is not modelled: an AI bubble keeps the markdown source. Element classes, painting and scrolling are not modelled either.
- Clearing the input box after sending (popup/popup.js:225) is not modelled: the input box is not part of the state.
- The unhandled rejection when the tab has no URL or an empty one is modelled as an abandoned turn that changes nothing.
- The `console.warn` for a missing timestamp (popup/popup.js:71) is output only and is not modelled.
- JsString.ToUpperCase: only ASCII letters are upper-cased, so `formatTime` of non-ASCII letters (such as `é` or `ß`) is weaker than JavaScript's full Unicode mapping.
- JsString.ToLowerCase: only ASCII letters are lower-cased. The keyword test stays exact, because no non-ASCII character lower-cases into the letters of `chat` or `messages`.
- JsString.ParseInt: results are exact integers. JavaScript loses precision above 2^53 and prints very large numbers in exponent notation; neither is modelled.
- Strings are sequences of Unicode scalar values, not UTF-16 code units. No modelled string check (includes, the regular expression, trim) depends on astral characters.
- Message fields that are neither strings nor absent are not modelled: `author` and `text` are strings, and a non-string timestamp is `None`.
- The listener's odd return value (content.js:30) only governs the asynchronous reply channel and is not modelled.
- setup/setup.js, background.js and setup/background.js are storage, tab and install glue, and are not part of this model.
