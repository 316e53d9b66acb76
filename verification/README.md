# gptMisis chat relay — a Dafny model of its generation client and conversation store

The bot relays Telegram text messages to a remote generation API. Two pieces
of logic sit between the network calls and are modelled here:

- `generate_text` (gpt.py): submit a prompt, read the job's `request_id`, poll
  the status endpoint at most `max_retries` times, stop on `failed` or on
  `success`, and on `success` pull the answer out of the body through an
  ordered fallback chain (`result`, then `full_response[0].message.content`,
  then `output`, then the whole body as a string). Every exception becomes a
  reply string.
- The per-user conversation store `user_contexts` (bot.py), changed in place
  by `/clear` and by every text message: create-if-absent, append the user's
  line, join the context into the prompt, append the answer, keep the last 20
  lines.

Files:

- `json.dfy` — module `JsonValues`: parsed JSON values and the Python
  operations the client applies to them (truthiness, `dict.get`, `in` on a
  string).
- `gpt.dfy` — module `Gpt`. The network is an input: `submit` is the outcome
  of the POST, `poll(k)` the outcome of the k-th status GET, each a parsed
  body or the exception `requests` raised. `Generate`/`PollFrom` are the
  specification functions, `GenerateText` the loop as the source runs it,
  proved equal to `Generate`. The returned strings are the variants of
  `Reply`; `ReplyText` maps them to the literal texts.
- `bot.dfy` — module `Bot`: class `ContextStore` with the dictionary as a
  `map<UserId, seq<string>>` field and the handlers as methods. The call to
  `generate_text` is a function parameter `generate`. A ghost field
  `transcripts` holds every line a user's context received since it was
  created or cleared; the class invariant says each stored context is the
  last 20 lines of it.

Behaviour of the code worth noting:

- An exception while extracting the answer returns the "error processing
  response" text (gpt.py:76-77). It does not fall back to the raw body.
- A success answer can be empty or not a string at all: `result: [""]` returns
  `""`, and `result: [{...}]` returns the dict (gpt.py:58-59). It is not always
  non-empty text.
- The comment at bot.py:53 speaks of 10 messages. The code keeps 20 lines
  (bot.py:54-55).

## Model

| member | source | states |
|---|---|---|
| `JsonValues.Truthy` | gpt.py:41 | Python's `if x:` on a parsed value: false exactly for `None`, `False`, `0`, `""`, `[]` and `{}` |
| `JsonValues.HasSubstring` | gpt.py:65 | `"content" in s` on a str: only possible when the part fits, always true of the empty part; `SubstringAt` and `SubstringWitness` prove it equals "occurs at some position" |
| `JsonValues.SubstringAt` | gpt.py:65 | an occurrence of the part at any position makes the `in` test true |
| `JsonValues.SubstringWitness` | gpt.py:65 | when the `in` test is true, the part occurs at a position it returns |
| `Gpt.MessageContent` | gpt.py:64-66 | content is found exactly when `full_response[0]` is a dict whose `message` is a dict holding `content`, and then it is that value; a non-dict entry raises; otherwise it raises exactly for a truthy number/bool, a list holding "content" or a str containing "content" |
| `Gpt.MessageContentByType` | gpt.py:64-66 | for every str, list, number and bool `message`: which ones are skipped, which raise on indexing and which raise on `in`; every falsy `message` is skipped |
| `Gpt.Extract` | gpt.py:55-77 | the success body yields an answer, an extraction failure or the raw body, and the raw body exactly when all three fields miss (see the lemmas below for the order) |
| `Gpt.ReplyText` | gpt.py:42-86 | every error reply becomes non-empty text; a string answer is returned verbatim |
| `Gpt.FirstHit` | gpt.py:56-74 | reference chain of strategies: the result is an answer, an extraction failure, or the raw body, and it is the raw body when every strategy misses |
| `Gpt.ExtractIsOrderedChain` | gpt.py:56-74 | the source's nested extraction equals the ordered chain result → full_response → output → raw body |
| `Gpt.ResultFieldWins` | gpt.py:57-59 | a non-empty `result` list gives its first element, whatever `full_response` or `output` hold |
| `Gpt.FullResponseComesSecond` | gpt.py:62-66 | without a usable `result`, `full_response[0].message.content` is returned, even when `output` is present |
| `Gpt.OutputThenRawBody` | gpt.py:69-74 | when the first two steps find nothing, a truthy `output` is returned verbatim, otherwise the whole body |
| `Gpt.ExtractionFailsOnlyInFullResponse` | gpt.py:55-77 | an extraction exception happens exactly when `result` misses and probing `full_response[0]` raises, and its fault is reported |
| `Gpt.StringMessageMentioningContentFails` | gpt.py:62-77 | for every string `message` with "content" at some position, the whole extraction fails with the indexing error |
| `Gpt.Examine` | gpt.py:51-81 | one attempt continues exactly when the body is a dict whose status is neither "success" nor "failed"; "failed" stops with the not-completed reply, "success" with the extraction, a non-dict body with an error |
| `Gpt.PollFrom` | gpt.py:45-83 | the loop makes at most the budgeted number of GETs; it times out exactly when every remaining poll is pending, and then it has made all of them |
| `Gpt.Generate` | gpt.py:32-86 | a raising POST, or a submit body that is not a dict, gives the generic error with no poll; at most `max_retries` polls; no poll without an accepted request; the missing-id reply comes exactly when the submit body is a dict without a truthy `request_id` |
| `Gpt.GenerateText` | gpt.py:5-86 | the imperative loop with early returns gives the same reply and poll count as `Generate` |
| `Gpt.NoRequestIdNoPolls` | gpt.py:38-42 | without a truthy `request_id` the reply is the missing-id message and no status request is made |
| `Gpt.TimeoutIffAllPending` | gpt.py:45-83 | the call times out if and only if all `max_retries` polls are pending, and then exactly `max_retries` polls were made |
| `Gpt.DefaultBudgetTimesOutAfterFifteen` | gpt.py:5 | with the default `max_retries` of 15, a job pending on every poll times out after exactly 15 status requests |
| `Gpt.FirstTerminalFrom` | gpt.py:45-81 | after pending polls, the first non-pending poll decides the loop's result after one more request |
| `Gpt.FirstTerminalPollDecides` | gpt.py:45-80 | the first poll that is not pending ends the call after exactly k+1 requests: "failed" → not completed, "success" → extraction, HTTP error → error reply |
| `Gpt.PendingTwiceThenSuccess` | gpt.py:45-59 | processing, starting, success with `result: ["A"]` and a budget of at least 3 answer "A" after exactly 3 polls |
| `Bot.JoinShape` | bot.py:42 | `"\n".join` gives "" for no lines, otherwise starts with the first line and has all their characters plus one separator between each two |
| `Bot.JoinSnoc` | bot.py:42 | joining a list with one more line appends a newline and that line (the line alone for an empty list) |
| `Bot.PromptEndsWithLastLine` | bot.py:39-42 | the prompt ends with the new user line, preceded by a newline when there was earlier context |
| `Bot.Window` | bot.py:54-55 | trimming keeps min(n, 20) lines |
| `Bot.WindowIsSuffix` | bot.py:54-55 | the lines trimming keeps are the newest ones, in their order |
| `Bot.WindowOfWindow` | bot.py:51-55 | trimming after every exchange equals trimming the whole history once: the oldest lines are evicted first |
| `Bot.ExchangeKeepsNewest` | bot.py:39-55 | one exchange on a context of L lines leaves min(L+2, 20) lines ending with the user line then the assistant line, a suffix of old context plus the two lines |
| `Bot.ExchangeKeepsConsistent` | bot.py:35-55 | an exchange keeps every stored context equal to the last 20 lines of its user's transcript |
| `Bot.ConsistentIsBounded` | bot.py:54-55 | no stored context holds more than 20 lines |
| `Bot.ContextStore.constructor` | bot.py:10 | the store starts empty |
| `Bot.ContextStore.HandleClear` | bot.py:21-27 | an existing user's context becomes empty and its history restarts; an absent user gets no entry; no other user's context or history changes |
| `Bot.ContextStore.HandleText` | bot.py:29-58 | the prompt is the join of the old context plus the user line; the context becomes the last 20 lines of old context + user line + assistant line; only that user's entry changes |

## Left out

- HTTP requests, headers, URLs and configuration (gpt.py:1-3, 18-21, 34, 47-48): the network is the input `submit`/`poll`. The status URL built from `request_id` is not modelled; `poll(k)` is the answer for the issued id.
- `time.sleep(delay)` (gpt.py:46): only the attempt count matters. A negative `delay` would raise `ValueError` on the first attempt; the bot always uses the default of 1, so this is not modelled.
- The request body's `temperature` and `max_tokens` (gpt.py:24-30): constant payload that the logic never reads.
- The exact text of `str(e)` and `str(status_data)`: they are the parameters `explain` and `show` of `ReplyText`.
- JSON decoding: a body that is not JSON counts as a raised exception of the exchange. Python's distinction between `int` and `float` is not kept; numbers are reals.
- All telebot calls (`TeleBot`, `reply_to`, `send_chat_action`, `polling`) and the `/start` and `/help` text: chat platform I/O.
- Concurrent handlers: the store is modelled single-writer.
- `Bot.ContextStore.HandleText`: assumes every telebot call returns. If `send_chat_action` (bot.py:45) raised, the handler would stop with the user line stored, no assistant line and no trimming, so a full context would hold 21 lines; the invariant, the 20-line bound and the "user line then assistant line" ending do not cover that run.
- `Bot.ContextStore.HandleText`: the list under the user's key is mutated in place by the appends; the model keeps it in a local and writes it back after the user line and after trimming, which is the same as long as nothing else reads the dictionary during the call.
- `Gpt.ReplyText`: says nothing about the text of a non-string answer or of the raw body, since those come from Python's `str()`.
