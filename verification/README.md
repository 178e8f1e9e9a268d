# Gaming assistant: context assembly and conversation ledger

A Dafny model of the stateful core of a small chat server for gamers. The
model has two parts:

- **The assistant** (`assistant.py`), module `GamingAssistant`:
  - the readiness guard (`is_ready`);
  - the role-tagged message list that `get_response` builds for the completion
    provider: the system prompt, an optional topic note, the last five stored
    exchanges, then the new user message;
  - the translation of provider failures into apology texts;
  - the two canned prompts (`get_game_tips`, `analyze_situation`).
- **The conversation ledger** (`app.py`), module `ChatServer`. This is the
  in-process map from session id to the turns recorded for it, together with
  the `chat`, `get_history`, `clear_history` and `get_stats` handlers. Each
  handler is reduced to what it does to the ledger and what it answers.

Three supporting modules model the Python built-ins the core relies on:

- `Text`:
  - `str.strip()`, using Python's full `isspace` set;
  - `str.lower()`, on ASCII letters only;
  - the substring test `p in s`.
- `Seqs`: the slice `s[-n:]`.
- `Wrappers`: `dict.get(key, default)`, as `Option.GetOr`.

How the outside world is represented:

- **The completion provider** is a parameter. It is a total function from the
  message list to either generated content or the text of the exception it
  raised. `GetResponse` records in `Reply.sent` the list it handed over, and
  `None` when it made no call.
- **The timestamp** of a recorded turn is an opaque string parameter `now`.
- **The system prompt** is a field of `Config`.

Three behaviours of the code worth stating plainly:

- **Not configured.** With no usable credential, `get_response` returns its
  own fixed "not configured" text (`NotConfiguredText`), distinct from the
  key-error text; `ErrorTextInjective` proves the two differ.
- **Topic note.** A topic other than `""` and `"general"` always adds a topic
  note as the second system message, so a first question about "Valorant"
  is sent as three messages (`FirstQuestionWithTopic`).
- **No long-term memory.** The message list holds only the system prompt,
  the topic note if any, the recent history and the new message; no stored facts
  about the user are sent.

## Model

| member | source | states |
|---|---|---|
| GamingAssistant.IsReady | assistant.py:58-60 | Ready exactly when the client was built and the key is non-empty (a Python string is true iff it has a character). |
| GamingAssistant.GetResponse | assistant.py:74-123 | Nothing is sent exactly when the assistant is not ready (client not built or empty key), and then the reply is the fixed not-configured text. Otherwise the assembled list is sent once; a completion is returned stripped, and a failure is returned as the text of its classified kind. |
| GamingAssistant.Assemble | assistant.py:79-96 | The number of messages sent is 1 + (1 if there is a topic) + 2·min(5, turns stored) + 1. |
| GamingAssistant.AssembleAt | assistant.py:79-96 | Each position of the list holds a preamble message, a message of the re-sent exchanges, or (last) the new user message. |
| GamingAssistant.AssembleEnds | assistant.py:79-96 | The list opens with the system prompt. The second message is a system message iff the topic is non-empty and not "general", and it is then the topic note naming the game. The last message is the new user message. |
| GamingAssistant.AssembleSystemFirst | assistant.py:79-96 | A message is a system message iff it comes before the history: every message before the history is one, and none after is. |
| GamingAssistant.AssembleExchange | assistant.py:89-93 | The i-th re-sent turn sits right after the system messages at offset 2i: its user text, then its assistant text. |
| GamingAssistant.AssembleHistory | assistant.py:88-93 | The last min(5, n) stored turns follow the system messages in chronological order, each as a user message then an assistant message. |
| GamingAssistant.RecentHistory | assistant.py:89-90 | The re-sent turns are the last min(5, n) stored turns, in their stored order. |
| GamingAssistant.ExchangeMessages | assistant.py:91-93 | Turns become twice as many messages: each turn gives its user message then its assistant message, at positions 2i and 2i+1, and none of them is a system message. |
| GamingAssistant.ExchangeMessagesAppend | assistant.py:91-93 | Adding one more turn adds exactly its two messages at the end. |
| GamingAssistant.AppendExchanges | assistant.py:89-93 | The history loop appends, for each turn in order, its user message then its assistant message, after whatever was there: the result is the prefix followed by the exchange messages of the turns. |
| GamingAssistant.BuildMessages | assistant.py:79-96 | Appending message by message (system prompt, topic note when the game is non-empty and not "general", each recent exchange when there is any history, then the user message) yields the assembled list. |
| GamingAssistant.FirstQuestionWithTopic | assistant.py:79-96 | When the assistant is ready, a first question under topic "Valorant" sends exactly: the system prompt, the note naming Valorant, the question. |
| GamingAssistant.Classify | assistant.py:111-123 | The generic kind carries the exception text unchanged (not lowercased). The priority order is stated by the four lemmas below, against an independent definition of "occurs in". |
| GamingAssistant.ClassifyKeyError | assistant.py:111-117 | A failure is a key error iff "api_key" occurs anywhere in its lowercased text. |
| GamingAssistant.ClassifyRateLimited | assistant.py:116-119 | A failure is reported as rate limiting iff "rate_limit" occurs in the lowercased text and "api_key" does not. |
| GamingAssistant.ClassifyTimeout | assistant.py:116-121 | A failure is a timeout iff "timeout" occurs in the lowercased text and neither "api_key" nor "rate_limit" does. |
| GamingAssistant.ClassifyOther | assistant.py:111-123 | A failure falls through to the generic kind iff none of the three markers occurs in the lowercased text; that kind carries the original, un-lowercased text. |
| GamingAssistant.ErrorText | assistant.py:117-123 | The key-error and generic texts open with a cross mark, the rate-limit text with an hourglass, the timeout text with a stopwatch; the generic text is "Error: " after the mark followed by the exception text, which can be read back from it. |
| GamingAssistant.ErrorTextInjective | assistant.py:111-123 | Distinct failure kinds give distinct reply texts, and none of them is the not-configured text. |
| GamingAssistant.GameTipsPrompt | assistant.py:127 | The tips prompt mentions the game. |
| GamingAssistant.SituationPrompt | assistant.py:132 | The situation prompt mentions both the game and the situation. |
| GamingAssistant.GetGameTips | assistant.py:125-128 | Sent only when ready, otherwise the reply is the not-configured text. The tips prompt is sent under the game as topic and with no history, so 3 messages with a topic and 2 without; the system prompt comes first and the topic note second. The reply is the provider's content stripped, or the text of the classified failure. |
| GamingAssistant.AnalyzeSituation | assistant.py:130-133 | Sent only when ready, otherwise the reply is the not-configured text. The situation prompt is sent under the game as topic and with no history, so 3 messages with a topic and 2 without; the system prompt comes first and the topic note second. The reply is the provider's content stripped, or the text of the classified failure. |
| ChatServer.Chat | app.py:34-64 | A request is rejected with "Message cannot be empty" iff its message, missing counting as empty, is all whitespace. A rejected request leaves the ledger unchanged. |
| ChatServer.ChatAccepts | app.py:36-60 | A non-blank message is stripped, takes the defaults "general" and "default", and is answered from the session's turns as they were BEFORE this request. The message list is sent iff the assistant is ready. The turn is then recorded with that reply. |
| ChatServer.Accept | app.py:43-64 | The session exists afterwards (created if unseen), and no other session is added or changed. The new length is min(old + 1, 20). The last turn holds the message, the reply, the time and the topic. The kept turns are the last ones of old ++ [new turn]. |
| ChatServer.Record | app.py:55-64 | Append then trim to 20: the length is min(n + 1, 20), the new turn is last, and the result is a suffix of the old turns plus the new one. |
| ChatServer.ReplayKeepsLast | app.py:55-64 | Trimming to 20 after every append keeps exactly the last 20 of everything ever recorded. |
| ChatServer.ReplayFresh | app.py:44-64 | A session that starts empty holds the most recent 20 of all the turns recorded in it, in order. |
| ChatServer.TwentyFiveTurns | app.py:63-64 | After 25 turns in a fresh session, turns 6 to 25 remain, and turn 6 is the oldest. |
| ChatServer.ChatKeepsBound | app.py:62-64 | If no session held more than 20 turns before a chat, none does after it. |
| ChatServer.AcceptCommutes | app.py:43-64 | Answers recorded in two different sessions give the same ledger in either order. |
| ChatServer.GetHistory | app.py:80-85 | A known session's turns; an unknown session gives no turns. |
| ChatServer.HistoryAfterChat | app.py:36-85 | After a chat, the history handler shows the same turns for a blank message, and otherwise the turns from before the request with the new turn recorded (oldest dropped beyond 20). |
| ChatServer.Clear | app.py:88-97 | No session is added or removed. The named session has no turns afterwards, and every other session is unchanged. |
| ChatServer.ClearIdempotent | app.py:93-94 | Clearing twice is clearing once, and clearing an unknown session changes nothing. |
| ChatServer.ClearKeepsBound | app.py:93-94 | If every session held at most 20 turns, every session still does after a clear. |
| ChatServer.StatsAfterClear | app.py:88-112 | After a clear, the session reports 0 turns, no topics and an empty history. |
| ChatServer.GamesOf | app.py:108 | The topics of a list of turns: every turn's topic is in it, and everything in it is some turn's topic. |
| ChatServer.GetStats | app.py:100-112 | The echoed session id, the number of stored turns, and exactly the set of topics those turns were asked under. An unknown session gives 0 and the empty set. |
| ChatServer.StatsAfterAccept | app.py:55-112 | After an answered message, the stats count min(old + 1, 20) turns and include the topic it was asked under. |
| Text.Strip | assistant.py:109 | Empty iff the input is all whitespace; a non-empty result neither starts nor ends with whitespace. |
| Text.StripIsInfix | app.py:36 | The stripped text is one contiguous piece of the input, with only whitespace before and after it. |
| Text.StripIdempotent | app.py:36 | Stripping twice is stripping once. |
| Text.Lower | assistant.py:116 | Same length; each ASCII capital becomes its small letter, and every other character is kept. |
| Text.ContainsIffSubstring | assistant.py:116-120 | The `in` scan succeeds iff the pattern occurs at some position of the text. |
| Seqs.LastN | assistant.py:90 | `s[-n:]`: min(n, length of s) elements, the last ones of `s`, in order. |
| Seqs.LastNAppend | app.py:55-64 | Trimming before an append loses nothing that trimming after it would have kept. |

## Left out

- The HTTP layer (Flask routing and JSON framing), the index page, the health
  endpoint and the browser script: only the handlers' effect on the ledger and
  their answer are modelled.
- The `chat` handler's exception path (the 500 answer): a JSON body that is
  not an object, or a `message` that is `null` or not a string, would raise
  there. Request fields are modelled as present-or-missing strings only.
- The completion call itself: the model name and decoding parameters
  (temperature, token limit, nucleus mass, penalties) are constants of a
  foreign call and are not modelled. A provider answer whose content is not a
  string is also not modelled; the provider returns text or an error text.
- Environment and client construction: `Config.ready` and `Config.apiKey`
  stand for what the constructor found, and the system prompt's wording is a
  parameter, not a constant.
- Timestamps: `datetime.now().isoformat()` is the opaque parameter `now`.
- Console logging of errors has no observable effect on results and is left out.
- Concurrency: requests are modelled one at a time. The source shares one
  unsynchronised dict between requests.
- The long-term memory store and `config.py`: neither takes part in the request
  path modelled here.
- ChatServer.GetStats: `games_discussed` is a list built from a set, in
  unspecified order; it is modelled as a set.
- Text.Lower: only ASCII capitals are lowered, while Python lowers every
  Unicode capital. This can only matter to the classification if a non-ASCII
  character lowers to one of the ASCII letters of "api_key", "rate_limit" or
  "timeout".
- GamingAssistant.ClassifyKeyError: inherits the ASCII-only lowering above.
- GamingAssistant.ClassifyRateLimited: inherits the ASCII-only lowering above.
- GamingAssistant.ClassifyTimeout: inherits the ASCII-only lowering above.
- GamingAssistant.ClassifyOther: inherits the ASCII-only lowering above.
- Seqs.LastN: models `s[-n:]` for a positive `n` only (the source uses 5 and
  20); `s[-0:]` would be the whole list in Python.
