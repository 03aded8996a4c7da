# NLP chatbot: conversation store and command loop

A Dafny model of the two pieces of `chatbot.py` that hold logic.

- **The conversation store of `NLPChatbot`.** This is an ordered list of role/content messages.
  - Construction seeds it with the system prompt.
  - `send_message` appends the user's message, posts the whole list, and appends the assistant's reply only on success.
  - `clear_conversation` keeps only the first message.
  - `load_conversation` replaces the list with what the file held.
  - The class `Chatbot.NLPChatbot` updates a `seq<Message>` field in place. Each of its methods is proved against a pure function or value:
    - `SendMessage` against `RequestFor`, `ReplyOf` and `AfterSend`;
    - `ClearConversation` against `AfterClear`;
    - `LoadConversation` against `AfterLoad`;
    - `SaveConversation` against `DefaultFilename`;
    - the constructor against the one-message history `[Message("system", SystemPrompt)]`.

    The lemmas are stated over those functions.
- **The command loop of `main`.** Each input line is processed in these steps:
  - It is stripped with Python's `str.strip()`.
  - It is ignored when blank.
  - A leading `/` makes it a command. The text is split at the first space (`split(' ', 1)`) and the first word is lower-cased to pick the command.
  - Any other line is sent as chat.
  - `Cli.Classify` is that classification, a pure function. `Cli.Handle` says what a command does to the history. `Cli.Step` and `Cli.Run` act on a bot the way the loop does.

Some things are parameters of the model instead of being performed:
- what the endpoint answered (`Response`);
- what a conversation file held (`LoadResult`);
- the timestamp of a default save name.

Nothing is printed. Instead, an `Effect` value records what the loop did with a line.

Files:
- `wrappers.dfy`: `Option`.
- `text.dfy`: `strip`, `split(' ', 1)` and `lower`.
- `chatbot.dfy`: messages, requests, the history transitions, `NLPChatbot`.
- `cli.dfy`: commands, classification, dispatch, the loop.

## Behaviour kept from the code

In these cases the model follows what the code does, not what its comments suggest (`# Keep only system prompt`, chatbot.py:121):

- **`clear_conversation` keeps whatever message is first.** That message is guaranteed to be the system prompt only when nothing was loaded. After a load the first message is whatever the file held first (`Chatbot.ClearAfterLoad`, `Cli.ClearRestoresSystemPrompt`).
- **Clearing an empty history.** After loading `[]`, `clear_conversation` raises `IndexError`. The loop's catch-all swallows it and the history is unchanged. The model returns `ok == false` with the history unchanged.
- **An empty reply.** A status-200 reply whose text is `""` is appended to the history. The loop still prints the apology, because an empty string is false in Python (`Cli.EmptyReplyRecordedNotShown`).

## Model

| member | source | states |
|---|---|---|
| Text.IsSpace | chatbot.py:197 | the whitespace `strip()` removes: the characters Python's `str.isspace()` accepts |
| Text.SkipSpace | chatbot.py:197 | the first non-whitespace index at or after `i`; everything skipped is whitespace |
| Text.SkipSpaceBack | chatbot.py:197 | the end of a slice once trailing whitespace is dropped; everything dropped is whitespace |
| Text.Strip | chatbot.py:197 | `strip()` is empty exactly for all-whitespace input, and otherwise starts and ends with non-whitespace |
| Text.StripUnique | chatbot.py:197 | any cut whose borders are all whitespace and whose ends are not whitespace is `strip()` |
| Text.StripIsSlice | chatbot.py:197 | `strip()` is a slice of its input with only whitespace on either side |
| Text.StripKeepsTrimmed | chatbot.py:197 | a string with non-whitespace ends is its own `strip()` |
| Text.StripIdempotent | chatbot.py:197 | stripping twice is stripping once |
| Text.StripIgnoresSurroundingSpace | chatbot.py:197 | whitespace added around a string does not change its `strip()` |
| Text.StripIgnoresLeadingSpace | chatbot.py:197 | a whitespace prefix does not change `strip()` |
| Text.StripIgnoresTrailingSpace | chatbot.py:197 | a whitespace suffix does not change `strip()` |
| Text.BordersAfterPrefix | chatbot.py:197 | whitespace borders stay whitespace borders behind a whitespace prefix |
| Text.BordersBeforeSuffix | chatbot.py:197 | whitespace borders stay whitespace borders before a whitespace suffix |
| Text.SplitOnce | chatbot.py:205 | `split(' ', 1)` gives one part exactly when the separator is absent (then the whole string); otherwise two parts that rebuild the string around the first separator |
| Text.SplitOnceAtFirst | chatbot.py:205 | splitting `w + sep + a` with no `sep` in `w` gives back `[w, a]` |
| Text.Lower | chatbot.py:206 | `lower()` keeps the length and lower-cases each ASCII letter in place |
| Chatbot.NLPChatbot.constructor | chatbot.py:15-53 | a new bot holds exactly one message: role "system" with the system prompt |
| Chatbot.NLPChatbot.SendMessage | chatbot.py:55-117 | the request carries the old history plus the user message; the reply is the completion only for status 200; the history gains the user message, then the reply only on success |
| Chatbot.NLPChatbot.ClearConversation | chatbot.py:119-121 | a non-empty history becomes its first message alone; an empty one fails and stays unchanged |
| Chatbot.NLPChatbot.SaveConversation | chatbot.py:123-134 | the file name is the given one or `conversation_<timestamp>.json`; the whole history is written unchanged |
| Chatbot.NLPChatbot.LoadConversation | chatbot.py:136-143 | a parsed file replaces the history wholesale with no role check; a failed read leaves it unchanged |
| Chatbot.ReplyOf | chatbot.py:93-117 | the reply `send_message` returns: the completion text of a status-200 response, `None` for a non-200 status, a transport failure or an unreadable body |
| Chatbot.RequestFor | chatbot.py:74-82 | the payload posted: the fixed endpoint and model, the whole history with the new user message last, `max_tokens`, and top_p 1 with both penalties 0 |
| Chatbot.AfterSend | chatbot.py:68-101 | the history after `send_message`: the user message appended, then the assistant reply only when there is one |
| Chatbot.AfterClear | chatbot.py:121 | the history after `clear_conversation`: the first message alone, or a failure on an empty history |
| Chatbot.AfterLoad | chatbot.py:138-143 | the history after `load_conversation`: the parsed messages, or the old history when the read fails |
| Chatbot.DefaultFilename | chatbot.py:125-127 | the name a save without a file name writes to: `conversation_<timestamp>.json` |
| Chatbot.ReplyOnlyOnSuccess | chatbot.py:93-117 | a reply exists exactly for status 200 with a completion body, and it is that completion |
| Chatbot.SendAppends | chatbot.py:68-103 | sending adds two messages on success and one on failure; earlier messages are kept; the user message comes first and the reply second |
| Chatbot.SentIsKept | chatbot.py:68-101 | the posted messages stay in the history as its prefix, whatever the response |
| Chatbot.Converse | chatbot.py:68-101 | the history after consecutive chat turns: each turn's `AfterSend` in order |
| Chatbot.ConverseExtends | chatbot.py:68-101 | a run of chat turns only appends, at least one message per turn |
| Chatbot.RequestsOf | chatbot.py:74-82 | a run of chat turns posts one request per turn |
| Chatbot.EveryRequestCarriesWholeHistory | chatbot.py:74-82 | the i-th request of a run is exactly the history the first i turns left plus its own user message; so nothing is windowed, it holds the whole starting history and at least one message per earlier turn, and all of it stays in the final history |
| Chatbot.ClearForgetsTurns | chatbot.py:121 | clearing after any run of chat turns gives back the first message the run started from |
| Chatbot.ClearIdempotent | chatbot.py:121 | clearing twice is clearing once |
| Chatbot.ClearAfterLoad | chatbot.py:121 | after a load, clearing keeps the first loaded message, and fails on a loaded empty list |
| Chatbot.LoadedHistoryIsSent | chatbot.py:140 | after a load the next request starts with exactly the loaded messages, in order |
| Cli.Named | chatbot.py:208-227 | a command word never names chat or an empty line; `/save` and `/load` carry the argument unchanged |
| Cli.NamedUnknown | chatbot.py:226-227 | a word names `Unknown` exactly when it is none of the seven command words |
| Cli.Classify | chatbot.py:197-206 | chat is the stripped line, non-empty and not starting with `/` |
| Cli.UnknownIffNotCommandWord | chatbot.py:204-227 | a line is an unknown command exactly when it strips to a `/` text whose lower-cased first word is not a command word |
| Cli.BlankLinesIgnored | chatbot.py:197-201 | a line is ignored exactly when it is all whitespace |
| Cli.ChatIsStrippedLine | chatbot.py:197-204 | a line is chat exactly when its stripped text is non-empty and does not start with `/`; what is sent is that stripped text, a slice of the line with only whitespace around it |
| Cli.SurroundingSpaceIgnored | chatbot.py:197 | whitespace around a line does not change how it is read |
| Cli.CommandWithArgument | chatbot.py:204-206 | `word + " " + arg` picks its command from the lower-cased word and carries everything after the first space, leading spaces included |
| Cli.CommandAlone | chatbot.py:204-206 | a lone word picks its command from its lower-cased form, with no argument |
| Cli.ArgumentNeverBlank | chatbot.py:205-221 | a `/save` or `/load` argument is never empty and never ends in whitespace |
| Cli.CommandCaseIgnored | chatbot.py:206 | two words equal after lower-casing name the same command, with or without an argument |
| Cli.QuitInAnyCase | chatbot.py:206-210 | any casing of `/quit` or `/exit` quits, alone or with an argument |
| Cli.LowerShape | chatbot.py:206 | a word that lower-cases to a command word starts with `/`, has no space and does not end in whitespace |
| Cli.LetterNotSpace | chatbot.py:206 | a character that lower-cases to an ASCII letter is not whitespace |
| Cli.LowerFixesNonLetter | chatbot.py:206 | lower-casing is injective on characters that are not letters |
| Cli.Handle | chatbot.py:208-237 | only `/clear`, `/load` with a file name, and chat change the history; a step exits exactly on a quit |
| Cli.ReplyShown | chatbot.py:234-237 | the loop prints a reply only when there is one and it is not empty |
| Cli.BareSaveUsesDefaultName | chatbot.py:125-127 | a bare `/save` writes the unchanged history to `conversation_<timestamp>.json` |
| Cli.EmptyReplyRecordedNotShown | chatbot.py:232-237 | an empty successful reply is recorded, but the apology is shown |
| Cli.Step | chatbot.py:197-237 | one pass of the loop body does to the bot what `Handle` says for the classified line |
| Cli.Dispatch | chatbot.py:208-232 | acting on a command through the bot's methods agrees with `Handle` |
| Cli.Read | chatbot.py:197-206 | reading a stream of lines gives one entry per line |
| Cli.ReadAt | chatbot.py:197-206 | the k-th entry is the k-th line classified, with that line's world answers |
| Cli.Session | chatbot.py:194-237 | the history after the loop has acted on a list of lines: each line's `Handle` in order, stopping at the first quit |
| Cli.LinesAfterQuitIgnored | chatbot.py:208-210 | nothing after a quit is ever acted on |
| Cli.FirstMessageSurvives | chatbot.py:121 | unless a file is loaded, the first message of the history survives every line |
| Cli.ClearRestoresSystemPrompt | chatbot.py:50-53 | from a fresh bot with no file loaded, `/clear` gives back exactly the system prompt |
| Cli.ChatSessionIsConversation | chatbot.py:230-232 | a chat-only session is a run of chat turns of the store, so every request carries the whole history |
| Cli.SessionFrom | chatbot.py:194-237 | the rest of a session from one line on is that line's outcome followed by the lines after it, unless it quits |
| Cli.Run | chatbot.py:194-237 | the loop reads lines up to and including the first quit, or all of them; the bot ends with the history the session function gives |

## Left out

- The HTTP exchange is not modelled: `requests.post`, the headers, the API key in them, and the 30-second timeout. The endpoint's answer is a `Response` parameter.
- Parsing of the response JSON is not modelled. `Body` is either the extracted string or an error.
- Chatbot.NLPChatbot.SendMessage: a completion whose `content` is not a string (such as JSON `null`) is not modelled. Replies are strings.
- Chatbot.NLPChatbot.SendMessage: the float `temperature` is left out of the request, because it is a pass-through value.
- JSON encoding and decoding of conversation files is not modelled. A load yields a list of role/content messages or fails; a file holding some other JSON value is not modelled.
- Chatbot.NLPChatbot.SaveConversation: the model does not open or write the file, so a write failure (reported and ignored by the code) is not modelled. The method states the name and the content the code writes.
- `datetime.now()` is not called. The timestamp of a default save name is a parameter.
- `get_api_key` is not modelled: the environment lookup, the interactive prompt and the exit on a missing key.
- Printing is not modelled: `print_help`, banners and messages. An `Effect` value stands in for it.
- `KeyboardInterrupt` handling is not modelled. Of the loop's catch-all, only the case the core can trigger is kept: clearing an empty history.
- Text.Lower: only ASCII letters are lower-cased, where Python lower-cases all of Unicode. A command word is matched identically either way: the only non-ASCII characters whose lower-case form is ASCII are the Kelvin sign, which lowers to `k`, and `İ`, which lowers to two characters, one of them not ASCII. No command word contains `k`.
- Text.Strip: whitespace is the set that Python's `str.isspace()` accepts, written out in `Text.IsSpace`.
- Cli.Run: the input is a finite list of lines. At the end of real input, `input()` raises `EOFError`, which the loop's catch-all reports before prompting again. The model stops when the lines run out.
