# Telegram forwarder: a Dafny model of the polling relay

The forwarder watches a list of source chats and copies their new text
messages to a list of destination chats. After the operator answers three
prompts (source chat ids, destination chat ids and comma-separated keywords),
the forwarder seeds a cursor for each source chat: the id of the chat's newest
message. It then repeats one pass every five seconds. A pass serves each
source chat in list order:

- it fetches the messages newer than the chat's cursor;
- it walks them in the reverse of the order in which they were returned;
- it decides for each message whether to forward it;
- it cleans each forwarded text by deleting every configured removal pattern
  in turn, and sends the result to every destination in list order;
- it moves the chat's cursor up to the message id, whether or not the message
  was forwarded.

The decision: when the keyword list is non-empty and the message has text, the
message is forwarded if some keyword occurs in the lower-cased text. Otherwise
it is forwarded when it has text. Keywords are not lower-cased or trimmed. A
blank keyword answer therefore yields the single keyword `""`, which occurs in
every text.

The model has five modules:

- `Options` holds the optional value.
- `Text` models the Python string operations used: ASCII `lower()`, the
  substring test `k in s`, `split(",")` with `join` as its inverse, and
  subsequences.
- `Filter` models keyword parsing (`ParseKeywords`) and the forwarding
  decision: `HasText` is the truthiness of `message.text`, and `ShouldForward`
  is the test at lines 50-51 and 56.
- `Cleaning` models the pattern-removal fold `Clean` of lines 66-70.
- `Relay` has the pure specification of a pass (`MessageSends`, `BatchSends`,
  `Advance`, `ServeChat`, `RunPass`). It also has the class
  `Relay.Forwarder`, whose methods run the pass with loops over the chats,
  over the reversed batch and over the destinations. The class keeps the
  cursor map, and its log `sent` records every `send_message` call.

The chat platform is represented by parameters:

- `fetch(chat, minId)` stands for `get_messages(chat, min_id=minId)`.
- `newest(chat)` is the id of a chat's newest message. It is absent when the
  chat is empty, which is where the program's seeding
  (telegram_forwarder.py:41) crashes.
- `sub(pattern, text)` stands for `re.sub(pattern, "", text)`.

The program has no per-rule regular expressions, time windows, schedules,
previews, confirmation, edits, media or rate-limit retry. It lower-cases only
the message text, and it never forwards a message without text.

## Model

| member | source | states |
|---|---|---|
| `Filter.ParseKeywords` | telegram_forwarder.py:109 | the keyword list is never empty, no keyword contains a comma, and joining the keywords with commas gives back the operator's answer exactly (no trimming, no case folding) |
| `Text.JoinSplit` | telegram_forwarder.py:109 | joining the pieces of `split(sep)` with `sep` restores the string |
| `Text.SplitJoin` | telegram_forwarder.py:109 | splitting the join of separator-free pieces gives back those pieces, so the split is the inverse of the join |
| `Text.Split` | telegram_forwarder.py:109 | `split` always yields at least one piece, and no piece contains the separator |
| `Filter.BlankAnswerForwardsAllText` | telegram_forwarder.py:109 | a blank keyword answer parses to `[""]`, and with it a message is forwarded exactly when it has non-empty text |
| `Filter.TextlessNeverForwarded` | telegram_forwarder.py:50-60 | a message whose text is absent or empty is never forwarded, whatever the keyword list |
| `Filter.KeywordMatch` | telegram_forwarder.py:50-51 | with a non-empty keyword list and non-empty text, a message is forwarded exactly when some keyword starts at some position of the lower-cased text (both directions) |
| `Filter.UpperCaseKeywordsNeverMatch` | telegram_forwarder.py:51 | only the text is lower-cased, so if every keyword holds an upper-case letter, no message is forwarded |
| `Filter.EmptyKeywordsForwardAllText` | telegram_forwarder.py:56-60 | with an empty keyword list, a message is forwarded exactly when it has non-empty text |
| `Text.ToLower` | telegram_forwarder.py:51 | lower-casing keeps the length of the text |
| `Text.ToLowerAt` | telegram_forwarder.py:51 | each upper-case ASCII letter becomes its lower-case form, every other character is kept, and no upper-case letter remains |
| `Text.ToLowerHasNoUpper` | telegram_forwarder.py:51 | a lower-cased text holds no upper-case letter |
| `Text.ContainsAt` | telegram_forwarder.py:51 | the substring test `k in s` holds exactly when `k` is a prefix of some suffix of `s` |
| `Text.UpperNeverContained` | telegram_forwarder.py:51 | a string with an upper-case letter never occurs in a string without one |
| `Cleaning.CleanFirstPattern` | telegram_forwarder.py:66-70 | cleaning applies the first pattern to the text, then the remaining patterns in list order to its result |
| `Cleaning.CleanConcat` | telegram_forwarder.py:66-70 | cleaning with `ps + qs` is cleaning with `ps` followed by cleaning with `qs` |
| `Cleaning.CleanOnlyDeletes` | telegram_forwarder.py:69 | when each pattern removal only deletes characters, the cleaned text is a subsequence of the original |
| `Relay.Forwarder.CleanMessage` | telegram_forwarder.py:66-70 | the loop returns the left fold of pattern removal over the patterns in list order, so an empty pattern list returns the text unchanged |
| `Relay.Forwarder.constructor` | telegram_forwarder.py:6-11 | a new forwarder holds the given removal patterns, no cursors and an empty send log |
| `Relay.InitialCursor` | telegram_forwarder.py:41 | seeding succeeds exactly when every source chat has a newest message; the cursor then has exactly the source chats as keys, each mapped to the id of its newest message |
| `Relay.Forwarder.Seed` | telegram_forwarder.py:41 | on success the cursor is the seeded map; when a source chat is empty it reports failure and leaves the cursor unchanged |
| `Relay.FanoutSends` | telegram_forwarder.py:53-54 | a forwarded message makes exactly one send per destination |
| `Relay.FanoutSendsAt` | telegram_forwarder.py:53-54 | the i-th send goes to the i-th destination and carries the same cleaned text |
| `Relay.Forwarder.SendToAll` | telegram_forwarder.py:53-54 | the destination loop appends the fan-out sends to the log and changes nothing else |
| `Relay.Forwarder.ProcessMessage` | telegram_forwarder.py:50-60 | handling one message appends to the log exactly that message's sends: the cleaned text to every destination if it is forwarded, nothing otherwise |
| `Relay.TextlessMessageSendsNothing` | telegram_forwarder.py:50-60 | a message with absent or empty text adds nothing to the send log |
| `Relay.BatchSendsAreForwards` | telegram_forwarder.py:49-60 | every send of a batch goes to a listed destination and carries the cleaned text of a forwarded message from that batch |
| `Relay.BatchSendsSplit` | telegram_forwarder.py:49 | the sends for messages at positions k and later all come before the sends for earlier positions: later-returned messages are handled first |
| `Relay.BatchSendsReversed` | telegram_forwarder.py:49 | a batch's sends are the in-order sends of the reversed batch |
| `Relay.InOrderSendsConcat` | telegram_forwarder.py:49 | handling `xs + ys` in order gives the sends of `xs` followed by those of `ys` |
| `Relay.Advance` | telegram_forwarder.py:62 | the cursor after a batch is never below the cursor before it |
| `Relay.AdvanceIsMax` | telegram_forwarder.py:62 | the new cursor is the maximum of the old cursor and all ids in the batch, whether or not each message was forwarded |
| `Relay.Forwarder.ProcessBatch` | telegram_forwarder.py:46-62 | after a batch, only that chat's cursor changes, and it becomes the advanced cursor; the log grows by the batch's sends in reversed-batch order |
| `Relay.ServeChat` | telegram_forwarder.py:46-62 | serving a chat keeps the set of chats that have a cursor |
| `Relay.RunPass` | telegram_forwarder.py:45-62 | a pass keeps the set of chats that have a cursor, so every source chat can be looked up |
| `Relay.Forwarder.Pass` | telegram_forwarder.py:45-62 | the loop over source chats leaves exactly the cursors and send log of the specified pass, each chat fetched with the cursor left by earlier chats |
| `Relay.PassNeverLowersCursor` | telegram_forwarder.py:62 | a pass never lowers any chat's cursor |
| `Relay.PassKeepsOtherCursors` | telegram_forwarder.py:45-62 | a pass leaves the cursor of every chat that is not a source unchanged |
| `Relay.PassExtendsLog` | telegram_forwarder.py:45-62 | a pass only appends to the send log |
| `Relay.PassConcat` | telegram_forwarder.py:45 | a pass over `a + b` is a pass over `a` followed by a pass over `b`, so chats are served, and their sends logged, in source-list order |

## Left out

- The Telethon client calls are left out: `connect`, `is_user_authorized`,
  `send_code_request`, `sign_in`, `get_dialogs`, `get_messages` and
  `send_message`. They are network calls into a library that is not part of
  this model. `get_messages` is the parameter `fetch`, the newest-message
  lookup is the parameter `newest`, and each send is an entry of the log
  `sent`.
- Each `send_message` is assumed to succeed. In the code, a failing call raises
  an exception and ends the relay, and the model has no such path.
- Each pattern removal is assumed to succeed. In the program, `re.sub` raises
  on an invalid pattern (a line `(` in the patterns file, say) at line 69.
  That happens in `clean_message` at line 52 or 57, before any send for the
  message and before its cursor update at line 62, and it ends the relay. In
  the model `sub` and `Cleaning.Clean` are total.
- The chat is fixed during a pass. `fetch` is a function, so the model cannot
  express messages arriving while a pass runs.
- Regular expressions are not modelled. `re.sub(pattern, "", text)` is the
  parameter `sub`, because the regular-expression engine is a foreign library.
  `Cleaning.CleanOnlyDeletes` takes "removal only deletes characters" as a
  hypothesis about `sub`.
- `Text.ToLower` lower-cases only the ASCII letters `A`-`Z`. Python's
  `str.lower()` also lower-cases letters of other alphabets, and those letters
  are kept unchanged here.
- File input and output are left out: `load_patterns` (its patterns are given
  to the constructor, and its line stripping is not modelled),
  `read_credentials`, `write_credentials`, and the chat list file written by
  `list_chats`.
- The interactive part of `main` is left out: the prompts, the menu and the
  `print` calls. The `print` calls inside the pass are left out too:
  "Checking for messages and forwarding them..." at line 44 and "Message
  forwarded" at lines 55 and 60. Parsing chat ids with `int(...)` at lines
  107-108 is left out too, because the model receives chat ids as integers. The keyword split at
  line 109 is modelled.
- The endless `while True` loop and the five-second `asyncio.sleep` are left
  out. The model describes one pass; repeated passes are repeated calls of
  `Relay.Forwarder.Pass`.
