# tclib_to_redis: a Dafny model

`tclib_to_redis.py` is a bot that logs into a game server and joins one chat
channel. It is meant to append every message said there to a Redis store,
except the bot's own messages, which the handler skips. Each message is meant
to be stored under an increasing integer id with an expiry time, and the
counter key `max_id` holds the id of the latest message. As written, every
save raises `TypeError` before it stores anything (see "## Findings"). Before
a message is stored, its item links are turned into `[Item Name]` and the
remaining control pipes are removed.

This model covers four parts of the program:

- The store class `Redis` (module `Store`). It is a class whose `data` field
  is a map from keys to entries. Each entry holds a value and an optional
  expiry. The map is the model of the Redis database. The spec functions
  `WithCounter`, `Appended` and `SaveAll` say what one counter creation, one
  save, and a sequence of saves do to the map. The lemmas beside them prove
  the id sequence and the frame conditions.
- The sanitiser `_remove_item_link` (module `Sanitizer`), written as pure
  functions:
  - `MatchLink` is a matcher for exactly the regular expression the source uses.
  - `RewriteItemLinks` is the left-to-right substitution behind `re.sub`.
  - `NormalizePipes` is the three `str.replace` steps.
  - `KeepPairs` is an independent reference definition for the pipe handling.
- The chat-event handler `_handle_message_chat` (module `Worker`). It is a
  method on the worker class that applies four guards and then makes one
  store write.
- The connection attempt `connect` (module `Worker`). It is a method on the
  worker class and an early-return chain over the library's outcomes. Those
  outcomes are an input datatype, `Outcomes`. The spec function `Attempt`
  says which of the seven ways an attempt ends. `StatusOf` gives the status
  line each way leaves, and `TeardownOf` gives the library session each way
  shuts down (`r.die()` or `w.disconnect()`).

Three details of the code shape the model:

- `_create_max_id` (lines 31-33) would create the counter when it is absent,
  but nothing calls it, and `save_message` (lines 37-39) adds 1 to the raw
  `GET max_id` reply. The as-written save is `Store.SaveAsWritten`. The class
  method the handler uses, `Store.Redis.SaveMessage`, is the corrected save.
  See "## Findings".
- The channel and sender names are compared after `.lower()` (lines 168 and
  173). These are Python 2 byte strings, and `lower()` changes only ASCII
  letters, so `Worker.Lower` does the same.
- The first lazy group of the item-link pattern (line 151) stops only at a
  newline, not at a pipe. A match can therefore start at any earlier `|` on
  the same line and swallow the text up to the link, a literal `||` included.
  `Sanitizer.PairBeforeLinkLost` states this.

## Model

| member | source | states |
|---|---|---|
| Store.Redis.constructor | tclib_to_redis.py:27-29 | a new store holds the given database contents and the configured expiry |
| Store.Redis.Get | tclib_to_redis.py:41-42 | a read returns a value exactly when the key is present, and then the stored value |
| Store.Redis.GetMaxId | tclib_to_redis.py:44-45 | reads the counter key: present exactly when `max_id` is stored, with its value |
| Store.Redis.CreateMaxId | tclib_to_redis.py:31-33 | the new database is `WithCounter` of the old one: the counter is set to 0 only if it was absent |
| Store.WithCounterIdempotent | tclib_to_redis.py:31-33 | creating the counter twice gives the same database as creating it once |
| Store.WithCounterEffect | tclib_to_redis.py:31-33 | an existing counter leaves the database unchanged; otherwise the counter becomes 0, only the `max_id` key is added, and every other entry is kept |
| Store.Redis.SaveMessage | tclib_to_redis.py:35-39 | the new database is `Appended` of the old: the message is stored under counter+1 with the configured expiry, and the counter becomes counter+1 without expiry |
| Store.Appended | tclib_to_redis.py:35-39 | one save raises the counter by one and stores the message under the new id with the expiry; the counter has no expiry; no key is added but the new id; every other entry is unchanged |
| Store.SaveAll | tclib_to_redis.py:35-39 | N saves in a row raise the counter by N |
| Store.SaveAllStores | tclib_to_redis.py:35-39 | after N saves, the i-th message is stored under id counter+1+i, with the expiry |
| Store.SaveAllAddsOnly | tclib_to_redis.py:35-39 | N saves add no keys except the ids counter+1 … counter+N |
| Store.SaveAllKeeps | tclib_to_redis.py:35-39 | N saves leave every entry outside the new id range unchanged |
| Store.FreshLog | tclib_to_redis.py:31-39 | starting from an empty store with the counter created, N saves leave counter N, message i under id i for 1 ≤ i ≤ N, and no other keys |
| Store.Reply | tclib_to_redis.py:41-45 | a `GET` reply is never an integer: it is `None` exactly when the key is absent, otherwise a string |
| Store.PyAddInt | tclib_to_redis.py:38-39 | `x + 1` succeeds exactly when `x` is an integer, and gives its successor |
| Store.SaveAsWritten | tclib_to_redis.py:37-39 | `save_message` as written goes through exactly when the `GET max_id` reply is an integer, and otherwise raises `TypeError`; `Store.SaveAsWrittenRaises` then fixes its result on every database |
| Store.SaveAsWrittenRaises | tclib_to_redis.py:37-38 | `save_message` as written raises `TypeError` on every database |
| Store.NatDigits | tclib_to_redis.py:33 | the decimal rendering Redis applies to an integer SET is non-empty and all digits |
| Store.NatDigitsValue | tclib_to_redis.py:33 | reading the digits of `n` back gives `n` |
| Store.ParseInt | tclib_to_redis.py:37-39 | `int()` accepts only an optional minus sign followed by decimal digits; `Store.DecimalRoundTrip` fixes its value on the text Redis stores |
| Store.DecimalRoundTrip | tclib_to_redis.py:33 | parsing the stored decimal rendering of any integer gives that integer back |
| Store.ReadCounterRecovers | tclib_to_redis.py:37-39 | `int()` of the `GET max_id` reply recovers the counter on every database that holds one |
| Sanitizer.Replace | tclib_to_redis.py:154-156 | `str.replace` never lengthens the text when the replacement is no longer than the pattern, and keeps the length when both are equally long; `Sanitizer.ReplaceAbsent` shows that it changes nothing when the pattern does not occur |
| Sanitizer.ReplaceAbsent | tclib_to_redis.py:154-156 | replacing a pattern whose first character does not occur leaves the text unchanged |
| Sanitizer.NormalizePipes | tclib_to_redis.py:154-156 | the three replacements never lengthen the text; `Sanitizer.NormalizePipesKeepsPairs` fixes their result |
| Sanitizer.NormalizePipesKeepsPairs | tclib_to_redis.py:154-156 | on text without NUL, the three replacements equal `KeepPairs`: each `\|\|` pair is kept and every other `\|` is dropped |
| Sanitizer.KeepPairsPaired | tclib_to_redis.py:154-156 | after the replacements, pipes occur only in adjacent pairs |
| Sanitizer.NormalizePipesPlain | tclib_to_redis.py:154-156 | text without `\|` or NUL passes the replacements unchanged |
| Sanitizer.NameEnd | tclib_to_redis.py:151 | `[^\]]+` takes the maximal run of characters that are not `]` |
| Sanitizer.FinishLink | tclib_to_redis.py:151 | the match ends past the name; the captured name is non-empty and drawn from the text |
| Sanitizer.SearchName | tclib_to_redis.py:151 | a match found by the second lazy group ends inside the text |
| Sanitizer.SearchTag | tclib_to_redis.py:151 | a match found by the first lazy group ends inside the text, and its name is drawn from it |
| Sanitizer.MatchLink | tclib_to_redis.py:151 | the regular expression matches only at a `\|`, consumes at least one character and captures characters of the text |
| Sanitizer.RewriteItemLinks | tclib_to_redis.py:151-153 | the substitution never lengthens the text, since every match is replaced by its name in brackets and the match is longer than that; `Sanitizer.RewriteLink`, `Sanitizer.RewriteNoTag` and `Sanitizer.RewritePlainPrefix` fix its result |
| Sanitizer.RewriteNoPipe | tclib_to_redis.py:151-153 | text without `\|` is left unchanged by the substitution |
| Sanitizer.SearchTagNoTag | tclib_to_redis.py:151 | without `\|Hitem:` earlier in the text, the first lazy group finds no match |
| Sanitizer.RewriteNoTag | tclib_to_redis.py:151-153 | text without `\|Hitem:` is left unchanged by the substitution |
| Sanitizer.RewritePlainPrefix | tclib_to_redis.py:151-153 | a prefix without `\|` passes through the substitution unchanged |
| Sanitizer.RewriteKeepsAbsent | tclib_to_redis.py:151-153 | the substitution introduces no character other than `[` and `]` |
| Sanitizer.SearchTagSkips | tclib_to_redis.py:151 | the first lazy group steps over characters that are neither `\|` nor a newline |
| Sanitizer.SearchNameSkips | tclib_to_redis.py:151 | the second lazy group steps over characters that are neither `\|` nor a newline |
| Sanitizer.FinishWholeName | tclib_to_redis.py:151 | a name followed by `]\|.\|.` is captured whole, and the suffix is consumed |
| Sanitizer.SearchNameFound | tclib_to_redis.py:151 | `\|.[` followed by a non-`]` completes the second lazy group |
| Sanitizer.SearchTagPasses | tclib_to_redis.py:151 | the first lazy group steps over every character that is not a newline and where `\|Hitem:` does not stand, pipes included |
| Sanitizer.SearchFromTag | tclib_to_redis.py:151 | once the first lazy group has reached `\|Hitem:` followed by the rest of an item link, the search ends with that link's match |
| Sanitizer.MatchShape | tclib_to_redis.py:151 | text shaped like an item link matches, with the right length and name |
| Sanitizer.MatchWholeLink | tclib_to_redis.py:151 | a well-formed item link is matched exactly, capturing its item name |
| Sanitizer.PipeBeforeLink | tclib_to_redis.py:151 | a match tried at a `\|` earlier on the line runs through a whole item link, when no newline and no `\|H` comes in between |
| Sanitizer.EarlierPipeSwallows | tclib_to_redis.py:151 | in particular for a well-formed item link: the match spans the earlier `\|`, the text after it and the link, and captures the link's name |
| Sanitizer.RewriteLink | tclib_to_redis.py:151-153 | a well-formed item link at the head of the text is replaced by `[name]`, and the substitution goes on after it |
| Sanitizer.Sanitize | tclib_to_redis.py:150-157 | sanitising never lengthens a message; `Sanitizer.SanitizeKeepsPairs`, `Sanitizer.SanitizeOneLink` and `Sanitizer.PairBeforeLinkLost` fix its result |
| Sanitizer.SanitizePlain | tclib_to_redis.py:150-157 | a message without `\|` or NUL comes back unchanged |
| Sanitizer.SanitizeKeepsPairs | tclib_to_redis.py:150-157 | for NUL-free messages, the result is `KeepPairs` of the substituted text, so pipes remain only as pairs |
| Sanitizer.SanitizeOneLink | tclib_to_redis.py:150-157 | an item link inside plain text becomes `[name]`, and the text around it is kept |
| Sanitizer.PairBeforeLinkLost | tclib_to_redis.py:150-157 | a `\|\|` earlier on the same line as an item link is lost, and so is the text between them: only the text before the pair and `[name]` remain |
| Sanitizer.SanitizeLink | tclib_to_redis.py:150-157 | a well-formed item link alone becomes `[name]` |
| Sanitizer.SwordLink | tclib_to_redis.py:150-157 | `\|cffffffff\|Hitem:1234:0:0:0:0:0:0:0:0:0\|h[Sword of Testing]\|h\|r` becomes `[Sword of Testing]` |
| Sanitizer.PairBeforeSwordLost | tclib_to_redis.py:150-157 | `x\|\|y ` followed by the sword link becomes `x[Sword of Testing]` |
| Sanitizer.DoubledPipeKept | tclib_to_redis.py:154-156 | `a\|\|b` is kept as is |
| Sanitizer.UnpairedPipesDropped | tclib_to_redis.py:154-156 | for any characters `a` and `b` other than `\|` and NUL, `a\|b` becomes `ab`, and `a\|\|\|b` becomes `a\|\|b` |
| Worker.TCWorker.constructor | tclib_to_redis.py:56-68 | a new worker has a fresh store, an empty status, no world session, and is not connected |
| Worker.TCWorker.Connect | tclib_to_redis.py:82-148 | the return value is true exactly when `Attempt` succeeds; the status and the teardown match the way the attempt ends; the session and the connected flag change only on success |
| Worker.AttemptSucceedsIff | tclib_to_redis.py:82-148 | an attempt succeeds exactly when every stage succeeds; the session then uses the configured realm's host, port and id, the account and session key, joins the configured channel and registers both chat opcodes |
| Worker.ConnectedIffEstablished | tclib_to_redis.py:144 | the status is "Connected" exactly when the attempt succeeded, whatever the realm and character names are |
| Worker.ReconnectingIffRetryable | tclib_to_redis.py:88-127 | the status ends in "; Reconnecting" exactly for the failures other than a missing realm, which ends in " not found" |
| Worker.TeardownIff | tclib_to_redis.py:87-139 | the world session is disconnected exactly when it was opened and a later stage failed (lines 121, 129, 138); the realm session is stopped exactly when the join timed out (line 90) |
| Worker.Lower | tclib_to_redis.py:168-173 | `lower()` keeps the length, leaves no ASCII capital and keeps every other character; `Worker.LowerOfUpper` and `Worker.QualifiesIgnoresCase` build on it |
| Worker.LowerOfUpper | tclib_to_redis.py:168-173 | lower-casing ignores an earlier upper-casing |
| Worker.QualifiesIgnoresCase | tclib_to_redis.py:162-174 | whether an event qualifies does not depend on the letter case of its channel name or sender name |
| Worker.OwnMessagesIgnored | tclib_to_redis.py:171-174 | a message from the bot's own character, in any letter case, never qualifies |
| Worker.TCWorker.HandleMessageChat | tclib_to_redis.py:162-181 | a qualifying event appends exactly one line, "sender: sanitised message", to the store; the store changes exactly when all four guards hold |

## Left out

- `run` (lines 70-80), the supervision loop: it calls `connect()` once and ignores the result, then polls the world session every second. A broken stream sets the status "Disconnected" and is re-raised, which ends the loop. It never reconnects. It is left out because it only sleeps and waits on the library.
- `Worker.TCWorker.Connect`: `Outcomes` holds only the exceptions `connect` catches. The model does not represent library errors that escape `connect`:
  - a `r.err()` error outside the four caught at lines 95-98;
  - errors from `tclib.World(...)` or `w.start()` (lines 108-114);
  - errors other than a timeout or a broken stream from the waits at lines 116 and 131;
  - anything but `BadPlayer` from `w.login` (line 125);
  - errors from `send_join_channel` or `callback.register` (lines 140-142).

  On those paths the source leaves the status "Connecting", does not call `w.disconnect()` and returns nothing. The model's `Connect` always returns.
- The lock (lines 29 and 36): the model is sequential, so each `save_message` is one atomic step.
- The Redis client and its wire protocol (lines 28 and 42): the database is a map. Expiry is recorded on each entry, but time and eviction are not modelled.
- The game-protocol library (`tclib`): realm and world sessions, threads, cryptography and packets. Each attempt's outcomes are an input value.
- The realm server address and the password (lines 58-62, 84) reach only the library, so the configuration does not carry them.
- Version validation and `sys.exit(3)` (lines 50-54).
- Logging (`_log_status`, lines 159-160, and the debug lines): output only.
- UTF-8 decoding (lines 176-177): strings are sequences of characters, so decoding is the identity.
- The module-level `start` flag (line 24): it is never read.
- General regular-expression semantics: `Sanitizer.MatchLink` is a matcher for this one pattern only. Its lazy and greedy choices are written out by hand.
- `Store.ParseInt` models `int()` only on optional-minus decimal digits. It does not model whitespace, a plus sign or other bases.
- `Store.Redis.Get` and `Store.Redis.GetMaxId` return a value as it was SET, so the counter comes back as an integer. The Redis client at line 42 returns decimal text instead, and `Store.Reply` models that reply. `Store.ReadCounterRecovers` proves that `int()` of the reply gives the counter back, so `Store.Redis.SaveMessage` reads the integer directly.
- `Sanitizer.SanitizeOneLink`: requires the text before the link to be free of pipes. With a pipe earlier on the same line, the match starts at that pipe and swallows everything up to the end of the link. `Sanitizer.EarlierPipeSwallows`, `Sanitizer.PairBeforeLinkLost` and `Sanitizer.PairBeforeSwordLost` state that case. It is not claimed as a finding, because the code does not show whether the authors meant to allow it.
- `Store.Redis.SaveMessage`: requires the counter to be present. That is the corrected behaviour; see "## Findings".
- `Worker.TCWorker.HandleMessageChat`: requires the counter to be present when the event qualifies, for the same reason.
- `Sanitizer.SwordLink` states the example through `Sanitizer.ItemLink`, which assembles the same characters. A single string literal that long is too costly to evaluate.

## Findings

| source | as written | input that shows it | evidently intended | confidence | as-written member | corrected member |
|---|---|---|---|---|---|---|
| tclib_to_redis.py:37-39 | `max_id + 1` adds an integer to the `GET max_id` reply, which is either `None` or a string. `_create_max_id` is never called. | an empty store (`None + 1`), or one whose counter reads `"0"` (`"0" + 1`): both raise `TypeError`, and nothing is stored | the counter is created if absent and read as an integer, so message ids are 1, 2, 3, … | not executed | Store.SaveAsWrittenRaises | Store.Redis.SaveMessage |

The as-written save is `Store.SaveAsWritten`. `Store.SaveAsWrittenRaises`
proves that it fails on every database. The corrected save reads the counter
as the integer it was written as: `Store.ReadCounterRecovers` proves that
`int()` of the reply recovers it. `Store.FreshLog` proves that the saves then
number the messages 1 to N.
