# Session bookkeeping of a Telegram-to-chat-completion bot

The bot (`bot.py`) answers Telegram messages by forwarding them to a remote
chat-completion service. Behind the transport it keeps three in-memory
tables that its handlers change in place:

- the **trusted set** `trusted_users`, the users who have sent the shared
  password, mirrored in the append-only file `trusted_users.txt` (one
  decimal id per line, read back at start-up);
- the **conversation history** `chat_history`, per user a list of
  `{"role", "content"}` turns trimmed to the last `2 * MAX_EXCHANGES` (20)
  entries before each completion call;
- the **usage ledger** `user_token_usage`, per user the input and output
  token counts the service reports, a `defaultdict` whose missing entries
  read as zero.

This project models those tables and the three registered handlers as a
Dafny class, `Bot.BotState`, whose methods `HandleText`, `HandleReset` and
`HandlePhoto` state the whole new state of every table in terms of the old
one. Everything outside the process is a parameter: the completion call's
outcome is an argument (`Success(reply, promptTokens, completionTokens)` or
`Failure(error)`), the message list the handler would send is returned
(`None` when the service is not called), the password is an
`Option<string>` (it may be unset), and the file is a sequence of lines.
The file format, Python's `str.strip()`, `str.isdigit()`, `int()` and the
decimal rendering of an id are modelled as functions with round-trip
lemmas.

Files:

- `wrappers.dfy`: `Option`.
- `pystr.dfy` (module `PyStr`): `strip()` over the exact set of characters
  Python's `str.isspace()` accepts, ASCII `isdigit()`, `int()` of a digit
  string, and `f"{n}"`.
- `trusted_store.dfy` (module `TrustedStore`): the line written by
  `save_trusted_user` and the set `load_trusted_users` returns.
- `session.dfy` (module `Session`): turns, the history window, the ledger,
  the integer content of `format_cost`, and what a run of exchanges leaves
  in the history.
- `bot_state.dfy` (module `Bot`): the password check, the caption default,
  the class and two client methods that replay the authorization and ledger
  scenarios against the method contracts.

The invariant `BotState.Valid()` says that a restart would reload exactly
the non-negative trusted ids from the file, and that no history holds more
than `2 * MAX_EXCHANGES + 1` entries.

The code's only statement of intent for the window is the comment
`# Keep last N exchanges` at `bot.py:106`, which suggests that a long
conversation keeps exactly the last `MAX_EXCHANGES` exchanges. The model
follows the code instead. The code trims before it appends the reply
(`bot.py:106` before `bot.py:130`). So a history holds up to
`2 * MAX_EXCHANGES + 1` entries, and after more than `MAX_EXCHANGES`
exchanges it begins with an assistant turn whose user turn was dropped
(`Session.LongConversationWindow`). The balance button's text is appended
to the history before it is recognised, so it is recorded as a user turn.

## Model

| member | source | states |
|---|---|---|
| `PyStr.Strip` | bot.py:46 | Python's `str.strip()`; specified by `StripIsTrimmedSlice`, `StripPadded` and `StripIdempotent` |
| `PyStr.StripLeftIsSuffix` | bot.py:95 | stripping the front leaves a suffix of the input, preceded only by whitespace, that does not start with whitespace |
| `PyStr.StripRightIsPrefix` | bot.py:95 | stripping the back leaves a prefix of the input, followed only by whitespace, that does not end with whitespace |
| `PyStr.StripIsTrimmedSlice` | bot.py:95 | `strip()` returns a slice of its input with only whitespace outside it and no whitespace at either end |
| `PyStr.StripPadded` | bot.py:46 | whitespace around a string with no whitespace at its ends is exactly what `strip()` removes, so a line's newline is dropped and nothing else |
| `PyStr.StripIdempotent` | bot.py:95 | stripping twice gives the same text as stripping once |
| `PyStr.IsAsciiDigits` | bot.py:46 | `str.isdigit()` on ASCII text, false on the empty string; the kept-line test of `ParseLine`, tied to `f"{n}"` by the contract of `Decimal` and by `DigitsAreZerosThenDecimal` |
| `PyStr.DecimalValue` | bot.py:46 | `int()` of a digit string; specified by `DecimalRoundTrip`, `DecimalOfValue`, `DecimalValueLeadingZero` and `DigitsAreZerosThenDecimal` |
| `PyStr.Decimal` | bot.py:52 | `f"{n}"` for a non-negative id is a non-empty string of ASCII digits without a leading zero (unless the id is 0) |
| `PyStr.DecimalRoundTrip` | bot.py:46-52 | `int()` of the digits written for an id is that id |
| `PyStr.DecimalOfValue` | bot.py:46 | a digit string without a leading zero is exactly `f"{n}"` of its `int()` value |
| `PyStr.DecimalValueLeadingZero` | bot.py:46 | a leading '0' does not change what `int()` reads from a digit string |
| `PyStr.DigitsAreZerosThenDecimal` | bot.py:46 | every digit string is a run of '0's followed by exactly `f"{n}"` of its value `n` |
| `TrustedStore.FormatId` | bot.py:50-52 | `f"{user_id}"`, a minus sign before the digits of a negative id; specified by `FormatLineRoundTrip` and `ParseLineReadsDecimal` |
| `TrustedStore.FormatLine` | bot.py:50-52 | the line `save_trusted_user` appends; specified by `FormatLineRoundTrip` and `SaveThenLoad` |
| `TrustedStore.ParseLine` | bot.py:46 | one line of the generator in `load_trusted_users`; a line yields an id exactly when its stripped text is non-empty and all ASCII digits, and which id it yields is fixed by `ParseLineValue` (leading zeros included) and `ParseLineReadsDecimal` |
| `TrustedStore.ParseLineReadsDecimal` | bot.py:46 | a kept line whose stripped text has no leading zero yields the id whose decimal form is that stripped text |
| `TrustedStore.ParseLineValue` | bot.py:46 | any kept line, leading zeros included, strips to a run of '0's followed by the decimal form of the id it yields |
| `TrustedStore.ParseLineZeroPadded` | bot.py:46 | the line `" 007\n"` yields the id 7 |
| `TrustedStore.ParseTrusted` | bot.py:46 | the set of ids a file's lines yield; specified by `ParseTrustedMembers`, `ParseTrustedNonNegative` and `SaveThenLoad` |
| `TrustedStore.LoadTrusted` | bot.py:43-47 | `load_trusted_users`: a missing file loads nothing, an existing one loads `ParseTrusted` of its lines; specified through `BotState.constructor` |
| `TrustedStore.ParseTrustedMembers` | bot.py:43-47 | an id is loaded exactly when some line of the file yields it; all other lines are ignored |
| `TrustedStore.ParseTrustedNonNegative` | bot.py:46 | every loaded id is non-negative |
| `TrustedStore.FormatLineRoundTrip` | bot.py:46-52 | the line written for a non-negative id reads back as that id; the line for a negative id is ignored on reading |
| `TrustedStore.SaveThenLoad` | bot.py:43-52 | appending an id's line adds exactly that id to what a restart loads (nothing for a negative id) and loses no earlier id |
| `Session.Window` | bot.py:106 | the trim `history[-MAX_EXCHANGES * 2:]`; specified by `WithUserTurnKeepsNewest` and `ConverseKeepsRecentTranscript` |
| `Session.WithUserTurn` | bot.py:104-107 | append the user turn, then trim; specified by `WithUserTurnKeepsNewest` |
| `Session.HistoryOf` | bot.py:104 | `chat_history.setdefault(user_id, [])`: a user without history reads as empty; used by the `BotState` method contracts |
| `Session.UsageOf` | bot.py:20 | the `defaultdict` read: a user without a ledger entry reads as zero counts; used by the `BotState` method contracts |
| `Session.AddTokens` | bot.py:132-133 | the two `+=` on a user's counters (also `bot.py:180-181`); specified by `AddTokensAccumulates` |
| `Session.FormatCost` | bot.py:63-67 | the integer content of `format_cost`; specified by `FormatCostAdditive` and `FormatCostExample` |
| `Session.Exchange` | bot.py:104-130 | one answered message: append, trim, then append the reply; specified by `ConverseKeepsRecentTranscript` and `LongConversationWindow` |
| `Session.WithUserTurnKeepsNewest` | bot.py:104-107 | after the append and trim, the history is the newest `min(old length + 1, 2 * MAX_EXCHANGES)` entries in their original order, ending with the new user turn |
| `Session.AddTokensAccumulates` | bot.py:132-133 | recording two completions adds their prompt and completion counts; e.g. (10,5) then (20,15) is (30,20) |
| `Session.FormatCostAdditive` | bot.py:63-67 | the cost estimate, 5 input and 15 output millionths of a dollar per token, is additive over ledger entries and grows with either count |
| `Session.FormatCostExample` | bot.py:63-67 | 1000 input and 1000 output tokens give a total of 2000 tokens and 20000 millionths of a dollar ("$0.0200") |
| `Session.ConverseKeepsRecentTranscript` | bot.py:104-130 | a run of answered messages from an empty history leaves the newest `2 * MAX_EXCHANGES + 1` turns of the full transcript, not the newest `2 * MAX_EXCHANGES` |
| `Session.LongConversationWindow` | bot.py:104-130 | after more than `MAX_EXCHANGES` answered messages the history holds `2 * MAX_EXCHANGES + 1` turns: an orphaned assistant turn followed by the last `MAX_EXCHANGES` exchanges |
| `Bot.Accepts` | bot.py:95 | `user_input.strip() == AUTH_PASSWORD`, false when the password is unset; specified by `PaddedPasswordAccepted` and `UntrimmedPasswordUnreachable` |
| `Bot.PaddedPasswordAccepted` | bot.py:95 | the password surrounded by whitespace (a trailing newline, say) is accepted |
| `Bot.UntrimmedPasswordUnreachable` | bot.py:95 | a password that begins or ends with whitespace can never be entered |
| `Bot.Caption` | bot.py:146 | a non-empty caption is used as the photo question; an absent or empty one becomes the default question, so the question is never empty |
| `Bot.StoreFollowsTrusted` | bot.py:96-97 | adding an id to the trusted set and its line to the file keeps the file's reloaded set equal to the non-negative trusted ids |
| `Bot.BotState.constructor` | bot.py:36-55 | start-up loads the trusted set from the file (empty when the file is missing) with empty history and ledger, and establishes the invariant |
| `Bot.BotState.HandleText` | bot.py:88-139 | an untrusted user changes nothing and reaches no completion unless the stripped text is the password, which adds the id and one file line and nothing else; for a trusted user, the balance button records the turn and creates a zero ledger entry, "Mischief managed" empties the history, and other text is sent with the trimmed history, then on success the reply is appended and the counters grow by the reported counts, on failure nothing more changes |
| `Bot.BotState.HandleTrustedText` | bot.py:103-136 | the branches of `handle_message` after the authorization gate, as above; the trusted set and the file are unchanged |
| `Bot.BotState.Authorize` | bot.py:96-97 | the id joins the trusted set and exactly its line is appended to the file; history and ledger are unchanged |
| `Bot.BotState.PushUserTurn` | bot.py:104-107 | the user's history becomes the old history plus the user turn, trimmed to the newest `2 * MAX_EXCHANGES` entries; other users and tables are unchanged |
| `Bot.BotState.RecordReply` | bot.py:130-133 | the reply is appended after the trimmed history and both counters grow by the reported counts |
| `Bot.BotState.HandleReset` | bot.py:71-76 | the pressing user's history becomes empty, with no authorization check; other histories, the trusted set, the ledger and the file are unchanged |
| `Bot.BotState.HandlePhoto` | bot.py:143-187 | no history ever changes; an untrusted user changes nothing and reaches no completion; a trusted user's question is the caption or its default, and the ledger grows by the reported counts on success and is unchanged on failure |

## Left out

- Telegram transport: updates, `query.answer`, `send_message`, `reply_text`, `send_chat_action`, the reply keyboard (`bot.py:189-191`), handler registration and polling (`bot.py:194-219`). Replies are a `Response` value; their wording is not modelled.
- The remote completion call (`bot.py:123-129`, `bot.py:172-178`), with its model name, temperature and token budget: it is a foreign service, so its outcome is a parameter.
- Bot.BotState.HandleText: `Failure` stands for an exception raised by the call itself. An exception raised after the reply was appended (a response without usage counts, `bot.py:131-133`), and a reply whose content is `None`, are not modelled.
- Bot.BotState.HandlePhoto: the photo download and the base64 data URI (`bot.py:153-157`) are network and library I/O, so the returned request carries the question text only, not the image. The `photo[-1]` lookup assumes the transport's photo filter delivered at least one size.
- Reading `.env` and the three secrets (`bot.py:23-33`): environment I/O; the password is a constructor parameter.
- The file itself (`bot.py:44-52`): it is the sequence of lines Python's iteration yields. Newline translation, a last line without a newline (which the next append would extend) and I/O errors are not modelled.
- TrustedStore.ParseLine: `str.isdigit()` is modelled on ASCII digits only. Python also accepts other Unicode digits (such as superscript two), and for some of those `int()` then raises.
- `format_cost`'s floating-point arithmetic and its `.4f` rendering (`bot.py:64-67`): the cost is kept as exact integer millionths of a dollar.
- Concurrency: handlers that interleave at their `await` points race on the same user's history and counters. Each handler is modelled as one atomic step.
- The `print` logging (`bot.py:138`, `bot.py:186`).
- `handle_cost_check` (`bot.py:78-84`): it is never registered, so no update reaches it.
- The commented-out `get_reset_button` (`bot.py:58-61`): dead code.
- The trim is modelled for the fixed window of 20. Python's `s[-0:]` would keep the whole list, but `MAX_EXCHANGES` is the constant 10.
