# Portfolio Showcase registration bot — a Dafny model

This project models the core of a Telegram bot that collects sign-ups for the
Portfolio Showcase app (`api/bot.py`) together with the contract of its
backend helpers (`lib/supabase.py`).

- **Registration.** `/start` looks the user up and replies with "already
  registered", with a generic failure, or with a confirmation prompt and an
  inline keyboard. Clicking a button sends callback data that
  `registration_callback` splits on `:`. A click by someone other than the
  user the prompt was made for is turned away. The accept action re-checks the
  store and inserts one row; the decline action only edits the message.
- **Administrator commands.** `/count`, `/list` and `/notify` answer only the
  configured administrator (`is_admin`). Each writes exactly one entry to the
  admin audit log. `/notify` sends the message to every registered user in
  turn and tallies successes and failures.

Modules, one file each:

- `Wrappers`: `Option` and Python truthiness of an optional string.
- `Text`: `str.split`, `str.join`, `str(int)` and `int(str)`, with their
  round trips.
- `Store`: the four backend helpers as functions over the `registrations`
  table. The table is a sequence of rows in insertion order with distinct ids.
  `None` means a backend error, and every backend fault is a boolean input.
- `Outbox`: what the bot hands to the transport (reply, reply with keyboard,
  edit, answer, send).
- `RegistrationFlow`: the prompt text, the buttons, the callback parsing and
  the handler's dispatch pattern (`register_(yes|no):\d+`).
- `Admin`: the gate, the `/count`, `/list` and `/notify` texts, the list
  rendering, and the broadcast loop as a method with loop invariants.
- `Handlers`: class `Bot`. Its fields are the table, the audit log, the
  outbox and a trace of store calls. There is one method per handler, and
  each states the full new state for every branch.
- `Scenarios`: walks through the handlers, proved from their contracts alone.

The two defects listed under "## Findings" are modelled as written and proved
to misbehave. `Bot` uses the corrected prompt and the corrected decline
button, so its contracts describe the evidently intended behaviour.

## Model

| member | source | states |
|---|---|---|
| Text.Split | api/bot.py:112-113 | `str.split(':')` yields at least one field, no field contains the separator, and there are two or more fields exactly when the separator occurs |
| Text.JoinSplit | api/bot.py:112-113 | joining the split fields with the separator gives back the original text |
| Text.SplitJoin | api/bot.py:228-231 | splitting a join of separator-free lines gives back exactly those lines |
| Text.SplitHead | api/bot.py:112 | the first field (the action) is the text before the first separator, or the whole text when there is none |
| Text.SplitNoSep | api/bot.py:113 | text without the separator splits into itself alone |
| Text.SplitAfterSep | api/bot.py:232 | a separator-free head, a separator and a tail split into the head followed by the tail's fields |
| Text.JoinEmptyIff | api/bot.py:245-246 | a join with a non-empty separator is empty exactly when there are no parts or a single empty part |
| Text.NatToString | api/bot.py:201 | `str` of a natural number is a non-empty digit string without a leading zero |
| Text.NatToStringValue | api/bot.py:201 | the digits of `str(n)` denote `n` |
| Text.ParseInt | api/bot.py:113 | `int()` succeeds exactly on an optional sign followed by one or more ASCII digits; a negative result needs a leading `-`; accepted text holds no `:` |
| Text.IntToStringRoundTrip | api/bot.py:113 | `int(str(i)) == i` for every integer, so the id written into the button data at line 84 is read back unchanged |
| Text.IntToStringHasNo | api/bot.py:84 | `str` of an integer contains neither `:` nor a line break |
| Store.LookupAgreesWithList | lib/supabase.py:21-29 | `is_user_registered` reports an id registered exactly when the list the administrator sees holds a user with that id |
| Store.RegisterAtMostOnce | lib/supabase.py:31-40 | after a successful `register_user`, any later insert with the same id fails and leaves the table as it is |
| Store.ListAfterRegister | lib/supabase.py:52-59 | after a successful insert the list shows the earlier users in the same order, then the new one |
| Store.ListIdsDistinct | lib/supabase.py:52-59 | with the table's ids distinct, the list names every user once |
| Store.RegisteredUserCount | lib/supabase.py:42-50 | the count is present exactly when the list is, and equals the number of users the list shows |
| Store.RegisterUserKeepsDistinct | lib/supabase.py:31-40 | inserting keeps the ids in the table distinct |
| Store.RegisterThenLookup | lib/supabase.py:21-40 | after a successful insert the lookup of that id reports it registered |
| RegistrationFlow.PromptTextLines | api/bot.py:73-80 | the intended prompt consists of the greeting, a blank line, the collect line, the id, username and first-name lines, a blank line and the closing question, whether or not the user has a username |
| RegistrationFlow.PromptAsWrittenLines | api/bot.py:73-80 | as written, with a username the prompt stops after the username line; without one it starts at the username placeholder and keeps only the last lines |
| RegistrationFlow.PromptAsWrittenDiffers | api/bot.py:73-80 | as written, the prompt differs from the intended one for every input |
| RegistrationFlow.PromptTextAsWritten | api/bot.py:73-80 | as written, with a username the prompt is a proper prefix of the intended one, cut off after the username line; without one it is a proper suffix, missing the greeting, the preamble and the Telegram id |
| RegistrationFlow.PromptKeyboardData | api/bot.py:82-88 | every callback button on the corrected keyboard (decline data `register_no:<id>`) carries the accept or the decline data of the prompt's own user |
| RegistrationFlow.PromptKeyboardRoundTrip | api/bot.py:82-88 | every callback button on the corrected keyboard (decline data `register_no:<id>`) reads back as accept or decline with the prompt owner's id, the owner passes the guard, and for a non-negative id every button reaches the handler |
| RegistrationFlow.ButtonGuard | api/bot.py:111-122 | the data of either prompt button (decline as corrected) parses, and the guard turns a clicker away exactly when the owner's id is non-zero (Python truthiness) and not the clicker's, both directions |
| RegistrationFlow.ParseCallback | api/bot.py:111-113 | the action is the colon-free prefix of the data, and the whole data when there is no `:`; with a `:`, the carried id is `int` of the text between the first `:` and the next, and `ValueError` is raised exactly when that text is not a number |
| RegistrationFlow.YesButtonRoundTrip | api/bot.py:84 | the accept button's data parses back to `register_yes` and the owner's id |
| RegistrationFlow.YesButtonRejectsOthers | api/bot.py:119-122 | any other user clicking a non-zero owner's accept button is turned away |
| RegistrationFlow.ButtonDataParses | api/bot.py:111-113 | `<action>:<id>` parses to that action and id for every colon-free action |
| RegistrationFlow.MatchesCallbackPattern | api/bot.py:303 | `re.match(r'register_(yes\|no):\d+', data)`: matching data always holds a `:` |
| RegistrationFlow.PatternFixesAction | api/bot.py:303 | data the pattern lets through has `register_yes` or `register_no` before its first `:`, so the handler only ever reads those two actions and, whenever the id parses, carries one |
| RegistrationFlow.YesButtonDispatched | api/bot.py:303 | the accept button's data matches the handler's pattern for every non-negative id |
| RegistrationFlow.NoButtonAsWrittenNeverDispatched | api/bot.py:85 | the decline data as written (`register_no`) never matches the handler's pattern |
| RegistrationFlow.NoButtonDispatched | api/bot.py:303 | the corrected decline data `register_no:<id>` matches the pattern for every non-negative id |
| Admin.ListText | api/bot.py:222-232 | the reply is the "no users" text exactly when the list is empty, and otherwise starts with the header on its own line |
| Admin.ListTextLines | api/bot.py:222-232 | a non-empty `/list` reply read line by line is the header and then exactly one line per user, in store order |
| Admin.UserLineShape | api/bot.py:229 | a user's line starts with their id in backticks and continues exactly when the username is truthy |
| Admin.MessageTextEmptyIff | api/bot.py:245-250 | the broadcast text is empty, and `/notify` stops with the usage hint, exactly when there are no arguments or a single empty one |
| Admin.FailedIds | api/bot.py:268-277 | the in-order failed-id filter; its own contract only bounds its length by the number of users, and its meaning is stated by `FailedIdsCount`, `FailedIdsMembers` and `FailedIdsAppend` |
| Admin.FailedIdsCount | api/bot.py:274-277 | there is one failed id per failed send |
| Admin.FailedIdsMembers | api/bot.py:274-277 | an id is reported failed exactly when a send to a user with that id failed |
| Admin.FailedIdsAppend | api/bot.py:270-277 | failures are reported in iteration order |
| Admin.Broadcast | api/bot.py:266-278 | the loop makes exactly the sends `SendCalls` describes; the failed ids are `FailedIds`; the failure tally equals the number of failed sends; the two tallies add up to the number of users |
| Admin.FailedIdsText | api/bot.py:283 | `', '.join(failed_user_ids) or 'N/A'` is `N/A` exactly when no send failed |
| Admin.BroadcastDetails | api/bot.py:280-284 | the broadcast's log details start with the quoted message text and end with the failed ids, or `N/A` |
| Handlers.Bot.constructor | api/bot.py:21-24 | a bot with the configured admin id and username, the given table, and an empty log, outbox and call trace |
| Handlers.Bot.Lookup | lib/supabase.py:21-29 | the lookup result is `IsUserRegistered` of the current table, and the call is recorded |
| Handlers.Bot.Register | lib/supabase.py:31-40 | the result and new table are those of `RegisterUser`, and the table keeps distinct ids |
| Handlers.Bot.FetchCount | lib/supabase.py:42-50 | the count is that of the current table, or `None` on a fault |
| Handlers.Bot.FetchList | lib/supabase.py:52-59 | the list is `RegisteredUsersList` of the current table |
| Handlers.Bot.LogAdminAction | lib/supabase.py:61-70 | the entry is appended to the audit log |
| Handlers.Bot.Start | api/bot.py:52-104 | `/start` never writes the table or the log and makes one lookup; it replies with the generic failure, "already registered", or the prompt and keyboard, according to the lookup |
| Handlers.NewRecord | api/bot.py:141-145 | the inserted row carries the clicker's id and username, and the first name when it is non-empty, otherwise `N/A`; the stored first name is never empty |
| Handlers.Bot.Accept | api/bot.py:125-160 | the accept action inserts the clicker's record exactly when the re-check finds no fault and no row and the insert succeeds; the edit says which of the four outcomes happened |
| Handlers.Bot.Act | api/bot.py:119-166 | someone else's prompt gets "not for you" and no store call; decline edits the message without a store call; an unknown action does nothing; accept behaves as `Accept`; the table changes only through an accepted, successful insert |
| Handlers.Bot.Callback | api/bot.py:107-169 | the query is answered first; an unparsable id stops there; another user's prompt (non-zero owner id) is turned away; decline and unknown actions never touch the table; the table gains the clicker's record only through a successful accept |
| Handlers.Bot.HandleCallbackQuery | api/bot.py:303 | data not matching the pattern is dropped untouched; for matching data it states the whole outbox and store calls of every branch `Callback` has: `ValueError`, someone else's prompt, decline, and the three accept outcomes; only the button's owner (non-zero owner id) can register, and at most once |
| Handlers.Bot.Help | api/bot.py:172-185 | `/help` replies with the introduction, plus the admin section exactly when the requester is the admin |
| Handlers.Bot.PlainText | api/bot.py:292-295 | a non-empty message not starting with `/` gets the "registration bot" reply; other messages get none |
| Admin.IsAdmin | api/bot.py:45-47 | the requester passes only when they are the configured administrator; with no administrator configured nobody passes |
| Handlers.Bot.RequireAdmin | api/bot.py:45-49 | passes exactly for the configured admin; anyone else gets the refusal; with no admin configured nobody passes |
| Handlers.Bot.Count | api/bot.py:188-207 | a non-admin gets the refusal, with no store call and no log entry; the admin gets the count or the failure text, and exactly one matching log entry |
| Handlers.Bot.List | api/bot.py:209-238 | a non-admin gets the refusal, with no store call and no log entry; the admin gets the rendered list, "no users" or the failure text, and exactly one matching log entry |
| Handlers.Bot.Notify | api/bot.py:240-289 | a non-admin is refused; empty text gives the usage hint without a store call; a list fault or an empty list sends nothing; otherwise one send per user, the tallies, and one log entry carrying the text, the tallies and the failed ids |

## Left out

- Handlers.Bot.Start, Handlers.Bot.Callback, Handlers.Bot.Count, Handlers.Bot.List, Handlers.Bot.Notify: the `except Exception` paths are not modelled. These are transport errors raised by reply or edit calls, and unexpected exceptions. Store failures are modelled through the helpers' `None` result.
- RegistrationFlow.PromptKeyboard: the decline button carries the corrected data `register_no:<id>`, not the `register_no` that api/bot.py:85 writes; the as-written data is `NoButtonDataAsWritten` (see "## Findings").
- RegistrationFlow.PromptKeyboardData: is about the corrected keyboard. On the keyboard api/bot.py:85 builds, the decline button carries `register_no`, which never matches the callback pattern (`RegistrationFlow.NoButtonAsWrittenNeverDispatched`).
- RegistrationFlow.PromptKeyboardRoundTrip: is about the corrected keyboard. As written, the decline button does not reach the handler, so "every button reaches the handler" holds only after the correction listed under "## Findings".
- Store.RegisterUser: `telegram_id` is assumed to be the table's primary key, so an insert with a taken id fails. The schema is not part of this model; `Store.RegisterAtMostOnce` and `Store.ListIdsDistinct` depend on this assumption.
- Handlers.Bot.Start: replies with the corrected prompt `PromptText` and the corrected keyboard, not the text api/bot.py:73-80 builds or the decline data api/bot.py:85 writes; the as-written versions are `PromptTextAsWritten` and `NoButtonDataAsWritten` (see "## Findings").
- Text.ParseInt: accepts only an optional sign followed by ASCII digits; Python's `int()` also accepts surrounding whitespace, digit-group underscores and non-ASCII digits.
- RegistrationFlow.ParseCallback: `int()` is modelled as an optional sign followed by ASCII digits. Surrounding whitespace, digit-group underscores and non-ASCII digits, which Python's `int()` also accepts, are not modelled.
- RegistrationFlow.MatchesCallbackPattern: `\d` is modelled as an ASCII digit. Python's `re` also matches other Unicode decimal digits.
- An id that does not parse raises `ValueError` outside the handler's `try`. The model ends the handler after `query.answer()`. What the library then does with the exception is not modelled.
- Store.RegisteredUsersList: the backend is taken to return rows in insertion order. The query at lib/supabase.py:55 specifies no order. `Store.ListAfterRegister` depends on this assumption.
- Store.RegisteredUserCount: the count is taken to be the number of rows, as the helper's docstring says. Whether the client fills `response.count` for `select("count", head=True)` without a count option is library behaviour outside this model.
- Handlers.Bot.LogAdminAction: a rejected or failed audit-log insert is not modelled, because the handlers ignore its result.
- The race between two concurrent accept clicks is not modelled, because each handler runs to completion in the model. The store's duplicate-id rejection (`Store.RegisterUser`) is the guard that remains.
- Markdown parse modes are not modelled. Texts are kept as plain strings. One consequence is not captured: `/list` replies with `parse_mode='Markdown'` (api/bot.py:232), and a username containing `_` is rendered outside backticks, as in ` (@john_doe)`. Telegram's legacy Markdown would likely reject that text, which sends the handler into the `except` path at api/bot.py:235-238 (not executed). The thanks edit (api/bot.py:152-153) has the same exposure, because `first_name` sits outside backticks there. A first name with an unmatched `_` or `*` would make Telegram reject the edit after the row is inserted. The handler then falls to api/bot.py:169, and a registered user is told "Something went wrong", whereas `Handlers.Bot.Accept` states the thanks edit. The greeting at api/bot.py:74 is exposed in the same way in `/start` (not executed).
- Logging through `logger` and `print` is not modelled, because it has no observable effect on users or the store.
- Environment loading, the missing-token exit, the FastAPI webhook endpoint (api/bot.py:306-334) and client construction are not modelled. The configuration is a constructor parameter.
- Command routing by the Telegram library is not modelled. `/notify`'s `context.args` is an input, already split on whitespace.
- The code has no pause between broadcast sends, and the model has none either.
- Transport send outcomes are an input: `delivered[k]` says whether the send to the k-th user succeeded.

## Findings

| source | as written | input that shows it | evidently intended | confidence | as-written member | corrected member |
|---|---|---|---|---|---|---|
| api/bot.py:73-80 | Adjacent literals are concatenated first, so the conditional expression picks between the greeting, collect, id and username lines, and the placeholder, first-name and closing lines | any user: with a username the question and first name are missing; without one the greeting, the collect line and the id are missing | all seven parts, with only the username line depending on the username | high; not executed | RegistrationFlow.PromptAsWrittenDiffers | RegistrationFlow.PromptTextLines |
| api/bot.py:85 | The decline button carries `register_no`, and the handler is registered only for `register_(yes\|no):\d+` | clicking "❌ No, thanks." on any prompt: the update matches no handler and is never answered | decline data `register_no:<id>`, which the handler receives and answers | high; not executed | RegistrationFlow.NoButtonAsWrittenNeverDispatched | RegistrationFlow.NoButtonDispatched |
