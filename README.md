# Verification-code store of a chat-bot / web-app login

The system lets a chat user prove who they are to a web site. The chat bot
issues a four-digit code for the user's id and keeps it, with an expiry one
minute ahead, in a map from user id to `(code, expires_at)`. The web app
reads that map, accepts the code once while it is unexpired, deletes that
user's entry, writes a verified-user profile and opens a session.

This project models that store and both of its users in Dafny:

- `VerificationStore` (`store.dfy`): the entry type, the one-minute
  validity window, what "live" means, the purge done before every save
  (`Purge`) and what a read observes (`Lookup`), with lemmas about them.
- `Bot` (`bot.dfy`): `generate_code` as a function of the random draw, and
  the process-wide dict `verification_codes` as the field `codes` of the
  class `CodeStore`, whose methods update it in place like the Python
  functions do (`save_verification`, `get_verification`, `verify_code`,
  `save_verification_data`, and the store part of the `start` command).
- `Web` (`web.dfy`): the web-side `verify_code`, which works on the map
  loaded from the shared file and returns the map it writes back (or
  nothing), the status selection of the `/verify` handler (`Decide`) and
  the handler itself (`Verify`).
- `Text` (`text.dfy`): Python's `str.strip()` with Python's whitespace
  set, which the handler applies to both inputs.
- `Scenarios` (`scenarios.dfy`): verified client scenarios of the lifecycle
  (issue, redeem within the minute, redeem again, redeem late, blank input).

Time is an integer number of microseconds, passed to every operation as
`now`; the random draw is an input of four indices into `"0123456789"`;
the outcome of the profile write is an input (`Saved` or `Raised(message)`).

The handler checks only that the stripped inputs are non-blank. It does
not check that the code is four digits before reading the store. The
expiry is a fixed minute.

## Model

| member | source | states |
|---|---|---|
| `VerificationStore.Purge` | app/bot.py:71-77 | the result holds exactly the entries whose expiry is strictly after `now`, each with its value unchanged |
| `VerificationStore.PurgeLater` | app/bot.py:71-77 | purging at `t1` and then at `t2 >= t1` is the same as purging once at `t2` |
| `VerificationStore.PurgeIdempotent` | app/bot.py:71-77 | purging twice at the same instant gives the same map as purging once |
| `VerificationStore.PurgeInvisible` | app/bot.py:47-56 | a purge at `now` changes no read at `now` or later: an expired entry that is still present reads as absent, just as if it had been removed |
| `VerificationStore.ExpiredStaysExpired` | app/bot.py:50-55 | an entry expired at `now` is unreadable at every later instant |
| `VerificationStore.PurgeKeepsCodes` | app/bot.py:71-77 | if every stored code is four digits, so is every code after a purge |
| `Text.StripStart` | app/main.py:63-64 | the result is no longer than the input, everything dropped is whitespace, and the result does not start with whitespace |
| `Text.StripEnd` | app/main.py:63-64 | the result is no longer than the input, everything dropped is whitespace, and the result does not end with whitespace |
| `Text.StripStartSuffix` | app/main.py:63-64 | stripping the start leaves a suffix of the input |
| `Text.StripEndPrefix` | app/main.py:63-64 | stripping the end leaves a prefix of the input |
| `Text.Strip` | app/main.py:63-64 | a non-empty result neither starts nor ends with whitespace, and it is no longer than the input |
| `Text.StripIsSlice` | app/main.py:63-64 | the stripped string is a slice `s[i..j]` of the input with only whitespace before `i` and after `j`: exactly the surrounding whitespace is removed |
| `Text.StripBlank` | app/main.py:63-66 | the stripped input is empty exactly when every character of it is whitespace, which is when the handler answers 400 |
| `Text.StripIdempotent` | app/main.py:63-64 | stripping a stripped string changes nothing |
| `Bot.GenerateCode` | app/bot.py:21-23 | every generated code is four characters, each a decimal digit, and the draw can be read back from it |
| `Bot.CodePicks` | app/bot.py:21-23 | reading a four-digit code back gives a valid draw: four indices below ten |
| `Bot.EveryCodeIsGenerated` | app/bot.py:21-23 | every four-digit string, leading zeros included, is the code of the draw read back from it |
| `Bot.GenerateCodeInjective` | app/bot.py:21-23 | two different draws never give the same code |
| `Bot.CodeStore.constructor` | app/bot.py:18-19 | the store starts empty |
| `Bot.CodeStore.SaveVerificationData` | app/bot.py:68-80 | the store keeps exactly the entries whose expiry is strictly after `now`, values untouched; four-digit codes stay four-digit codes |
| `Bot.CodeStore.SaveVerification` | app/bot.py:25-33 | afterwards the user's entry is `(code, now + 1 minute)`, replacing any earlier record; every other entry survives exactly when it is live at `now`, unchanged; the four-digit invariant is kept |
| `Bot.CodeStore.IssueCode` | app/bot.py:82-86 | the `start` command's store effect: a generated four-digit code is saved for the user, reads back at `now`, and reads as absent from `now + 1 minute` on |
| `Bot.CodeStore.GetVerification` | app/bot.py:45-56 | returns the stored code exactly when the user is present and `now` is before the expiry; a present but expired entry is removed (with every other expired entry) and its code is not returned; otherwise nothing changes; no value ever changes |
| `Bot.CodeStore.VerifyCode` | app/bot.py:58-66 | returns the user id exactly when the user's live code equals `code` (and, as Python's truthiness test demands, is non-empty; always so for four-digit codes); on success the user is gone; a wrong code on a live entry leaves the store unchanged; no key is added, no value changes, and apart from the user only expired keys are removed |
| `Web.VerifyCode` | app/main.py:26-41 | accepts exactly when the user is present, `now` is before the expiry and the stored code equals `code`, which is exactly when the bot's read would return that code; on success the written map is the loaded map with only that user removed; on failure nothing is written |
| `Web.Decide` | app/main.py:66-97 | 400 exactly when a stripped input is blank; 401 with one fixed reply exactly when the code was refused, wrong or expired alike; 200 with a session for the user when accepted and the profile write returned; 500 quoting the error when accepted and the profile write raised; `success` only with 200 |
| `Web.Verify` | app/main.py:59-97 | blank inputs get 400 and the store is neither written nor the profile attempted; otherwise the reply is `Decide` of the stripped inputs and of whether the bot's read at `now` gives that code; the code is consumed (the map without the user is written) whenever it was accepted, also when the profile write then fails |
| `Web.VerifyTwice` | app/main.py:36-41 | single use: after a request was accepted (200 or 500), the same request against the map it wrote is answered with the invalid-code reply |

## Left out

- Telegram handlers and bot start-up (`start`'s reply text, `verify`, `help_command`, `handle_message`, `main`): chat SDK wrappers; only the store effect of `start` is modelled, as `IssueCode`. The constructor models the empty module-level dict; a running bot instead starts from the contents of the file, which `main` loads into the store; every method takes any starting store, so this start-up state is simply not fixed by the model.
- Flask routing, templates and the other routes (`index`, `dashboard`, `logout`, `check_session`): web-framework plumbing; the session is reduced to the user id a 200 reply stores in it.
- Firebase initialisation and `save_user_to_firebase`: a foreign database; it appears only as the outcome `Saved` or `Raised(message)`.
- `load_verifications` and the `json.dump` writes: file I/O; the web side takes the loaded map as input and returns the map it writes, the bot's file write is not modelled.
- `random.choices`, `datetime.now()` and ISO-string formatting and parsing: the draw and the instant are inputs, timestamps are integers.
- Several clock readings per call: the source reads the clock again inside `save_verification_data`, slightly later; the model uses one instant per operation, so an entry that expires between the two readings is kept by the model where the source drops it.
- Sharing of `verification_data.json` between the two processes: the bot rewrites the file from its own memory, so an entry the web side deleted comes back with the bot's next save; this is a cross-process consistency concern and not modelled.
- A request body that is not a JSON object, or whose fields are not strings: Flask answers those with its own error before the handler's logic; the body is modelled as a map from names to strings.
