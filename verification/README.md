# Exchange bot decision logic in Dafny

This project models the decision logic of a Telegram currency-exchange bot built on aiogram 2:

- the two exchange conversations, Fiat→Crypto and Crypto→Fiat, as one state machine parameterised by direction;
- the SQLite database as an immutable record of tables;
- the middleware chain that runs before every handler: anti-flood, bot on/off, bans, required channel subscriptions and the exchange banner;
- the admin panel's guards and its bot-status toggle;
- the inline keyboards' callback data;
- the default-data seeding script;
- the comma-separated id lists read from the environment.

Modules, one per source component:

| module | file | models |
|---|---|---|
| `Outcomes` | outcomes.dfy | `Option` and `Result` |
| `Text` | text.dfy | `str.strip`, `str.split`, `str.replace`, `int()` of a decimal, `str()` of an integer, decimal bound strings |
| `Store` | store.dfy | `services/database.py` |
| `States` | states.dfy | `states/exchange_states.py` (the two exchange groups) |
| `Keyboards` | keyboards.dfy | `keyboards/inline.py` |
| `Config` | config.dfy | `data/config.py` |
| `Updates` | updates.dfy | what a middleware sees and decides (`CancelHandler` or not) |
| `Throttling` | throttling.dfy | `middlewares/throttling.py` |
| `Access` | access.dfy | `middlewares/access.py` |
| `Admin` | admin.dfy | `handlers/admin/panel.py` |
| `Exchange` | exchange.dfy | the handlers of both flow files, as one machine |
| `Flows` | flows.dfy | each flow file's steps with its own state names and currency types |
| `Pipeline` | pipeline.dfy | the middleware order of `loader.py` in front of the flow handlers |
| `Seeding` | seeding.dfy | `add_default_data.py` |

## How the model reads the code

- **Sessions.** A session is `Idle` (no FSM state) or `Active(direction, stage)`. Each stage carries exactly the fields the handlers have stored by that point. The first selection is the *source* currency: fiat in Fiat→Crypto, crypto in Crypto→Fiat. Its limits bound the amount, and the history label and exchange id put it first.
- **Handler matching.** A handler registered without `state=` matches only a user with no state. The entry buttons therefore do nothing mid-flow. The Cancel button of the summary sends `menu`, and the `menu` handler is registered without a state, so in a flow state no handler takes it and the session stays as it was. Cancel does not end the session.
- **Middlewares.** Every middleware hooks the processing phase. That phase is entered only after a handler matched, with that handler as the current one. An update no handler takes passes no gate and gets no answer.
- **Subscription loop.** The loop raises `CancelHandler` inside a `try` whose `except Exception` also catches it whenever the framework's cancel is an `Exception`. Whether that cancel leaves the loop is the parameter `cancelEscapes`:
  - `false` is the reading under which the loop goes on, prompting once per channel left;
  - `true` halts at the first channel left.
  
  Both behaviours are proved (`Access.ScanSwallowed`, `Access.ScanEscaping`).
- **Connections.** Every `with Database()` runs the table set-up, which inserts the 'on' status row when it is missing. The model applies `Store.Open` at each connection:
  - the admin status screen and the status toggle;
  - the flow handlers that read or write the store (entry, both selections, the payment method, the amount once it parses, and Send);
  - each gate that consults the store for a non-admin.
  
  A store without that row, as the seeding script leaves it, therefore gets one at the first such update.
- **Parameters.** Python's `float()` and `str()` of a float are the parameters `parse` and `render`. Bounds go through `parse` too, so a bound that does not parse takes the same `ValueError` branch as bad input. The clock (ISO date and week), the delivery of each notification, the membership lookup and the dispatcher's throttle answer are parameters as well.
- **Amount handler.** The handler indexes the first limits row without checking it. The row's presence, when the amount parses, is therefore the precondition `Exchange.LimitsReadable`.
- **Shared handler names.** Both flows offer payment methods of type `'fiat'`, as the code does. The two flow files reuse handler names, so the anti-flood middleware throttles corresponding steps of the two flows under one key (`Pipeline.FlowsShareBuckets`).

## Model

| member | source | states |
|---|---|---|
| Text.Strip | handlers/user/fiat_to_crypto.py:214 | the stripped text starts and ends with a non-whitespace character and is a contiguous slice of the input with only whitespace cut at either end |
| Text.StripIdempotent | handlers/user/fiat_to_crypto.py:233 | stripping twice gives what stripping once gives |
| Text.RemoveAllFixedIff | handlers/user/fiat_to_crypto.py:45 | `replace(pat, "")` leaves a string unchanged exactly when the pattern does not occur in it |
| Text.JoinSplit | data/config.py:11 | joining the pieces of `split(',')` with commas gives back the string |
| Text.SplitJoin | data/config.py:14 | splitting a comma-join of comma-free pieces gives back the pieces |
| Text.ParseIntOfIntToString | data/config.py:11 | `int()` reads back the decimal rendering of every integer, negatives included |
| Text.DecimalValueWhole | add_default_data.py:38 | a digit string reads as its base-ten value |
| Text.DecimalValueFraction | add_default_data.py:29 | `w.f` reads as its point value (`Text.PointValue`): w plus f over ten to the length of f |
| Store.Open | services/database.py:94-99 | every connection leaves a status row; it is 'on' only when there was none, and a store that has one is untouched |
| Store.OpenKeepsStatus | services/database.py:94-99 | reconnecting is idempotent and never turns an 'off' status back on |
| Store.AddUser | services/database.py:103-115 | succeeds exactly for an unknown id, adding it not banned and active; a known id returns false with the store unchanged |
| Store.AddUserKeepsExisting | services/database.py:103-115 | a repeated add_user fails and keeps the first row, its ban flag included |
| Store.NewUserNotBanned | services/database.py:103-112 | a freshly added user is not banned and is active |
| Store.SetBanned | services/database.py:117-141 | ban/unban change only that user's flag and no other table; an unknown id changes nothing |
| Store.BanUnbanDecide | services/database.py:117-153 | after ban the user reads as banned iff known, after unban never; other users' answers unchanged |
| Store.DeactivateUser | services/database.py:155-166 | only that user's active flag changes |
| Store.UserStats | services/database.py:168-175 | exactly one (id, active) pair per stored user |
| Store.DeactivateThenStats | services/database.py:155-175 | after deactivate_user the statistics show that known user inactive and every other pair unchanged; an unknown id leaves them as they were |
| Store.BotStatusRows | services/database.py:188-195 | at most one row, present exactly when a status is stored |
| Store.SetBotStatus | services/database.py:197-208 | writes the status when the row exists, changes nothing when it does not, and touches nothing else |
| Store.BannerRows | services/database.py:212-219 | at most one banner row, present exactly when a banner is stored |
| Store.ManageBanner | services/database.py:221-241 | 'add' with non-empty text succeeds iff no banner exists; 'remove' always clears it; any other call fails without change |
| Store.BannerAddRemove | services/database.py:221-238 | add then remove restores a banner-less store; a second add while one exists fails |
| Store.AddChannel | services/database.py:245-256 | succeeds exactly for a new id; a duplicate returns false with the store unchanged |
| Store.DeleteChannel | services/database.py:258-269 | removes exactly that id; the other channels keep their URLs |
| Store.ListingEmptyIff | services/database.py:271-278 | a listing of the channels table is empty exactly when the table is |
| Store.ChannelsListable | services/database.py:271-278 | every channels table has a listing: each row once, with its URL |
| Store.AddDeleteChannel | services/database.py:245-269 | adding a fresh channel then deleting it restores the store |
| Store.AddCurrency | services/database.py:282-293 | succeeds exactly for a new name; a duplicate returns false with the store unchanged |
| Store.DeleteCurrency | services/database.py:295-303 | removes exactly that name; other currencies unchanged |
| Store.AddDeleteCurrency | services/database.py:282-303 | adding a fresh currency then deleting it restores the store |
| Store.CurrenciesByType | services/database.py:305-315 | returns exactly the (name, type) rows of the requested type |
| Store.CurrencyDetails | services/database.py:317-327 | one row with the details exactly when the currency exists |
| Store.CurrencyLimits | services/database.py:329-339 | one (min, max) row exactly when the currency exists |
| Store.AddPaymentMethod | services/database.py:343-354 | succeeds exactly for a new name; a duplicate returns false with the store unchanged |
| Store.DeletePaymentMethod | services/database.py:356-364 | removes exactly that name; other methods unchanged |
| Store.AddDeletePaymentMethod | services/database.py:343-364 | adding a fresh method then deleting it restores the store |
| Store.PaymentMethodsByType | services/database.py:366-376 | returns exactly the methods of the requested type |
| Store.DateStamp | services/database.py:383-385 | the date column is the date, a dash, then the week number's digits |
| Store.AddExchangeHistory | services/database.py:380-395 | appends exactly one row with the dated stamp, earlier rows and other tables untouched |
| Store.HistoryAppendOnly | services/database.py:380-395 | successive appends keep every earlier row in place |
| States.GroupsWellFormed | states/exchange_states.py:3-21 | each group declares seven distinct states and ends in confirm |
| States.GroupsDiffer | states/exchange_states.py:5-21 | the groups differ only in the order of the two selections and in the fifth state |
| Keyboards.CurrencySelectionKeyboard | keyboards/inline.py:118-127 | currency buttons of the requested type followed by one 'menu' button |
| Keyboards.CurrencyButtonsMatchNames | keyboards/inline.py:118-127 | the buttons are exactly `currency_<name>` for the rows of the requested type, in input order |
| Keyboards.PaymentMethodKeyboard | keyboards/inline.py:129-138 | one `payment_<name>` button per method in order, then 'menu' |
| Keyboards.BotStatusKeyboard | keyboards/inline.py:100-107 | offers 'bot_off' iff the status is 'on', else 'bot_on', then 'back_to_admin' |
| Keyboards.ChannelSubscriptionKeyboard | keyboards/inline.py:110-114 | exactly one link per URL, in order |
| Keyboards.ExchangeRequestKeyboard | keyboards/inline.py:164-171 | approve and reject data `approve_{uid}_{exchange}_{amount}` / `reject_…` |
| Keyboards.CurrencyDataRoundTrip | keyboards/inline.py:124 | the handler's `replace` recovers a name from its button iff the name does not contain `currency_` |
| Keyboards.PaymentDataRoundTrip | keyboards/inline.py:135 | the same for `payment_` |
| Keyboards.CurrencyDataLossy | handlers/user/fiat_to_crypto.py:45 | the name `my_currency_x` comes back as `my_x` |
| Config.ParseAll | data/config.py:11 | converts every segment in order, and fails exactly when some segment is not an integer |
| Config.UnsetIsEmpty | data/config.py:11 | an unset or empty variable gives the empty list |
| Config.OnlyCommasIsEmpty | data/config.py:11 | empty segments, leading, inner and trailing, are all dropped |
| Config.IdListRoundTrip | data/config.py:11 | a comma-joined list of ids reads back as the same ids, in order, duplicates kept |
| Config.RequestIdsRoundTrip | data/config.py:14 | the request recipients follow the same rule from their own variable |
| Config.ExampleIdList | data/config.py:11 | `,7,,7,` reads as [7, 7] |
| Updates.Then | loader.py:29-33 | a cancel stops the later middlewares; notices accumulate in order |
| Throttling.OnThrottled | middlewares/throttling.py:76-108 | warns iff the excess count is at most 2, and waits the rate minus the elapsed time |
| Throttling.Check | middlewares/throttling.py:48-74 | cancels exactly when the bucket is throttled; the warning comes only for the first two excesses |
| Throttling.RateLimit | middlewares/throttling.py:111-120 | always records the limit, records the key only when it is truthy |
| Throttling.DecoratedHandlerSettings | middlewares/throttling.py:59-61 | a decorated handler is throttled at its own rate, under its own key when given |
| Throttling.UndecoratedHandlerSettings | middlewares/throttling.py:15-33 | an undecorated handler uses the default rate and the key `antiflood__<name>` |
| Throttling.DefaultKeysSeparateHandlers | middlewares/throttling.py:31-36 | undecorated handlers share a bucket iff their names are equal; the message and callback fallbacks differ |
| Throttling.AtMostTwoWarnings | middlewares/throttling.py:86-88 | however long a burst of excesses counted 1, 2, 3, … lasts, at most two warnings |
| Access.BotStatusGate | middlewares/access.py:17-45 | cancels exactly a non-admin while the status row says 'off', with the disabled notice |
| Access.BanGate | middlewares/access.py:53-81 | cancels exactly a banned non-admin, with the banned notice |
| Access.Scan | middlewares/access.py:106-125 | cancels only when the cancel escapes and some channel from here on reports 'left' |
| Access.SubscriptionGate | middlewares/access.py:89-165 | passes admins and an empty channels table untouched; halts exactly a non-admin, when the cancel escapes, for whom some listed channel reports 'left' |
| Access.BannerGate | middlewares/access.py:173-189 | never cancels; shows the banner iff a non-admin presses exactly 'exchange' and a banner exists |
| Access.ScanSwallowed | middlewares/access.py:106-125 | with the cancel caught: never cancels, one prompt per channel left, each listing the URLs of channels 1..k |
| Access.ScanEscaping | middlewares/access.py:144-161 | with the cancel escaping: the first channel left ends the loop with one prompt listing channels 1..k |
| Access.LookupFailureSkipped | middlewares/access.py:122-125 | a failed membership lookup is treated exactly as not having left |
| Access.TwoChannelsLeft | middlewares/access.py:144-165 | a table of two channels, both left: two prompts ([u1], [u1, u2]) when caught, one when escaping |
| Admin.CurrentStatus | handlers/admin/panel.py:140-143 | the stored status, 'on' when there is no row |
| Admin.Requested | handlers/admin/panel.py:168 | 'on' iff the data is 'bot_on', otherwise 'off' |
| Admin.Handle | handlers/admin/panel.py:13-179 | every entry point denies a non-admin and leaves the store alone; only the status screen and the toggle connect, they touch only the status, and a toggle stores the requested status whether or not a row existed |
| Admin.AdminsFromEnvironment | handlers/admin/panel.py:9-11 | the admins are exactly the ids listed in the variable |
| Admin.NoAdminsWhenUnset | data/config.py:10-11 | with the variable unset every entry point denies |
| Admin.ToggleThenView | handlers/admin/panel.py:125-179 | a toggle stores the requested status and the status view then offers the opposite toggle |
| Admin.ToggleIdempotent | handlers/admin/panel.py:153-172 | pressing the same toggle twice equals pressing it once |
| Admin.SwitchOffSeededStore | handlers/admin/panel.py:136-172 | on the store the seeding script leaves, with no status row, opening the status screen shows 'on' and switching off halts ordinary users |
| Admin.ViewAgreesWithGate | middlewares/access.py:23-30 | the panel shows 'off' exactly when the bot-status gate cancels ordinary users |
| Exchange.Open | handlers/user/fiat_to_crypto.py:10-37 | enters the first state iff currencies of the source type exist, otherwise stays stateless with "no currencies" |
| Exchange.ChooseSource | handlers/user/fiat_to_crypto.py:39-75 | stores the selected name and moves on iff destination currencies exist, otherwise ends the session |
| Exchange.ChooseDest | handlers/user/fiat_to_crypto.py:77-114 | moves on iff some payment method of type 'fiat' exists, otherwise ends the session |
| Exchange.ChooseMethod | handlers/user/fiat_to_crypto.py:116-156 | asks for the amount with the source currency's limits, or ends the session when it has no row |
| Exchange.EnterAmountStep | handlers/user/fiat_to_crypto.py:158-205 | either stays exactly where it was or advances to the details step keeping every field |
| Exchange.EnterDetailsStep | handlers/user/fiat_to_crypto.py:207-224 | stores the stripped details and asks for the comment |
| Exchange.EnterCommentStep | handlers/user/fiat_to_crypto.py:226-254 | stores the stripped comment and shows the summary with Send and Cancel |
| Exchange.Notify | handlers/user/fiat_to_crypto.py:302-310 | one attempt per recipient, in order, the same keyboard each time, a failure recorded and skipped |
| Exchange.Submit | handlers/user/fiat_to_crypto.py:256-316 | ends the session, notifies every recipient, appends the history row |
| Exchange.StepIsLinear | handlers/user/fiat_to_crypto.py:10-316 | an update changes nothing, ends the session, opens a flow, or advances one state keeping all collected fields |
| Exchange.StepWritesOnlyHistory | handlers/user/fiat_to_crypto.py:16-314 | apart from the status row a connection adds, the store changes only on Send, by exactly one appended history row |
| Exchange.CancelKeepsSession | handlers/user/commands.py:105-114 | Cancel sends 'menu', which no flow handler takes: session and store unchanged |
| Exchange.DoubleSubmitHarmless | handlers/user/fiat_to_crypto.py:256-271 | a second Send finds no session: no second row, no second notification |
| Exchange.EntryIgnoredMidFlow | handlers/user/fiat_to_crypto.py:10 | the entry buttons do nothing while a flow is in progress |
| Exchange.AmountAcceptsExactlyInterval | handlers/user/fiat_to_crypto.py:172-192 | advances iff min ≤ amount ≤ max, otherwise stays and restates the bounds |
| Exchange.UnparsableAmountKeepsSession | handlers/user/fiat_to_crypto.py:163-205 | unparsable input or bound: state and fields unchanged, "enter a valid number"; unparsable input does not touch the store |
| Exchange.AmountDependsOnlyOnCurrentBounds | handlers/user/fiat_to_crypto.py:172-176 | the decision depends on the bounds read at that moment and nothing else in the store |
| Exchange.SubmitIndependentOfDelivery | handlers/user/fiat_to_crypto.py:302-314 | session and store after Send do not depend on which notifications fail |
| Exchange.SubmitHistoryRow | handlers/user/fiat_to_crypto.py:312-314 | the row records the rendered amount, the user id, the pair label and the date stamp |
| Exchange.SubmitNotifiesEveryRecipient | handlers/user/fiat_to_crypto.py:300-310 | every recipient gets approve/reject buttons naming the user, `{source}_{dest}` and the amount |
| Exchange.ReplyIffMatched | handlers/user/fiat_to_crypto.py:39-40 | the user gets an answer iff some handler is registered for the update in that state |
| Exchange.StateOfNamesStage | states/exchange_states.py:13-21 | two sessions stand in the same aiogram state iff same flow and same step |
| Flows.FiatToCryptoOpens | handlers/user/fiat_to_crypto.py:16-30 | 'fiat_to_crypto' sets select_fiat iff a fiat currency exists |
| Flows.FiatToCryptoSelectsFiat | handlers/user/fiat_to_crypto.py:45-67 | stores the fiat name and sets select_crypto, or ends the session when no crypto exists |
| Flows.FiatToCryptoSelectsCrypto | handlers/user/fiat_to_crypto.py:83-106 | sets select_payment_method iff a 'fiat' payment method exists |
| Flows.FiatToCryptoShowsFiatLimits | handlers/user/fiat_to_crypto.py:122-147 | the prompt shows the fiat currency's limits; a missing row ends the session |
| Flows.FiatToCryptoAcceptsAmount | handlers/user/fiat_to_crypto.py:179-192 | an amount within the fiat bounds sets enter_wallet_address |
| Flows.FiatToCryptoStoresNone | handlers/user/fiat_to_crypto.py:213-241 | the wallet address is stored stripped; the comment 'none' is stored as is and confirm is set |
| Flows.FiatToCryptoSubmits | handlers/user/fiat_to_crypto.py:271-314 | session ended, one row labelled `fiat → crypto`, approval of `{fiat}_{crypto}` |
| Flows.CryptoToFiatOpens | handlers/user/crypto_to_fiat.py:16-30 | 'crypto_to_fiat' sets select_crypto iff a crypto currency exists |
| Flows.CryptoToFiatSelectsCrypto | handlers/user/crypto_to_fiat.py:45-67 | stores the crypto name and sets select_fiat, or ends the session when no fiat exists |
| Flows.CryptoToFiatSelectsFiat | handlers/user/crypto_to_fiat.py:83-106 | sets select_payment_method iff a 'fiat' payment method exists |
| Flows.CryptoToFiatShowsCryptoLimits | handlers/user/crypto_to_fiat.py:122-147 | the prompt shows the crypto currency's limits; a missing row ends the session |
| Flows.CryptoToFiatChecksCryptoBounds | handlers/user/crypto_to_fiat.py:163-205 | the amount is checked against the crypto bounds: inside sets enter_payment_details, outside stays |
| Flows.CryptoToFiatStoresStripped | handlers/user/crypto_to_fiat.py:212-241 | payment details and comment stored stripped, then confirm |
| Flows.CryptoToFiatSubmits | handlers/user/crypto_to_fiat.py:271-314 | session ended, one row labelled `crypto → fiat`, rejection data for `{crypto}_{fiat}` |
| Pipeline.Gates | loader.py:29-33 | the chain in registration order; letting a handler through implies the anti-flood gate passed |
| Pipeline.ProceedIff | middlewares/access.py:12-189 | the handler runs iff the bucket allows it and, for a non-admin, the bot is not off, the user is not banned and no escaping cancel fires |
| Pipeline.AdminsOnlyThrottled | middlewares/access.py:19-21 | admins are stopped only by throttling and see no other gate's notice |
| Pipeline.ThrottledStopsFirst | middlewares/throttling.py:67-74 | a throttled update is cancelled with at most the warning, nothing from later gates |
| Pipeline.BotOffTellsOnlyThat | middlewares/access.py:32-45 | with the bot off a non-admin sees only the disabled notice |
| Pipeline.BannerBeforeHandler | middlewares/access.py:173-189 | with no channels stored, a non-admin pressing 'exchange' sees the banner and the handler still runs |
| Pipeline.AsUpdate | middlewares/access.py:17-32 | a button press reaches the gates as a callback with its data, a message as a message with its text |
| Pipeline.Handle | loader.py:29-33 | an update no flow handler takes meets no gate and changes nothing |
| Pipeline.GatesStore | middlewares/access.py:17-184 | the gates' connections leave the store as it was for admins and throttled updates, and opened for every other update |
| Pipeline.GatesOnlyCancel | middlewares/access.py:27-30 | a cancelled update leaves the session as it was and the store changed at most by the gates' connections; a passing one runs the flow on that store |
| Pipeline.FlowsShareBuckets | handlers/user/crypto_to_fiat.py:77-78 | choosing the fiat currency is throttled under `antiflood__select_fiat_handler` in both flows |
| Pipeline.StepsOfOneFlowSeparate | middlewares/throttling.py:59-61 | within one flow two steps share a bucket iff they are the same step |
| Pipeline.BotOffStopsFlows | handlers/admin/panel.py:153-172 | after an admin switches the bot off on any store, every allowed non-admin flow update is cancelled with the disabled notice |
| Pipeline.RequestsReachConfiguredIds | handlers/user/fiat_to_crypto.py:300-310 | Send notifies exactly the ids configured in `ANKET_SEND`, in order, each with the same buttons; nobody when the variable is unset |
| Pipeline.ConfiguredIds | data/config.py:14 | `ANKET_SEND` unset reads as no recipients, and a rendered non-empty list reads back as that list |
| Seeding.InsertOrSkip | add_default_data.py:46-54 | afterwards exactly the old and the listed names exist; existing rows keep their values; first rows of fresh names land as given |
| Seeding.InsertOrSkipTaken | add_default_data.py:53-54 | rows whose names are all taken change nothing |
| Seeding.InsertEach | add_default_data.py:46-65 | the statement-by-statement loop computes the insert-or-skip result |
| Seeding.SeedCurrencies | add_default_data.py:23-67 | touches only the currencies table |
| Seeding.SeedMethods | add_default_data.py:69-113 | touches only the payment-methods table |
| Seeding.Main | add_default_data.py:115-155 | exit code 0 iff no statement failed, otherwise 1 |
| Seeding.MainCommits | add_default_data.py:144-155 | a failure among the currencies keeps nothing; one among the methods keeps the committed currencies |
| Seeding.SeedIdempotent | add_default_data.py:46-111 | running the seeding twice equals running it once |
| Seeding.SeedKeepsExisting | add_default_data.py:53-54 | an existing row under a default name is never overwritten; every default name is present afterwards |
| Seeding.DefaultNamesDistinct | add_default_data.py:28-43 | the default names of each list are distinct |
| Seeding.SeedEmpty | add_default_data.py:28-89 | on empty tables, exactly the five crypto and five fiat currencies and methods by type |
| Seeding.DefaultCounts | add_default_data.py:74-89 | five of each type |
| Seeding.DefaultBoundsOrdered | add_default_data.py:29-42 | every default currency's bounds read as decimals with min ≤ max |

## Left out

- Chat transport is not modelled: sending, editing and deleting messages, alert answers and `get_chat_member`. Keyboards are lists of callback data or URLs. Message texts are not modelled.
- SQLite mechanics are not modelled: connection objects, cursors, table creation and logging. Of the connection set-up, only the status-row insert is modelled (`Store.Open`). The query functions of `Store` each model one query on an open connection. Errors other than a key clash are left out, except in the seeding script, where they are the `Fault` parameter. A query without ORDER BY is a set, or a listing given as a parameter. The channel listing is any order of the table's rows (`Store.ListsChannels`); which order SQLite picks is not modelled.
- `get_all_user_ids`, `get_channels` and `get_exchange_history` are whole-table reads. They are the store's fields themselves and have no function of their own.
- Python `float()` and `str()` of a float are the parameters `parse` and `render`: nan, inf, exponents and rounding are outside the model.
- Exchange.EnterAmountStep: the `IndexError` raised when the source currency's row disappears between the prompt and the amount is excluded by the precondition `LimitsReadable`. The error is not modelled.
- Text.ParseInt: covers surrounding whitespace, an optional sign and ASCII digits. Underscores between digits and non-ASCII digits, which `int()` also accepts, are not modelled.
- The aiogram throttle bucket (timing, per-user counters) is an oracle. So are `asyncio.sleep` and the membership lookup.
- Concurrency between users is not modelled; each update is processed alone.
- `handlers/user/commands.py` is static replies. Its `/start` calls `add_user`, covered by `Store.AddUser`. Its `menu` handler matters only through its registration (`Exchange.CancelKeepsSession`).
- The admin state groups in `states/exchange_states.py` have no handlers in the modelled code.
- The admin panel's statistics and broadcast screens only display keyboards; they appear as views without content.
- Pipeline.Handle: only the flow handlers are routed. The other handlers reach the chain through `Pipeline.Gates`, which takes any matched handler.
- Bootstrapping (`app.py`, `loader.py` apart from the middleware order, `utils/`) and the parallel `exchanger/` application are not part of this model.
