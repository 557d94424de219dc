# FootBot subscription lifecycle, in Dafny

FootBot sells access to a Telegram channel. A user presses a plan button in the chat. `process_plan` asks the payment processor for a payment link through `create_invoice`, using an order id of the form `tg-<user id>-<callback id>`. When the link is paid, the processor posts a Closed notification to `payment_webhook`. The webhook checks its signature, reads the user id from `orderId` and the plan from the first word of `description`, inserts a `subscriptions` row and schedules an unban. A background job, `_remove_expired_subscriptions`, which `start_scheduler` starts once, periodically finds the users whose latest subscription has lapsed. It fires the revocation callback for each of them and deletes their lapsed rows, all in one transaction. `cb_my_subs` lists a user's rows, latest expiry first, each marked active or expired.

The project models these pieces as pure functions over immutable data:

- **The table.** `Models.Store` is the `subscriptions` table as a sequence of rows in insertion order. Instants are integer seconds and amounts are integer kopecks.
- **The sweep.** `Scheduler.Tick` is one sweep. It is parameterised by the set of users whose callback throws and by where a database error strikes (`Fault`). `SweepFacts` holds its properties.
- **The webhook.** `Webhook.Grant` is the webhook of entry.py. `WebhookDraft.GrantV1` is its earlier draft in bot.py. `DraftFacts` compares the two.
- **The invoice.** `Payments.CreateInvoice` is `create_invoice`, and the processor's HTTP answer is a parameter.
- **The chat handlers.** `Handlers` holds the plan table, `process_plan` and `cb_my_subs`.
- **Python semantics.** `PyText` and `PyJson` model the Python primitives the code relies on: `str.split`, `rstrip`, `int()` of a string or a JSON value with the narrower whitespace `int()` strips, `str()` of an integer, and truthiness. `UrlQuery` is the `key=value&…` query text the mock payment link carries, with a reader for it.
- **The whole round trip.** `Flows` follows a purchase from the button press to the sweep. It also holds the correction described under Findings.

## Model

| member | source | states |
|---|---|---|
| Models.Insert | app/models.py:18-24 | adding a subscription appends exactly one row with the given user, plan and expiry, leaves every earlier row in place, and gives it a primary key no existing row has, so keys stay unique |
| Models.Latest | app/scheduler.py:83-90 | the latest row of a user is None exactly when the user has no row; otherwise it is one of that user's rows and no row of the user expires later |
| Models.Restrict | app/handlers.py:53-58 | filtering on `user_id` keeps exactly the rows of the chosen users, never more rows than the table has, and keeps keys unique |
| Scheduler.Users | app/scheduler.py:47-54 | the `GROUP BY user_id` scan yields every user that has a row, each once, and no other |
| Scheduler.Partition | app/scheduler.py:61-69 | a scanned user is expired exactly when the maximum expiry is at or before now, and active exactly when it is later; each user lands in one list, once |
| Scheduler.Prune | app/scheduler.py:105-113 | the DELETE removes exactly the rows of the chosen users that expire at or before now and keeps every other row |
| Scheduler.Expire | app/scheduler.py:81-113 | the loop fires its callbacks to the expired users in list order, one each, and reaches the end of the list unless an error escapes; it only ever deletes rows |
| Scheduler.Tick | app/scheduler.py:31-124 | a tick that does not commit leaves the table as it was; a tick only deletes rows; every revoked user is an expired one; the tick returns early exactly when the scan succeeds and finds nobody expired |
| Scheduler.StartSchedulerOnce | app/scheduler.py:127-149 | a second start returns the scheduler already in place unchanged; a first start creates one holding the single sweep job at the given interval |
| Scheduler.StartScheduler | app/scheduler.py:127-149 | with a scheduler already in place it is returned as it is; otherwise the new scheduler holds exactly one job, the sweep under its fixed id at the given interval |
| Scheduler.PlanOf | app/scheduler.py:83-91 | the plan handed to the callback, `"-"` without a row; `SweepFacts.RevokedPlanIsLatest` states that every callback gets the plan of a row of that user with the greatest expiry |
| SweepFacts.LiveUsersSpec | app/scheduler.py:61-69 | a user counts as live exactly when some row of theirs expires after now |
| SweepFacts.PruneNobody | app/scheduler.py:105-113 | deleting for no user leaves the table as it was |
| SweepFacts.PruneTwice | app/scheduler.py:81-113 | deleting user by user in the loop is the same as one delete for all of those users |
| SweepFacts.PruneKeepsLatest | app/scheduler.py:83-90 | deleting another user's rows does not change a user's latest row, so each callback sees the plan the table held before the loop |
| SweepFacts.ExpiredIffNoLiveRow | app/scheduler.py:47-69 | a user is expired in a tick exactly when they have rows and none of them expires after now |
| SweepFacts.ExpireHealthy | app/scheduler.py:81-113 | without errors the loop from any position fires one callback per remaining user, in order, with that user's latest plan, and deletes exactly their lapsed rows |
| SweepFacts.PruneIsRestrict | app/scheduler.py:105-113 | when the deleted rows are exactly those of users not kept, the delete leaves exactly the kept users' rows |
| SweepFacts.HealthyRunFromStart | app/scheduler.py:81-113 | a healthy loop over distinct users fires one callback per user in order, never aborts, and deletes exactly their lapsed rows |
| SweepFacts.ExpiredRowsAreDeadUsers | app/scheduler.py:61-113 | a row is deleted by a tick exactly when its user has no row in force |
| SweepFacts.TickSurvivors | app/scheduler.py:31-124 | after a healthy tick the table holds exactly the rows of users that still have a row in force, in table order |
| SweepFacts.TickHealthyCalls | app/scheduler.py:76-116 | a healthy tick fires one callback per expired user, in scan order, with the plan of the user's latest row; it commits when there was someone to expire and returns early otherwise |
| SweepFacts.RevokedExactlyOnce | app/scheduler.py:61-103 | a healthy tick revokes exactly the users who have rows and none in force, and never revokes a user twice |
| SweepFacts.RevokedPlanIsLatest | app/scheduler.py:83-100 | the plan passed to the callback is the plan of a row of that user with the greatest expiry |
| SweepFacts.TickKeepsLiveRows | app/scheduler.py:105-113 | a healthy tick keeps every row still in force, and keeps a row exactly when its user still has a row in force |
| SweepFacts.RevokedUserHasNoRows | app/scheduler.py:105-116 | after a healthy tick a revoked user has no row left |
| SweepFacts.ExpireUnderFault | app/scheduler.py:81-121 | with a failing lookup or delete, the loop fires a prefix of the healthy loop's callbacks: those before the failing lookup, or up to and including the user whose delete fails |
| SweepFacts.TickUnderFault | app/scheduler.py:44-124 | a tick rolls back exactly when the scan, the commit or a loop query fails while there were users to expire; the table is then unchanged and the callbacks fired are a prefix of the healthy ones; a committed tick equals the healthy tick |
| SweepFacts.TickKeepsUniqueIds | app/scheduler.py:105-121 | a tick never breaks uniqueness of primary keys, whatever fails |
| SweepFacts.ExpireIgnoresRaises | app/scheduler.py:99-103 | a throwing callback is caught: which users' callbacks throw changes neither the calls made, nor the deletes, nor whether the loop aborts |
| SweepFacts.TickIgnoresRaises | app/scheduler.py:99-121 | the same for a whole tick: throwing callbacks change neither the calls, the table after the tick nor its outcome |
| SweepFacts.StoreAgreesWithRevocations | app/scheduler.py:61-116 | after a healthy tick a user with rows still has a row in force exactly when they were not revoked |
| SweepFacts.NoExpiredNoChange | app/scheduler.py:76-78 | when every user has a row in force, a tick fires no callback and changes nothing, whatever fails |
| SweepFacts.SecondTickIsNoop | app/scheduler.py:31-124 | a second tick at the same instant after a healthy one fires no callback and changes nothing |
| SweepFacts.RowExpiringNowIsSwept | app/scheduler.py:66-67 | a lone row that expires exactly at now makes its user expired, because `max_exp <= now` is inclusive; the general boundary is `SweepFacts.ExpiredIffNoLiveRow` |
| Payments.LoadConfig | app/payments.py:5-8 | each base URL is the environment value, or its default, with exactly its trailing slashes removed; the token is the environment token; the mode is the environment value, "real" when unset; an unset app base URL is empty |
| Payments.MockMode | app/payments.py:15 | mock mode: `MODE == "mock"` or a falsy token; `Payments.MockModeOfEnv` ties it to the environment and `Payments.CreateInvoice` states what each mode returns |
| Payments.MockModeOfEnv | app/payments.py:5-15 | the code takes the mock branch exactly when `PAYMENTS_MODE` is "mock" or `WATA_TOKEN` is unset or empty; an unset mode alone means real mode |
| Payments.OrderRef | app/payments.py:18-27 | the order reference is the order id when one is given and non-empty, and otherwise the user id as text, which `int()` reads back to that user id |
| Payments.AmountTextValue | app/payments.py:18 | the two-decimal amount text of a non-negative amount is whole units, a dot and two digits, and reads back as exactly that many kopecks |
| Payments.MockLink | app/payments.py:18 | the mock link starts with the app base URL and ends with the order reference; what it carries in between is stated by `Payments.MockLinkReadBack` |
| Payments.MockLinkReadBack | app/payments.py:18 | the mock link is the base URL, `/testpay?` and a query from which a reader gets back the user id (through `int()`), the plan, the amount in kopecks and the order reference, whenever the plan and the order reference hold no `&` |
| Payments.BuildPayload | app/payments.py:23-30 | the payload carries the amount, the currency RUB and the order reference; each redirect URL is sent exactly when it is given and non-empty, and then unchanged |
| Payments.CreateInvoice | app/payments.py:10-41 | mock mode without an app base URL fails; mock mode with one returns the mock link dictionary; in real mode the result is an HTTP error exactly for a status of 400 or more, a reply below 400 with a JSON body returns that body, no reply is a transport failure, and a reply that is not JSON is a decoding failure |
| Handlers.ChooseReply | app/handlers.py:109-135 | an HTTP error, and only that, gives "try later"; any other failure, or an invoice that is not a dictionary, gives the error message; a dictionary gives "no link" exactly when its `url` is falsy, and otherwise the payment link reply with the plan amount and that `url` |
| Handlers.ProcessPlan | app/handlers.py:100-136 | a payment link reply always shows the price of the pressed plan; mock mode never answers "try later" |
| Handlers.ProcessPlanReplies | app/handlers.py:100-136 | the reply to a plan button: the mock link, or the error message when mock mode has no base URL; in real mode "try later" exactly on an HTTP error, the error message when there is no reply, no JSON or no dictionary, "no link" exactly when the dictionary has a falsy `url`, and the processor's `url` when it is truthy |
| Handlers.OrderId | app/handlers.py:104 | the order id starts with the `tg-` tag and ends with the callback id |
| Handlers.PlanTableShape | app/handlers.py:14-19 | every plan has a positive price, and the test plan is the only one that lasts no days |
| Handlers.InsertDesc | app/handlers.py:56 | inserting a row into a list ordered by descending expiry keeps it ordered and adds exactly that row |
| Handlers.SortByExpiryDesc | app/handlers.py:56 | `order_by(expires_at.desc())` yields a permutation of its input in descending expiry order |
| Handlers.RedirectUrlsShape | app/handlers.py:21-107 | the success and fail URLs exist exactly when the configured base is non-empty, and each is the base, which has no trailing slash, plus its path |
| Handlers.BaseUrl | app/handlers.py:21 | the base is `APP_BASE_URL` when set, else `BASE_URL`, else empty, with exactly its trailing slashes removed |
| Handlers.MySubsEmptyIffNoRows | app/handlers.py:60-61 | the "no subscriptions" text is shown exactly to a user without rows |
| Handlers.MySubs | app/handlers.py:47-75 | the error text is shown exactly when the query or the edit of the chat message fails, both being inside the one `try`; a listing has one line per row of the user, and at least one |
| Handlers.MySubsListsUserRows | app/handlers.py:53-67 | the listing holds exactly the user's rows, as a multiset, latest expiry first, each marked active exactly when it expires after now |
| Webhook.PlanDays | entry.py:122-123 | a plan's duration is never negative and is positive exactly for the three plans of the days table |
| Webhook.BodyFields | entry.py:109 | `get_json(silent=True) or {}`: a missing or falsy body reads as the empty dictionary, a dictionary as its fields, and any other truthy JSON as no dictionary, on which `.get` raises |
| Webhook.CommitGrant | entry.py:127-138 | the unban is scheduled exactly when the insert commits; the committed table is the old one plus the row of that user and plan, expiring the plan's days after now; a failed commit answers 500 and leaves the table as it was |
| Webhook.GrantClosed | entry.py:112-139 | a Closed notification inserts and unbans only when it is admitted, that is with a non-zero user id and a plan of positive duration; the row is that user, the first word of the description, and now plus the plan's days; a description with no first word, or a truthy non-string one, raises and answers 500; otherwise nothing changes |
| Webhook.GrantWith | entry.py:100-141 | a bad or missing signature gives 400 and nothing else; a body that is a truthy non-dictionary gives 500; a notification that is not Closed gives 200 and nothing else; a grant is 200, admitted, and appends the row for the unbanned user |
| Webhook.Grant | entry.py:113-116 | an unbanned user is the non-zero `int(orderId)` of the notification body |
| Webhook.GrantClosedIff | entry.py:113-135 | a Closed dictionary is granted exactly when it is admitted and the insert commits |
| Webhook.GrantClosedSkips | entry.py:125 | a Closed notification with a description but no admitted user or plan is acknowledged with 200 and changes nothing |
| Webhook.GrantInsertsIff | entry.py:100-141 | a row is inserted and the unban scheduled exactly when every guard passes and the insert commits; otherwise the table is unchanged |
| Webhook.ReplayInsertsAgain | entry.py:112-135 | there is no deduplication on `orderId`: delivering a granted notification again inserts a second, identical grant |
| WebhookDraft.DraftClosed | bot.py:44-58 | the draft answers 500 when `int(orderId)` raises or the description is not a string with a first word; otherwise it inserts for any user id and any plan, with expiry now plus the plan's days |
| WebhookDraft.GrantV1 | bot.py:36-60 | a bad signature or a body that is not JSON gives 400; a truthy non-dictionary body gives 500; a dictionary that is not Closed gives 200 and changes nothing; an inserted row belongs to the unbanned user and expires the plan's days after now; otherwise the table is unchanged |
| DraftFacts.DraftInsertsIff | bot.py:36-60 | the draft inserts exactly when its parsing succeeds and the commit goes through, whatever the user id and the plan; a plan outside the days table expires at once |
| DraftFacts.DraftFailsOnNonIntegerOrderId | bot.py:45 | where `int(orderId)` raises, the draft answers 500 and the current handler leaves the table as it was |
| DraftFacts.DraftClosedAgrees | bot.py:44-58 | on every Closed dictionary the current handler admits, the draft does exactly what it does |
| DraftFacts.DraftAgreesOnGrantable | bot.py:36-60 | on every notification the current handler grants, the draft gives the same response and the same row |
| PyJson.Truncate | entry.py:113-116 | `int()` of a float drops the fraction toward zero: the result lies within one unit of the input, on the side of zero |
| PyJson.ToInt | entry.py:113-116 | `int()` of a JSON value: a type error for null, lists and dictionaries; an integer as it is; booleans as 0 and 1; a string through `PyText.ParseInt` |
| PyText.ParseInt | entry.py:114 | `int()` of a string; its contract is stated by `PyText.ParseIntStr` (every integer's text reads back), `PyText.ParseRejectsLeading`, `PyText.ParseRejectsStray` and `PyText.ParseRejectsSeparators` (the texts it refuses) |
| PyText.SplitGivesWords | entry.py:119 | every token of `str.split()` is non-empty and free of whitespace |
| PyText.FirstWordOf | app/payments.py:26 | a word followed by whitespace, or by nothing, is the first token of the split |
| PyText.ParseIntStr | app/payments.py:27 | `int(str(i)) == i` for every integer |
| PyText.ParseRejectsLeading | entry.py:113-116 | `int()` rejects a string that starts with a character other than the whitespace `int()` strips, a digit or a sign |
| PyText.ParseRejectsStray | entry.py:113-116 | `int()` rejects a string holding, anywhere, a character that is neither stripped whitespace, a digit, `_` nor a sign |
| PyText.ParseRejectsSeparators | bot.py:45 | `int()` rejects a string holding any of U+001C to U+001F, although `str.isspace` counts those characters as whitespace |
| Flows.ChatOrderIdIsNotAnInt | app/handlers.py:104 | `int()` raises on every order id `process_plan` builds |
| Flows.ChatOrderIdRoundTrip | app/handlers.py:104 | the corrected reader gets back the user id from every order id `process_plan` builds, negative ids included |
| Flows.ChatUserIdOf | app/handlers.py:104 | the user id field of `<user id>-<callback id>` reads back the user id, whatever the callback id |
| Flows.PlanNamesAreWords | app/handlers.py:14-19 | every plan name is a single word, so it survives as the first token of the description |
| Flows.PlanDaysAgree | app/handlers.py:14-19 | the plan table of the chat and the days table of the webhook agree on every plan's duration |
| Flows.DescriptionNamesPlan | app/payments.py:26 | the first word of the link's description is the plan it was created for |
| Flows.ChatNotificationFields | app/handlers.py:104-117 | the Closed notification for a chat link carries the `tg-` order id, and its description's first word is the plan name |
| Flows.ChatPaymentNeverGrants | entry.py:113-125 | as written, the paid notification of every link `process_plan` creates is answered by entry.py with 200, no row and no unban, and by bot.py with 500 |
| Flows.ChatPaymentGrants | entry.py:112-138 | with the corrected reader, paying for a plan of positive duration inserts the row of that user, plan name and now plus the plan's days, and schedules that user's unban |
| Flows.GrantFixed | entry.py:112-138 | the webhook with the corrected reader of `orderId`: whenever it unbans, the user is the non-zero id read from the `tg-` order id of a dictionary body |
| Flows.TestPlanNeverGrants | app/handlers.py:18 | the test plan lasts 0 days, so even the corrected handler grants nothing for it |
| Flows.PlainOrderIdGrants | app/payments.py:27 | a link created without an order id carries the user id, which the handler as written reads back and grants |
| Flows.LiveRowListedActive | app/handlers.py:64-65 | a row in force shows up as an active line of its user's listing |
| Flows.ActiveLineIsLive | app/handlers.py:64-65 | an active line stands for a row of that user in force |
| Flows.ListingAgreesWithSweep | app/handlers.py:60-67 | a user with rows sees a listing, and every line of it reads expired exactly when the sweep counts the user as expired |
| Flows.LoneRowRevokedIff | app/scheduler.py:61-100 | a user with a single row is revoked by a healthy tick exactly once that row has lapsed |
| Flows.ChatGrantLapsesOnTime | app/scheduler.py:61-103 | a first purchase from the chat, granted by the corrected handler, is revoked exactly from the moment its days have run out |
| Flows.LapsedAppendSweptIff | app/scheduler.py:61-113 | a row appended with expiry now is revoked by a sweep at now exactly when its user has no other row in force, and it survives exactly when they do |
| Flows.DraftUnknownPlanLapsesAtOnce | bot.py:46-53 | a plan the draft does not know is inserted with expiry now; a sweep at that instant revokes the user exactly when they hold no other row in force, and otherwise keeps the new row |

## Left out

- The signature check `verify_signature` is a function parameter. Its cryptography is not part of this model.
- Handlers.MySubs: when the edit that shows the error text fails as well, the exception escapes `cb_my_subs` and `callback.answer()` is skipped; the model shows the error text. Whether Telegram refuses an edit (for example an unchanged listing) is the parameter `editOk`.
- HTTP and Telegram I/O are left out. The HTTP answer of the payment processor and whether the database commit succeeds are parameters. The unban and the revocation callback are recorded as outputs rather than performed.
- Clocks are left out. `datetime.utcnow()` is a parameter `now`, in whole seconds. Dates are naive UTC, and their display format is not modelled.
- Amounts are integer kopecks, not Python floats. `float(f"{amount:.2f}")` in the payload is therefore the amount itself, and `AmountText` formats kopecks with two decimals. Rounding of floats is not modelled.
- `PyJson.ToInt` models `int()` of a JSON value. It covers strings, integers, booleans and finite reals (truncated toward zero). It does not model `int()` of NaN or infinity, which raise, or the length limit on integer strings. The string reader accepts ASCII digits only. Around the literal it strips what `int()` strips: tab, line feed, vertical tab, form feed, carriage return, space, and the non-ASCII `isspace` characters. Non-ASCII Unicode digits, which Python accepts, are rejected in the model.
- Database order is unspecified. Where the database leaves the order open, the table order decides: users in `GROUP BY` come in order of first appearance, and among equal expiries the first row is the latest.
- The `max_exp is None` branch of the sweep (app/scheduler.py:62-65) cannot be taken, because `expires_at` is NOT NULL, so it is not modelled.
- The scheduler's job options are not modelled: interval trigger, `max_instances`, `coalesce`, misfire grace and first run time. Only the singleton guard and the single job with its id and interval are kept. Concurrency between ticks and webhook calls is not modelled.
- Logging is left out, as are the message texts and keyboards of the chat, apart from which reply is chosen.
- WebhookDraft.GrantV1: a non-JSON body makes `request.json` raise a client error of the framework's choosing, status 400 in the model. `asyncio.get_event_loop()` failing outside a running loop is not modelled.
- The `/testpay` page that serves mock links is not part of this model. `UrlQuery` stands in for its reader: it splits on `&`, takes the text after a field's first `=`, and does no percent-decoding.
- Payments.MockLinkReadBack: does not cover a plan or order reference containing `&`, because the f-string escapes nothing and such a field is cut short when read back.
- The real request's URL, its `Authorization` and `Content-Type` headers and its 15-second timeout (app/payments.py:22, 32-36) are not modelled. The processor's answer is a parameter of `Payments.CreateInvoice`.
- `Handlers.MySubsListsUserRows` states the order up to ties: rows with equal expiry may come in any order, as in the database.

## Findings

| source | as written | input that shows it | evidently intended | confidence | as-written member | corrected member |
|---|---|---|---|---|---|---|
| app/handlers.py:104 with entry.py:113-116 and bot.py:45 | `process_plan` sends the order id `tg-<user id>-<callback id>`, and both webhooks read the user as `int(orderId)`, which raises on it | user 42 pressing `plan_week` with callback id "7": the Closed notification carries orderId "tg-42-7"; entry.py answers 200 with no row and no unban, bot.py answers 500 | the webhook recovers the user id that `process_plan` put into the order id and grants the paid plan | high, not executed | Flows.ChatPaymentNeverGrants | Flows.ChatPaymentGrants |
