# IdeaScanner backend: the allowance ledger and the account table

IdeaScanner is a Flask backend for an Android app. A signed-in user submits a
startup idea and gets back an analysis and a viability score. Each analysis
costs one unit of allowance. A user row carries two integer counters,
`free_uses` (2 for a new user) and `credits` (0 for a new user). Credits are
bought through Google Play and redeemed through a purchase route.

This Dafny project models that backend's core:

- `Ledger` (`ledger.dfy`): the two counters and every rule that changes them, as functions on values:
  - the analyze route's reservation (free uses first, then credits, otherwise 402);
  - the refund after a failed provider call (into `free_uses` while it is below 2, otherwise into `credits`);
  - the model method `consume_credit` (credits first);
  - the purchase grant (any integer amount).

  Lemmas follow one user's counters across any sequence of requests.
- `Models` (`models.dfy`): the `User` row as a class whose counters and Google id are updated in place, the `Idea` record, and the database session `Store` holding both tables. `Store.Accounts()` reads the user table as values. `WellFormed` states the table's invariants: sequential primary keys, unique emails, unique non-null Google ids.
- `Helpers` (`helpers.dfy`): lookup by email, user insertion, and the placeholder purchase verifier. The verifier reads the process environment, which is passed in as the parameter `Environment`.
- `Auth` (`auth.dfy`): the register, login and Google-login routes.
- `Analyze` (`analyze.dfy`): the analyze route and score extraction.
- `History` (`history.dfy`): the history route and the credit-redemption route.

Every route that changes state is a method that takes the session `Store`. It updates the `User` objects and the tables in place. Its `ensures` ties the reply and the new tables to a specification function on values (`AnalyzeSpec`, `RegisterSpec`, `GoogleLoginSpec`, `AddCreditsSpec`, `CreateUserSpec`). Those functions carry the route's properties in their own contracts. Every state-changing route also preserves `WellFormed`.

Collaborators are parameters:

- the OpenAI reply (`ProviderReply`: the stripped text, or a failure with its message);
- the password hash and check functions and the `ALLOW_FAKE_PURCHASES` variable (`Environment`);
- the JWT, as an `AccessToken(identity, expiresDays)` value;
- the caller's id from the token, and the creation time.

Request fields are `Option<string>`. Python truthiness of such a field is `Truthy`: present and non-empty.

The model follows the code as written, including where the code departs from the behaviour its own comments and prompt suggest:

- the refund's pool is chosen only by `free_uses < 2`, so a credit-paid request can come back as a free use;
- the score is not clamped to 0-100;
- the credit grant has no sign check and no replay protection.

The lemmas `FreeUsePaidRefundIntoCredits`, `RefundUndoesReserveIff`, `ScoreOfOutOfHundredReply`, `ReplayGrantsAgain`, `NegativeAmountAccepted` and `NegativeGrantBreaksNonNegative` show these behaviours on concrete or general inputs.

## Model

| member | source | states |
|---|---|---|
| Ledger.Reserve | backend/routes/analyze.py:25-34 | free uses are taken iff `free_uses > 0`; the request is denied iff neither pool is positive, and then nothing changes; otherwise the total drops by exactly 1, and only the paying pool moves; non-negative counters stay non-negative |
| Ledger.Refund | backend/routes/analyze.py:49-56 | exactly one pool gains one unit, so the total rises by 1; `free_uses` gains it iff it is below 2; non-negativity and the cap `free_uses <= 2` are preserved |
| Ledger.Charge | backend/routes/analyze.py:25-56 | one analysis request: denied requests change nothing; a completed one costs 1 and a failed one costs 0; a failed credit-paid request ends with one more free use and one credit fewer |
| Ledger.ConsumeCredit | backend/models.py:29-35 | with a positive pool, the total drops by exactly 1 and only one counter changes, credits first; with no positive pool nothing changes; non-negativity is preserved |
| Ledger.Grant | backend/routes/history.py:34 | the total rises by exactly the amount; `free_uses` is untouched; non-negativity is kept only for non-negative amounts |
| Ledger.ReserveAdmitsIffHasCredits | backend/models.py:25-35 | `has_credits` means the same to both consumers: the route admits a request, and `consume_credit` takes a unit, exactly when it holds (`Models.User.HasCredits` is this predicate on the object's counters) |
| Ledger.HasCreditsIffAllowanceLeft | backend/models.py:25-27 | on non-negative counters `has_credits` holds exactly when some allowance is left; with a negative pool it can hold while the total is negative |
| Ledger.ConsumeOrderDiffersFromRoute | backend/models.py:31-34 | `consume_credit` and the route's reservation agree unless both pools are positive |
| Ledger.RefundUndoesReserveIff | backend/routes/analyze.py:49-56 | reserve followed by refund restores the counters iff a free use paid and `free_uses` was at most 2 |
| Ledger.FreeUsePaidRefundIntoCredits | backend/routes/analyze.py:51-54 | with 3 free uses and no credits, a failed request ends with 2 free uses and 1 credit |
| Ledger.RunAccounting | backend/routes/analyze.py:26-56 | over any sequence of analyses, purchases and `consume_credit` calls, the allowance left equals the start, plus the amounts purchased, minus the completed actions |
| Ledger.RunKeepsNonNegative | backend/routes/analyze.py:26-54 | without negative purchase amounts, no sequence of analyses (reservation and refund, analyze.py:26-54), purchases (history.py:34) and `consume_credit` calls (models.py:31-34) makes a counter negative |
| Ledger.RunKeepsFreeUsesCapped | backend/routes/analyze.py:51-54 | from `free_uses <= 2`, no sequence of requests raises `free_uses` above 2 |
| Ledger.RefundAfterRunGoesToFreeUses | backend/routes/analyze.py:51-52 | for every user that started from the defaults, a failed analysis is refunded into `free_uses`, whichever pool paid |
| Ledger.NegativeGrantBreaksNonNegative | backend/routes/history.py:25-34 | a purchase of -5 credits is applied as written and leaves `credits` at -5 |
| Models.NewAccount | backend/models.py:14-15 | a new row has `free_uses = 2` and `credits = 0`, so `has_credits` holds for it |
| Models.User.constructor | backend/models.py:7-17 | a new `User` object's snapshot is the new row with the column defaults |
| Models.User.ConsumeCredit | backend/models.py:29-35 | the object's counters become `Ledger.ConsumeCredit` of the old ones: one unit fewer when `has_credits` held, unchanged otherwise |
| Helpers.FindByEmail | backend/helpers.py:5-6 | the result is the first row with that email; it is none iff no row has that email |
| Helpers.UserRow | backend/helpers.py:8-13 | the hash is set iff the password is truthy, and then it is the password's hash; the Google id is set iff the one given is truthy; the counters take the defaults |
| Helpers.CreateUserSpec | backend/helpers.py:8-16 | no duplicate check of its own: the commit fails iff the email or the truthy Google id is already in the table; otherwise exactly one row is appended with the next id, and the table's invariants are kept |
| Helpers.CreateUser | backend/helpers.py:8-16 | the session's user table becomes `CreateUserSpec` of the old one; on success the returned object is fresh and is appended |
| Helpers.VerdictIgnoresPurchase | backend/helpers.py:18-25 | the verifier looks at nothing of the purchase: any two purchases get the same verdict in the same environment, so a purchase accepted once is accepted again; with the variable unset, empty, "true" or "01" nothing is accepted |
| Auth.RegisterSpec | backend/routes/auth.py:9-21 | a missing email or password gives 400 and a known email gives 400 "User already exists", both with the table unchanged; otherwise exactly one row is appended (email, location, hashed password, no Google id, counters 2/0) and a 30-day token for its id is issued |
| Auth.ApiRegister | backend/routes/auth.py:9-21 | the reply and the new user table are `RegisterSpec` of the old table; existing user objects stay in place |
| Auth.LoginSpec | backend/routes/auth.py:23-35 | a missing field gives 400; a token is issued only for a row with that email whose stored hash matches; with unique emails, every such row gets one; every other case is 401, including an account without a password hash |
| Auth.ApiLogin | backend/routes/auth.py:23-35 | the reply is `LoginSpec` of the current table, and nothing changes |
| Auth.GoogleLoginSpec | backend/routes/auth.py:37-53 | a missing field gives 400; an unknown email creates one row as `create_user` builds it (that Google id, the location, no password hash, counters 2/0, the next id), or fails with 500 when the id is taken; a row that has a Google id gets a token unchanged, and the id given is not compared; a row without one is linked to the id given, or fails with 500 when that id is taken; no counter changes |
| Auth.ApiGoogleLogin | backend/routes/auth.py:37-53 | the reply and the new user table are `GoogleLoginSpec` of the old table |
| Analyze.Digits | backend/routes/analyze.py:47 | the result holds only digits and is no longer than the text; it is empty iff the text holds no digit |
| Analyze.DigitsKeepEveryDigit | backend/routes/analyze.py:47 | every digit of the text occurs in the result as often as in the text; no other character occurs |
| Analyze.DecimalValue | backend/routes/analyze.py:48 | the value of `n` digits is below `10^n` |
| Analyze.ExtractScore | backend/routes/analyze.py:47-48 | no score iff the analysis holds no digit; otherwise the score lies in 0..999, not clamped to 100 |
| Analyze.DigitsIdempotent | backend/routes/analyze.py:47 | filtering the digits twice is filtering them once |
| Analyze.DigitsConcat | backend/routes/analyze.py:47 | the digits of a concatenation are the concatenation of the digits |
| Analyze.ScoreIgnoresNonDigits | backend/routes/analyze.py:47-48 | the score depends only on the digits of the text |
| Analyze.ScoreFixedByFirstThreeDigits | backend/routes/analyze.py:48 | after three digits, appending text never changes the score |
| Analyze.ScoreOfLeadingDigits | backend/routes/analyze.py:47-48 | a text with at least one digit scores the value of its first three digits, or of all of them when it holds one or two |
| Analyze.ScoreOfLoneNumber | backend/routes/analyze.py:47-48 | a text whose only digits form one number of one to three digits scores that number ("Viability score: 85. Strong demand." scores 85) |
| Analyze.DecimalValueSnoc | backend/routes/analyze.py:48 | appending a digit to a digit string multiplies its value by ten and adds the digit |
| Analyze.DigitsOfDigitString | backend/routes/analyze.py:47 | a string of digits is its own digit list |
| Analyze.ScoreOfOutOfHundredReply | backend/routes/analyze.py:42-48 | a reply that ends in "NN/100", with no digit before NN, scores `10*NN + 1` (e.g. "Score: 85/100" scores 851) |
| Analyze.ResolveLocation | backend/routes/analyze.py:21 | the request's location if non-empty, else the user's if non-empty, else "global"; never empty |
| Analyze.AnalyzeStatusCodes | backend/routes/analyze.py:13-62 | each status code of the route holds exactly in its case: 404 unknown user, 400 missing idea, 402 no allowance, 500 provider failure after the reservation, 200 provider success after the reservation |
| Analyze.AnalyzeSpec | backend/routes/analyze.py:13-62 | an unknown user gives 404, a missing idea 400, no allowance 402, each with nothing changed. A success takes one unit exactly as `Reserve` does (free uses first, then credits) and appends exactly one Idea, and the reply carries the new counters and the score. A provider failure appends nothing and leaves the counters at `Refund(Reserve(..))` with the total restored. Only the caller's counters change, the table invariants hold, and no counter is driven negative |
| Analyze.ReserveAllowance | backend/routes/analyze.py:26-34 | the user object's counters and the branch taken are `Ledger.Reserve` of the old counters |
| Analyze.RefundAllowance | backend/routes/analyze.py:50-54 | the user object's counters become `Ledger.Refund` of the old ones |
| Analyze.ApiAnalyze | backend/routes/analyze.py:13-62 | the reply, the user table and the idea table are `AnalyzeSpec` of the old tables and the provider's reply; no user object is added or removed |
| History.OwnedBy | backend/routes/history.py:12 | every kept record belongs to the caller; each of the caller's records is kept as often as it occurs, and no other |
| History.InsertNewestFirst | backend/routes/history.py:12 | inserting into a newest-first list keeps it newest first and adds exactly that entry |
| History.SortNewestFirst | backend/routes/history.py:12 | the result is newest first and is a permutation of the input |
| History.ApiHistory | backend/routes/history.py:10-14 | the reply is newest first and is a permutation of the entries of the caller's ideas |
| History.HistoryMembership | backend/routes/history.py:12-13 | an entry is in the history iff it is the entry of one of the caller's ideas |
| History.OwnedByAppend | backend/routes/history.py:12 | filtering a table with one more row at the end gives the old filter result, followed by that row if it belongs to the user |
| History.AppendedIdeaInOwnHistory | backend/routes/history.py:12-13 | after an idea is appended, its entry is in its owner's history |
| History.AppendedIdeaLeavesOthers | backend/routes/history.py:12-13 | appending an idea leaves every other user's history exactly as it was |
| History.AnalyzedIdeaInHistory | backend/routes/analyze.py:58-60 | after a successful analysis, the entry of the Idea record it inserted (the caller's id, the idea, the analysis, its score, the resolved location) is in the caller's history, and every other user's history is unchanged |
| History.AddCreditsSpec | backend/routes/history.py:18-36 | an amount `int()` rejects gives 500 before anything else; then missing fields give 400; then a failed verification gives 400. Credits are added iff all of these pass and the caller exists (otherwise 500). On success, only the caller's credits rise by the amount (default 1), `free_uses` is untouched and the reply carries the new credits. No rejected path changes anything, and the table invariants hold |
| History.AddCreditsStatusCodes | backend/routes/history.py:25-36 | 200 exactly when the credits were added; 400 exactly when the amount parsed but a field is missing or the purchase is not verified; 500 exactly when the amount does not parse, or every check passed but the caller's row is missing |
| History.ReplayGrantsAgain | backend/routes/history.py:30-35 | repeating an accepted redemption with the same token is accepted again and grants twice the amount |
| History.NegativeAmountAccepted | backend/routes/history.py:25-34 | a verified redemption of -5 is accepted and leaves credits negative |
| History.ApiAddCredits | backend/routes/history.py:18-36 | the reply and the new user table are `AddCreditsSpec` of the old table |

## Left out

- The Android app (Kotlin activities, the view model, Retrofit client and local storage) is not part of this model. It is UI and networking glue.
- The legacy `app.py` at the repository root is not part of this model. It is a separate Flask variant built on mail sending, signed-link tokens and templates.
- `backend/app.py` (configuration and blueprint wiring) and `backend/routes/health.py` (a timestamp endpoint) are not part of this model.
- Concurrency and transactions are not modelled. The code takes no locks and commits after each step, so each request is modelled as one sequential operation. Two parallel requests could both pass the allowance check; the model does not show this.
- The OpenAI call is a parameter: its stripped reply text or a failure with the exception's message. The prompt and the `max_tokens` setting are not modelled.
- Password hashing is a deterministic function in `Environment`, and checking is a separate predicate there. The real hash is salted, and the relation between hash and check is not modelled.
- JWT signing and the identity round trip are not modelled. A token is the value `AccessToken(user id, 30)`, and the routes receive the caller's id as an integer.
- `analyze.py` uses `os` at module level without importing it (`backend/routes/analyze.py:9`). The model assumes the module loads, and the API key setting is not modelled.
- `str.isdigit` is restricted to the ASCII digits 0-9. Other Unicode digits, which Python also accepts (and on some of which `int()` fails), are not modelled.
- The counter columns are nullable but have defaults. The model always holds integers, so a row whose counter is NULL is not modelled.
- Request JSON fields are modelled as optional strings. Non-string JSON values, such as a number for `email`, are not modelled. For `creditsAmount` the model keeps only the outcome of `int()`: absent (default 1), a parsed integer, or a failure (500).
- Timestamps are abstract integers, and `created_at` is passed in. The ISO formatting of the history entries is not modelled.
- History.ApiHistory: for ideas with equal `created_at`, the database may return any order; the model fixes one. The contract states newest-first order and the permutation, not the order of ties.
- A row created with an email or Google id already in the table fails at commit with an integrity error. This is modelled as a 500 reply with the table unchanged; the database's error text is not modelled.
- The user table has no deletes, and the model assumes the default SQLite store, where a row's id is its position plus one. On a store whose id sequence is used up by a failed insert (PostgreSQL, for one), ids can skip values; that is not modelled. Cascade deletion of ideas is not modelled.
- Ledger.Grant: counters are unbounded integers. The `free_uses` and `credits` columns are database integers (64-bit on SQLite, 32-bit on PostgreSQL or MySQL), and a value outside the column's range fails at commit with a 500 reply and no change; the model does not bound them.
- History.AddCreditsSpec: a verified `creditsAmount` so large that the new credits overflow the column (e.g. "9223372036854775808" on SQLite) is modelled as `CreditsAdded`, whereas the commit would fail with 500 and nothing stored; the model has no column width.
