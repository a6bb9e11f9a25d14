# Expense tracker ledger and reporting engine, in Dafny

This project models the core of a small Flask expense tracker (`app.py`). That core has four parts:

- **Ledger.** There are two structurally identical tables, `income` and `expense`. Each row is `(id, user_id, amount, category, date, note)`. Ids come from an AUTOINCREMENT counter and are never reused. The handlers add, edit and delete rows, and the dashboard lists them with `ORDER BY date DESC`.
- **Reporting.** `totals_and_monthly` produces the per-user totals (`COALESCE(SUM(amount), 0)`) and a six-bucket monthly series. The dashboard also computes savings as income minus expense.
- **Account directory.** The `users` table has a UNIQUE username. Registration rejects a taken name, and login checks a password hash.
- **Session gate.** `login_required` refuses every ledger request when the session has no `user_id`. Login sets the session and logout clears it.

The modules follow that structure:

- `Wrappers`: `Option` and `Result`.
- `Calendar`: proleptic Gregorian dates (years 1 to 9999, as Python's `datetime.date`).
  - Day subtraction step by step, with Python's `OverflowError` below 0001-01-01 as `None`, against the day ordinal (`toordinal`) as its meaning.
  - The bucket month of app.py:109 as written (`ThirtyDayBucket`) and the calendar-month rule it evidently intends (`CalendarBucket`).
- `MonthText`: the two renderings of a bucket month, `%Y-%m` (the key the SQL compares) and `%b %Y` (the chart label), with parsers that give the year and month back.
- `Ledger`:
  - Rows and tables as maps from row id to row.
  - The queries as functions: owner and month filters, `SUM`, and `ORDER BY date DESC`.
  - A `Table` class whose methods are the INSERT, UPDATE and DELETE statements.
- `Accounts`:
  - The `users` table as a `Directory` class.
  - `generate_password_hash` and `check_password_hash` as an abstract `Hasher` pair. It only has to satisfy `check(generate(p, salt), p)`.
- `Tracker`: the `App` class. It holds the three tables and the session, and each request handler is one method.
  - Each method states the whole new state of the table it touches: its rows, and its AUTOINCREMENT counter and set of issued ids.
  - Each one also states that other users' rows (`Foreign`) are unchanged.

Four points of `app.py` shape the model:

- **Bucket months.** The comment at app.py:103 promises the last 6 months, but the code steps back by `30 * i` days (see Findings). `App.TotalsAndMonthly` and `App.Dashboard` take the bucket rule as a parameter: `ThirtyDaySteps` is app.py:109 as written, and `CalendarMonths` is the corrected rule.
- **Date validation.** The code stores any date text; the model takes dates as valid (see Left out).
- **Amount sign.** Nothing in the code rejects a negative amount: any number `float()` accepts is stored, so the model allows any real amount.
- **Ties in the listing.** SQL leaves the order of rows with equal dates open, so the model proves nothing about it.

## Model

| member | source | states |
|---|---|---|
| Calendar.SubtractDays | app.py:109 | `date - timedelta(days=n)`: defined exactly when the result is on or after 0001-01-01; the result is `n` days earlier by day ordinal |
| Calendar.FirstOfMonth | app.py:109 | `replace(day=1)`: same year and month, ordinal moved back by `day - 1` |
| Calendar.ThirtyDayBucket | app.py:109 | the bucket as written exists exactly when `30 * i` days before the first of the current month is still in the calendar, and is then the first of the month that contains that day |
| Calendar.ThirtyDayBucketAt | app.py:109 | given the date `t` whose day number is `30 * i` less than the first of the current month, the bucket is the first of `t`'s month |
| Calendar.NewestBucketIsCurrentMonth | app.py:107-109 | under either rule, bucket i = 0 is the first of the current month |
| Calendar.ThirtyDayBucketsNonDecreasing | app.py:107-109 | as i counts down from 5 to 0 the thirty-day bucket months never go back in time, and a later bucket exists whenever an earlier one does |
| Calendar.ThirtyDayBucketDrift | app.py:109 | for i up to 14, the thirty-day bucket is either exactly `i` or `i + 1` calendar months before the current month (it can drift by one month) |
| Calendar.ThirtyDayBucketSkipsFebruary | app.py:109 | whenever the current month is March, bucket i = 1 is January of the same year, not February |
| Calendar.ThirtyDaySeriesForMarch2024 | app.py:107-111 | for 2024-03-15 the six buckets as written are Oct, Nov, Dec 2023, Jan, Jan, Mar 2024 |
| Calendar.CalendarBucket | app.py:109 | corrected rule: the bucket is exactly `i` calendar months before the current month, defined exactly when that is not before year 1 |
| Calendar.CalendarSeriesForMarch2024 | app.py:107-111 | for 2024-03-15 the corrected buckets are Oct 2023 to Mar 2024, one per month |
| Calendar.CalendarBucketsConsecutive | app.py:107-109 | corrected buckets are consecutive months |
| Calendar.BucketMonthsNonDecreasing | app.py:107-109 | under either rule the bucket months never go back in time from the oldest bucket to the newest |
| MonthText.MonthKeyRoundTrip | app.py:110 | the `%Y-%m` key reads back as the year and month of its date |
| MonthText.MonthLabelRoundTrip | app.py:110-111 | the `%b %Y` label reads back as the same year and month as the key made from the same date |
| MonthText.MonthKeyInjective | app.py:112 | two dates have equal keys exactly when they share year and month |
| Ledger.InMonthExactly | app.py:112-115 | a row is in a month bucket exactly when it belongs to the owner and its date has that year and month |
| Ledger.BucketSelectsMonth | app.py:112-115 | the `strftime('%Y-%m', date)=?` filter selects the same rows as comparing year and month fields |
| Ledger.DateKeyChronological | app.py:124 | the (year, month, day) sort key of `ORDER BY date` orders dates as the calendar does |
| Ledger.First | app.py:124 | the row `ORDER BY date DESC` puts first has no row with a later date |
| Ledger.SumRemove | app.py:99 | `SUM` does not depend on the order rows are read: any row can be taken out first |
| Ledger.SumInsert | app.py:99 | adding a row under a fresh id adds its amount to the sum |
| Ledger.SumReplace | app.py:99 | replacing a row changes the sum by the difference of the amounts |
| Ledger.Total | app.py:99-102 | `COALESCE(SUM(amount), 0)` is 0 when nothing is selected |
| Ledger.TotalAfterInsert | app.py:147-148 | an INSERT raises exactly the totals whose filter the new row matches, by its amount |
| Ledger.TotalAfterDelete | app.py:172 | a DELETE lowers exactly the totals whose filter the removed row matched, by its amount |
| Ledger.TotalIsolated | app.py:99-102 | rows of other owners never change an owner's totals |
| Ledger.Listing | app.py:124-127 | the listing holds every row exactly once with its id, latest date first |
| Ledger.InsertKeepsForeign | app.py:147-148 | inserting a row of the user leaves all other users' rows as they were |
| Ledger.ReplaceKeepsForeign | app.py:163 | updating a row of the user leaves all other users' rows as they were |
| Ledger.RemoveKeepsForeign | app.py:172 | deleting a row of the user leaves all other users' rows as they were |
| Ledger.Table.constructor | app.py:24-31 | a new table is empty and no id has been issued |
| Ledger.FetchSeesOwnedOnly | app.py:157-159 | `WHERE id=? AND user_id=?` sees only the owner's rows: another user's row looks exactly like a missing one |
| Ledger.FetchIsolated | app.py:157-159 | rows of other owners added beside the table never change what the lookup by id and owner returns (put over its rows, they hide them) |
| Ledger.Table.Insert | app.py:147-148 | INSERT puts the row under the next id, one never issued before (AUTOINCREMENT), and changes no other row |
| Ledger.Table.Update | app.py:163 | UPDATE by id replaces amount, category, date and note of that row only; owner and id stay |
| Ledger.Table.Delete | app.py:172 | DELETE removes the row exactly when it has that id and owner; otherwise nothing changes |
| Accounts.Lookup | app.py:83-84 | with unique names, the lookup returns `id` exactly when `id` is the user with that name |
| Accounts.AuthenticateExactly | app.py:85 | a login check yields user `id` exactly when `id` has that name and its stored hash accepts the password |
| Accounts.RegisterKeepsUnique | app.py:21 | adding an account with a new name under a new id keeps names unique |
| Accounts.RegisterThenLogin | app.py:65-86 | with a sound hasher, right after registering, the same name and password log in as the new user |
| Accounts.RegisterKeepsOtherLogins | app.py:68 | registering one name does not change the login outcome of any other name |
| Accounts.Directory.constructor | app.py:19-23 | a new directory has no accounts |
| Accounts.Directory.Register | app.py:60-76 | a taken name is rejected with `users` and its counter unchanged; otherwise the account with the hashed password is added under the next never-issued id |
| Tracker.ReportEndsThisMonth | app.py:107-111 | the last label of a report is the current month |
| Tracker.ReportLabelMeaning | app.py:110-111 | each label of a report reads back as the year and month of its bucket |
| Tracker.ReportPointMeaning | app.py:112-115 | each point of a report is the sum over exactly the owner's rows dated in its bucket's year and month |
| Tracker.ThirtyDayLabelsForMarch2024 | app.py:107-111 | as written, the chart for 2024-03-15 labels its fourth and fifth buckets both January 2024 |
| Tracker.CalendarLabelsDistinct | app.py:107-111 | with the corrected rule no two labels name the same month, and for 2024-03-15 the fifth label is February 2024 |
| Tracker.SavingsAfterAdd | app.py:130 | an income row of the user raises savings by its amount, and an expense row lowers them by its amount |
| Tracker.SavingsIgnoresOthers | app.py:130 | other users' rows never change a user's savings |
| Tracker.App.constructor | app.py:16-41 | a fresh database: new directory and tables with no accounts, no rows, no id issued and counters at 0, and no session |
| Tracker.App.Register | app.py:60-76 | taken name: `UsernameTaken`, with users, counter and issued ids unchanged; otherwise the account with the hashed password is added under the next id, never issued before, and the counter moves to it |
| Tracker.App.Login | app.py:78-89 | success exactly when the name exists and its hash accepts the password; then the session holds that user, and on failure the session is unchanged |
| Tracker.App.Logout | app.py:91-94 | the session is empty afterwards |
| Tracker.App.AddEntry | app.py:140-150 | no session: `Unauthorized`, nothing changes; bad amount: `InvalidAmount`, nothing changes; otherwise exactly one new row under the next id, never issued before (the counter moves to it), owned by the session user, with the given fields, date defaulting to today and note to "" (mirrored at app.py:179-189) |
| Tracker.App.ViewEntry | app.py:155-166 | the edit page gets the row exactly when it exists and belongs to the session user; otherwise `Unauthorized` or `NotFound` (mirrored at app.py:194-205) |
| Tracker.App.EditEntry | app.py:155-164 | no session, no owned row, or a bad amount (checked in that order) change nothing; otherwise that row gets the four new fields, keeping id and owner, and no other row changes; the AUTOINCREMENT counter and the issued ids never change (mirrored at app.py:194-203) |
| Tracker.App.DeleteEntry | app.py:170-174 | no session: `Unauthorized`, nothing changes; otherwise the row goes exactly when it has that id and the session owner, and no other row changes; the AUTOINCREMENT counter and the issued ids never change, so a deleted id is not handed out again (mirrored at app.py:209-213) |
| Tracker.App.TotalsAndMonthly | app.py:97-117 | fails with `DateOverflow` exactly when some bucket leaves the calendar. Otherwise: the two totals, plus six labels and six points per table, oldest bucket first, each point the total of that bucket's month |
| Tracker.App.Dashboard | app.py:119-135 | no session: `Unauthorized`. Otherwise both listings (each of the user's rows once, latest first), the report for the given bucket rule (app.py:109 as written is `ThirtyDaySteps`), and savings = total income − total expense |

## Left out

- Flask plumbing is left out: routing, templates, `redirect`, `flash`, `request.form`, `app.run`, and the `index` route (app.py:54-58), which only redirects.
- SQLite connection handling is left out (`get_db`, commits, closes). Only the schema survives, as the shape of the records.
- Werkzeug's hashing algorithm is abstract. The salt that `generate_password_hash` draws at random is an input of `Register`.
- `datetime.date.today()` is an input (`today`) of `AddEntry`, `TotalsAndMonthly` and `Dashboard`.
- Amounts are Dafny `real`s. Floating-point rounding is not modelled.
  - The text grammar of `float()` is not modelled: a parse failure is an absent amount (`None`).
  - NaN and infinities are not represented.
- Dates are taken as valid calendar dates. The source stores unvalidated text, and SQLite's `strftime` maps malformed text to NULL, so an invalid date would match no bucket; this is not modelled.
  - The edit form's required `date` field is likewise a valid date.
  - An empty date on add is modelled as absent, so it falls back to today, as `or` does at app.py:144.
- Ledger.Listing: rows with equal dates are put with the higher id first, but SQL leaves that order open, so no property relies on it.
- `%Y`: the key is always four zero-padded digits, as SQLite writes it. Python's `strftime("%Y")` can print years below 1000 without padding on some platforms; that difference is not modelled.
- The `username` kept in the session (app.py:86) is not modelled, since nothing in the core reads it. Logout clears the whole session, which here is the `user_id`.
- SQLite's ROWID limit (2^63 − 1) is not modelled: ids are unbounded integers.
- The `secret_key` (app.py:9) and the unused variable `m` (app.py:108) are not modelled. Because app.py:9 hard-codes the key, any client can sign a cookie with any `user_id` and pass `login_required` (app.py:49) without logging in. The model's session can only be set by `App.Login` and `App.Valid` keeps it a registered user, so the session-gate properties assume a session that cannot be forged.
- Concurrent requests are not modelled: each request runs alone on the state.
- Flask keeps one session per client, in a signed cookie. The model has a single session (`App.session`) shared by all requests, so two browsers logged in as different users can only be expressed by logging in again between their requests.
- `%b` is modelled with the English month abbreviations of the C locale. Python's `strftime("%b")` follows the process locale, so other locales would give other labels.
- `ORDER BY date` compares the stored `YYYY-MM-DD` text. The model does not model that text: it compares (year, month, day), which is the same order only for zero-padded four-digit years and two-digit months and days.

## Findings

| source | as written | input that shows it | evidently intended | confidence | as-written member | corrected member |
|---|---|---|---|---|---|---|
| app.py:109 | the bucket month is the month of `(first of this month) − 30·i days`, which drifts because months are not all 30 days long | today = 2024-03-15: the buckets i = 5..0 are Oct, Nov, Dec 2023, Jan, Jan, Mar 2024, so February 2024 is missing and January appears twice; in every March, bucket i = 1 is January | the month exactly `i` calendar months before the current month, giving Oct 2023 to Mar 2024 | not executed | Tracker.ThirtyDayLabelsForMarch2024 | Calendar.CalendarBucket |
