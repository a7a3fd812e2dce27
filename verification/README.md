# Currency rates application — Dafny model

This project models the core of a small currency-rates web application:

- **`RateHistory`** (task_8/myapp/utils/history.py). It keeps a series of
  (timestamp, rate) points per currency code. Each write appends one point and
  prunes that code's series to the last 120 days. A read returns the points
  inside a trailing window of N days (90 by default).
- **The in-memory application** (task_8/myapp/myapp.py). It covers the lookups
  `find_user`, `find_currency_by_id` and `find_currency_by_code`, the
  subscriptions `user_subscriptions`, `subscribe` and `unsubscribe`, the rate
  refresh `update_rates`, and the guards of the `/subscribe` and `/unsubscribe`
  POST branches. The module-level globals `USERS`, `CURRENCIES`,
  `USER_CURRENCIES` and `HISTORY` become one immutable `State`. Each mutating
  operation returns the next state together with the exception it raises, if
  any.
- **`get_currencies`** (task_7/currencies.py), from the point where the HTTP
  body has been read and JSON-decoded. It models the argument check, the error
  taxonomy, and the extraction of `Valute[code]["Value"]` for each requested
  code.
- **The validated record classes.** From task_8 these are `Author`, `App`,
  `User`, `Currency` and `UserCurrency`; from task_9 (the SQLite variant) they
  are `Currency` and `User`. Each property setter is a function from the object
  and a dynamically typed Python value (`PyValue`) to the updated object or the
  exception. Each constructor runs the setters in the source's order, so the
  first failing check decides the exception.

Files:

- `wrappers.dfy`: `Option` and `Result`.
- `python.dfy`: the Python values, exceptions, `str.strip`, `str.upper` and the
  shared checks.
- `seqs.dfy`: list comprehensions as `Filter`, and the first-match loop as
  `FirstIndex`/`First`.
- `history.dfy`: `RateHistory`.
- `models.dfy`: the task_8 records.
- `db_models.dfy`: the task_9 records.
- `currencies.dfy`: `get_currencies`.
- `myapp.dfy`: the application.

The wall clock is an explicit parameter `now`, in integer microseconds. The
upstream fetch used by `update_rates` is a parameter `fetch` from the list of
char codes to a dict of rates or an exception.

Behaviours of the source worth knowing, which the model keeps:

- `update_rates` skips, without reporting it, a fetched code that no currency
  has.
- A rate the `Currency.value` setter rejects (not above zero) raises in the
  middle of the loop. The earlier entries stay applied and the later ones are
  not processed (`MyApp.ApplyRatesStopsAtBadRate`). Nothing is rolled back and
  no per-code failure list is built.
- `RateHistory.add` neither sorts nor validates. Chronological order is only
  kept while timestamps do not go backwards (`History.AddKeepsChronological`).
- `get_currencies` makes no sign or range check on the rates.
- Subscriptions refer to currencies by numeric id, not by char code.
- Python's `isinstance(True, int)` holds. The positive-int setters therefore
  accept `True`, which Python treats as 1; the source keeps the bool object
  itself, while the model stores the integer 1. The `Currency.value` setter rejects bools
  explicitly.

## Model

| member | source | states |
|---|---|---|
| Python.Strip | task_8/myapp/models/author.py:12-14 | `str.strip()` with CPython's whitespace set: the result is the input with leading and trailing whitespace removed, has no such whitespace left, and is empty exactly when the input is all whitespace |
| Python.StripIdempotent | task_8/myapp/models/user.py:22-24 | stripping a stripped name changes nothing, so a stored name is a fixed point of the setter's normalisation |
| Python.Upper | task_8/myapp/models/currency.py:38 | `str.upper()` keeps the length and upper-cases each character in place (ASCII letters only) |
| Python.PositiveInt | task_8/myapp/models/user.py:12-14 | `isinstance(v, int) and v > 0` accepts exactly positive ints and `True`; it returns the integer, or ValueError with the given message |
| Python.NonBlankStr | task_8/myapp/models/user.py:22-24 | accepts exactly strings that are not all whitespace and returns them stripped; anything else gives ValueError with the given message |
| Python.FloatOf | task_9/models/currency.py:36 | `float(v)`: numbers and bools convert, strings go through the parser parameter (ValueError when it fails), objects with `__float__`/`__index__` give their converted value, None and other objects raise TypeError |
| Seqs.Filter | task_8/myapp/myapp.py:70 | a list comprehension with a condition keeps, in order, exactly the occurrences of the elements that satisfy it |
| Seqs.FilterAppend | task_8/myapp/myapp.py:83 | filtering a concatenation is concatenating the filtered parts |
| Seqs.FilterPairwise | task_8/myapp/utils/history.py:19 | filtering keeps every relation that held between earlier and later elements |
| Seqs.FirstIndex | task_8/myapp/myapp.py:61-65 | the loop that returns the first match gives None exactly when nothing matches, and otherwise a matching position with no match before it |
| Seqs.First | task_8/myapp/myapp.py:47-51 | the element at that first matching position, or None |
| History.Since | task_8/myapp/utils/history.py:14 | the points at or after the cutoff, every occurrence kept, in stored order |
| History.Empty | task_8/myapp/utils/history.py:4-5 | `RateHistory()`: no code has a series, so every window is empty |
| History.Prune | task_8/myapp/utils/history.py:16-19 | `_prune`: the code's series keeps exactly its points inside the 120-day horizon, every occurrence, in order; every other code's series is untouched |
| History.Add | task_8/myapp/utils/history.py:7-19 | `add`: the code's series becomes the old series plus the new point, minus the points older than 120 days, in order; other codes' series are untouched; every remaining point is inside the horizon; a point stamped `now` is always kept |
| History.AddToEmpty | task_8/myapp/utils/history.py:7-10 | the first `add` of a code, stamped `now`, leaves that code's series as exactly the one new point |
| History.LastNDays | task_8/myapp/utils/history.py:12-14 | `last_n_days`: the stored points not older than `days` days, in stored order; an unknown code gives `[]` |
| History.FilterChronological | task_8/myapp/utils/history.py:16-19 | pruning or windowing a chronological series leaves it chronological |
| History.AddKeepsChronological | task_8/myapp/utils/history.py:7-10 | while timestamps do not decrease, `add` keeps the series chronological |
| History.WindowCoversAll | task_8/myapp/utils/history.py:12-14 | a window reaching past every stored point returns the whole series |
| History.WindowBeyondRetention | task_8/myapp/utils/history.py:12-19 | on a pruned series, a window of 120 days or more returns the whole series |
| History.AddThenWindow | task_8/myapp/utils/history.py:7-14 | right after `add(code, v)`, any window of zero days or more contains the new point, and a window of 120 days or more shows the whole series |
| Models.SetAuthorName | task_8/myapp/models/author.py:10-14 | no exception iff the value is a string that is not blank; then only the name changes and it becomes the stripped value; otherwise ValueError and the author is unchanged |
| Models.SetAuthorGroup | task_8/myapp/models/author.py:20-24 | the same for the group, with its own message |
| Models.NewAuthor | task_8/myapp/models/author.py:2-4 | the name is checked before the group; success iff both pass, giving the stripped values |
| Models.SetAppName | task_8/myapp/models/app.py:13-17 | no exception iff the value is a string that is not blank; the stripped value is stored; otherwise ValueError and nothing changes |
| Models.SetAppVersion | task_8/myapp/models/app.py:23-27 | the same for the version |
| Models.CheckAuthor | task_8/myapp/models/app.py:35-36 | succeeds iff the value is an `Author`; otherwise TypeError |
| Models.SetAppAuthor | task_8/myapp/models/app.py:33-37 | any `Author` is stored as given; anything else raises TypeError and leaves the app unchanged |
| Models.NewApp | task_8/myapp/models/app.py:4-7 | name, then version, then author; the first failing check decides the exception |
| Models.SetUserId | task_8/myapp/models/user.py:10-14 | no exception iff the value is a positive int (or `True`); only the id changes; otherwise ValueError and nothing changes |
| Models.SetUserName | task_8/myapp/models/user.py:20-24 | no exception iff the value is a string that is not blank; the stripped value is stored; otherwise ValueError |
| Models.NewUser | task_8/myapp/models/user.py:2-4 | id before name; success iff both pass; the result is a valid user |
| Models.CharCode | task_8/myapp/models/currency.py:34-38 | accepted iff the value is a string of length 3 once stripped; the result is that string upper-cased, a 3-character code with no surrounding whitespace and no lower-case ASCII letter |
| Models.Rate | task_8/myapp/models/currency.py:54-60 | a bool or a non-number raises TypeError; then a number not above zero raises ValueError; otherwise the value as a float, above zero |
| Models.SetCurrencyId | task_8/myapp/models/currency.py:14-18 | no exception iff the value is a positive int; only the id changes |
| Models.SetCurrencyNumCode | task_8/myapp/models/currency.py:24-28 | no exception iff the value is a string that is not blank; the stripped value is stored |
| Models.SetCurrencyCharCode | task_8/myapp/models/currency.py:34-38 | no exception iff the value is a string of length 3 once stripped; the stripped, upper-cased value is stored |
| Models.SetCurrencyName | task_8/myapp/models/currency.py:44-48 | no exception iff the value is a string that is not blank; the stripped value is stored |
| Models.SetCurrencyValue | task_8/myapp/models/currency.py:54-60 | TypeError for bools and non-numbers, ValueError for numbers not above zero, both leaving the currency unchanged; otherwise only the value changes |
| Models.SetCurrencyNominal | task_8/myapp/models/currency.py:66-70 | no exception iff the value is a positive int; only the nominal changes |
| Models.NewCurrency | task_8/myapp/models/currency.py:2-8 | the six checks in the order id, num_code, char_code, name, value, nominal; the first failure decides the exception; success iff all pass, and the result is valid |
| Models.SetUserCurrencyId | task_8/myapp/models/user_currency.py:11-15 | no exception iff the value is a positive int; only the id changes |
| Models.SetUserCurrencyUserId | task_8/myapp/models/user_currency.py:21-25 | the same for `user_id` |
| Models.SetUserCurrencyCurrencyId | task_8/myapp/models/user_currency.py:31-35 | the same for `currency_id` |
| Models.NewUserCurrency | task_8/myapp/models/user_currency.py:2-5 | id, user_id, currency_id in that order; success iff all three are positive ints |
| Models.AuthorTestCases | task_8/tests/test_models.py:5-9 | an empty name raises ValueError; `Author("Kirill", "M321")` has name "Kirill" |
| Models.UserTestCases | task_8/tests/test_models.py:11-17 | id 0 and an empty name raise ValueError; `User(1, "Alice")` has id 1 |
| Models.CurrencyBadCodeCase | task_8/tests/test_models.py:20-21 | a 2-letter char code raises ValueError |
| Models.CurrencyBadValueCase | task_8/tests/test_models.py:22-23 | a string rate raises TypeError |
| Models.CurrencyTestCases | task_8/tests/test_models.py:24-25 | a valid currency with rate 93.25 stores 93.25 |
| Models.UserCurrencyTestCases | task_8/tests/test_models.py:27-31 | user_id 0 raises ValueError; a valid record keeps currency_id 2 |
| Models.AppTestCase | task_8/tests/test_models.py:33-36 | an app built with an author exposes that author's name |
| DbModels.CharCode | task_9/models/currency.py:17-21 | accepted iff a string of length 3 once stripped (blank is not checked separately); the result is upper-cased |
| DbModels.RateOrNone | task_9/models/currency.py:31-39 | None is stored as None; otherwise `float()` is applied and its exceptions propagate; a negative result raises ValueError; zero is accepted |
| DbModels.SetCharCode | task_9/models/currency.py:17-21 | no exception iff the code is acceptable; a rejected code leaves the currency unchanged |
| DbModels.SetValue | task_9/models/currency.py:31-39 | None clears the value; whatever `float()` yields at or above zero is stored, so bools store 1.0/0.0, parsable strings and convertible objects their value; a negative result raises ValueError, an unparsable string ValueError and a non-convertible object TypeError, each leaving the value in place |
| DbModels.NewCurrency | task_9/models/currency.py:2-7 | only char_code and then value are checked, the first failure raising; the other fields are stored as given and the stored rate is what the `value` setter computes (None for None, the number for an int or float) |
| DbModels.ZeroRateOnlyHere | task_9/models/currency.py:36-39 | a zero rate is rejected by the task_8 setter but accepted here; a negative one is rejected by both |
| DbModels.SetUserName | task_9/models/user.py:9-13 | no exception iff the value is a string that is not blank; the stripped value is stored |
| DbModels.NewUser | task_9/models/user.py:1-3 | success iff the name passes that check |
| Currencies.DictSet | task_7/currencies.py:41 | `result[code] = v` overwrites an existing key in place or appends a new one; keys stay distinct |
| Currencies.ValuteEntry | task_7/currencies.py:21-24 | the `"Valute" in data` test and lookup for every JSON shape: KeyError("Valute") when absent from an object; a list or string whose membership test passes raises TypeError on indexing; a scalar raises TypeError |
| Currencies.Valute | task_7/currencies.py:21-26 | succeeds iff the payload is an object whose `Valute` is an object; a non-object `Valute` raises TypeError |
| Currencies.CodeRate | task_7/currencies.py:29-41 | a missing code raises KeyError(code); an entry without `Value` raises KeyError(code + ".Value"); a bool or non-number raises TypeError; otherwise the rate as a float |
| Currencies.Extract | task_7/currencies.py:28-43 | the loop over the codes completes exactly when every code is quoted with a number |
| Currencies.ExtractSucceeds | task_7/currencies.py:28-43 | the loop succeeds iff every code is quoted; the dict then has exactly the requested codes, each with its quoted rate, with no key repeated |
| Currencies.ExtractFailsAtFirst | task_7/currencies.py:29-39 | on failure, some code is not quoted and every code before it is |
| Currencies.GetCurrencies | task_7/currencies.py:6-43 | the full error precedence: not a list, then ConnectionError, then ValueError for bad JSON, then the `Valute` checks, then the first unquoted code; success iff every requested code is quoted, and the keys are then exactly the requested codes |
| Currencies.CorrectReturnCase | task_7/test_currencies.py:14-18 | USD 93.25 and EUR 101.7 come back as that dict |
| Currencies.MissingCurrencyCase | task_7/test_currencies.py:20-24 | a code absent from `Valute` raises KeyError |
| Currencies.MissingValuteCase | task_7/test_currencies.py:26-30 | a payload without `Valute` raises KeyError |
| Currencies.TransportAndDecodeCases | task_7/test_currencies.py:32-39 | a failed decode raises ValueError and a failed transport raises ConnectionError |
| Currencies.WrongValueTypeCase | task_7/test_currencies.py:41-45 | a string `Value` raises TypeError |
| MyApp.Initial | task_8/myapp/myapp.py:27-44 | the seeded globals satisfy every invariant of the state |
| MyApp.FindUser | task_8/myapp/myapp.py:47-51 | None iff no user has the id; otherwise the first user with it |
| MyApp.FindCurrencyById | task_8/myapp/myapp.py:54-58 | None iff no currency has the id; otherwise the first currency with it |
| MyApp.CharCodes | task_8/myapp/myapp.py:87 | `[c.char_code for c in CURRENCIES]`: one code per currency, in catalogue order |
| MyApp.FindCurrencyByCode | task_8/myapp/myapp.py:61-65 | None iff no currency has the char code; otherwise the first currency with it |
| MyApp.CurrencyIdsOf | task_8/myapp/myapp.py:69 | an id is in the list iff the user has a record for it |
| MyApp.UserSubscriptions | task_8/myapp/myapp.py:68-70 | the catalogue's currencies the user has a record for, in catalogue order; each occurs as often as in the catalogue, however many records point at it; dangling records contribute nothing |
| MyApp.MaxId | task_8/myapp/myapp.py:74 | an upper bound of the record ids that one record attains |
| MyApp.NextId | task_8/myapp/myapp.py:74 | 1 for no records, otherwise one more than the largest id |
| MyApp.Subscribe | task_8/myapp/myapp.py:73-78 | an existing pair leaves the state as it was; otherwise one record with an id above every existing one is appended; the only exceptions are the record's ValueErrors; only the subscriptions change |
| MyApp.SubscribeIdempotent | task_8/myapp/myapp.py:73-78 | subscribing twice is subscribing once |
| MyApp.SubscribeKeepsValid | task_8/myapp/myapp.py:73-78 | ids stay unique, pairs stay unique, and records stay valid |
| MyApp.SubscribeKeepsUniqueIds | task_8/myapp/myapp.py:73-78 | unique record ids alone stay unique, because the new id exceeds every existing one |
| MyApp.SubscribeNeverRaisesOnValid | task_8/myapp/myapp.py:73-78 | on a valid state with positive ids, building the record never raises |
| MyApp.Unsubscribe | task_8/myapp/myapp.py:81-83 | removes every record of the pair and keeps the others, in order, with their multiplicities; only the subscriptions change |
| MyApp.UnsubscribeAbsent | task_8/myapp/myapp.py:81-83 | unsubscribing from a pair with no record is the identity |
| MyApp.UnsubscribeAfterSubscribe | task_8/myapp/myapp.py:73-83 | unsubscribe after subscribe gives the state unsubscribe alone gives |
| MyApp.UnsubscribeKeepsValid | task_8/myapp/myapp.py:81-83 | unsubscribe keeps every invariant of the state |
| MyApp.PostSubscribe | task_8/myapp/myapp.py:216-220 | unless the user and the currency both exist, a 404 with no change; when both exist, `subscribe`'s new state with a redirect to the user, or `subscribe`'s exception |
| MyApp.PostSubscribeOnValid | task_8/myapp/myapp.py:216-220 | on a valid state the guarded branch never raises and keeps the state valid; when the user and the currency exist it redirects to the user and the pair is recorded |
| MyApp.PostUnsubscribe | task_8/myapp/myapp.py:229-230 | there is no existence check: the state `unsubscribe` leaves, which keeps every other record in order, and a redirect to the user; the pair has no record afterwards, and an absent pair changes nothing |
| MyApp.ApplyRates | task_8/myapp/myapp.py:89-93 | the loop changes only currency values and the history; currencies stay valid; its only exception is the value setter's ValueError |
| MyApp.ApplyRatesKeepsCodes | task_8/myapp/myapp.py:89-93 | the char codes, and so every code lookup, are unchanged by the loop |
| MyApp.ApplyRatesCompletes | task_8/myapp/myapp.py:89-93 | the loop raises nothing iff every fetched rate of a known code is above zero |
| MyApp.ApplyRatesStopsAtBadRate | task_8/myapp/myapp.py:89-93 | the first rejected rate ends the loop with ValueError, and the state is what the entries before it produce |
| MyApp.ApplyRatesCurrencies | task_8/myapp/myapp.py:89-93 | with distinct keys and acceptable rates, the first currency with each fetched code holds that code's rate and every other currency is unchanged |
| MyApp.ApplyRatesSeries | task_8/myapp/myapp.py:89-93 | with distinct keys and acceptable rates, each written code's series is `add` of its rate to the old series; other series are unchanged |
| MyApp.ApplyRatesKeys | task_8/myapp/myapp.py:89-93 | a code has a series afterwards iff it had one before or was written |
| MyApp.ApplyRatesHistory | task_8/myapp/myapp.py:89-93 | the two statements above, for every code |
| MyApp.UpdateRates | task_8/myapp/myapp.py:86-93 | a failed fetch changes nothing and raises its exception; a successful one runs the loop over its rates; users, subscriptions and char codes never change; validity is kept; no exception iff the fetch succeeds with acceptable rates |
| MyApp.UpdateRatesApplies | task_8/myapp/myapp.py:86-93 | after a successful fetch of distinct codes with acceptable rates, each currency holds its code's fetched rate (others unchanged) and each code's series has exactly the points `add` appends for its fetched rate |
| MyApp.UpstreamCodesAreKnown | task_8/myapp/myapp.py:87-88 | fetching through `get_currencies` with the catalogue's codes returns distinct keys that are all catalogue codes, so no entry is skipped |
| MyApp.UpdateSeededCurrencies | task_8/myapp/myapp.py:86-93 | on the seeded state, USD 93.25 and EUR 101.7 are written and GBP keeps 1.0 |
| MyApp.UpdateSeededUsdSeries | task_8/myapp/myapp.py:86-93 | after one update from the seeded state, the USD series is the single new point |
| MyApp.UpdateSeededHistory | task_8/myapp/myapp.py:86-93 | on the seeded state, the default USD window then holds exactly the new point |

## Left out

- The HTTP server and handlers: routing, HTML rendering with Jinja templates, the JSON API output, and static files. Only the state changes of the `/subscribe` and `/unsubscribe` branches are modelled.
- Query-parameter parsing: `int(query.get(...))` and its "Invalid params" 400 answer. The handler models take the parsed integers.
- The `/update` and `/currencies` branches that call `update_rates` inside `try`. `MyApp.UpdateRates` returns the exception they would render.
- task_9's SQLite controllers, task_7's logging decorators and demos, and task_1.
- The network read and the JSON decode in `get_currencies`. They are the input `Fetched`. The text after "API unavailable: " in the ConnectionError message is dropped, because it is the underlying error's text.
- task_8/myapp/utils/currencies_api.py, which `update_rates` imports, is not part of this model. Its answer is the parameter `fetch`, whose rates are floats. The task_7 function is composed with the model in `MyApp.UpstreamCodesAreKnown`.
- Floating point: rates are exact reals. NaN, infinities, rounding and the overflow of `float(int)` are not modelled.
- Codes in `get_currencies` are strings. A list of other values is not modelled.
- History.Add: the source reads the clock twice per call, once for the default timestamp and once in `_prune`. `update_rates` also reads it once per entry. The model uses one `now` for all of these.
- Models.NewCurrency: the default `nominal=1` of the constructor is not modelled; callers pass `nominal` explicitly.
- Python.FloatOf: the grammar `float()` accepts for strings is the parameter `parseFloat`. `bytes` and `bytearray` arguments, which `float()` parses like strings, are not modelled, and a `__float__` or `__index__` method that itself raises is not modelled either.
- DbModels.SetValue: inherits the limits of `Python.FloatOf` above, so a `bytes` rate and a raising `__float__` are not modelled.
- History.LastNDays: instants are unbounded integers, whereas Python's `datetime` only spans years 1 to 9999 and `timedelta` at most 999999999 days. A window so wide that `datetime.now() - timedelta(days=days)` overflows raises OverflowError in the source; the model instead returns the whole series (`History.WindowBeyondRetention` has no upper bound on `days`). History.Add inherits the same range limit.
- Python.Upper: only ASCII letters are upper-cased. Unicode case mappings, including ones that change the length, are not modelled.
- The exception texts raised by the interpreter (`float()`, indexing a list or string, `in` on a scalar) follow CPython, but only the exception class is relied on.
- App.author keeps the same `Author` object. Later mutation through another reference is not modelled, because values are immutable here.
