# GDP_check: World Bank series normalisation and year-aligned join

`GDP_check.py` fetches two World Bank indicators for China (nominal GDP in
current US dollars, `NY.GDP.MKTP.CD`, and real GDP growth in percent,
`NY.GDP.MKTP.KD.ZG`) from 1980 to the current year, turns each reply into a
year-indexed series, rescales GDP to trillions of dollars and keeps the years
present in both series. This project models that data path in Dafny as pure
functions over sequences, with lemmas for what the script promises:

- `Decimal` (decimal.dfy): how Python writes an integer (`str`, used in the
  URL f-string) and reads one back (`int(...)` plus the integer cast that
  `astype(int)` performs), with the round trip between them. The model takes
  that cast to be 64-bit, which is NumPy's default integer except on Windows
  before NumPy 2, where it is 32-bit.
- `WorldBank` (world_bank.dfy): `fetch_worldbank_series`. It builds the
  request URL and checks the shape of the decoded reply `data`, which must be
  a list of at least two elements whose second is not null. It then
  normalises `data[1]`: keep `date`/`value`, drop null values, read each
  date as an integer year, sort by year.
- `GdpCheck` (gdp_check.dfy): the rescale and the inner join of `main`.
- `Wrappers` (wrappers.dfy): `Option` and `Result`; the script's exceptions
  are the `Err` side of `Result`, with the kind in `FetchError`.

The value type of a series is a type parameter `V`. The division by 1e12 is a
function `toTrillions: V -> V` passed in. The HTTP request plus JSON decoding
is a function `provider` from the URL to the decoded reply. The current year
is a parameter.

Two behaviours of the code are worth naming:

- The code sorts but never removes duplicates, so years in a series are
  non-decreasing, not strictly increasing (`DuplicateYearsKept` shows two
  entries for one year).
- A non-empty `data[1]` whose values are all null gives an empty series
  without error (`AllNullGivesEmptySeries`). An empty list `data[1] == []`
  fails, because a frame built from no records has no `date`/`value` columns
  to select (`MissingColumns`).

## Model

| member | source | states |
|---|---|---|
| Decimal.NatDigits | GDP_check.py:31 | the decimal text of a natural number is non-empty and made of digits only |
| Decimal.FormatInt | GDP_check.py:31 | `str(n)` is non-empty and is digits, with at most a leading minus sign |
| Decimal.ParseInt64 | GDP_check.py:45 | a date is accepted only if it is an optional sign followed by at least one digit and its value fits in 64 bits |
| Decimal.ParseInt64Reads | GDP_check.py:45 | every optional sign followed by at least one digit is read as its signed decimal value, accepted exactly when that value fits in 64 bits |
| Decimal.DigitsValueOfNatDigits | GDP_check.py:31 | reading the digits of n gives back n |
| Decimal.ParseFormatRoundTrip | GDP_check.py:45 | reading back any 64-bit integer written by `str` gives that integer |
| WorldBank.DateRangeRoundTrip | GDP_check.py:31 | the `start:end` range text splits back into exactly the two years written |
| WorldBank.RequestUrl | GDP_check.py:29-33 | the URL starts with the API base `https://api.worldbank.org/v2/country/` and ends with `&format=json&per_page=20000` |
| WorldBank.RequestUrlFields | GDP_check.py:29-33 | the URL is the API base, the country code, `/indicator/`, the indicator code, `?date=` with a range that reads back as start_year:current_year, then `&format=json&per_page=20000` |
| WorldBank.RecordsOfAsWritten | GDP_check.py:37-39 | as written: a malformed list or string gets the shape error, any other malformed reply fails on `data[:1]` with a different error; on success the records are exactly `data[1]` |
| WorldBank.UnsliceableMissesShapeError | GDP_check.py:37-38 | a JSON object, number, boolean or null reply gets the slicing error from the code as written and the shape error from the corrected check |
| WorldBank.RecordsOfCorrectsAsWritten | GDP_check.py:37-39 | the corrected check agrees with the code as written on every list and string reply, and both fail on every other reply |
| WorldBank.RecordsOf | GDP_check.py:37-39 | corrected: the reply is rejected with the shape error exactly when it is not a list of at least two elements whose second is not null; on success the records are exactly `data[1]` |
| WorldBank.DropNull | GDP_check.py:44 | the null filter keeps at most as many pairs as there are records |
| WorldBank.DropNullMembership | GDP_check.py:43-44 | every pair kept by the null filter comes from a record with a non-null value, and every record with a non-null value is kept |
| WorldBank.DropNullAppend | GDP_check.py:44 | the null filter works record by record: filtering a concatenation concatenates the filtered parts |
| WorldBank.ParseYears | GDP_check.py:45 | succeeds exactly when every kept date reads as an integer; then entry i is that year with the i-th value; otherwise it fails with the invalid-year error |
| WorldBank.ParseYearsFirstBadDate | GDP_check.py:45 | a failure names the first kept date that does not read as an integer |
| WorldBank.Insert | GDP_check.py:46 | inserting adds one entry, and that entry is in the result |
| WorldBank.InsertSorted | GDP_check.py:46 | inserting an entry into a year-sorted series keeps it sorted |
| WorldBank.InsertPermutation | GDP_check.py:46 | inserting adds exactly that entry and loses none |
| WorldBank.SortByYear | GDP_check.py:46 | the result is in non-decreasing year order and is a permutation of the input |
| WorldBank.Normalise | GDP_check.py:42-48 | fails with the missing-columns error exactly when `data[1]` is empty; a series it returns is sorted by year and no longer than `data[1]` |
| WorldBank.Fetch | GDP_check.py:26-49 | the call fails with the shape error exactly when the reply for its URL is malformed; when the reply is well shaped and `data[1]` is a list of records, the outcome is the normalisation of those records, so the `Normalise*` lemmas carry over; a series it returns is sorted by year |
| WorldBank.FetchRejectsMalformed | GDP_check.py:37-38 | a malformed reply makes the call fail with the shape error (where the code as written fails on slicing for a reply that is neither a list nor a string), and a series is produced only from a reply whose `data[1]` is a list of records |
| WorldBank.OnlySecondElementMatters | GDP_check.py:39 | two well-shaped replies with the same `data[1]` yield the same records, whatever their other elements |
| WorldBank.NormaliseSound | GDP_check.py:44-45 | every series entry is the value of a non-null record of `data[1]`, indexed by that record's date read as an integer |
| WorldBank.NormaliseComplete | GDP_check.py:44-45 | every record of `data[1]` with a non-null value has a readable date and appears in the series under that year |
| WorldBank.NormaliseIsSortedPermutation | GDP_check.py:44-47 | the series is sorted by year and is a permutation of the kept (year, value) pairs |
| WorldBank.NormaliseOkWhenDatesRead | GDP_check.py:42-48 | the normalisation succeeds exactly when `data[1]` is not empty and every record with a non-null value has a date that reads as an integer |
| WorldBank.BadDateFails | GDP_check.py:45 | a non-null record whose date is not an integer makes the call fail with the invalid-year error |
| WorldBank.NullRecordIgnored | GDP_check.py:44-45 | inserting a null-valued record anywhere, whatever its date text, leaves the outcome unchanged (nulls are dropped before dates are read) |
| WorldBank.AllNullGivesEmptySeries | GDP_check.py:42-48 | a non-empty `data[1]` with only null values gives the empty series, not an error |
| WorldBank.DuplicateYearsKept | GDP_check.py:46-47 | two records for the same year both stay in the series: the index is not de-duplicated |
| GdpCheck.Rescale | GDP_check.py:57 | the rescaled series has the same years in the same order, each value mapped by the unit conversion, stays sorted and keeps its years distinct exactly when they were |
| GdpCheck.Lookup | GDP_check.py:60-63 | a year has no value exactly when it is not among the series' years; a value found is that year's entry |
| GdpCheck.Combine | GDP_check.py:60-63 | the table's years are exactly the years present in both series, each row holds a GDP entry and a growth entry of its own year, and when the GDP series has no repeated year no year has two rows |
| GdpCheck.GdpTable | GDP_check.py:53-63 | the table exists exactly when both fetches succeed |
| GdpCheck.GdpTableAligned | GDP_check.py:53-63 | the table exists exactly when both fetches succeed, otherwise the first failure is raised; its years are the intersection of the two series' years, each row holding the rescaled GDP and the growth of that year; when the GDP series has no repeated year, each common year has exactly one row |
| GdpCheck.InnerJoinExample | GDP_check.py:60-63 | series over 2019-2021 and 2020-2022 combine to the years 2020 and 2021 |

## Left out

- The HTTP request, `raise_for_status` and `r.json()` (GDP_check.py:34-36): network I/O and JSON decoding. The model's `provider` is a total function from URL to decoded reply, so HTTP errors, timeouts and undecodable bodies are not modelled.
- `pd.Timestamp.today()` (GDP_check.py:28): the current year is a parameter. The code reads today's date separately in each of the two fetches (GDP_check.py:53-54), so a run across New Year can request different end years; the model passes one current year to both.
- The division by 1e12 (GDP_check.py:57): floating point. It is the parameter `toTrillions`, and no arithmetic property of it is claimed.
- The CSV export (GDP_check.py:66) and all plotting and font set-up (GDP_check.py:11-15, 69-93): file output and presentation.
- Records are modelled with a `date` that is a string and a `value` that is null or a value of type `V`. A JSON record missing either key, a `date` that is JSON null (which `astype(int)` rejects with TypeError) or a number (a float date is truncated), and a `value` of another JSON type are not modelled.
- WorldBank.RecordsOf: when `data[1]` is a JSON value other than null or a list of records (an object, a number), the shape check passes and what pandas then does depends on the value. The model reports a separate `RecordsNotAList` error instead.
- Decimal.ParseInt64: Python's `int()` also accepts surrounding whitespace, underscores between digits and non-ASCII decimal digits. The model rejects these; World Bank dates are plain ASCII digits.
- WorldBank.SortByYear: the order among entries with the same year follows pandas' unstable sort. The model inserts stably and claims only sortedness and permutation.
- GdpCheck.Combine: when a series repeats a year, pandas raises unless both indexes are identical, in which case it pairs rows by position. The model does not raise; it pairs each GDP entry with a growth entry of that year.
- GdpCheck.GdpTableAligned: one row per common year is promised only when the GDP series has no repeated year, because the code does not de-duplicate (see the line above for what pandas does otherwise).
- WorldBank.Fetch: uses the corrected shape check `RecordsOf`, so a JSON object, number, boolean or null reply fails with the shape error rather than the slicing error of the code as written (see Findings).
- WorldBank.FetchRejectsMalformed: states the corrected behaviour, the shape error for every malformed reply. For a reply that is a JSON object, number, boolean or null, the code as written fails with TypeError (or KeyError for an object on recent Python) while formatting the message; that is `RecordsOfAsWritten`, listed under Findings.
- GdpCheck.Combine: the row order of the combined table comes from pandas' index union and is not claimed. The model lists rows in the GDP series' order.
- The other two scripts of the repository (company analysis and comparison dashboards) are not part of this model.

## Findings

| source | as written | input that shows it | evidently intended | confidence | as-written member | corrected member |
|---|---|---|---|---|---|---|
| GDP_check.py:37-38 | the shape check's error message formats `data[:1]`, which cannot be evaluated when `data` is not a list or a string | a reply that decodes to a JSON object, number, boolean or null, e.g. `{"message": ...}` | every malformed reply raises the `ValueError` naming the bad response | not executed | WorldBank.RecordsOfAsWritten (shown by WorldBank.UnsliceableMissesShapeError) | WorldBank.RecordsOf (related by WorldBank.RecordsOfCorrectsAsWritten) |
