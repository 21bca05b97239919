# postgres_to_es change capture, modelled in Dafny

This project models the core of a small pull-based pipeline that copies film
data from PostgreSQL towards Elasticsearch. It covers three parts:

- **Watermark store** (`statemanager.dfy`, module `StateManager`). `State` sits over
  a `JsonFileStorage` that holds a string-keyed map in `conditions.txt`.
  `get_state` is a map lookup. It gives `None` only for an absent key, and it
  gives a falsy value back as it is. `set_state` reads the whole map,
  overwrites one key and saves the whole map. A failed save is swallowed. The
  file is `Option<map<string, string>>`; `None` means missing or unparsable,
  and that reads as `{}`. The outcome of each save is a parameter: it
  succeeds, fails at `open`, or fails after `open(path, 'w')` has already
  truncated the file.
- **Retry decorator** (`backoff.dfy`, module `Backoff`). After the n-th
  consecutive failure it sleeps `start * factor ** n`, replaced by `border`
  once that value reaches `border`. There is no attempt limit. With a float
  start or a float factor, though, computing the pause raises OverflowError
  once `factor ** n` reaches 2 ** 1024. With the defaults that is failure
  1024. `time.sleep` raises OverflowError on a pause of 2 ** 63 ns or more
  (about 9.22e9 s), which only a border that large lets through. It raises
  ValueError on a negative pause, which a negative start, border or factor
  can produce. Every one of these errors is raised inside the `except`
  handler, so it escapes (`Retry`, `Inner`). The intended
  retry-forever behaviour is `RetryForever`. Durations are exact
  `real`s. The wrapped call's outcomes are a finite sequence of failures that
  ends in a success, and the sleeps are returned as a sequence. The pause
  computation is its own method, `Pause`.
- **Extractor** (`extractor.dfy` and `models.dfy`, modules `Extractor` and
  `Models`). `bake_query` looks a key up in a dictionary of six queries.
  `postgres_producer` reads the watermark or initialises it, collects the
  changed person ids page by page, and fans them out to film ids only when
  there are any. `postgres_enricher` skips when no film changed. Otherwise it
  decodes each page and rebuilds the outgoing list from every page. The
  database is a `Source`: for each query, the rows it returns. A `Cursor` class
  hands those rows out `fetchSize` at a time, as `fetchmany` does. The
  producer's person scan and film fan-out are the methods `ScanPersons` and
  `FanOutToFilms`, and the enricher's page loop is `DecodePages`.

`wrappers.dfy` holds the `Option` type.

Behaviours of the code that the model keeps, even where they look unintended:

- The first pause is `start * factor` (0.2 s with the defaults), not `start`,
  because `n` is incremented before the pause is computed.
- The producer never advances '_modified' after processing. It writes
  '_modified' only on a first run, and there the value is the extractor's
  current watermark.
- Only the person branch of the sweep exists. Genres and films have queries
  in `bake_query`, but the producer never runs them.
- The fan-out query keeps only films whose own `updated_at` is also after the
  watermark.
- A save that fails after truncating the file loses every key, not only the
  one being written (`FailedWriteLosesEveryKey`).
- The enricher hands `Transform` only the models of the last page.
- With the defaults, a retry gives up with OverflowError after 1023 pauses
  (see "Findings").
- A stored '_modified' of `''` counts as absent: the producer re-runs the
  first-run writes and scans from the default watermark (`InitWrites` and
  `Watermark` test truthiness).
- One changed film without persons or without genres fails the whole
  enricher run, so no film is pushed (see "Findings").

## Model

| member | source | states |
|---|---|---|
| `StateManager.Lookup` | postgres_to_es/statemanager.py:74-79 | the result is `None` exactly when the key is absent; otherwise it is the stored value, even an empty one |
| `StateManager.Retrieved` | postgres_to_es/statemanager.py:38-45 | a missing or unparsable file reads as the empty map; otherwise the file's map |
| `StateManager.AfterSave` | postgres_to_es/statemanager.py:33-36 | a successful save stores exactly the given map; a failed `open` leaves the file unchanged; a failure after truncation leaves no readable map |
| `StateManager.AfterSet` | postgres_to_es/statemanager.py:55-65 | a saved `set_state` stores the retrieved map with the key set to the value and every other key kept; a failed `open` leaves the file as it was; a failure after truncation leaves no readable map |
| `StateManager.JsonFileStorage.constructor` | postgres_to_es/statemanager.py:30-31 | the storage keeps its path and starts from the file's current contents |
| `StateManager.JsonFileStorage.RetrieveState` | postgres_to_es/statemanager.py:38-45 | never raises; gives the file's map, or `{}` when there is none |
| `StateManager.JsonFileStorage.SaveState` | postgres_to_es/statemanager.py:33-36 | raises exactly when the save does not succeed; the new file is `AfterSave` of the old one |
| `StateManager.State.constructor` | postgres_to_es/statemanager.py:50-51 | the state object is bound to the given storage |
| `StateManager.State.GetState` | postgres_to_es/statemanager.py:74-79 | `None` exactly for a key absent from storage, else the stored value; reading changes nothing |
| `StateManager.State.SetState` | postgres_to_es/statemanager.py:53-72 | the saved map is the retrieved map with only `key` overwritten, written even when the key is absent or falsy; no exception escapes; the "restore" only changes the local map, and only when the old value was truthy |
| `StateManager.AbsentDiffersFromFalsy` | postgres_to_es/statemanager.py:74-79 | an absent key reads `None`, and a key set to `''` reads `''`; both are falsy, but only the first is absent |
| `StateManager.GetAfterSet` | postgres_to_es/statemanager.py:53-79 | after a successful `set_state(k, v)`, `get_state(k)` is `v`, whatever `k` held before |
| `StateManager.SetKeepsOtherKeys` | postgres_to_es/statemanager.py:55-65 | a successful `set_state` saves the previous map with only its key changed; every other key reads as before |
| `StateManager.FailedOpenKeepsState` | postgres_to_es/statemanager.py:64-71 | when `open` fails, the durable state is exactly what it was, for every key |
| `StateManager.FailedWriteLosesEveryKey` | postgres_to_es/statemanager.py:33-45 | when the dump fails after truncation, every key reads absent afterwards |
| `StateManager.AllSavedOverlay` | postgres_to_es/statemanager.py:53-65 | successive `set_state` calls whose saves all succeed leave the starting map overlaid with the writes in order |
| `StateManager.OverlayLookup` | postgres_to_es/statemanager.py:53-65 | after such a sequence of writes, a key holds its last written value, and a key no write touched keeps its old value |
| `Backoff.Delay` | postgres_to_es/backoff_dec.py:34-37 | the pause is never above `border`; it is `start * factor ** n` while that is below `border`, and `border` otherwise |
| `Backoff.Pause` | postgres_to_es/backoff_dec.py:35-37 | the pause computed in place is exactly `Delay` for that failure count |
| `Backoff.Schedule` | postgres_to_es/backoff_dec.py:28-39 | after k failures there are exactly k pauses, and the i-th is the pause for failure count i + 1 |
| `Backoff.FirstSuccess` | postgres_to_es/backoff_dec.py:29-31 | the index of the first call that returns: every earlier call raised |
| `Backoff.Inner` | postgres_to_es/backoff_dec.py:26-39 | `inner` succeeds exactly when every pause before the first success can be computed and slept, and then returns that success's value; otherwise it stops at the first failure whose pause cannot, with OverflowError exactly when computing the pause overflows or the pause is 2 ** 63 ns or more (or below -2 ** 63 ns), and ValueError only when it is negative |
| `Backoff.InnerFrom` | postgres_to_es/backoff_dec.py:29-39 | from failure count n on, the same ending, with a failure count between n and the first success |
| `Backoff.Retry` | postgres_to_es/backoff_dec.py:26-39 | `inner` as written: its ending and failure count are exactly `Inner`'s; the pauses are `Schedule` up to the failure count on success, and up to one fewer when the pause overflows, is too long to sleep or is negative |
| `Backoff.RetryForever` | postgres_to_es/backoff_dec.py:26-39 | the intended loop: returns the value of the first call that returns; `n` is the number of failures before it, and the pauses are exactly `Schedule` up to `n`; no attempt limit |
| `Backoff.FailuresThenSuccess` | postgres_to_es/backoff_dec.py:29-39 | for any k, k failures and then one success put the first success at index k, so `RetryForever` returns that value after exactly k pauses |
| `Backoff.FirstAttemptSuccess` | postgres_to_es/backoff_dec.py:29-31 | a first-attempt success returns with no pause |
| `Backoff.DelayMonotone` | postgres_to_es/backoff_dec.py:34-37 | with `start >= 0` and `factor >= 1`, the pause after more failures is never shorter |
| `Backoff.DelayStaysCapped` | postgres_to_es/backoff_dec.py:34-37 | once a pause equals `border`, every later pause equals `border` |
| `Backoff.ScheduleOrdered` | postgres_to_es/backoff_dec.py:28-39 | the pause sequence is non-decreasing and bounded by `border` |
| `Backoff.DefaultSchedule` | postgres_to_es/backoff_dec.py:10-37 | with the defaults, the first pause is 0.2 s and the sixth is 6.4 s; from the seventh failure on every pause is 10 s |
| `Backoff.PowGrows` | postgres_to_es/backoff_dec.py:35 | with a factor above 1, `factor ** n` strictly grows with n |
| `Backoff.DefaultsOverflowOnFailure1024` | postgres_to_es/backoff_dec.py:10-37 | with the defaults, 1023 failures and then a success return the success; 1024 failures end in OverflowError at failure 1024 |
| `Backoff.PowNonNegative` | postgres_to_es/backoff_dec.py:35 | with a factor that is not negative, `factor ** n` is not negative |
| `Backoff.NonNegativeNeverValueError` | postgres_to_es/backoff_dec.py:35-39 | with start, factor and border all not negative, `inner` never ends in the ValueError of `time.sleep` |
| `Backoff.NegativeStartValueError` | postgres_to_es/backoff_dec.py:35-39 | with start -0.1, one failure and then a success, the first pause is -0.2 and `inner` ends in ValueError after that failure |
| `Backoff.HugePauseOverflowError` | postgres_to_es/backoff_dec.py:35-39 | with start 1e10 s and border 1e11 s, the first pause is 2e10 s, below the border, and `inner` ends in OverflowError from `time.sleep` after one failure |
| `Backoff.SleepableBorderOnlyPowerOverflows` | postgres_to_es/backoff_dec.py:35-39 | with start and factor not negative and a border from 0 up to 2 ** 63 ns, `inner` can fail only with the OverflowError of computing `factor ** n` |
| `Models.Decode` | postgres_to_es/models.py:9-19 | a row decodes exactly when its persons and genres are not NULL, and the model keeps the row's id, title, persons and genres |
| `Models.DecodeAll` | postgres_to_es/extractor.py:224 | a page decodes exactly when every row does; the models are then one per row, in row order |
| `Models.DecodeNextPage` | postgres_to_es/extractor.py:221-224 | decoding a page after earlier pages yields the earlier models followed by exactly that page's models |
| `Models.DecodeFailsWithSlice` | postgres_to_es/extractor.py:224 | a page that does not decode makes the whole row list fail to decode |
| `Models.DecodeNullAsEmpty` | postgres_to_es/models.py:9-19 | the intended decoding: never fails, keeps id and title, reads NULL persons as `{}` and NULL genres as `[]`, and agrees with `Decode` wherever that succeeds |
| `Models.DecodeAllNullAsEmpty` | postgres_to_es/extractor.py:224 | one such model per row, in row order, equal to `DecodeAll`'s models whenever that succeeds |
| `Extractor.InListRoundTrip` | postgres_to_es/extractor.py:90-101 | for ids without quotes, the `IN (...)` text that `InList` builds reads back as exactly the ids, in list order; the empty list gives the empty text |
| `Extractor.InListAmbiguousWithQuotes` | postgres_to_es/extractor.py:101 | an id that holds a quote makes the interpolated list ambiguous: one id and two ids give the same text |
| `Extractor.LastPage` | postgres_to_es/extractor.py:221-224 | the last page is a suffix of the rows, at most one page long, non-empty when there are rows, and it starts at a multiple of the fetch size |
| `Extractor.LastPageStartAligned` | postgres_to_es/extractor.py:221-224 | the start of the last page is a whole number of pages into the rows |
| `Extractor.DecodePages` | postgres_to_es/extractor.py:216-224 | the page loop gives `None` when some row does not decode, and otherwise the models of the last page of the decoded rows |
| `Extractor.PageStep` | postgres_to_es/extractor.py:221-224 | one more `fetchmany` page extends the decoded rows by exactly that page's models, and unless the rows are exhausted the last page still lies a whole page further on |
| `Extractor.Cursor.Execute` | postgres_to_es/extractor.py:150-153 | after executing, the cursor holds the query's rows and has handed none out |
| `Extractor.Cursor.FetchMany` | postgres_to_es/extractor.py:175 | hands out the next `size` rows, fewer at the end and none when exhausted, and advances past them |
| `Extractor.Extractor.constructor` | postgres_to_es/extractor.py:34-54 | the lists start empty, state lives in conditions.txt, the watermark is '1895-12-28 00:00:00', and chunk and fetch sizes come from the settings |
| `Extractor.Extractor.BakeQuery` | postgres_to_es/extractor.py:58-147 | `None` exactly for keys outside the six; the three change scans select rows of their table changed strictly after the current watermark, limited to the chunk; the fan-outs and the enrichment list the current id lists |
| `Extractor.Extractor.Drain` | postgres_to_es/extractor.py:174-177 | the list is reset and then holds every fetched page, concatenated in order: all the query's rows |
| `Extractor.Extractor.LoadWatermark` | postgres_to_es/extractor.py:156-166 | a truthy stored '_modified' becomes the watermark and nothing is written; otherwise '_modified', 'genres', 'persons' and 'films' are written, in that order |
| `Extractor.Extractor.ScanPersons` | postgres_to_es/extractor.py:169-177 | runs the person scan, saves 'persons' := 'loaded' with the given outcome, and leaves every scanned person id in the list, in order |
| `Extractor.Extractor.FanOutToFilms` | postgres_to_es/extractor.py:180-186 | with no changed persons the film list is untouched; otherwise it holds every row of the fan-out query over those persons |
| `Extractor.Extractor.PostgresProducer` | postgres_to_es/extractor.py:155-204 | the writes are the first-run ones plus 'persons' := 'loaded'; changed persons are all rows of the person scan; films are reset and refetched only when persons is non-empty; genres are untouched; the enricher's outcome is returned and its failure never escapes |
| `Extractor.Extractor.PostgresEnricher` | postgres_to_es/extractor.py:206-232 | issues no query when no film changed; fails when any row does not decode; otherwise pushes only the models of the last page |
| `Extractor.WatermarkWrittenOnlyOnFirstRun` | postgres_to_es/extractor.py:156-166 | with a truthy stored value `InitWrites` is empty and the stored value is the watermark; otherwise '_modified' is written first, and no other write touches it |
| `Extractor.ProducerStateWhenSaved` | postgres_to_es/extractor.py:156-172 | when all saves succeed, 'persons' reads 'loaded' and '_modified' holds the watermark scanned from; a first run marks 'genres' and 'films' 'planned'; all other keys are unchanged |
| `Extractor.ProducerMapWhenSaved` | postgres_to_es/extractor.py:156-172 | when all saves succeed, the stored map is the old map with the first-run writes, if any, and then 'persons' := 'loaded' |
| `Extractor.WatermarkNeverAdvanced` | postgres_to_es/extractor.py:157-201 | with a truthy stored watermark, '_modified' stays unchanged after the run unless the one save truncates the file |
| `Extractor.EnricherPushesLastPage` | postgres_to_es/extractor.py:213-232 | skipped without changed films; `Failed` when some row does not decode; otherwise the pushed models are the last page of the decoded rows, at most `fetchSize` of them, starting at a multiple of `fetchSize`; with more rows than one page, some are never pushed |
| `Extractor.EnricherDropsFirstPage` | postgres_to_es/extractor.py:221-224 | with 150 films and a fetch size of 100, the pushed list starts at row 100 |
| `Extractor.NullAggregateFailsRun` | postgres_to_es/extractor.py:113-141 | one film whose persons or genres aggregate is NULL makes the enricher run `Failed`, while reading NULL as empty would push the last page |
| `Extractor.EnrichResultNullAsEmpty` | postgres_to_es/extractor.py:213-232 | the intended enricher outcome: never `Failed`, skipped exactly without changed films, one model per row of the last page in order, and equal to the outcome as written when no aggregate is NULL |

## Left out

- Extractor.Extractor.BakeQuery: returns the query as a `Query` value rather than as text. `Sql` renders each `Query` to the exact text with its line breaks collapsed, and the database is keyed by `Query`. This keeps the long query texts out of the proofs about the producer.
- SQL semantics (filtering, ordering, `LIMIT`, `DISTINCT`, the JSON aggregation) are left out. A query's result is whatever rows the `Source` gives for it.
- Retry around `query_exec`: each query is taken to return its rows eventually. The retry loop itself is modelled in `Backoff.Retry`, where a call that never succeeds is outside a finite outcome sequence. An outage of 1024 consecutive failures would make `query_exec` raise OverflowError, and that error escapes `postgres_producer`, whose `try` covers only the enricher. The producer model does not compose the two.
- Extractor.Sql: carries no contract. It renders each `Query` to the source's text, and that text agrees with lines 59-143 of extractor.py only by reading.
- Backoff.Retry: float rounding of `start * factor ** n`, of powers just below 2 ** 1024, and of the pause's conversion to nanoseconds near 2 ** 63 ns are not modelled. A pause is an exact `real`, and overflow is exactly `|factor ** n| >= 2 ** 1024`.
- Backoff.RetryForever: stands for the decorator with a non-negative int start, a non-negative int factor and a non-negative border below 2 ** 63 ns (about 9.22e9 s), where Python's exact int pauses never overflow, are never negative and can always be slept. Its parameters are `real`s all the same, and it records a pause that `Retry` would end on (negative, or too long to sleep) instead of raising.
- `time.sleep` is modelled only by its errors: OverflowError when the pause in nanoseconds falls outside [-2 ** 63, 2 ** 63), and ValueError for a negative pause otherwise. The sleeps themselves appear only as the returned pause sequence. `logging`, `print`, the `LoggingCursor` and cursor closing are left out.
- Stored state values are strings. Other JSON value types are not modelled. A failed save is one of three outcomes (success, failure at `open`, failure after truncation) and is chosen by a parameter.
- `BaseStorage` as an abstract class is not modelled. Only the JSON file storage exists.
- Reading settings.ini is left out: chunk size and fetch size are constructor parameters. The fetch size must be at least 1. `fetchmany` with a zero or negative size is not modelled.
- Validation of `FilmworkModel`: only NULL persons or genres are modelled as failing. UUID parsing of `id` and NULL entries inside the lists are left out.
- `Transform.prepare_and_push` and `Load` are left out: they only forward and print. The enricher's outcome records what is handed to them.
- main.py (connection setup) is not part of this model. Neither are ES bulk writes: the code does not implement them.

## Findings

| source | as written | input that shows it | evidently intended | confidence | as-written member | corrected member |
|---|---|---|---|---|---|---|
| postgres_to_es/backoff_dec.py:35 | `start_sleep_time * factor**n` raises OverflowError once `factor**n` reaches 2 ** 1024; it is raised inside the `except` handler, so it escapes `inner` | the defaults, 1024 consecutive failures, then a success | keep retrying, pausing `border_sleep_time` each time | not executed | Backoff.Retry, Backoff.DefaultsOverflowOnFailure1024 | Backoff.RetryForever, Backoff.FailuresThenSuccess |
| postgres_to_es/extractor.py:224 | `FilmworkModel(**record['films'])` rejects a film whose persons or genres aggregate is NULL, which is what `json_object_agg` and `json_agg` give over no rows (lines 113-138); the whole run then fails and nothing is pushed | changed films whose enrichment rows include one film with no genre links | push that film with an empty `genres` list (or empty `persons`) and push the others | not executed; medium, the schema might mean every film to have genres and persons | Extractor.NullAggregateFailsRun, Models.DecodeAll | Extractor.EnrichResultNullAsEmpty, Models.DecodeAllNullAsEmpty |
