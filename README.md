# Business Opportunity Evaluator — rating pipeline

A Dafny model of the rating logic of the Business Opportunity Evaluator, a
Streamlit page. The page reads a spreadsheet whose first column names business
opportunities and whose other header cells name differentiators. It shows a
1–5 slider for every (opportunity, differentiator) pair and keeps the slider
values in a session-lifetime dictionary. On submission it sums each
opportunity's ratings and shows the opportunities ranked by total.

The model has four modules, following the script from top to bottom:

- `Dataset` (`dataset.dfy`, pure): the parsed sheet as a value, with cells
  that are either missing or a value. It holds the validation checks in the
  script's order and the extraction of the differentiators (header columns
  after the first) and the opportunities (the first column's distinct
  non-missing values, in order of first appearance).
- `Scores` (`scores.dfy`, imperative where the script is). Slider keys are
  the strings `opportunity + "_" + differentiator`, not pairs, so two
  different pairs can share one entry. The session's `scores` entry is the
  class `ScoreStore`: a `created` flag and a `map<string, int>`.
  `InitialiseOnce` and `FormPass` are the script's nested loops, with
  invariants. They are proved against the specification functions
  `InitialScores` and `Written`: `Written` folds the slider writes in loop
  order, so when keys alias, the later write wins. `Totals` is the
  aggregation loop, proved against `Total`, where an absent key counts 0.
- `Ranking` (`ranking.dfy`, pure): the descending sort by total, specified
  by what it promises: the same rows as a multiset, with totals that never
  increase. `Rank` (an insertion sort) is one admissible outcome.
- `Evaluator` (`evaluator.dfy`): one run of the script, composing the above.
  The slider is an input function `(key, current) -> int` whose values lie
  in [1, 5]. The form's submit button is a boolean input.

## Model

| member | source | states |
|---|---|---|
| `Dataset.Validate` | app.py:28-43 | Fewer than two columns is refused first. Then zero data rows, then a first column with no non-missing value. Each refusal holds exactly when its condition holds and the earlier checks pass. The "no differentiators" refusal can never be returned. On success the differentiators are exactly the header after the first column, in header order, and non-empty. The opportunities are non-empty, duplicate-free, and are exactly the non-missing first-column values. |
| `Dataset.DistinctValues` | app.py:40 | `dropna().unique()`: the result has no duplicates, and it holds a value exactly when some cell of the column holds that value. |
| `Dataset.DistinctValuesInFirstAppearanceOrder` | app.py:40 | Values listed earlier first appear in earlier rows: the order is the order of first appearance. |
| `Dataset.OpportunitiesInSheetOrder` | app.py:39-40 | A valid sheet's opportunity list is ordered by the row of each opportunity's first appearance. |
| `Scores.Key` | app.py:65 | The slider key is the two names joined by "_": the opportunity, then "_", then the differentiator, so each name can be read back from its place in the key. |
| `Scores.KeysCanAlias` | app.py:65 | Two different pairs, ("a_b", "c") and ("a", "b_c"), produce the same slider key. |
| `Scores.KeyInjectiveWithoutUnderscore` | app.py:73 | Equal keys imply equal pairs when neither opportunity contains "_", or neither differentiator does. |
| `Scores.KeyCancelOpportunity` | app.py:73 | Two keys of the same opportunity are equal only when their differentiators are. |
| `Scores.PairKeysMembers` | app.py:63-65 | The keys visited by the nested loops are exactly the keys of the (opportunity, differentiator) pairs. |
| `Scores.PairKeysDistinct` | app.py:63-65 | When the opportunities and the differentiators are each listed once, and no opportunity (or no differentiator) contains "_", the nested loops visit no key twice. |
| `Scores.Lookup` | app.py:75 | The stored rating of a key when the key is stored, otherwise the fallback (3 for the slider's start, 0 in the totals at app.py:95). |
| `Scores.InitialScores` | app.py:60-66 | The first-filled store maps every pair's key to 3 and holds no other key. |
| `Scores.ScoreStore.constructor` | app.py:60 | A new session has no `scores` entry. |
| `Scores.ScoreStore.InitialiseOnce` | app.py:60-66 | When no store exists, it creates one equal to `InitialScores`. When a store exists, it is left unchanged. Every stored rating stays in [1, 5]. |
| `Scores.ScoreStore.FormPass` | app.py:68-82 | The new store is `Written(old store, pair keys in loop order, slider)`. Every stored rating stays in [1, 5]. |
| `Scores.WrittenChangesOnlyWrittenKeys` | app.py:76 | A form pass adds exactly the written keys. Every entry outside the pair keys keeps its value. |
| `Scores.WrittenKeysInRange` | app.py:76-82 | Every written key is stored afterwards with a slider position in [1, 5]. |
| `Scores.WrittenFromStored` | app.py:75-82 | When no two pairs share a key, each key ends up holding the slider's position, and that slider started from the stored rating or from 3 when none was stored. |
| `Scores.EachPairFromOwnRating` | app.py:63-82 | On such a sheet, after a form pass every pair's key holds that pair's slider position, and the slider started from that pair's own stored rating, or from 3. |
| `Scores.LastWriteWins` | app.py:72-76 | When a key is written several times, its final entry is the one left by its last write in loop order. |
| `Scores.EveryPairStoredAfterFormPass` | app.py:60-82 | After a form pass, every pair's key is present with a rating in [1, 5]. |
| `Scores.TotalBounds` | app.py:90-96 | With ratings in [1, 5], a total lies in [0, 5n] for n differentiators. Once all of the opportunity's keys are stored, it lies in [n, 5n]. |
| `Scores.TotalOfUnstored` | app.py:95 | An opportunity none of whose keys is stored totals 0, because an absent key counts 0. |
| `Scores.TotalsInRangeAfterFormPass` | app.py:88-96 | After a form pass over a store of ratings in [1, 5], every opportunity's total lies in [n, 5n]. |
| `Scores.ScoreStore.Totals` | app.py:90-96 | There is one row per opportunity, in opportunity order. Each row carries `Total` of the current store, the sum of the differentiators' stored ratings with 0 for an absent key. |
| `Ranking.Rank` | app.py:98-99 | The result is a permutation of the rows (multiset equality), ordered by non-increasing total. |
| `Ranking.OneRowPerOpportunity` | app.py:96-99 | Any ranking of a table that names each opportunity once has the same length and names the same opportunities, each once. |
| `Ranking.RankedTotalsDetermined` | app.py:99 | Any two rankings of the same rows list the same totals position by position, so only the order among equal totals is left open. |
| `Evaluator.RankingIsResultsTable` | app.py:90-99 | Take any ranking of the totals of distinct opportunities whose totals lie in [n, 5n]. It has one row per opportunity and is ordered by non-increasing total. Each row's total is the sum of that opportunity's stored ratings and lies in [n, 5n]. |
| `Evaluator.Run` | app.py:28-99 | A refused sheet stops the run and leaves the store untouched. Otherwise the store is initialised once and then written by the form pass. A results table comes back exactly when the form was submitted, and it satisfies `ResultsTable`. |

## Left out

- Page rendering (page configuration, title, sidebar summary, headers, column
  layout, separators, the data frame view and the bar chart): presentation
  only. The "no results to display" branch is not modelled; after validation
  the results table is never empty.
- The file-existence check and `pd.read_excel`: filesystem and library I/O.
  The model starts from an already parsed first sheet. Duplicate header
  renaming by the reader is not modelled.
- The `FileNotFoundError` and `ImportError` handlers at the end of the
  script: they report filesystem and library failures, which the model does
  not have. The generic handler (app.py:119-123) is not modelled either. It
  reports reading failures, and it also catches the widget library's error
  for two sliders that share a key (see the next lines).
- Cell identity: a cell is a missing marker or the text its value renders
  to. Values that differ in type but render alike (the number 1 and the
  text "1") are one value here, while the library's `unique()` keeps them
  apart.
- The slider widget is an input function from (key, starting value) to a
  position in [1, 5]. The widget library's own state handling is not
  modelled.
- `Scores.LastWriteWins` and `Evaluator.Run` describe the dictionary writes as
  the script states them, and so finish a form pass whose keys alias. The
  widget library refuses a second widget with a key already in use. In the
  running page, a pass whose keys alias therefore stops at the second slider
  with that key (app.py:76-82). The writes made before it stay in the store,
  the generic handler shows its error message, and no results are shown.
  `Scores.PairKeysDistinct` gives the sheets on which this cannot happen.
- `Ranking.Rank` is an insertion sort, which is one admissible outcome of
  the library's non-stable sort. Every property about the results is stated
  for any ranking satisfying `IsRanking`, not only this one.
- The `results` dictionary is modelled as a sequence of rows in opportunity
  order. This matches the dictionary exactly because the opportunities are
  distinct.

Other revisions of this page in the same repository behave differently, and
the model follows this script (`app.py`). The script does not drop "Score" or
"Total Score" columns. It does not derive initial ratings from cell values,
so there is no rounding, clamping or diagnostic note, and every pair starts
at 3. A total counts an absent key as 0, not 3. The ranking is not promised
to be stable.
