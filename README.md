# Impact investment firm search — a Dafny model

This project models the search behind the "generate results" button of the
impact investment firm lookup tool (`execute_search` in `src/app.py`). A click
hands the callback a click count and eighteen optional selections. The callback:

1. pairs the selections with eighteen firm-table columns, in a fixed order;
2. if the click count is truthy, narrows the firm table one criterion at a time.
   A missing selection leaves the working set alone. A selection keeps only the
   rows whose cell equals it. If the working set is already empty when a
   criterion comes up, the callback stops and returns the text
   `No Impact Investment Firms Found`;
3. projects the survivors to `name` and `website`, inner-joins them with the
   links table on `name`, and renames the columns to Fund Name, Fund Website and
   IA 50 Summary.

If the click count is not truthy, the callback returns the empty text.

Modules, one per concern of that function:

- `Wrappers` — `Option`, for a widget with no selection and an unset click count.
- `Schema` — cell values (an opaque type compared only with `==`), the eighteen
  columns and their order, the firm row, and the eighteen named selections.
- `Filter` — one criterion (`Parameter`), the equality filter (`KeepEqual`), one
  loop step (`Step`), the criteria applied in order (`Narrow`), and a reference
  definition that applies all criteria at once (`Select`).
- `Join` — the projection, the inner join with renamed columns (`Merge`,
  `Display`), and counting functions for multiplicity.
- `Search` — the result type, the pairing (`Zip`, `BuildParameters`), the
  callback (`RunSearch`, `ExecuteSearch`), a loop-free statement of its result
  (`Outcome`, `Expected`), and the lemmas about it.

The two tables are immutable `seq` parameters instead of module-level tables
loaded at start-up. The search never changes them: the source works on a copy.
The click count is `Option<int>` and is truthy when it is present and non-zero.

The early exit has an off-by-one that the model keeps. The emptiness test runs
before each criterion, so the text appears exactly when no firm meets the first
seventeen criteria. That covers an empty table too. If only the eighteenth
criterion (`impact_reported`) empties the set, the result is an empty table
(`NoResultsIff`, `LastCriterionGivesEmptyTable`).

## Model

| member | source | states |
|---|---|---|
| `Schema.Cell` | src/app.py:217 | the cell of a firm row under a column (`df_results[column_name]`); its use in the equality filter is stated by `Filter.KeepEqual` and `Filter.SelectIsFilter` |
| `Schema.InputsList` | src/app.py:202-204 | the eighteen selections, in the order of `inputs_list`; `Schema.InputsMatchColumns` states that position i is the selection for column i |
| `Schema.Position` | src/app.py:205-208 | every column stands at a position of the fixed column order |
| `Schema.ColumnOrderIsSchema` | src/app.py:205-208 | the column order has eighteen entries, names every column once, and the headers are distinct |
| `Schema.InputsMatchColumns` | src/app.py:202-208 | position i of the inputs list holds the selection that belongs to column i of the column list |
| `Filter.KeepEqual` | src/app.py:217 | the equality filter keeps exactly the rows whose cell equals the value, as an order-preserving subsequence no longer than the input |
| `Filter.Step` | src/app.py:216-217 | a missing selection leaves the working set unchanged; otherwise the step keeps exactly the rows meeting the criterion, in order |
| `Filter.SelectIsFilter` | src/app.py:214-217 | the conjunction of the criteria is an order-preserving subsequence that keeps each qualifying row as often as the table holds it and drops every other row |
| `Filter.StepOfSelect` | src/app.py:214-217 | filtering the conjunction of some criteria by one more criterion gives the conjunction of all of them |
| `Filter.NarrowIsSelect` | src/app.py:214-217 | applying the criteria one after another equals keeping the rows that meet all of them |
| `Filter.NarrowIsSubsequence` | src/app.py:201 | the working set is always an order-preserving subsequence of the table, no longer than it, holding exactly the rows that meet every criterion applied so far |
| `Filter.NarrowShrinks` | src/app.py:217 | each further criterion gives a subsequence of the previous working set, never a longer one |
| `Filter.EmptyStaysEmpty` | src/app.py:214-220 | once the working set is empty, later criteria leave it empty |
| `Filter.UnselectedKeepsAll` | src/app.py:216 | criteria without a selection keep the whole table |
| `Filter.Narrow` | src/app.py:214-217 | the working set after the criteria in order is never longer than the table and holds only table rows; `Filter.NarrowIsSelect` states it equals the conjunction, and `Filter.NarrowIsSubsequence` states it is an order-preserving subsequence |
| `Filter.SelectAntitone` | src/app.py:216-217 | if meeting one set of criteria implies meeting another, its result is a subsequence of the other's |
| `Filter.NarrowOrderIrrelevant` | src/app.py:214-217 | the same criteria listed in another order give the same working set |
| `Join.Project` | src/app.py:224 | the projection keeps one row per firm row, in order, holding that row's name and website |
| `Join.LinksFor` | src/app.py:225 | one listing joins to as many rows as the links table has rows with its name |
| `Join.LinksForNames` | src/app.py:225-227 | every joined row of a listing carries that listing's name as its Fund Name |
| `Join.Merge` | src/app.py:225-227 | the inner join on `name` with the columns renamed; its rows are stated by `Join.MergeMembers`, `Join.MergeMultiplicity` and `Join.MergePairs` |
| `Join.MergePairs` | src/app.py:225 | each joined row occurs exactly once per (listing, link row) pair that shares the name and yields it, so repeated names multiply rows pair by pair |
| `Join.Display` | src/app.py:224-227 | projection then join: the shown rows are stated by `Join.DisplayMembers`, `Join.DisplayMultiplicity` and `Join.DisplayPairs` |
| `Join.DisplayPairs` | src/app.py:224-227 | each shown row occurs exactly once per (surviving firm row, link row) pair that yields it |
| `Join.MergeMembers` | src/app.py:225-227 | a row is in the join exactly when it is built from a listing and a link row that share the name |
| `Join.MergeMultiplicity` | src/app.py:225 | a name appears in the join (number of listings with it) times (number of link rows with it) times |
| `Join.DisplayMultiplicity` | src/app.py:224-227 | in the shown table a name appears (firm rows with it) times (link rows with it) times |
| `Join.DisplayMembers` | src/app.py:224-227 | each shown row is the name and website of a surviving firm and the link of a link row with the same name, and every such pair is shown |
| `Join.UnlinkedFirmDropped` | src/app.py:225 | a firm whose name has no link row never appears in the shown table |
| `Search.Clicked` | src/app.py:213 | the truthiness test `if n:` on the click count; `Search.RunSearch` states that a falsy count gives the empty text |
| `Search.Parameters` | src/app.py:209-212 | the search parameters for the selections: eighteen entries, entry i for column i of the fixed order; `Search.ParametersArePositional` adds that each column carries its own selection |
| `Search.Outcome` | src/app.py:213-235 | the callback's return value stated without the loop; `Search.RunSearch` proves the loop equal to it, and `Search.NoResultsIff`, `Search.TableIsConjunctionJoin` state what it contains |
| `Search.Expected` | src/app.py:198-235 | the return value for eighteen selections; stated by `Search.ExecuteSearch`, `Search.NoResultsIff`, `Search.LastCriterionGivesEmptyTable`, `Search.TableIsConjunctionJoin` and `Search.TableRowMultiplicity` |
| `Search.Zip` | src/app.py:210-212 | the pairing is as long as the shorter list, and entry i pairs column i with input i |
| `Search.BuildParameters` | src/app.py:209-212 | the loop that appends one (column, selection) pair per position builds exactly that pairing |
| `Search.RunSearch` | src/app.py:213-235 | the narrowing loop with its early exit returns the loop-free outcome: the empty text when not clicked, the no-results text when the set is empty before some criterion, and otherwise the joined table of the narrowed set |
| `Search.ExecuteSearch` | src/app.py:198-235 | the callback returns the search result for its selections, which is always the empty text, the no-results text or a table |
| `Search.ParametersArePositional` | src/app.py:202-212 | there are eighteen parameters and each column is paired with its own selection at its fixed position |
| `Search.EmptiedBeforeLast` | src/app.py:214-220 | the set is empty before some criterion exactly when it is empty before the last one |
| `Search.NoResultsIff` | src/app.py:213-220 | the result is the no-results text exactly when clicked and no firm meets the first seventeen criteria |
| `Search.LastCriterionGivesEmptyTable` | src/app.py:214-235 | if only the eighteenth criterion empties the set, the result is an empty table, not the text |
| `Search.ShortCircuitAgrees` | src/app.py:214-220 | stopping early agrees with running on: the remaining criteria would leave both the set and the table empty |
| `Search.TableIsConjunctionJoin` | src/app.py:213-227 | a result table arises only after a click with a set that is non-empty before the last criterion; it holds exactly the name, website and link of each (firm, link row) pair that shares a name and whose firm meets every selected criterion |
| `Search.TableMultiplicity` | src/app.py:225 | in a result table a name appears (matching firm rows with it) times (link rows with it) times |
| `Search.TableRowMultiplicity` | src/app.py:224-227 | in a result table each row occurs exactly once per (matching firm row, link row) pair that yields it |
| `Search.NoSelectionShowsAll` | src/app.py:213-227 | with nothing selected a click shows the whole firm table joined with the links, or the no-results text if the firm table is empty |
| `Search.MoreSelectionsFewerFirms` | src/app.py:216-217 | adding selections to some selections gives a subsequence of the matching firms, never more of them |

## Left out

- Page layout, the selection widgets and their option lists, styling, the result table's construction with ten rows per page, and server start-up: these are presentation. The model returns the rows of the table.
- Loading the two tables from CSV files: this is I/O. The tables are parameters of the search.
- The callback wiring: the eighteen widget states become the fields of `Selections`, and the click count becomes `Option<int>`.
- Cell typing: the library's dtype handling, NaN cells that never compare equal, and mismatches between numbers and strings are not modelled. Cells are an opaque type with plain equality.
- Join row order: the model emits rows in firm order, then link order within each firm. Only membership and multiplicity are claimed as the source's behaviour. The library's exact ordering is not modelled.
- Determinism and non-modification have no lemma of their own. The tables are immutable values, and `ExecuteSearch` equals a function of its arguments, so both hold by construction.
- Extra columns of the links table: the model assumes it has exactly `name` and `link`. Any other column would also appear in the join output.
