# Mammography report dashboard: selection, aggregation and export logic

The application shows structured mammography-report data (one record per
report: patient id, nodule and calcification descriptors, BIRADS category,
age) in two views. This project models the logic those views hold, as
Dafny, and proves what it promises:

- the **dashboard** (`incfrontend/app/dashboard/page.tsx`): the two
  checkbox selections (data fields and BIRADS categories) with their
  toggle-in-list rule, the per-field sum shown on each selected field's card
  (every value read with `parseInt(…, 10)`, a value that does not parse
  counting 0), the histogram over the fixed BIRADS scale
  `0, 1, 2, 3, 4A, 4B, 4C, 5, 6`, and the filter that keeps the selected
  categories for the bar chart;
- the **results table** (`incfrontend/app/results/data-table.tsx`): the
  export header and rows for the visible columns, the CSV text and the
  array of arrays handed to the XLSX writer, "select all columns", and the
  display label of a column.

Files:

- `Wrappers.dfy`: `Option`, standing for `NaN` and `undefined`.
- `Parsing.dfy`: `parseInt(string, 10)` as ECMA-262 section 19.2.5 defines
  it (skip leading white space, one optional sign, the longest run of
  decimal digits, `NaN` without a digit), with the decimal rendering of an
  integer, which the parser reads back (a right inverse only: " 5", "+5",
  "05" and "5x" all parse to 5 as well).
- `Selection.dfy`: the toggle rule shared by both checkbox handlers.
- `Dashboard.dfy`: the column sum (the `reduce` as a left fold, proved equal
  to a plain sum), `GetBiradsData` as a method with the source's counting
  dictionary and loop, proved against the histogram function, the chart
  filter, and the page's selection state as a class.
- `Text.dfy`: `join` with a one-character separator, and `split`, which
  reads the parts back when there is at least one part and none of them
  contains the separator (`[].join(",")` is `""`, which splits into `[""]`).
- `DataTable.dfy`: the export functions, the column labels, and the column
  visibility flags as a class whose `ToggleAllColumns` updates an array in
  place.

Records and table rows are maps from field name to string value. The
table library's column list, visibility flags and filtered rows are inputs.

## Model

| member | source | states |
|---|---|---|
| `Parsing.ParseIntOfIntToString` | incfrontend/app/dashboard/page.tsx:65 | `parseInt` reads back the decimal rendering of every integer, negative ones included |
| `Parsing.ParseIntStopsAtNonDigit` | incfrontend/app/dashboard/page.tsx:65 | the parse takes the longest run of digits and ignores whatever follows the first non-digit |
| `Parsing.ParseIntSkipsWhiteSpace` | incfrontend/app/dashboard/page.tsx:65 | leading white space never changes the result |
| `Parsing.ParseInt` | incfrontend/app/dashboard/page.tsx:65 | `parseInt(…, 10)`: the result is `NaN` exactly when no digit follows the leading white space and the optional sign |
| `Parsing.ParseIntOfPlus` | incfrontend/app/dashboard/page.tsx:65 | a plus sign before a run of digits is dropped and the digits' value is returned, whatever non-digit text follows them (`"+7kg"` reads 7) |
| `Parsing.ParseIntOfNegated` | incfrontend/app/dashboard/page.tsx:65 | a minus sign before a run of digits negates the value of the digits, whatever non-digit text follows them (`"-3 mm"` reads -3) |
| `Parsing.ParseIntSign` | incfrontend/app/dashboard/page.tsx:65 | a result is negative only after a leading `-`, and never positive after one |
| `Parsing.ParseIntOfUndefined` | incfrontend/app/dashboard/page.tsx:65 | a missing field, read as the string "undefined", is `NaN` |
| `Parsing.ParseIntRejectsNonNumeric` | incfrontend/app/dashboard/page.tsx:65 | text starting with anything but white space, a sign or a digit is `NaN` |
| `Parsing.TrimStartIsSuffix` | incfrontend/app/dashboard/page.tsx:65 | trimming removes white space only, all of the leading white space, and keeps the rest |
| `Parsing.DigitPrefixIsLongest` | incfrontend/app/dashboard/page.tsx:65 | the digits read are a prefix, and the character after them, if any, is not a digit |
| `Selection.Without` | incfrontend/app/dashboard/page.tsx:50 | the filtered list lacks the value and keeps every other value it had |
| `Selection.WithoutKeepsOrder` | incfrontend/app/dashboard/page.tsx:50 | filtering keeps the other entries in their order and drops exactly the occurrences of the value |
| `Selection.Toggle` | incfrontend/app/dashboard/page.tsx:47-53 | the toggled value's membership is negated; every other value's membership is unchanged |
| `Selection.TogglePresent` | incfrontend/app/dashboard/page.tsx:49-50 | toggling a present value removes every occurrence and keeps all other entries in their original order |
| `Selection.ToggleAbsent` | incfrontend/app/dashboard/page.tsx:51 | toggling an absent value appends it at the end and leaves the existing entries unchanged |
| `Selection.ToggleTwiceAbsent` | incfrontend/app/dashboard/page.tsx:47-61 | toggling an absent value twice gives back the original list |
| `Selection.ToggleKeepsNoDuplicates` | incfrontend/app/dashboard/page.tsx:47-61 | a duplicate-free selection stays duplicate-free after a toggle |
| `Selection.ToggleLength` | incfrontend/app/dashboard/page.tsx:47-61 | on a duplicate-free selection a toggle removes exactly one entry for a selected value and adds exactly one for an absent value |
| `Dashboard.FieldText` | incfrontend/app/dashboard/page.tsx:65 | the text `parseInt` receives for a record's field; a missing field reads as "undefined", which parses to `NaN` |
| `Dashboard.Contribution` | incfrontend/app/dashboard/page.tsx:65-66 | a record adds 0 when its field is missing or does not parse, and the parsed value whenever the field parses (the value of its digits when the field is a run of digits) |
| `Dashboard.FoldSum` | incfrontend/app/dashboard/page.tsx:64-67 | the `reduce` callback applied from the left ends at the initial value plus the sum of every record's contribution |
| `Dashboard.ColumnSum` | incfrontend/app/dashboard/page.tsx:63-67 | `getColumnSum`: the `reduce` from 0 equals the sum over all records of each record's parsed value, 0 for `NaN`; no records give 0 |
| `Dashboard.ColumnSumAppend` | incfrontend/app/dashboard/page.tsx:63-67 | the sum over two runs of records is the sum of their sums |
| `Dashboard.ColumnSumIgnoresUnparseable` | incfrontend/app/dashboard/page.tsx:65-66 | a record whose field is missing or does not parse leaves the sum unchanged |
| `Dashboard.ColumnSumOfRenderedValues` | incfrontend/app/dashboard/page.tsx:63-67 | when every record holds the decimal text of an integer, the sum is the sum of those integers |
| `Dashboard.GetBiradsData` | incfrontend/app/dashboard/page.tsx:70-87 | the counting dictionary and loop return exactly the histogram over the scale |
| `Dashboard.Birads` | incfrontend/app/dashboard/page.tsx:77 | a record's `birads` value, absent exactly when the record has no such field |
| `Dashboard.CountOf` | incfrontend/app/dashboard/page.tsx:76-81 | the number of records whose `birads` equals a category, never more than the number of records |
| `Dashboard.Histogram` | incfrontend/app/dashboard/page.tsx:83-86 | one entry per category, in the categories' order, each with its count, none above the number of records |
| `Dashboard.BiradsData` | incfrontend/app/dashboard/page.tsx:83-86 | the BIRADS data has exactly 9 entries in the order `0,1,2,3,4A,4B,4C,5,6` of the scale at line 40, each with the number of records whose `birads` equals that category |
| `Dashboard.CountOfAppend` | incfrontend/app/dashboard/page.tsx:76-81 | a category's count over two runs of records is the sum of its counts over each |
| `Dashboard.OffScaleIgnored` | incfrontend/app/dashboard/page.tsx:78-80 | a record whose `birads` is missing or off the scale changes no count |
| `Dashboard.BiradsTotal` | incfrontend/app/dashboard/page.tsx:71-81 | the counts add up to the number of records on the scale, hence to at most the number of records |
| `Dashboard.ChartData` | incfrontend/app/dashboard/page.tsx:89-91 | an entry is kept exactly when it is in the data and its category is selected |
| `Dashboard.ChartDataInScaleOrder` | incfrontend/app/dashboard/page.tsx:89-91 | the chart's categories are the scale less the unselected categories, a subsequence of the scale in scale order, each with its count |
| `Dashboard.ChartDataIgnoresSelectionOrder` | incfrontend/app/dashboard/page.tsx:89-91 | the chart depends on which categories are selected, not on the order they were selected in |
| `Dashboard.DashboardState.constructor` | incfrontend/app/dashboard/page.tsx:44-45 | both selections start empty |
| `Dashboard.DashboardState.HandleCheckboxChange` | incfrontend/app/dashboard/page.tsx:47-53 | the field selection becomes its toggle, so it grows by one entry for an absent field and shrinks by exactly one for a selected one; the BIRADS selection is unchanged, and neither holds a duplicate |
| `Dashboard.DashboardState.HandleBiradsCheckboxChange` | incfrontend/app/dashboard/page.tsx:55-61 | the BIRADS selection becomes its toggle, so it grows by one entry for an absent category and shrinks by exactly one for a selected one; the field selection is unchanged, and neither holds a duplicate |
| `Dashboard.DashboardState.ChartEntries` | incfrontend/app/dashboard/page.tsx:89-91 | the chart shows at most 9 entries, each of a selected category on the scale |
| `Text.Join` | incfrontend/app/results/data-table.tsx:99 | `join`: no parts give the empty string, and the text holds no character but the separator and those of the parts |
| `Text.SplitJoin` | incfrontend/app/results/data-table.tsx:99 | splitting joined text at the separator gives back the parts when there is at least one part and none contains it |
| `DataTable.Label` | incfrontend/app/results/data-table.tsx:161 | the `columnNames` lookup with the id as fallback: the display name when the id is a key with a non-empty name, the id itself when it is not a key or its name is empty, never empty for a non-empty id |
| `DataTable.TableLabels` | incfrontend/app/results/data-table.tsx:38-56 | every table column is labelled with its display name; an id that is not a key is labelled with itself |
| `DataTable.VisibleColumnIds` | incfrontend/app/results/data-table.tsx:88-91 | the header holds the id of every visible column and only ids of visible columns |
| `DataTable.VisibleColumnIdsAppend` | incfrontend/app/results/data-table.tsx:88-91 | the header keeps column order |
| `DataTable.VisibleColumnIdsUniform` | incfrontend/app/results/data-table.tsx:88-91 | with every column visible the header is all raw ids in column order; with none it is empty |
| `DataTable.AllVisibleIff` | incfrontend/app/results/data-table.tsx:258 | the header lists every id exactly when every column is visible |
| `DataTable.GetValue` | incfrontend/app/results/data-table.tsx:94 | `row.getValue(id)`: the row's value for the id, `undefined` exactly when the row has no such field |
| `DataTable.ExportRows` | incfrontend/app/results/data-table.tsx:93-95 | one exported row per filtered row, each with one cell per id holding that row's value for it |
| `DataTable.ExportRowsMatchHeader` | incfrontend/app/results/data-table.tsx:93-95 | each exported row has one cell per header entry holding the row's value for that column, and every visible column has its cell |
| `DataTable.CsvContent` | incfrontend/app/results/data-table.tsx:97-99 | the CSV text starts with the literal prefix `data:text/csv;charset=utf-8,` |
| `DataTable.CellText` | incfrontend/app/results/data-table.tsx:99 | `join` writes a value as itself and `undefined` as the empty string |
| `DataTable.RowLine` | incfrontend/app/results/data-table.tsx:99 | `row.join(",")`: no newline when no value holds one, and splitting at commas gives back the values when there is at least one value and none holds a comma |
| `DataTable.CsvLines` | incfrontend/app/results/data-table.tsx:99 | the header line, the visible ids joined by commas, followed by one line per exported row |
| `DataTable.CsvBody` | incfrontend/app/results/data-table.tsx:99 | the lines joined by newlines; with no row, the header line with no newline after it |
| `DataTable.CsvShape` | incfrontend/app/results/data-table.tsx:97-99 | without `,` or newline in any visible id or in any value under a visible id (hidden columns may hold anything), the body splits into 1 + (number of rows) lines: the header and one per row, each splitting into the visible ids or the row's values for them when a column is visible |
| `DataTable.CsvWithoutVisibleColumns` | incfrontend/app/results/data-table.tsx:99 | with no visible column every line is empty |
| `DataTable.XlsxSheet` | incfrontend/app/results/data-table.tsx:120 | `[visibleColumns, ...rows]`: a header row holding every visible id, in order, as a defined cell, followed by the same exported rows the CSV uses |
| `DataTable.CsvRendersXlsxSheet` | incfrontend/app/results/data-table.tsx:116-120 | the CSV body is the XLSX input with each inner array joined by `,` and the results joined by newlines |
| `DataTable.ColumnState.constructor` | incfrontend/app/results/data-table.tsx:63-64 | every column starts visible |
| `DataTable.ColumnState.Columns` | incfrontend/app/results/data-table.tsx:88-90 | the columns the export sees carry the table's ids in order, each with its current visibility flag |
| `DataTable.ColumnState.ToggleVisibility` | incfrontend/app/results/data-table.tsx:269 | one column's visibility becomes the given value and no other changes |
| `DataTable.ColumnState.ToggleAllColumns` | incfrontend/app/results/data-table.tsx:127-131 | every column's visibility becomes `checked`; afterwards the export header is every id, or empty |
| `DataTable.ColumnState.IsAllColumnsVisible` | incfrontend/app/results/data-table.tsx:258 | true exactly when the export header lists every column id |

## Left out

- React rendering, hooks and navigation (`useState` plumbing, JSX, `router.push`); the selection state is a class whose handlers are the state updates.
- The table library's sorting, filtering and pagination: the filtered rows and the columns with their visibility flags are inputs.
- `encodeURI`, the DOM link created and clicked by the CSV download, and the `XLSX.utils` and `XLSX.writeFile` calls: the model stops at the text and the array of arrays handed to them.
- The upload page (a network call to an endpoint that is not part of this model), the loading page (a timer and a redirect), the input form, the header and the results page: no logic of their own.
- The bundled JSON data: records are an arbitrary input sequence, and every field value is a string as the record type in `incfrontend/app/results/columns.tsx` declares; a numeric JSON value, which JavaScript would turn into a string before parsing or before the dictionary lookup, is not modelled.
- `Parsing.ParseInt`: white space is ASCII white space and line terminators only (space, tab, LF, CR, VT, FF), not the other Unicode white space ECMA-262 also skips; the result is an unbounded integer, so the rounding of JavaScript numbers above 2^53 and the sign of `-0` are not modelled.
- `Dashboard.ColumnSum`: the sum is an unbounded integer, not a JavaScript number, so precision lost above 2^53 is not modelled.
- `DataTable.TableLabels`: the lookup is on the map's own keys; a JavaScript object lookup also finds inherited properties such as `constructor`, which no column id of the table is.
- `Dashboard.GetBiradsData`: the counting dictionary holds the nine categories only; in JavaScript an inherited property name such as `toString` also passes the `!== undefined` test, but the increment it triggers never touches the nine counts, so the returned data is the same.
- The dashboard's own `columnNames` map, which only lists the fields offered as checkboxes and their labels.
- `DataTable.ColumnState.ToggleVisibility` addresses a column by its index rather than through a column object.
