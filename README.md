# Farm accounting report generator: a Dafny model of `generate()`

The system is a small Flask application. A farmer posts a form with:

- the farm details (farmer name, crop, season, acreage, production, sowing and harvest dates, location);
- two tables of rows, expenses and incomes, each row having a category, an amount, a date and a description.

The `generate()` route then works as a pipeline:

1. It parses the amounts leniently (`to_float`).
2. It filters and normalises the rows of both tables.
3. It rejects the form when the farmer name or crop name is missing or the acreage is not positive.
4. It computes the totals: expense, income, profit or loss, and cost per acre.
5. It builds a merged ledger and sorts it stably by date, with undated entries last.
6. It renders an HTML report and converts it to PDF.
7. It stamps a grey rule and a centred footer line on every page.
8. It answers with one of three things:
   - the PDF, under a file name built from the crop, the whole acres, the season and the date;
   - the HTML, when the PDF stage fails;
   - a redirect to the form, when validation fails.

The model has one module per stage:

| file | module | models |
|---|---|---|
| `wrappers.dfy` | `Wrappers` | `Option` |
| `text.dfy` | `Text` | Python's `str.strip()` (with the exact `str.isspace()` character set), `str.replace(" ", "_")`, the `<=` order on `str`, and `str(int)` |
| `rows.dfy` | `Rows` | `to_float`, and the two row-filter loops (a `method` with a loop invariant, proved against the function `Kept`) |
| `totals.dfy` | `Totals` | the four report totals |
| `ledger.dfy` | `Ledger` | the two append loops that build the ledger (a `method`), and the stable sort by `(date == "", date)` (a recursive insertion sort) |
| `footer.dfy` | `Footer` | the footer geometry for a page, one merge attempt with its fallback API, and the page loop (a `method` with a `for` loop) |
| `report.dfy` | `Report` | the whole route as a `method` (`Generate`), the three outcomes, the download file name, and worked examples |

Everything the route calls but does not define is a parameter. These collaborators are bundled in `Report.Environment`:

- float parsing, as `string -> Option<real>`, where `None` means `float()` raises;
- the chart renderer, whose result may be absent;
- the logo bytes;
- the template;
- whether the PDF libraries import;
- the HTML-to-PDF converter;
- font metrics;
- whether each of the two merge APIs raises for a page;
- the PDF writer;
- the two readings of the clock.

Two facts about the code that a reader might not expect:

- The code parses and filters both row tables *before* the validation gate. Nothing observable depends on that order: a rejected form gives the same redirect either way.
- The file name falls back to `"report"` when the crop name is empty. The gate makes that branch unreachable, because it has already rejected an empty crop name. `Report.SafeCrop` models the branch anyway.

## Model

| member | source | states |
|---|---|---|
| Rows.ToFloat | app.py:21-25 | `to_float` is total: it gives the parsed value when `float()` succeeds, and exactly 0.0 when it raises |
| Rows.Zip4 | app.py:51 | `zip` of the four column lists gives as many rows as the shortest list has elements; row i is the i-th element of each list |
| Rows.Keep | app.py:52 | the filter condition of lines 52 and 67 as written; its meaning is stated in `Rows.KeepIffAmount` |
| Rows.KeepIffAmount | app.py:52 | the filter keeps a row if and only if its stripped amount is non-empty; the clause "some field non-empty" is implied by that |
| Rows.Normalize | app.py:53-58 | the row appended for a kept input row; what it holds is stated in `Rows.KeptSelects` |
| Rows.Kept | app.py:51-58 | the rows the filter loop appends, as a function of the zipped rows; characterised by `Rows.KeptSelects` and computed by `Rows.FilterRows` |
| Rows.PositionsExact | app.py:51-52 | the selected positions are increasing, are valid indices, and are exactly those whose row passes the filter |
| Rows.KeptAt | app.py:51-58 | the k-th kept row is the normalised input row at the k-th selected position |
| Rows.KeptSelects | app.py:51-58 | no more rows are kept than are drawn; the k-th kept row is input row `KeptIndices[k]` with category and description stripped, amount `to_float(amt)` and date verbatim; input order is kept; a row is selected iff its stripped amount is non-empty |
| Rows.FilterRows | app.py:66-73 | the filter loop (the same code serves lines 51-58) appends exactly the rows `Kept` describes, in order |
| Text.IsSpace | app.py:36-38 | the characters Python's `str.isspace()` accepts, which `strip()` removes from both ends; used through `Text.StripSpec` |
| Text.Strip | app.py:36-38 | Python's `str.strip()`, with the contract stated in `Text.StripSpec` and `Text.StripUnchanged` |
| Text.StripSpec | app.py:36-38 | `strip()` is the middle of its input with only whitespace cut from either end; it is no longer than its input, starts and ends with non-whitespace, and is empty iff the input is all whitespace |
| Text.TrimLeftSpec | app.py:36 | removing leading whitespace leaves a suffix of the input that is empty or starts with non-whitespace, after a prefix that is all whitespace |
| Text.TrimRightSpec | app.py:36 | removing trailing whitespace leaves a prefix of the input that is empty or ends with non-whitespace, before a suffix that is all whitespace |
| Text.StripUnchanged | app.py:54 | a string with no whitespace at either end is its own `strip()` |
| Text.StrLe | app.py:105 | Python's `<=` on `str`: code-point lexicographic order with a proper prefix first; its order laws are the next four rows |
| Text.StrLeTotal | app.py:105 | any two strings are ordered one way or the other by Python's `<=` |
| Text.StrLeTransitive | app.py:105 | Python's `<=` on strings is transitive |
| Text.StrLeAntisymmetric | app.py:105 | two strings each `<=` the other are equal |
| Text.StrLeAt | app.py:105 | strings with a common prefix are ordered by their first differing character |
| Text.ReplaceSpaces | app.py:274 | `replace(" ", "_")` keeps the length and turns exactly every space into an underscore |
| Text.NatToDecimal | app.py:275 | `str(n)` is a non-empty string of decimal digits with no leading zero; `str(0)` is exactly "0" |
| Text.IntToDecimal | app.py:275 | `str(n)` is non-empty, starts with a minus sign exactly when n is negative, and is digits everywhere else |
| Text.IntDecimalRoundTrip | app.py:275 | reading `str(n)` back, a leading minus sign negating the digits after it, gives n |
| Text.DecimalRoundTrip | app.py:275 | reading the digits of `str(n)` back gives `n` |
| Totals.Sum | app.py:81-82 | `sum` of the amounts, 0 for no rows; its properties are in `Totals.SumAppend`, `Ledger.KindTotalEntries` and `Ledger.LedgerMatchesTotals` |
| Totals.SumAppend | app.py:81-82 | the sum of a concatenation is the sum of the parts |
| Totals.ComputeTotals | app.py:81-84 | the totals are the two sums; profit is income minus expense; cost per acre times acres is the total expense when acres > 0, and it is 0 otherwise |
| Ledger.FromRow | app.py:89-95 | the ledger dictionary built from a kept row (lines 97-103 for incomes): its date, category, description and amount, and the loop's type; stated pointwise in `Ledger.Entries` |
| Ledger.Entries | app.py:88-103 | one append loop gives one entry per row, in order, carrying the row's date, category, description and amount and the loop's type |
| Ledger.BuildLedger | app.py:87-103 | the ledger of the two append loops is the expense entries followed by the income entries; its length is the sum of the two row counts; every Expense entry precedes every Income entry |
| Ledger.KeyLe | app.py:105 | the order of the sort key `(date == "", date)`: dated entries before undated ones, dated ones by string order; its order laws are the next three rows and `Ledger.SortedMeaning` |
| Ledger.KeyLeTotal | app.py:105 | any two dates are ordered one way or the other by the key `(date == "", date)` |
| Ledger.KeyLeTransitive | app.py:105 | the key order is transitive |
| Ledger.KeyLeAntisymmetric | app.py:105 | dates with the same key are equal |
| Ledger.SortedMeaning | app.py:105 | being ordered by the key means that no dated entry follows an undated one and that the dated entries ascend in string order |
| Ledger.Insert | app.py:105 | stable insertion keeps the sequence ordered, adds exactly the new entry, and places it after every entry with the same date |
| Ledger.SortByDate | app.py:104-107 | the sorted ledger is ordered by the key, is a permutation of the input, and keeps the input order among the entries of each date |
| Ledger.WithDateMembers | app.py:105 | the entries with date `d`, in order, are exactly the entries of the ledger dated `d` |
| Ledger.StableSortUnique | app.py:105 | two ordered sequences that agree date by date, in order, are equal: every stable sort by this key, Python's included, yields the same ledger |
| Ledger.LastKeyNotAbove | app.py:105 | when a sequence and an ordered one hold the same entries per date, the last entry of the first has a key no greater than the last key of the ordered one |
| Ledger.KindTotalPermutation | app.py:105 | reordering the ledger does not change the total of either type |
| Ledger.KindTotalEntries | app.py:87-103 | the entries of one append loop total the rows' amounts under their own type and nothing under the other |
| Ledger.LedgerMatchesTotals | app.py:81-105 | the Expense entries of the sorted ledger add up to the total expense, and the Income entries to the total income |
| Footer.FooterOverlay | app.py:228-249 | the overlay has the page's size; the rule runs at y = 32 from x = 24 to width − 24 with line width 0.3 and gray 0.7; the footer text is Helvetica 10 at y = 18 with gray 0.35; its left and right margins are equal, so it is exactly centred |
| Footer.Merge | app.py:258 | `merge_page` (or `mergePage`, line 262) paints the overlay on top of the page; its effect on a stamped page is stated in `Footer.StampPage` |
| Footer.StampPage | app.py:228-264 | stamping keeps the page's media box and everything already drawn; it adds at most one layer, and that layer is the footer for the page's own size; the page is left unchanged exactly when both `merge_page` and `mergePage` raise |
| Footer.StampAll | app.py:227-266 | every page is stamped, in order, one output page per input page |
| Footer.StampFooters | app.py:227-266 | the page loop writes as many pages as it reads; output page i is input page i stamped, or input page i itself when both merges failed for it |
| Report.Acceptable | app.py:76 | the validation gate; `Report.RejectsExactlyInvalid` states that it decides the redirect |
| Report.TruncToInt | app.py:275 | `int(x)` truncates towards zero: it is the floor for non-negative x and the ceiling for negative x |
| Report.SafeCrop | app.py:274 | a non-empty crop name has exactly its spaces replaced by underscores; an empty one gives "report"; the result has no space |
| Report.Filename | app.py:275 | the file name starts with the safe crop name and ends in ".pdf" |
| Report.FilenameAcreage | app.py:275 | for a non-negative acreage, the acreage field is the digits of the whole number of acres, which read back to the largest integer not above the acreage |
| Report.ConvertAndStamp | app.py:203-281 | the PDF stage gives the HTML when a library does not import, conversion raises or reports errors, or writing raises; otherwise it gives the written bytes of the stamped pages under the synthesised file name |
| Report.BuildRecord | app.py:179-201 | the arguments passed to `render_template`; what they hold is stated in `Report.RecordContents` |
| Report.PdfStageFails | app.py:204-215 | the failures that lead to the HTML fallbacks of lines 213-215 and 278-281 (a failed import, a conversion that raises or reports errors, a writer that raises); `Report.FallsBackToMarkup` states that they decide the fallback |
| Report.PdfStage | app.py:203-281 | the answer of the PDF stage; `Report.ConvertAndStamp` computes it and `Report.FallsBackToMarkup` and `Report.PdfIsStampedConversion` state its cases |
| Report.Expected | app.py:34-281 | the answer of the route; `Report.Generate` computes it and the lemmas below state what it promises |
| Report.Generate | app.py:34-281 | the route's answer is the one `Expected` defines, for every form and every behaviour of the collaborators |
| Report.RejectsExactlyInvalid | app.py:76-78 | the answer is a redirect iff the stripped farmer name or crop name is empty or the acreage is not positive, and it is then the redirect to "/" with the flashed message, with no totals, ledger or document |
| Report.FallsBackToMarkup | app.py:213-215 | a valid form is answered with the rendered HTML exactly when the PDF stage fails (library import, conversion error or exception, writer exception), and then the answer is that HTML |
| Report.PdfIsStampedConversion | app.py:268-276 | a PDF answer comes from a valid form and a successful conversion; its bytes are the writer's output for the stamped pages, one per converted page with the media box unchanged; its file name is the synthesised one |
| Report.RecordContents | app.py:179-201 | the template receives the kept rows of both tables and their totals, plus a ledger that is an ordered, stable permutation of the expense entries followed by the income entries and whose per-type totals are the two totals |
| Report.SortPair | app.py:105 | two entries already in key order stay as they are |
| Report.SingleRowTotals | app.py:81-84 | one expense and one income give their two amounts, their difference and the expense per acre |
| Report.SingleRowKept | app.py:51-58 | a one-row table whose amount is not blank yields that row, normalised |
| Report.SortedPairLedger | app.py:87-105 | an expense dated no later than an income precedes it in the sorted ledger |
| Report.OneExpenseOneIncome | app.py:51-105 | with one expense row and one income row dated no earlier, the totals are the two amounts, their difference and the expense per acre, and the ledger lists the expense first |
| Report.WorkedExample | app.py:51-105 | for "Seed, 100, 2024-01-01" spent and "Sale, 500, 2024-02-01" earned on 10 acres, the totals are 100, 500, 400 and 10 per acre, and the ledger lists the seed first |

## Left out

- Flask routing, `request.form` access, `flash`, `redirect`, `send_file` and `render_template` (app.py:28-30, 36-49, 179-201, 276) are not modelled as such:
  - the posted form is the `Form` record, with a missing field given as its default string;
  - the answer is the `Outcome` variant;
  - the template is the function `render`.
- A `render_template` call that raises is not modelled. In the source that call sits outside every `try`.
- The matplotlib chart (app.py:112-141) is left out: drawing, saving to a file and reading the file back are reduced to a chart whose bytes may be absent. The `file://` path strings handed to the template are not modelled.
- Reading the logo and chart files and base64-encoding them (app.py:144-169) is left out. The payloads are opaque optional bytes.
- xhtml2pdf conversion, PyPDF2 reading and writing, ReportLab drawing and font metrics (app.py:205-271) are foreign libraries and are left out:
  - they become an abstract conversion result;
  - pages have a media box and a list of drawn layers;
  - each merge API has a "raises" predicate;
  - `stringWidth` is an uninterpreted function, and centring holds whatever width it returns.
- A merge that raises after partly changing a page is not modelled: a failed merge leaves the page as it was.
- An exception in the PDF stage other than a failed import, a conversion error or a failed write falls back to the HTML like one of those. It is not modelled separately.
- Floats: amounts and acreage are mathematical reals, not IEEE-754 doubles. Rounding, `inf` and `nan` are not modelled, so this is also left out:
  - Report.TruncToInt: does not model the `OverflowError` or `ValueError` that `int()` raises for an infinite or NaN acreage (which would end in the HTML fallback).
- `datetime.now()` is represented by two parameters: the report's "generated on" stamp and the file-name date. `os` path setup, directory creation, logging and the debug prints (app.py:9-19, 172-176) are left out.
- The `except` branch around the ledger sort (app.py:106-107) is not modelled. It is unreachable, because the key is a `(bool, str)` pair and comparing two such pairs never raises.
- Ledger.SortByDate: `ledger.sort` sorts the list in place. The model computes the sorted list as a value, and `Generate` rebinds the ledger to it. Because a stable sort by a fixed key has one result (`Ledger.StableSortUnique`), the insertion sort gives exactly the order Python's sort gives.
- Page width and height are read from the media box's `right` and `top`, as the source does. For a media box whose lower-left corner is not at the origin, the footer is therefore centred relative to x = 0, not to the box.
