# Comparador de Planilhas: a verified model of the client reconciliation

`Controle.py` is a Streamlit page. It takes three uploaded spreadsheets:

- **Base Gamma**: the earlier client roster.
- **Positivador Novo**: the current client roster.
- **Inclusões**: an extract that attributes new clients to an agent.

When "Comparar" is pressed, the page:

1. checks that all three files were uploaded;
2. normalises each table's client-code column in place;
3. drops inclusion rows without a code;
4. renames Base Gamma's columns by position, or warns when it does not have 8 columns;
5. reconciles the three client sets;
6. shows the movement report (*Relatório de Movimentações*), the totals (*Resumo dos Totais*) and five detail views.

A failed column lookup raises `KeyError`. The top-level handler catches it and shows "Ocorreu um erro: 'Cliente'".

The Dafny project models the comparison the button runs:

- `cells.dfy` (module `Cells`): spreadsheet cells; Python's `str(int)`, `str.strip()` and `str.lower()`; pandas' `astype(str)`; `ajustar_codigo_cliente`; the two key normalisations.
- `rows.dfy` (module `Rows`): rows, header lookup, column normalisation, the row selections (`notna`, `isin`) and the key set of a column.
- `tables.dfy` (module `Tables`): a loaded table as a class whose header list and row array the comparison rewrites in place. Also the positional rename with its warning.
- `reconcile.dfy` (module `Reconcile`): the set reconciler (stayed, entered, left, entering-and-listed).
- `report.dfy` (module `Report`): the movement report and the summary counts, with their arithmetic exactly as written.
- `controle.dfy` (module `Controle`): the input-presence check, the key sets, the comparison as a function of the loaded tables (`Expected`, `ExpectedOutcome`), and the imperative `Compare` and `Run`, proved equal to it.

### Behaviour worth knowing

Four consequences of how `Controle.py` is written, each proved in the model:

- **Roster codes are not de-floated.** Base Gamma and Positivador Novo codes only go through `astype(str).strip().lower()`. So a code read as the float `42.0` becomes `"42.0"`, and it does not match the text `"42"` in the other roster: the client counts as one exit and one entry, not as a client who stayed. `Controle.FloatBaseCodeIsNotMatched` proves this. Only Inclusões codes go through `ajustar_codigo_cliente`.
- **Missing roster codes are counted.** A blank Base Gamma or Positivador Novo code becomes the string `"nan"`. That string is a client key like any other (`Cells.MissingRosterCodeIsNan`, `Controle.MissingBaseCodeCountsAsNan`). Only Inclusões drops missing codes.
- **The column-count warning is not followed by a failure.** Line 39 already looked up `'Cliente'` in Base Gamma. So an un-renamed table still has that column at line 53, and the comparison completes with the warning attached (`Controle.ExpectedOutcome`, `Controle.Compare`).
- **The rename is positional.** When Base Gamma has 8 columns but `'Cliente'` is not the fourth, the normalised column loses its name. Line 53 then reads the un-normalised fourth column (`Controle.BaseKeysAfterMisplacedCliente`).

## Model

| member | source | states |
|---|---|---|
| Controle.FirstMissing | Controle.py:18-23 | the reported upload is Base Gamma iff it is missing, Positivador Novo iff only the earlier ones are present, Inclusões iff only it is missing, and nothing iff all three are present |
| Controle.Run | Controle.py:15-24 | a missing upload yields exactly the first missing file's outcome; with all three uploaded the outcome is ExpectedOutcome of the tables as loaded |
| Controle.ShownError | Controle.py:19-127 | `st.error` shows a message exactly when the comparison did not complete |
| Controle.ErrorsTellCausesApart | Controle.py:19-127 | two uncompleted outcomes that show the same error text are the same outcome: each missing upload has its own prompt, each failed column its own message, and no prompt reads like a caught exception |
| Tables.Table.constructor | Controle.py:26-28 | a loaded sheet is a header list and a fresh row array holding exactly the loaded rows |
| Cells.AdjustCode | Controle.py:31-36 | a code is absent exactly when the cell is missing (0 is not absent); a text code is its stripped string |
| Cells.IntCodeIsItsDecimal | Controle.py:36 | an int code becomes its decimal rendering: `strip()` removes nothing from it |
| Cells.FloatCodeKeysToTruncation | Controle.py:34-35 | a float code keys to the decimal rendering of its truncated integer, which parses back to that integer |
| Cells.ZeroIsNotAbsent | Controle.py:32-35 | 0, as an int or as a float, gives the code "0", not the absent code |
| Cells.NatToDecimal | Controle.py:35 | The rendering of a natural number is a non-empty string of decimal digits that starts with '0' only for zero. |
| Cells.DecimalRoundTrip | Controle.py:35 | reading back the decimal rendering of n gives n |
| Cells.IntToDecimal | Controle.py:35 | Python's `str` of an int: a minus sign for negatives, then the digits; Cells.IntRoundTrip proves that ParseInt reads it back |
| Cells.IntRoundTrip | Controle.py:35 | reading back the signed decimal rendering of an integer gives that integer |
| Cells.IntToDecimalInjective | Controle.py:35 | distinct integers render to distinct codes |
| Cells.InclusionKey | Controle.py:41 | an inclusion key is absent exactly when the cell is missing, and otherwise has no capital letter |
| Cells.InclusionCodeSpellingsAgree | Controle.py:31-41 | an inclusion code written as the int n, as a float with integer part n, or as n's digits padded with spaces, gives the same key: n's decimal rendering |
| Cells.InclusionKeyIdempotent | Controle.py:41 | normalising an inclusion key again, as text, gives it back |
| Cells.TrimStart | Controle.py:36 | the result is the suffix left after the longest all-white-space prefix, and it does not start with white space |
| Cells.TrimEnd | Controle.py:36 | the result is the prefix left before the longest all-white-space suffix, and it does not end with white space |
| Cells.Strip | Controle.py:36 | `strip()` leaves no white space at either end |
| Cells.StripPadded | Controle.py:36 | `strip()` removes a space on each side of a trimmed non-empty string and nothing more |
| Cells.Lower | Controle.py:39-41 | `lower()` keeps the length, turns each ASCII capital into its small letter, and changes no other character |
| Cells.LowerIgnoresCase | Controle.py:39-41 | codes that differ only in the case of their letters lower-case to the same text |
| Cells.CellToStr | Controle.py:39-40 | `astype(str)` of one cell: "nan" for a missing cell, the decimal rendering of an int, "whole.fraction" for a float, the text itself otherwise; Cells.IntRosterKey, Cells.FloatRosterKey and Cells.MissingRosterCodeIsNan state the resulting keys |
| Cells.RosterKey | Controle.py:39-40 | a roster key is `strip().lower()` of `astype(str)`; its properties are Cells.RosterKeyIdempotent, Cells.IntRosterKey, Cells.RosterFloatKeepsFraction and Cells.MissingRosterCodeIsNan |
| Cells.FloatRosterKey | Controle.py:39-40 | a non-negative float roster code keys to "whole.fraction" |
| Cells.StripLower | Controle.py:39 | the roster key text has no white space at either end and no capital letter |
| Cells.StripLowerIdempotent | Controle.py:39 | applying `strip().lower()` to a key it produced gives the key back |
| Cells.RosterKeyIdempotent | Controle.py:39-40 | normalising a roster key again, as text, gives it back |
| Cells.IntRosterKey | Controle.py:39 | an int roster code keys to its decimal rendering |
| Cells.RosterFloatKeepsFraction | Controle.py:39-40 | a non-negative float roster code keys to "whole.fraction", which differs from the key of the same whole number written as an int or as text |
| Cells.MissingRosterCodeIsNan | Controle.py:39 | a missing roster code keys to "nan" |
| Rows.Find | Controle.py:39 | a column lookup finds the first column with that name, and fails (KeyError) exactly when no column has it |
| Rows.Normalise | Controle.py:39-41 | one client cell's new content: the roster key as text, or the inclusion key as text with a missing code kept missing; stated through Cells.RosterKey and Cells.InclusionKey |
| Rows.NormaliseColumn | Controle.py:39-41 | normalising a column keeps every row's length and every cell of the other columns |
| Rows.NormaliseColumnAssigns | Controle.py:39-41 | normalising a column in place equals assigning it the normalised series of its own cells |
| Rows.WithColumn | Controle.py:39-41 | assigning a series to a column puts the i-th value in row i's cell and changes no other cell |
| Tables.Table.AssignColumn | Controle.py:39-41 | the in-place column assignment leaves exactly the rows WithColumn describes |
| Rows.NormalisedKeys | Controle.py:39-55 | the key set of a normalised column is the image of the raw key set under the normalisation |
| Rows.MissingRosterCellIsNan | Controle.py:39-53 | a roster column with a missing cell has "nan" in its key set |
| Rows.OtherColumnKeysUnchanged | Controle.py:39-53 | normalising one column leaves every other column's key set unchanged |
| Rows.SameColumnSameKeys | Controle.py:53-55 | tables that agree on a column have the same key set for it |
| Rows.Where | Controle.py:44 | a selection keeps exactly the rows whose cell the selector accepts, and no more rows than it had |
| Rows.WhereAppend | Controle.py:44 | selecting from a concatenation concatenates the selections, so row order is kept |
| Rows.WhereStep | Controle.py:44 | selecting from one more row appends that row exactly when it is accepted |
| Rows.WhereKeepsWidth | Controle.py:44 | a selection from rows of one width holds rows of that width |
| Rows.NullsAndPresent | Controle.py:44 | the null filter keeps every row except those with a missing code: kept plus missing is all |
| Rows.PresentKeys | Controle.py:44-55 | after the null filter the key set is the old key set without the missing value |
| Tables.Table.KeepRows | Controle.py:44 | rebinding the table to the selection leaves exactly the selected rows in order, headers unchanged |
| Controle.PrepareRoster | Controle.py:39-40 | the 'Cliente' lookup fails exactly when the header is absent, leaving the rows untouched; otherwise that column is normalised in place |
| Controle.PrepareInclusions | Controle.py:41-44 | the code lookup fails exactly when its header is absent, leaving the table untouched; otherwise the table holds the normalised rows that have a code |
| Tables.Table.ApplyCanonicalHeaders | Controle.py:47-50 | 8 columns are renamed to the canonical headers with no warning; any other count keeps the headers and returns the warning with the count and header list |
| Tables.ClienteIsColumnThree | Controle.py:48 | after the rename 'Cliente' is found at column 3 |
| Tables.RenamedHeaders | Controle.py:47-49 | the header list after the rename step: the canonical headers for 8 columns, the old headers otherwise |
| Controle.RenameBase | Controle.py:47-53 | the new headers are the canonical list for 8 columns and the old list otherwise; 'Cliente' names column 3 after a rename and its old column otherwise; the warning appears exactly for other counts |
| Controle.CurrentKeysAreRosterKeys | Controle.py:40-54 | Positivador Novo's client set is the set of roster keys of its raw client cells |
| Controle.BaseKeysAreRosterKeys | Controle.py:39-53 | when not renamed, or when 'Cliente' was already fourth, Base Gamma's client set is the set of roster keys of its raw client cells |
| Controle.BaseKeysAfterMisplacedCliente | Controle.py:39-53 | with 8 columns and 'Cliente' not fourth, Base Gamma's client set is the raw un-normalised fourth column |
| Controle.InclusionKeysArePresentCodes | Controle.py:41-55 | the inclusion set is exactly the inclusion keys of the non-missing codes |
| Rows.Keys | Controle.py:53-55 | `set(df[col])`: the distinct cells of a column; Rows.KeysBound bounds its size |
| Controle.BaseKeySet | Controle.py:39-53 | B: the Base Gamma column named 'Cliente' after normalisation and rename; stated by Controle.BaseKeysAreRosterKeys and Controle.BaseKeysAfterMisplacedCliente |
| Controle.CurrentKeySet | Controle.py:40-54 | C: the normalised Positivador Novo 'Cliente' column; stated by Controle.CurrentKeysAreRosterKeys |
| Controle.InclusionRows | Controle.py:41-44 | the Inclusões rows after normalisation and the null filter |
| Controle.InclusionKeySet | Controle.py:41-55 | I: the filtered Inclusões code column; stated by Controle.InclusionKeysArePresentCodes |
| Rows.KeysBound | Controle.py:53-55 | a client set has no more members than its table has rows |
| Reconcile.Classify | Controle.py:58-61 | Base Gamma is stayed plus left and Positivador Novo is stayed plus entered, each split disjoint; entered clients are not in Base Gamma, departed ones not in Positivador Novo; the listed entering clients are entering clients listed in Inclusões |
| Reconcile.ClassesPartition | Controle.py:58-61 | stayed, entered and left hold exactly the clients with that movement, are pairwise disjoint, and cover both rosters; the listed entering clients are exactly the entering clients Inclusões lists |
| Reconcile.InclusoesNovosBounds | Controle.py:61 | the entering clients listed in Inclusões are among the entering clients and the inclusions, and no more numerous than either |
| Reconcile.RosterSizes | Controle.py:58-60 | the base roster is stayed plus left; the current roster is stayed plus entered |
| Reconcile.SubsetCard | Controle.py:61 | a subset of a client set is no larger than it |
| Reconcile.SingletonsApart | Controle.py:58-60 | two one-client rosters with different clients share nobody: one left and one entered |
| Report.MovementReport | Controle.py:64-85 | each report row balances (Fim = Início + Entradas − Saídas), and Total's Início and Entradas are Dentro plus Fora |
| Report.ReportIdentities | Controle.py:64-85 | every report row balances and is non-negative; Total ends at the current roster size; Dentro has no exits; Fora ends at the entries; each column's Total is Dentro plus Fora |
| Report.SummaryConsistent | Controle.py:92-97 | stayed plus left is the Base Gamma total, stayed plus entered is the current roster size, and the summary agrees with the report's Total and Dentro rows |
| Report.Summarise | Controle.py:92-97 | the six totals are the sizes of stayed, entered, left, I, B and the listed entering clients; Report.SummaryConsistent relates them |
| Report.BasicReconciliation | Controle.py:58-67 | with rosters {a, b, c} and {b, c, d}: b and c stayed, d entered, a left, and the Total row reads 3, 1, 1, 3 |
| Controle.Reconciled | Controle.py:53-122 | the key sets, the report, the summary and the detail views computed from the rewritten tables; Controle.ExpectedCounts, Controle.ExpectedListsEveryRow and Controle.ExpectedRowsClassified state its results |
| Controle.Expected | Controle.py:39-122 | the comparison as a function of the tables as loaded; the same three lemmas state its results |
| Controle.ExpectedCounts | Controle.py:53-97 | the report and the summary are computed from the three client sets; the warning appears exactly when Base Gamma lacks 8 columns |
| Controle.ExpectedListsEveryRow | Controle.py:113-122 | every Base Gamma row appears in exactly one of the stayed and left views, and the Inclusões view is the whole filtered extract |
| Controle.KeyedBySelection | Controle.py:110-122 | every row an `isin` selection shows carries a key of the selected set |
| Controle.ExpectedRowsClassified | Controle.py:110-119 | each detail view's rows carry keys of its class: stayed, left, entered, and entered-and-listed |
| Controle.ExpectedOutcome | Controle.py:39-127 | a missing client column fails with 'Cliente'; otherwise a missing code column fails with 'CODIGO DO CLIENTE'; the comparison completes exactly when all three columns exist, and then its result is Expected of the tables as loaded |
| Controle.Compare | Controle.py:26-122 | running the in-place steps on the loaded tables yields exactly ExpectedOutcome of the tables as loaded |
| Controle.FloatBaseCodeIsNotMatched | Controle.py:39-60 | a Base Gamma float code 42.0 and a Positivador Novo text code "42" count as one exit and one entry, not as a client who stayed |
| Controle.MissingBaseCodeCountsAsNan | Controle.py:39-53 | a Base Gamma row without a code puts the client "nan" into the base set |

## Left out

- The Streamlit page is not modelled: the title, the uploaders, the button, the subheaders, the `st.dataframe`/`st.write` rendering and the success message. An upload is modelled as present or absent (`Table?`), and the output is returned as an `Outcome` value rather than displayed.
- `pd.read_excel` is not modelled (workbook parsing, sheet selection by name, pandas' dtype inference). A loaded sheet is given as headers and typed cells. Reader failures, such as a missing "Clientes.Responsáveis" sheet, are not modelled.
- Pandas dtype coercion is not modelled. An integer column with a blank is read as floats; the model takes each cell with the type the reader gave it.
- Only missing, integer, float and text cells are modelled. Dates, booleans and other cell types are left out.
- A float's `str()` is modelled in plain notation (`whole.fraction`). Exponent notation (`1e+16`), infinities and NaN payloads are left out, and so is the `OverflowError` that `int()` raises on an infinite code.
- `str.lower()` is modelled on ASCII letters only. Unicode case mapping is left out.
- Python's equality of raw keys is left out, and it only matters for the raw column that `Controle.BaseKeysAfterMisplacedCliente` describes. Every other key is normalised text. There, `42 == 42.0` is true in Python but the two are distinct `Cell` values here. Also, blank cells in a float column iterate as separate NaN floats, and since `nan != nan` Python's set keeps every one of them. `Rows.Keys` keeps a single `Null`, so in that case the model's Base Gamma counts can be lower than the script's.
- Duplicate column names are left out. `Rows.Find` takes the first; pandas would return several columns.
- The warning is modelled as its column count and header list, not as its formatted text.
- The pandas index labels of the detail views are left out. The views keep the rows and their order.
- Exceptions other than the `KeyError` of a failed column lookup are left out. That includes the `.str` accessor refusing a column whose values are not strings.
- Cells.AdjustCode: its own contract states only the missing and text cases. The int case is stated in `Cells.IntCodeIsItsDecimal` and the float case in `Cells.FloatCodeKeysToTruncation`.
- Rows.Normalise carries no contract of its own. What it computes is stated through `Cells.RosterKey` and `Cells.InclusionKey` and the lemmas about them.
