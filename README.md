# Journal-entry CSV import, modelled in Dafny

This project models the import engine of the `account_move_import` wizard
(`account_move_import/wizard/import_move_line_wizard.py`). The wizard reads a CSV file
and turns it into journal items of one accounting move. It works in these steps:

- **Leading lines.** It skips leading lines that open with the CSV separator or `#`. It
  takes the next line, lower-cased, as the header.
- **Header.** It truncates the header at the first empty token and rejects a repeated
  token. It then builds two things:
  - a dispatch table, from the pseudo-fields of `_input_fields` plus the ORM fields
    matched by name or lower-cased label;
  - a skip list of unknown or unsupported columns.
- **Rows.** For every data row, it hands each non-skipped, non-empty cell (decoded and
  stripped) to that column's handler. A handler writes one key of the row's value dict,
  but only if that key is not yet set. Handlers parse numbers with `str2float` or
  `str2int` in the wizard's decimal-separator locale, or resolve references through
  database searches. Problems go to an error log, one message per problem.
- **Finish.** It fills in defaults and checks the required fields. After the last row it
  compares the rounded debit and credit totals. It writes the move with all collected
  lines if and only if the error log is empty; otherwise it shows the log.

The modules, one per part of the program:

- `Strings`: text helpers on ASCII text. `strip` is the `unicode` method the decoded
  cells go through, so its white space includes U+001C to U+001F besides space, tab and
  the line breaks. `lower`, `replace` and `join` are the byte-string methods.
- `Numbers`: `str2float` and `str2int` over rationals. As in Python 2, `int()` also skips
  white space between the sign and the digits, and `float()` does not.
- `Stops`: the exceptions that end an import run.
- `Leading`: `_remove_leading_lines`, as a loop over the lines of the file.
- `Resolvers`: the zero / one / many decisions of the reference handlers, and the account
  map.
- `Handlers`: every `_handle_*` handler as a pure function. It takes the dict and returns
  the new dict, the message to log and the amounts to add.
- `Header`: `_input_fields` and the specification of `_process_header`.
- `Balance`: Python 2's `round(x, dp)` and the balance test of `_process_vals`.
- `Importer`: the wizard's run state as the class `ImportRun`. It holds the error log,
  the totals, the dispatch table, the skip list and the header. Its methods update that
  state the way the wizard's methods update `self`. The row loop and `aml_import`
  complete the module.

Each loop-based method is proved against a functional specification:
- `ProcessHeader` against `Truncate`, `FirstRepeat`, `HandlerTable` and `SkipList`;
- `ProcessRow` against `RowSpec`;
- the loop over the data rows against `RowsSpec`, and `aml_import` against `ImportSpec`;
- `RemoveLeadingLines` against `Lines` and `FirstHeaderLine`.

Lemmas state what those specifications mean.

The database and the libraries the program calls become parameters of the model:
- the company's accounts, as a list of `(code, id)` entries;
- the field schema;
- the result of every search, as a map from query to id list;
- the decimal precision;
- whether a text is a `YYYY-MM-DD` date;
- whether a cell decodes in the code page;
- the CSV tokenizer.

## Model

| member | source | states |
|---|---|---|
| Numbers.Str2Float | account_move_import/wizard/import_move_line_wizard.py:565-575 | Empty text gives 0. Otherwise the result is a number exactly when the locale-normalised, stripped text is a decimal literal; any other text gives the `False` sentinel and never raises. White space at the ends is that of a `unicode` string: U+001C to U+001F count. |
| Numbers.Str2Int | account_move_import/wizard/import_move_line_wizard.py:577-586 | Empty text gives 0. Otherwise the result is an integer exactly when the normalised, stripped text is an integer literal; any other text gives `False`. An integer literal may have white space between its sign and its digits. White space is that of a `unicode` string: U+001C to U+001F count. |
| Numbers.LeadingSpaceIgnored | account_move_import/wizard/import_move_line_wizard.py:565-586 | White space before non-empty text, the separators U+001C to U+001F included, changes neither the `str2float` nor the `str2int` result. |
| Numbers.SpaceBeforeDigits | account_move_import/wizard/import_move_line_wizard.py:565-575 | Digits after any white space, U+001C to U+001F included, read through `str2float` as their value. |
| Numbers.DigitsFloat | account_move_import/wizard/import_move_line_wizard.py:565-575 | Plain digits read through `str2float` as their value, in either locale. |
| Numbers.UnitSeparatorInt | account_move_import/wizard/import_move_line_wizard.py:577-586 | `"-\x1c5"` reads as -5 through `str2int`: U+001C is white space between the sign and the digits. |
| Numbers.SpaceAfterSign | account_move_import/wizard/import_move_line_wizard.py:565-586 | A minus sign, white space, then digits: `str2int` reads the negated digits, and `str2float` gives `False`. |
| Numbers.Normalize | account_move_import/wizard/import_move_line_wizard.py:570-573 | The normalised text holds no comma and is no longer than the input. With '.' as separator, it keeps only characters of the input. |
| Numbers.SeparatorSymmetry | account_move_import/wizard/import_move_line_wizard.py:565-586 | Text written with ',' as decimal separator and '.' for thousands normalises to the same text as its '.'/',' swap in the other locale, so both helpers return the same result. |
| Numbers.DropsThousands | account_move_import/wizard/import_move_line_wizard.py:570-571 | With '.' as separator, a thousands comma between two comma-free pieces is removed and nothing else changes. |
| Numbers.DecimalCommaRejectsInteger | account_move_import/wizard/import_move_line_wizard.py:580-586 | With ',' as separator, any comma in the text makes `str2int` return `False`, because the comma becomes a decimal point that `int()` rejects. |
| Numbers.LocaleExamples | account_move_import/wizard/import_move_line_wizard.py:565-575 | `"1,234.56"` with '.' and `"1.234,56"` with ',' both read as 1234.56. |
| Numbers.EdgeExamples | account_move_import/wizard/import_move_line_wizard.py:565-586 | An empty cell is 0 for both helpers. `"abc"` is `False` in both locales. |
| Numbers.Str2FloatFormatted | account_move_import/wizard/import_move_line_wizard.py:565-575 | Round trip: any fixed-point value, written in either locale's notation, reads back exactly through `str2float`. |
| Numbers.Str2IntShown | account_move_import/wizard/import_move_line_wizard.py:577-586 | Round trip: the decimal text of any integer reads back through `str2int` under either separator setting. |
| Leading.LinesConcat | account_move_import/wizard/import_move_line_wizard.py:84-87 | The lines the file iterator yields, put back together, are the whole text. |
| Leading.LinesShape | account_move_import/wizard/import_move_line_wizard.py:84-87 | Every line yielded is non-empty and keeps its '\n'; only the last line may lack one. |
| Leading.FirstHeaderLine | account_move_import/wizard/import_move_line_wizard.py:86-91 | Every line before the index found opens with the CSV separator or '#'; the line at the index does not. |
| Leading.RemoveLeadingLines | account_move_import/wizard/import_move_line_wizard.py:82-96 | Running out of lines gives the no-header error. Otherwise the result is the first non-skippable line, lower-cased, as header, and the concatenation of all later lines as body. |
| Resolvers.ByCodeThenName | account_move_import/wizard/import_move_line_wizard.py:315-359 | Partner, product and tax code (also 386-406): the name search counts only when the code/ref search is empty. Zero hits is not-found, several hits is ambiguous, one hit is that id. All three directions are stated as if-and-only-if. |
| Resolvers.NameIgnoredWhenCodeHits | account_move_import/wizard/import_move_line_wizard.py:386-406 | Like partner and product (315-359): once the code search has a hit, the name search's result makes no difference. |
| Resolvers.AnalyticDecision | account_move_import/wizard/import_move_line_wizard.py:408-431 | The analytic account is found when either search has exactly one hit. Otherwise the verdict is taken on the name search alone. |
| Resolvers.AnalyticAgreesOnFewCodeHits | account_move_import/wizard/import_move_line_wizard.py:408-431 | With at most one code hit, the analytic decision equals the partner/product rule. |
| Resolvers.AnalyticSeveralCodeHits | account_move_import/wizard/import_move_line_wizard.py:418-424 | Several code hits are not reported as ambiguous, unlike the other resolvers: the decision is the name search's. |
| Resolvers.CurrencyDecision | account_move_import/wizard/import_move_line_wizard.py:374-384 | Currency takes the first match and never reports ambiguity. |
| Resolvers.BuildAccountsDict | account_move_import/wizard/import_move_line_wizard.py:489-491 | The loop builds `AccountsMap`, the map the accounts give when each overwrites the entry of its code. The map has exactly the codes of the accounts, and a code shared by several accounts maps to the last one's id. |
| Resolvers.AccountsMapPrefix | account_move_import/wizard/import_move_line_wizard.py:489-491 | After any number of accounts, the map holds exactly their codes, each with the id of the last of them that has it. |
| Resolvers.AccountDecision | account_move_import/wizard/import_move_line_wizard.py:291-299 | An account code is found exactly when it is in the map, with the map's id, and is never ambiguous. |
| Handlers.Apply | account_move_import/wizard/import_move_line_wizard.py:234-431 | The handlers as a whole:<br>- First write wins: an already-set key leaves everything unchanged.<br>- Only the handler's own key can change, and no key disappears.<br>- Only debit and credit move the totals, by the parsed amount, and they never log.<br>- A logged error leaves the key unset; only the float handler touches the dict then.<br>- Without an error, an unblocked handler writes its key. |
| Handlers.IntegerCell | account_move_import/wizard/import_move_line_wizard.py:240-253 | Integer and many2one: a cell `str2int` rejects logs exactly one "incorrect value" message of the right kind and leaves the dict as it was. Otherwise the integer is stored. |
| Handlers.CharCell | account_move_import/wizard/import_move_line_wizard.py:234-238 | A char or text cell whose key is not yet set stores the cell text itself, logs nothing and moves no total. |
| Handlers.FloatCell | account_move_import/wizard/import_move_line_wizard.py:255-271 | A float cell that `str2float` reads, with its key not yet set, stores the parsed number, logs nothing and moves no total. |
| Handlers.FloatCellStoresSentinel | account_move_import/wizard/import_move_line_wizard.py:255-271 | A rejected float cell stores `False`, then logs. Because `False` is falsy, a later float column can still overwrite it. |
| Handlers.AmountParseFailureIsSilent | account_move_import/wizard/import_move_line_wizard.py:301-313 | A rejected debit or credit cell is stored as `False`, nothing is logged and 0 is added. A second column for the same key is then ignored. |
| Handlers.AmountCell | account_move_import/wizard/import_move_line_wizard.py:301-313 | A parsed debit or credit cell is stored and added to its own total only. |
| Handlers.ReferenceCell | account_move_import/wizard/import_move_line_wizard.py:315-431 | For every reference handler (account also 291-299): one id stores the key. Not-found and ambiguous each log exactly their message and leave the dict unchanged. |
| Handlers.UnknownAccountCode | account_move_import/wizard/import_move_line_wizard.py:291-299 | An account code missing from the map logs exactly one "not found" message. |
| Handlers.DateCell | account_move_import/wizard/import_move_line_wizard.py:361-372 | A due date is stored as text when it reads as a date. Otherwise the bad-format message is logged. |
| Header.InputFieldsShape | account_move_import/wizard/import_move_line_wizard.py:115-135 | Exactly `account_id`, `debit` and `credit` are required, and `account_id` is the one entry without a method. |
| Header.Truncate | account_move_import/wizard/import_move_line_wizard.py:151-161 | The truncated header is a prefix without empty tokens, followed in the input by an empty token or by nothing. |
| Header.TruncateIs | account_move_import/wizard/import_move_line_wizard.py:151-161 | Those facts determine the truncation uniquely. |
| Header.FirstRepeat | account_move_import/wizard/import_move_line_wizard.py:163-171 | No repeat is found exactly when the tokens are distinct. A repeat found is the first token that occurs earlier, with all tokens before it distinct. |
| Header.FirstRepeatAt | account_move_import/wizard/import_move_line_wizard.py:163-171 | The first repeated position is unique. |
| Header.FindField | account_move_import/wizard/import_move_line_wizard.py:182-193 | A token denotes a field exactly when some field has it as name or lower-cased label. A name match takes precedence. |
| Header.HandlerTableKeys | account_move_import/wizard/import_move_line_wizard.py:173-224 | Pseudo-field entries stay as they are. Every other entry is a mapped header token with its type's handler, and is not required. |
| Header.ColumnsPartitioned | account_move_import/wizard/import_move_line_wizard.py:173-224 | Every non-pseudo header token is in exactly one of the skip list and the table. It is in the skip list exactly when it is classified as skipped, and the skip list holds nothing else. |
| Header.ClassifyByType | account_move_import/wizard/import_move_line_wizard.py:186-219 | A token is skipped exactly when it is unknown or its field's type is unsupported. Otherwise the handler writes that field and is chosen by its type (char/text, integer, float, many2one). |
| Balance.RoundHalfAway | account_move_import/wizard/import_move_line_wizard.py:463 | Python 2's rounding: the nearest integer, with halves going away from zero. |
| Balance.BalancedIsClose | account_move_import/wizard/import_move_line_wizard.py:463 | Totals that pass the test differ by less than one unit of the last decimal place. |
| Balance.FarApartUnbalanced | account_move_import/wizard/import_move_line_wizard.py:463-467 | Totals a full unit of the last place apart always fail the test. |
| Balance.BalanceExamples | account_move_import/wizard/import_move_line_wizard.py:463 | With two decimals, 100.004 balances 100.0 and 100.005 does not; -0.125 rounds to -0.13. |
| Importer.WithDefaults | account_move_import/wizard/import_move_line_wizard.py:439-446 | The dict gains exactly `name`, `debit` and `credit`, defaulting to `/`, 0 and 0. Existing values are kept. |
| Importer.Present | account_move_import/wizard/import_move_line_wizard.py:229-230 | A line can be quoted exactly when none of its cells is missing, and the quote holds the cells in header order. |
| Importer.HandlerStep | account_move_import/wizard/import_move_line_wizard.py:234-431 | A handler call with its side effects, logging through `_log_line_error` (228-232):<br>- The totals move by what the handler adds.<br>- A message is appended to the log quoting the line.<br>- The import stops only when a message concerns a line that cannot be quoted. |
| Importer.CellStep | account_move_import/wizard/import_move_line_wizard.py:514-535 | A skipped column or an empty cell changes nothing. A missing or undecodable cell stops the import with the code-page error. A table entry without a method (the `account_id` pseudo-field) stops it with the missing-method error. Otherwise the cell was decodable and is stripped in place, and keys and the log only grow. |
| Importer.Columns | account_move_import/wizard/import_move_line_wizard.py:510-535 | The columns not yet visited keep their cells, and keys and log only grow. |
| Importer.RowSpec | account_move_import/wizard/import_move_line_wizard.py:510-535 | A row keeps one cell per header token, and the log only grows. |
| Importer.ColumnsCells | account_move_import/wizard/import_move_line_wizard.py:514-526 | After `n` columns, exactly the passed cells among them were present and decodable and are now stripped. All other cells are unchanged. |
| Importer.CellStepDebit | account_move_import/wizard/import_move_line_wizard.py:514-535 | Only a passed debit column (handler at 301-306) whose key is not yet set moves the debit total, by its cell's parsed amount. |
| Importer.CellStepCredit | account_move_import/wizard/import_move_line_wizard.py:514-535 | The same for credit (308-313). |
| Importer.DebitMovesOnce | account_move_import/wizard/import_move_line_wizard.py:301-306 | Over the first `n` columns of a row, the debit total either stays or equals its start plus the parsed amount of one passed debit column, so it moves at most once. |
| Importer.CreditMovesOnce | account_move_import/wizard/import_move_line_wizard.py:308-313 | The same for credit. |
| Importer.ColumnsStop | account_move_import/wizard/import_move_line_wizard.py:518-526 | Once a column stops the import, later columns are not visited. |
| Importer.RowCoverage | account_move_import/wizard/import_move_line_wizard.py:510-526 | A comment row contributes nothing. When a row goes through, every non-skipped column had a cell, and every non-empty one was decodable and is stored stripped. |
| Importer.AccountIdEntry | account_move_import/wizard/import_move_line_wizard.py:146-176 | After the header, `account_id` is never in the skip list and keeps its pseudo-field entry, which has no method. |
| Importer.AccountIdColumnStops | account_move_import/wizard/import_move_line_wizard.py:510-534 | A column headed `account_id` with a non-empty cell never lets its row through. When no earlier column stopped the row and the cell decodes, the stop is the missing-method error. |
| Importer.AccountIdCellStops | account_move_import/wizard/import_move_line_wizard.py:527-534 | The `account_id` column itself, reached with a non-empty cell, stops the import, with the missing-method error when the cell decodes. |
| Importer.RowDebit | account_move_import/wizard/import_move_line_wizard.py:510-535 | A row leaves the debit total alone or adds the parsed amount of one cell of a debit column (handler at 301-306). |
| Importer.RowCredit | account_move_import/wizard/import_move_line_wizard.py:510-535 | The same for the credit total (308-313). |
| Importer.HeaderWidth | account_move_import/wizard/import_move_line_wizard.py:151-161 | The loop returns the width of the truncation. |
| Importer.FindRepeat | account_move_import/wizard/import_move_line_wizard.py:163-171 | The loop finds the first repeated token, if any. |
| Importer.ClassifyColumns | account_move_import/wizard/import_move_line_wizard.py:173-224 | The loop builds exactly the table and the skip list of the specification. |
| Importer.ImportRun.constructor | account_move_import/wizard/import_move_line_wizard.py:476-493 | The run starts with an empty log and zero totals. The table holds the pseudo-fields and the skip list is empty, as `_process_header` sets them at 148-149 before reading the header. |
| Importer.ImportRun.LogLineError | account_move_import/wizard/import_move_line_wizard.py:228-232 | The log is append-only: exactly one entry quoting the line is appended. The call fails, leaving the log alone, when a cell is missing. |
| Importer.ImportRun.ProcessHeader | account_move_import/wizard/import_move_line_wizard.py:146-226 | A repeated token in the truncated header is rejected, naming the first repeat. Otherwise the truncated header is returned in order, with the specified table and skip list; the error log is not touched. |
| Importer.ImportRun.Dispatch | account_move_import/wizard/import_move_line_wizard.py:527-535 | The handler call of the row loop: the run's log, totals and the returned dict are exactly those of `HandlerStep`. |
| Importer.ImportRun.RecordEffect | account_move_import/wizard/import_move_line_wizard.py:228-232 | The side effects of one handler call: the totals move by what it adds, and its message is appended quoting the line, exactly as `Record` says. |
| Importer.ImportRun.ProcessLineVals | account_move_import/wizard/import_move_line_wizard.py:433-455 | Defaults are filled in. One required-field message is logged when `account_id` is absent, and none otherwise. |
| Importer.ImportRun.ProcessCell | account_move_import/wizard/import_move_line_wizard.py:514-535 | One column, with the run's state and the updated cells exactly as `CellStep` says. |
| Importer.ImportRun.ProcessRow | account_move_import/wizard/import_move_line_wizard.py:510-535 | One row, with the run's state, cells and values exactly as `RowSpec` says. |
| Importer.ImportRun.ProcessVals | account_move_import/wizard/import_move_line_wizard.py:457-468 | Exactly one balance message is appended when the rounded totals differ, and none otherwise. |
| Importer.NonBlankRows | account_move_import/wizard/import_move_line_wizard.py:501-506 | The reader yields exactly the rows that have some cell, in file order and no more rows than there are. |
| Importer.NonBlankRowsAppend | account_move_import/wizard/import_move_line_wizard.py:501-506 | Reading two runs of rows one after the other yields the rows of the first, then those of the second. |
| Importer.LineVals | account_move_import/wizard/import_move_line_wizard.py:433-455 | `_process_line_vals` on the log so far: the defaults are filled in. The log is left alone exactly when `account_id` is set; otherwise exactly one required-field message is appended, and the import stops only when the line cannot be quoted. |
| Importer.RowThenLines | account_move_import/wizard/import_move_line_wizard.py:504-540 | One row keeps the earlier lines first, adds at most one, and only lengthens the log; every line stays complete. |
| Importer.RowsLines | account_move_import/wizard/import_move_line_wizard.py:504-540 | Over all rows: the lines so far stay first, at most one line is added per row, and the log only grows. Every line has `name`, `debit` and `credit`, and an account unless a missing account was logged. |
| Importer.RowAppendsLine | account_move_import/wizard/import_move_line_wizard.py:504-540 | A row adds a line exactly when its column loop collected some value; that line is the row's values with their defaults, and the totals are the row's. |
| Importer.CommentRowAddsNothing | account_move_import/wizard/import_move_line_wizard.py:510-513 | A comment row leaves the lines, the log and the totals exactly as they were. |
| Importer.RowsStop | account_move_import/wizard/import_move_line_wizard.py:504-540 | Once a row stops the import, the later rows are not read. |
| Importer.ImportRows | account_move_import/wizard/import_move_line_wizard.py:504-540 | The loop over the data rows returns exactly the lines of `RowsSpec` and leaves its log and totals, or stops with its exception. |
| Importer.BalanceDecision | account_move_import/wizard/import_move_line_wizard.py:457-468 | The balance test keeps lines and totals. Unbalanced totals end the log with the balance message. An empty log afterwards means the totals balance and every line has its account. |
| Importer.ImportDecision | account_move_import/wizard/import_move_line_wizard.py:545-562 | The move is written exactly when the run ends with an empty log, with the run's lines; otherwise the log is reported. Written lines are complete and their totals balance. An unbalanced run ends its log with the balance message. |
| Importer.HeaderStops | account_move_import/wizard/import_move_line_wizard.py:470-500 | A file without a header line, or whose header line the reader makes no row of, aborts with the no-header error. A repeated header token aborts with the duplicate-field error naming it. |
| Importer.AmlImport | account_move_import/wizard/import_move_line_wizard.py:470-562 | The run's outcome is exactly that of `ImportSpec`: the leading lines, the header, the rows the reader yields (through `RowsSpec`) and the balance test, with the account map of `AccountsMap`; written when the log is empty, reported otherwise, aborted on an exception. |

## Left out

- Floating point. `float()` is modelled on plain decimal text (an optional sign, digits
  and at most one '.'). Exponents, `inf` and `nan` are not modelled, and amounts are exact
  rationals, not binary doubles.
- Text handling is ASCII. `strip()`, `float()` and `int()` on the decoded cells treat
  the ASCII characters Python 2 counts as white space in a `unicode` string as white space,
  and `lower()` folds ASCII letters. Non-ASCII white space, Unicode case folding and code
  pages are not modelled.
- Code-page decoding (519-526) is the parameter `decodable`. A cell that fails it, or a
  missing cell of a short row, stops the import with the "Wrong Code Page" error. On
  success, the decoded text is taken to be the cell itself.
- `_compute_lines` (98-113) is not part of this model: base64 decoding, `csv.Sniffer`
  and its fallback. The CSV reader, with its quoting rules, is the parameter `tokenize`.
- `_get_orm_fields` (137-144) is not part of this model: `fields_get`, its blacklist and
  the dependencies. The schema of importable fields is a parameter.
- Database searches are a given map from query to id list. The fixed parts of their
  domains are folded into the kind of query.
- The decimal precision lookup (462) is the parameter `precision`.
- `datetime.strptime` (366) is the predicate `isDate`.
- The `_logger` messages are not modelled. This includes the unsupported-type warning of
  `_process_header`: its format arguments at 220-223 do not match its two placeholders,
  and the logging module reports that failure without raising. The unknown-column
  warning at 181-184 is well formed. Skipped columns only enter the skip list and never
  the error log.
- The error log is a list of entries, not a formatted string; only whether it is empty
  matters to the outcome. Message texts and `_()` translation are not modelled.
- The window-action dictionaries (546-562) and the writes to the wizard and the move are
  not modelled. The outcome says which of the two the run ends with and, when the move is
  written, the lines it receives.
- The check for a false header at line 92 cannot be reached. The model ends with the
  no-header error where the iterator raises `StopIteration` at line 87.
- Importer.ImportRun.ProcessLineVals: the required fields are checked in an arbitrary
  order, since Python 2 dict order is not specified. Only `account_id` can be missing
  there, so the order does not change the log.
- A column literally named `account_id` has a table entry without a method. The
  `KeyError` it raises at 534 is modelled as the `MissingMethod` stop, like any table
  lookup that fails.
