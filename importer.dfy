/** The import run of `aml_import` (470-562): the wizard object's state while one file is
    imported (error log, running totals, dispatch table, skip list, header), the methods
    that update it, and the run itself from the file text to the commit decision. */
module Importer {
  import opened Wrappers
  import opened Strings
  import opened Numbers
  import opened Stops
  import opened Leading
  import opened Resolvers
  import opened Handlers
  import opened Header
  import opened Balance

  /** One entry of the error log (`_err_log`). */
  datatype LogEntry =
    | LineError(line: string, msg: Message)      // "Error when processing line ..." (228-232)
    | Unbalanced(debit: real, credit: real)      // "Total Debit ... is different from Total Credit" (463-467)

  /** The cells of one `DictReader` row, in header order: a short row leaves its trailing
      cells missing (`None`, the reader's `restval`); extra cells are not looked at. */
  function Cells(fields: seq<string>, row: seq<string>): (cells: seq<Option<string>>)
    ensures |cells| == |fields|
  {
    seq(|fields|, j requires 0 <= j < |fields| => if j < |row| then Some(row[j]) else None)
  }

  /** The cells' texts, or `None` when one is missing. */
  function Present(cells: seq<Option<string>>): (r: Option<seq<string>>)
    ensures r.Some? <==> forall j :: 0 <= j < |cells| ==> cells[j].Some?
    ensures r.Some? ==> |r.value| == |cells| && forall j :: 0 <= j < |cells| ==> r.value[j] == cells[j].value
  {
    if cells == [] then Some([])
    else
      var init := Present(cells[..|cells| - 1]);
      var last := cells[|cells| - 1];
      if init.Some? && last.Some? then Some(init.value + [last.value])
      else
        assert forall j :: 0 <= j < |cells| - 1 ==> cells[..|cells| - 1][j] == cells[j];
        None
  }

  /** The line as `_log_line_error` quotes it: the cells joined with the CSV separator;
      a missing cell makes `join` fail (a TypeError). */
  function Render(separator: char, cells: seq<Option<string>>): Option<string> {
    var parts := Present(cells);
    if parts.Some? then Some(Join(separator, parts.value)) else None
  }

  /** A row whose first cell opens with '#' is a comment (511-513). */
  predicate IsCommentRow(fields: seq<string>, row: seq<string>) {
    |fields| > 0 && |row| > 0 && row[0] != [] && row[0][0] == '#'
  }

  /** The defaults of `_process_line_vals` (439-446). */
  function WithDefaults(vals: Vals): (v: Vals)
    ensures v.Keys == vals.Keys + {"name", "debit", "credit"}
    ensures forall k :: k in vals ==> v[k] == vals[k]
    ensures "name" !in vals ==> v["name"] == Str("/")
    ensures "debit" !in vals ==> v["debit"] == Dec(0.0)
    ensures "credit" !in vals ==> v["credit"] == Dec(0.0)
  {
    var v1 := if "name" in vals then vals else vals["name" := Str("/")];
    var v2 := if "debit" in v1 then v1 else v1["debit" := Dec(0.0)];
    if "credit" in v2 then v2 else v2["credit" := Dec(0.0)]
  }

  /** The table has exactly `account_id`, `debit` and `credit` as required entries. */
  ghost predicate RequiredShape(fm: map<string, FieldMethod>) {
    (forall k :: IsRequiredKey(k) ==> k in fm)
    && (forall k :: k in fm ==> (fm[k].required <==> IsRequiredKey(k)))
  }

  /** The table entry of column `hf` has the handler `h`. */
  predicate Runs(fm: map<string, FieldMethod>, hf: string, h: Handler) {
    hf in fm && fm[hf].handler == Some(h)
  }

  /** What the column loop reads besides the row: the CSV separator, the handlers'
      environment, the code-page test, and what `_process_header` left behind. */
  datatype Setup = Setup(
    csvSeparator: char, env: Env, decodable: string -> bool,
    fieldMethods: map<string, FieldMethod>, skipFields: seq<string>, headerFields: seq<string>)

  /** What the column loop threads through one row: the row's cells as updated in place,
      the values collected (`aml_vals`), and the wizard's error log and totals. */
  datatype RowState = RowState(cells: seq<Option<string>>, vals: Vals, log: seq<LogEntry>, debit: real, credit: real)

  /** Column `i` is handed to its handler: it is not skipped and its cell is not the
      empty text (514-517). A missing cell is not the empty text. */
  predicate Passed(st: Setup, cells: seq<Option<string>>, i: nat)
    requires i < |st.headerFields| && i < |cells|
  {
    st.headerFields[i] !in st.skipFields && cells[i] != Some("")
  }

  /** The state after a handler's effect: the totals move, and a message goes to the log
      quoting the line, or stops the import when the line cannot be quoted. */
  function Record(csvSeparator: char, e: Effect, s: RowState): Result<RowState, Fatal> {
    var line := Render(csvSeparator, s.cells);
    if e.error.Some? && line.None? then Err(UnrenderableLine)
    else
      var log := if e.error.Some? then s.log + [LineError(line.value, e.error.value)] else s.log;
      Ok(RowState(s.cells, e.vals, log, s.debit + e.debit, s.credit + e.credit))
  }

  /** One handler call with its side effects (234-431), on the state whose cells are the
      line as updated so far: the totals move by what the handler adds, and a message it
      produces goes to the log quoting the line, or stops the import when the line cannot
      be quoted. */
  function HandlerStep(csvSeparator: char, env: Env, h: Handler, field: string, cell: string, s: RowState): (r: Result<RowState, Fatal>)
    ensures r.Ok? ==> r.value.cells == s.cells && r.value.vals == Apply(h, env, field, cell, s.vals).vals
    ensures r.Ok? ==> r.value.debit == s.debit + Apply(h, env, field, cell, s.vals).debit
    ensures r.Ok? ==> r.value.credit == s.credit + Apply(h, env, field, cell, s.vals).credit
    ensures r.Ok? <==> Apply(h, env, field, cell, s.vals).error.None? || Render(csvSeparator, s.cells).Some?
    ensures r.Ok? ==> r.value.log == s.log + match Apply(h, env, field, cell, s.vals).error
                                             case None => []
                                             case Some(m) => [LineError(Render(csvSeparator, s.cells).value, m)]
    ensures r.Err? ==> r.error == UnrenderableLine
  {
    Record(csvSeparator, Apply(h, env, field, cell, s.vals), s)
  }

  /** One column of the row loop (514-535): a column that is not passed over has its cell
      decoded and stripped in place, then its table entry's handler runs, moving the totals
      and logging a message as the handler says. A missing or undecodable cell, a table
      entry without a handler, or a message about a line that cannot be quoted stops the
      import. */
  function CellStep(st: Setup, i: nat, s: RowState): (r: Result<RowState, Fatal>)
    requires i < |st.headerFields| == |s.cells|
    ensures !Passed(st, s.cells, i) ==> r == Ok(s)
    ensures Passed(st, s.cells, i) && (s.cells[i].None? || !st.decodable(s.cells[i].value)) ==>
              r == Err(WrongCodePage(st.headerFields[i]))
    // a table entry without a handler (`account_id`) is a KeyError
    ensures Passed(st, s.cells, i) && s.cells[i].Some? && st.decodable(s.cells[i].value)
            && !(st.headerFields[i] in st.fieldMethods && st.fieldMethods[st.headerFields[i]].handler.Some?) ==>
              r == Err(MissingMethod(st.headerFields[i]))
    ensures r.Ok? && Passed(st, s.cells, i) ==>
              s.cells[i].Some? && st.decodable(s.cells[i].value)
              && r.value.cells == s.cells[i := Some(Strip(s.cells[i].value))]
    ensures r.Ok? ==> s.vals.Keys <= r.value.vals.Keys && s.log <= r.value.log
  {
    var hf := st.headerFields[i];
    if !Passed(st, s.cells, i) then Ok(s)
    else if s.cells[i].None? || !st.decodable(s.cells[i].value) then Err(WrongCodePage(hf))
    else
      var cell := Strip(s.cells[i].value);
      var cells := s.cells[i := Some(cell)];
      if hf !in st.fieldMethods || st.fieldMethods[hf].handler.None? then Err(MissingMethod(hf))
      else HandlerStep(st.csvSeparator, st.env, st.fieldMethods[hf].handler.value, hf, cell, RowState(cells, s.vals, s.log, s.debit, s.credit))
  }

  /** The state after the first `n` columns of a row. */
  function Columns(st: Setup, s0: RowState, n: nat): (r: Result<RowState, Fatal>)
    requires n <= |st.headerFields| == |s0.cells|
    ensures r.Ok? ==> |r.value.cells| == |s0.cells| && s0.log <= r.value.log && s0.vals.Keys <= r.value.vals.Keys
    ensures r.Ok? ==> forall j :: n <= j < |s0.cells| ==> r.value.cells[j] == s0.cells[j]
  {
    if n == 0 then Ok(s0)
    else
      var prev := Columns(st, s0, n - 1);
      if prev.Err? then prev else CellStep(st, n - 1, prev.value)
  }

  /** The row loop on one row (510-535), starting from the wizard's log and totals: a
      comment row stops it at once, otherwise every column is visited in header order. */
  function RowSpec(st: Setup, row: seq<string>, log: seq<LogEntry>, debit: real, credit: real): (r: Result<RowState, Fatal>)
    ensures r.Ok? ==> |r.value.cells| == |st.headerFields| && log <= r.value.log
  {
    var s0 := RowState(Cells(st.headerFields, row), map[], log, debit, credit);
    if IsCommentRow(st.headerFields, row) then Ok(s0) else Columns(st, s0, |st.headerFields|)
  }

  /** The cells of `t` after the first `n` columns: a passed column's cell was present,
      decodable and is now stripped; every other cell is as it was in `s0`. */
  predicate CellsSoFar(st: Setup, s0: RowState, t: RowState, n: nat)
    requires |st.headerFields| == |s0.cells| == |t.cells|
  {
    forall j :: 0 <= j < |s0.cells| ==>
      if j < n && Passed(st, s0.cells, j) then
        s0.cells[j].Some? && st.decodable(s0.cells[j].value)
        && t.cells[j] == Some(Strip(s0.cells[j].value))
      else t.cells[j] == s0.cells[j]
  }

  /** One more column keeps that description of the cells. */
  lemma CellsStep(st: Setup, s0: RowState, i: nat, p: RowState, t: RowState)
    requires i < |st.headerFields| == |s0.cells| == |p.cells|
    requires CellStep(st, i, p) == Ok(t)
    requires CellsSoFar(st, s0, p, i)
    ensures |t.cells| == |s0.cells| && CellsSoFar(st, s0, t, i + 1)
  {
    assert p.cells[i] == s0.cells[i];
    forall j | 0 <= j < |s0.cells| && j != i
      ensures t.cells[j] == p.cells[j]
    {
    }
  }

  /** The cells after the first `n` columns. */
  lemma {:induction false} ColumnsCells(st: Setup, s0: RowState, n: nat)
    requires n <= |st.headerFields| == |s0.cells|
    ensures var r := Columns(st, s0, n);
            r.Ok? ==> CellsSoFar(st, s0, r.value, n)
  {
    if n > 0 {
      ColumnsCells(st, s0, n - 1);
      var p := Columns(st, s0, n - 1);
      var r := Columns(st, s0, n);
      if r.Ok? {
        assert r == CellStep(st, n - 1, p.value);
        CellsStep(st, s0, n - 1, p.value, r.value);
      }
    }
  }

  /** One column moves the debit total only when it is passed, its handler is the debit
      handler and the `debit` key is not yet set; it then adds the parsed stripped cell
      and sets the key. */
  lemma CellStepDebit(st: Setup, i: nat, s: RowState)
    requires i < |st.headerFields| == |s.cells|
    ensures var r := CellStep(st, i, s);
            r.Ok? ==>
              if Passed(st, s.cells, i) && Runs(st.fieldMethods, st.headerFields[i], Debit) && "debit" !in s.vals then
                r.value.cells[i].Some? && "debit" in r.value.vals
                && r.value.debit == s.debit + AmountOf(Str2Float(r.value.cells[i].value, st.env.decimalSeparator))
              else r.value.debit == s.debit
  {
    var r := CellStep(st, i, s);
    var hf := st.headerFields[i];
    if r.Ok? && Passed(st, s.cells, i) {
      var cell := Strip(s.cells[i].value);
      var s1 := RowState(s.cells[i := Some(cell)], s.vals, s.log, s.debit, s.credit);
      var h := st.fieldMethods[hf].handler.value;
      assert r == HandlerStep(st.csvSeparator, st.env, h, hf, cell, s1);
    }
  }

  /** The same for the credit total. */
  lemma CellStepCredit(st: Setup, i: nat, s: RowState)
    requires i < |st.headerFields| == |s.cells|
    ensures var r := CellStep(st, i, s);
            r.Ok? ==>
              if Passed(st, s.cells, i) && Runs(st.fieldMethods, st.headerFields[i], Credit) && "credit" !in s.vals then
                r.value.cells[i].Some? && "credit" in r.value.vals
                && r.value.credit == s.credit + AmountOf(Str2Float(r.value.cells[i].value, st.env.decimalSeparator))
              else r.value.credit == s.credit
  {
    var r := CellStep(st, i, s);
    var hf := st.headerFields[i];
    if r.Ok? && Passed(st, s.cells, i) {
      var cell := Strip(s.cells[i].value);
      var s1 := RowState(s.cells[i := Some(cell)], s.vals, s.log, s.debit, s.credit);
      var h := st.fieldMethods[hf].handler.value;
      assert r == HandlerStep(st.csvSeparator, st.env, h, hf, cell, s1);
    }
  }

  /** The debit total of `t` is the one of `s0` plus the parsed cell of column `j`, a
      passed debit column, and the `debit` key is set. */
  predicate DebitFrom(st: Setup, s0: RowState, t: RowState, j: nat) {
    && j < |st.headerFields| == |s0.cells| == |t.cells|
    && Passed(st, s0.cells, j) && Runs(st.fieldMethods, st.headerFields[j], Debit)
    && t.cells[j].Some? && "debit" in t.vals
    && t.debit == s0.debit + AmountOf(Str2Float(t.cells[j].value, st.env.decimalSeparator))
  }

  /** The same for the credit total. */
  predicate CreditFrom(st: Setup, s0: RowState, t: RowState, j: nat) {
    && j < |st.headerFields| == |s0.cells| == |t.cells|
    && Passed(st, s0.cells, j) && Runs(st.fieldMethods, st.headerFields[j], Credit)
    && t.cells[j].Some? && "credit" in t.vals
    && t.credit == s0.credit + AmountOf(Str2Float(t.cells[j].value, st.env.decimalSeparator))
  }

  /** One more column keeps the debit total's history: if it moved, it moved once, by a
      passed debit column among those visited. */
  lemma DebitStep(st: Setup, s0: RowState, i: nat, p: RowState, t: RowState)
    requires i < |st.headerFields| == |s0.cells| == |p.cells|
    requires p.cells[i] == s0.cells[i]
    requires CellStep(st, i, p) == Ok(t)
    requires p.debit == s0.debit || exists j :: 0 <= j < i && DebitFrom(st, s0, p, j)
    ensures t.debit == s0.debit || exists j :: 0 <= j <= i && DebitFrom(st, s0, t, j)
  {
    CellStepDebit(st, i, p);
    if p.debit != s0.debit {
      var j :| 0 <= j < i && DebitFrom(st, s0, p, j);
      assert t.cells[j] == p.cells[j];
      assert DebitFrom(st, s0, t, j);
    } else if t.debit != s0.debit {
      assert DebitFrom(st, s0, t, i);
    }
  }

  /** First write wins for the debit total: over the first `n` columns it either stays
      where it was, or it moved exactly once, by the parsed amount of one passed debit
      column, after which the `debit` key is set and no later column moves it. */
  lemma {:induction false} DebitMovesOnce(st: Setup, s0: RowState, n: nat)
    requires n <= |st.headerFields| == |s0.cells|
    ensures var r := Columns(st, s0, n);
            r.Ok? ==> r.value.debit == s0.debit || exists j :: 0 <= j < n && DebitFrom(st, s0, r.value, j)
  {
    var r := Columns(st, s0, n);
    if n > 0 && r.Ok? {
      var i := n - 1;
      var p := Columns(st, s0, i).value;
      DebitMovesOnce(st, s0, i);
      assert r == CellStep(st, i, p);
      DebitStep(st, s0, i, p, r.value);
    }
  }

  /** One more column keeps the credit total's history: if it moved, it moved once, by a
      passed credit column among those visited. */
  lemma CreditStep(st: Setup, s0: RowState, i: nat, p: RowState, t: RowState)
    requires i < |st.headerFields| == |s0.cells| == |p.cells|
    requires p.cells[i] == s0.cells[i]
    requires CellStep(st, i, p) == Ok(t)
    requires p.credit == s0.credit || exists j :: 0 <= j < i && CreditFrom(st, s0, p, j)
    ensures t.credit == s0.credit || exists j :: 0 <= j <= i && CreditFrom(st, s0, t, j)
  {
    CellStepCredit(st, i, p);
    if p.credit != s0.credit {
      var j :| 0 <= j < i && CreditFrom(st, s0, p, j);
      assert t.cells[j] == p.cells[j];
      assert CreditFrom(st, s0, t, j);
    } else if t.credit != s0.credit {
      assert CreditFrom(st, s0, t, i);
    }
  }

  /** The same for the credit total. */
  lemma {:induction false} CreditMovesOnce(st: Setup, s0: RowState, n: nat)
    requires n <= |st.headerFields| == |s0.cells|
    ensures var r := Columns(st, s0, n);
            r.Ok? ==> r.value.credit == s0.credit || exists j :: 0 <= j < n && CreditFrom(st, s0, r.value, j)
  {
    var r := Columns(st, s0, n);
    if n > 0 && r.Ok? {
      var i := n - 1;
      var p := Columns(st, s0, i).value;
      CreditMovesOnce(st, s0, i);
      assert r == CellStep(st, i, p);
      CreditStep(st, s0, i, p, r.value);
    }
  }

  /** A method's result together with the wizard's log and totals after it. */
  function Tracked(r: Result<(seq<Option<string>>, Vals), Fatal>, log: seq<LogEntry>, debit: real, credit: real): Result<RowState, Fatal> {
    match r
    case Ok((cells, vals)) => Ok(RowState(cells, vals, log, debit, credit))
    case Err(f) => Err(f)
  }

  /** Once a column stops the import, the later columns are not visited. */
  lemma {:induction false} ColumnsStop(st: Setup, s0: RowState, k: nat, n: nat)
    requires k <= n <= |st.headerFields| == |s0.cells|
    ensures Columns(st, s0, k).Err? ==> Columns(st, s0, n) == Columns(st, s0, k)
  {
    if k < n {
      ColumnsStop(st, s0, k, n - 1);
    }
  }

  /** One row: a comment row changes nothing; otherwise, when the row goes through, every
      column that is not skipped had a cell (a short row stops the import instead), and
      every non-empty one was decodable and is now stripped. */
  lemma RowCoverage(st: Setup, row: seq<string>, log: seq<LogEntry>, debit: real, credit: real)
    ensures var s0 := RowState(Cells(st.headerFields, row), map[], log, debit, credit);
            IsCommentRow(st.headerFields, row) ==> RowSpec(st, row, log, debit, credit) == Ok(s0)
    ensures var r := RowSpec(st, row, log, debit, credit);
            r.Ok? && !IsCommentRow(st.headerFields, row) ==>
              forall j :: 0 <= j < |st.headerFields| && st.headerFields[j] !in st.skipFields ==>
                j < |row| && (row[j] != "" ==> st.decodable(row[j]) && r.value.cells[j] == Some(Strip(row[j])))
  {
    var s0 := RowState(Cells(st.headerFields, row), map[], log, debit, credit);
    var n := |st.headerFields|;
    var r := RowSpec(st, row, log, debit, credit);
    if !IsCommentRow(st.headerFields, row) && r.Ok? {
      ColumnsCells(st, s0, n);
      forall j | 0 <= j < n && st.headerFields[j] !in st.skipFields
        ensures j < |row| && (row[j] != "" ==> st.decodable(row[j]) && r.value.cells[j] == Some(Strip(row[j])))
      {
        if j >= |row| {
          assert Passed(st, s0.cells, j);
        } else if row[j] != "" {
          assert s0.cells[j] == Some(row[j]);
          assert Passed(st, s0.cells, j);
        }
      }
    }
  }

  /** After the header is processed, `account_id` is never skipped and its table entry
      has no handler. */
  lemma AccountIdEntry(schema: seq<FieldDesc>, fs: seq<string>)
    requires Distinct(fs)
    ensures "account_id" !in SkipList(schema, fs)
    ensures "account_id" in HandlerTable(schema, fs) && HandlerTable(schema, fs)["account_id"].handler.None?
  {
    HandlerTableKeys(schema, fs);
    ColumnsPartitioned(schema, fs);
    InputFieldsShape();
    assert "account_id" in InputFields();
  }

  /** A column headed `account_id` keeps the pseudo-field entry, which has no handler:
      a row with a non-empty cell there never goes through, and when no earlier column
      stopped it and the cell decodes, it stops with the missing-method error. */
  lemma AccountIdColumnStops(schema: seq<FieldDesc>, st: Setup, row: seq<string>, log: seq<LogEntry>, debit: real, credit: real, j: nat)
    requires Distinct(st.headerFields)
    requires st.fieldMethods == HandlerTable(schema, st.headerFields)
    requires st.skipFields == SkipList(schema, st.headerFields)
    requires j < |st.headerFields| && st.headerFields[j] == "account_id"
    requires !IsCommentRow(st.headerFields, row)
    requires j < |row| && row[j] != ""
    ensures RowSpec(st, row, log, debit, credit).Err?
    ensures var s0 := RowState(Cells(st.headerFields, row), map[], log, debit, credit);
            Columns(st, s0, j).Ok? && st.decodable(row[j]) ==>
              RowSpec(st, row, log, debit, credit) == Err(MissingMethod("account_id"))
  {
    var s0 := RowState(Cells(st.headerFields, row), map[], log, debit, credit);
    var n := |st.headerFields|;
    AccountIdEntry(schema, st.headerFields);
    if Columns(st, s0, j).Err? {
      ColumnsStop(st, s0, j, n);
    } else {
      var p := Columns(st, s0, j).value;
      assert p.cells[j] == s0.cells[j] == Some(row[j]);
      assert Columns(st, s0, j + 1) == CellStep(st, j, p);
      AccountIdCellStops(st, j, p);
      ColumnsStop(st, s0, j + 1, n);
    }
  }

  /** The `account_id` column itself, once reached with a non-empty cell. */
  lemma AccountIdCellStops(st: Setup, j: nat, p: RowState)
    requires j < |st.headerFields| == |p.cells| && st.headerFields[j] == "account_id"
    requires "account_id" !in st.skipFields
    requires "account_id" in st.fieldMethods && st.fieldMethods["account_id"].handler.None?
    requires p.cells[j].Some? && p.cells[j].value != ""
    ensures CellStep(st, j, p).Err?
    ensures st.decodable(p.cells[j].value) ==> CellStep(st, j, p) == Err(MissingMethod("account_id"))
  {
    assert Passed(st, p.cells, j);
  }

  /** One row moves the debit total at most once, by the parsed amount of one stripped
      cell of a debit column. */
  lemma RowDebit(st: Setup, row: seq<string>, log: seq<LogEntry>, debit: real, credit: real)
    ensures var r := RowSpec(st, row, log, debit, credit);
            r.Ok? ==>
              r.value.debit == debit
              || exists j :: 0 <= j < |st.headerFields| && j < |row| && Runs(st.fieldMethods, st.headerFields[j], Debit)
                             && r.value.debit == debit + AmountOf(Str2Float(Strip(row[j]), st.env.decimalSeparator))
  {
    var s0 := RowState(Cells(st.headerFields, row), map[], log, debit, credit);
    var n := |st.headerFields|;
    var r := RowSpec(st, row, log, debit, credit);
    if !IsCommentRow(st.headerFields, row) && r.Ok? && r.value.debit != debit {
      var t := r.value;
      assert Columns(st, s0, n) == Ok(t);
      ColumnsCells(st, s0, n);
      DebitMovesOnce(st, s0, n);
      var j :| 0 <= j < n && DebitFrom(st, s0, t, j);
      assert s0.cells[j].Some? && t.cells[j] == Some(Strip(s0.cells[j].value));
      assert j < |row| && s0.cells[j] == Some(row[j]);
      assert t.debit == debit + AmountOf(Str2Float(Strip(row[j]), st.env.decimalSeparator));
    }
  }

  /** The same for the credit total. */
  lemma RowCredit(st: Setup, row: seq<string>, log: seq<LogEntry>, debit: real, credit: real)
    ensures var r := RowSpec(st, row, log, debit, credit);
            r.Ok? ==>
              r.value.credit == credit
              || exists j :: 0 <= j < |st.headerFields| && j < |row| && Runs(st.fieldMethods, st.headerFields[j], Credit)
                             && r.value.credit == credit + AmountOf(Str2Float(Strip(row[j]), st.env.decimalSeparator))
  {
    var s0 := RowState(Cells(st.headerFields, row), map[], log, debit, credit);
    var n := |st.headerFields|;
    var r := RowSpec(st, row, log, debit, credit);
    if !IsCommentRow(st.headerFields, row) && r.Ok? && r.value.credit != credit {
      var t := r.value;
      assert Columns(st, s0, n) == Ok(t);
      ColumnsCells(st, s0, n);
      CreditMovesOnce(st, s0, n);
      var j :| 0 <= j < n && CreditFrom(st, s0, t, j);
      assert s0.cells[j].Some? && t.cells[j] == Some(Strip(s0.cells[j].value));
      assert j < |row| && s0.cells[j] == Some(row[j]);
      assert t.credit == credit + AmountOf(Str2Float(Strip(row[j]), st.env.decimalSeparator));
    }
  }

  /** The truncation loop of `_process_header` (151-161): the header ends before its
      first empty token. */
  method HeaderWidth(header: seq<string>) returns (width: nat)
    ensures width <= |header| && header[..width] == Truncate(header)
  {
    width := 0;
    var cnt := 0;
    while cnt < |header|
      invariant 0 <= cnt <= |header|
      invariant forall j :: 0 <= j < cnt ==> header[j] != ""
      invariant |header| == 0 || cnt < |header|
      invariant width == 0
    {
      if header[cnt] == "" {
        width := cnt;
        break;
      } else if cnt == |header| - 1 {
        width := cnt + 1;
        break;
      }
      cnt := cnt + 1;
    }
    TruncateIs(header, width);
  }

  /** The duplicate check of `_process_header` (163-171): the first token that repeats an
      earlier one, if any. */
  method FindRepeat(fields: seq<string>) returns (r: Option<nat>)
    ensures r == FirstRepeat(fields)
  {
    var seen: seq<string> := [];
    for i := 0 to |fields|
      invariant seen == fields[..i]
      invariant Distinct(seen)
    {
      if fields[i] in seen {
        FirstRepeatAt(fields, i);
        return Some(i);
      }
      seen := seen + [fields[i]];
    }
    assert seen == fields;
    r := None;
  }

  /** The classification loop of `_process_header` (173-224), from the pseudo-field table
      and an empty skip list: a pseudo-field keeps its entry, a token naming a field of a
      supported type (by name, or by lower-cased label) gets that type's handler, and any
      other token is skipped. */
  method ClassifyColumns(schema: seq<FieldDesc>, fields: seq<string>)
    returns (fieldMethods: map<string, FieldMethod>, skipFields: seq<string>)
    requires Distinct(fields)
    ensures fieldMethods == HandlerTable(schema, fields)
    ensures skipFields == SkipList(schema, fields)
  {
    fieldMethods := InputFields();
    skipFields := [];
    for i := 0 to |fields|
      invariant fieldMethods == HandlerTable(schema, fields[..i])
      invariant skipFields == SkipList(schema, fields[..i])
    {
      var hf := fields[i];
      assert fields[..i + 1][..i] == fields[..i];
      HandlerTableKeys(schema, fields[..i]);
      assert hf !in fields[..i];
      if hf !in fieldMethods {
        var fd := FindField(schema, hf);
        if fd.None? {
          skipFields := skipFields + [hf];
        } else {
          var h := OrmHandler(fd.value);
          if h.Some? {
            fieldMethods := fieldMethods[hf := FieldMethod(h, false)];
          } else {
            skipFields := skipFields + [hf];
          }
        }
      }
    }
    assert fields[..|fields|] == fields;
  }

  class ImportRun {
    const csvSeparator: char
    const env: Env
    const schema: seq<FieldDesc>
    const precision: nat
    /** Whether a cell decodes in the wizard's code page. */
    const decodable: string -> bool

    var errLog: seq<LogEntry>
    var sumDebit: real
    var sumCredit: real
    var fieldMethods: map<string, FieldMethod>
    var skipFields: seq<string>
    var headerFields: seq<string>

    /** After the header is processed: the required entries are the three pseudo ones,
        every header token is skipped or in the table, and no token repeats. */
    ghost predicate Valid()
      reads this`fieldMethods, this`skipFields, this`headerFields
    {
      RequiredShape(fieldMethods)
      && (forall hf :: hf in headerFields ==> hf in skipFields || hf in fieldMethods)
      && Distinct(headerFields)
    }

    /** The state set up at the start of `aml_import` (476-493). */
    constructor (csvSeparator: char, env: Env, schema: seq<FieldDesc>, precision: nat, decodable: string -> bool)
      ensures this.csvSeparator == csvSeparator && this.env == env && this.schema == schema
      ensures this.precision == precision && this.decodable == decodable
      ensures errLog == [] && sumDebit == 0.0 && sumCredit == 0.0
      ensures fieldMethods == InputFields() && skipFields == [] && headerFields == []
      ensures Valid()
    {
      this.csvSeparator := csvSeparator;
      this.env := env;
      this.schema := schema;
      this.precision := precision;
      this.decodable := decodable;
      errLog := [];
      sumDebit, sumCredit := 0.0, 0.0;
      fieldMethods := InputFields();
      skipFields := [];
      headerFields := [];
      InputFieldsShape();
    }

    /** `_log_line_error` (228-232): appends one entry quoting the line, or fails when a
        cell of the line is missing. */
    method LogLineError(cells: seq<Option<string>>, msg: Message) returns (ok: bool)
      modifies this`errLog
      ensures ok <==> Render(csvSeparator, cells).Some?
      ensures errLog == if ok then old(errLog) + [LineError(Render(csvSeparator, cells).value, msg)] else old(errLog)
    {
      var line := Render(csvSeparator, cells);
      if line.None? {
        return false;
      }
      errLog := errLog + [LineError(line.value, msg)];
      ok := true;
    }

    /** `_process_header` (146-226): truncates the header at its first empty token,
        rejects a repeated token, and builds the dispatch table and the skip list. Unknown
        or unsupported columns only go to the skip list (and to the logger); the error log
        is not touched. */
    method ProcessHeader(header: seq<string>) returns (r: Result<seq<string>, Fatal>)
      modifies this`fieldMethods, this`skipFields
      ensures var fields := Truncate(header);
              match FirstRepeat(fields)
              case Some(i) => r == Err(DuplicateHeaderField(fields[i]))
              case None =>
                r == Ok(fields)
                && fieldMethods == HandlerTable(schema, fields)
                && skipFields == SkipList(schema, fields)
      ensures r.Ok? ==> RequiredShape(fieldMethods) && Distinct(r.value)
                        && forall hf :: hf in r.value ==> hf in skipFields || hf in fieldMethods
    {
      var width := HeaderWidth(header);
      var fields := header[..width];
      var repeat := FindRepeat(fields);
      if repeat.Some? {
        return Err(DuplicateHeaderField(fields[repeat.value]));
      }
      fieldMethods, skipFields := ClassifyColumns(schema, fields);
      InputFieldsShape();
      HandlerTableKeys(schema, fields);
      ColumnsPartitioned(schema, fields);
      r := Ok(fields);
    }

    /** One handler call with its side effects (234-431): the totals move by what the
        handler adds, and a message it produces goes through `_log_line_error`. */
    method Dispatch(h: Handler, field: string, cell: string, cells: seq<Option<string>>, vals: Vals)
      returns (r: Result<Vals, Fatal>)
      modifies this`errLog, this`sumDebit, this`sumCredit
      ensures var t := HandlerStep(csvSeparator, env, h, field, cell, RowState(cells, vals, old(errLog), old(sumDebit), old(sumCredit)));
              (r.Ok? <==> t.Ok?)
              && (t.Ok? ==> t.value == RowState(cells, r.value, errLog, sumDebit, sumCredit))
              && (t.Err? ==> r.error == t.error)
    {
      var e := Apply(h, env, field, cell, vals);
      r := RecordEffect(e, cells, vals);
    }

    /** The side effects of one handler call: the totals move, and its message goes to the
        log quoting the line. */
    method RecordEffect(e: Effect, cells: seq<Option<string>>, vals: Vals) returns (r: Result<Vals, Fatal>)
      modifies this`errLog, this`sumDebit, this`sumCredit
      ensures var t := Record(csvSeparator, e, RowState(cells, vals, old(errLog), old(sumDebit), old(sumCredit)));
              (r.Ok? <==> t.Ok?)
              && (t.Ok? ==> t.value == RowState(cells, r.value, errLog, sumDebit, sumCredit))
              && (t.Err? ==> r.error == t.error)
    {
      sumDebit := sumDebit + e.debit;
      sumCredit := sumCredit + e.credit;
      if e.error.Some? {
        var ok := LogLineError(cells, e.error.value);
        if !ok {
          return Err(UnrenderableLine);
        }
      }
      r := Ok(e.vals);
    }

    /** `_process_line_vals` (433-455): fills in the defaults, then logs one message for
        each required entry the line lacks; only `account_id` can be lacking. */
    method ProcessLineVals(cells: seq<Option<string>>, vals: Vals) returns (r: Result<Vals, Fatal>)
      requires Valid()
      modifies this`errLog
      ensures var v := WithDefaults(vals);
              if "account_id" in vals then r == Ok(v) && errLog == old(errLog)
              else if Render(csvSeparator, cells).Some? then
                r == Ok(v) && errLog == old(errLog) + [LineError(Render(csvSeparator, cells).value, RequiredMissing("account_id"))]
              else r == Err(UnrenderableLine) && errLog == old(errLog)
    {
      var v := WithDefaults(vals);
      var required := set k | k in fieldMethods && fieldMethods[k].required;
      assert forall k :: k in required <==> IsRequiredKey(k);
      var todo := required;
      while todo != {}
        invariant todo <= required
        invariant "account_id" in todo || "account_id" in v ==> errLog == old(errLog)
        invariant "account_id" !in todo && "account_id" !in v ==>
                    Render(csvSeparator, cells).Some?
                    && errLog == old(errLog) + [LineError(Render(csvSeparator, cells).value, RequiredMissing("account_id"))]
        decreases |todo|
      {
        var rf :| rf in todo;
        if rf !in v {
          var ok := LogLineError(cells, RequiredMissing(rf));
          if !ok {
            return Err(UnrenderableLine);
          }
        }
        todo := todo - {rf};
      }
      r := Ok(v);
    }

    /** What the column loop reads of this run. */
    function Config(): Setup
      reads this`fieldMethods, this`skipFields, this`headerFields
    {
      Setup(csvSeparator, env, decodable, fieldMethods, skipFields, headerFields)
    }

    /** One column of the row loop (514-535), as `CellStep` describes it: the cell is
        passed over, or decoded, stripped in place and handed to its handler through
        Dispatch. */
    method ProcessCell(i: nat, cells: seq<Option<string>>, vals: Vals)
      returns (r: Result<(seq<Option<string>>, Vals), Fatal>)
      requires i < |headerFields| == |cells|
      modifies this`errLog, this`sumDebit, this`sumCredit
      ensures Tracked(r, errLog, sumDebit, sumCredit)
              == CellStep(Config(), i, RowState(cells, vals, old(errLog), old(sumDebit), old(sumCredit)))
    {
      var hf := headerFields[i];
      if hf in skipFields || cells[i] == Some("") {
        return Ok((cells, vals));
      }
      if cells[i].None? || !decodable(cells[i].value) {
        return Err(WrongCodePage(hf));
      }
      var cell := Strip(cells[i].value);
      var line := cells[i := Some(cell)];
      if hf !in fieldMethods || fieldMethods[hf].handler.None? {
        return Err(MissingMethod(hf));
      }
      var res := Dispatch(fieldMethods[hf].handler.value, hf, cell, line, vals);
      if res.Err? {
        return Err(res.error);
      }
      r := Ok((line, res.value));
    }

    /** The loop over the columns of one row (510-535), as `RowSpec` describes it: it
        stops at once on a comment row, and otherwise visits every column in header order.
        It yields the row's cells as updated in place and the values collected;
        RowCoverage, RowDebit and RowCredit state what that means. */
    method ProcessRow(row: seq<string>) returns (r: Result<(seq<Option<string>>, Vals), Fatal>)
      modifies this`errLog, this`sumDebit, this`sumCredit
      ensures Tracked(r, errLog, sumDebit, sumCredit)
              == RowSpec(Config(), row, old(errLog), old(sumDebit), old(sumCredit))
    {
      ghost var st := Config();
      ghost var s0 := RowState(Cells(headerFields, row), map[], errLog, sumDebit, sumCredit);
      var cells := Cells(headerFields, row);
      var vals: Vals := map[];
      var i := 0;
      while i < |headerFields|
        invariant 0 <= i <= |headerFields|
        invariant i > 0 ==> !IsCommentRow(headerFields, row)
        invariant Columns(st, s0, i) == Ok(RowState(cells, vals, errLog, sumDebit, sumCredit))
      {
        if i == 0 && cells[0].Some? && cells[0].value != [] && cells[0].value[0] == '#' {
          assert IsCommentRow(headerFields, row);
          assert RowSpec(st, row, s0.log, s0.debit, s0.credit) == Ok(s0);
          return Ok((cells, vals));
        }
        ghost var before := RowState(cells, vals, errLog, sumDebit, sumCredit);
        var res := ProcessCell(i, cells, vals);
        assert Columns(st, s0, i + 1) == CellStep(st, i, before);
        if res.Err? {
          ColumnsStop(st, s0, i + 1, |headerFields|);
          return Err(res.error);
        }
        cells, vals := res.value.0, res.value.1;
        i := i + 1;
      }
      assert RowSpec(st, row, s0.log, s0.debit, s0.credit) == Columns(st, s0, |headerFields|);
      r := Ok((cells, vals));
    }

    /** `_process_vals` (457-468): one balance message when the rounded totals differ. */
    method ProcessVals()
      modifies this`errLog
      ensures errLog == old(errLog) + (if Balanced(sumDebit, sumCredit, precision) then [] else [Unbalanced(sumDebit, sumCredit)])
    {
      if RoundScaled(sumDebit, precision) != RoundScaled(sumCredit, precision) {
        errLog := errLog + [Unbalanced(sumDebit, sumCredit)];
      }
    }
  }

  /** What the run has produced so far: the lines collected (`inv_lines`), the error log
      and the two totals. */
  datatype RunState = RunState(lines: seq<Vals>, log: seq<LogEntry>, debit: real, credit: real)

  /** `_process_line_vals` (433-455) on the values of one row, from the log so far: the
      defaults are filled in, and a missing `account_id` (the only required entry that can
      be missing once the defaults are in) is logged quoting the line. */
  function LineVals(csvSeparator: char, cells: seq<Option<string>>, vals: Vals, log: seq<LogEntry>)
    : (r: Result<(Vals, seq<LogEntry>), Fatal>)
    ensures r.Ok? ==> r.value.0 == WithDefaults(vals) && log <= r.value.1 && |r.value.1| <= |log| + 1
    ensures r.Ok? ==> (r.value.1 == log <==> "account_id" in vals)
    ensures r.Ok? && "account_id" !in vals ==> r.value.1[|log|].LineError? && r.value.1[|log|].msg == RequiredMissing("account_id")
    ensures r.Err? <==> "account_id" !in vals && Render(csvSeparator, cells).None?
  {
    if "account_id" in vals then Ok((WithDefaults(vals), log))
    else
      var line := Render(csvSeparator, cells);
      if line.None? then Err(UnrenderableLine)
      else Ok((WithDefaults(vals), log + [LineError(line.value, RequiredMissing("account_id"))]))
  }

  /** One data row of `aml_import` (506-540) after the rows before it: the column loop,
      then, when it collected some value, `_process_line_vals` and one more line. */
  function RowThen(st: Setup, row: seq<string>, acc: RunState): Result<RunState, Fatal> {
    var r := RowSpec(st, row, acc.log, acc.debit, acc.credit);
    if r.Err? then Err(r.error)
    else if r.value.vals == map[] then Ok(RunState(acc.lines, r.value.log, r.value.debit, r.value.credit))
    else
      var l := LineVals(st.csvSeparator, r.value.cells, r.value.vals, r.value.log);
      if l.Err? then Err(l.error)
      else Ok(RunState(acc.lines + [l.value.0], l.value.1, r.value.debit, r.value.credit))
  }

  /** The data rows in file order, from `acc`; the first stop ends the run. */
  function RowsSpec(st: Setup, rows: seq<seq<string>>, acc: RunState): Result<RunState, Fatal> {
    if rows == [] then Ok(acc)
    else
      var prev := RowsSpec(st, rows[..|rows| - 1], acc);
      if prev.Err? then prev else RowThen(st, rows[|rows| - 1], prev.value)
  }

  /** Some entry of the log says that `account_id` is missing. */
  ghost predicate AccountMissingLogged(log: seq<LogEntry>) {
    exists k :: 0 <= k < |log| && log[k].LineError? && log[k].msg == RequiredMissing("account_id")
  }

  /** A line that lacks nothing the move needs, or whose lack of an account was logged. */
  ghost predicate Complete(l: Vals, log: seq<LogEntry>) {
    "name" in l && "debit" in l && "credit" in l && ("account_id" in l || AccountMissingLogged(log))
  }

  lemma CompleteLater(lines: seq<Vals>, log: seq<LogEntry>, log2: seq<LogEntry>)
    requires log <= log2
    requires forall l :: l in lines ==> Complete(l, log)
    ensures forall l :: l in lines ==> Complete(l, log2)
  {
    if AccountMissingLogged(log) {
      var k :| 0 <= k < |log| && log[k].LineError? && log[k].msg == RequiredMissing("account_id");
      assert log2[k] == log[k];
    }
  }

  /** One row keeps the run's history: earlier lines stay, the log only grows, at most one
      line is added and it is complete. */
  lemma RowThenLines(st: Setup, row: seq<string>, acc: RunState)
    requires forall l :: l in acc.lines ==> Complete(l, acc.log)
    ensures var r := RowThen(st, row, acc);
            r.Ok? ==> acc.lines <= r.value.lines && |r.value.lines| <= |acc.lines| + 1 && acc.log <= r.value.log
                      && forall l :: l in r.value.lines ==> Complete(l, r.value.log)
  {
    var r := RowThen(st, row, acc);
    var rs := RowSpec(st, row, acc.log, acc.debit, acc.credit);
    if r.Ok? {
      var t := rs.value;
      if t.vals == map[] {
        CompleteLater(acc.lines, acc.log, t.log);
      } else {
        var l := LineVals(st.csvSeparator, t.cells, t.vals, t.log);
        CompleteLater(acc.lines, acc.log, l.value.1);
        if "account_id" !in t.vals {
          assert l.value.1[|t.log|].LineError? && l.value.1[|t.log|].msg == RequiredMissing("account_id");
          assert AccountMissingLogged(l.value.1);
        }
        assert r.value.lines == acc.lines + [l.value.0];
      }
    }
  }

  /** Over all rows: the lines of `acc` stay first, at most one line per row is added,
      the log only grows, and every line has `name`, `debit` and `credit`, and an
      account unless a missing account was logged. */
  lemma {:induction false} RowsLines(st: Setup, rows: seq<seq<string>>, acc: RunState)
    requires forall l :: l in acc.lines ==> Complete(l, acc.log)
    ensures var r := RowsSpec(st, rows, acc);
            r.Ok? ==> acc.lines <= r.value.lines && |r.value.lines| <= |acc.lines| + |rows| && acc.log <= r.value.log
                      && forall l :: l in r.value.lines ==> Complete(l, r.value.log)
  {
    if rows != [] {
      var init := rows[..|rows| - 1];
      RowsLines(st, init, acc);
      var prev := RowsSpec(st, init, acc);
      if prev.Ok? {
        RowThenLines(st, rows[|rows| - 1], prev.value);
      }
    }
  }

  /** Which rows become lines (536-538): a row adds a line exactly when its column loop
      collected some value, and that line is the row's values with their defaults; the
      totals are the row's. */
  lemma RowAppendsLine(st: Setup, rows: seq<seq<string>>, row: seq<string>, acc: RunState)
    requires RowsSpec(st, rows, acc).Ok?
    ensures var p := RowsSpec(st, rows, acc).value;
            var rs := RowSpec(st, row, p.log, p.debit, p.credit);
            var r := RowsSpec(st, rows + [row], acc);
            r.Ok? ==>
              rs.Ok? && r.value.debit == rs.value.debit && r.value.credit == rs.value.credit
              && (if rs.value.vals == map[] then r.value.lines == p.lines
                  else r.value.lines == p.lines + [WithDefaults(rs.value.vals)])
  {
    assert (rows + [row])[..|rows|] == rows;
  }

  /** A comment row leaves the run exactly as it was. */
  lemma CommentRowAddsNothing(st: Setup, rows: seq<seq<string>>, row: seq<string>, acc: RunState)
    requires IsCommentRow(st.headerFields, row)
    ensures RowsSpec(st, rows + [row], acc) == RowsSpec(st, rows, acc)
  {
    assert (rows + [row])[..|rows|] == rows;
    var prev := RowsSpec(st, rows, acc);
    if prev.Ok? {
      var p := prev.value;
      RowCoverage(st, row, p.log, p.debit, p.credit);
      assert RowThen(st, row, p) == Ok(p);
    }
  }

  /** `DictReader` passes over rows without any cell. */
  function NonBlankRows(rows: seq<seq<string>>): (r: seq<seq<string>>)
    ensures forall x :: x in r ==> x in rows && x != []
    ensures forall x :: x in rows && x != [] ==> x in r
    ensures |r| <= |rows|
    ensures |rows| == 1 ==> r == if rows[0] == [] then [] else rows
  {
    if rows == [] then []
    else (if rows[0] == [] then [] else [rows[0]]) + NonBlankRows(rows[1..])
  }

  /** The reader keeps the rows in file order, each one once: reading two pieces of the
      file one after the other yields the rows of the first, then those of the second. */
  lemma {:induction false} NonBlankRowsAppend(a: seq<seq<string>>, b: seq<seq<string>>)
    ensures NonBlankRows(a + b) == NonBlankRows(a) + NonBlankRows(b)
  {
    if a == [] {
      assert a + b == b;
    } else {
      assert (a + b)[0] == a[0] && (a + b)[1..] == a[1..] + b;
      NonBlankRowsAppend(a[1..], b);
    }
  }

  /** The header tokens, truncated: the first row the CSV reader makes of the header line,
      if there is a header line and the reader makes a row of it. */
  function HeaderTokens(data: string, csvSeparator: char, tokenize: string -> seq<seq<string>>): Option<seq<string>> {
    var ls := Lines(data);
    var k := FirstHeaderLine(ls, csvSeparator);
    if k < |ls| && tokenize(Lower(ls[k])) != [] then Some(Truncate(tokenize(Lower(ls[k]))[0])) else None
  }

  /** The loop over the data rows of `aml_import` (504-540), as `RowsSpec` describes it:
      each row goes through the column loop, and a row that collected some value becomes a
      line through `_process_line_vals`. */
  method ImportRows(run: ImportRun, rows: seq<seq<string>>) returns (r: Result<seq<Vals>, Fatal>)
    requires run.Valid()
    modifies run`errLog, run`sumDebit, run`sumCredit
    ensures match RowsSpec(run.Config(), rows, RunState([], old(run.errLog), old(run.sumDebit), old(run.sumCredit)))
            case Ok(t) => r == Ok(t.lines) && run.errLog == t.log && run.sumDebit == t.debit && run.sumCredit == t.credit
            case Err(f) => r == Err(f)
  {
    ghost var st := run.Config();
    ghost var acc := RunState([], run.errLog, run.sumDebit, run.sumCredit);
    var lines: seq<Vals> := [];
    for n := 0 to |rows|
      invariant run.Config() == st
      invariant RowsSpec(st, rows[..n], acc) == Ok(RunState(lines, run.errLog, run.sumDebit, run.sumCredit))
    {
      assert rows[..n + 1][..n] == rows[..n];
      ghost var before := RunState(lines, run.errLog, run.sumDebit, run.sumCredit);
      assert RowsSpec(st, rows[..n + 1], acc) == RowThen(st, rows[n], before);
      var res := run.ProcessRow(rows[n]);
      if res.Err? {
        RowsStop(st, rows, n + 1, acc);
        return Err(res.error);
      }
      var (cells, vals) := res.value;
      if vals != map[] {
        var line := run.ProcessLineVals(cells, vals);
        if line.Err? {
          RowsStop(st, rows, n + 1, acc);
          return Err(line.error);
        }
        lines := lines + [line.value];
      }
    }
    assert rows[..|rows|] == rows;
    r := Ok(lines);
  }

  /** Once a row stops the run, the later rows are not read. */
  lemma {:induction false} RowsStop(st: Setup, rows: seq<seq<string>>, k: nat, acc: RunState)
    requires k <= |rows|
    ensures RowsSpec(st, rows[..k], acc).Err? ==> RowsSpec(st, rows, acc) == RowsSpec(st, rows[..k], acc)
  {
    if k < |rows| {
      RowsStop(st, rows[..|rows| - 1], k, acc);
      assert rows[..|rows| - 1][..k] == rows[..k];
    } else {
      assert rows[..k] == rows;
    }
  }

  /** `_process_vals` (457-468) at the end of the rows: one balance message when the
      rounded totals differ. */
  function BalanceChecked(t: RunState, precision: nat): RunState {
    RunState(t.lines, t.log + (if Balanced(t.debit, t.credit, precision) then [] else [Unbalanced(t.debit, t.credit)]), t.debit, t.credit)
  }

  /** The run of `aml_import` (470-542) on the decoded file text: the leading lines, the
      header row, the data rows and the balance test. The accounts, searches and date test
      are in `env`; `tokenize` is the CSV reader with the wizard's separator. */
  function ImportSpec(csvSeparator: char, env: Env, schema: seq<FieldDesc>, precision: nat,
                      decodable: string -> bool, tokenize: string -> seq<seq<string>>, data: string)
    : Result<RunState, Fatal>
  {
    var ls := Lines(data);
    var k := FirstHeaderLine(ls, csvSeparator);
    if k == |ls| || tokenize(Lower(ls[k])) == [] then Err(NoHeader)
    else
      var fields := Truncate(tokenize(Lower(ls[k]))[0]);
      var repeat := FirstRepeat(fields);
      if repeat.Some? then Err(DuplicateHeaderField(fields[repeat.value]))
      else
        var st := Setup(csvSeparator, env, decodable, HandlerTable(schema, fields), SkipList(schema, fields), fields);
        var rows := RowsSpec(st, NonBlankRows(tokenize(Concat(ls[k + 1..]))), RunState([], [], 0.0, 0.0));
        if rows.Err? then rows else Ok(BalanceChecked(rows.value, precision))
  }

  /** What the run ends with: the move written with these lines, the log shown instead,
      or an exception that stops the import. */
  datatype Outcome = Committed(lines: seq<Vals>) | Reported(log: seq<LogEntry>) | Aborted(fatal: Fatal)

  /** The decision at 545-562: the move is written with the lines when the log is empty,
      otherwise the log is shown. */
  function Decide(r: Result<RunState, Fatal>): Outcome {
    match r
    case Err(f) => Aborted(f)
    case Ok(t) => if t.log == [] then Committed(t.lines) else Reported(t.log)
  }

  /** Commit or report, never both: the move is written exactly when the run ends with an
      empty log, and then every line has an account and the totals balance; unbalanced
      totals always end the log with the balance message. */
  lemma ImportDecision(csvSeparator: char, env: Env, schema: seq<FieldDesc>, precision: nat,
                       decodable: string -> bool, tokenize: string -> seq<seq<string>>, data: string)
    ensures var r := ImportSpec(csvSeparator, env, schema, precision, decodable, tokenize, data);
            var o := Decide(r);
            && (o.Committed? <==> r.Ok? && r.value.log == [])
            && (o.Reported? <==> r.Ok? && r.value.log != [])
            && (o.Reported? ==> o.log == r.value.log)
            && (o.Committed? ==> o.lines == r.value.lines && Balanced(r.value.debit, r.value.credit, precision))
            && (o.Committed? ==> forall l :: l in o.lines ==> "name" in l && "debit" in l && "credit" in l && "account_id" in l)
            && (r.Ok? && !Balanced(r.value.debit, r.value.credit, precision) ==>
                  o.Reported? && o.log[|o.log| - 1] == Unbalanced(r.value.debit, r.value.credit))
  {
    var r := ImportSpec(csvSeparator, env, schema, precision, decodable, tokenize, data);
    if r.Ok? {
      var ls := Lines(data);
      var k := FirstHeaderLine(ls, csvSeparator);
      var fields := Truncate(tokenize(Lower(ls[k]))[0]);
      var st := Setup(csvSeparator, env, decodable, HandlerTable(schema, fields), SkipList(schema, fields), fields);
      var rowsIn := NonBlankRows(tokenize(Concat(ls[k + 1..])));
      var rows := RowsSpec(st, rowsIn, RunState([], [], 0.0, 0.0));
      assert r == Ok(BalanceChecked(rows.value, precision));
      RowsLines(st, rowsIn, RunState([], [], 0.0, 0.0));
      BalanceDecision(rows.value, precision);
    }
  }

  /** The balance test keeps the lines and the totals, and when the log it leaves is
      empty, every line names its account and the totals balance. */
  lemma BalanceDecision(t: RunState, precision: nat)
    requires forall l :: l in t.lines ==> Complete(l, t.log)
    ensures var b := BalanceChecked(t, precision);
            && b.lines == t.lines && b.debit == t.debit && b.credit == t.credit && t.log <= b.log
            && (!Balanced(t.debit, t.credit, precision) ==> b.log != [] && b.log[|b.log| - 1] == Unbalanced(t.debit, t.credit))
            && (b.log == [] ==> Balanced(t.debit, t.credit, precision)
                                && forall l :: l in b.lines ==> "name" in l && "debit" in l && "credit" in l && "account_id" in l)
  {
    var b := BalanceChecked(t, precision);
    if b.log == [] {
      assert t.log == [];
      assert !AccountMissingLogged(t.log);
    }
  }

  /** No header line, or a header line the reader makes no row of, aborts; so does a
      repeated token in the header. */
  lemma HeaderStops(csvSeparator: char, env: Env, schema: seq<FieldDesc>, precision: nat,
                    decodable: string -> bool, tokenize: string -> seq<seq<string>>, data: string)
    ensures var o := Decide(ImportSpec(csvSeparator, env, schema, precision, decodable, tokenize, data));
            var h := HeaderTokens(data, csvSeparator, tokenize);
            && (h.None? ==> o == Aborted(NoHeader))
            && (h.Some? && FirstRepeat(h.value).Some? ==> o == Aborted(DuplicateHeaderField(h.value[FirstRepeat(h.value).value])))
  {
  }

  /** `aml_import` (470-562) on the decoded file text `data`, as `ImportSpec` and `Decide`
      describe it. The database is given as the company's accounts, the search results and
      the field schema; `tokenize` is the CSV reader with the wizard's separator. */
  method AmlImport(
    csvSeparator: char, decimalSeparator: char, accounts: seq<AccountEntry>,
    catalog: map<Query, seq<int>>, isDate: string -> bool, schema: seq<FieldDesc>,
    precision: nat, decodable: string -> bool, tokenize: string -> seq<seq<string>>, data: string)
    returns (o: Outcome)
    ensures o == Decide(ImportSpec(csvSeparator, Env(decimalSeparator, AccountsMap(accounts), catalog, isDate),
                                   schema, precision, decodable, tokenize, data))
  {
    var accountsDict := BuildAccountsDict(accounts);
    var env := Env(decimalSeparator, accountsDict, catalog, isDate);
    var run := new ImportRun(csvSeparator, env, schema, precision, decodable);
    var split := RemoveLeadingLines(data, csvSeparator);
    if split.Err? {
      return Aborted(split.error);
    }
    var (body, header) := split.value;
    var headerRows := tokenize(header);
    if headerRows == [] {
      return Aborted(NoHeader);
    }
    var fields := run.ProcessHeader(headerRows[0]);
    if fields.Err? {
      return Aborted(fields.error);
    }
    run.headerFields := fields.value;

    ghost var st := run.Config();
    ghost var rowsIn := NonBlankRows(tokenize(body));
    ghost var t := RowsSpec(st, rowsIn, RunState([], [], 0.0, 0.0));
    assert ImportSpec(csvSeparator, env, schema, precision, decodable, tokenize, data)
           == if t.Err? then t else Ok(BalanceChecked(t.value, precision));
    var lines := ImportRows(run, NonBlankRows(tokenize(body)));
    if lines.Err? {
      return Aborted(lines.error);
    }
    run.ProcessVals();
    assert BalanceChecked(t.value, precision) == RunState(lines.value, run.errLog, run.sumDebit, run.sumCredit);
    if run.errLog != [] {
      o := Reported(run.errLog);
    } else {
      o := Committed(lines.value);
    }
  }
}
