/** What `_process_header` (146-226) computes from the header row: the columns kept, the
    dispatch table and the skip list. The method that builds them step by step is
    `Importer.ImportRun.ProcessHeader`; the functions here are its specification. */
module Header {
  import opened Wrappers
  import opened Strings
  import opened Handlers

  /** The ORM field types the importer tells apart. */
  datatype FieldType = Char | Text | Integer | Float | Many2one | OtherType(name: string)

  /** One importable field of a journal line: its technical name, its label and type. */
  datatype FieldDesc = FieldDesc(name: string, caption: string, ftype: FieldType)

  /** One entry of the dispatch table: the handler, if the entry has a 'method', and
      whether the entry is marked 'required'. */
  datatype FieldMethod = FieldMethod(handler: Option<Handler>, required: bool)

  /** The pseudo-field table of `_input_fields` (115-135). */
  function InputFields(): map<string, FieldMethod> {
    map[
      "account" := FieldMethod(Some(Account), false),
      "account_id" := FieldMethod(None, true),
      "debit" := FieldMethod(Some(Debit), true),
      "credit" := FieldMethod(Some(Credit), true),
      "partner" := FieldMethod(Some(Partner), false),
      "product" := FieldMethod(Some(Product), false),
      "date_maturity" := FieldMethod(Some(DateMaturity), false),
      "due date" := FieldMethod(Some(DateMaturity), false),
      "currency" := FieldMethod(Some(Currency), false),
      "tax account" := FieldMethod(Some(TaxCode), false),
      "tax_code" := FieldMethod(Some(TaxCode), false),
      "analytic account" := FieldMethod(Some(Analytic), false)
    ]
  }

  predicate IsRequiredKey(k: string) {
    k == "account_id" || k == "debit" || k == "credit"
  }

  /** The table marks exactly `account_id`, `debit` and `credit` as required, and
      `account_id` is the one entry without a handler. */
  lemma InputFieldsShape()
    ensures forall k :: IsRequiredKey(k) ==> k in InputFields()
    ensures forall k :: k in InputFields() ==> (InputFields()[k].required <==> IsRequiredKey(k))
    ensures forall k :: k in InputFields() ==> (InputFields()[k].handler.None? <==> k == "account_id")
  {
  }

  /** The header up to, not including, its first empty token (151-161). */
  function Truncate(fields: seq<string>): (r: seq<string>)
    ensures r <= fields
    ensures "" !in r
    ensures |r| < |fields| ==> fields[|r|] == ""
  {
    if fields == [] || fields[0] == "" then [] else [fields[0]] + Truncate(fields[1..])
  }

  /** The three facts above pin the truncated header down: a prefix without an empty
      token, followed by an empty token or the end, is the truncation. */
  lemma TruncateIs(fields: seq<string>, k: nat)
    requires k <= |fields|
    requires forall j :: 0 <= j < k ==> fields[j] != ""
    requires k < |fields| ==> fields[k] == ""
    ensures Truncate(fields) == fields[..k]
  {
    var r := Truncate(fields);
    if |r| < k {
      assert false;
    } else if |r| > k {
      assert false;
    }
  }

  predicate Distinct(s: seq<string>) {
    forall i, j :: 0 <= i < j < |s| ==> s[i] != s[j]
  }

  /** Index of the first token that repeats an earlier one (163-171). */
  function FirstRepeat(fs: seq<string>): (r: Option<nat>)
    ensures r.None? <==> Distinct(fs)
    ensures r.Some? ==> r.value < |fs| && fs[r.value] in fs[..r.value] && Distinct(fs[..r.value])
  {
    if fs == [] then None
    else
      var init := fs[..|fs| - 1];
      var p := FirstRepeat(init);
      if p.Some? then
        assert fs[..p.value] == init[..p.value];
        p
      else if fs[|fs| - 1] in init then
        Some(|fs| - 1)
      else
        assert forall i :: 0 <= i < |fs| - 1 ==> fs[i] == init[i];
        None
  }

  /** The loop at 163-171 stops at the first repeat: a token that repeats an earlier one
      while all before it are distinct is the one `FirstRepeat` names. */
  lemma FirstRepeatAt(fs: seq<string>, i: nat)
    requires i < |fs| && fs[i] in fs[..i] && Distinct(fs[..i])
    ensures FirstRepeat(fs) == Some(i)
  {
    var r := FirstRepeat(fs);
    var k :| 0 <= k < i && fs[k] == fs[i];
    assert !Distinct(fs);
    if r.value < i {
      assert false;
    } else if r.value > i {
      assert false;
    }
  }

  /** How a header token is compared with a field: by name, or by lower-cased label. */
  predicate Matches(fd: FieldDesc, hf: string, byLabel: bool) {
    if byLabel then Lower(fd.caption) == hf else fd.name == hf
  }

  /** The first field of the schema that matches. */
  function FirstMatch(schema: seq<FieldDesc>, hf: string, byLabel: bool): (k: nat)
    ensures k <= |schema|
    ensures forall j :: 0 <= j < k ==> !Matches(schema[j], hf, byLabel)
    ensures k < |schema| ==> Matches(schema[k], hf, byLabel)
  {
    if schema == [] || Matches(schema[0], hf, byLabel) then 0
    else 1 + FirstMatch(schema[1..], hf, byLabel)
  }

  /** The field a token denotes (182-191): the field of that name, otherwise the first
      field whose lower-cased label is the token. */
  function FindField(schema: seq<FieldDesc>, hf: string): (r: Option<FieldDesc>)
    ensures r.None? <==> forall fd :: fd in schema ==> !Matches(fd, hf, false) && !Matches(fd, hf, true)
    ensures r.Some? ==> r.value in schema && (Matches(r.value, hf, false) || Matches(r.value, hf, true))
    ensures (exists fd :: fd in schema && fd.name == hf) ==> r.Some? && r.value.name == hf
  {
    var byName := FirstMatch(schema, hf, false);
    if byName < |schema| then Some(schema[byName])
    else
      var byLabel := FirstMatch(schema, hf, true);
      if byLabel < |schema| then Some(schema[byLabel]) else None
  }

  /** The handler picked by field type (194-219); other types are not supported. */
  function OrmHandler(fd: FieldDesc): Option<Handler> {
    match fd.ftype
    case Char => Some(OrmChar(fd.name))
    case Text => Some(OrmChar(fd.name))
    case Integer => Some(OrmInteger(fd.name))
    case Float => Some(OrmFloat(fd.name))
    case Many2one => Some(OrmMany2one(fd.name))
    case OtherType(_) => None
  }

  /** Where a header token ends up. */
  datatype Column = Pseudo | Skipped | Mapped(h: Handler)

  function Classify(schema: seq<FieldDesc>, hf: string): Column {
    if hf in InputFields() then Pseudo
    else
      var fd := FindField(schema, hf);
      if fd.None? || OrmHandler(fd.value).None? then Skipped
      else Mapped(OrmHandler(fd.value).value)
  }

  /** The dispatch table after the loop over `fs` (173-224). */
  function HandlerTable(schema: seq<FieldDesc>, fs: seq<string>): map<string, FieldMethod> {
    if fs == [] then InputFields()
    else
      var table := HandlerTable(schema, fs[..|fs| - 1]);
      var hf := fs[|fs| - 1];
      match Classify(schema, hf)
      case Mapped(h) => table[hf := FieldMethod(Some(h), false)]
      case _ => table
  }

  /** The skip list after the loop over `fs`, in header order. */
  function SkipList(schema: seq<FieldDesc>, fs: seq<string>): seq<string> {
    if fs == [] then []
    else
      var skip := SkipList(schema, fs[..|fs| - 1]);
      var hf := fs[|fs| - 1];
      if Classify(schema, hf).Skipped? then skip + [hf] else skip
  }

  /** The table keeps every pseudo-field entry as it is and adds entries only for mapped
      header tokens; in particular the required entries stay exactly the three pseudo
      ones. */
  lemma {:induction false} HandlerTableKeys(schema: seq<FieldDesc>, fs: seq<string>)
    ensures forall k :: k in InputFields() ==> k in HandlerTable(schema, fs) && HandlerTable(schema, fs)[k] == InputFields()[k]
    ensures forall k :: k in HandlerTable(schema, fs) ==> k in InputFields() || k in fs
    ensures forall k :: k in HandlerTable(schema, fs) && k !in InputFields() ==>
              Classify(schema, k).Mapped? && HandlerTable(schema, fs)[k] == FieldMethod(Some(Classify(schema, k).h), false)
  {
    if fs != [] {
      var init := fs[..|fs| - 1];
      HandlerTableKeys(schema, init);
      forall k | k in HandlerTable(schema, fs)
        ensures k in InputFields() || k in fs
      {
        if k != fs[|fs| - 1] && k !in InputFields() {
          assert k in init;
        }
      }
    }
  }

  /** Every header token that is not a pseudo-field is in exactly one of the skip list
      (its name and label are unknown, or its type is not supported) and the table (with
      the handler its type selects); nothing else enters the skip list. */
  lemma {:induction false} ColumnsPartitioned(schema: seq<FieldDesc>, fs: seq<string>)
    requires Distinct(fs)
    ensures forall hf :: hf in fs && hf !in InputFields() ==>
              (hf in SkipList(schema, fs) <==> Classify(schema, hf).Skipped?)
    ensures forall hf :: hf in fs && hf !in InputFields() ==>
              (hf in HandlerTable(schema, fs) <==> hf !in SkipList(schema, fs))
    ensures forall hf :: hf in SkipList(schema, fs) ==> hf in fs && hf !in InputFields()
  {
    HandlerTableKeys(schema, fs);
    if fs != [] {
      var init := fs[..|fs| - 1];
      var last := fs[|fs| - 1];
      assert Distinct(init);
      ColumnsPartitioned(schema, init);
      HandlerTableKeys(schema, init);
      assert last !in init;
      forall hf | hf in fs && hf !in InputFields()
        ensures hf in SkipList(schema, fs) <==> Classify(schema, hf).Skipped?
        ensures hf in HandlerTable(schema, fs) <==> hf !in SkipList(schema, fs)
      {
        if hf != last {
          assert hf in init;
        }
      }
    }
  }

  /** A token is skipped exactly when no field has it as name or lower-cased label, or
      the field it denotes has a type other than char, text, integer, float, many2one;
      otherwise the handler is the one for that type, writing that field. */
  lemma ClassifyByType(schema: seq<FieldDesc>, hf: string)
    requires hf !in InputFields()
    ensures Classify(schema, hf).Skipped? <==>
              (forall fd :: fd in schema ==> fd.name != hf && Lower(fd.caption) != hf)
              || FindField(schema, hf).value.ftype.OtherType?
    ensures Classify(schema, hf).Mapped? ==>
              var fd := FindField(schema, hf).value;
              Classify(schema, hf).h.target == fd.name
              && (Classify(schema, hf).h.OrmChar? <==> fd.ftype == Char || fd.ftype == Text)
              && (Classify(schema, hf).h.OrmInteger? <==> fd.ftype == Integer)
              && (Classify(schema, hf).h.OrmFloat? <==> fd.ftype == Float)
              && (Classify(schema, hf).h.OrmMany2one? <==> fd.ftype == Many2one)
  {
  }
}
