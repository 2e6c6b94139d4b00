/** The per-cell handlers `_handle_*` (234-431). Each one receives the stripped cell of
    one column and may write one key of the row's value dict; the dict is threaded through
    as a value and the handler's effect is returned, so that the row loop can apply it. */
module Handlers {
  import opened Wrappers
  import opened Numbers
  import opened Resolvers

  /** A value stored in the row's dict: text, an integer or id, an amount, or the
      `False` sentinel of a failed number parse. */
  datatype Value = Str(s: string) | Int(i: int) | Dec(x: real) | False

  /** Python truthiness of a stored value. */
  predicate Truthy(v: Value) {
    match v
    case Str(s) => s != []
    case Int(i) => i != 0
    case Dec(x) => x != 0.0
    case False => false
  }

  /** The values collected for one journal line (`aml_vals`). */
  type Vals = map<string, Value>

  /** `aml_vals.get(key)` is truthy. */
  predicate IsSet(vals: Vals, key: string) {
    key in vals && Truthy(vals[key])
  }

  /** The database searches the handlers run. The fixed parts of their domains (partner
      is a company or has no parent, analytic account is of the move's company and open)
      are part of what each kind of query means. */
  datatype Query =
    | PartnerByRef(ref: string) | PartnerByName(name: string)
    | ProductByCode(code: string) | ProductByName(name: string)
    | TaxCodeByCode(code: string) | TaxCodeByName(name: string)
    | AnalyticByCode(code: string) | AnalyticByName(name: string)
    | CurrencyByName(name: string)

  /** What the handlers read besides the cell: the wizard's decimal separator, the
      account map, the search results, and whether a text is a `YYYY-MM-DD` date. */
  datatype Env = Env(
    decimalSeparator: char,
    accounts: map<string, int>,
    catalog: map<Query, seq<int>>,
    isDate: string -> bool)

  /** The ids a search returns; a query the catalog does not list finds nothing. */
  function Search(env: Env, q: Query): seq<int> {
    if q in env.catalog then env.catalog[q] else []
  }

  datatype Kind = IntegerKind | NumericKind | Many2OneKind

  /** What a reference names; the tax-code messages quote the column name. */
  datatype Entity = AccountRef | PartnerRef | ProductRef | TaxCodeRef(field: string) | AnalyticRef | CurrencyRef

  /** The messages handed to `_log_line_error`. */
  datatype Message =
    | IncorrectValue(value: string, field: string, kind: Kind)
    | RefNotFound(entity: Entity, value: string)
    | RefAmbiguous(entity: Entity, value: string)
    | BadDate(field: string, value: string)
    | RequiredMissing(field: string)

  /** The dispatch targets: the pseudo-field handlers, and the four ORM handlers with the
      ORM field they write. */
  datatype Handler =
    | Account | Debit | Credit | Partner | Product | DateMaturity | Currency | TaxCode | Analytic
    | OrmChar(target: string) | OrmInteger(target: string) | OrmFloat(target: string)
    | OrmMany2one(target: string)

  /** The key a handler writes. */
  function Target(h: Handler): string {
    match h
    case Account => "account_id"
    case Debit => "debit"
    case Credit => "credit"
    case Partner => "partner_id"
    case Product => "product_id"
    case DateMaturity => "date_maturity"
    case Currency => "currency_id"
    case TaxCode => "tax_code_id"
    case Analytic => "analytic_account_id"
    case OrmChar(t) => t
    case OrmInteger(t) => t
    case OrmFloat(t) => t
    case OrmMany2one(t) => t
  }

  /** The guard each handler opens with: debit and credit test that the key is present,
      every other handler that it holds a truthy value. */
  predicate AlreadySet(h: Handler, vals: Vals) {
    if h.Debit? || h.Credit? then Target(h) in vals else IsSet(vals, Target(h))
  }

  /** What one handler call does: the new dict, the message it logs (if any), and what it
      adds to the debit and credit totals. */
  datatype Effect = Effect(vals: Vals, error: Option<Message>, debit: real, credit: real)

  function Stored(vals: Vals, key: string, v: Value): Effect {
    Effect(vals[key := v], None, 0.0, 0.0)
  }

  function Failed(vals: Vals, msg: Message): Effect {
    Effect(vals, Some(msg), 0.0, 0.0)
  }

  /** What a `False` parse result is stored as. */
  function AmountValue(x: Option<real>): Value {
    if x.Some? then Dec(x.value) else False
  }

  /** The handlers that resolve their cell to a database id. */
  predicate IsReference(h: Handler) {
    h.Account? || h.Partner? || h.Product? || h.TaxCode? || h.Analytic? || h.Currency?
  }

  /** The lookup a reference handler runs on its cell. */
  function Lookup(h: Handler, env: Env, cell: string): Resolution
    requires IsReference(h)
  {
    match h
    case Account => AccountDecision(env.accounts, cell)
    case Partner => ByCodeThenName(Search(env, PartnerByRef(cell)), Search(env, PartnerByName(cell)))
    case Product => ByCodeThenName(Search(env, ProductByCode(cell)), Search(env, ProductByName(cell)))
    case TaxCode => ByCodeThenName(Search(env, TaxCodeByCode(cell)), Search(env, TaxCodeByName(cell)))
    case Analytic => AnalyticDecision(Search(env, AnalyticByCode(cell)), Search(env, AnalyticByName(cell)))
    case Currency => CurrencyDecision(Search(env, CurrencyByName(cell)))
  }

  function EntityOf(h: Handler, field: string): Entity
    requires IsReference(h)
  {
    match h
    case Account => AccountRef
    case Partner => PartnerRef
    case Product => ProductRef
    case TaxCode => TaxCodeRef(field)
    case Analytic => AnalyticRef
    case Currency => CurrencyRef
  }

  /** A lookup's verdict applied to the dict: one id is stored, otherwise the matching
      message is logged and the dict is left alone. */
  function Resolved(vals: Vals, key: string, r: Resolution, entity: Entity, cell: string): Effect {
    match r
    case Found(id) => Stored(vals, key, Int(id))
    case NotFound => Failed(vals, RefNotFound(entity, cell))
    case Ambiguous => Failed(vals, RefAmbiguous(entity, cell))
  }

  /** The handler changes no key but `key`, and removes none. */
  predicate Confined(key: string, vals: Vals, e: Effect) {
    && vals.Keys <= e.vals.Keys <= vals.Keys + {key}
    && (forall k :: k in vals && k != key ==> e.vals[k] == vals[k])
  }

  /** Debit and credit past their guard (301-313). */
  function AmountEffect(h: Handler, env: Env, cell: string, vals: Vals): (e: Effect)
    requires h.Debit? || h.Credit?
    ensures Confined(Target(h), vals, e) && Target(h) in e.vals && e.error == None
    ensures e.debit == (if h.Debit? then AmountOf(Str2Float(cell, env.decimalSeparator)) else 0.0)
    ensures e.credit == (if h.Credit? then AmountOf(Str2Float(cell, env.decimalSeparator)) else 0.0)
  {
    var x := Str2Float(cell, env.decimalSeparator);
    if h.Debit? then Effect(vals["debit" := AmountValue(x)], None, AmountOf(x), 0.0)
    else Effect(vals["credit" := AmountValue(x)], None, 0.0, AmountOf(x))
  }

  /** An integer or many2one handler given its cell's parse result: the integer is
      stored, or `msg` is logged. */
  function IntEffect(t: string, n: Option<int>, msg: Message, vals: Vals): (e: Effect)
    requires !IsSet(vals, t)
    ensures Confined(t, vals, e) && e.debit == 0.0 && e.credit == 0.0
    ensures e.error.Some? ==> e.vals == vals
    ensures e.error.None? ==> t in e.vals
  {
    if n.Some? then Stored(vals, t, Int(n.value)) else Failed(vals, msg)
  }

  /** The float handler given its cell's parse result: the result is stored either way,
      and `msg` is logged when it is the sentinel. */
  function FloatEffect(t: string, x: Option<real>, msg: Message, vals: Vals): (e: Effect)
    ensures Confined(t, vals, e) && t in e.vals && e.debit == 0.0 && e.credit == 0.0
    ensures e.error.Some? ==> !IsSet(e.vals, t)
  {
    if x.Some? then Stored(vals, t, Dec(x.value))
    else Effect(vals[t := False], Some(msg), 0.0, 0.0)
  }

  /** The four ORM handlers past their guard (234-289). */
  function OrmEffect(h: Handler, env: Env, field: string, cell: string, vals: Vals): (e: Effect)
    requires h.OrmChar? || h.OrmInteger? || h.OrmFloat? || h.OrmMany2one?
    requires !IsSet(vals, h.target)
    ensures Confined(h.target, vals, e) && e.debit == 0.0 && e.credit == 0.0
    ensures e.error.Some? ==> !IsSet(e.vals, h.target) && (h.OrmFloat? || e.vals == vals)
    ensures e.error.None? ==> h.target in e.vals
  {
    var sep := env.decimalSeparator;
    match h
    case OrmChar(t) => Stored(vals, t, Str(cell))
    case OrmInteger(t) => IntEffect(t, Str2Int(cell, sep), IncorrectValue(cell, field, IntegerKind), vals)
    case OrmFloat(t) => FloatEffect(t, Str2Float(cell, sep), IncorrectValue(cell, field, NumericKind), vals)
    case OrmMany2one(t) => IntEffect(t, Str2Int(cell, sep), IncorrectValue(cell, field, Many2OneKind), vals)
  }

  /** The reference handlers and the due date past their guard (291-299, 315-431). */
  function LookupEffect(h: Handler, env: Env, field: string, cell: string, vals: Vals): (e: Effect)
    requires IsReference(h) || h.DateMaturity?
    ensures Confined(Target(h), vals, e) && e.debit == 0.0 && e.credit == 0.0
    ensures e.error.Some? ==> e.vals == vals
    ensures e.error.None? ==> Target(h) in e.vals
  {
    if h.DateMaturity? then
      if env.isDate(cell) then Stored(vals, "date_maturity", Str(cell))
      else Failed(vals, BadDate(field, cell))
    else Resolved(vals, Target(h), Lookup(h, env, cell), EntityOf(h, field), cell)
  }

  /** One call `method(cr, uid, field, line, move, aml_vals)` on the stripped `cell` of
      column `field`. */
  function Apply(h: Handler, env: Env, field: string, cell: string, vals: Vals): (e: Effect)
    // first write wins: an already-set key is left alone and nothing is added or logged
    ensures AlreadySet(h, vals) ==> e == Effect(vals, None, 0.0, 0.0)
    // only the handler's own key can change, and no key disappears
    ensures vals.Keys <= e.vals.Keys <= vals.Keys + {Target(h)}
    ensures forall k :: k in vals && k != Target(h) ==> e.vals[k] == vals[k]
    // only the debit and credit handlers move the totals, and they never log
    ensures !h.Debit? || "debit" in vals ==> e.debit == 0.0
    ensures !h.Credit? || "credit" in vals ==> e.credit == 0.0
    ensures h.Debit? && "debit" !in vals ==> e.debit == AmountOf(Str2Float(cell, env.decimalSeparator))
    ensures h.Credit? && "credit" !in vals ==> e.credit == AmountOf(Str2Float(cell, env.decimalSeparator))
    ensures (h.Debit? || h.Credit?) ==> e.error == None && Target(h) in e.vals
    // a logged error leaves the key unset; only the float handler touches the dict then
    ensures e.error.Some? ==> !AlreadySet(h, vals) && !IsSet(e.vals, Target(h))
    ensures e.error.Some? && !h.OrmFloat? ==> e.vals == vals
    // without an error, a handler that was not blocked by its guard writes its key
    ensures e.error.None? && !AlreadySet(h, vals) ==> Target(h) in e.vals
  {
    if AlreadySet(h, vals) then Effect(vals, None, 0.0, 0.0)
    else if h.Debit? || h.Credit? then AmountEffect(h, env, cell, vals)
    else if IsReference(h) || h.DateMaturity? then LookupEffect(h, env, field, cell, vals)
    else OrmEffect(h, env, field, cell, vals)
  }

  /** Integer and many2one cells (240-289): a cell `str2int` rejects logs one "incorrect
      value" message and leaves the key unset; otherwise the parsed integer is stored. */
  lemma IntegerCell(h: Handler, env: Env, field: string, cell: string, vals: Vals)
    requires h.OrmInteger? || h.OrmMany2one?
    requires !IsSet(vals, Target(h))
    ensures var e := Apply(h, env, field, cell, vals);
            var n := Str2Int(cell, env.decimalSeparator);
            (n.None? <==> e.error.Some?)
            && (n.None? ==> e.vals == vals
                            && e.error == Some(IncorrectValue(cell, field, if h.OrmInteger? then IntegerKind else Many2OneKind)))
            && (n.Some? ==> e.vals == vals[Target(h) := Int(n.value)])
  {
    var kind := if h.OrmInteger? then IntegerKind else Many2OneKind;
    var n := Str2Int(cell, env.decimalSeparator);
    assert Apply(h, env, field, cell, vals) == OrmEffect(h, env, field, cell, vals);
    assert OrmEffect(h, env, field, cell, vals) == IntEffect(Target(h), n, IncorrectValue(cell, field, kind), vals);
  }

  /** Char and text cells (234-238): the stripped cell is stored as it is, and nothing is
      logged. */
  lemma CharCell(t: string, env: Env, field: string, cell: string, vals: Vals)
    requires !IsSet(vals, t)
    ensures Apply(OrmChar(t), env, field, cell, vals) == Effect(vals[t := Str(cell)], None, 0.0, 0.0)
  {
    assert Apply(OrmChar(t), env, field, cell, vals) == OrmEffect(OrmChar(t), env, field, cell, vals);
  }

  /** Float cells (255-260) that `str2float` accepts: the parsed amount is stored, nothing
      is logged, and the totals do not move. */
  lemma FloatCell(t: string, env: Env, field: string, cell: string, vals: Vals)
    requires !IsSet(vals, t)
    requires Str2Float(cell, env.decimalSeparator).Some?
    ensures Apply(OrmFloat(t), env, field, cell, vals)
            == Effect(vals[t := Dec(Str2Float(cell, env.decimalSeparator).value)], None, 0.0, 0.0)
  {
    var sep := env.decimalSeparator;
    assert Apply(OrmFloat(t), env, field, cell, vals) == OrmEffect(OrmFloat(t), env, field, cell, vals);
    assert OrmEffect(OrmFloat(t), env, field, cell, vals)
        == FloatEffect(t, Str2Float(cell, sep), IncorrectValue(cell, field, NumericKind), vals);
  }

  /** The float handler stores the parse result before testing it (259-260): a rejected
      cell leaves `False` under the key and logs "incorrect value"; since `False` is falsy,
      a later float column for the same field can still write it. */
  lemma FloatCellStoresSentinel(t: string, env: Env, field: string, cell: string, cell2: string, vals: Vals)
    requires !IsSet(vals, t)
    requires Str2Float(cell, env.decimalSeparator) == None
    ensures var e := Apply(OrmFloat(t), env, field, cell, vals);
            e.vals == vals[t := False] && e.error == Some(IncorrectValue(cell, field, NumericKind))
            && (Str2Float(cell2, env.decimalSeparator).Some? ==>
                  Apply(OrmFloat(t), env, field, cell2, e.vals).vals[t] == Dec(Str2Float(cell2, env.decimalSeparator).value))
  {
    var sep := env.decimalSeparator;
    var e := Apply(OrmFloat(t), env, field, cell, vals);
    assert !AlreadySet(OrmFloat(t), vals);
    assert e == OrmEffect(OrmFloat(t), env, field, cell, vals);
    assert e == FloatEffect(t, Str2Float(cell, sep), IncorrectValue(cell, field, NumericKind), vals);
    assert !IsSet(e.vals, t);
    assert !AlreadySet(OrmFloat(t), e.vals);
    var e2 := OrmEffect(OrmFloat(t), env, field, cell2, e.vals);
    assert Apply(OrmFloat(t), env, field, cell2, e.vals) == e2;
    var x2 := Str2Float(cell2, sep);
    assert e2 == FloatEffect(t, x2, IncorrectValue(cell2, field, NumericKind), e.vals);
  }

  /** Debit and credit (301-313): a cell `str2float` rejects is stored as `False`, nothing
      is logged and the total gains 0; as the key is now present, a second debit column in
      the same row is ignored, so the row adds to the total at most once. */
  lemma AmountParseFailureIsSilent(h: Handler, env: Env, field: string, cell: string, cell2: string, vals: Vals)
    requires h.Debit? || h.Credit?
    requires Target(h) !in vals
    requires Str2Float(cell, env.decimalSeparator) == None
    ensures var e := Apply(h, env, field, cell, vals);
            e == Effect(vals[Target(h) := False], None, 0.0, 0.0)
            && Apply(h, env, field, cell2, e.vals) == Effect(e.vals, None, 0.0, 0.0)
  {
  }

  /** A debit or credit cell that parses is stored and added to its total. */
  lemma AmountCell(h: Handler, env: Env, field: string, cell: string, vals: Vals)
    requires h.Debit? || h.Credit?
    requires Target(h) !in vals
    requires Str2Float(cell, env.decimalSeparator).Some?
    ensures var x := Str2Float(cell, env.decimalSeparator).value;
            var e := Apply(h, env, field, cell, vals);
            e.vals == vals[Target(h) := Dec(x)] && e.error == None
            && (if h.Debit? then e.debit == x && e.credit == 0.0 else e.credit == x && e.debit == 0.0)
  {
  }

  /** Account, partner, product, tax code, analytic account and currency (291-299,
      315-431): one id sets the key, no match logs "not found" and several log "multiple
      found", the key staying unset in both cases. */
  lemma ReferenceCell(h: Handler, env: Env, field: string, cell: string, vals: Vals)
    requires IsReference(h)
    requires !IsSet(vals, Target(h))
    ensures var e := Apply(h, env, field, cell, vals);
            var r := Lookup(h, env, cell);
            (r.Found? <==> e.error.None?)
            && (r.Found? ==> e.vals == vals[Target(h) := Int(r.id)])
            && (r == NotFound ==> e == Failed(vals, RefNotFound(EntityOf(h, field), cell)))
            && (r == Ambiguous ==> e == Failed(vals, RefAmbiguous(EntityOf(h, field), cell)))
  {
  }

  /** An account code missing from the map logs exactly the one "not found" message. */
  lemma UnknownAccountCode(env: Env, field: string, cell: string, vals: Vals)
    requires !IsSet(vals, "account_id")
    requires cell !in env.accounts
    ensures Apply(Account, env, field, cell, vals) == Failed(vals, RefNotFound(AccountRef, cell))
  {
  }

  /** The due date (361-372) is stored as text only when it reads as `YYYY-MM-DD`. */
  lemma DateCell(env: Env, field: string, cell: string, vals: Vals)
    requires !IsSet(vals, "date_maturity")
    ensures var e := Apply(DateMaturity, env, field, cell, vals);
            if env.isDate(cell) then e.vals == vals["date_maturity" := Str(cell)] && e.error == None
            else e == Failed(vals, BadDate(field, cell))
  {
  }
}
