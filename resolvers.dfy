/** The lookup decisions of the reference handlers, over the id lists that the database
    searches return (a search is a parameter of the model: its result is given, in the
    order the database returns it). */
module Resolvers {
  /** What a lookup decides: one id to store, no match, or more than one match. */
  datatype Resolution = Found(id: int) | NotFound | Ambiguous

  /** Partner (315-337), product (339-359) and tax code (386-406): search by
      reference or code, and only when that finds nothing, search by name; then no hit
      is "not found", several hits are "multiple found" and one hit is the id. */
  function ByCodeThenName(byCode: seq<int>, byName: seq<int>): (r: Resolution)
    ensures r.Found? <==> |byCode| == 1 || (byCode == [] && |byName| == 1)
    ensures r.Found? && byCode != [] ==> r.id == byCode[0]
    ensures r.Found? && byCode == [] ==> r.id == byName[0]
    ensures r == NotFound <==> byCode == [] && byName == []
    ensures r == Ambiguous <==> |byCode| > 1 || (byCode == [] && |byName| > 1)
  {
    var ids := if byCode != [] then byCode else byName;
    if ids == [] then NotFound
    else if |ids| > 1 then Ambiguous
    else Found(ids[0])
  }

  /** The name search is never consulted once the code search has a hit. */
  lemma NameIgnoredWhenCodeHits(byCode: seq<int>, byName1: seq<int>, byName2: seq<int>)
    requires byCode != []
    ensures ByCodeThenName(byCode, byName1) == ByCodeThenName(byCode, byName2)
  {
  }

  /** Analytic account (408-431): the name search runs whenever the code search does not
      return exactly one hit, and the final verdict is taken on the name search alone. */
  function AnalyticDecision(byCode: seq<int>, byName: seq<int>): (r: Resolution)
    ensures r.Found? <==> |byCode| == 1 || |byName| == 1
    ensures r.Found? ==> r.id == (if |byCode| == 1 then byCode[0] else byName[0])
    ensures r == NotFound <==> |byCode| != 1 && byName == []
    ensures r == Ambiguous <==> |byCode| != 1 && |byName| > 1
  {
    if |byCode| == 1 then Found(byCode[0])
    else if |byName| == 1 then Found(byName[0])
    else if byName == [] then NotFound
    else Ambiguous
  }

  /** When the code search returns at most one hit, the analytic lookup decides like the
      other reference lookups. */
  lemma AnalyticAgreesOnFewCodeHits(byCode: seq<int>, byName: seq<int>)
    requires |byCode| <= 1
    ensures AnalyticDecision(byCode, byName) == ByCodeThenName(byCode, byName)
  {
  }

  /** Several code hits are not reported as ambiguous: the verdict is the name search's
      (so no name hit reads "invalid analytic account", one name hit is accepted), where
      the other lookups would report "multiple found". */
  lemma AnalyticSeveralCodeHits(byCode: seq<int>, byName: seq<int>)
    requires |byCode| > 1
    ensures ByCodeThenName(byCode, byName) == Ambiguous
    ensures AnalyticDecision(byCode, byName) == AnalyticDecision([], byName)
    ensures byName == [] ==> AnalyticDecision(byCode, byName) == NotFound
  {
  }

  /** Currency (374-384): the first `=ilike` match, never "multiple found". */
  function CurrencyDecision(byName: seq<int>): (r: Resolution)
    ensures r != Ambiguous
    ensures r.Found? <==> byName != []
    ensures r.Found? ==> r.id == byName[0]
  {
    if byName != [] then Found(byName[0]) else NotFound
  }

  /** One account of the company, as read from the database before the rows are. */
  datatype AccountEntry = AccountEntry(code: string, id: int)

  /** No later account in `accounts[..n]` has the code of `accounts[i]`. */
  ghost predicate LastWithCode(accounts: seq<AccountEntry>, n: nat, i: nat)
    requires i < n <= |accounts|
  {
    forall j :: i < j < n ==> accounts[j].code != accounts[i].code
  }

  /** The map the loop at 489-491 leaves after the given accounts, each one overwriting
      the entry of its code. */
  function AccountsMap(accounts: seq<AccountEntry>): map<string, int> {
    if accounts == [] then map[]
    else
      var last := accounts[|accounts| - 1];
      AccountsMap(accounts[..|accounts| - 1])[last.code := last.id]
  }

  /** After the first `n` accounts the map holds exactly their codes, each with the id of
      the last of them that has it. */
  lemma {:induction false} AccountsMapPrefix(accounts: seq<AccountEntry>, n: nat)
    requires n <= |accounts|
    ensures forall c :: c in AccountsMap(accounts[..n]) <==> exists i :: 0 <= i < n && accounts[i].code == c
    ensures forall i :: 0 <= i < n && LastWithCode(accounts, n, i) ==>
              AccountsMap(accounts[..n])[accounts[i].code] == accounts[i].id
  {
    if n > 0 {
      AccountsMapPrefix(accounts, n - 1);
      assert accounts[..n][..n - 1] == accounts[..n - 1];
      assert forall i :: 0 <= i < n - 1 && LastWithCode(accounts, n, i) ==> LastWithCode(accounts, n - 1, i);
    }
  }

  /** The code-to-id map built once before the rows are read (489-491): one entry per
      code, and for a code shared by several accounts, the id of the last one. */
  method BuildAccountsDict(accounts: seq<AccountEntry>) returns (d: map<string, int>)
    ensures d == AccountsMap(accounts)
    ensures forall c :: c in d <==> exists i :: 0 <= i < |accounts| && accounts[i].code == c
    ensures forall i :: 0 <= i < |accounts| && LastWithCode(accounts, |accounts|, i) ==>
              d[accounts[i].code] == accounts[i].id
  {
    d := map[];
    for n := 0 to |accounts|
      invariant d == AccountsMap(accounts[..n])
    {
      assert accounts[..n + 1][..n] == accounts[..n];
      d := d[accounts[n].code := accounts[n].id];
    }
    assert accounts[..|accounts|] == accounts;
    AccountsMapPrefix(accounts, |accounts|);
  }

  /** Account (291-299): the code is looked up in the map. */
  function AccountDecision(accounts: map<string, int>, code: string): (r: Resolution)
    ensures r != Ambiguous
    ensures r.Found? <==> code in accounts
    ensures r.Found? ==> r.id == accounts[code]
  {
    if code in accounts then Found(accounts[code]) else NotFound
  }
}
