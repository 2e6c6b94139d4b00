/** The module-level helpers `str2float` and `str2int`: a number written with a configured
    decimal separator is normalised to Python's notation and then parsed. Amounts are exact
    rationals here; the `False` that the helpers return on a parse error is `None`. */
module Numbers {
  import opened Wrappers
  import opened Strings

  predicate IsDigit(c: char) {
    '0' <= c <= '9'
  }

  predicate AllDigits(s: string) {
    forall i :: 0 <= i < |s| ==> IsDigit(s[i])
  }

  function DigitValue(c: char): nat
    requires IsDigit(c)
  {
    c as int - '0' as int
  }

  /** The value of a string of decimal digits, most significant first. */
  function DigitsValue(s: string): nat
    requires AllDigits(s)
  {
    if s == [] then 0 else DigitsValue(s[..|s| - 1]) * 10 + DigitValue(s[|s| - 1])
  }

  function Pow10(n: nat): (r: nat)
    ensures r >= 1
  {
    if n == 0 then 1 else 10 * Pow10(n - 1)
  }

  predicate HasSign(t: string) {
    t != [] && (t[0] == '-' || t[0] == '+')
  }

  function Unsigned(t: string): string {
    if HasSign(t) then t[1..] else t
  }

  /** Index of the first '.', or the length when there is none. */
  function DotIndex(s: string): (k: nat)
    ensures k <= |s|
    ensures forall i :: 0 <= i < k ==> s[i] != '.'
    ensures k < |s| ==> s[k] == '.'
  {
    if s == [] || s[0] == '.' then 0 else 1 + DotIndex(s[1..])
  }

  /** The digits of an integer literal: Python 2's `int()` skips white space after the
      sign as well as around the whole text. */
  function IntDigits(t: string): string {
    StripLeft(Unsigned(t))
  }

  /** What Python 2's `int()` accepts in base 10, once the ends are stripped: an optional
      sign, white space, then at least one digit. */
  predicate IsIntLiteral(t: string) {
    IntDigits(t) != [] && AllDigits(IntDigits(t))
  }

  /** What Python's `float()` accepts in positional notation, without a sign:
      digits with at most one '.', and at least one digit. */
  predicate IsUnsignedDecimal(u: string) {
    && (forall i :: 0 <= i < |u| ==> IsDigit(u[i]) || u[i] == '.')
    && (forall i, j :: 0 <= i < j < |u| && u[i] == '.' ==> u[j] != '.')
    && (exists i :: 0 <= i < |u| && IsDigit(u[i]))
  }

  /** The same with an optional leading sign, once the ends are stripped. */
  predicate IsDecimalLiteral(t: string) {
    IsUnsignedDecimal(Unsigned(t))
  }

  /** `int(text)`; `None` where Python raises ValueError. */
  function ParseInt(s: string): (r: Option<int>)
    ensures r.Some? <==> IsIntLiteral(Strip(s))
  {
    IntValue(Strip(s))
  }

  /** The value of stripped integer text. */
  function IntValue(t: string): (r: Option<int>)
    ensures r.Some? <==> IsIntLiteral(t)
  {
    var d := IntDigits(t);
    if d != [] && AllDigits(d) then
      Some(if HasSign(t) && t[0] == '-' then -(DigitsValue(d) as int) else DigitsValue(d))
    else None
  }

  /** `x / 10^k`, one decimal place at a time. */
  function Shift(x: real, k: nat): real {
    if k == 0 then x else Shift(x, k - 1) / 10.0
  }

  /** The value of `i.f` where `f` is written with `k` digits. */
  function FixedValue(i: nat, f: nat, k: nat): real {
    i as real + Shift(f as real, k)
  }

  function Signed(negative: bool, x: real): real {
    if negative then -x else x
  }

  function IntPart(u: string): string {
    u[..DotIndex(u)]
  }

  function FracPart(u: string): string {
    var k := DotIndex(u);
    if k < |u| then u[k + 1..] else []
  }

  predicate SplitsAsDecimal(u: string) {
    AllDigits(IntPart(u)) && AllDigits(FracPart(u)) && |IntPart(u)| + |FracPart(u)| > 0
  }

  /** `float(text)` on positional notation; `None` where Python raises ValueError. */
  function ParseFloat(s: string): (r: Option<real>)
    ensures r.Some? <==> IsDecimalLiteral(Strip(s))
  {
    FloatValue(Strip(s))
  }

  /** The value of stripped decimal text. */
  function FloatValue(t: string): (r: Option<real>)
    ensures r.Some? <==> IsDecimalLiteral(t)
  {
    var u := Unsigned(t);
    SplitIffDecimal(u);
    if SplitsAsDecimal(u) then
      var ip, fp := IntPart(u), FracPart(u);
      Some(Signed(HasSign(t) && t[0] == '-', FixedValue(DigitsValue(ip), DigitsValue(fp), |fp|)))
    else None
  }

  lemma SplitIffDecimal(u: string)
    ensures SplitsAsDecimal(u) <==> IsUnsignedDecimal(u)
  {
    if SplitsAsDecimal(u) { SplitIsDecimal(u); }
    if IsUnsignedDecimal(u) { DecimalSplits(u); }
  }

  lemma SplitIsDecimal(u: string)
    requires SplitsAsDecimal(u)
    ensures IsUnsignedDecimal(u)
  {
    var k := DotIndex(u);
    var ip, fp := IntPart(u), FracPart(u);
    forall i | 0 <= i < |u| ensures IsDigit(u[i]) || u[i] == '.' {
      if i < k { assert u[i] == ip[i]; }
      else if i > k { assert u[i] == fp[i - k - 1]; }
    }
    forall i, j | 0 <= i < j < |u| && u[i] == '.' ensures u[j] != '.' {
      assert i == k;
      assert u[j] == fp[j - k - 1];
    }
    if |ip| > 0 { assert u[0] == ip[0]; } else { assert u[k + 1] == fp[0]; }
  }

  lemma DecimalSplits(u: string)
    requires IsUnsignedDecimal(u)
    ensures SplitsAsDecimal(u)
  {
    var k := DotIndex(u);
    var ip, fp := IntPart(u), FracPart(u);
    forall i | 0 <= i < |ip| ensures IsDigit(ip[i]) { assert ip[i] == u[i]; }
    forall i | 0 <= i < |fp| ensures IsDigit(fp[i]) { assert fp[i] == u[k + 1 + i]; }
    var d :| 0 <= d < |u| && IsDigit(u[d]);
    if d < k { assert ip[d] == u[d]; } else if d > k { assert fp[d - k - 1] == u[d]; }
  }

  /** The normalisation both helpers apply before parsing: with '.' as decimal separator the
      commas (thousands) go; with any other setting the dots (thousands) go and the comma
      becomes Python's decimal point. */
  function Normalize(amount: string, decimalSeparator: char): (r: string)
    ensures |r| <= |amount|
    ensures ',' !in r
    ensures decimalSeparator == '.' ==> forall c :: c in r ==> c in amount
  {
    if decimalSeparator == '.' then RemoveChar(amount, ',')
    else ReplaceChar(RemoveChar(amount, '.'), ',', '.')
  }

  /** `str2float`: empty text is 0, text that does not parse is the sentinel, and
      nothing raises. */
  function Str2Float(amount: string, decimalSeparator: char): (r: Option<real>)
    ensures amount == [] ==> r == Some(0.0)
    ensures amount != [] ==> (r.Some? <==> IsDecimalLiteral(Strip(Normalize(amount, decimalSeparator))))
  {
    if amount == [] then Some(0.0)
    else ParseFloat(Normalize(amount, decimalSeparator))
  }

  /** `str2int`: the same normalisation, then an integer parse. */
  function Str2Int(amount: string, decimalSeparator: char): (r: Option<int>)
    ensures amount == [] ==> r == Some(0)
    ensures amount != [] ==> (r.Some? <==> IsIntLiteral(Strip(Normalize(amount, decimalSeparator))))
  {
    if amount == [] then Some(0)
    else ParseInt(Normalize(amount, decimalSeparator))
  }

  /** The amount the running totals add for a parse result: Python adds `False` as 0. */
  function AmountOf(r: Option<real>): real {
    if r.Some? then r.value else 0.0
  }

  // ---------------------------------------------------------------------------------
  // The two locales

  function SwapChar(c: char): char {
    if c == '.' then ',' else if c == ',' then '.' else c
  }

  /** The same number written in the other locale: every '.' and ',' exchanged. */
  function Swap(s: string): (r: string)
    ensures |r| == |s|
    ensures forall i :: 0 <= i < |s| ==> r[i] == SwapChar(s[i])
  {
    if s == [] then [] else [SwapChar(s[0])] + Swap(s[1..])
  }

  lemma {:induction false} RemoveSwapped(s: string)
    ensures RemoveChar(Swap(s), '.') == Swap(RemoveChar(s, ','))
  {
    if s != [] {
      RemoveSwapped(s[1..]);
      assert Swap(s)[1..] == Swap(s[1..]);
      if s[0] != ',' {
        assert RemoveChar(s, ',') == [s[0]] + RemoveChar(s[1..], ',');
      }
    }
  }

  /** Swapping a comma-free text and then turning its commas into dots restores it. */
  lemma ReplaceUnswaps(t: string)
    requires ',' !in t
    ensures ReplaceChar(Swap(t), ',', '.') == t
  {
    var r := ReplaceChar(Swap(t), ',', '.');
    forall i | 0 <= i < |t| ensures r[i] == t[i] {
      assert t[i] != ',';
    }
  }

  /** A number written with ',' as decimal separator and '.' for thousands normalises to the
      same text as the number written the other way round with '.' as separator: the two
      locales read the same value. */
  lemma SeparatorSymmetry(s: string)
    ensures Normalize(Swap(s), ',') == Normalize(s, '.')
    ensures Str2Float(Swap(s), ',') == Str2Float(s, '.')
    ensures Str2Int(Swap(s), ',') == Str2Int(s, '.')
  {
    RemoveSwapped(s);
    ReplaceUnswaps(RemoveChar(s, ','));
    assert Normalize(Swap(s), ',') == Normalize(s, '.');
    assert Swap(s) == [] <==> s == [];
  }

  /** Text holding a '.' is not an integer literal. */
  lemma DotIsNotInt(t: string)
    requires '.' in t
    ensures !IsIntLiteral(t)
  {
    var j :| 0 <= j < |t| && t[j] == '.';
    var u := Unsigned(t);
    var d := IntDigits(t);
    var k := if HasSign(t) then j - 1 else j;
    assert 0 <= k < |u| && u[k] == '.';
    assert !IsSpace(u[k]);
    assert d == u[|u| - |d|..];
    assert |u| - |d| <= k;
    assert d[k - (|u| - |d|)] == '.';
  }

  /** With ',' as decimal separator, a comma becomes the decimal point after stripping. */
  lemma CommaBecomesDot(s: string)
    requires ',' in s
    ensures '.' in Strip(Normalize(s, ','))
  {
    var removed := RemoveChar(s, '.');
    var t := ReplaceChar(removed, ',', '.');
    RemoveCharKeeps(s, '.', ',');
    var i :| 0 <= i < |removed| && removed[i] == ',';
    assert t[i] == '.';
    StripKeeps(t, '.');
  }

  /** With ',' as decimal separator a comma anywhere makes `str2int` fail: it becomes a
      decimal point, which `int()` rejects. */
  lemma DecimalCommaRejectsInteger(s: string)
    requires ',' in s
    ensures Str2Int(s, ',') == None
  {
    CommaBecomesDot(s);
    DotIsNotInt(Strip(Normalize(s, ',')));
  }

  lemma SplitsExample()
    ensures Strip("1234.56") == "1234.56" && Unsigned("1234.56") == "1234.56"
    ensures IntPart("1234.56") == "1234" && FracPart("1234.56") == "56"
  {
    StripNoSpace("1234.56");
    assert DotIndex("1234.56") == 4;
  }

  lemma DigitsExample()
    ensures AllDigits("1234") && DigitsValue("1234") == 1234
    ensures AllDigits("56") && DigitsValue("56") == 56
  {
    assert "1234"[..3] == "123" && "123"[..2] == "12" && "12"[..1] == "1" && "1"[..0] == "";
    assert "56"[..1] == "5" && "5"[..0] == "";
  }

  lemma ParsesExample()
    ensures ParseFloat("1234.56") == Some(1234.56)
  {
    SplitsExample();
    DigitsExample();
    assert Shift(56.0, 2) == 0.56;
  }

  lemma RejectsLetters(sep: char)
    ensures Str2Float("abc", sep) == None
  {
    assert RemoveChar("abc", ',') == "abc";
    assert RemoveChar("abc", '.') == "abc";
    assert ReplaceChar("abc", ',', '.') == "abc";
    StripNoSpace("abc");
    assert !IsDecimalLiteral("abc") by {
      assert Unsigned("abc") == "abc";
      assert !(IsDigit("abc"[0]) || "abc"[0] == '.');
    }
  }

  /** With '.' as decimal separator, a thousands comma between two comma-free pieces is
      dropped and nothing else changes. */
  lemma DropsThousands(a: string, b: string)
    requires ',' !in a && ',' !in b
    ensures Normalize(a + [','] + b, '.') == a + b
  {
    RemoveAbsent(a, ',');
    RemoveAbsent(b, ',');
    RemoveCharAppend(a, [','], ',');
    assert RemoveChar([','], ',') == [];
    assert RemoveChar(a + [','], ',') == a;
    RemoveCharAppend(a + [','], b, ',');
  }

  lemma SwapsExample()
    ensures Swap("1,234.56") == "1.234,56"
  {
  }

  /** The examples the importer's users type: "1.234,56" with a decimal comma and
      "1,234.56" with a decimal point are both 1234.56. */
  lemma LocaleExamples()
    ensures Str2Float("1,234.56", '.') == Some(1234.56)
    ensures Str2Float("1.234,56", ',') == Some(1234.56)
  {
    DropsThousands("1", "234.56");
    assert "1" + [','] + "234.56" == "1,234.56" && "1" + "234.56" == "1234.56";
    ParsesExample();
    SwapsExample();
    SeparatorSymmetry("1,234.56");
  }

  /** An empty cell is 0 and text that is not a number is the sentinel, in both locales. */
  lemma EdgeExamples()
    ensures Str2Float("", ',') == Some(0.0) && Str2Int("", '.') == Some(0)
    ensures Str2Float("abc", '.') == None && Str2Float("abc", ',') == None
  {
    RejectsLetters('.');
    RejectsLetters(',');
  }

  /** Leading white space before a non-space is what `StripLeft` drops. */
  lemma {:induction false} StripLeftSpaces(sp: string, d: string)
    requires forall i :: 0 <= i < |sp| ==> IsSpace(sp[i])
    requires d == [] || !IsSpace(d[0])
    ensures StripLeft(sp + d) == d
  {
    if sp == [] {
      assert sp + d == d;
    } else {
      assert (sp + d)[1..] == sp[1..] + d;
      StripLeftSpaces(sp[1..], d);
    }
  }

  /** Text without either separator is left alone by the normalisation. */
  lemma NormalizeNoSeparator(t: string, decimalSeparator: char)
    requires forall i :: 0 <= i < |t| ==> t[i] != ',' && t[i] != '.'
    ensures Normalize(t, decimalSeparator) == t
  {
    RemoveAbsent(t, ',');
    RemoveAbsent(t, '.');
    assert ReplaceChar(t, ',', '.') == t;
  }

  /** A minus sign, white space and digits hold no separator. */
  lemma SpacedNoSeparator(t: string, sp: string, d: string)
    requires t == ['-'] + sp + d
    requires forall i :: 0 <= i < |sp| ==> IsSpace(sp[i])
    requires AllDigits(d)
    ensures forall i :: 0 <= i < |t| ==> t[i] != ',' && t[i] != '.'
  {
    forall i | 0 <= i < |t| ensures t[i] != ',' && t[i] != '.' {
      if 0 < i <= |sp| { assert t[i] == sp[i - 1]; }
      if i > |sp| { assert t[i] == d[i - 1 - |sp|]; }
    }
  }

  /** ... and have nothing to strip; the sign is followed by the spaces and digits. */
  lemma SpacedShape(t: string, sp: string, d: string)
    requires t == ['-'] + sp + d
    requires d != [] && AllDigits(d)
    ensures Strip(t) == t && HasSign(t) && t[0] == '-' && Unsigned(t) == sp + d
  {
    assert t[|t| - 1] == d[|d| - 1];
    StripNoSpace(t);
    assert t[1..] == sp + d;
  }

  /** White space between the sign and the digits: `int()` accepts it, `float()` does not. */
  lemma SpaceAfterSign(sp: string, d: string, decimalSeparator: char)
    requires sp != [] && forall i :: 0 <= i < |sp| ==> IsSpace(sp[i])
    requires d != [] && AllDigits(d)
    ensures Str2Int(['-'] + sp + d, decimalSeparator) == Some(-(DigitsValue(d) as int))
    ensures Str2Float(['-'] + sp + d, decimalSeparator) == None
  {
    var t := ['-'] + sp + d;
    SpacedNoSeparator(t, sp, d);
    SpacedShape(t, sp, d);
    NormalizeNoSeparator(t, decimalSeparator);
    SpacedInt(t, sp, d);
    SpacedFloat(t, sp, d);
  }

  lemma SpacedInt(t: string, sp: string, d: string)
    requires forall i :: 0 <= i < |sp| ==> IsSpace(sp[i])
    requires d != [] && AllDigits(d)
    requires Strip(t) == t && HasSign(t) && t[0] == '-' && Unsigned(t) == sp + d
    ensures ParseInt(t) == Some(-(DigitsValue(d) as int))
  {
    StripLeftSpaces(sp, d);
    assert IntDigits(t) == d;
  }

  lemma SpacedFloat(t: string, sp: string, d: string)
    requires sp != [] && IsSpace(sp[0])
    requires Strip(t) == t && Unsigned(t) == sp + d
    ensures ParseFloat(t) == None
  {
    assert (sp + d)[0] == sp[0];
  }

  /** Leading white space, whatever follows, is what `StripLeft` drops. */
  lemma {:induction false} StripLeftSkips(sp: string, t: string)
    requires forall i :: 0 <= i < |sp| ==> IsSpace(sp[i])
    ensures StripLeft(sp + t) == StripLeft(t)
  {
    if sp == [] {
      assert sp + t == t;
    } else {
      assert (sp + t)[1..] == sp[1..] + t;
      StripLeftSkips(sp[1..], t);
    }
  }

  /** The normalisation leaves leading white space in place. */
  lemma NormalizeSpaces(sp: string, t: string, decimalSeparator: char)
    requires forall i :: 0 <= i < |sp| ==> IsSpace(sp[i])
    ensures Normalize(sp + t, decimalSeparator) == sp + Normalize(t, decimalSeparator)
  {
    assert ',' !in sp && '.' !in sp;
    RemoveCharAppend(sp, t, ',');
    RemoveAbsent(sp, ',');
    RemoveCharAppend(sp, t, '.');
    RemoveAbsent(sp, '.');
    var x := RemoveChar(t, '.');
    assert ReplaceChar(sp + x, ',', '.') == sp + ReplaceChar(x, ',', '.');
  }

  /** White space before a cell's text, including the separators U+001C to U+001F that a
      `unicode` string counts as white space, changes neither parse. */
  lemma LeadingSpaceIgnored(sp: string, s: string, decimalSeparator: char)
    requires forall i :: 0 <= i < |sp| ==> IsSpace(sp[i])
    requires s != []
    ensures Str2Float(sp + s, decimalSeparator) == Str2Float(s, decimalSeparator)
    ensures Str2Int(sp + s, decimalSeparator) == Str2Int(s, decimalSeparator)
  {
    NormalizeSpaces(sp, s, decimalSeparator);
    var n := Normalize(s, decimalSeparator);
    StripLeftSkips(sp, n);
    assert Strip(sp + n) == Strip(n);
    SameStripSameParse(sp + n, n);
    assert Str2Float(sp + s, decimalSeparator) == ParseFloat(sp + n);
    assert Str2Int(sp + s, decimalSeparator) == ParseInt(sp + n);
  }

  /** Both parses see only the stripped text. */
  lemma SameStripSameParse(a: string, b: string)
    requires Strip(a) == Strip(b)
    ensures ParseFloat(a) == ParseFloat(b) && ParseInt(a) == ParseInt(b)
  {
  }

  /** Plain digits read as their value. */
  lemma DigitsFloat(d: string, decimalSeparator: char)
    requires d != [] && AllDigits(d)
    ensures Str2Float(d, decimalSeparator) == Some(DigitsValue(d) as real)
  {
    NormalizeNoSeparator(d, decimalSeparator);
    ParseSigned(false, d);
    assert DotIndex(d) == |d|;
    assert IntPart(d) == d;
    assert DigitsValue(FracPart(d)) == 0;
  }

  /** Digits after any white space, the separators U+001C to U+001F included, read as
      their value. */
  lemma SpaceBeforeDigits(sp: string, d: string, decimalSeparator: char)
    requires forall i :: 0 <= i < |sp| ==> IsSpace(sp[i])
    requires d != [] && AllDigits(d)
    ensures Str2Float(sp + d, decimalSeparator) == Some(DigitsValue(d) as real)
  {
    LeadingSpaceIgnored(sp, d, decimalSeparator);
    DigitsFloat(d, decimalSeparator);
  }

  /** `"-\x1c5"` is -5 for `str2int`. */
  lemma UnitSeparatorInt()
    ensures Str2Int("-\U{1c}5", '.') == Some(-5)
  {
    SpaceAfterSign("\U{1c}", "5", '.');
    assert ['-'] + "\U{1c}" + "5" == "-\U{1c}5";
    assert DigitsValue("5") == 5 by { assert "5"[..0] == ""; }
  }

  // ---------------------------------------------------------------------------------
  // Fixed-point text and its value

  function DigitChar(d: nat): (c: char)
    requires d < 10
    ensures IsDigit(c) && DigitValue(c) == d
  {
    ('0' as int + d) as char
  }

  /** Decimal digits of a natural number, no leading zeros. */
  function ShowNat(n: nat): (r: string)
    ensures |r| >= 1 && AllDigits(r)
  {
    if n < 10 then [DigitChar(n)] else ShowNat(n / 10) + [DigitChar(n % 10)]
  }

  function Zeros(m: nat): (r: string)
    ensures |r| == m && forall i :: 0 <= i < m ==> r[i] == '0'
  {
    seq(m, i => '0')
  }

  /** `q + f / 10^k` (negated when `negative`) written with `k` fraction digits after a '.':
      the shape of an amount in a file produced with '.' as decimal separator. */
  function FormatDecimal(negative: bool, q: nat, f: nat, k: nat): string {
    var d := Joined(ShowNat(q), FracDigits(f, k), k > 0);
    if negative then "-" + d else d
  }

  function ZeroPad(s: string, k: nat): (r: string)
    requires AllDigits(s)
    ensures AllDigits(r) && |r| >= |s|
  {
    if |s| < k then Zeros(k - |s|) + s else s
  }

  lemma {:induction false} ShowNatValue(n: nat)
    ensures DigitsValue(ShowNat(n)) == n
  {
    if n >= 10 {
      ShowNatValue(n / 10);
      var s := ShowNat(n);
      assert s[..|s| - 1] == ShowNat(n / 10);
    }
  }

  lemma {:induction false} ShowNatLength(n: nat, k: nat)
    requires k >= 1 && n < Pow10(k)
    ensures |ShowNat(n)| <= k
  {
    if n >= 10 {
      ShowNatLength(n / 10, k - 1);
    }
  }

  lemma {:induction false} LeadingZeros(m: nat, s: string)
    requires AllDigits(s)
    ensures AllDigits(Zeros(m) + s) && DigitsValue(Zeros(m) + s) == DigitsValue(s)
  {
    var z := Zeros(m) + s;
    if s == [] {
      assert z == Zeros(m);
      ZerosValue(m);
    } else {
      LeadingZeros(m, s[..|s| - 1]);
      assert z[..|z| - 1] == Zeros(m) + s[..|s| - 1];
    }
  }

  lemma {:induction false} ZerosValue(m: nat)
    ensures AllDigits(Zeros(m)) && DigitsValue(Zeros(m)) == 0
  {
    if m > 0 {
      ZerosValue(m - 1);
      assert Zeros(m)[..m - 1] == Zeros(m - 1);
    }
  }

  lemma {:induction false} DotAfterDigits(a: string, b: string)
    requires AllDigits(a)
    ensures DotIndex(a + b) == |a| + DotIndex(b)
  {
    if a == [] {
      assert a + b == b;
    } else {
      var ab := a + b;
      assert ab[0] == a[0] && IsDigit(a[0]) && ab[0] != '.';
      assert ab[1..] == a[1..] + b;
      DotAfterDigits(a[1..], b);
      assert DotIndex(ab) == 1 + DotIndex(ab[1..]);
    }
  }

  function Joined(ip: string, fp: string, hasDot: bool): string {
    if hasDot then ip + "." + fp else ip
  }

  lemma SplitJoined(ip: string, fp: string, hasDot: bool)
    requires AllDigits(ip) && (!hasDot ==> fp == [])
    ensures IntPart(Joined(ip, fp, hasDot)) == ip && FracPart(Joined(ip, fp, hasDot)) == fp
  {
    var d := Joined(ip, fp, hasDot);
    if hasDot {
      DotAfterDigits(ip, "." + fp);
      assert d == ip + ("." + fp);
      assert d[|ip| + 1..] == fp;
    } else {
      DotAfterDigits(ip, []);
      assert ip + [] == ip;
    }
  }

  lemma ParseSigned(negative: bool, d: string)
    requires d != [] && IsDigit(d[0]) && IsDigit(d[|d| - 1])
    ensures var t := if negative then "-" + d else d;
            Strip(t) == t && Unsigned(t) == d && (HasSign(t) && t[0] == '-' <==> negative)
  {
    var t := if negative then "-" + d else d;
    StripNoSpace(t);
    if negative { assert t[1..] == d; }
  }

  lemma ParseFloatParts(t: string)
    requires Strip(t) == t && SplitsAsDecimal(Unsigned(t))
    ensures var u := Unsigned(t);
            ParseFloat(t) == Some(Signed(HasSign(t) && t[0] == '-',
              FixedValue(DigitsValue(IntPart(u)), DigitsValue(FracPart(u)), |FracPart(u)|)))
  {
  }

  function FracDigits(f: nat, k: nat): string {
    if k == 0 then [] else ZeroPad(ShowNat(f), k)
  }

  lemma FracDigitsValue(f: nat, k: nat)
    requires f < Pow10(k)
    ensures AllDigits(FracDigits(f, k))
    ensures DigitsValue(FracDigits(f, k)) == f && |FracDigits(f, k)| == k
  {
    ShowNatValue(f);
    if k > 0 {
      ShowNatLength(f, k);
      LeadingZeros(k - |ShowNat(f)|, ShowNat(f));
    } else {
      assert f == 0;
    }
  }

  lemma ParseJoined(negative: bool, ip: string, fp: string, hasDot: bool)
    requires AllDigits(ip) && AllDigits(fp) && |ip| >= 1 && (!hasDot ==> fp == [])
    requires var d := Joined(ip, fp, hasDot); IsDigit(d[|d| - 1])
    ensures var d := Joined(ip, fp, hasDot);
            ParseFloat(if negative then "-" + d else d)
            == Some(Signed(negative, FixedValue(DigitsValue(ip), DigitsValue(fp), |fp|)))
  {
    var d := Joined(ip, fp, hasDot);
    var t := if negative then "-" + d else d;
    ParseSigned(negative, d);
    SplitJoined(ip, fp, hasDot);
    ParseFloatParts(t);
  }

  /** Round trip: the fixed-point text of `q + f / 10^k` parses back to exactly that value. */
  lemma {:induction false} ParseFormatted(negative: bool, q: nat, f: nat, k: nat)
    requires f < Pow10(k)
    ensures ParseFloat(FormatDecimal(negative, q, f, k))
            == Some(Signed(negative, FixedValue(q, f, k)))
  {
    var ip := ShowNat(q);
    ShowNatValue(q);
    var fp := FracDigits(f, k);
    FracDigitsValue(f, k);
    var d := Joined(ip, fp, k > 0);
    assert IsDigit(d[|d| - 1]) by {
      if k > 0 { assert d[|d| - 1] == fp[|fp| - 1]; }
    }
    ParseJoined(negative, ip, fp, k > 0);
    assert |fp| == k;
    assert FormatDecimal(negative, q, f, k) == if negative then "-" + d else d;
  }

  /** The same value written in either locale reads back exactly through `str2float`. */
  lemma Str2FloatFormatted(negative: bool, q: nat, f: nat, k: nat)
    requires f < Pow10(k)
    ensures var x := Signed(negative, FixedValue(q, f, k));
            && Str2Float(FormatDecimal(negative, q, f, k), '.') == Some(x)
            && Str2Float(Swap(FormatDecimal(negative, q, f, k)), ',') == Some(x)
  {
    var t := FormatDecimal(negative, q, f, k);
    FormatHasNoComma(negative, q, f, k);
    RemoveAbsent(t, ',');
    ParseFormatted(negative, q, f, k);
    SeparatorSymmetry(t);
  }

  lemma FormatHasNoComma(negative: bool, q: nat, f: nat, k: nat)
    ensures ',' !in FormatDecimal(negative, q, f, k) && FormatDecimal(negative, q, f, k) != []
  {
    var t := FormatDecimal(negative, q, f, k);
    forall i | 0 <= i < |t| ensures t[i] != ',' {
      assert IsDigit(t[i]) || t[i] == '.' || t[i] == '-';
    }
  }

  /** The decimal text of an integer. */
  function ShowInt(n: int): string {
    if n < 0 then "-" + ShowNat(-n) else ShowNat(n)
  }

  lemma ParseShownInt(n: int)
    ensures ParseInt(ShowInt(n)) == Some(n)
  {
    var t := ShowInt(n);
    var mag: nat := if n < 0 then -n else n;
    var u := ShowNat(mag);
    ShowNatValue(mag);
    StripNoSpace(t);
    if n < 0 {
      assert t[1..] == u;
      assert Unsigned(t) == u;
    } else {
      assert IsDigit(t[0]);
      assert Unsigned(t) == u;
    }
  }

  lemma ShownIntHasNoSeparator(n: int)
    ensures ',' !in ShowInt(n) && '.' !in ShowInt(n)
  {
    var t := ShowInt(n);
    var u := if n < 0 then ShowNat(-n) else ShowNat(n);
    forall i | 0 <= i < |t| ensures t[i] != ',' && t[i] != '.' {
      if n < 0 && i > 0 { assert t[i] == u[i - 1]; }
      if n >= 0 { assert t[i] == u[i]; }
    }
  }

  /** Round trip for `str2int`: the decimal text of any integer parses back to it under
      either separator setting. */
  lemma Str2IntShown(n: int, decimalSeparator: char)
    ensures Str2Int(ShowInt(n), decimalSeparator) == Some(n)
  {
    var t := ShowInt(n);
    ShownIntHasNoSeparator(n);
    RemoveAbsent(t, ',');
    RemoveAbsent(t, '.');
    assert ReplaceChar(t, ',', '.') == t;
    assert Normalize(t, decimalSeparator) == t;
    ParseShownInt(n);
  }
}
