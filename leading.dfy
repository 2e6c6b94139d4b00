/** `_remove_leading_lines`: the file is read line by line, as `StringIO.next()` yields lines
    (each keeps its '\n'); leading lines that open with the CSV separator or '#' are skipped,
    the first other line, lower-cased, is the header, and the unread rest is the body. */
module Leading {
  import opened Wrappers
  import opened Strings
  import opened Stops

  /** Where the first line of `s` ends: just after its first '\n', or at the end of `s`. */
  function LineEnd(s: string): (e: nat)
    requires s != []
    ensures 1 <= e <= |s|
    ensures forall i :: 0 <= i < e - 1 ==> s[i] != '\n'
    ensures e < |s| ==> s[e - 1] == '\n'
  {
    if s[0] == '\n' || |s| == 1 then 1 else 1 + LineEnd(s[1..])
  }

  /** One step of the file iterator: the next line and the unread rest. */
  function NextLine(s: string): (r: (string, string))
    requires s != []
    ensures r.0 != [] && s == r.0 + r.1
  {
    (s[..LineEnd(s)], s[LineEnd(s)..])
  }

  /** The lines the iterator yields, in order. */
  function Lines(s: string): seq<string>
    decreases |s|
  {
    if s == [] then [] else [NextLine(s).0] + Lines(NextLine(s).1)
  }

  function Concat(ls: seq<string>): string {
    if ls == [] then [] else ls[0] + Concat(ls[1..])
  }

  /** Splitting into lines loses nothing: the lines put back together are the text. */
  lemma {:induction false} LinesConcat(s: string)
    ensures Concat(Lines(s)) == s
    decreases |s|
  {
    if s != [] {
      var (ln, rest) := NextLine(s);
      LinesConcat(rest);
      assert Lines(s)[1..] == Lines(rest);
    }
  }

  /** Line `k` of `ls` is non-empty and holds at most one '\n', at its end; only the last
      line may lack it. */
  predicate LineShaped(ls: seq<string>, k: nat)
    requires k < |ls|
  {
    && ls[k] != []
    && (forall i :: 0 <= i < |ls[k]| - 1 ==> ls[k][i] != '\n')
    && (k < |ls| - 1 ==> ls[k][|ls[k]| - 1] == '\n')
  }

  /** The line `NextLine` reads has no '\n' but possibly its last character, which is one
      unless the text ends there. */
  lemma NextLineShape(s: string)
    requires s != []
    ensures var (ln, rest) := NextLine(s);
            (forall i :: 0 <= i < |ln| - 1 ==> ln[i] != '\n')
            && (rest != [] ==> ln[|ln| - 1] == '\n')
  {
    var e := LineEnd(s);
    var ln := s[..e];
    forall i | 0 <= i < |ln| - 1 ensures ln[i] != '\n' {
      assert ln[i] == s[i];
    }
  }

  /** Every line the iterator yields has that shape. */
  lemma {:induction false} LinesShape(s: string)
    ensures forall k :: 0 <= k < |Lines(s)| ==> LineShaped(Lines(s), k)
    decreases |s|
  {
    if s != [] {
      var (ln, rest) := NextLine(s);
      LinesShape(rest);
      var ls := Lines(s);
      LinesStep(ls, 0, s);
      forall k | 0 <= k < |ls|
        ensures LineShaped(ls, k)
      {
        if k > 0 {
          assert ls[k] == Lines(rest)[k - 1] && LineShaped(Lines(rest), k - 1);
        } else {
          NextLineShape(s);
          assert ls[0] == ln && (|ls| > 1 ==> rest != []);
        }
      }
    }
  }

  /** The test at line 88: a line is passed over when it is empty or opens with the CSV
      separator or '#'. */
  predicate Skippable(line: string, separator: char) {
    line == [] || line[0] == separator || line[0] == '#'
  }

  /** Index of the first line that is not skipped, or the number of lines. */
  function FirstHeaderLine(ls: seq<string>, separator: char): (k: nat)
    ensures k <= |ls|
    ensures forall j :: 0 <= j < k ==> Skippable(ls[j], separator)
    ensures k < |ls| ==> !Skippable(ls[k], separator)
  {
    if ls == [] || !Skippable(ls[0], separator) then 0
    else 1 + FirstHeaderLine(ls[1..], separator)
  }

  /** Reading one more line of `rest`, which holds lines `i..` of the file, yields line
      `i` and leaves lines `i + 1..`. */
  lemma LinesStep(ls: seq<string>, i: nat, rest: string)
    requires rest != [] && i <= |ls| && ls[i..] == Lines(rest)
    ensures i < |ls| && ls[i] == NextLine(rest).0 && ls[i + 1..] == Lines(NextLine(rest).1)
  {
    assert Lines(rest) == [NextLine(rest).0] + Lines(NextLine(rest).1);
    assert ls[i..][0] == ls[i] && ls[i + 1..] == ls[i..][1..];
  }

  /** The first line that is not skipped, found by walking past skippable ones. */
  lemma FirstHeaderLineAt(ls: seq<string>, separator: char, i: nat)
    requires i <= |ls|
    requires forall j :: 0 <= j < i ==> Skippable(ls[j], separator)
    requires i < |ls| ==> !Skippable(ls[i], separator)
    ensures FirstHeaderLine(ls, separator) == i
  {
  }

  /** Returns `(body, header)`: the text after the header line, and the header line
      lower-cased, still holding its line break. */
  method RemoveLeadingLines(input: string, separator: char) returns (r: Result<(string, string), Fatal>)
    ensures var ls := Lines(input);
            var k := FirstHeaderLine(ls, separator);
            if k == |ls| then r == Err(NoHeader)
            else r == Ok((Concat(ls[k + 1..]), Lower(ls[k])))
  {
    ghost var ls := Lines(input);
    var rest := input;
    ghost var i := 0;
    while rest != []
      invariant 0 <= i <= |ls|
      invariant forall j :: 0 <= j < i ==> Skippable(ls[j], separator)
      invariant ls[i..] == Lines(rest)
      decreases |rest|
    {
      LinesStep(ls, i, rest);
      var (ln, next) := NextLine(rest);
      if !Skippable(ln, separator) {
        FirstHeaderLineAt(ls, separator, i);
        LinesConcat(next);
        return Ok((next, Lower(ln)));
      }
      rest := next;
      i := i + 1;
    }
    FirstHeaderLineAt(ls, separator, i);
    r := Err(NoHeader);
  }
}
