/** The line diff behind the local change preview (local-diff-preview.ts).

    `DiffLines` fills a longest-common-subsequence table in place and walks it
    greedily. The table is specified by `Lcs`, the walk by `Script`; the lemmas
    measure both against all common subsequences and all edit scripts. */
module LineDiff {
  import Protocol

  datatype LineKind = Added | Removed | Context

  datatype DiffLine = DiffLine(kind: LineKind, text: string)

  newtype Uint16 = x: int | 0 <= x < 0x1_0000

  // ----- Subsequences and the length recurrence -----

  ghost predicate IsSubsequence(c: seq<string>, s: seq<string>)
    decreases |s|
  {
    c == [] || (s != [] && ((c[0] == s[0] && IsSubsequence(c[1..], s[1..])) || IsSubsequence(c, s[1..])))
  }

  ghost predicate IsCommonSubsequence(c: seq<string>, a: seq<string>, b: seq<string>) {
    IsSubsequence(c, a) && IsSubsequence(c, b)
  }

  /** The recurrence the table stores: the cell of the suffixes from `i` and `j`. */
  function Lcs(a: seq<string>, b: seq<string>, i: nat, j: nat): nat
    requires i <= |a| && j <= |b|
    decreases |a| - i + |b| - j
  {
    if i == |a| || j == |b| then 0
    else if a[i] == b[j] then Lcs(a, b, i + 1, j + 1) + 1
    else Max(Lcs(a, b, i + 1, j), Lcs(a, b, i, j + 1))
  }

  function Max(x: nat, y: nat): nat {
    if x < y then y else x
  }

  lemma {:induction false} SubsequenceTail(c: seq<string>, s: seq<string>)
    requires c != [] && IsSubsequence(c, s)
    ensures IsSubsequence(c[1..], s)
    decreases |s|
  {
    if c[0] == s[0] && IsSubsequence(c[1..], s[1..]) {
      SubsequenceWeaken(c[1..], s);
    } else {
      SubsequenceTail(c, s[1..]);
      SubsequenceWeaken(c[1..], s);
    }
  }

  lemma SubsequenceWeaken(c: seq<string>, s: seq<string>)
    requires s != [] && IsSubsequence(c, s[1..])
    ensures IsSubsequence(c, s)
  {
  }

  /** Dropping one element of either side costs at most one. */
  lemma {:induction false} LcsStep(a: seq<string>, b: seq<string>, i: nat, j: nat)
    requires i <= |a| && j <= |b|
    ensures i < |a| ==> Lcs(a, b, i + 1, j) <= Lcs(a, b, i, j) <= Lcs(a, b, i + 1, j) + 1
    ensures j < |b| ==> Lcs(a, b, i, j + 1) <= Lcs(a, b, i, j) <= Lcs(a, b, i, j + 1) + 1
    decreases |a| - i + |b| - j
  {
    if i < |a| && j < |b| {
      LcsStep(a, b, i + 1, j);
      LcsStep(a, b, i, j + 1);
      LcsStep(a, b, i + 1, j + 1);
    }
  }

  /** No common subsequence of the suffixes is longer than their cell says. */
  lemma {:induction false} LcsIsUpperBound(c: seq<string>, a: seq<string>, b: seq<string>, i: nat, j: nat)
    requires i <= |a| && j <= |b| && IsCommonSubsequence(c, a[i..], b[j..])
    ensures |c| <= Lcs(a, b, i, j)
    decreases |a| - i + |b| - j
  {
    if c != [] {
      assert a[i..][1..] == a[i + 1..] && b[j..][1..] == b[j + 1..];
      LcsStep(a, b, i, j);
      if c[0] == a[i] == b[j] {
        TailOfBoth(c, a[i..], b[j..]);
        LcsIsUpperBound(c[1..], a, b, i + 1, j + 1);
      } else if c[0] != a[i] {
        LcsIsUpperBound(c, a, b, i + 1, j);
      } else {
        LcsIsUpperBound(c, a, b, i, j + 1);
      }
    }
  }

  lemma TailOfBoth(c: seq<string>, a: seq<string>, b: seq<string>)
    requires c != [] && IsCommonSubsequence(c, a, b)
    ensures IsCommonSubsequence(c[1..], a[1..], b[1..])
  {
    if !IsSubsequence(c[1..], a[1..]) { SubsequenceTail(c, a[1..]); }
    if !IsSubsequence(c[1..], b[1..]) { SubsequenceTail(c, b[1..]); }
  }

  // ----- Edit scripts -----

  /** The lines of a script that the old text consists of. */
  function OldSide(script: seq<DiffLine>): seq<string> {
    if script == [] then []
    else (if script[0].kind == Added then [] else [script[0].text]) + OldSide(script[1..])
  }

  /** The lines of a script that the new text consists of. */
  function NewSide(script: seq<DiffLine>): seq<string> {
    if script == [] then []
    else (if script[0].kind == Removed then [] else [script[0].text]) + NewSide(script[1..])
  }

  function ChangedLines(script: seq<DiffLine>): nat {
    if script == [] then 0
    else (if script[0].kind == Context then 0 else 1) + ChangedLines(script[1..])
  }

  ghost predicate Transforms(script: seq<DiffLine>, before: seq<string>, after: seq<string>) {
    OldSide(script) == before && NewSide(script) == after
  }

  function ContextSide(script: seq<DiffLine>): seq<string> {
    if script == [] then []
    else (if script[0].kind == Context then [script[0].text] else []) + ContextSide(script[1..])
  }

  lemma FirstLine(script: seq<DiffLine>)
    requires script != []
    ensures var line, rest := script[0], script[1..];
            && OldSide(script) == (if line.kind == Added then OldSide(rest) else [line.text] + OldSide(rest))
            && NewSide(script) == (if line.kind == Removed then NewSide(rest) else [line.text] + NewSide(rest))
            && ContextSide(script) ==
               (if line.kind == Context then [line.text] + ContextSide(rest) else ContextSide(rest))
            && ChangedLines(script) == ChangedLines(rest) + if line.kind == Context then 0 else 1
  {
  }

  /** The kept lines of any script are common to both of its sides. */
  lemma {:induction false} ContextIsCommon(script: seq<DiffLine>)
    ensures IsCommonSubsequence(ContextSide(script), OldSide(script), NewSide(script))
    ensures ChangedLines(script) == |OldSide(script)| + |NewSide(script)| - 2 * |ContextSide(script)|
  {
    if script != [] {
      FirstLine(script);
      ContextIsCommon(script[1..]);
      var text, old_, new_, kept :=
        script[0].text, OldSide(script[1..]), NewSide(script[1..]), ContextSide(script[1..]);
      hide OldSide, NewSide, ContextSide, ChangedLines;
      assert ([text] + old_)[1..] == old_ && ([text] + new_)[1..] == new_ && ([text] + kept)[1..] == kept;
    }
  }

  /** The script of the greedy walk from a position: keep equal lines, otherwise
      drop the side whose rest has the longer common subsequence, preferring removals. */
  function Script(before: seq<string>, after: seq<string>, i: nat, j: nat): seq<DiffLine>
    requires i <= |before| && j <= |after|
    decreases |before| - i + |after| - j
  {
    if i == |before| && j == |after| then []
    else if i < |before| && j < |after| && before[i] == after[j] then
      [DiffLine(Context, before[i])] + Script(before, after, i + 1, j + 1)
    else if i < |before| && (j == |after| || Lcs(before, after, i + 1, j) >= Lcs(before, after, i, j + 1)) then
      [DiffLine(Removed, before[i])] + Script(before, after, i + 1, j)
    else
      [DiffLine(Added, after[j])] + Script(before, after, i, j + 1)
  }

  function FullScript(before: seq<string>, after: seq<string>): seq<DiffLine> {
    Script(before, after, 0, 0)
  }

  lemma {:induction false} ScriptIsExact(before: seq<string>, after: seq<string>, i: nat, j: nat)
    requires i <= |before| && j <= |after|
    ensures Transforms(Script(before, after, i, j), before[i..], after[j..])
    ensures ChangedLines(Script(before, after, i, j)) == |before| - i + |after| - j - 2 * Lcs(before, after, i, j)
    decreases |before| - i + |after| - j
  {
    if i < |before| { assert before[i..] == [before[i]] + before[i + 1..]; }
    if j < |after| { assert after[j..] == [after[j]] + after[j + 1..]; }
    if i == |before| && j == |after| {
    } else if i < |before| && j < |after| && before[i] == after[j] {
      ScriptIsExact(before, after, i + 1, j + 1);
      ConsScript(DiffLine(Context, before[i]), Script(before, after, i + 1, j + 1));
    } else if i < |before| && (j == |after| || Lcs(before, after, i + 1, j) >= Lcs(before, after, i, j + 1)) {
      ScriptIsExact(before, after, i + 1, j);
      ConsScript(DiffLine(Removed, before[i]), Script(before, after, i + 1, j));
    } else {
      ScriptIsExact(before, after, i, j + 1);
      ConsScript(DiffLine(Added, after[j]), Script(before, after, i, j + 1));
    }
  }

  lemma ConsScript(line: DiffLine, rest: seq<DiffLine>)
    ensures OldSide([line] + rest) == (if line.kind == Added then [] else [line.text]) + OldSide(rest)
    ensures NewSide([line] + rest) == (if line.kind == Removed then [] else [line.text]) + NewSide(rest)
    ensures ChangedLines([line] + rest) == (if line.kind == Context then 0 else 1) + ChangedLines(rest)
  {
    assert ([line] + rest)[1..] == rest;
  }

  /** Optimality of the walk: it turns the old text into the new one, and no
      script that does so changes fewer lines. */
  lemma ScriptIsMinimal(before: seq<string>, after: seq<string>, other: seq<DiffLine>)
    requires Transforms(other, before, after)
    ensures Transforms(FullScript(before, after), before, after)
    ensures ChangedLines(FullScript(before, after)) <= ChangedLines(other)
  {
    hide Script, Lcs;
    ScriptIsExact(before, after, 0, 0);
    ContextIsCommon(other);
    LcsIsUpperBound(ContextSide(other), before, after, 0, 0);
  }

  /** Every cell is the maximum over all common subsequences of its two suffixes. */
  lemma CellIsMaximum(before: seq<string>, after: seq<string>, i: nat, j: nat)
    requires i <= |before| && j <= |after|
    ensures exists c :: IsCommonSubsequence(c, before[i..], after[j..]) && |c| == Lcs(before, after, i, j)
    ensures forall c :: IsCommonSubsequence(c, before[i..], after[j..]) ==> |c| <= Lcs(before, after, i, j)
  {
    var script := Script(before, after, i, j);
    ScriptIsExact(before, after, i, j);
    ContextIsCommon(script);
    assert IsCommonSubsequence(ContextSide(script), before[i..], after[j..]);
    forall c | IsCommonSubsequence(c, before[i..], after[j..])
      ensures |c| <= Lcs(before, after, i, j)
    {
      LcsIsUpperBound(c, before, after, i, j);
    }
  }

  /** The script changes no line exactly when the texts have the same lines. */
  lemma UnchangedIff(before: seq<string>, after: seq<string>)
    ensures ChangedLines(FullScript(before, after)) == 0 <==> before == after
  {
    ScriptIsExact(before, after, 0, 0);
    if before == after {
      SelfScript(before, 0);
    } else if ChangedLines(FullScript(before, after)) == 0 {
      NoChangesMeansEqualSides(FullScript(before, after));
    }
  }

  lemma {:induction false} SelfScript(s: seq<string>, i: nat)
    requires i <= |s|
    ensures ChangedLines(Script(s, s, i, i)) == 0
    decreases |s| - i
  {
    if i < |s| {
      SelfScript(s, i + 1);
      assert Script(s, s, i, i)[1..] == Script(s, s, i + 1, i + 1);
    }
  }

  lemma {:induction false} NoChangesMeansEqualSides(script: seq<DiffLine>)
    requires ChangedLines(script) == 0
    ensures OldSide(script) == NewSide(script)
  {
    if script != [] {
      NoChangesMeansEqualSides(script[1..]);
    }
  }

  lemma {:induction false} LcsBounds(a: seq<string>, b: seq<string>, i: nat, j: nat)
    requires i <= |a| && j <= |b|
    ensures Lcs(a, b, i, j) <= |a| - i && Lcs(a, b, i, j) <= |b| - j
    decreases |a| - i + |b| - j
  {
    if i < |a| && j < |b| {
      LcsBounds(a, b, i + 1, j + 1);
      LcsBounds(a, b, i + 1, j);
      LcsBounds(a, b, i, j + 1);
    }
  }

  // ----- The table and the walk -----

  /** Fill the table from the last cell to the first; no entry overflows 16 bits. */
  method FillTable(before: seq<string>, after: seq<string>) returns (table: array2<Uint16>)
    requires |before| < 0x1_0000
    ensures table.Length0 == |before| + 1 && table.Length1 == |after| + 1
    ensures forall i, j {:trigger table[i, j]} :: 0 <= i <= |before| && 0 <= j <= |after| ==>
                             table[i, j] as int == Lcs(before, after, i, j)
  {
    table := new Uint16[|before| + 1, |after| + 1]((_, _) => 0);
    var i := |before|;
    while i > 0
      invariant 0 <= i <= |before|
      invariant forall k, l {:trigger table[k, l]} :: i <= k <= |before| && 0 <= l <= |after| ==>
                                 table[k, l] as int == Lcs(before, after, k, l)
      invariant forall k :: 0 <= k <= |before| ==> table[k, |after|] == 0
    {
      i := i - 1;
      var j := |after|;
      while j > 0
        invariant 0 <= j <= |after|
        invariant forall k, l {:trigger table[k, l]} :: i < k <= |before| && 0 <= l <= |after| ==>
                                   table[k, l] as int == Lcs(before, after, k, l)
        invariant forall l {:trigger table[i, l]} :: j <= l <= |after| ==>
                    table[i, l] as int == Lcs(before, after, i, l)
        invariant forall k :: 0 <= k <= |before| ==> table[k, |after|] == 0
      {
        j := j - 1;
        LcsBounds(before, after, i, j);
        table[i, j] :=
          if before[i] == after[j] then table[i + 1, j + 1] + 1
          else if table[i + 1, j] < table[i, j + 1] then table[i, j + 1]
          else table[i + 1, j];
      }
    }
  }

  method DiffLines(before: seq<string>, after: seq<string>) returns (result: seq<DiffLine>)
    requires |before| < 0x1_0000
    ensures result == FullScript(before, after)
  {
    var table := FillTable(before, after);
    result := [];
    var i, j := 0, 0;
    while i < |before| || j < |after|
      invariant 0 <= i <= |before| && 0 <= j <= |after|
      invariant forall k, l {:trigger table[k, l]} :: 0 <= k <= |before| && 0 <= l <= |after| ==>
                                 table[k, l] as int == Lcs(before, after, k, l)
      invariant result + Script(before, after, i, j) == FullScript(before, after)
      decreases |before| - i + |after| - j
    {
      ghost var rest := Script(before, after, i, j);
      var line: DiffLine;
      if i < |before| && j < |after| && before[i] == after[j] {
        line := DiffLine(Context, before[i]);
        i, j := i + 1, j + 1;
      } else if i < |before| && (j == |after| || table[i + 1, j] >= table[i, j + 1]) {
        line := DiffLine(Removed, before[i]);
        i := i + 1;
      } else {
        line := DiffLine(Added, after[j]);
        j := j + 1;
      }
      assert rest == [line] + Script(before, after, i, j);
      Push(result, line, Script(before, after, i, j));
      result := result + [line];
    }
  }

  lemma Push(done: seq<DiffLine>, line: DiffLine, rest: seq<DiffLine>)
    ensures (done + [line]) + rest == done + ([line] + rest)
  {
  }

  // ----- Splitting a document into lines -----

  /** Every `\r\n` and every lone `\r` becomes `\n`. */
  function Normalised(text: string): string {
    if text == "" then ""
    else if text[0] == '\r' then
      "\n" + Normalised(if |text| > 1 && text[1] == '\n' then text[2..] else text[1..])
    else [text[0]] + Normalised(text[1..])
  }

  /** `split("\n")`: one piece more than there are separators. */
  function Split(text: string): (pieces: seq<string>)
    ensures |pieces| > 0
  {
    if text == "" then [""]
    else
      var rest := Split(text[1..]);
      if text[0] == '\n' then [""] + rest else [[text[0]] + rest[0]] + rest[1..]
  }

  function LinesOf(value: string): seq<string> {
    var normalised := Normalised(value);
    if normalised == "" then []
    else
      var lines := Split(normalised);
      if lines[|lines| - 1] == "" then lines[..|lines| - 1] else lines
  }

  ghost predicate OneLine(line: string) {
    '\n' !in line && '\r' !in line
  }

  function Terminated(lines: seq<string>, terminator: string): string {
    if lines == [] then "" else lines[0] + terminator + Terminated(lines[1..], terminator)
  }

  lemma {:induction false} NormaliseLine(line: string, rest: string)
    requires OneLine(line)
    ensures Normalised(line + rest) == line + Normalised(rest)
  {
    if line == "" {
      assert line + rest == rest;
    } else {
      NormaliseLine(line[1..], rest);
      assert (line + rest)[1..] == line[1..] + rest;
    }
  }

  lemma {:induction false} SplitLine(line: string, rest: string)
    requires OneLine(line)
    ensures Split(line + rest) == [line + Split(rest)[0]] + Split(rest)[1..]
  {
    if line == "" {
      assert line + rest == rest;
      assert "" + Split(rest)[0] == Split(rest)[0];
    } else {
      SplitLine(line[1..], rest);
      hide OneLine;
      var first, others := Split(rest)[0], Split(rest)[1..];
      assert (line + rest)[1..] == line[1..] + rest && (line + rest)[0] == line[0];
      var inner := Split(line[1..] + rest);
      assert inner[0] == line[1..] + first && inner[1..] == others;
      assert [line[0]] + (line[1..] + first) == line + first;
    }
  }

  lemma NormaliseBreak(terminator: string, rest: string)
    requires terminator in {"\n", "\r\n", "\r"}
    requires terminator == "\r" && rest != "" ==> rest[0] != '\n'
    ensures Normalised(terminator + rest) == "\n" + Normalised(rest)
  {
    if terminator == "\r\n" {
      assert (terminator + rest)[2..] == rest;
    } else {
      assert (terminator + rest)[1..] == rest;
    }
  }

  /** Text made of terminated lines starts with a line feed only if a line feed ends its first line. */
  lemma TerminatedStart(lines: seq<string>, terminator: string, tail: string)
    requires terminator == "\r"
    requires OneLine(tail) && forall line :: line in lines ==> OneLine(line)
    ensures var text := Terminated(lines, terminator) + tail; text != "" ==> text[0] != '\n'
  {
    if lines == [] {
      assert Terminated(lines, terminator) + tail == tail;
    } else if lines[0] == "" {
      assert (Terminated(lines, terminator) + tail)[0] == '\r';
    } else {
      assert lines[0] in lines && lines[0][0] in lines[0];
      assert (Terminated(lines, terminator) + tail)[0] == lines[0][0];
    }
  }

  lemma {:induction false} NormaliseTerminated(lines: seq<string>, terminator: string, tail: string)
    requires terminator in {"\n", "\r\n", "\r"}
    requires OneLine(tail) && forall line :: line in lines ==> OneLine(line)
    ensures Normalised(Terminated(lines, terminator) + tail) == Terminated(lines, "\n") + tail
  {
    if lines == [] {
      NormaliseLine(tail, "");
      assert tail + "" == tail && "" + tail == tail;
    } else {
      NormaliseTerminated(lines[1..], terminator, tail);
      var rest := Terminated(lines[1..], terminator) + tail;
      if terminator == "\r" { TerminatedStart(lines[1..], terminator, tail); }
      TerminatedCons(lines, terminator, tail);
      TerminatedCons(lines, "\n", tail);
      NormaliseBreak(terminator, rest);
      NormaliseLine(lines[0], terminator + rest);
    }
  }

  lemma TerminatedCons(lines: seq<string>, terminator: string, tail: string)
    requires lines != []
    ensures Terminated(lines, terminator) + tail == lines[0]
            + (terminator + (Terminated(lines[1..], terminator) + tail))
  {
  }

  lemma {:induction false} SplitTerminated(lines: seq<string>, tail: string)
    requires OneLine(tail) && forall line :: line in lines ==> OneLine(line)
    ensures Split(Terminated(lines, "\n") + tail) == lines + [tail]
  {
    if lines == [] {
      SplitLine(tail, "");
      assert tail + "" == tail && "" + tail == tail;
    } else {
      SplitTerminated(lines[1..], tail);
      var rest := Terminated(lines[1..], "\n") + tail;
      SplitLine(lines[0], "\n" + rest);
      TerminatedCons(lines, "\n", tail);
      assert ("\n" + rest)[1..] == rest;
      assert Split("\n" + rest) == [""] + Split(rest);
      assert lines[0] + "" == lines[0];
      assert lines + [tail] == [lines[0]] + (lines[1..] + [tail]);
    }
  }

  /** Splitting undoes terminating, whatever the line terminator; an unterminated
      last line is kept and no phantom empty line appears. */
  lemma LinesRoundTrip(lines: seq<string>, terminator: string, tail: string)
    requires terminator in {"\n", "\r\n", "\r"}
    requires OneLine(tail) && forall line :: line in lines ==> OneLine(line)
    ensures LinesOf(Terminated(lines, terminator) + tail) == lines + (if tail == "" then [] else [tail])
  {
    NormaliseTerminated(lines, terminator, tail);
    SplitTerminated(lines, tail);
    assert lines != [] ==> Terminated(lines, "\n") != "";
    assert (lines + [tail])[..|lines|] == lines;
  }

  // ----- The bounded preview -----

  datatype Preview = Preview(path: string, changedLines: nat, truncated: bool, lines: seq<DiffLine>)

  const MAX_INPUT_CHARACTERS := 24_000
  const MAX_INPUT_LINES := 240
  const MAX_OUTPUT_LINES := 14
  const CONTEXT_LINES := 2

  const NOTICE := DiffLine(Context, "Large local change detected — preview intentionally limited.")

  predicate TooLarge(savedText: string, currentText: string) {
    |savedText| > MAX_INPUT_CHARACTERS || |currentText| > MAX_INPUT_CHARACTERS
    || |LinesOf(savedText)| > MAX_INPUT_LINES || |LinesOf(currentText)| > MAX_INPUT_LINES
  }

  /** The first changed line of a script and the end of its change block. */
  ghost predicate IsFirstBlock(script: seq<DiffLine>, first: nat, end: nat) {
    first < end <= |script|
    && (forall k :: 0 <= k < first ==> script[k].kind == Context)
    && (forall k :: first <= k < end ==> script[k].kind != Context)
    && (end < |script| ==> script[end].kind == Context)
  }

  /** What of the script the preview shows when its first block is `first..end`. */
  function VisibleStart(first: nat): nat {
    if first < CONTEXT_LINES then 0 else first - CONTEXT_LINES
  }

  function VisibleEnd(script: seq<DiffLine>, first: nat, end: nat): int {
    Min(Min(|script|, end + CONTEXT_LINES), VisibleStart(first) + MAX_OUTPUT_LINES)
  }

  /** A pair of texts is compared only if each has at most 24,000 characters and 240 lines. */
  lemma ComparedIff(savedText: string, currentText: string)
    ensures !TooLarge(savedText, currentText) <==>
            forall text :: text in {savedText, currentText} ==> |text| <= 24_000 && |LinesOf(text)| <= 240
  {
    hide LinesOf;
  }

  /** A line is shown if it is in the block or at most two lines away from it, and among the first
      fourteen such lines. */
  lemma ShownIff(script: seq<DiffLine>, first: nat, end: nat, k: int)
    requires IsFirstBlock(script, first, end)
    ensures VisibleStart(first) <= k < VisibleEnd(script, first, end) <==>
            && 0 <= k < |script| && -2 <= k - first && k - end < 2
            && (k < 14 || k - first < 12)
  {
  }

  ghost predicate Displays(shown: seq<DiffLine>, lines: seq<DiffLine>, displayLine: string -> string) {
    |shown| == |lines|
    && forall k :: 0 <= k < |lines| ==> shown[k] == DiffLine(lines[k].kind, displayLine(lines[k].text))
  }

  lemma {:induction false} ChangedLinesPositive(script: seq<DiffLine>, k: nat)
    requires k < |script| && script[k].kind != Context
    ensures ChangedLines(script) > 0
  {
    if k > 0 { ChangedLinesPositive(script[1..], k - 1); }
  }

  lemma {:induction false} ChangedLinesZero(script: seq<DiffLine>)
    requires forall k :: 0 <= k < |script| ==> script[k].kind == Context
    ensures ChangedLines(script) == 0
  {
    if script != [] { ChangedLinesZero(script[1..]); }
  }

  /** The preview shows the first change block with two lines of context, at most
      fourteen lines, and reports truncation exactly when a script line is hidden. */
  method BuildLocalDiffPreview(path: string, savedText: string, currentText: string, displayLine: string -> string)
    returns (preview: Protocol.Option<Preview>)
    ensures preview.None? <==>
            savedText == currentText
            || (!TooLarge(savedText, currentText) && LinesOf(savedText) == LinesOf(currentText))
    ensures preview.Some? && TooLarge(savedText, currentText) ==> preview.value == Preview(path, 1, true, [NOTICE])
    ensures preview.Some? && !TooLarge(savedText, currentText) ==>
              var script := FullScript(LinesOf(savedText), LinesOf(currentText));
              && preview.value.path == path
              && preview.value.changedLines == ChangedLines(script)
              && |preview.value.lines| <= MAX_OUTPUT_LINES
              && (preview.value.truncated <==> |preview.value.lines| < |script|)
              && exists first: nat, end: nat ::
                && IsFirstBlock(script, first, end)
                && VisibleStart(first) <= first < VisibleEnd(script, first, end) <= |script|
                && Displays(preview.value.lines, script[VisibleStart(first)..VisibleEnd(script, first, end)],
                            displayLine)
  {
    hide LinesOf, ChangedLines, FullScript;
    if savedText == currentText {
      return Protocol.None;
    }
    var before, after := LinesOf(savedText), LinesOf(currentText);
    if TooLarge(savedText, currentText) {
      return Protocol.Some(Preview(path, 1, true, [NOTICE]));
    }
    var full := DiffLines(before, after);
    UnchangedIff(before, after);
    var first := 0;
    while first < |full| && full[first].kind == Context
      invariant first <= |full| && forall k :: 0 <= k < first ==> full[k].kind == Context
    {
      first := first + 1;
    }
    if first == |full| {
      ChangedLinesZero(full);
      return Protocol.None;
    }
    ChangedLinesPositive(full, first);
    var end := first;
    while end < |full| && full[end].kind != Context
      invariant first <= end <= |full| && forall k :: first <= k < end ==> full[k].kind != Context
    {
      end := end + 1;
    }
    var start := VisibleStart(first);
    var requestedEnd := Min(|full|, end + CONTEXT_LINES);
    var visible := full[start..Min(requestedEnd, start + MAX_OUTPUT_LINES)];
    var truncated := start > 0 || requestedEnd < |full| || |visible| < requestedEnd - start;
    var lines := seq(|visible|,
                     k requires 0 <= k < |visible| => DiffLine(visible[k].kind, displayLine(visible[k].text)));
    preview := Protocol.Some(Preview(path, ChangedLines(full), truncated, lines));
    assert IsFirstBlock(full, first, end);
    assert Displays(lines, full[VisibleStart(first)..VisibleEnd(full, first, end)], displayLine);
  }

  function Min(x: int, y: int): int {
    if x < y then x else y
  }
}
