/** The text that service definitions are made of (apps/cli/src/service.ts): every
    printer is undone by the parser of the system that reads it. */
module ServiceText {
  import opened Protocol
  import opened JsText

  // ----- Safe text -----

  /** General category Cc. */
  predicate IsControl(c: char) {
    c < ' ' || '\U{007F}' <= c <= '\U{009F}'
  }

  predicate SafeText(value: string) {
    value != "" && forall c :: c in value ==> !IsControl(c)
  }

  function Repeat(c: char, n: nat): (r: string)
    ensures |r| == n && forall i :: 0 <= i < n ==> r[i] == c
  {
    seq(n, _ => c)
  }

  // ----- Windows arguments -----

  predicate NeedsQuotes(value: string) {
    exists c :: c in value && (IsSpace(c) || c == '"')
  }

  /** The rest of a quoted argument after `backslashes` pending ones. */
  function QuotedRest(value: string, backslashes: nat): string
    decreases |value|
  {
    if value == "" then Repeat('\\', 2 * backslashes) + "\""
    else if value[0] == '\\' then QuotedRest(value[1..], backslashes + 1)
    else if value[0] == '"' then Repeat('\\', 2 * backslashes + 1) + "\"" + QuotedRest(value[1..], 0)
    else Repeat('\\', backslashes) + [value[0]] + QuotedRest(value[1..], 0)
  }

  function WindowsArgument(value: string): string {
    if NeedsQuotes(value) then "\"" + QuotedRest(value, 0) else value
  }

  /** One pass over the characters, holding back runs of backslashes until it is known
      what follows them; `None` stands for the rejection of unsafe text. */
  method QuoteWindowsArgument(value: string) returns (argument: Option<string>)
    ensures argument == if SafeText(value) then Some(WindowsArgument(value)) else None
  {
    if !SafeText(value) {
      return None;
    }
    if !NeedsQuotes(value) {
      return Some(value);
    }
    var quoted := "\"";
    var backslashes := 0;
    for i := 0 to |value|
      invariant quoted + QuotedRest(value[i..], backslashes) == "\"" + QuotedRest(value, 0)
    {
      var character := value[i];
      ghost var rest := QuotedRest(value[i + 1..], 0);
      assert value[i..][1..] == value[i + 1..];
      if character == '\\' {
        backslashes := backslashes + 1;
      } else if character == '"' {
        ghost var run := Repeat('\\', 2 * backslashes + 1);
        assert quoted + (run + "\"" + rest) == quoted + run + "\"" + rest;
        quoted := quoted + Repeat('\\', 2 * backslashes + 1);
        quoted := quoted + "\"";
        backslashes := 0;
      } else {
        ghost var run := Repeat('\\', backslashes);
        assert quoted + (run + [character] + rest) == quoted + run + [character] + rest;
        quoted := quoted + Repeat('\\', backslashes);
        quoted := quoted + [character];
        backslashes := 0;
      }
    }
    assert value[|value|..] == "";
    ghost var run := Repeat('\\', 2 * backslashes);
    assert quoted + (run + "\"") == quoted + run + "\"";
    quoted := quoted + Repeat('\\', 2 * backslashes);
    return Some(quoted + "\"");
  }

  /** `args.map(quoteWindowsArgument).join(" ")`. */
  function CommandLine(args: seq<string>): string {
    if args == [] then ""
    else if |args| == 1 then WindowsArgument(args[0])
    else WindowsArgument(args[0]) + " " + CommandLine(args[1..])
  }

  // ----- The argument parser of Windows programs -----

  /** Where the parser stands: inside quotes or not, the argument so far if one has
      begun, and a pending run of backslashes. */
  datatype Scan = Scan(quoted: bool, current: Option<string>, slashes: nat)

  const BETWEEN := Scan(false, None, 0)

  function Text(scan: Scan): string {
    scan.current.GetOr("")
  }

  /** Split a command line: a space or tab outside quotes ends an argument; before a
      quote, two backslashes stand for one and an odd one makes the quote literal; two
      quotes inside quotes stand for one; other backslashes stand for themselves. */
  function Arguments(line: string, scan: Scan): seq<string>
    decreases |line|
  {
    if line == "" then
      if scan.current.None? then [] else [Text(scan) + Repeat('\\', scan.slashes)]
    else if line[0] == '\\' then
      Arguments(line[1..], scan.(current := Some(Text(scan)), slashes := scan.slashes + 1))
    else if line[0] == '"' then
      var halved := Text(scan) + Repeat('\\', scan.slashes / 2);
      if scan.slashes % 2 == 1 then Arguments(line[1..], Scan(scan.quoted, Some(halved + "\""), 0))
      else if scan.quoted && |line| > 1 && line[1] == '"' then Arguments(line[2..], Scan(true, Some(halved + "\""), 0))
      else Arguments(line[1..], Scan(!scan.quoted, Some(halved), 0))
    else if (line[0] == ' ' || line[0] == '\t') && !scan.quoted then
      (if scan.current.None? then [] else [Text(scan) + Repeat('\\', scan.slashes)]) + Arguments(line[1..], BETWEEN)
    else Arguments(line[1..], Scan(scan.quoted, Some(Text(scan) + Repeat('\\', scan.slashes) + [line[0]]), 0))
  }

  /** A run of backslashes only counts up. */
  lemma {:induction false} SlashRun(n: nat, line: string, scan: Scan)
    requires scan.current.Some?
    ensures Arguments(Repeat('\\', n) + line, scan) == Arguments(line, scan.(slashes := scan.slashes + n))
    decreases n
  {
    if n == 0 {
      assert Repeat('\\', 0) + line == line;
    } else {
      assert (Repeat('\\', n) + line)[1..] == Repeat('\\', n - 1) + line;
      assert (Repeat('\\', n) + line)[0] == '\\';
      SlashRun(n - 1, line, scan.(slashes := scan.slashes + 1));
    }
  }

  /** What comes after an argument: nothing, or a space and more. */
  predicate Follows(rest: string) {
    rest == "" || rest[0] == ' '
  }

  function After(rest: string): seq<string>
    requires Follows(rest)
  {
    if rest == "" then [] else Arguments(rest[1..], BETWEEN)
  }

  /** The closing quote ends the argument. */
  lemma ClosingQuote(current: string, backslashes: nat, rest: string)
    requires Follows(rest)
    ensures Arguments(Repeat('\\', 2 * backslashes) + "\"" + rest, Scan(true, Some(current), 0)) ==
            [current + Repeat('\\', backslashes)] + After(rest)
  {
    var run := Repeat('\\', 2 * backslashes);
    assert run + "\"" + rest == run + ("\"" + rest);
    SlashRun(2 * backslashes, "\"" + rest, Scan(true, Some(current), 0));
    var line := "\"" + rest;
    assert line[1..] == rest;
    var closed := Scan(false, Some(current + Repeat('\\', backslashes)), 0);
    assert Arguments(line, Scan(true, Some(current), 2 * backslashes)) == Arguments(rest, closed);
    assert Text(closed) + Repeat('\\', 0) == Text(closed);
  }

  /** Inside quotes the parser reads back what was quoted. */
  lemma {:induction false} QuotedReadsBack(value: string, backslashes: nat, current: string, rest: string)
    requires Follows(rest)
    ensures Arguments(QuotedRest(value, backslashes) + rest, Scan(true, Some(current), 0)) ==
            [current + Repeat('\\', backslashes) + value] + After(rest)
    decreases |value|
  {
    if value == "" {
      ClosingQuote(current, backslashes, rest);
      assert current + Repeat('\\', backslashes) + "" == current + Repeat('\\', backslashes);
    } else if value[0] == '\\' {
      QuotedReadsBack(value[1..], backslashes + 1, current, rest);
      assert current + Repeat('\\', backslashes) + value == current + Repeat('\\', backslashes + 1) + value[1..];
    } else {
      PlainReadsBack(value, backslashes, current, rest);
    }
  }

  /** One character that is not a backslash, with the run before it. */
  lemma {:induction false} PlainReadsBack(value: string, backslashes: nat, current: string, rest: string)
    requires Follows(rest) && value != "" && value[0] != '\\'
    ensures Arguments(QuotedRest(value, backslashes) + rest, Scan(true, Some(current), 0)) ==
            [current + Repeat('\\', backslashes) + value] + After(rest)
    decreases |value|, 0
  {
    var c, tail := value[0], QuotedRest(value[1..], 0) + rest;
    var n := if c == '"' then 2 * backslashes + 1 else backslashes;
    assert QuotedRest(value, backslashes) + rest == Repeat('\\', n) + ([c] + tail);
    SlashRun(n, [c] + tail, Scan(true, Some(current), 0));
    assert ([c] + tail)[1..] == tail;
    var read := current + Repeat('\\', backslashes) + [c];
    assert n / 2 == backslashes || c != '"';
    assert Arguments([c] + tail, Scan(true, Some(current), n)) == Arguments(tail, Scan(true, Some(read), 0));
    QuotedReadsBack(value[1..], 0, read, rest);
    assert read + Repeat('\\', 0) + value[1..] == current + Repeat('\\', backslashes) + value;
  }

  /** Outside quotes, text without spaces, tabs and quotes is read as it stands. */
  lemma {:induction false} BareReadsBack(value: string, rest: string, scan: Scan)
    requires Follows(rest) && !scan.quoted && (value != "" || scan.current.Some?)
    requires forall c :: c in value ==> c != ' ' && c != '\t' && c != '"'
    ensures Arguments(value + rest, scan) == [Text(scan) + Repeat('\\', scan.slashes) + value] + After(rest)
    decreases |value|
  {
    if value == "" {
      assert value + rest == rest
             && Text(scan) + Repeat('\\', scan.slashes) + "" == Text(scan) + Repeat('\\', scan.slashes);
    } else {
      var c := value[0];
      assert (value + rest)[1..] == value[1..] + rest;
      assert c in value && forall d :: d in value[1..] ==> d in value;
      if c == '\\' {
        BareReadsBack(value[1..], rest, scan.(current := Some(Text(scan)), slashes := scan.slashes + 1));
        assert Text(scan) + Repeat('\\', scan.slashes + 1) + value[1..] == Text(scan) + Repeat('\\', scan.slashes)
               + value;
      } else {
        var read := Text(scan) + Repeat('\\', scan.slashes) + [c];
        BareReadsBack(value[1..], rest, Scan(false, Some(read), 0));
        assert read + Repeat('\\', 0) + value[1..] == Text(scan) + Repeat('\\', scan.slashes) + value;
      }
    }
  }

  /** One printed argument is read back whole. */
  lemma ArgumentReadsBack(value: string, rest: string)
    requires SafeText(value) && Follows(rest)
    ensures Arguments(WindowsArgument(value) + rest, BETWEEN) == [value] + After(rest)
  {
    if NeedsQuotes(value) {
      var line := "\"" + QuotedRest(value, 0) + rest;
      assert line[1..] == QuotedRest(value, 0) + rest && line[0] == '"';
      assert Text(BETWEEN) + Repeat('\\', 0) == "";
      assert Arguments(line, BETWEEN) == Arguments(QuotedRest(value, 0) + rest, Scan(true, Some(""), 0));
      QuotedReadsBack(value, 0, "", rest);
      assert "" + Repeat('\\', 0) + value == value;
    } else {
      BareReadsBack(value, rest, BETWEEN);
      assert "" + Repeat('\\', 0) + value == value;
    }
  }

  /** Splitting a printed command line gives back the arguments. */
  lemma {:induction false} CommandLineReadsBack(args: seq<string>)
    requires forall a :: a in args ==> SafeText(a)
    ensures Arguments(CommandLine(args), BETWEEN) == args
  {
    if args == [] {
    } else if |args| == 1 {
      ArgumentReadsBack(args[0], "");
      assert WindowsArgument(args[0]) + "" == WindowsArgument(args[0]);
    } else {
      var rest := " " + CommandLine(args[1..]);
      assert rest[1..] == CommandLine(args[1..]);
      CommandLineReadsBack(args[1..]);
      ArgumentReadsBack(args[0], rest);
      assert WindowsArgument(args[0]) + rest == CommandLine(args);
    }
  }

  // ----- Replacement passes -----

  /** `value.replace(/c/gu, instead)`. */
  function ReplaceAll(value: string, c: char, instead: string): string {
    if value == "" then "" else (if value[0] == c then instead else [value[0]]) + ReplaceAll(value[1..], c, instead)
  }

  lemma {:induction false} ReplaceConcat(a: string, b: string, c: char, instead: string)
    ensures ReplaceAll(a + b, c, instead) == ReplaceAll(a, c, instead) + ReplaceAll(b, c, instead)
  {
    if a == "" {
      assert a + b == b;
    } else {
      assert (a + b)[1..] == a[1..] + b;
      ReplaceConcat(a[1..], b, c, instead);
    }
  }

  lemma {:induction false} ReplaceNone(value: string, c: char, instead: string)
    requires c !in value
    ensures ReplaceAll(value, c, instead) == value
  {
    if value != "" {
      ReplaceNone(value[1..], c, instead);
    }
  }

  /** One replacement pass over a whole text. */
  datatype Pass = Pass(c: char, instead: string)

  /** The passes one after the other. */
  function Passes(value: string, passes: seq<Pass>): string
    decreases |passes|
  {
    if passes == [] then value else Passes(ReplaceAll(value, passes[0].c, passes[0].instead), passes[1..])
  }

  /** What becomes of one character. */
  function CodeOf(c: char, passes: seq<Pass>): string {
    if passes == [] then [c] else if c == passes[0].c then passes[0].instead else CodeOf(c, passes[1..])
  }

  function Coded(value: string, passes: seq<Pass>): string {
    if value == "" then "" else CodeOf(value[0], passes) + Coded(value[1..], passes)
  }

  /** No pass touches what an earlier one produced. */
  predicate Clean(passes: seq<Pass>) {
    passes == [] || ((forall p :: p in passes[1..] ==> p.c !in passes[0].instead) && Clean(passes[1..]))
  }

  lemma FirstPass(c: char, first: Pass, rest: seq<Pass>)
    ensures CodeOf(c, [first] + rest) == if c == first.c then first.instead else CodeOf(c, rest)
    ensures Clean([first] + rest) <==> (forall p :: p in rest ==> p.c !in first.instead) && Clean(rest)
  {
    assert ([first] + rest)[1..] == rest;
  }

  lemma LastPass(c: char, last: Pass)
    ensures CodeOf(c, [last]) == (if c == last.c then last.instead else [c]) && Clean([last])
  {
    FirstPass(c, last, []);
    assert [last] + [] == [last];
  }

  lemma {:induction false} PassesConcat(a: string, b: string, passes: seq<Pass>)
    ensures Passes(a + b, passes) == Passes(a, passes) + Passes(b, passes)
    decreases |passes|
  {
    if passes != [] {
      var p := passes[0];
      ReplaceConcat(a, b, p.c, p.instead);
      PassesConcat(ReplaceAll(a, p.c, p.instead), ReplaceAll(b, p.c, p.instead), passes[1..]);
    }
  }

  lemma {:induction false} PassesNone(value: string, passes: seq<Pass>)
    requires forall p :: p in passes ==> p.c !in value
    ensures Passes(value, passes) == value
    decreases |passes|
  {
    if passes != [] {
      assert passes[0] in passes;
      ReplaceNone(value, passes[0].c, passes[0].instead);
      PassesNone(value, passes[1..]);
    }
  }

  lemma {:induction false} PassesOne(c: char, passes: seq<Pass>)
    requires Clean(passes)
    ensures Passes([c], passes) == CodeOf(c, passes)
    decreases |passes|
  {
    if passes != [] {
      var p := passes[0];
      assert [c][1..] == "" && ReplaceAll("", p.c, p.instead) == "" && p.instead + "" == p.instead && [c] + "" == [c];
      if c == p.c {
        PassesNone(p.instead, passes[1..]);
      } else {
        PassesOne(c, passes[1..]);
      }
    }
  }

  /** Several clean passes over a text are one pass that codes every character. */
  lemma {:induction false} PassesArePerCharacter(value: string, passes: seq<Pass>)
    requires Clean(passes)
    ensures Passes(value, passes) == Coded(value, passes)
    decreases |value|
  {
    if value == "" {
      PassesNone("", passes);
    } else {
      assert [value[0]] + value[1..] == value;
      PassesConcat([value[0]], value[1..], passes);
      PassesOne(value[0], passes);
      PassesArePerCharacter(value[1..], passes);
    }
  }

  // ----- Task Scheduler XML -----

  function LaterXmlPasses(): seq<Pass> {
    [Pass('>', "&gt;"), Pass('"', "&quot;"), Pass('\'', "&apos;")]
  }

  function XmlPasses(): seq<Pass> {
    [Pass('&', "&amp;"), Pass('<', "&lt;")] + LaterXmlPasses()
  }

  function EscapeTaskXml(value: string): Option<string> {
    if SafeText(value) then Some(Passes(value, XmlPasses())) else None
  }

  function XmlCode(c: char): string {
    if c == '&' then "&amp;" else if c == '<' then "&lt;" else if c == '>' then "&gt;"
    else if c == '"' then "&quot;" else if c == '\'' then "&apos;" else [c]
  }

  lemma LaterXmlCodes(c: char)
    ensures Clean(LaterXmlPasses())
    ensures CodeOf(c, LaterXmlPasses()) ==
            if c == '>' then "&gt;" else if c == '"' then "&quot;" else if c == '\'' then "&apos;" else [c]
  {
    hide Clean, CodeOf;
    var gt, quot, apos := Pass('>', "&gt;"), Pass('"', "&quot;"), Pass('\'', "&apos;");
    LastPass(c, apos);
    FirstPass(c, quot, [apos]);
    FirstPass(c, gt, [quot] + [apos]);
    assert LaterXmlPasses() == [gt] + ([quot] + [apos]);
  }

  lemma XmlCodes(c: char)
    ensures Clean(XmlPasses()) && CodeOf(c, XmlPasses()) == XmlCode(c)
  {
    hide Clean, CodeOf;
    LaterXmlCodes(c);
    FirstPass(c, Pass('<', "&lt;"), LaterXmlPasses());
    FirstPass(c, Pass('&', "&amp;"), [Pass('<', "&lt;")] + LaterXmlPasses());
    assert XmlPasses() == [Pass('&', "&amp;")] + ([Pass('<', "&lt;")] + LaterXmlPasses());
  }

  function Prepend(c: char, rest: Option<string>): Option<string> {
    if rest.Some? then Some([c] + rest.value) else None
  }

  /** Character data with the predefined entities (section 4.6 of XML 1.0). */
  function XmlDecode(text: string): Option<string> {
    if text == "" then Some("")
    else if text[0] == '<' then None
    else if text[0] != '&' then Prepend(text[0], XmlDecode(text[1..]))
    else if "&amp;" <= text then Prepend('&', XmlDecode(text[5..]))
    else if "&lt;" <= text then Prepend('<', XmlDecode(text[4..]))
    else if "&gt;" <= text then Prepend('>', XmlDecode(text[4..]))
    else if "&quot;" <= text then Prepend('"', XmlDecode(text[6..]))
    else if "&apos;" <= text then Prepend('\'', XmlDecode(text[6..]))
    else None
  }

  lemma DecodeCode(c: char, rest: string)
    ensures XmlDecode(XmlCode(c) + rest) == Prepend(c, XmlDecode(rest))
  {
    var text := XmlCode(c) + rest;
    assert text[|XmlCode(c)|..] == rest;
    if c == '&' {
      assert text[..5] == "&amp;";
    } else if c == '<' {
      assert text[..4] == "&lt;" && text[1] == 'l';
    } else if c == '>' {
      assert text[..4] == "&gt;" && text[1] == 'g';
    } else if c == '"' {
      assert text[..6] == "&quot;" && text[1] == 'q';
    } else if c == '\'' {
      assert text[..6] == "&apos;" && text[1] == 'a' && text[2] == 'p';
    }
  }

  lemma EmptyText()
    ensures XmlDecode("") == Some("") && PathDecode("") == Some("")
  {
  }

  lemma {:induction false} XmlReadsBack(value: string, passes: seq<Pass>)
    requires forall c :: CodeOf(c, passes) == XmlCode(c)
    ensures XmlDecode(Coded(value, passes)) == Some(value)
  {
    hide XmlDecode, XmlCode, CodeOf;
    if value == "" {
      EmptyText();
    } else {
      assert [value[0]] + value[1..] == value;
      XmlReadsBack(value[1..], passes);
      DecodeCode(value[0], Coded(value[1..], passes));
    }
  }

  lemma {:induction false} QuotedIsSafe(value: string, backslashes: nat)
    requires forall c :: c in value ==> !IsControl(c)
    ensures forall c :: c in QuotedRest(value, backslashes) ==> !IsControl(c)
    decreases |value|
  {
    hide Repeat;
    if value != "" {
      assert value[0] in value && forall c :: c in value[1..] ==> c in value;
      QuotedIsSafe(value[1..], 0);
      QuotedIsSafe(value[1..], backslashes + 1);
    }
  }

  lemma {:induction false} CommandLineIsSafe(args: seq<string>)
    requires args != [] && forall a :: a in args ==> SafeText(a)
    ensures SafeText(CommandLine(args))
  {
    assert args[0] in args;
    QuotedIsSafe(args[0], 0);
    if |args| > 1 {
      CommandLineIsSafe(args[1..]);
    }
  }

  lemma NoArguments()
    ensures CommandLine([]) == ""
  {
  }

  lemma AllXmlCodes()
    ensures Clean(XmlPasses()) && forall c :: CodeOf(c, XmlPasses()) == XmlCode(c)
  {
    hide Clean, CodeOf, XmlPasses, XmlCode;
    XmlCodes('&');
    forall c ensures CodeOf(c, XmlPasses()) == XmlCode(c) { XmlCodes(c); }
  }

  /** Arguments survive quoting, joining, XML escaping, and the two readers that undo it;
      only an empty list is rejected, because it makes an empty text. */
  lemma TaskArgumentsReadBack(args: seq<string>)
    requires forall a :: a in args ==> SafeText(a)
    ensures EscapeTaskXml(CommandLine(args)).None? <==> args == []
    ensures args != [] ==>
              var line := XmlDecode(EscapeTaskXml(CommandLine(args)).value);
              line.Some? && Arguments(line.value, BETWEEN) == args
  {
    hide Clean, CodeOf, XmlPasses, XmlCode, CommandLine, Coded, Passes, XmlDecode, Arguments;
    if args == [] {
      NoArguments();
    } else {
      CommandLineIsSafe(args);
      AllXmlCodes();
      PassesArePerCharacter(CommandLine(args), XmlPasses());
      XmlReadsBack(CommandLine(args), XmlPasses());
      CommandLineReadsBack(args);
    }
  }

  // ----- systemd arguments -----

  function SystemdPasses(): seq<Pass> {
    [Pass('\\', "\\\\"), Pass('"', "\\\""), Pass('$', "$$"), Pass('%', "%%")]
  }

  function QuoteSystemdArgument(value: string): Option<string> {
    if SafeText(value) then Some("\"" + Passes(value, SystemdPasses()) + "\"") else None
  }

  function SystemdCode(c: char): string {
    if c == '\\' then "\\\\" else if c == '"' then "\\\"" else if c == '$' then "$$" else if c == '%' then "%%" else [c]
  }

  lemma SystemdCodes(c: char)
    ensures Clean(SystemdPasses()) && CodeOf(c, SystemdPasses()) == SystemdCode(c)
  {
    hide Clean, CodeOf;
    var p := SystemdPasses();
    LastPass(c, p[3]);
    FirstPass(c, p[2], [p[3]]);
    FirstPass(c, p[1], [p[2], p[3]]);
    FirstPass(c, p[0], [p[1], p[2], p[3]]);
    assert [p[2]] + [p[3]] == [p[2], p[3]] && [p[1]] + [p[2], p[3]] == [p[1], p[2], p[3]]
           && [p[0]] + [p[1], p[2], p[3]] == p;
  }

  /** Quote every argument and join them; one unsafe argument rejects the line. */
  function ExecStart(args: seq<string>): Option<string> {
    if args == [] then Some("")
    else
      var first, rest := QuoteSystemdArgument(args[0]), ExecStart(args[1..]);
      if first.None? || rest.None? then None
      else Some(first.value + (if |args| == 1 then "" else " " + rest.value))
  }

  /** Read a line of double-quoted words: `\\` and `\"` stand for one character, as do `%%`
      and `$$`; a lone `%` would be a specifier and a lone `$` a variable. */
  function Words(line: string, open: Option<string>): Option<seq<string>> {
    if line == "" then if open.None? then Some([]) else None
    else match open
      case None =>
        if line[0] == ' ' then Words(line[1..], None)
        else if line[0] == '"' then Words(line[1..], Some(""))
        else None
      case Some(word) =>
        if line[0] == '"' then
          var rest := Words(line[1..], None);
          if rest.Some? then Some([word] + rest.value) else None
        else if line[0] in "\\%$" then
          if |line| > 1 && (line[1] == line[0]
                            || (line[0] == '\\' && line[1] == '"')) then Words(line[2..], Some(word + [line[1]]))
          else None
        else Words(line[1..], Some(word + [line[0]]))
  }

  lemma WordStep(c: char, word: string, tail: string)
    ensures Words(SystemdCode(c) + tail, Some(word)) == Words(tail, Some(word + [c]))
  {
    var line := SystemdCode(c) + tail;
    assert line[|SystemdCode(c)|..] == tail;
  }

  lemma {:induction false} WordReadsBack(value: string, word: string, rest: string, passes: seq<Pass>)
    requires forall c :: CodeOf(c, passes) == SystemdCode(c)
    ensures Words(Coded(value, passes) + ("\"" + rest), Some(word)) ==
            if Words(rest, None).Some? then Some([word + value] + Words(rest, None).value) else None
  {
    hide SystemdCode, CodeOf;
    var line := Coded(value, passes) + ("\"" + rest);
    if value == "" {
      assert line == "\"" + rest && line[1..] == rest && word + value == word;
    } else {
      var tail := Coded(value[1..], passes) + ("\"" + rest);
      WordStep(value[0], word, tail);
      WordReadsBack(value[1..], word + [value[0]], rest, passes);
      assert line == SystemdCode(value[0]) + tail;
      assert word + [value[0]] + value[1..] == word + value;
    }
  }

  lemma OpeningQuote(line: string)
    ensures Words("\"" + line, None) == Words(line, Some(""))
    ensures Words(" " + line, None) == Words(line, None)
  {
    assert ("\"" + line)[1..] == line && (" " + line)[1..] == line;
  }

  lemma AllSystemdCodes()
    ensures Clean(SystemdPasses()) && forall c :: CodeOf(c, SystemdPasses()) == SystemdCode(c)
  {
    hide Clean, CodeOf, SystemdPasses, SystemdCode;
    SystemdCodes('%');
    forall c ensures CodeOf(c, SystemdPasses()) == SystemdCode(c) { SystemdCodes(c); }
  }

  /** One printed argument and what follows it. */
  lemma SystemdArgumentReadsBack(value: string, rest: string)
    requires SafeText(value)
    ensures Words(QuoteSystemdArgument(value).value + rest, None) ==
            if Words(rest, None).Some? then Some([value] + Words(rest, None).value) else None
  {
    hide Words, CodeOf, Coded, Clean, SystemdPasses, SystemdCode;
    AllSystemdCodes();
    PassesArePerCharacter(value, SystemdPasses());
    WordReadsBack(value, "", rest, SystemdPasses());
    var coded := Coded(value, SystemdPasses());
    OpeningQuote(coded + ("\"" + rest));
    assert "\"" + coded + "\"" + rest == "\"" + (coded + ("\"" + rest)) && "" + value == value;
  }

  /** A unit's `ExecStart=` line is refused exactly if an argument is unsafe; otherwise it reads
      back as the arguments it was made of. */
  lemma {:induction false} ExecStartReadsBack(args: seq<string>)
    ensures ExecStart(args).Some? <==> forall a :: a in args ==> SafeText(a)
    ensures ExecStart(args).Some? ==> Words(ExecStart(args).value, None) == Some(args)
  {
    hide Words, Passes, SafeText;
    NoWords();
    if args != [] {
      ExecStartReadsBack(args[1..]);
      assert args == [args[0]] + args[1..];
      if ExecStart(args).Some? {
        var tail := ExecStart(args[1..]).value;
        var rest := if |args| == 1 then "" else " " + tail;
        OpeningQuote(tail);
        SystemdArgumentReadsBack(args[0], rest);
      }
    }
  }

  lemma NoWords()
    ensures Words("", None) == Some([])
  {
  }

  // ----- systemd paths -----

  function PathPasses(): seq<Pass> {
    [Pass('\\', "\\\\"), Pass(' ', "\\x20"), Pass('"', "\\x22"), Pass('%', "%%")]
  }

  /** Only absolute paths are accepted. */
  function EscapeSystemdPath(value: string): Option<string> {
    if SafeText(value) && value[0] == '/' then Some(Passes(value, PathPasses())) else None
  }

  function PathCode(c: char): string {
    if c == '\\' then "\\\\" else if c == ' ' then "\\x20" else if c == '"' then "\\x22" else if c == '%' then "%%"
       else [c]
  }

  lemma PathCodes(c: char)
    ensures Clean(PathPasses()) && CodeOf(c, PathPasses()) == PathCode(c)
  {
    hide Clean, CodeOf;
    var p := PathPasses();
    LastPass(c, p[3]);
    FirstPass(c, p[2], [p[3]]);
    FirstPass(c, p[1], [p[2], p[3]]);
    FirstPass(c, p[0], [p[1], p[2], p[3]]);
    assert [p[2]] + [p[3]] == [p[2], p[3]] && [p[1]] + [p[2], p[3]] == [p[1], p[2], p[3]]
           && [p[0]] + [p[1], p[2], p[3]] == p;
  }

  /** Read a path directive: C-style escapes and the literal percent sign. An unescaped
      space or quote would change its meaning. */
  function PathDecode(text: string): Option<string> {
    if text == "" then Some("")
    else if text[0] == ' ' || text[0] == '"' then None
    else if text[0] == '%' then
      if |text| > 1 && text[1] == '%' then Prepend('%', PathDecode(text[2..])) else None
    else if text[0] == '\\' then
      if |text| > 1 && text[1] == '\\' then Prepend('\\', PathDecode(text[2..]))
      else if "\\x20" <= text then Prepend(' ', PathDecode(text[4..]))
      else if "\\x22" <= text then Prepend('"', PathDecode(text[4..]))
      else None
    else Prepend(text[0], PathDecode(text[1..]))
  }

  lemma PathStep(c: char, tail: string)
    ensures PathDecode(PathCode(c) + tail) == Prepend(c, PathDecode(tail))
  {
    var code := PathCode(c);
    var text := code + tail;
    assert text[|code|..] == tail;
    if |code| == 4 {
      assert text[..4] == code && text[1] == 'x' && text[3] == code[3];
    }
  }

  lemma {:induction false} PathReadsBack(value: string, passes: seq<Pass>)
    requires forall c :: CodeOf(c, passes) == PathCode(c)
    ensures PathDecode(Coded(value, passes)) == Some(value)
  {
    hide PathDecode, PathCode, CodeOf;
    if value == "" {
      EmptyText();
    } else {
      assert [value[0]] + value[1..] == value;
      PathReadsBack(value[1..], passes);
      PathStep(value[0], Coded(value[1..], passes));
    }
  }

  /** An accepted path comes back unchanged, and every absolute safe path is accepted. */
  lemma SystemdPathReadsBack(value: string)
    ensures EscapeSystemdPath(value).Some? <==> SafeText(value) && value[0] == '/'
    ensures EscapeSystemdPath(value).Some? ==> PathDecode(EscapeSystemdPath(value).value) == Some(value)
  {
    hide Clean, CodeOf, PathPasses, PathCode, Coded, Passes, PathDecode;
    PathCodes('%');
    forall c ensures CodeOf(c, PathPasses()) == PathCode(c) { PathCodes(c); }
    PassesArePerCharacter(value, PathPasses());
    PathReadsBack(value, PathPasses());
  }
}
