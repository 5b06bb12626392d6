/** Reading `git status --porcelain=v1 -z` (apps/cli/src/git.ts). */
module Porcelain {
  import opened JsText
  import opened JsMaps

  datatype WorkingTreeChange = WorkingTreeChange(status: string, path: string)

  // ----- The parser -----

  /** The pieces between NUL characters. */
  function Split(text: string): (pieces: seq<string>)
    ensures pieces != []
  {
    if text == "" then [""]
    else
      var rest := Split(text[1..]);
      if text[0] == '\0' then [""] + rest else [[text[0]] + rest[0]] + rest[1..]
  }

  function NonEmpty(pieces: seq<string>): seq<string> {
    if pieces == [] then []
    else if pieces[0] == "" then NonEmpty(pieces[1..])
    else [pieces[0]] + NonEmpty(pieces[1..])
  }

  function Take(text: string, n: nat): string {
    if |text| <= n then text else text[..n]
  }

  function Drop(text: string, n: nat): string {
    if |text| <= n then "" else text[n..]
  }

  predicate Renamed(status: string) {
    status != "" && status[0] in "RC"
  }

  /** What the entry at the front contributes. */
  function EntryOf(token: string): seq<WorkingTreeChange> {
    if Drop(token, 3) == "" then [] else [WorkingTreeChange(Take(token, 2), Drop(token, 3))]
  }

  /** How many tokens the entry at the front uses. */
  function Width(token: string): nat {
    if Renamed(Take(token, 2)) then 2 else 1
  }

  function ParseTokens(tokens: seq<string>): seq<WorkingTreeChange> {
    if tokens == [] then []
    else if |tokens| <= Width(tokens[0]) then EntryOf(tokens[0])
    else EntryOf(tokens[0]) + ParseTokens(tokens[Width(tokens[0])..])
  }

  function Parse(stdout: string): seq<WorkingTreeChange> {
    ParseTokens(NonEmpty(Split(stdout)))
  }

  /** What the tokens from `i` on contribute. */
  function Remaining(tokens: seq<string>, i: nat): seq<WorkingTreeChange> {
    if i < |tokens| then ParseTokens(tokens[i..]) else []
  }

  lemma RemainingStep(tokens: seq<string>, i: nat)
    requires i < |tokens|
    ensures Remaining(tokens, i) == EntryOf(tokens[i]) + Remaining(tokens, i + Width(tokens[i]))
  {
    hide EntryOf, Width;
    var rest := tokens[i..];
    var width := Width(tokens[i]);
    if i + width < |tokens| {
      assert rest[width..] == tokens[i + width..];
    } else {
      assert EntryOf(tokens[i]) + [] == EntryOf(tokens[i]);
    }
  }

  method ParsePorcelain(stdout: string) returns (changes: seq<WorkingTreeChange>)
    ensures changes == Parse(stdout)
  {
    hide Take, Drop, Renamed, Remaining, Split, NonEmpty;
    var parts := NonEmpty(Split(stdout));
    changes := [];
    var i := 0;
    assert Remaining(parts, 0) == ParseTokens(parts) by { FromTheStart(parts); }
    while i < |parts|
      invariant 0 <= i
      invariant changes + Remaining(parts, i) == ParseTokens(parts)
    {
      var entry := parts[i];
      var status := Take(entry, 2);
      var path := Drop(entry, 3);
      RemainingStep(parts, i);
      Associates(changes, EntryOf(entry), Remaining(parts, i + Width(entry)));
      if Renamed(status) {
        i := i + 1;
      }
      if |path| > 0 {
        changes := changes + [WorkingTreeChange(status, path)];
      }
      i := i + 1;
    }
    NoneRemain(parts, i);
  }

  lemma FromTheStart(tokens: seq<string>)
    ensures Remaining(tokens, 0) == ParseTokens(tokens)
  {
    assert tokens[0..] == tokens;
  }

  lemma NoneRemain(tokens: seq<string>, i: nat)
    requires i >= |tokens|
    ensures Remaining(tokens, i) == []
  {
  }

  // ----- The printer -----

  /** A change as git prints it, with the origin of a rename or copy. */
  datatype Printed = Printed(change: WorkingTreeChange, origin: string)

  predicate Column(c: char) {
    c in " MADRCUT?!"
  }

  predicate Token(text: string) {
    text != "" && '\0' !in text
  }

  predicate WellFormed(printed: Printed) {
    && |printed.change.status| == 2
    && Column(printed.change.status[0]) && Column(printed.change.status[1])
    && printed.change.status != "  "
    && Token(printed.change.path)
    && (Renamed(printed.change.status) ==> Token(printed.origin))
  }

  predicate AllWellFormed(list: seq<Printed>) {
    forall i :: 0 <= i < |list| ==> WellFormed(list[i])
  }

  function EntryToken(change: WorkingTreeChange): string {
    change.status + " " + change.path
  }

  function TokensOf(printed: Printed): seq<string> {
    [EntryToken(printed.change)] + if Renamed(printed.change.status) then [printed.origin] else []
  }

  function Tokens(list: seq<Printed>): seq<string> {
    if list == [] then [] else TokensOf(list[0]) + Tokens(list[1..])
  }

  /** Each token followed by a NUL. */
  function Terminated(tokens: seq<string>): string {
    if tokens == [] then "" else tokens[0] + "\0" + Terminated(tokens[1..])
  }

  function Print(list: seq<Printed>): string {
    Terminated(Tokens(list))
  }

  function Changes(list: seq<Printed>): seq<WorkingTreeChange> {
    seq(|list|, i requires 0 <= i < |list| => list[i].change)
  }

  // ----- Round trip -----

  lemma {:induction false} SplitToken(token: string, rest: string)
    requires '\0' !in token
    ensures Split(token + "\0" + rest) == [token] + Split(rest)
  {
    if token == "" {
      assert token + "\0" + rest == "\0" + rest;
    } else {
      assert (token + "\0" + rest)[1..] == token[1..] + "\0" + rest;
      SplitToken(token[1..], rest);
      var pieces := [token[1..]] + Split(rest);
      assert pieces[1..] == Split(rest) && [token[0]] + pieces[0] == token;
    }
  }

  lemma {:induction false} SplitTerminated(tokens: seq<string>)
    requires forall i :: 0 <= i < |tokens| ==> Token(tokens[i])
    ensures NonEmpty(Split(Terminated(tokens))) == tokens
  {
    if tokens != [] {
      SplitToken(tokens[0], Terminated(tokens[1..]));
      SplitTerminated(tokens[1..]);
      var pieces := [tokens[0]] + Split(Terminated(tokens[1..]));
      assert pieces[1..] == Split(Terminated(tokens[1..]));
    }
  }

  lemma EntryTokenReads(change: WorkingTreeChange)
    requires |change.status| == 2 && change.path != ""
    ensures EntryOf(EntryToken(change)) == [change]
    ensures Width(EntryToken(change)) == if Renamed(change.status) then 2 else 1
  {
    var token := EntryToken(change);
    assert token[..2] == change.status;
    assert token[3..] == change.path;
  }

  lemma {:induction false} TokensAreTokens(list: seq<Printed>)
    requires AllWellFormed(list)
    ensures forall i :: 0 <= i < |Tokens(list)| ==> Token(Tokens(list)[i])
  {
    if list != [] {
      AllButFirst(list);
      TokensAreTokens(list[1..]);
      assert WellFormed(list[0]);
      hide Token, WellFormed, TokensOf;
    }
  }

  lemma {:induction false} TokensParse(list: seq<Printed>)
    requires AllWellFormed(list)
    ensures ParseTokens(Tokens(list)) == Changes(list)
  {
    if list != [] {
      assert WellFormed(list[0]);
      var rest := Tokens(list[1..]);
      var tokens := Tokens(list);
      EntryTokenReads(list[0].change);
      TokensParse(list[1..]);
      assert tokens[0] == EntryToken(list[0].change);
      assert tokens[Width(tokens[0])..] == rest;
      assert Changes(list) == [list[0].change] + Changes(list[1..]);
      assert rest == [] ==> Changes(list[1..]) == [];
    }
  }

  /** Printing any list of changes and parsing it back returns the list. */
  lemma PrintedReadsBack(list: seq<Printed>)
    requires AllWellFormed(list)
    ensures Parse(Print(list)) == Changes(list)
  {
    TokensAreTokens(list);
    SplitTerminated(Tokens(list));
    TokensParse(list);
  }

  // ----- The runner trims what git prints -----

  lemma TrimKeepsTerminated(text: string)
    requires text != "" && !IsSpace(text[0]) && text[|text| - 1] == '\0'
    ensures Trim(text) == text
  {
  }

  lemma {:induction false} EndsWithNul(tokens: seq<string>)
    requires tokens != []
    ensures Terminated(tokens) != "" && Terminated(tokens)[|Terminated(tokens)| - 1] == '\0'
  {
    if |tokens| > 1 {
      EndsWithNul(tokens[1..]);
    }
  }

  /** What the parser could use at most. */
  function Weight(changes: seq<WorkingTreeChange>): nat {
    if changes == [] then 0
    else (if Renamed(changes[0].status) then 2 else 1) + Weight(changes[1..])
  }

  lemma {:induction false} WeightBound(tokens: seq<string>)
    ensures Weight(ParseTokens(tokens)) <= |tokens| + 1
    decreases |tokens|
  {
    if tokens != [] {
      var entry := EntryOf(tokens[0]);
      if |tokens| > Width(tokens[0]) {
        WeightBound(tokens[Width(tokens[0])..]);
        var rest := ParseTokens(tokens[Width(tokens[0])..]);
        assert entry != [] ==> (entry + rest)[1..] == rest;
        assert entry == [] ==> entry + rest == rest;
      }
    }
  }

  lemma {:induction false} WeightOfTokens(list: seq<Printed>)
    ensures Weight(Changes(list)) == |Tokens(list)|
  {
    if list != [] {
      WeightOfTokens(list[1..]);
      assert Changes(list) == [list[0].change] + Changes(list[1..]);
      assert Changes(list)[1..] == Changes(list[1..]);
    }
  }

  /** Git's text as the default runner hands it on, read back: the list comes back exactly when
      it is empty or its first change is staged, so that the text does not start with a
      space. */
  lemma TrimmedReadsBackIff(list: seq<Printed>)
    requires AllWellFormed(list)
    ensures Parse(Trim(Print(list))) == Changes(list) <==> list == [] || list[0].change.status[0] != ' '
  {
    hide Column, IsSpace, Token, Parse;
    if list == [] {
      PrintedReadsBack(list);
    } else {
      assert WellFormed(list[0]);
      var change := list[0].change;
      NotSpace(change.status[0]);
      var text := Print(list);
      FirstCharacter(list);
      EndsWithNul(Tokens(list));
      if change.status[0] != ' ' {
        TrimKeepsTerminated(text);
        PrintedReadsBack(list);
      } else {
        UnstagedFirstIsLost(list);
      }
    }
  }

  lemma NotSpace(c: char)
    requires Column(c)
    ensures c != '\0' && (IsSpace(c) <==> c == ' ')
  {
  }

  lemma FirstCharacter(list: seq<Printed>)
    requires list != [] && |list[0].change.status| == 2
    ensures Tokens(list) != [] && Tokens(list)[0] == EntryToken(list[0].change)
    ensures Print(list) != "" && Print(list)[0] == list[0].change.status[0]
    ensures Print(list)[1..] == Terminated([EntryToken(list[0].change)[1..]] + Tokens(list)[1..])
  {
    var token := EntryToken(list[0].change);
    var rest := Tokens(list)[1..];
    assert ([token[1..]] + rest)[1..] == rest;
    assert Print(list) == token + "\0" + Terminated(rest);
  }

  lemma UnstagedFirstIsLost(list: seq<Printed>)
    requires AllWellFormed(list) && list != [] && WellFormed(list[0]) && list[0].change.status[0] == ' '
    ensures Parse(Trim(Print(list))) != Changes(list)
  {
    hide Column, IsSpace, Terminated, Tokens, NonEmpty, Split;
    var change := list[0].change;
    assert change.status[1] != ' ' by {
      assert change.status == [change.status[0], change.status[1]];
    }
    NotSpace(change.status[1]);
    FirstCharacter(list);
    var shorter := [EntryToken(change)[1..]] + Tokens(list)[1..];
    TokensAreTokens(list);
    EndsWithNul(shorter);
    CutStarts(change, shorter);
    TrimSkipsSpace(Print(list), Terminated(shorter));
    SplitTerminated(shorter);
    CutDiffers(list, shorter);
  }

  lemma CutStarts(change: WorkingTreeChange, shorter: seq<string>)
    requires |change.status| == 2 && shorter != [] && shorter[0] == EntryToken(change)[1..]
    ensures Terminated(shorter) != "" && Terminated(shorter)[0] == change.status[1]
  {
  }

  lemma TrimSkipsSpace(text: string, rest: string)
    requires text != "" && text[0] == ' ' && rest == text[1..]
    requires rest != "" && !IsSpace(rest[0]) && rest[|rest| - 1] == '\0'
    ensures Trim(text) == rest
  {
    TrimKeepsTerminated(rest);
  }

  lemma CutDiffers(list: seq<Printed>, shorter: seq<string>)
    requires AllWellFormed(list) && list != [] && |list[0].change.status| == 2 && list[0].change.path != ""
    requires list[0].change.status[0] == ' ' && list[0].change.status[1] != ' '
    requires shorter == [EntryToken(list[0].change)[1..]] + Tokens(list)[1..]
    ensures ParseTokens(shorter) != Changes(list)
  {
    hide AllWellFormed;
    var change := list[0].change;
    var cut := shorter[0];
    assert cut == [change.status[1]] + " " + change.path;
    if |change.path| > 1 {
      assert ParseTokens(shorter)[0] == EntryOf(cut)[0];
      assert Changes(list)[0] == change;
    } else {
      NothingRead(list, shorter);
    }
  }

  lemma NothingRead(list: seq<Printed>, shorter: seq<string>)
    requires AllWellFormed(list) && list != [] && |shorter| == |Tokens(list)|
    requires shorter != [] && EntryOf(shorter[0]) == []
    requires !Renamed(list[0].change.status) && shorter[1..] == Tokens(list)[1..]
    ensures ParseTokens(shorter) != Changes(list)
  {
    hide EntryOf, AllWellFormed, ParseTokens, Weight, Take;
    if Width(shorter[0]) == 2 {
      WeightOfTokens(list);
      TwoSkipped(shorter);
    } else {
      assert Tokens(list)[1..] == Tokens(list[1..]);
      AllButFirst(list);
      TokensParse(list[1..]);
      OneSkipped(shorter);
      assert |ParseTokens(shorter)| == |list| - 1;
    }
  }

  lemma TwoSkipped(tokens: seq<string>)
    requires tokens != [] && EntryOf(tokens[0]) == [] && Width(tokens[0]) == 2
    ensures Weight(ParseTokens(tokens)) < |tokens|
  {
    hide EntryOf, Width;
    if |tokens| > 2 {
      WeightBound(tokens[2..]);
      assert [] + ParseTokens(tokens[2..]) == ParseTokens(tokens[2..]);
    }
  }

  lemma OneSkipped(tokens: seq<string>)
    requires tokens != [] && EntryOf(tokens[0]) == [] && Width(tokens[0]) == 1
    ensures ParseTokens(tokens) == ParseTokens(tokens[1..])
  {
    hide EntryOf, Width;
    assert [] + ParseTokens(tokens[1..]) == ParseTokens(tokens[1..]);
  }

  lemma AllButFirst(list: seq<Printed>)
    requires AllWellFormed(list) && list != []
    ensures AllWellFormed(list[1..])
  {
  }

  // ----- Renames in the second column -----

  /** Only the second column says rename or copy. Git prints the origin then, too, but the parser
      does not look for it. */
  predicate SecondOnly(status: string) {
    |status| == 2 && status[0] !in "RC" && status[1] in "RC"
  }

  predicate FullyFormed(printed: Printed) {
    WellFormed(printed) && (SecondOnly(printed.change.status) ==> Token(printed.origin))
  }

  function FullTokensOf(printed: Printed): seq<string> {
    TokensOf(printed) + if SecondOnly(printed.change.status) then [printed.origin] else []
  }

  function FullTokens(list: seq<Printed>): seq<string> {
    if list == [] then [] else FullTokensOf(list[0]) + FullTokens(list[1..])
  }

  /** What git prints with every origin. */
  function PrintFully(list: seq<Printed>): string {
    Terminated(FullTokens(list))
  }

  /** An origin that the parser takes for an entry without a path, and steps over. */
  predicate Passed(origin: string) {
    |origin| <= 3 && !Renamed(Take(origin, 2))
  }

  /** The origins of first-column renames, which the parser skips, are longer than three
      characters; the others are, too, or they are stepped over. */
  predicate Telling(printed: Printed) {
    && (Renamed(printed.change.status) ==> |printed.origin| > 3)
    && (SecondOnly(printed.change.status) ==> |printed.origin| > 3 || Passed(printed.origin))
  }

  predicate AllTelling(list: seq<Printed>) {
    forall i :: 0 <= i < |list| ==> FullyFormed(list[i]) && Telling(list[i])
  }

  function Long(tokens: seq<string>): nat {
    if tokens == [] then 0 else (if |tokens[0]| > 3 then 1 else 0) + Long(tokens[1..])
  }

  lemma {:induction false} LongConcat(a: seq<string>, b: seq<string>)
    ensures Long(a + b) == Long(a) + Long(b)
  {
    if a == [] {
      assert a + b == b;
    } else {
      assert (a + b)[1..] == a[1..] + b && (a + b)[0] == a[0];
      LongConcat(a[1..], b);
    }
  }

  /** Every long token is read as an entry or skipped for one. */
  lemma {:induction false} LongAreRead(tokens: seq<string>)
    requires forall i :: 0 <= i < |tokens| ==> |tokens[i]| > 3 || Passed(tokens[i])
    ensures Weight(ParseTokens(tokens)) >= Long(tokens)
    decreases |tokens|
  {
    if tokens != [] {
      hide EntryOf, Width, Long, Weight, Passed;
      var width, entry := Width(tokens[0]), EntryOf(tokens[0]);
      var front, rest := tokens[..Min(width, |tokens|)], tokens[Min(width, |tokens|)..];
      WidthIsOneOrTwo(tokens[0]);
      FrontWeighs(tokens[0], front);
      assert tokens == front + rest;
      LongConcat(front, rest);
      WeightConcat(entry, ParseTokens(rest));
      if |tokens| > width {
        LongAreRead(rest);
      } else {
        NothingLong(rest);
        assert entry + ParseTokens(rest) == entry;
      }
    }
  }

  function Min(a: nat, b: nat): nat {
    if a < b then a else b
  }

  lemma WidthIsOneOrTwo(token: string)
    ensures 1 <= Width(token) <= 2
  {
  }

  lemma NothingLong(tokens: seq<string>)
    requires tokens == []
    ensures Long(tokens) == 0 && Weight([]) == 0
  {
  }

  lemma FrontWeighs(token: string, front: seq<string>)
    requires 1 <= |front| <= Width(token) && front[0] == token && (|token| > 3 || Passed(token))
    ensures Weight(EntryOf(token)) >= Long(front)
  {
    LongAtMost(front);
    LongAtMost(front[1..]);
    assert EntryOf(token) != [] ==> EntryOf(token)[1..] == [];
  }

  lemma {:induction false} WeightConcat(a: seq<WorkingTreeChange>, b: seq<WorkingTreeChange>)
    ensures Weight(a + b) == Weight(a) + Weight(b)
  {
    if a == [] {
      assert a + b == b;
    } else {
      assert (a + b)[1..] == a[1..] + b && (a + b)[0] == a[0];
      WeightConcat(a[1..], b);
    }
  }

  lemma {:induction false} LongAtMost(tokens: seq<string>)
    ensures Long(tokens) <= |tokens|
  {
    if tokens != [] { LongAtMost(tokens[1..]); }
  }

  /** How many origins the parser takes for entries. */
  function Misread(list: seq<Printed>): nat {
    if list == [] then 0
    else (if SecondOnly(list[0].change.status) && |list[0].origin| > 3 then 1 else 0) + Misread(list[1..])
  }

  lemma {:induction false} LongTokens(list: seq<Printed>)
    requires AllTelling(list)
    ensures Long(FullTokens(list)) == Weight(Changes(list)) + Misread(list)
    ensures forall i :: 0 <= i < |FullTokens(list)| ==>
              Token(FullTokens(list)[i]) && (|FullTokens(list)[i]| > 3 || Passed(FullTokens(list)[i]))
  {
    if list != [] {
      var first, rest := list[0], list[1..];
      LongTokens(rest);
      LongConcat(FullTokensOf(first), FullTokens(rest));
      FirstTokens(first);
      assert Changes(list) == [first.change] + Changes(rest);
      assert Changes(list)[1..] == Changes(rest);
      hide Token, Passed, Telling, FullyFormed, FullTokensOf;
    }
  }

  lemma FirstTokens(printed: Printed)
    requires FullyFormed(printed) && Telling(printed)
    ensures Long(FullTokensOf(printed)) ==
            (if Renamed(printed.change.status) then 2 else 1)
            + (if SecondOnly(printed.change.status) && |printed.origin| > 3 then 1 else 0)
    ensures forall i :: 0 <= i < |FullTokensOf(printed)| ==>
              Token(FullTokensOf(printed)[i]) && (|FullTokensOf(printed)[i]| > 3 || Passed(FullTokensOf(printed)[i]))
  {
    var token := EntryToken(printed.change);
    assert token[0] == printed.change.status[0] && token[1] == printed.change.status[1] && token[2] == ' ';
    NotSpace(token[0]);
    NotSpace(token[1]);
    assert [token][1..] == [] && [token, printed.origin][1..] == [printed.origin] && [printed.origin][1..] == [];
    assert Long([printed.origin]) == if |printed.origin| > 3 then 1 else 0;
    assert [token] + [] == [token] && [token] + [printed.origin] == [token, printed.origin];
  }

  lemma {:induction false} NoneMisreadParse(list: seq<Printed>)
    requires AllTelling(list) && Misread(list) == 0
    ensures ParseTokens(FullTokens(list)) == Changes(list)
  {
    hide FullyFormed, ParseTokens, FullTokensOf;
    if list == [] {
      assert ParseTokens([]) == [] by { NothingToParse(); }
    } else {
      var first, rest := list[0], FullTokens(list[1..]);
      assert FullyFormed(first) && Telling(first);
      NoneMisreadParse(list[1..]);
      assert Changes(list) == [first.change] + Changes(list[1..]);
      FirstParses(first, rest);
    }
  }

  lemma NothingToParse()
    ensures ParseTokens([]) == []
  {
  }

  lemma FirstParses(first: Printed, rest: seq<string>)
    requires FullyFormed(first) && (SecondOnly(first.change.status) ==> Passed(first.origin))
    ensures ParseTokens(FullTokensOf(first) + rest) == [first.change] + ParseTokens(rest)
  {
    hide Column;
    var token := EntryToken(first.change);
    var tokens := FullTokensOf(first) + rest;
    EntryTokenReads(first.change);
    assert tokens[0] == token;
    if Renamed(first.change.status) {
      assert tokens == [token, first.origin] + rest && tokens[2..] == rest;
    } else if SecondOnly(first.change.status) {
      assert tokens == [token] + ([first.origin] + rest) && tokens[1..] == [first.origin] + rest;
      PassedOver(first.origin, rest);
    } else {
      assert tokens == [token] + rest && tokens[1..] == rest;
    }
  }

  lemma PassedOver(origin: string, rest: seq<string>)
    requires Passed(origin)
    ensures ParseTokens([origin] + rest) == ParseTokens(rest)
  {
    assert ([origin] + rest)[1..] == rest;
    assert EntryOf(origin) == [] && [] + ParseTokens(rest) == ParseTokens(rest);
  }

  /** What git prints with every origin reads back exactly if no origin of a second-column rename
      is long enough to be taken for an entry. */
  lemma FullyPrintedReadsBackIff(list: seq<Printed>)
    requires AllTelling(list)
    ensures Parse(PrintFully(list)) == Changes(list) <==>
            forall i :: 0 <= i < |list| && SecondOnly(list[i].change.status) ==> |list[i].origin| <= 3
  {
    hide ParseTokens, FullTokens, Changes, AllTelling, SecondOnly;
    LongTokens(list);
    SplitTerminated(FullTokens(list));
    MisreadIff(list);
    if Misread(list) == 0 {
      NoneMisreadParse(list);
    } else {
      LongAreRead(FullTokens(list));
    }
  }

  lemma {:induction false} MisreadIff(list: seq<Printed>)
    ensures Misread(list) == 0 <==>
              forall i :: 0 <= i < |list| && SecondOnly(list[i].change.status) ==> |list[i].origin| <= 3
  {
    hide SecondOnly;
    if list != [] {
      MisreadIff(list[1..]);
      assert forall i :: 0 <= i < |list| - 1 ==> list[1..][i] == list[i + 1];
      assert forall i :: 1 <= i < |list| ==> list[i] == list[1..][i - 1];
    }
  }

  lemma ReadsOne(token: string, rest: seq<string>)
    requires Width(token) == 1
    ensures ParseTokens([token] + rest) == EntryOf(token) + ParseTokens(rest)
  {
    hide EntryOf, Width;
    assert ([token] + rest)[1..] == rest;
    assert EntryOf(token) + [] == EntryOf(token);
  }

  lemma ReadsTwo(token: string, skipped: string, rest: seq<string>)
    requires Width(token) == 2
    ensures ParseTokens([token, skipped] + rest) == EntryOf(token) + ParseTokens(rest)
  {
    hide EntryOf, Width;
    assert ([token, skipped] + rest)[2..] == rest;
    assert EntryOf(token) + [] == EntryOf(token);
  }

  const FIRST := Printed(WorkingTreeChange(" R", "a"), "R  b")
  const SECOND := Printed(WorkingTreeChange("R ", "b"), "q")

  lemma TheirTokens()
    ensures FullTokens([FIRST, SECOND]) == [" R a"] + (["R  b", "R  b"] + (["q"] + []))
  {
    assert EntryToken(FIRST.change) == " R a" && EntryToken(SECOND.change) == "R  b";
    assert 'R' in "RC" && ' ' !in "RC";
    assert FullTokensOf(FIRST) == [" R a", "R  b"] && FullTokensOf(SECOND) == ["R  b", "q"];
    assert [FIRST, SECOND][1..] == [SECOND] && [SECOND][1..] == [];
    assert FullTokens([SECOND]) == ["R  b", "q"];
  }

  /** Outside these lists a short origin can make up for a misread one: the first origin here is
      read as the second change and swallows it, and the second origin is stepped over. */
  lemma ShortOriginsMayHide()
    ensures Parse(PrintFully([FIRST, SECOND])) == Changes([FIRST, SECOND])
  {
    hide ParseTokens, EntryOf, Width, FullTokens, NonEmpty, Split, Terminated;
    TheirTokens();
    SplitTerminated(FullTokens([FIRST, SECOND]));
    TheirEntries();
    ReadsOne(" R a", ["R  b", "R  b"] + (["q"] + []));
    ReadsTwo("R  b", "R  b", ["q"] + []);
    ReadsOne("q", []);
    assert Changes([FIRST, SECOND]) == [FIRST.change] + ([SECOND.change] + ([] + []));
  }

  lemma TheirEntries()
    ensures EntryOf(" R a") == [FIRST.change] && Width(" R a") == 1
    ensures EntryOf("R  b") == [SECOND.change] && Width("R  b") == 2
    ensures EntryOf("q") == [] && Width("q") == 1 && ParseTokens([]) == []
  {
    assert 'R' in "RC" && ' ' !in "RC";
    assert EntryToken(FIRST.change) == " R a" && EntryToken(SECOND.change) == "R  b";
    EntryTokenReads(FIRST.change);
    EntryTokenReads(SECOND.change);
  }
}
