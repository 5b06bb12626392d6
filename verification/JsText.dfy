/** String operations of JavaScript that the models share. */
module JsText {

  /** The white space and line terminators that trimming removes and `\s` matches. */
  predicate IsSpace(c: char) {
    || '\t' <= c <= '\r' || c == ' ' || c == '\U{A0}' || c == '\U{1680}' || '\U{2000}' <= c <= '\U{200A}'
    || c in {'\U{2028}', '\U{2029}', '\U{202F}', '\U{205F}', '\U{3000}', '\U{FEFF}'}
  }

  function TrimStart(text: string): (trimmed: string)
    ensures trimmed != "" ==> !IsSpace(trimmed[0])
  {
    if text != "" && IsSpace(text[0]) then TrimStart(text[1..]) else text
  }

  function TrimEnd(text: string): string {
    if text != "" && IsSpace(text[|text| - 1]) then TrimEnd(text[..|text| - 1]) else text
  }

  function Trim(text: string): string {
    TrimEnd(TrimStart(text))
  }

  /** Nothing is left of a text exactly when it is all white space. */
  lemma {:induction false} TrimmedAwayIff(text: string)
    ensures Trim(text) == "" <==> forall i :: 0 <= i < |text| ==> IsSpace(text[i])
  {
    if text != "" {
      if IsSpace(text[0]) {
        TrimmedAwayIff(text[1..]);
        assert forall i :: 1 <= i < |text| ==> text[i] == text[1..][i - 1];
        assert text == [text[0]] + text[1..];
      } else {
        KeepsFirst(text);
      }
    }
  }

  lemma {:induction false} KeepsFirst(text: string)
    requires text != "" && !IsSpace(text[0])
    ensures TrimEnd(text) != ""
  {
    if IsSpace(text[|text| - 1]) {
      KeepsFirst(text[..|text| - 1]);
    }
  }

  predicate AllSpace(text: string) {
    forall i :: 0 <= i < |text| ==> IsSpace(text[i])
  }

  lemma {:induction false} TrimStartTakes(text: string) returns (before: string)
    ensures text == before + TrimStart(text) && AllSpace(before)
  {
    if text != "" && IsSpace(text[0]) {
      before := TrimStartTakes(text[1..]);
      assert text == [text[0]] + text[1..];
      before := [text[0]] + before;
    } else {
      before := "";
    }
  }

  lemma {:induction false} TrimEndTakes(text: string) returns (after: string)
    ensures text == TrimEnd(text) + after && AllSpace(after)
    ensures TrimEnd(text) != "" ==> !IsSpace(TrimEnd(text)[|TrimEnd(text)| - 1])
  {
    if text != "" && IsSpace(text[|text| - 1]) {
      after := TrimEndTakes(text[..|text| - 1]);
      assert text == text[..|text| - 1] + [text[|text| - 1]];
      after := after + [text[|text| - 1]];
    } else {
      after := "";
    }
  }

  /** Trimming takes white space away at both ends, all of it, and nothing else. */
  lemma TrimTakes(text: string) returns (before: string, after: string)
    ensures text == before + Trim(text) + after && AllSpace(before) && AllSpace(after)
    ensures Trim(text) != "" ==> !IsSpace(Trim(text)[0]) && !IsSpace(Trim(text)[|Trim(text)| - 1])
  {
    before := TrimStartTakes(text);
    after := TrimEndTakes(TrimStart(text));
    assert TrimStart(text) == Trim(text) + after;
    assert before + (Trim(text) + after) == before + Trim(text) + after;
  }
}
