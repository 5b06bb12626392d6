/** Repository-relative path normalisation (packages/core-state/src/path.ts). */
module Paths {

  datatype Platform = CaseSensitive | CaseInsensitive

  /** Split at `/` and, on Windows spelling, at `\`. */
  function Segments(path: string): (segments: seq<string>)
    ensures |segments| > 0
    ensures forall s :: s in segments ==> Plain(s)
  {
    if path == "" then [""]
    else
      var rest := Segments(path[1..]);
      assert rest[0] in rest;
      if path[0] == '/' || path[0] == '\\' then [""] + rest
      else [[path[0]] + rest[0]] + rest[1..]
  }

  predicate Plain(s: string) {
    '/' !in s && '\\' !in s
  }

  /** One segment against the segments resolved so far. */
  function Push(resolved: seq<string>, segment: string): seq<string> {
    if segment == "" || segment == "." then resolved
    else if segment == ".." then
      if resolved != [] && resolved[|resolved| - 1] != ".." then resolved[..|resolved| - 1]
      else resolved + [".."]
    else resolved + [segment]
  }

  function Resolve(segments: seq<string>): seq<string> {
    if segments == [] then []
    else Push(Resolve(segments[..|segments| - 1]), segments[|segments| - 1])
  }

  function Join(segments: seq<string>): string {
    if segments == [] then ""
    else if |segments| == 1 then segments[0]
    else segments[0] + "/" + Join(segments[1..])
  }

  function NormalizePath(path: string): string {
    Join(Resolve(Segments(path)))
  }

  method Normalize(rawPath: string) returns (normalized: string)
    ensures normalized == NormalizePath(rawPath)
  {
    var segments := Segments(rawPath);
    var resolved: seq<string> := [];
    for i := 0 to |segments|
      invariant resolved == Resolve(segments[..i])
    {
      var segment := segments[i];
      assert segments[..i + 1][..i] == segments[..i];
      if segment == "" || segment == "." {
      } else if segment == ".." {
        if resolved != [] && resolved[|resolved| - 1] != ".." {
          resolved := resolved[..|resolved| - 1];
        } else {
          resolved := resolved + [".."];
        }
      } else {
        resolved := resolved + [segment];
      }
    }
    assert segments[..|segments|] == segments;
    normalized := Join(resolved);
  }

  function LowerCase(c: char): char {
    if 'A' <= c <= 'Z' then c + 32 as char else c
  }

  function ToLowerCase(s: string): string {
    seq(|s|, i requires 0 <= i < |s| => LowerCase(s[i]))
  }

  function MatchKey(normalized: string, platform: Platform): string {
    if platform.CaseInsensitive? then ToLowerCase(normalized) else normalized
  }

  function PathKey(path: string, platform: Platform): string {
    MatchKey(NormalizePath(path), platform)
  }

  /** How a host spells paths: normalisation, and the folding that its registries
      match normalised paths by. The registries and caches are stated for any
      spelling that normalises once and for all. */
  datatype Spelling = Spelling(normalize: string -> string, fold: string -> string) {
    function Key(path: string): string {
      fold(normalize(path))
    }

    ghost predicate Lawful() {
      forall path :: normalize(normalize(path)) == normalize(path)
    }
  }

  function HostSpelling(platform: Platform): Spelling {
    Spelling(NormalizePath, normalized => MatchKey(normalized, platform))
  }

  lemma HostSpellingIsLawful(platform: Platform)
    ensures HostSpelling(platform).Lawful()
    ensures forall path :: HostSpelling(platform).Key(path) == PathKey(path, platform)
  {
    forall path ensures NormalizePath(NormalizePath(path)) == NormalizePath(path) {
      NormalizeTwice(path);
    }
  }

  // ----- Normalising twice changes nothing -----

  /** The segment lists that resolution produces: no empty or `.` segment, and
      `..` only in front. */
  ghost predicate Canonical(segments: seq<string>) {
    (forall s :: s in segments ==> Plain(s) && s != "" && s != ".")
    && forall i :: 0 < i < |segments| && segments[i] == ".." ==> segments[i - 1] == ".."
  }

  lemma {:induction false} ResolveIsCanonical(segments: seq<string>)
    requires forall s :: s in segments ==> Plain(s)
    ensures Canonical(Resolve(segments))
  {
    if segments != [] {
      ResolveIsCanonical(segments[..|segments| - 1]);
    }
  }

  lemma {:induction false} ResolveCanonical(segments: seq<string>)
    requires Canonical(segments)
    ensures Resolve(segments) == segments
  {
    hide Plain;
    if segments != [] {
      var init, last := segments[..|segments| - 1], segments[|segments| - 1];
      assert forall s :: s in init ==> s in segments;
      ResolveCanonical(init);
      assert segments == init + [last];
      assert last in segments;
      assert Push(init, last) == init + [last];
    }
  }

  lemma {:induction false} SegmentsOfPlain(segment: string, rest: string)
    requires Plain(segment)
    ensures Segments(segment) == [segment]
    ensures Segments(segment + "/" + rest) == [segment] + Segments(rest)
  {
    if segment == "" {
      assert segment + "/" + rest == "/" + rest;
      assert ("/" + rest)[1..] == rest;
    } else {
      SegmentsOfPlain(segment[1..], rest);
      assert (segment + "/" + rest)[1..] == segment[1..] + "/" + rest;
      assert [segment[0]] + segment[1..] == segment;
    }
  }

  lemma {:induction false} SegmentsOfJoin(segments: seq<string>)
    requires segments != [] && forall s :: s in segments ==> Plain(s)
    ensures Segments(Join(segments)) == segments
  {
    hide Segments, Plain;
    var first, rest := segments[0], segments[1..];
    assert first in segments && forall s :: s in rest ==> s in segments;
    SegmentsOfPlain(first, Join(rest));
    if rest == [] {
      assert Join(segments) == first && segments == [first];
    } else {
      SegmentsOfJoin(rest);
      assert Join(segments) == first + "/" + Join(rest) && segments == [first] + rest;
    }
  }

  lemma NormalizeTwice(path: string)
    ensures NormalizePath(NormalizePath(path)) == NormalizePath(path)
  {
    var resolved := Resolve(Segments(path));
    ResolveIsCanonical(Segments(path));
    ResolveCanonical(resolved);
    if resolved == [] {
      assert Segments("")[..0] == [];
    } else {
      SegmentsOfJoin(resolved);
    }
  }

  // ----- What normalisation means, without its steps -----

  /** A segment that names an entry. */
  predicate Named(segment: string) {
    Plain(segment) && segment != "" && segment != "." && segment != ".."
  }

  lemma {:induction false} SameFront(a: seq<string>, c: seq<string>, b: seq<string>)
    requires Resolve(a) == Resolve(c)
    ensures Resolve(a + b) == Resolve(c + b)
  {
    if b == [] {
      assert a + b == a && c + b == c;
    } else {
      var init, last := b[..|b| - 1], b[|b| - 1];
      SameFront(a, c, init);
      assert (a + b)[..|a + b| - 1] == a + init && (a + b)[|a + b| - 1] == last;
      assert (c + b)[..|c + b| - 1] == c + init && (c + b)[|c + b| - 1] == last;
    }
  }

  /** A parent step takes back exactly the named segment before it. */
  lemma ParentTakesBack(a: seq<string>, segment: string, b: seq<string>)
    requires Named(segment)
    ensures Resolve(a + [segment, ".."] + b) == Resolve(a + b)
  {
    var resolved := Resolve(a);
    assert (a + [segment])[..|a|] == a;
    assert (a + [segment, ".."])[..|a| + 1] == a + [segment];
    assert Resolve(a + [segment]) == resolved + [segment];
    assert (resolved + [segment])[..|resolved|] == resolved;
    SameFront(a + [segment, ".."], a, b);
  }

  /** An empty segment and a dot change nothing. */
  lemma DotsDoNotCount(a: seq<string>, segment: string, b: seq<string>)
    requires segment == "" || segment == "."
    ensures Resolve(a + [segment] + b) == Resolve(a + b)
  {
    assert (a + [segment])[..|a|] == a;
    SameFront(a + [segment], a, b);
  }

  ghost predicate TakesBack(f: seq<string> -> seq<string>) {
    forall a, segment, b | Named(segment) :: f(a + [segment, ".."] + b) == f(a + b)
  }

  ghost predicate IgnoresDots(f: seq<string> -> seq<string>) {
    forall a, segment, b | segment == "" || segment == "." :: f(a + [segment] + b) == f(a + b)
  }

  /** And nothing else has these two laws and leaves the canonical lists alone. */
  lemma OnlyResolve(f: seq<string> -> seq<string>, segments: seq<string>)
    requires TakesBack(f) && IgnoresDots(f) && forall c :: Canonical(c) ==> f(c) == c
    requires forall s :: s in segments ==> Plain(s)
    ensures f(segments) == Resolve(segments)
  {
    ResolvedFront(f, segments, |segments|);
    ResolveIsCanonical(segments);
    assert segments[..|segments|] == segments && Resolve(segments) + segments[|segments|..] == Resolve(segments);
  }

  lemma {:induction false} ResolvedFront(f: seq<string> -> seq<string>, segments: seq<string>, n: nat)
    requires TakesBack(f) && IgnoresDots(f) && n <= |segments|
    requires forall s :: s in segments ==> Plain(s)
    ensures f(segments) == f(Resolve(segments[..n]) + segments[n..])
  {
    hide Plain, Push, Canonical, TakesBack, IgnoresDots;
    if n == 0 {
      assert [] + segments[0..] == segments;
    } else {
      ResolvedFront(f, segments, n - 1);
      var before, segment, rest := Resolve(segments[..n - 1]), segments[n - 1], segments[n..];
      assert segments[..n][..n - 1] == segments[..n - 1];
      assert before + segments[n - 1..] == before + [segment] + rest;
      assert forall s :: s in segments[..n - 1] ==> s in segments;
      ResolveIsCanonical(segments[..n - 1]);
      OnePush(f, before, segment, rest);
    }
  }

  lemma OnePush(f: seq<string> -> seq<string>, before: seq<string>, segment: string, rest: seq<string>)
    requires TakesBack(f) && IgnoresDots(f) && Canonical(before)
    ensures f(before + [segment] + rest) == f(Push(before, segment) + rest)
  {
    hide Canonical, Plain;
    if segment == ".." && before != [] && before[|before| - 1] != ".." {
      var front, last := before[..|before| - 1], before[|before| - 1];
      NamedLast(before);
      assert before + [segment] + rest == front + [last, ".."] + rest;
    }
  }

  lemma NamedLast(segments: seq<string>)
    requires Canonical(segments) && segments != [] && segments[|segments| - 1] != ".."
    ensures Named(segments[|segments| - 1])
  {
    assert segments[|segments| - 1] in segments;
  }

  /** The segments of a text with one more character in front. */
  function Prepended(c: char, segments: seq<string>): seq<string>
    requires segments != []
  {
    if c == '/' || c == '\\' then [""] + segments else [[c] + segments[0]] + segments[1..]
  }

  lemma SegmentsCons(c: char, rest: string)
    ensures Segments([c] + rest) == Prepended(c, Segments(rest))
  {
    assert ([c] + rest)[1..] == rest;
  }

  lemma PrependedConcat(c: char, first: seq<string>, second: seq<string>)
    requires first != []
    ensures Prepended(c, first + second) == Prepended(c, first) + second
  {
    assert (first + second)[1..] == first[1..] + second;
  }

  lemma {:induction false} SegmentsConcat(a: string, separator: char, b: string)
    requires separator == '/' || separator == '\\'
    ensures Segments(a + [separator] + b) == Segments(a) + Segments(b)
  {
    hide Segments, Prepended;
    if a == "" {
      assert a + [separator] + b == [separator] + b;
      StartsWithSeparator(separator, b);
    } else {
      var rest := a[1..] + [separator] + b;
      SegmentsConcat(a[1..], separator, b);
      SegmentsCons(a[0], a[1..]);
      SegmentsCons(a[0], rest);
      PrependedConcat(a[0], Segments(a[1..]), Segments(b));
      assert a + [separator] + b == [a[0]] + rest && a == [a[0]] + a[1..];
    }
  }

  lemma StartsWithSeparator(separator: char, b: string)
    requires separator == '/' || separator == '\\'
    ensures Segments([separator] + b) == Segments("") + Segments(b)
  {
    SegmentsCons(separator, b);
  }

  /** On text: a named segment and the parent step after it cancel, empty segments and dots do not
      count, and both separators mean the same. */
  lemma NormalizeLaws(a: string, segment: string, b: string)
    requires Named(segment)
    ensures NormalizePath(a + "/" + (segment + "/" + (".." + "/" + b))) == NormalizePath(a + "/" + b)
    ensures NormalizePath(a + "/" + ("." + "/" + b)) == NormalizePath(a + "/" + b)
    ensures NormalizePath(a + "/" + ("" + "/" + b)) == NormalizePath(a + "/" + b)
    ensures NormalizePath(a + "\\" + b) == NormalizePath(a + "/" + b)
  {
    hide Segments, Resolve, Plain;
    var front, back := Segments(a), Segments(b);
    OneSegment(segment);
    OneSegment("..");
    OneSegment(".");
    OneSegment("");
    SegmentsConcat(a, '/', b);
    SegmentsConcat(a, '\\', b);
    SegmentsConcat(a, '/', segment + "/" + (".." + "/" + b));
    SegmentsConcat(segment, '/', ".." + "/" + b);
    SegmentsConcat("..", '/', b);
    SegmentsConcat(a, '/', "." + "/" + b);
    SegmentsConcat(".", '/', b);
    SegmentsConcat(a, '/', "" + "/" + b);
    SegmentsConcat("", '/', b);
    assert front + ([segment] + ([".."] + back)) == front + [segment, ".."] + back;
    assert front + (["."] + back) == front + ["."] + back && front + ([""] + back) == front + [""] + back;
    ParentTakesBack(front, segment, back);
    DotsDoNotCount(front, ".", back);
    DotsDoNotCount(front, "", back);
  }

  lemma OneSegment(segment: string)
    requires Plain(segment)
    ensures Segments(segment) == [segment]
  {
    SegmentsOfPlain(segment, "");
  }

  // ----- Which paths a host takes for one -----

  predicate SameLetter(c: char, d: char) {
    || c == d
    || ('A' <= c <= 'Z' && d as int == c as int + 32)
    || ('A' <= d <= 'Z' && c as int == d as int + 32)
  }

  /** Case-sensitive hosts match paths with one normal form, the others those whose normal forms
      differ in letter case at most. */
  lemma PathsMatchIff(a: string, b: string)
    ensures PathKey(a, CaseSensitive) == PathKey(b, CaseSensitive) <==> NormalizePath(a) == NormalizePath(b)
    ensures PathKey(a, CaseInsensitive) == PathKey(b, CaseInsensitive) <==>
            && |NormalizePath(a)| == |NormalizePath(b)|
            && forall i :: 0 <= i < |NormalizePath(a)| ==> SameLetter(NormalizePath(a)[i], NormalizePath(b)[i])
  {
    hide NormalizePath;
    var x, y := NormalizePath(a), NormalizePath(b);
    if PathKey(a, CaseInsensitive) == PathKey(b, CaseInsensitive) {
      assert |ToLowerCase(x)| == |x| && |ToLowerCase(y)| == |y|;
      forall i | 0 <= i < |x| ensures SameLetter(x[i], y[i]) {
        assert ToLowerCase(x)[i] == ToLowerCase(y)[i];
      }
    }
  }
}
