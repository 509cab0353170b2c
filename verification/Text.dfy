/** The string operations the key file relies on: trimming, words, splitting, joining and lines. */
module Text {
  import opened Pieces

  /** Unicode White_Space. */
  predicate IsSpace(c: char) {
    || '\t' <= c <= '\r' || c == ' ' || c == '\U{0085}' || c == '\U{00A0}' || c == '\U{1680}'
    || '\U{2000}' <= c <= '\U{200A}' || c == '\U{2028}' || c == '\U{2029}' || c == '\U{202F}'
    || c == '\U{205F}' || c == '\U{3000}'
  }

  /** The code points with that property. */
  lemma SpaceIff(c: char)
    ensures IsSpace(c) <==>
            || 9 <= c as int <= 13 || 0x2000 <= c as int <= 0x200A
            || c as int in {0x20, 0x85, 0xA0, 0x1680, 0x2028, 0x2029, 0x202F, 0x205F, 0x3000}
  {
  }

  predicate AllSpace(s: string) { forall i :: 0 <= i < |s| ==> IsSpace(s[i]) }

  predicate NoSpace(s: string) { forall i :: 0 <= i < |s| ==> !IsSpace(s[i]) }

  function TrimStart(s: string): string {
    if s != "" && IsSpace(s[0]) then TrimStart(s[1..]) else s
  }

  function TrimEnd(s: string): string {
    if s != "" && IsSpace(s[|s| - 1]) then TrimEnd(s[..|s| - 1]) else s
  }

  function Trim(s: string): string { TrimEnd(TrimStart(s)) }

  function Join(ts: seq<string>, c: char): string {
    if ts == [] then "" else if |ts| == 1 then ts[0] else ts[0] + [c] + Join(ts[1..], c)
  }

  /** The maximal runs of non-space characters. */
  function Words(s: string): (r: seq<string>)
    ensures s != "" && !IsSpace(s[0]) ==> r != []
  {
    if s == "" then []
    else if IsSpace(s[0]) then Words(s[1..])
    else if |s| == 1 || IsSpace(s[1]) then [[s[0]]] + Words(s[1..])
    else var r := Words(s[1..]); [[s[0]] + r[0]] + r[1..]
  }

  // ---------------- words ----------------

  lemma {:induction false} WordsThen(w: string, s: string)
    requires w != "" && NoSpace(w) && (s == "" || IsSpace(s[0]))
    ensures Words(w + s) == [w] + Words(s)
  {
    if |w| > 1 {
      WordsThen(w[1..], s);
      assert (w + s)[1..] == w[1..] + s;
      assert w == [w[0]] + w[1..];
    } else {
      assert (w + s)[1..] == s && w == [w[0]];
    }
  }

  lemma {:induction false} WordsSkip(sp: string, s: string)
    requires AllSpace(sp)
    ensures Words(sp + s) == Words(s)
  {
    if sp == "" {
      assert sp + s == s;
    } else {
      WordsSkip(sp[1..], s);
      assert (sp + s)[1..] == sp[1..] + s;
    }
  }

  lemma {:induction false} WordsGlue(w: string, s: string)
    requires NoSpace(w) && s != "" && !IsSpace(s[0])
    ensures Words(w + s) == [w + Words(s)[0]] + Words(s)[1..]
  {
    var ws := Words(s);
    if w == "" {
      assert w + s == s && w + ws[0] == ws[0];
    } else {
      WordsGlue(w[1..], s);
      ConsAssoc(w, s);
      ConsAssoc(w, ws[0]);
    }
  }

  lemma ConsAssoc(w: string, s: string)
    requires w != ""
    ensures w + s == [w[0]] + (w[1..] + s)
  {
  }

  lemma {:induction false} WordsTrailing(s: string, c: char)
    requires IsSpace(c)
    ensures Words(s + [c]) == Words(s)
  {
    if s == "" {
      assert Words([c]) == Words([c][1..]);
    } else {
      WordsTrailing(s[1..], c);
      assert (s + [c])[1..] == s[1..] + [c];
    }
  }

  lemma {:induction false} WordsTrimStart(s: string)
    ensures Words(TrimStart(s)) == Words(s)
  {
    if s != "" && IsSpace(s[0]) { WordsTrimStart(s[1..]); }
  }

  lemma {:induction false} WordsTrimEnd(s: string)
    ensures Words(TrimEnd(s)) == Words(s)
  {
    if s != "" && IsSpace(s[|s| - 1]) {
      WordsTrimEnd(s[..|s| - 1]);
      WordsTrailing(s[..|s| - 1], s[|s| - 1]);
      assert s == s[..|s| - 1] + [s[|s| - 1]];
    }
  }

  lemma WordsTrim(s: string)
    ensures Words(Trim(s)) == Words(s)
  {
    WordsTrimStart(s);
    WordsTrimEnd(TrimStart(s));
  }

  // ---------------- splitting ----------------

  /** Pieces without the separator come back from joining. */
  lemma {:induction false} SplitJoin(ts: seq<string>, c: char)
    requires ts != [] && forall t :: t in ts ==> c !in t
    ensures SplitOn(Join(ts, c), c) == ts
  {
    if |ts| == 1 {
      SplitPlain(ts[0], c);
    } else {
      SplitJoin(ts[1..], c);
      SplitFirst(ts[0], Join(ts[1..], c), c);
    }
  }

  // ---------------- trimming ----------------

  lemma {:induction false} TrimStartTrailing(s: string, c: char)
    requires IsSpace(c)
    ensures TrimStart(s + [c]) == if AllSpace(s) then "" else TrimStart(s) + [c]
    ensures AllSpace(s) <==> TrimStart(s) == ""
  {
    if s == "" {
      assert TrimStart([c]) == TrimStart([c][1..]);
    } else if IsSpace(s[0]) {
      TrimStartTrailing(s[1..], c);
      assert (s + [c])[1..] == s[1..] + [c];
      assert AllSpace(s) <==> AllSpace(s[1..]) by {
        assert forall i :: 1 <= i < |s| ==> s[i] == s[1..][i - 1];
      }
    }
  }

  lemma TrimTrailing(s: string, c: char)
    requires IsSpace(c)
    ensures Trim(s + [c]) == Trim(s)
  {
    TrimStartTrailing(s, c);
    var t := TrimStart(s);
    if t != "" { assert (t + [c])[..|t|] == t; }
  }

  // ---------------- lines ----------------

  function StripCr(s: string): string {
    if s != "" && s[|s| - 1] == '\r' then s[..|s| - 1] else s
  }

  /** The lines of a text: a final newline starts no further line, and a carriage return before a newline belongs to it. */
  function Lines(text: string): seq<string>
    decreases |text|
  {
    if text == "" then []
    else
      var p := Until(text, '\n');
      if |p| == |text| then [text] else [StripCr(p)] + Lines(text[|p| + 1..])
  }

  lemma LineThen(p: string, l: string, rest: string)
    requires '\n' !in p && StripCr(p) == l
    ensures Lines(p + ['\n'] + rest) == [l] + Lines(rest)
  {
    var text := p + ['\n'] + rest;
    UntilFirst(p, rest, '\n');
    assert text[|p| + 1..] == rest;
  }

  /** A line ends at a newline, or at a carriage return and a newline. */
  lemma LineEnds(l: string, rest: string)
    requires '\n' !in l && (l != "" ==> l[|l| - 1] != '\r')
    ensures Lines(l + ['\n'] + rest) == [l] + Lines(rest)
    ensures Lines((l + ['\r']) + ['\n'] + rest) == [l] + Lines(rest)
  {
    LineThen(l, l, rest);
    var p := l + ['\r'];
    assert StripCr(p) == l by { assert p[..|p| - 1] == l; }
    LineThen(p, l, rest);
  }

  function TrimAll(ls: seq<string>): seq<string> { seq(|ls|, i requires 0 <= i < |ls| => Trim(ls[i])) }

  function TrimmedLines(text: string): seq<string>
    decreases |text|
  {
    if text == "" then []
    else
      var p := Until(text, '\n');
      if |p| == |text| then [Trim(text)] else [Trim(p)] + TrimmedLines(text[|p| + 1..])
  }

  lemma {:induction false} TrimmedIsTrim(text: string)
    ensures TrimmedLines(text) == TrimAll(Lines(text))
    decreases |text|
  {
    if text != "" {
      var p := Until(text, '\n');
      if |p| < |text| {
        TrimmedIsTrim(text[|p| + 1..]);
        TrimStripCr(p);
        TrimAllCons(StripCr(p), Lines(text[|p| + 1..]));
      }
    }
  }

  lemma TrimAllCons(l: string, ls: seq<string>)
    ensures TrimAll([l] + ls) == [Trim(l)] + TrimAll(ls)
  {
  }

  lemma TrimStripCr(s: string)
    ensures Trim(StripCr(s)) == Trim(s)
  {
    if s != "" && s[|s| - 1] == '\r' {
      TrimTrailing(s[..|s| - 1], '\r');
      assert s == s[..|s| - 1] + ['\r'];
    }
  }

  /** A newline-terminated line in front of a text. */
  lemma FirstLine(l: string, rest: string, text: string)
    requires '\n' !in l && text == l + ['\n'] + rest
    ensures TrimmedLines(text) == [Trim(l)] + TrimmedLines(rest)
  {
    UntilFirst(l, rest, '\n');
    assert text[|l| + 1..] == rest;
  }

  lemma CutLine(text: string) returns (l: string, rest: string)
    requires '\n' in text
    ensures '\n' !in l && text == l + ['\n'] + rest
  {
    l := Until(text, '\n');
    rest := text[|l| + 1..];
  }

  /** Texts ending in a newline have lines that simply follow one another. */
  lemma {:induction false} LinesConcat(a: string, b: string)
    requires a == "" || a[|a| - 1] == '\n'
    ensures TrimmedLines(a + b) == TrimmedLines(a) + TrimmedLines(b)
    decreases |a|
  {
    if a == "" {
      assert a + b == b;
    } else {
      var l, a' := CutLine(a);
      if a' != "" { assert a'[|a'| - 1] == a[|a| - 1]; }
      assert a + b == l + ['\n'] + (a' + b);
      LinesAfter(l, a', b, a, a + b);
    }
  }

  lemma LinesAfter(l: string, a': string, b: string, a: string, ab: string)
    requires '\n' !in l && (a' == "" || a'[|a'| - 1] == '\n')
    requires a == l + ['\n'] + a' && ab == l + ['\n'] + (a' + b)
    ensures TrimmedLines(ab) == TrimmedLines(a) + TrimmedLines(b)
    decreases |a|, 0
  {
    LinesConcat(a', b);
    FirstLine(l, a', a);
    FirstLine(l, a' + b, ab);
    Prepend(Trim(l), TrimmedLines(a'), TrimmedLines(b), TrimmedLines(a' + b));
  }

  lemma Prepend(x: string, s: seq<string>, t: seq<string>, u: seq<string>)
    requires u == s + t
    ensures [x] + u == ([x] + s) + t
  {
  }

  /** Ending the last line changes no trimmed line. */
  lemma {:induction false} EndLine(a: string)
    requires a != "" && a[|a| - 1] != '\n'
    ensures TrimmedLines(a + ['\n']) == TrimmedLines(a)
    decreases |a|
  {
    if '\n' !in a {
      FirstLine(a, "", a + ['\n']);
      UntilFirst(a, "", '\n');
    } else {
      var l, a' := CutLine(a);
      assert a'[|a'| - 1] == a[|a| - 1];
      EndLine(a');
      FirstLine(l, a', a);
      FirstLine(l, a' + ['\n'], a + ['\n']);
    }
  }

  function Unlines(ls: seq<string>): string {
    if ls == [] then "" else ls[0] + ['\n'] + Unlines(ls[1..])
  }

  lemma {:induction false} LinesUnlines(ls: seq<string>)
    requires forall l :: l in ls ==> '\n' !in l
    ensures TrimmedLines(Unlines(ls)) == TrimAll(ls)
  {
    if ls != [] {
      LinesUnlines(ls[1..]);
      FirstLine(ls[0], Unlines(ls[1..]), Unlines(ls));
      TrimAllCons(ls[0], ls[1..]);
      assert ls == [ls[0]] + ls[1..];
    }
  }

  lemma {:induction false} LinesPlain(text: string)
    ensures forall l :: l in Lines(text) ==> '\n' !in l
    decreases |text|
  {
    if text != "" {
      var p := Until(text, '\n');
      if |p| < |text| {
        LinesPlain(text[|p| + 1..]);
      }
    }
  }


  // ---------------- numerals ----------------

  function Digit(d: nat): char
    requires d < 10
  {
    '0' + d as char
  }

  /** A number in decimal, without leading zeros. */
  function Numeral(n: nat): (r: string)
    ensures r != ""
  {
    if n < 10 then [Digit(n)] else Numeral(n / 10) + [Digit(n % 10)]
  }

  lemma {:induction false} NumeralUnique(a: nat, b: nat)
    requires Numeral(a) == Numeral(b)
    ensures a == b
    decreases a
  {
    var s, t := Numeral(a), Numeral(b);
    assert s[|s| - 1] == t[|t| - 1] && s[..|s| - 1] == t[..|t| - 1];
    assert s[|s| - 1] == Digit(a % 10) && t[|t| - 1] == Digit(b % 10);
    if a >= 10 && b >= 10 { NumeralUnique(a / 10, b / 10); }
  }
}
