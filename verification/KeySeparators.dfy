/**
  What stands between options: any non-empty run of commas and whitespace.
  Words are joined by commas and split again, so every comma and every stretch
  of whitespace marks one boundary, and each boundary beyond the first leaves
  an empty token behind.
 */
module KeySeparators {
  import opened Pieces
  import opened Text

  /** Text that cannot be mistaken for a separator or a comment. */
  predicate Plain(s: string) { NoSpace(s) && ',' !in s && '#' !in s }

  predicate Wordlike(t: string) { t != "" && Plain(t) }

  predicate Blank(sep: string) { forall i :: 0 <= i < |sep| ==> sep[i] == ',' || IsSpace(sep[i]) }

  /** What the parser takes for a separator between options: commas and whitespace in any order. */
  predicate Gap(sep: string) { sep != "" && Blank(sep) }

  /** A single comma or a run of whitespace. */
  predicate Separator(s: string) { s == "," || (s != "" && AllSpace(s)) }

  /** What follows the leading whitespace. */
  function AfterSpace(sep: string): (r: string)
    ensures |r| <= |sep| && (sep != "" && IsSpace(sep[0]) ==> |r| < |sep|)
  {
    if sep != "" && IsSpace(sep[0]) then AfterSpace(sep[1..]) else sep
  }

  /** Boundaries marked: one for each comma, one for each stretch of whitespace. */
  function Marks(sep: string): nat
    decreases |sep|
  {
    if sep == "" then 0 else if IsSpace(sep[0]) then 1 + Marks(AfterSpace(sep)) else 1 + Marks(sep[1..])
  }

  /** Those beyond the first. */
  function Surplus(sep: string): nat { if sep == "" then 0 else Marks(sep) - 1 }

  lemma {:induction false} AfterSpaceBlank(sep: string)
    requires Blank(sep)
    ensures Blank(AfterSpace(sep)) && (AfterSpace(sep) != "" ==> AfterSpace(sep)[0] == ',')
    ensures AfterSpace(sep) == "" <==> AllSpace(sep)
  {
    if sep != "" && IsSpace(sep[0]) { AfterSpaceBlank(sep[1..]); }
  }

  /** Exactly the single comma and the run of whitespace mark one boundary. */
  lemma OneMarkIff(sep: string)
    requires Gap(sep)
    ensures Surplus(sep) == 0 <==> Separator(sep)
  {
    if sep[0] == ',' {
      assert Marks(sep) == 1 + Marks(sep[1..]);
      if |sep| == 1 { assert sep == "," && sep[1..] == ""; } else { assert sep[1..] != ""; }
    } else {
      AfterSpaceBlank(sep);
      assert Marks(sep) == 1 + Marks(AfterSpace(sep));
      assert Marks(AfterSpace(sep)) == 0 <==> AfterSpace(sep) == "";
      assert sep != "," by { assert sep[0] != ','; }
    }
  }

  // ---------------- tokens ----------------

  /** The tokens with the given separators between them. */
  function Spelled(ts: seq<string>, seps: seq<string>): string
    requires |ts| == |seps| + 1
  {
    if seps == [] then ts[0] else ts[0] + (seps[0] + Spelled(ts[1..], seps[1..]))
  }

  function Empties(n: nat): seq<string> { if n == 0 then [] else [""] + Empties(n - 1) }

  function Commas(n: nat): string { if n == 0 then "" else "," + Commas(n - 1) }

  ghost predicate Gaps(seps: seq<string>) { forall i :: 0 <= i < |seps| ==> Gap(seps[i]) }

  /** The tokens as they are read: with an empty one for each boundary beyond the first. */
  function Widen(ts: seq<string>, seps: seq<string>): seq<string>
    requires |ts| == |seps| + 1
    decreases |seps|
  {
    if seps == [] then ts else [ts[0]] + (Empties(Surplus(seps[0])) + Widen(ts[1..], seps[1..]))
  }

  lemma JoinCons(t: string, ts: seq<string>)
    requires ts != []
    ensures Join([t] + ts, ',') == t + ("," + Join(ts, ','))
  {
    assert ([t] + ts)[1..] == ts;
    assert t + [','] + Join(ts, ',') == t + ("," + Join(ts, ','));
  }

  lemma JoinPrefix(p: string, ws: seq<string>)
    requires ws != []
    ensures Join([p + ws[0]] + ws[1..], ',') == p + Join(ws, ',')
  {
    if |ws| > 1 {
      JoinCons(p + ws[0], ws[1..]);
      JoinCons(ws[0], ws[1..]);
      assert [ws[0]] + ws[1..] == ws;
      Assoc(p, ws[0], "," + Join(ws[1..], ','));
    } else {
      assert [p + ws[0]] + ws[1..] == [p + ws[0]];
    }
  }

  lemma Assoc(a: string, b: string, c: string)
    ensures (a + b) + c == a + (b + c)
  {
  }

  lemma JoinEmpty(ts: seq<string>)
    requires ts != []
    ensures Join([""] + ts, ',') == "," + Join(ts, ',')
  {
    JoinCons("", ts);
    assert "" + ("," + Join(ts, ',')) == "," + Join(ts, ',');
  }

  lemma {:induction false} JoinEmpties(n: nat, ts: seq<string>)
    requires ts != []
    ensures Join(Empties(n) + ts, ',') == Commas(n) + Join(ts, ',')
  {
    if n == 0 {
      assert Empties(n) + ts == ts && Commas(n) + Join(ts, ',') == Join(ts, ',');
    } else {
      JoinEmpties(n - 1, ts);
      assert Empties(n) + ts == [""] + (Empties(n - 1) + ts);
      JoinEmpty(Empties(n - 1) + ts);
      Assoc(",", Commas(n - 1), Join(ts, ','));
    }
  }

  // ---------------- one separator ----------------

  /** Everything between two texts collapses to commas, one for each boundary. */
  lemma {:induction false} GapCollapses(p: string, sep: string, s: string)
    requires p != "" && NoSpace(p) && Blank(sep) && s != "" && !IsSpace(s[0])
    ensures Join(Words(p + (sep + s)), ',') == p + (Commas(Marks(sep)) + Join(Words(s), ','))
    decreases |sep|
  {
    var j := Join(Words(s), ',');
    if sep == "" {
      assert sep + s == s && Commas(0) + j == j;
      WordsGlue(p, s);
      JoinPrefix(p, Words(s));
    } else if sep[0] == ',' {
      var p' := p + ",";
      GapCollapses(p', sep[1..], s);
      CommaMoves(p, sep, s);
      Assoc(p, ",", Commas(Marks(sep[1..])) + j);
      Assoc(",", Commas(Marks(sep[1..])), j);
    } else {
      SpaceCollapses(p, sep, s);
    }
  }

  lemma CommaMoves(p: string, sep: string, s: string)
    requires sep != "" && sep[0] == ','
    ensures p + (sep + s) == (p + ",") + (sep[1..] + s)
  {
    assert sep == "," + sep[1..];
  }

  lemma SpaceCollapses(p: string, sep: string, s: string)
    requires p != "" && NoSpace(p) && Gap(sep) && IsSpace(sep[0]) && s != "" && !IsSpace(s[0])
    ensures Join(Words(p + (sep + s)), ',') == p + (Commas(Marks(sep)) + Join(Words(s), ','))
    decreases |sep|, 0
  {
    AfterSpaceBlank(sep);
    SpaceWords(p, sep, s);
    RestCollapses(AfterSpace(sep), s);
    JoinAfter(p, Words(AfterSpace(sep) + s), Commas(Marks(AfterSpace(sep))), Join(Words(s), ','));
  }

  lemma SpaceWords(p: string, sep: string, s: string)
    requires p != "" && NoSpace(p) && sep != "" && IsSpace(sep[0])
    ensures Words(p + (sep + s)) == [p] + Words(AfterSpace(sep) + s)
  {
    WordsThen(p, sep + s);
    WordsLeading(sep, s);
  }

  lemma JoinAfter(p: string, ws: seq<string>, m: string, j: string)
    requires ws != [] && Join(ws, ',') == m + j
    ensures Join([p] + ws, ',') == p + (("," + m) + j)
  {
    JoinCons(p, ws);
    Assoc(",", m, j);
  }

  lemma HeadComma(rest: string, s: string)
    requires rest != "" && rest[0] == ','
    ensures rest + s == "," + (rest[1..] + s) && Words(rest + s) != []
  {
    assert rest == "," + rest[1..];
  }

  lemma RestCollapses(rest: string, s: string)
    requires Blank(rest) && (rest != "" ==> rest[0] == ',') && s != "" && !IsSpace(s[0])
    ensures Words(rest + s) != [] && Join(Words(rest + s), ',') == Commas(Marks(rest)) + Join(Words(s), ',')
    decreases |rest|, 1
  {
    if rest == "" {
      assert rest + s == s && Commas(0) + Join(Words(s), ',') == Join(Words(s), ',');
    } else {
      var m := Commas(Marks(rest[1..]));
      GapCollapses(",", rest[1..], s);
      HeadComma(rest, s);
      Assoc(",", m, Join(Words(s), ','));
      assert Commas(Marks(rest)) == "," + m;
    }
  }

  lemma {:induction false} WordsLeading(sep: string, s: string)
    ensures Words(sep + s) == Words(AfterSpace(sep) + s)
    decreases |sep|
  {
    if sep != "" && IsSpace(sep[0]) {
      WordsLeading(sep[1..], s);
      assert (sep + s)[1..] == sep[1..] + s;
    }
  }

  // ---------------- all of them ----------------

  lemma SpelledStarts(ts: seq<string>, seps: seq<string>)
    requires |ts| == |seps| + 1 && Wordlike(ts[0])
    ensures Spelled(ts, seps) != "" && !IsSpace(Spelled(ts, seps)[0])
  {
  }

  lemma {:induction false} Collapse(ts: seq<string>, seps: seq<string>)
    requires |ts| == |seps| + 1 && Gaps(seps)
    requires forall i :: 0 <= i < |ts| ==> Wordlike(ts[i])
    ensures Join(Words(Spelled(ts, seps)), ',') == Join(Widen(ts, seps), ',')
    decreases |seps|
  {
    if seps == [] {
      WordsThen(ts[0], "");
      assert ts[0] + "" == ts[0] && ts == [ts[0]];
    } else {
      Collapse(ts[1..], seps[1..]);
      SpelledStarts(ts[1..], seps[1..]);
      CollapseStep(ts[0], seps[0], Spelled(ts[1..], seps[1..]), Widen(ts[1..], seps[1..]));
    }
  }

  lemma CollapseStep(t: string, sep: string, s: string, w: seq<string>)
    requires Wordlike(t) && Gap(sep) && s != "" && !IsSpace(s[0]) && w != [] && Join(Words(s), ',') == Join(w, ',')
    ensures Join(Words(t + (sep + s)), ',') == Join([t] + (Empties(Surplus(sep)) + w), ',')
  {
    var n, j := Surplus(sep), Join(w, ',');
    assert Marks(sep) == n + 1;
    GapCollapses(t, sep, s);
    assert Join(Words(t + (sep + s)), ',') == t + (Commas(n + 1) + j);
    WidenStep(t, n, w);
  }

  lemma WidenStep(t: string, n: nat, w: seq<string>)
    requires w != []
    ensures Join([t] + (Empties(n) + w), ',') == t + (Commas(n + 1) + Join(w, ','))
  {
    JoinEmpties(n, w);
    JoinCons(t, Empties(n) + w);
    Assoc(",", Commas(n), Join(w, ','));
  }

  lemma {:induction false} WidenPlain(ts: seq<string>, seps: seq<string>)
    requires |ts| == |seps| + 1 && Gaps(seps)
    requires forall i :: 0 <= i < |ts| ==> ',' !in ts[i]
    ensures Widen(ts, seps) != [] && forall t :: t in Widen(ts, seps) ==> ',' !in t
    decreases |seps|
  {
    if seps != [] {
      WidenPlain(ts[1..], seps[1..]);
      EmptiesPlain(Surplus(seps[0]));
    }
  }

  lemma {:induction false} EmptiesPlain(n: nat)
    ensures forall t :: t in Empties(n) ==> t == ""
  {
    if n > 0 { EmptiesPlain(n - 1); }
  }

  /** The tokens read back from any spelling. */
  lemma SpellingReads(ts: seq<string>, seps: seq<string>)
    requires |ts| == |seps| + 1 && Gaps(seps)
    requires forall i :: 0 <= i < |ts| ==> Wordlike(ts[i])
    ensures SplitOn(Join(Words(Spelled(ts, seps)), ','), ',') == Widen(ts, seps)
  {
    Collapse(ts, seps);
    WidenPlain(ts, seps);
    SplitJoin(Widen(ts, seps), ',');
  }

  lemma {:induction false} WidenSame(ts: seq<string>, seps: seq<string>)
    requires |ts| == |seps| + 1 && Gaps(seps) && forall i :: 0 <= i < |seps| ==> Separator(seps[i])
    ensures Widen(ts, seps) == ts
    decreases |seps|
  {
    if seps != [] {
      WidenSame(ts[1..], seps[1..]);
      OneMarkIff(seps[0]);
      assert Empties(0) + Widen(ts[1..], seps[1..]) == ts[1..];
    }
  }
}
