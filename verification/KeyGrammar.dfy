/**
  The spellings of options. Whatever commas and whitespace stand between them,
  the line is read; it is read as the options meant, list items with their own
  key, exactly when each separator is a single comma or all whitespace.
 */
module KeyGrammar {
  import opened Bytes
  import opened Pieces
  import opened Text
  import opened KeyLine
  import opened KeySeparators

  datatype Opt = Opt(key: string, first: string, more: seq<string>)

  predicate ValidOpt(o: Opt) {
    && o.key in KNOWN && Plain(o.first)
    && forall i :: 0 <= i < |o.more| ==> o.more[i] != "" && Plain(o.more[i]) && OptionStart(o.more[i]).None?
  }

  /** A known key whose further items do not look like options. */
  predicate Listed(o: Opt) {
    o.key in KNOWN && forall i :: 0 <= i < |o.more| ==> OptionStart(o.more[i]).None?
  }

  function HeadToken(o: Opt): string { o.key + "=" + o.first }

  function Tokens(o: Opt): seq<string> { [HeadToken(o)] + o.more }

  function AllTokens(os: seq<Opt>): seq<string> {
    if os == [] then [] else Tokens(os[0]) + AllTokens(os[1..])
  }

  /** The value of an option is its items, joined by commas. */
  function Meant(o: Opt): Pair { Pair(o.key, Join([o.first] + o.more, ',')) }

  function AllMeant(os: seq<Opt>): seq<Pair> {
    if os == [] then [] else [Meant(os[0])] + AllMeant(os[1..])
  }

  // ---------------- items stay with their key ----------------

  lemma {:induction false} AddConcat(ps: seq<Pair>, a: seq<string>, b: seq<string>)
    ensures AddTokens(ps, a + b) == AddTokens(AddTokens(ps, a), b)
    decreases |a|
  {
    if a == [] {
      assert a + b == b;
    } else {
      var t, a' := a[0], a[1..];
      assert a + b == [t] + (a' + b) && a == [t] + a';
      AddConcat(AddToken(ps, t), a', b);
    }
  }

  lemma JoinItems(t: string, items: seq<string>)
    requires items != []
    ensures Join([t + "," + items[0]] + items[1..], ',') == Join([t] + items, ',')
  {
    JoinPrefix(t + ",", items);
    JoinCons(t, items);
    Assoc(t, ",", Join(items, ','));
    assert t + "," + items[0] == (t + ",") + items[0];
  }

  lemma {:induction false} AddItems(ps: seq<Pair>, key: string, value: string, items: seq<string>)
    requires forall i :: 0 <= i < |items| ==> OptionStart(items[i]).None?
    ensures AddTokens(ps + [Pair(key, value)], items) == ps + [Pair(key, Join([value] + items, ','))]
    decreases |items|
  {
    if items == [] {
      assert [value] + items == [value];
    } else {
      var v := value + "," + items[0];
      var all := ps + [Pair(key, value)];
      assert all[..|all| - 1] == ps;
      assert AddToken(all, items[0]) == ps + [Pair(key, v)];
      AddItems(ps, key, v, items[1..]);
      JoinItems(value, items);
    }
  }

  lemma HeadStarts(o: Opt)
    requires o.key in KNOWN
    ensures OptionStart(HeadToken(o)) == Some(Pair(o.key, o.first))
  {
    StartsWith(o.key, o.first, HeadToken(o));
  }

  lemma StartsWith(key: string, value: string, tok: string)
    requires key in KNOWN && '=' !in key && tok == key + "=" + value
    ensures OptionStart(tok) == Some(Pair(key, value))
  {
    UntilFirst(key, value, '=');
    assert tok == key + ['='] + value;
    assert tok[|key| + 1..] == value;
  }

  lemma AddOption(ps: seq<Pair>, o: Opt)
    requires Listed(o)
    ensures AddTokens(ps, Tokens(o)) == ps + [Meant(o)]
  {
    HeadStarts(o);
    AddItems(ps, o.key, o.first, o.more);
  }

  lemma AddMore(ps: seq<Pair>, a: seq<string>, b: seq<string>, q: seq<Pair>, r: seq<Pair>)
    requires AddTokens(ps, a) == q && AddTokens(q, b) == r
    ensures AddTokens(ps, a + b) == r
  {
    AddConcat(ps, a, b);
  }

  lemma PairAssoc(ps: seq<Pair>, m: Pair, rest: seq<Pair>)
    ensures ps + [m] + rest == ps + ([m] + rest)
  {
  }

  lemma {:induction false} AddOptions(ps: seq<Pair>, os: seq<Opt>, r: seq<Pair>)
    requires (forall o :: o in os ==> Listed(o)) && r == ps + AllMeant(os)
    ensures AddTokens(ps, AllTokens(os)) == r
    decreases |os|
  {
    if os == [] {
      assert ps + [] == ps;
    } else {
      var q := ps + [Meant(os[0])];
      PairAssoc(ps, Meant(os[0]), AllMeant(os[1..]));
      AddOptions(q, os[1..], r);
      AddOption(ps, os[0]);
      AddMore(ps, Tokens(os[0]), AllTokens(os[1..]), q, r);
    }
  }

  lemma KnownPlain(key: string)
    requires key in KNOWN
    ensures Wordlike(key)
  {
  }

  lemma HeadWordlike(o: Opt)
    requires o.key in KNOWN && Plain(o.first)
    ensures Wordlike(HeadToken(o))
  {
    KnownPlain(o.key);
  }

  lemma {:induction false} TokensWordlike(os: seq<Opt>)
    requires forall o :: o in os ==> ValidOpt(o)
    ensures forall i :: 0 <= i < |AllTokens(os)| ==> Wordlike(AllTokens(os)[i])
    ensures os != [] ==> AllTokens(os) != []
  {
    if os != [] {
      assert ValidOpt(os[0]);
      HeadWordlike(os[0]);
      TokensWordlike(os[1..]);
    }
  }

  // ---------------- how much is read ----------------

  /** Characters in all values together. */
  function Weight(ps: seq<Pair>): nat {
    if ps == [] then 0 else Weight(ps[..|ps| - 1]) + |ps[|ps| - 1].value|
  }

  /** What a token adds to that: its value, or a comma and itself. */
  function Cost(t: string): nat {
    if OptionStart(t).Some? then |OptionStart(t).value.value| else 1 + |t|
  }

  function Costs(ts: seq<string>): nat { if ts == [] then 0 else Cost(ts[0]) + Costs(ts[1..]) }

  lemma WeightSnoc(ps: seq<Pair>, p: Pair)
    ensures Weight(ps + [p]) == Weight(ps) + |p.value|
  {
    assert (ps + [p])[..|ps|] == ps;
  }

  lemma AddTokenWeight(ps: seq<Pair>, t: string)
    requires ps != [] || OptionStart(t).Some?
    ensures AddToken(ps, t) != [] && Weight(AddToken(ps, t)) == Weight(ps) + Cost(t)
  {
    if OptionStart(t).Some? {
      WeightSnoc(ps, OptionStart(t).value);
    } else {
      var last := ps[|ps| - 1];
      WeightSnoc(ps[..|ps| - 1], last.(value := last.value + "," + t));
    }
  }

  lemma {:induction false} AddTokensWeight(ps: seq<Pair>, ts: seq<string>)
    requires ps != [] || (ts != [] && OptionStart(ts[0]).Some?)
    ensures Weight(AddTokens(ps, ts)) == Weight(ps) + Costs(ts)
    decreases |ts|
  {
    if ts != [] {
      AddTokenWeight(ps, ts[0]);
      AddTokensWeight(AddToken(ps, ts[0]), ts[1..]);
    }
  }

  lemma {:induction false} CostsConcat(a: seq<string>, b: seq<string>)
    ensures Costs(a + b) == Costs(a) + Costs(b)
    decreases |a|
  {
    if a == [] {
      assert a + b == b;
    } else {
      CostsConcat(a[1..], b);
      assert (a + b)[1..] == a[1..] + b;
    }
  }

  lemma {:induction false} EmptiesCost(n: nat)
    ensures Costs(Empties(n)) == n
  {
    if n > 0 {
      EmptiesCost(n - 1);
      assert Empties(n)[1..] == Empties(n - 1);
      assert OptionStart("").None?;
    }
  }

  /** Boundaries marked beyond the first, over all separators. */
  function Extra(seps: seq<string>): nat {
    if seps == [] then 0 else Surplus(seps[0]) + Extra(seps[1..])
  }

  lemma {:induction false} WidenCosts(ts: seq<string>, seps: seq<string>)
    requires |ts| == |seps| + 1 && Gaps(seps)
    ensures Costs(Widen(ts, seps)) == Costs(ts) + Extra(seps)
    decreases |seps|
  {
    if seps != [] {
      var e, w := Empties(Surplus(seps[0])), Widen(ts[1..], seps[1..]);
      WidenCosts(ts[1..], seps[1..]);
      EmptiesCost(Surplus(seps[0]));
      CostsConcat(e, w);
      assert ([ts[0]] + (e + w))[1..] == e + w;
    }
  }

  lemma {:induction false} NoExtra(seps: seq<string>)
    requires Gaps(seps) && Extra(seps) == 0
    ensures forall i :: 0 <= i < |seps| ==> Separator(seps[i])
  {
    if seps != [] {
      OneMarkIff(seps[0]);
      NoExtra(seps[1..]);
      assert forall i :: 1 <= i < |seps| ==> seps[i] == seps[1..][i - 1];
    }
  }

  lemma WidenFirst(ts: seq<string>, seps: seq<string>)
    requires |ts| == |seps| + 1 && Gaps(seps)
    ensures Widen(ts, seps) != [] && Widen(ts, seps)[0] == ts[0]
  {
  }

  lemma FirstStarts(os: seq<Opt>)
    requires os != [] && ValidOpt(os[0])
    ensures AllTokens(os) != [] && OptionStart(AllTokens(os)[0]).Some?
  {
    HeadStarts(os[0]);
    assert AllTokens(os)[0] == HeadToken(os[0]);
  }

  /**
    Any commas and whitespace between the tokens of options: the pairs read
    are those meant, in order, with list items attached to their own key,
    exactly when every separator is a single comma or all whitespace.
   */
  lemma OptionsReadIff(os: seq<Opt>, seps: seq<string>)
    requires os != [] && forall o :: o in os ==> ValidOpt(o)
    requires |AllTokens(os)| == |seps| + 1 && Gaps(seps)
    ensures PairsOf(Words(Spelled(AllTokens(os), seps))) == AddTokens([], Widen(AllTokens(os), seps))
    ensures PairsOf(Words(Spelled(AllTokens(os), seps))) == AllMeant(os) <==>
            forall i :: 0 <= i < |seps| ==> Separator(seps[i])
  {
    var ts := AllTokens(os);
    TokensWordlike(os);
    SpellingReads(ts, seps);
    assert [] + AllMeant(os) == AllMeant(os);
    AddOptions([], os, AllMeant(os));
    FirstStarts(os);
    WidenFirst(ts, seps);
    AddTokensWeight([], ts);
    AddTokensWeight([], Widen(ts, seps));
    WidenCosts(ts, seps);
    if forall i :: 0 <= i < |seps| ==> Separator(seps[i]) { WidenSame(ts, seps); }
    if AddTokens([], Widen(ts, seps)) == AllMeant(os) { NoExtra(seps); }
  }

  // ---------------- whole lines ----------------

  predicate Spaces(s: string) { s != "" && AllSpace(s) }

  /** Algorithm, key and options, with any whitespace between them. */
  function Body(sp1: string, b64: string, sp2: string, options: string): string {
    "ed25519" + (sp1 + (b64 + (sp2 + options)))
  }

  lemma WordSpace(w: string, sp: string, s: string)
    requires w != "" && NoSpace(w) && Spaces(sp)
    ensures Words(w + (sp + s)) == [w] + Words(s)
  {
    WordsThen(w, sp + s);
    WordsSkip(sp, s);
  }

  lemma BodyWords(sp1: string, b64: string, sp2: string, options: string)
    requires Spaces(sp1) && Spaces(sp2) && Wordlike(b64)
    ensures Words(Body(sp1, b64, sp2, options)) == ["ed25519"] + ([b64] + Words(options))
  {
    WordSpace("ed25519", sp1, b64 + (sp2 + options));
    WordSpace(b64, sp2, options);
  }

  lemma {:induction false} WordsTail(s: string, sp: string)
    requires AllSpace(sp)
    ensures Words(s + sp) == Words(s)
    decreases |sp|
  {
    if sp == "" {
      assert s + sp == s;
    } else {
      var n := |sp| - 1;
      WordsTail(s, sp[..n]);
      WordsTrailing(s + sp[..n], sp[n]);
      assert s + sp == s + sp[..n] + [sp[n]];
    }
  }

  lemma {:induction false} SpelledPlain(ts: seq<string>, seps: seq<string>)
    requires |ts| == |seps| + 1 && Gaps(seps)
    requires forall i :: 0 <= i < |ts| ==> Wordlike(ts[i])
    ensures '#' !in Spelled(ts, seps)
    decreases |seps|
  {
    if seps != [] {
      SpelledPlain(ts[1..], seps[1..]);
      BlankNotHash(seps[0]);
    }
  }

  lemma BlankNotHash(s: string)
    requires Blank(s)
    ensures '#' !in s
  {
  }

  lemma BodyPlain(sp1: string, b64: string, sp2: string, options: string)
    requires Spaces(sp1) && Spaces(sp2) && Wordlike(b64) && '#' !in options
    ensures '#' !in Body(sp1, b64, sp2, options)
  {
    BlankNotHash(sp1);
    BlankNotHash(sp2);
  }

  /** What follows the options: nothing, or a comment. */
  function WithComment(body: string, sp: string, comment: Option<string>): string {
    match comment
    case None => body + sp
    case Some(c) => (body + sp) + ['#'] + c
  }

  function Kept(comment: Option<string>): Option<string> {
    if comment.None? || Trim(comment.value) == "" then None else Some(Trim(comment.value))
  }

  lemma CommentSplits(body: string, sp: string, comment: Option<string>)
    requires '#' !in body && AllSpace(sp)
    ensures Words(Trim(Until(WithComment(body, sp, comment), '#'))) == Words(body)
    ensures CommentOf(WithComment(body, sp, comment)) == Kept(comment)
  {
    var b := body + sp;
    BlankNotHash(sp);
    WordsTail(body, sp);
    WordsTrim(b);
    UntilFirst(b, if comment.Some? then comment.value else "", '#');
    if comment.Some? { assert WithComment(body, sp, comment)[|b| + 1..] == comment.value; }
  }

  lemma ParseFrom(line: string, words: seq<string>, b64: string, pairs: seq<Pair>, decode: Decoder)
    requires |words| >= 2 && words[0] == "ed25519" && words[1] == b64
    requires Words(Trim(Until(line, '#'))) == words && PairsOf(words[2..]) == pairs
    requires decode(b64).Some? && |decode(b64).value| == 32
    ensures ParseLine(line, decode) == Some((decode(b64).value, SetOptions(DEFAULT, pairs).(comment := CommentOf(line))))
  {
  }

  lemma LineReads(sp1: string, b64: string, sp2: string, options: string, pairs: seq<Pair>,
                  sp3: string, comment: Option<string>, decode: Decoder)
    requires Spaces(sp1) && Spaces(sp2) && AllSpace(sp3) && Wordlike(b64)
    requires decode(b64).Some? && |decode(b64).value| == 32
    requires '#' !in options && PairsOf(Words(options)) == pairs
    ensures ParseLine(WithComment(Body(sp1, b64, sp2, options), sp3, comment), decode)
            == Some((decode(b64).value, SetOptions(DEFAULT, pairs).(comment := Kept(comment))))
  {
    var body := Body(sp1, b64, sp2, options);
    BodyPlain(sp1, b64, sp2, options);
    BodyWords(sp1, b64, sp2, options);
    CommentSplits(body, sp3, comment);
    var words := ["ed25519"] + ([b64] + Words(options));
    assert words[2..] == Words(options);
    ParseFrom(WithComment(body, sp3, comment), words, b64, pairs, decode);
  }

  /**
    A line written with any commas and whitespace between its options, any
    other whitespace and any comment parses to its key, the pairs its tokens
    are read as, and its comment; with proper separators those are its options.
   */
  lemma LineRoundTrip(sp1: string, b64: string, sp2: string, os: seq<Opt>, seps: seq<string>,
                      sp3: string, comment: Option<string>, decode: Decoder)
    requires Spaces(sp1) && Spaces(sp2) && AllSpace(sp3) && Wordlike(b64)
    requires decode(b64).Some? && |decode(b64).value| == 32
    requires os != [] && forall o :: o in os ==> ValidOpt(o)
    requires |AllTokens(os)| == |seps| + 1 && Gaps(seps)
    ensures var line := WithComment(Body(sp1, b64, sp2, Spelled(AllTokens(os), seps)), sp3, comment);
            var read := AddTokens([], Widen(AllTokens(os), seps));
            && ParseLine(line, decode) == Some((decode(b64).value, SetOptions(DEFAULT, read).(comment := Kept(comment))))
            && (read == AllMeant(os) <==> forall i :: 0 <= i < |seps| ==> Separator(seps[i]))
  {
    TokensWordlike(os);
    SpelledPlain(AllTokens(os), seps);
    OptionsReadIff(os, seps);
    LineReads(sp1, b64, sp2, Spelled(AllTokens(os), seps), AddTokens([], Widen(AllTokens(os), seps)), sp3, comment, decode);
  }

  // ---------------- all six options ----------------

  function Six(subdomain: string, conns: string, bw: string, quota: string, ports: string, federation: string): seq<Opt> {
    [Opt("subdomain", subdomain, []), Opt("conns", conns, []), Opt("bw", bw, []),
     Opt("quota", quota, []), Opt("ports", ports, []), Opt("federation", federation, [])]
  }

  lemma {:induction false} SingleTokens(os: seq<Opt>)
    requires forall i :: 0 <= i < |os| ==> os[i].more == []
    ensures |AllTokens(os)| == |os|
  {
    if os != [] { SingleTokens(os[1..]); }
  }

  lemma {:induction false} SingleMeant(os: seq<Opt>)
    requires forall i :: 0 <= i < |os| ==> os[i].more == []
    ensures AllMeant(os) == seq(|os|, i requires 0 <= i < |os| => Pair(os[i].key, os[i].first))
  {
    if os != [] {
      SingleMeant(os[1..]);
      assert [os[0].first] + [] == [os[0].first];
    }
  }

  lemma SetCons(e: Entry, p: Pair, ps: seq<Pair>)
    ensures SetOptions(e, [p] + ps) == SetOptions(SetOption(e, p), ps)
  {
    assert ([p] + ps)[1..] == ps;
  }

  lemma SetSix(a: string, b: string, c: string, d: string, p: string, f: string)
    requires ',' !in a && ',' !in f
    ensures SetOptions(DEFAULT, [Pair("subdomain", a), Pair("conns", b), Pair("bw", c), Pair("quota", d), Pair("ports", p), Pair("federation", f)])
            == Entry(a == "*", if a == "*" then [] else [a], ParseUnsigned(b, TWO_32 - 1), ParsePorts(p),
                     ParseRatePer(c), ParseRatePer(d), if Trim(f) == "" then [] else [Trim(f)], None)
  {
    var p1, p2, p3 := Pair("subdomain", a), Pair("conns", b), Pair("bw", c);
    var p4, p5, p6 := Pair("quota", d), Pair("ports", p), Pair("federation", f);
    var e1 := SetOption(DEFAULT, p1);
    SetCons(DEFAULT, p1, [p2, p3, p4, p5, p6]);
    SetCons(e1, p2, [p3, p4, p5, p6]);
    var e2 := SetOption(e1, p2);
    SetCons(e2, p3, [p4, p5, p6]);
    var e3 := SetOption(e2, p3);
    SetCons(e3, p4, [p5, p6]);
    var e4 := SetOption(e3, p4);
    SetCons(e4, p5, [p6]);
    var e5 := SetOption(e4, p5);
    SetCons(e5, p6, []);
    SplitPlain(a, ',');
    SplitPlain(f, ',');
    assert [p1] + [p2, p3, p4, p5, p6] == [p1, p2, p3, p4, p5, p6];
    assert NonEmptyTrimmed([f]) == if Trim(f) == "" then [] else [Trim(f)] by { assert [f][1..] == []; }
  }

  lemma SixValid(a: string, b: string, c: string, d: string, p: string, f: string)
    requires Plain(a) && Plain(b) && Plain(c) && Plain(d) && Plain(p) && Plain(f)
    ensures forall o :: o in Six(a, b, c, d, p, f) ==> ValidOpt(o)
  {
  }

  /** A line with all six options sets all six fields, each to what its value says. */
  lemma SixOptionsRead(sp1: string, b64: string, sp2: string, a: string, b: string, c: string, d: string, p: string, f: string,
                       seps: seq<string>, sp3: string, comment: Option<string>, decode: Decoder)
    requires Spaces(sp1) && Spaces(sp2) && AllSpace(sp3) && Wordlike(b64)
    requires decode(b64).Some? && |decode(b64).value| == 32
    requires Plain(a) && Plain(b) && Plain(c) && Plain(d) && Plain(p) && Plain(f)
    requires |seps| == 5 && Gaps(seps) && forall i :: 0 <= i < 5 ==> Separator(seps[i])
    ensures |AllTokens(Six(a, b, c, d, p, f))| == 6
    ensures ParseLine(WithComment(Body(sp1, b64, sp2, Spelled(AllTokens(Six(a, b, c, d, p, f)), seps)), sp3, comment), decode)
            == Some((decode(b64).value,
                     Entry(a == "*", if a == "*" then [] else [a], ParseUnsigned(b, TWO_32 - 1), ParsePorts(p),
                           ParseRatePer(c), ParseRatePer(d), if Trim(f) == "" then [] else [Trim(f)], Kept(comment))))
  {
    var os := Six(a, b, c, d, p, f);
    SingleTokens(os);
    SixValid(a, b, c, d, p, f);
    LineRoundTrip(sp1, b64, sp2, os, seps, sp3, comment, decode);
    SixMeant(a, b, c, d, p, f);
    SetSix(a, b, c, d, p, f);
  }

  lemma SixMeant(a: string, b: string, c: string, d: string, p: string, f: string)
    ensures AllMeant(Six(a, b, c, d, p, f)) ==
            [Pair("subdomain", a), Pair("conns", b), Pair("bw", c), Pair("quota", d), Pair("ports", p), Pair("federation", f)]
  {
    SingleMeant(Six(a, b, c, d, p, f));
  }

  // ---------------- a cap that is not read ----------------

  /** A connection cap, with further list items, and then a rate. */
  function CapThenRate(cap: string, items: seq<string>, rate: string): seq<Opt> {
    [Opt("conns", cap, items), Opt("bw", rate, [])]
  }

  lemma CapThenRateTokens(cap: string, items: seq<string>, rate: string)
    ensures AllTokens(CapThenRate(cap, items, rate)) == ["conns=" + cap] + (items + ["bw=" + rate])
  {
    var a, b := Opt("conns", cap, items), Opt("bw", rate, []);
    assert CapThenRate(cap, items, rate)[1..] == [b];
    assert AllTokens([b]) == [HeadToken(b)] by { assert [b][1..] == [] && Tokens(b) + [] == [HeadToken(b)]; }
    assert HeadToken(a) == "conns=" + cap && HeadToken(b) == "bw=" + rate;
    assert [HeadToken(a)] + items + [HeadToken(b)] == [HeadToken(a)] + (items + [HeadToken(b)]);
  }

  lemma CapThenRateMeant(cap: string, items: seq<string>, rate: string)
    ensures AllMeant(CapThenRate(cap, items, rate)) == [Pair("conns", Join([cap] + items, ',')), Pair("bw", rate)]
  {
    var b := Opt("bw", rate, []);
    assert CapThenRate(cap, items, rate)[1..] == [b];
    assert AllMeant([b]) == [Meant(b)] by { assert [b][1..] == []; }
    assert [rate] + [] == [rate];
  }

  lemma CapThenRateValid(cap: string, rate: string)
    requires Plain(cap) && Plain(rate)
    ensures forall o :: o in CapThenRate(cap, [], rate) ==> ValidOpt(o)
  {
  }

  lemma CommaUnparsed(s: string, max: nat)
    requires ',' in s
    ensures ParseUnsigned(s, max) == None
  {
    var i :| 0 <= i < |s| && s[i] == ',';
    if |s| > 1 && s[0] == '+' { assert s[1..][i - 1] == ','; }
  }

  lemma EmptiesStart(n: nat)
    ensures forall i :: 0 <= i < |Empties(n)| ==> OptionStart(Empties(n)[i]).None?
  {
    EmptiesPlain(n);
    assert OptionStart("").None?;
    forall i | 0 <= i < |Empties(n)| ensures OptionStart(Empties(n)[i]).None? { assert Empties(n)[i] in Empties(n); }
  }

  lemma WidenTwo(t: string, u: string, sep: string)
    requires Gap(sep)
    ensures Gaps([sep]) && Widen([t, u], [sep]) == [t] + (Empties(Surplus(sep)) + [u])
  {
    assert [t, u][1..] == [u];
    assert [sep][1..] == [];
  }

  /** What is read of a cap and a rate with this between them. */
  function ReadAs(cap: string, sep: string): string { Join([cap] + Empties(Surplus(sep)), ',') }

  lemma CapThenRateReads(cap: string, rate: string, sep: string, t: string, u: string)
    requires Gap(sep) && t == "conns=" + cap && u == "bw=" + rate
    ensures Gaps([sep]) && AddTokens([], Widen([t, u], [sep])) == [Pair("conns", ReadAs(cap, sep)), Pair("bw", rate)]
  {
    var e := Empties(Surplus(sep));
    var os := CapThenRate(cap, e, rate);
    WidenTwo(t, u, sep);
    CapThenRateTokens(cap, e, rate);
    CapThenRateMeant(cap, e, rate);
    EmptiesStart(Surplus(sep));
    assert [] + AllMeant(os) == AllMeant(os);
    AddOptions([], os, AllMeant(os));
  }

  lemma CapOptions(cap: string, rate: string, sep: string, t: string, u: string)
    requires Gap(sep) && t == "conns=" + cap && u == "bw=" + rate && Plain(cap) && Plain(rate)
    ensures '#' !in Spelled([t, u], [sep])
    ensures PairsOf(Words(Spelled([t, u], [sep]))) == [Pair("conns", ReadAs(cap, sep)), Pair("bw", rate)]
  {
    var os := CapThenRate(cap, [], rate);
    CapThenRateTokens(cap, [], rate);
    CapThenRateValid(cap, rate);
    assert [t] + ([] + [u]) == [t, u];
    TokensWordlike(os);
    CapThenRateReads(cap, rate, sep, t, u);
    SpelledPlain([t, u], [sep]);
    OptionsReadIff(os, [sep]);
  }

  lemma CapValue(cap: string, sep: string, max: nat)
    requires Gap(sep)
    ensures ParseUnsigned(ReadAs(cap, sep), max) == if Separator(sep) then ParseUnsigned(cap, max) else None
  {
    OneMarkIff(sep);
    var e := Empties(Surplus(sep));
    if Separator(sep) {
      assert [cap] + e == [cap];
    } else {
      assert e != [];
      JoinCons(cap, e);
      assert Join([cap] + e, ',')[|cap|] == ',';
      CommaUnparsed(Join([cap] + e, ','), max);
    }
  }

  lemma CapOfPairs(value: string, rate: string)
    ensures SetOptions(DEFAULT, [Pair("conns", value), Pair("bw", rate)]).maxConns == ParseUnsigned(value, TWO_32 - 1)
  {
    var c, r := Pair("conns", value), Pair("bw", rate);
    assert [c, r][1..] == [r];
    assert [r][1..] == [];
    assert SetOptions(SetOption(DEFAULT, c), [r]) == SetOptions(SetOption(SetOption(DEFAULT, c), r), []);
  }

  /**
    A connection cap written before another option is read exactly when the
    separator is a single comma or all whitespace; any other commas and
    whitespace make it no cap at all.
   */
  lemma CapReadIff(sp1: string, b64: string, sp2: string, cap: string, sep: string, rate: string,
                   sp3: string, comment: Option<string>, decode: Decoder)
    requires Spaces(sp1) && Spaces(sp2) && AllSpace(sp3) && Wordlike(b64)
    requires decode(b64).Some? && |decode(b64).value| == 32
    requires Plain(cap) && Plain(rate) && Gap(sep)
    ensures var options := Spelled(["conns=" + cap, "bw=" + rate], [sep]);
            var entry := ParseLine(WithComment(Body(sp1, b64, sp2, options), sp3, comment), decode);
            && entry.Some? && entry.value.0 == decode(b64).value
            && entry.value.1.maxConns == if Separator(sep) then ParseUnsigned(cap, TWO_32 - 1) else None
  {
    var t, u := "conns=" + cap, "bw=" + rate;
    var pairs := [Pair("conns", ReadAs(cap, sep)), Pair("bw", rate)];
    CapOptions(cap, rate, sep, t, u);
    LineReads(sp1, b64, sp2, Spelled([t, u], [sep]), pairs, sp3, comment, decode);
    CapOfPairs(ReadAs(cap, sep), rate);
    CapValue(cap, sep, TWO_32 - 1);
  }

  lemma SpelledTwo(t: string, sep: string, u: string)
    ensures Spelled([t, u], [sep]) == t + (sep + u)
  {
    assert [t, u][1..] == [u];
    assert [sep][1..] == [];
  }

  /** A comma and a space, as one would write a list, lose the cap. */
  lemma CommaSpaceLosesCap(b64: string, decode: Decoder)
    requires Wordlike(b64) && decode(b64).Some? && |decode(b64).value| == 32
    ensures var entry := ParseLine("ed25519 " + b64 + " conns=5, bw=1B/s", decode);
            entry.Some? && entry.value.1.maxConns == None
  {
    SpelledTwo("conns=" + "5", ", ", "bw=" + "1B/s");
    var options := Spelled(["conns=" + "5", "bw=" + "1B/s"], [", "]);
    assert WithComment(Body(" ", b64, " ", options), "", None) == "ed25519 " + b64 + " conns=5, bw=1B/s";
    assert !Separator(", ") by { assert ", "[0] == ','; }
    CapReadIff(" ", b64, " ", "5", ", ", "1B/s", "", None, decode);
  }

  lemma NoPairs()
    ensures PairsOf([]) == []
  {
    var none: seq<string> := [];
    assert Join(none, ',') == "" && SplitOn("", ',') == [""];
    assert OptionStart("").None?;
    assert AddTokens([], [""]) == AddTokens(AddToken([], ""), []);
  }

  /** A line without options is the key with nothing allowed and nothing limited. */
  lemma BareLine(sp1: string, b64: string, sp3: string, comment: Option<string>, decode: Decoder)
    requires Spaces(sp1) && AllSpace(sp3) && Wordlike(b64)
    requires decode(b64).Some? && |decode(b64).value| == 32
    ensures ParseLine(WithComment("ed25519" + (sp1 + b64), sp3, comment), decode)
            == Some((decode(b64).value, DEFAULT.(comment := Kept(comment))))
  {
    var body := "ed25519" + (sp1 + b64);
    assert '#' !in body by { BlankNotHash(sp1); }
    WordSpace("ed25519", sp1, b64);
    WordsThen(b64, "");
    assert b64 + "" == b64;
    CommentSplits(body, sp3, comment);
    NoPairs();
    var words := ["ed25519"] + [b64];
    assert words[2..] == [];
    ParseFrom(WithComment(body, sp3, comment), words, b64, [], decode);
  }
}
