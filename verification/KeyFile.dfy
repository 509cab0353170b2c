/** The key file as text, the index in memory, and what keeps the two equal. */
module KeyFile {
  import opened Bytes
  import opened Pieces
  import opened Text
  import opened KeyLine

  type Index = map<PubKey, Entry>

  predicate Skipped(trimmed: string) { trimmed == "" || trimmed[0] == '#' }

  /** How a line is read; the registry reads lines as `authorized_keys` entries. */
  type Parser = string -> Option<(PubKey, Entry)>

  /** The line is an entry, whether or not it is trimmed first. */
  ghost predicate Tidy(line: string, parse: Parser) {
    parse(line).Some? && parse(Trim(line)) == parse(line) && !Skipped(Trim(line))
  }

  /** What one trimmed line does to the index: nothing, an error, or an entry. */
  datatype Effect = Skip | Bad | Put(key: PubKey, entry: Entry)

  predicate Puts(e: Effect, target: PubKey) { e.Put? && e.key == target }

  function EffectOf(t: string, parse: Parser): Effect {
    if Skipped(t) then Skip
    else
      match parse(t)
      case None => Bad
      case Some((key, entry)) => Put(key, entry)
  }

  function Effects(ls: seq<string>, parse: Parser): seq<Effect> {
    seq(|ls|, i requires 0 <= i < |ls| => EffectOf(ls[i], parse))
  }

  function Load(es: seq<Effect>, m: Index): Option<Index>
    decreases |es|
  {
    if es == [] then Some(m)
    else
      match es[0]
      case Skip => Load(es[1..], m)
      case Bad => None
      case Put(key, entry) => Load(es[1..], m[key := entry])
  }

  function ParseFile(text: string, parse: Parser): Option<Index> { Load(Effects(TrimmedLines(text), parse), map[]) }

  // ---------------- trimming a line does not change it ----------------

  lemma {:induction false} UntilTrailing(s: string, c: char, h: char)
    requires c != h
    ensures Until(s + [c], h) == if h in s then Until(s, h) else s + [c]
  {
    if s == "" {
      assert [c][1..] == "" && "" + [c] == [c];
    } else if s[0] != h {
      UntilTrailing(s[1..], c, h);
      assert (s + [c])[1..] == s[1..] + [c];
      assert s == [s[0]] + s[1..];
    }
  }

  /** The two parts of a line that parsing looks at. */
  function Parts(line: string): (seq<string>, Option<string>) { (Words(Trim(Until(line, '#'))), CommentOf(line)) }

  lemma SameParts(a: string, b: string)
    requires Words(Until(a, '#')) == Words(Until(b, '#')) && CommentOf(a) == CommentOf(b)
    ensures Parts(a) == Parts(b)
  {
    WordsTrim(Until(a, '#'));
    WordsTrim(Until(b, '#'));
  }

  lemma PartsLeading(s: string, c: char)
    requires IsSpace(c)
    ensures Parts([c] + s) == Parts(s)
  {
    var b := Until(s, '#');
    WordsSkip([c], b);
    if |b| < |s| { assert ([c] + s)[|b| + 2..] == s[|b| + 1..]; }
    SameParts([c] + s, s);
  }

  lemma PartsTrailing(s: string, c: char)
    requires IsSpace(c)
    ensures Parts(s + [c]) == Parts(s)
  {
    var b := Until(s, '#');
    UntilTrailing(s, c, '#');
    if '#' in s {
      assert (s + [c])[|b| + 1..] == s[|b| + 1..] + [c];
      TrimTrailing(s[|b| + 1..], c);
    } else {
      assert b == s;
      WordsTrailing(s, c);
    }
    SameParts(s + [c], s);
  }

  lemma {:induction false} PartsTrimStart(s: string)
    ensures Parts(TrimStart(s)) == Parts(s)
  {
    if s != "" && IsSpace(s[0]) {
      PartsTrimStart(s[1..]);
      PartsLeading(s[1..], s[0]);
      assert s == [s[0]] + s[1..];
    }
  }

  lemma {:induction false} PartsTrimEnd(s: string)
    ensures Parts(TrimEnd(s)) == Parts(s)
  {
    if s != "" && IsSpace(s[|s| - 1]) {
      var n := |s| - 1;
      PartsTrimEnd(s[..n]);
      PartsTrailing(s[..n], s[n]);
      assert s == s[..n] + [s[n]];
    }
  }

  /** A parsed line is the same entry, comment included, with or without surrounding whitespace. */
  lemma ParseTrim(s: string, decode: Decoder)
    ensures ParseLine(Trim(s), decode) == ParseLine(s, decode)
  {
    PartsTrimStart(s);
    PartsTrimEnd(TrimStart(s));
    assert Parts(Trim(s)) == Parts(s);
  }

  function LineParser(decode: Decoder): Parser { (line: string) => ParseLine(line, decode) }

  lemma LineParserTidy(line: string, decode: Decoder)
    requires ParseLine(line, decode).Some?
    ensures Tidy(line, LineParser(decode))
  {
    ParseTrim(line, decode);
  }

  // ---------------- reading a file ----------------

  lemma {:induction false} LoadsIff(es: seq<Effect>, m: Index)
    ensures Load(es, m).Some? <==> forall i :: 0 <= i < |es| ==> !es[i].Bad?
    decreases |es|
  {
    if es != [] {
      var t := es[1..];
      assert forall i :: 1 <= i < |es| ==> es[i] == t[i - 1];
      assert forall i :: 0 <= i < |t| ==> t[i] == es[i + 1];
      LoadsIff(t, if es[0].Put? then m[es[0].key := es[0].entry] else m);
    }
  }

  /** What stands for a key is the last of its entries. */
  lemma {:induction false} LoadLast(es: seq<Effect>, m: Index, i: nat)
    requires Load(es, m).Some? && i < |es| && es[i].Put?
    requires forall j :: i < j < |es| ==> !Puts(es[j], es[i].key)
    ensures es[i].key in Load(es, m).value && Load(es, m).value[es[i].key] == es[i].entry
    decreases |es|
  {
    if i > 0 {
      LoadLast(es[1..], if es[0].Put? then m[es[0].key := es[0].entry] else m, i - 1);
    } else {
      LoadUntouched(es[1..], m[es[0].key := es[0].entry], es[0].key);
    }
  }

  lemma {:induction false} LoadUntouched(es: seq<Effect>, m: Index, key: PubKey)
    requires Load(es, m).Some? && key in m && forall j :: 0 <= j < |es| ==> !Puts(es[j], key)
    ensures key in Load(es, m).value && Load(es, m).value[key] == m[key]
    decreases |es|
  {
    if es != [] { LoadUntouched(es[1..], if es[0].Put? then m[es[0].key := es[0].entry] else m, key); }
  }

  /** A line that is blank or starts with a hash, but for whitespace. */
  predicate Ignored(line: string) { Trim(line) == "" || Trim(line)[0] == '#' }

  lemma EffectIff(line: string, parse: Parser, key: PubKey, entry: Entry)
    ensures EffectOf(Trim(line), parse) == Skip <==> Ignored(line)
    ensures EffectOf(Trim(line), parse) == Bad <==> !Ignored(line) && parse(Trim(line)).None?
    ensures EffectOf(Trim(line), parse) == Put(key, entry) <==> !Ignored(line) && parse(Trim(line)) == Some((key, entry))
  {
  }

  /** A file is readable exactly when every line is blank, a comment or an entry. */
  lemma FileReadableIff(text: string, parse: Parser)
    ensures ParseFile(text, parse).Some? <==>
            forall i :: 0 <= i < |Lines(text)| ==> Ignored(Lines(text)[i]) || parse(Trim(Lines(text)[i])).Some?
  {
    var ls := Lines(text);
    var es := Effects(TrimmedLines(text), parse);
    TrimmedIsTrim(text);
    LoadsIff(es, map[]);
    assert |es| == |ls| && forall i :: 0 <= i < |ls| ==> es[i] == EffectOf(Trim(ls[i]), parse);
  }

  /** The index holds exactly the keys with an entry, and for each of them its last entry. */
  lemma FileIndex(text: string, parse: Parser, m: Index, key: PubKey)
    requires ParseFile(text, parse) == Some(m)
    ensures key in m <==> exists i :: 0 <= i < |Lines(text)| && EntryAt(Lines(text), i, parse, key)
    ensures forall i :: 0 <= i < |Lines(text)| && LastEntryAt(Lines(text), i, parse, key) ==>
              key in m && m[key] == parse(Trim(Lines(text)[i])).value.1
  {
    var ls := Lines(text);
    var es := Effects(TrimmedLines(text), parse);
    TrimmedIsTrim(text);
    assert |es| == |ls|;
    forall i | 0 <= i < |ls| ensures EntryAt(ls, i, parse, key) <==> Puts(es[i], key) {
      assert es[i] == EffectOf(Trim(ls[i]), parse);
    }
    LoadedKeys(es, map[], key);
    forall i | 0 <= i < |ls| && LastEntryAt(ls, i, parse, key)
      ensures key in m && m[key] == parse(Trim(ls[i])).value.1
    {
      LoadLast(es, map[], i);
    }
  }

  predicate EntryAt(ls: seq<string>, i: nat, parse: Parser, key: PubKey)
    requires i < |ls|
  {
    !Ignored(ls[i]) && parse(Trim(ls[i])).Some? && parse(Trim(ls[i])).value.0 == key
  }

  ghost predicate LastEntryAt(ls: seq<string>, i: nat, parse: Parser, key: PubKey)
    requires i < |ls|
  {
    EntryAt(ls, i, parse, key) && forall j :: i < j < |ls| ==> !EntryAt(ls, j, parse, key)
  }

  // ---------------- appending ----------------

  lemma {:induction false} LoadConcat(a: seq<Effect>, b: seq<Effect>, m: Index)
    ensures Load(a + b, m) == match Load(a, m)
                              case None => None
                              case Some(m') => Load(b, m')
    decreases |a|
  {
    if a == [] {
      assert a + b == b;
    } else {
      assert (a + b)[1..] == a[1..] + b;
      match a[0]
      case Skip => LoadConcat(a[1..], b, m);
      case Bad =>
      case Put(key, entry) => LoadConcat(a[1..], b, m[key := entry]);
    }
  }

  predicate EndsLine(s: string) { s != "" && s[|s| - 1] == '\n' }

  function Ended(s: string): string { if s == "" || EndsLine(s) then s else s + ['\n'] }

  /** The file after appending: its last line is ended first, and so is the new one. */
  function Appended(text: string, line: string): string {
    Ended(text) + (if EndsLine(line) then line else line + ['\n'])
  }

  /** At most one newline, and only at the end. */
  predicate SingleLine(line: string) {
    '\n' !in (if EndsLine(line) then line[..|line| - 1] else line)
  }

  lemma EndedLines(text: string)
    ensures TrimmedLines(Ended(text)) == TrimmedLines(text)
  {
    if text != "" && !EndsLine(text) { EndLine(text); }
  }

  lemma SingleLineIff(line: string)
    ensures SingleLine(line) <==> forall i :: 0 <= i < |line| - 1 ==> line[i] != '\n'
  {
    if EndsLine(line) { assert line == line[..|line| - 1] + ['\n']; }
  }

  lemma EndedLine(l: string)
    requires '\n' !in l
    ensures TrimmedLines(l + ['\n']) == [Trim(l)]
  {
    FirstLine(l, "", l + ['\n']);
  }

  lemma OneLine(line: string)
    requires SingleLine(line)
    ensures TrimmedLines(if EndsLine(line) then line else line + ['\n']) == [Trim(line)]
  {
    if EndsLine(line) {
      var l := line[..|line| - 1];
      assert line == l + ['\n'];
      EndedLine(l);
      TrimTrailing(l, '\n');
    } else {
      EndedLine(line);
    }
  }

  lemma LoadOne(key: PubKey, entry: Entry, m: Index)
    ensures Load([Put(key, entry)], m) == Some(m[key := entry])
  {
    assert Load([], m[key := entry]) == Some(m[key := entry]);
  }

  lemma EffectsConcat(a: seq<string>, b: seq<string>, parse: Parser)
    ensures Effects(a + b, parse) == Effects(a, parse) + Effects(b, parse)
  {
  }

  /** The lines of the argument follow those of the file, however either ends. */
  lemma AppendedLines(text: string, line: string)
    requires line != ""
    ensures TrimmedLines(Appended(text, line)) == TrimmedLines(text) + TrimmedLines(line)
  {
    EndedLines(text);
    EndedLines(line);
    LinesConcat(Ended(text), Ended(line));
  }

  /** What the argument of an append does to a file, line by line. */
  function ArgumentEffects(line: string, parse: Parser): seq<Effect> { Effects(TrimmedLines(line), parse) }

  lemma AppendLoads(text: string, line: string, m: Index, parse: Parser)
    requires ParseFile(text, parse) == Some(m) && line != ""
    ensures ParseFile(Appended(text, line), parse) == Load(ArgumentEffects(line, parse), m)
  {
    AppendedLines(text, line);
    EffectsConcat(TrimmedLines(text), TrimmedLines(line), parse);
    LoadConcat(Effects(TrimmedLines(text), parse), ArgumentEffects(line, parse), map[]);
  }

  /** Lines of one key only, besides skipped ones, the last of which is the given entry. */
  ghost predicate Amounts(es: seq<Effect>, key: PubKey, entry: Entry) {
    && (forall i :: 0 <= i < |es| ==> es[i].Skip? || Puts(es[i], key))
    && exists i: nat :: LastPut(es, i) && es[i] == Put(key, entry)
  }

  ghost predicate LastPut(es: seq<Effect>, i: nat) {
    i < |es| && es[i].Put? && forall j :: i < j < |es| ==> es[j].Skip?
  }

  lemma {:induction false} LoadSkips(es: seq<Effect>, m: Index)
    requires forall i :: 0 <= i < |es| ==> es[i].Skip?
    ensures Load(es, m) == Some(m)
    decreases |es|
  {
    if es != [] { LoadSkips(es[1..], m); }
  }

  lemma {:induction false} LoadAmounts(es: seq<Effect>, m: Index, key: PubKey, entry: Entry, i: nat)
    requires (forall k :: 0 <= k < |es| ==> es[k].Skip? || Puts(es[k], key)) && LastPut(es, i) && es[i] == Put(key, entry)
    ensures Load(es, m) == Some(m[key := entry])
    decreases |es|
  {
    if i == 0 {
      LoadSkips(es[1..], m[key := entry]);
    } else {
      var m' := if es[0].Put? then m[key := es[0].entry] else m;
      LoadAmounts(es[1..], m', key, entry, i - 1);
      assert m'[key := entry] == m[key := entry];
    }
  }

  lemma {:induction false} FindLastPut(es: seq<Effect>) returns (i: nat)
    requires exists k :: 0 <= k < |es| && es[k].Put?
    requires forall k :: 0 <= k < |es| ==> !es[k].Bad?
    ensures LastPut(es, i)
    decreases |es|
  {
    var n := |es| - 1;
    if es[n].Put? {
      i := n;
    } else {
      assert forall k :: 0 <= k < n ==> es[..n][k] == es[k];
      i := FindLastPut(es[..n]);
    }
  }

  /** Loading into the empty index tells whether the lines amount to one entry. */
  lemma LoadsToOne(es: seq<Effect>, key: PubKey, entry: Entry)
    requires Load(es, map[]) == Some(map[key := entry])
    ensures Amounts(es, key, entry)
  {
    var none: Index := map[];
    var one: Index := map[key := entry];
    LoadsIff(es, none);
    forall i | 0 <= i < |es| ensures es[i].Skip? || Puts(es[i], key) {
      if es[i].Put? {
        LoadedKeys(es, none, es[i].key);
        assert Puts(es[i], es[i].key);
      }
    }
    LoadedKeys(es, none, key);
    assert key in one;
    var k :| 0 <= k < |es| && Puts(es[k], key);
    var i := FindLastPut(es);
    LoadAmounts(es, none, key, es[i].entry, i);
    assert none[key := es[i].entry][key] == one[key];
  }

  /** Memory and file agree after the append, whatever the file was. */
  ghost predicate AlwaysAgrees(line: string, key: PubKey, entry: Entry, parse: Parser) {
    forall text: string :: ParseFile(text, parse).Some? ==>
      ParseFile(Appended(text, line), parse) == Some(ParseFile(text, parse).value[key := entry])
  }

  /**
    Exactly when appending keeps file and memory in agreement: every line of
    the argument is blank, a comment or an entry of the key put into memory,
    and the last such entry is the one put into memory.
   */
  lemma AppendAgreesIff(line: string, decode: Decoder)
    requires ParseLine(line, decode).Some?
    ensures var (key, entry) := ParseLine(line, decode).value;
            AlwaysAgrees(line, key, entry, LineParser(decode)) <==> Amounts(ArgumentEffects(line, LineParser(decode)), key, entry)
  {
    var (key, entry) := ParseLine(line, decode).value;
    AppendIff(line, key, entry, LineParser(decode));
  }

  lemma AppendIff(line: string, key: PubKey, entry: Entry, parse: Parser)
    requires line != ""
    ensures AlwaysAgrees(line, key, entry, parse) <==> Amounts(ArgumentEffects(line, parse), key, entry)
  {
    var es := ArgumentEffects(line, parse);
    if Amounts(es, key, entry) {
      forall text: string | ParseFile(text, parse).Some?
        ensures ParseFile(Appended(text, line), parse) == Some(ParseFile(text, parse).value[key := entry])
      {
        AppendAgrees(text, line, ParseFile(text, parse).value, key, entry, parse);
      }
    }
    if AlwaysAgrees(line, key, entry, parse) {
      AppendLoads("", line, map[], parse);
      LoadsToOne(es, key, entry);
    }
  }

  lemma AppendAgrees(text: string, line: string, m: Index, key: PubKey, entry: Entry, parse: Parser)
    requires ParseFile(text, parse) == Some(m) && line != "" && Amounts(ArgumentEffects(line, parse), key, entry)
    ensures ParseFile(Appended(text, line), parse) == Some(m[key := entry])
  {
    var es := ArgumentEffects(line, parse);
    AppendLoads(text, line, m, parse);
    var i: nat :| LastPut(es, i) && es[i] == Put(key, entry);
    LoadAmounts(es, m, key, entry, i);
  }

  /** A single line is enough. */
  lemma SingleLineAmounts(line: string, decode: Decoder)
    requires ParseLine(line, decode).Some? && SingleLine(line)
    ensures var (key, entry) := ParseLine(line, decode).value;
            Amounts(ArgumentEffects(line, LineParser(decode)), key, entry)
  {
    var parse := LineParser(decode);
    var (key, entry) := ParseLine(line, decode).value;
    LineParserTidy(line, decode);
    EndedLines(line);
    OneLine(line);
    var es := ArgumentEffects(line, parse);
    assert es == [Put(key, entry)];
    assert LastPut(es, 0);
  }

  /** An enrolment: an entry, a comment sign, a hint, and after a line break in the hint another entry. */
  function Enrolled(entry: string, hint: string, more: string): string {
    (entry + " ") + ['#'] + (hint + ['\n'] + more)
  }

  lemma EnrolledParses(l: string, hint: string, more: string, decode: Decoder)
    requires '#' !in l && ParseLine(l, decode).Some?
    ensures ParseLine(Enrolled(l, hint, more), decode).Some?
    ensures ParseLine(Enrolled(l, hint, more), decode).value.0 == ParseLine(l, decode).value.0
  {
    FirstParses(l, hint + ['\n'] + more, decode);
  }

  /**
    A line break in an enrolment's hint breaks the agreement: the argument
    parses to the first key, the file also gets the second, and memory has it
    only if it had it before.
   */
  lemma HintBreaksAgreement(text: string, m: Index, l1: string, hint: string, l2: string, decode: Decoder)
    requires '#' !in l1 && '\n' !in l1 && '\n' !in hint && '\n' !in l2
    requires ParseLine(l1, decode).Some? && ParseLine(l2, decode).Some?
    requires ParseLine(l1, decode).value.0 != ParseLine(l2, decode).value.0
    requires ParseFile(text, LineParser(decode)) == Some(m) && ParseLine(l2, decode).value.0 !in m
    ensures var line, k2 := Enrolled(l1, hint, l2), ParseLine(l2, decode).value.0;
            && ParseLine(line, decode).Some?
            && var (key, entry) := ParseLine(line, decode).value;
               && key == ParseLine(l1, decode).value.0 && k2 !in m[key := entry]
               && ParseFile(Appended(text, line), LineParser(decode)).Some?
               && k2 in ParseFile(Appended(text, line), LineParser(decode)).value
               && !AlwaysAgrees(line, key, entry, LineParser(decode))
  {
    var parse, line := LineParser(decode), Enrolled(l1, hint, l2);
    EnrolledParses(l1, hint, l2, decode);
    HintEffects(l1, hint, l2, decode);
    var (key, entry) := ParseLine(line, decode).value;
    SecondKeyAppears(text, line, m, key, entry, ParseLine(l2, decode).value.0, parse);
  }

  predicate PutsBoth(es: seq<Effect>, a: PubKey, b: PubKey) { |es| == 2 && Puts(es[0], a) && Puts(es[1], b) }

  lemma SecondKeyAppears(text: string, line: string, m: Index, key: PubKey, entry: Entry, other: PubKey, parse: Parser)
    requires line != "" && key != other && ParseFile(text, parse) == Some(m)
    requires PutsBoth(ArgumentEffects(line, parse), key, other)
    ensures ParseFile(Appended(text, line), parse).Some?
    ensures other in ParseFile(Appended(text, line), parse).value
    ensures !AlwaysAgrees(line, key, entry, parse)
  {
    var es := ArgumentEffects(line, parse);
    AppendLoads(text, line, m, parse);
    LoadTwo(es[0], es[1], m);
    assert es == [es[0], es[1]];
    AppendIff(line, key, entry, parse);
    assert !(es[1].Skip? || Puts(es[1], key));
  }

  lemma HintEffects(l1: string, hint: string, l2: string, decode: Decoder)
    requires '#' !in l1 && '\n' !in l1 && '\n' !in hint && '\n' !in l2
    requires ParseLine(l1, decode).Some? && ParseLine(l2, decode).Some?
    ensures PutsBoth(ArgumentEffects(Enrolled(l1, hint, l2), LineParser(decode)),
                     ParseLine(l1, decode).value.0, ParseLine(l2, decode).value.0)
  {
    var first := (l1 + " ") + ['#'] + hint;
    var line := Enrolled(l1, hint, l2);
    assert line == first + ['\n'] + l2;
    FirstLine(first, l2, line);
    UntilFirst(l2, "", '\n');
    assert TrimmedLines(line) == [Trim(first), Trim(l2)];
    FirstParses(l1, hint, decode);
    LineParserTidy(first, decode);
    LineParserTidy(l2, decode);
  }

  lemma FirstParses(l: string, hint: string, decode: Decoder)
    requires '#' !in l && ParseLine(l, decode).Some?
    ensures ParseLine((l + " ") + ['#'] + hint, decode).Some?
    ensures ParseLine((l + " ") + ['#'] + hint, decode).value.0 == ParseLine(l, decode).value.0
  {
    var b := l + " ";
    var line := b + ['#'] + hint;
    assert '#' !in b;
    UntilFirst(b, hint, '#');
    UntilFirst(l, "", '#');
    WordsTrim(b);
    WordsTrim(l);
    WordsTrailing(l, ' ');
    assert Parts(line).0 == Parts(l).0;
  }

  lemma LoadTwo(a: Effect, b: Effect, m: Index)
    requires a.Put? && b.Put?
    ensures Load([a, b], m) == Some(m[a.key := a.entry][b.key := b.entry])
  {
    assert [a, b][1..] == [b];
    LoadOne(b.key, b.entry, m[a.key := a.entry]);
  }

  // ---------------- removing ----------------

  /** The line is an entry of the key. */
  predicate IsEntryOf(line: string, target: PubKey, parse: Parser) { Puts(EffectOf(Trim(line), parse), target) }

  function Without(ls: seq<string>, target: PubKey, parse: Parser): seq<string> {
    if ls == [] then []
    else (if IsEntryOf(ls[0], target, parse) then [] else [ls[0]]) + Without(ls[1..], target, parse)
  }

  predicate Mentions(ls: seq<string>, target: PubKey, parse: Parser) {
    exists i :: 0 <= i < |ls| && IsEntryOf(ls[i], target, parse)
  }

  function Dropping(es: seq<Effect>, target: PubKey): seq<Effect> {
    if es == [] then [] else (if Puts(es[0], target) then [] else [es[0]]) + Dropping(es[1..], target)
  }

  lemma EffectsCons(l: string, ls: seq<string>, parse: Parser)
    ensures Effects(TrimAll([l] + ls), parse) == [EffectOf(Trim(l), parse)] + Effects(TrimAll(ls), parse)
  {
  }

  lemma {:induction false} EffectsWithout(ls: seq<string>, target: PubKey, parse: Parser)
    ensures Effects(TrimAll(Without(ls, target, parse)), parse) == Dropping(Effects(TrimAll(ls), parse), target)
    decreases |ls|
  {
    if ls != [] {
      var l, rest := ls[0], ls[1..];
      assert ls == [l] + rest;
      EffectsCons(l, rest, parse);
      EffectsWithout(rest, target, parse);
      EffectsCons(l, Without(rest, target, parse), parse);
      var e, es := EffectOf(Trim(l), parse), Effects(TrimAll(rest), parse);
      assert ([e] + es)[1..] == es;
    }
  }

  /** Dropping a key's lines drops that key and nothing else. */
  lemma {:induction false} LoadDropping(es: seq<Effect>, m: Index, target: PubKey)
    requires Load(es, m).Some?
    ensures Load(Dropping(es, target), m - {target}) == Some(Load(es, m).value - {target})
    decreases |es|
  {
    if es != [] {
      var rest := Dropping(es[1..], target);
      assert ([es[0]] + rest)[1..] == rest;
      match es[0]
      case Skip => LoadDropping(es[1..], m, target);
      case Put(key, entry) =>
        LoadDropping(es[1..], m[key := entry], target);
        if key == target {
          assert m[key := entry] - {target} == m - {target};
          assert Dropping(es, target) == rest;
        } else {
          assert m[key := entry] - {target} == (m - {target})[key := entry];
        }
    }
  }

  lemma {:induction false} LoadedKeys(es: seq<Effect>, m: Index, target: PubKey)
    requires Load(es, m).Some?
    ensures target in Load(es, m).value <==> target in m || exists i :: 0 <= i < |es| && Puts(es[i], target)
    decreases |es|
  {
    if es != [] {
      var t := es[1..];
      assert forall i :: 1 <= i < |es| ==> es[i] == t[i - 1];
      assert forall i :: 0 <= i < |t| ==> t[i] == es[i + 1];
      match es[0]
      case Skip => LoadedKeys(t, m, target);
      case Put(key, entry) =>
        LoadedKeys(t, m[key := entry], target);
        assert key == target ==> Puts(es[0], target);
    }
  }

  lemma {:induction false} WithoutPlain(ls: seq<string>, target: PubKey, parse: Parser)
    requires forall l :: l in ls ==> '\n' !in l
    ensures forall l :: l in Without(ls, target, parse) ==> '\n' !in l
  {
    if ls != [] { WithoutPlain(ls[1..], target, parse); }
  }

  function Removed(text: string, target: PubKey, parse: Parser): string {
    Unlines(Without(Lines(text), target, parse))
  }

  /** Rewriting a readable file without a key removes exactly that key, and rewrites only if it was there. */
  lemma RemoveAgrees(text: string, m: Index, target: PubKey, parse: Parser)
    requires ParseFile(text, parse) == Some(m)
    ensures Mentions(Lines(text), target, parse) <==> target in m
    ensures ParseFile(Removed(text, target, parse), parse) == Some(m - {target})
  {
    var ls := Lines(text);
    var es := Effects(TrimAll(ls), parse);
    TrimmedIsTrim(text);
    LoadedKeys(es, map[], target);
    assert forall i :: 0 <= i < |ls| ==> es[i] == EffectOf(Trim(ls[i]), parse);
    LoadDropping(es, map[], target);
    EffectsWithout(ls, target, parse);
    LinesPlain(text);
    WithoutPlain(ls, target, parse);
    LinesUnlines(Without(ls, target, parse));
    var none: Index := map[];
    assert none - {target} == none;
  }

  // ---------------- reloading ----------------

  /** Keys that vanished, or whose authorization changed in more than the comment. */
  function Revoked(before: Index, after: Index): set<PubKey> {
    set k | k in before && (k !in after || !SameAuthorization(before[k], after[k]))
  }

  /** Two entries that authorize differently; the comment does not matter. */
  predicate Differs(a: Entry, b: Entry) {
    || a.anySubdomain != b.anySubdomain || a.subdomains != b.subdomains || a.maxConns != b.maxConns
    || a.ports != b.ports || a.bw != b.bw || a.quota != b.quota || a.federation != b.federation
  }

  /** A reload revokes exactly the keys that vanished or whose entry changed in one of seven fields. */
  lemma RevokedIff(before: Index, after: Index, k: PubKey)
    ensures k in Revoked(before, after) <==> k in before && (k !in after || Differs(before[k], after[k]))
  {
  }
}
