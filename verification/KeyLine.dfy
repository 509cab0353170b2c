/** One line of `authorized_keys`: the option grammar and the entry it describes. */
module KeyLine {
  import opened Bytes
  import opened Pieces
  import opened Text

  type PubKey = seq<Byte>

  /** Standard base64; none when the text is not valid. */
  type Decoder = string -> Option<seq<Byte>>

  datatype Period = Second | Minute | Hour | Day | Week | Month

  /** The length of a period in seconds; a month has thirty days. */
  function Seconds(p: Period): nat {
    match p
    case Second => 1
    case Minute => 60
    case Hour => 60 * 60
    case Day => 24 * 60 * 60
    case Week => 7 * 24 * 60 * 60
    case Month => 30 * 24 * 60 * 60
  }

  datatype RatePer = RatePer(bytes: U64, period: Period)

  datatype Entry = Entry(
    anySubdomain: bool, subdomains: seq<string>, maxConns: Option<U32>, ports: Option<seq<U16>>,
    bw: Option<RatePer>, quota: Option<RatePer>, federation: seq<string>, comment: Option<string>)

  const DEFAULT: Entry := Entry(false, [], None, None, None, None, [], None)

  /** Equal but for the comment. */
  predicate SameAuthorization(a: Entry, b: Entry) { a.(comment := None) == b.(comment := None) }

  // ---------------- numbers ----------------

  predicate Digits(s: string) { s != "" && forall i :: 0 <= i < |s| ==> '0' <= s[i] <= '9' }

  function DecimalValue(s: string): nat
    requires forall i :: 0 <= i < |s| ==> '0' <= s[i] <= '9'
  {
    if s == "" then 0 else 10 * DecimalValue(s[..|s| - 1]) + (s[|s| - 1] as int - '0' as int)
  }

  /** An unsigned integer as the standard library parses it: a plus sign is allowed, overflow is not. */
  function ParseUnsigned(s: string, max: nat): (r: Option<nat>)
    ensures r.Some? ==> r.value <= max
  {
    var d := if |s| > 1 && s[0] == '+' then s[1..] else s;
    if Digits(d) && DecimalValue(d) <= max then Some(DecimalValue(d)) else None
  }

  // ---------------- ports ----------------

  /** The bounds one list item stands for. */
  function PartBounds(part: string): (r: Option<(U16, U16)>)
    ensures r.Some? ==> r.value.0 <= r.value.1
  {
    var t := Trim(part);
    var lo := Until(t, '-');
    if |lo| < |t| then
      var l, h := ParseUnsigned(Trim(lo), 0xFFFF), ParseUnsigned(Trim(t[|lo| + 1..]), 0xFFFF);
      if l.Some? && h.Some? && l.value <= h.value then Some((l.value, h.value)) else None
    else
      var n := ParseUnsigned(t, 0xFFFF);
      if n.Some? then Some((n.value, n.value)) else None
  }

  predicate Covers(part: string, p: U16) {
    PartBounds(part).Some? && PartBounds(part).value.0 <= p <= PartBounds(part).value.1
  }

  function Range(lo: nat, hi: U16): (r: seq<U16>)
    ensures forall p: U16 :: p in r <==> lo <= p <= hi
    decreases hi as int + 1 - lo
  {
    if lo > hi then [] else [lo] + Range(lo + 1, hi)
  }

  type Bounds = Option<(U16, U16)>

  function AllBounds(parts: seq<string>): seq<Bounds> {
    seq(|parts|, i requires 0 <= i < |parts| => PartBounds(parts[i]))
  }

  function PortsIn(bs: seq<Bounds>): Option<seq<U16>> {
    if bs == [] then Some([])
    else
      var rest := PortsIn(bs[1..]);
      if bs[0].Some? && rest.Some? then Some(Range(bs[0].value.0, bs[0].value.1) + rest.value) else None
  }

  function ParsePorts(s: string): Option<seq<U16>> { PortsIn(AllBounds(SplitOn(s, ','))) }

  lemma {:induction false} PortsInIff(bs: seq<Bounds>, p: U16)
    ensures PortsIn(bs).Some? <==> forall i :: 0 <= i < |bs| ==> bs[i].Some?
    ensures PortsIn(bs).Some? ==>
              (p in PortsIn(bs).value <==> exists i :: 0 <= i < |bs| && bs[i].Some? && bs[i].value.0 <= p <= bs[i].value.1)
  {
    if bs != [] {
      var t := bs[1..];
      PortsInIff(t, p);
      assert forall i :: 1 <= i < |bs| ==> bs[i] == t[i - 1];
      assert forall i :: 0 <= i < |t| ==> t[i] == bs[i + 1];
    }
  }

  /** A port list is readable exactly when every item is, and allows exactly the ports its items cover. */
  lemma PortsIff(s: string, p: U16)
    ensures ParsePorts(s).Some? <==> forall part :: part in SplitOn(s, ',') ==> PartBounds(part).Some?
    ensures ParsePorts(s).Some? ==>
              (p in ParsePorts(s).value <==> exists part :: part in SplitOn(s, ',') && Covers(part, p))
  {
    var parts := SplitOn(s, ',');
    var bs := AllBounds(parts);
    PortsInIff(bs, p);
    assert forall i :: 0 <= i < |bs| ==> bs[i] == PartBounds(parts[i]);
    if exists part :: part in parts && Covers(part, p) {
      var part :| part in parts && Covers(part, p);
      var i :| 0 <= i < |parts| && parts[i] == part;
      assert bs[i].Some?;
    }
    if i :| 0 <= i < |bs| && bs[i].Some? && bs[i].value.0 <= p <= bs[i].value.1 {
      assert Covers(parts[i], p);
    }
  }

  method ExpandRange(lo: U16, hi: U16) returns (range: seq<U16>)
    requires lo <= hi
    ensures range == Range(lo, hi)
  {
    range := [];
    var p: nat := lo;
    while p <= hi
      invariant lo <= p <= hi as int + 1 && range + Range(p, hi) == Range(lo, hi)
      decreases hi as int + 1 - p
    {
      range := range + [p];
      p := p + 1;
    }
  }

  /** The loop that collects the ports; an unreadable item means no restriction at all. */
  method CollectPorts(s: string) returns (r: Option<seq<U16>>)
    ensures r == ParsePorts(s)
  {
    r := CollectItems(SplitOn(s, ','));
  }

  method CollectItems(parts: seq<string>) returns (r: Option<seq<U16>>)
    requires parts != []
    ensures r == PortsIn(AllBounds(parts))
  {
    ghost var bs := AllBounds(parts);
    var out: seq<U16> := [];
    var i := 0;
    BeforeNone(PortsIn(bs));
    assert bs[0..] == bs;
    while i < |parts|
      invariant 0 <= i <= |parts|
      invariant PortsIn(bs) == Before(out, PortsIn(bs[i..]))
    {
      var b := PartBounds(parts[i]);
      PortsStep(bs, i, b, out);
      if b.None? {
        return None;
      }
      var range := ExpandRange(b.value.0, b.value.1);
      out := out + range;
      i := i + 1;
    }
    BeforeAll(out, bs[i..]);
    return Some(out);
  }

  lemma PortsStep(bs: seq<Bounds>, i: nat, b: Bounds, out: seq<U16>)
    requires i < |bs| && bs[i] == b
    ensures b.None? ==> Before(out, PortsIn(bs[i..])) == None
    ensures b.Some? ==>
              Before(out, PortsIn(bs[i..])) == Before(out + Range(b.value.0, b.value.1), PortsIn(bs[i + 1..]))
  {
    assert bs[i..][1..] == bs[i + 1..];
    if b.Some? { BeforeMore(out, Range(b.value.0, b.value.1), PortsIn(bs[i + 1..])); }
  }

  lemma BeforeAll(out: seq<U16>, none: seq<Bounds>)
    requires none == []
    ensures Before(out, PortsIn(none)) == Some(out)
  {
    assert out + [] == out;
  }

  lemma BeforeNone(r: Option<seq<U16>>)
    ensures Before([], r) == r
  {
    if r.Some? { assert [] + r.value == r.value; }
  }

  function Before(out: seq<U16>, r: Option<seq<U16>>): Option<seq<U16>> {
    if r.Some? then Some(out + r.value) else None
  }

  lemma BeforeMore(out: seq<U16>, range: seq<U16>, r: Option<seq<U16>>)
    ensures Before(out + range, r) == if r.Some? then Before(out, Some(range + r.value)) else None
  {
    if r.Some? { assert out + range + r.value == out + (range + r.value); }
  }

  // ---------------- rates ----------------

  function ParsePeriod(s: string): Option<Period> {
    if s in {"s", "sec", "second"} then Some(Second)
    else if s in {"m", "min", "minute"} then Some(Minute)
    else if s in {"h", "hr", "hour"} then Some(Hour)
    else if s in {"d", "day"} then Some(Day)
    else if s in {"w", "week"} then Some(Week)
    else if s in {"mo", "month"} then Some(Month)
    else None
  }

  function UnitSize(s: string): Option<nat> {
    if s in {"", "B"} then Some(1)
    else if s in {"KB", "kB"} then Some(1_000)
    else if s == "KiB" then Some(1_024)
    else if s == "MB" then Some(1_000_000)
    else if s == "MiB" then Some(1_048_576)
    else if s == "GB" then Some(1_000_000_000)
    else if s == "GiB" then Some(1_073_741_824)
    else if s == "TB" then Some(1_000_000_000_000)
    else if s == "TiB" then Some(1_099_511_627_776)
    else None
  }

  function LeadingDigits(s: string): (n: nat)
    ensures n <= |s|
  {
    if s != "" && '0' <= s[0] <= '9' then 1 + LeadingDigits(s[1..]) else 0
  }

  function ParseBytes(s: string): Option<U64> {
    var k := LeadingDigits(s);
    var n, unit := ParseUnsigned(s[..k], TWO_64 - 1), UnitSize(Trim(s[k..]));
    if n.Some? && unit.Some? && n.value * unit.value < TWO_64 then Some(n.value * unit.value) else None
  }

  function AfterLast(s: string, c: char): (r: string)
    ensures |r| <= |s| && c !in r && r == s[|s| - |r|..]
    ensures c in s ==> |r| < |s|
  {
    if s == "" || s[|s| - 1] == c then "" else AfterLast(s[..|s| - 1], c) + [s[|s| - 1]]
  }

  /** An amount and a period around the last slash. */
  function ParseRatePer(s: string): Option<RatePer> {
    if '/' !in s then None
    else
      var tail := AfterLast(s, '/');
      var period, bytes := ParsePeriod(Trim(tail)), ParseBytes(Trim(s[..|s| - |tail| - 1]));
      if period.Some? && bytes.Some? then Some(RatePer(bytes.value, period.value)) else None
  }

  // ---------------- options ----------------

  datatype Pair = Pair(key: string, value: string)

  const KNOWN: set<string> := {"subdomain", "conns", "bw", "quota", "ports", "federation"}

  /** A token that starts a new option. */
  function OptionStart(tok: string): Option<Pair> {
    var k := Until(tok, '=');
    if |k| < |tok| && k in KNOWN then Some(Pair(k, tok[|k| + 1..])) else None
  }

  /** Any other token continues the option before it, or is dropped when there is none. */
  function AddToken(pairs: seq<Pair>, tok: string): seq<Pair> {
    match OptionStart(tok)
    case Some(p) => pairs + [p]
    case None =>
      if pairs == [] then []
      else
        var last := pairs[|pairs| - 1];
        pairs[..|pairs| - 1] + [last.(value := last.value + "," + tok)]
  }

  function AddTokens(pairs: seq<Pair>, toks: seq<string>): seq<Pair>
    decreases |toks|
  {
    if toks == [] then pairs else AddTokens(AddToken(pairs, toks[0]), toks[1..])
  }

  /** The pairs of everything after the key: words joined by commas, then split again. */
  function PairsOf(words: seq<string>): seq<Pair> { AddTokens([], SplitOn(Join(words, ','), ',')) }

  function NonEmptyTrimmed(ts: seq<string>): seq<string> {
    if ts == [] then []
    else (if Trim(ts[0]) == "" then [] else [Trim(ts[0])]) + NonEmptyTrimmed(ts[1..])
  }

  /** Later options override earlier ones of the same key; a wildcard and a list do not erase each other. */
  function SetOption(e: Entry, p: Pair): Entry {
    if p.key == "subdomain" then
      if p.value == "*" then e.(anySubdomain := true) else e.(subdomains := SplitOn(p.value, ','))
    else if p.key == "conns" then e.(maxConns := ParseUnsigned(p.value, TWO_32 - 1))
    else if p.key == "bw" then e.(bw := ParseRatePer(p.value))
    else if p.key == "quota" then e.(quota := ParseRatePer(p.value))
    else if p.key == "ports" then e.(ports := ParsePorts(p.value))
    else if p.key == "federation" then e.(federation := NonEmptyTrimmed(SplitOn(p.value, ',')))
    else e
  }

  function SetOptions(e: Entry, ps: seq<Pair>): Entry
    decreases |ps|
  {
    if ps == [] then e else SetOptions(SetOption(e, ps[0]), ps[1..])
  }

  function CommentOf(line: string): Option<string> {
    var b := Until(line, '#');
    if |b| == |line| then None
    else
      var c := Trim(line[|b| + 1..]);
      if c == "" then None else Some(c)
  }

  function KeyOf(words: seq<string>, decode: Decoder): Option<PubKey> {
    if |words| < 2 || words[0] != "ed25519" then None
    else
      var raw := decode(words[1]);
      if raw.Some? && |raw.value| == 32 then Some(raw.value) else None
  }

  function Assemble(words: seq<string>, comment: Option<string>, decode: Decoder): Option<(PubKey, Entry)> {
    var key := KeyOf(words, decode);
    if key.None? then None
    else Some((key.value, SetOptions(DEFAULT, PairsOf(words[2..])).(comment := comment)))
  }

  /** A line: the words before the first `#`, and the comment after it. */
  function ParseLine(line: string, decode: Decoder): Option<(PubKey, Entry)> {
    Assemble(Words(Trim(Until(line, '#'))), CommentOf(line), decode)
  }

  /** The loops of the parser. */
  method ReadLine(line: string, decode: Decoder) returns (r: Option<(PubKey, Entry)>)
    ensures r == ParseLine(line, decode)
  {
    var words := Words(Trim(Until(line, '#')));
    var key := KeyOf(words, decode);
    if key.None? {
      return None;
    }
    var toks := SplitOn(Join(words[2..], ','), ',');
    var pairs: seq<Pair> := [];
    var i := 0;
    while i < |toks|
      invariant 0 <= i <= |toks| && AddTokens(pairs, toks[i..]) == PairsOf(words[2..])
    {
      assert toks[i..][1..] == toks[i + 1..];
      pairs := AddToken(pairs, toks[i]);
      i := i + 1;
    }
    var entry := DEFAULT;
    i := 0;
    while i < |pairs|
      invariant 0 <= i <= |pairs| && SetOptions(entry, pairs[i..]) == SetOptions(DEFAULT, pairs)
    {
      assert pairs[i..][1..] == pairs[i + 1..];
      entry := SetOption(entry, pairs[i]);
      i := i + 1;
    }
    return Some((key.value, entry.(comment := CommentOf(line))));
  }
}
