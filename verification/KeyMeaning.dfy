/** What options mean, apart from how they are read: which spelling wins, and what rates and port ranges denote. */
module KeyMeaning {
  import opened Bytes
  import opened Pieces
  import opened Text
  import opened KeyLine

  // ---------------- the last option of a key wins ----------------

  function LastValue(ps: seq<Pair>, key: string): Option<string> {
    if ps == [] then None
    else
      var p := ps[|ps| - 1];
      if p.key == key then Some(p.value) else LastValue(ps[..|ps| - 1], key)
  }

  /** The last `subdomain=` that is a list. */
  function LastList(ps: seq<Pair>): Option<string> {
    if ps == [] then None
    else
      var p := ps[|ps| - 1];
      if p.key == "subdomain" && p.value != "*" then Some(p.value) else LastList(ps[..|ps| - 1])
  }

  predicate Wildcard(ps: seq<Pair>) {
    ps != [] && (ps[|ps| - 1] == Pair("subdomain", "*") || Wildcard(ps[..|ps| - 1]))
  }

  lemma {:induction false} SetLast(e: Entry, ps: seq<Pair>, p: Pair)
    ensures SetOptions(e, ps + [p]) == SetOption(SetOptions(e, ps), p)
    decreases |ps|
  {
    if ps == [] {
      assert [] + [p] == [p];
      assert SetOptions(SetOption(e, p), []) == SetOption(e, p);
    } else {
      assert (ps + [p])[1..] == ps[1..] + [p];
      SetLast(SetOption(e, ps[0]), ps[1..], p);
    }
  }

  /** What one option does to each field of an entry. */
  lemma SetLimits(e: Entry, p: Pair)
    ensures var e' := SetOption(e, p);
            && e'.maxConns == (if p.key == "conns" then ParseUnsigned(p.value, TWO_32 - 1) else e.maxConns)
            && e'.bw == (if p.key == "bw" then ParseRatePer(p.value) else e.bw)
            && e'.quota == (if p.key == "quota" then ParseRatePer(p.value) else e.quota)
  {
  }

  lemma SetLists(e: Entry, p: Pair)
    ensures var e' := SetOption(e, p);
            && e'.ports == (if p.key == "ports" then ParsePorts(p.value) else e.ports)
            && e'.federation == (if p.key == "federation" then NonEmptyTrimmed(SplitOn(p.value, ',')) else e.federation)
            && e'.subdomains == (if p.key == "subdomain" && p.value != "*" then SplitOn(p.value, ',') else e.subdomains)
            && (e'.anySubdomain <==> p == Pair("subdomain", "*") || e.anySubdomain)
  {
  }

  function ConnsMeant(v: Option<string>): Option<U32> { if v.None? then None else ParseUnsigned(v.value, TWO_32 - 1) }

  function RateMeant(v: Option<string>): Option<RatePer> { if v.None? then None else ParseRatePer(v.value) }

  function PortsMeant(v: Option<string>): Option<seq<U16>> { if v.None? then None else ParsePorts(v.value) }

  function RelaysMeant(v: Option<string>): seq<string> { if v.None? then [] else NonEmptyTrimmed(SplitOn(v.value, ',')) }

  function NamesMeant(v: Option<string>): seq<string> { if v.None? then [] else SplitOn(v.value, ',') }

  /** The numeric and rate limits are those of the last option of each key; an unreadable one counts as absent. */
  ghost predicate LimitsAre(e: Entry, ps: seq<Pair>) {
    && e.maxConns == ConnsMeant(LastValue(ps, "conns"))
    && e.bw == RateMeant(LastValue(ps, "bw"))
    && e.quota == RateMeant(LastValue(ps, "quota"))
  }

  /** The lists likewise; a wildcard anywhere allows every subdomain and leaves the list alone. */
  ghost predicate ListsAre(e: Entry, ps: seq<Pair>) {
    && e.ports == PortsMeant(LastValue(ps, "ports"))
    && e.federation == RelaysMeant(LastValue(ps, "federation"))
    && e.subdomains == NamesMeant(LastList(ps))
    && (e.anySubdomain <==> Wildcard(ps))
  }

  lemma LimitsStep(e: Entry, ps: seq<Pair>, p: Pair)
    requires LimitsAre(e, ps)
    ensures LimitsAre(SetOption(e, p), ps + [p])
  {
    SetLimits(e, p);
  }

  lemma ListsStep(e: Entry, ps: seq<Pair>, p: Pair)
    requires ListsAre(e, ps)
    ensures ListsAre(SetOption(e, p), ps + [p])
  {
    SetLists(e, p);
  }

  /** Every field of the entry is decided by the last option of its own key. */
  lemma {:induction false} LastWins(ps: seq<Pair>)
    ensures LimitsAre(SetOptions(DEFAULT, ps), ps) && ListsAre(SetOptions(DEFAULT, ps), ps)
  {
    if ps != [] {
      var n := |ps| - 1;
      assert ps == ps[..n] + [ps[n]];
      LastWins(ps[..n]);
      SetLast(DEFAULT, ps[..n], ps[n]);
      LimitsStep(SetOptions(DEFAULT, ps[..n]), ps[..n], ps[n]);
      ListsStep(SetOptions(DEFAULT, ps[..n]), ps[..n], ps[n]);
    }
  }

  // ---------------- rates ----------------

  lemma {:induction false} AfterLastIs(a: string, b: string, c: char)
    requires c !in b
    ensures AfterLast(a + [c] + b, c) == b
    decreases |b|
  {
    var all := a + [c] + b;
    if b != [] {
      var n := |b| - 1;
      assert all[..|all| - 1] == a + [c] + b[..n];
      AfterLastIs(a, b[..n], c);
      assert b == b[..n] + [b[n]];
    }
  }

  lemma {:induction false} LeadingDigitsIs(d: string, unit: string)
    requires forall i :: 0 <= i < |d| ==> '0' <= d[i] <= '9'
    requires unit != "" ==> !('0' <= unit[0] <= '9')
    ensures LeadingDigits(d + unit) == |d|
    decreases |d|
  {
    if d == "" {
      assert d + unit == unit;
    } else {
      LeadingDigitsIs(d[1..], unit);
      assert (d + unit)[1..] == d[1..] + unit;
    }
  }

  lemma UnsignedIs(d: string, max: nat)
    requires Digits(d)
    ensures ParseUnsigned(d, max) == if DecimalValue(d) <= max then Some(DecimalValue(d)) else None
  {
    assert '0' <= d[0] <= '9';
  }

  lemma BytesOf(d: string, unit: string)
    requires Digits(d) && UnitSize(unit).Some?
    ensures var n := DecimalValue(d) * UnitSize(unit).value;
            ParseBytes(d + unit) == if n < TWO_64 then Some(n) else None
  {
    LeadingDigitsIs(d, unit);
    UnsignedIs(d, TWO_64 - 1);
    assert (d + unit)[..|d|] == d && (d + unit)[|d|..] == unit;
  }

  lemma RateParts(amount: string, period: string)
    requires NoSpace(amount) && NoSpace(period) && '/' !in period
    ensures ParseRatePer(amount + ['/'] + period) ==
            if ParsePeriod(period).Some? && ParseBytes(amount).Some?
            then Some(RatePer(ParseBytes(amount).value, ParsePeriod(period).value)) else None
  {
    var s := amount + ['/'] + period;
    AfterLastIs(amount, period, '/');
    assert s[|amount|] == '/';
    assert s[..|s| - |period| - 1] == amount;
  }

  /** An amount, a unit and a period denote that many bytes per period, unless they exceed 64 bits. */
  lemma RateOf(d: string, unit: string, period: string)
    requires Digits(d) && UnitSize(unit).Some? && ParsePeriod(period).Some?
    ensures var n := DecimalValue(d) * UnitSize(unit).value;
            ParseRatePer(d + unit + ['/'] + period) == if n < TWO_64 then Some(RatePer(n, ParsePeriod(period).value)) else None
  {
    assert NoSpace(d + unit) by {
      DigitsPlain(d);
    }
    RateParts(d + unit, period);
    BytesOf(d, unit);
  }

  function Power(b: nat, k: nat): nat { if k == 0 then 1 else b * Power(b, k - 1) }

  lemma UnitPowers()
    ensures Power(1000, 1) == 1_000 && Power(1024, 1) == 1_024
    ensures Power(1000, 2) == 1_000_000 && Power(1024, 2) == 1_048_576
    ensures Power(1000, 3) == 1_000_000_000 && Power(1024, 3) == 1_073_741_824
    ensures Power(1000, 4) == 1_000_000_000_000 && Power(1024, 4) == 1_099_511_627_776
  {
    assert Power(1000, 2) == 1000 * Power(1000, 1) && Power(1024, 2) == 1024 * Power(1024, 1);
    assert Power(1000, 3) == 1000 * Power(1000, 2) && Power(1000, 4) == 1000 * Power(1000, 3);
    assert Power(1024, 3) == 1024 * Power(1024, 2) && Power(1024, 4) == 1024 * Power(1024, 3);
  }

  /** The unit words: decimal units are powers of a thousand, binary ones powers of 1024, and there are no others. */
  lemma UnitIff(w: string, n: nat)
    ensures UnitSize(w) == Some(n) <==>
            || (n == 1 && w in {"", "B"})
            || (n == Power(1000, 1) && w in {"KB", "kB"}) || (n == Power(1024, 1) && w == "KiB")
            || (n == Power(1000, 2) && w == "MB") || (n == Power(1024, 2) && w == "MiB")
            || (n == Power(1000, 3) && w == "GB") || (n == Power(1024, 3) && w == "GiB")
            || (n == Power(1000, 4) && w == "TB") || (n == Power(1024, 4) && w == "TiB")
  {
    UnitPowers();
  }

  /** The period words, and how long each period is in seconds. */
  lemma PeriodIff(w: string, p: Period)
    ensures ParsePeriod(w) == Some(p) <==> w in PeriodWords(p)
    ensures Seconds(p) == match p
                          case Second => 1
                          case Minute => 60
                          case Hour => 3_600
                          case Day => 86_400
                          case Week => 604_800
                          case Month => 2_592_000
  {
  }

  function PeriodWords(p: Period): set<string> {
    match p
    case Second => {"s", "sec", "second"}
    case Minute => {"m", "min", "minute"}
    case Hour => {"h", "hr", "hour"}
    case Day => {"d", "day"}
    case Week => {"w", "week"}
    case Month => {"mo", "month"}
  }

  // ---------------- numbers ----------------

  lemma {:induction false} NumeralValue(n: nat)
    ensures Digits(Numeral(n)) && DecimalValue(Numeral(n)) == n
  {
    if n >= 10 {
      NumeralValue(n / 10);
      var s := Numeral(n);
      assert s[..|s| - 1] == Numeral(n / 10);
    } else {
      assert Numeral(n)[..0] == "";
    }
  }

  /** Every number in range is read from its decimal numeral, with or without a plus sign, and none out of range is. */
  lemma NumeralReads(n: nat, max: nat)
    ensures ParseUnsigned(Numeral(n), max) == if n <= max then Some(n) else None
    ensures ParseUnsigned("+" + Numeral(n), max) == ParseUnsigned(Numeral(n), max)
  {
    NumeralValue(n);
    assert ("+" + Numeral(n))[1..] == Numeral(n);
  }

  /** What is read as a number has only digits after an optional plus sign. */
  lemma ReadIsDigits(s: string, max: nat)
    requires ParseUnsigned(s, max).Some?
    ensures s != "" && forall i :: 0 <= i < |s| ==> '0' <= s[i] <= '9' || (i == 0 && s[0] == '+' && |s| > 1)
  {
    if s[0] == '+' && |s| > 1 { assert forall i :: 1 <= i < |s| ==> s[i] == s[1..][i - 1]; }
  }

  // ---------------- port ranges ----------------

  lemma DigitsPlain(d: string)
    requires Digits(d)
    ensures NoSpace(d) && '-' !in d
  {
  }

  /** A single number is that port alone. */
  lemma PortOf(d: string)
    requires Digits(d)
    ensures PartBounds(d) == if DecimalValue(d) <= 0xFFFF then Some((DecimalValue(d), DecimalValue(d))) else None
  {
    DigitsPlain(d);
    UnsignedIs(d, 0xFFFF);
  }

  /** A range is its two ends, provided they are in order and are ports. */
  lemma RangeOf(lo: string, hi: string)
    requires Digits(lo) && Digits(hi)
    ensures PartBounds(lo + ['-'] + hi) ==
            if DecimalValue(lo) <= DecimalValue(hi) <= 0xFFFF then Some((DecimalValue(lo), DecimalValue(hi))) else None
  {
    var s := lo + ['-'] + hi;
    DigitsPlain(lo);
    DigitsPlain(hi);
    assert NoSpace(s);
    UntilFirst(lo, hi, '-');
    assert s[|lo| + 1..] == hi;
    UnsignedIs(lo, 0xFFFF);
    UnsignedIs(hi, 0xFFFF);
  }
}
