/**
  The period quota as the program runs it: any number of copiers share one
  counter, and each charge is two separate atomic steps, a possible reset
  under the deadline lock and then a fetch-add whose old value decides.
 */
module Quota {
  import opened Bytes

  datatype Limits = Limits(cap: U64, period: Instant)

  /** Where a copier is in its loop; `buf` is the chunk it has read. */
  datatype Pc =
    | Reading
    | Charging(buf: seq<Byte>)
    | Adding(buf: seq<Byte>)
    | Writing(buf: seq<Byte>)
    | Closed

  datatype Copier = Copier(source: seq<Byte>, taken: nat, out: seq<Byte>, pc: Pc)

  /** What happened to the counter, in order. */
  datatype Entry = Reset | Charged(n: nat, granted: bool)

  datatype World = World(used: U64, deadline: Instant, now: Instant, copiers: seq<Copier>, log: seq<Entry>)

  const BUFFER_SIZE: nat := 16 * 1024

  function Start(l: Limits, t0: Instant): World {
    World(0, t0 + l.period, t0, [], [])
  }

  datatype Event =
    | Join(source: seq<Byte>)
    | Take(i: nat, n: nat)
    | End(i: nat)
    | Roll(i: nat)
    | Add(i: nat)
    | Forward(i: nat)
    | Break(i: nat, k: nat)
    | Tick(d: nat)

  /** A read returns one to 16 KiB; a write may fail after some bytes; a copier ends by end-of-file, error or timeout. */
  predicate Enabled(w: World, e: Event) {
    match e
    case Join(_) => true
    case Tick(_) => true
    case Take(i, n) =>
      i < |w.copiers| && w.copiers[i].pc.Reading? && 0 < n <= BUFFER_SIZE && w.copiers[i].taken + n <= |w.copiers[i].source|
    case End(i) => i < |w.copiers| && w.copiers[i].pc.Reading?
    case Roll(i) => i < |w.copiers| && w.copiers[i].pc.Charging?
    case Add(i) => i < |w.copiers| && w.copiers[i].pc.Adding?
    case Forward(i) => i < |w.copiers| && w.copiers[i].pc.Writing?
    case Break(i, k) => i < |w.copiers| && w.copiers[i].pc.Writing? && k <= |w.copiers[i].pc.buf|
  }

  function Set(w: World, i: nat, c: Copier): World
    requires i < |w.copiers|
  {
    w.(copiers := w.copiers[i := c])
  }

  /** The counter after `charge`'s fetch-add and whether the caller may go on; both wrap at 2^64. */
  function FetchAdd(used: U64, n: nat, cap: U64): (U64, bool) {
    ((used + n) % TWO_64, (used + n) % TWO_64 <= cap)
  }

  function Apply(w: World, e: Event, l: Limits): World
    requires Enabled(w, e)
  {
    match e
    case Join(source) => w.(copiers := w.copiers + [Copier(source, 0, [], Reading)])
    case Tick(d) => w.(now := w.now + d)
    case Take(i, n) =>
      var c := w.copiers[i];
      Set(w, i, c.(taken := c.taken + n, pc := Charging(c.source[c.taken..c.taken + n])))
    case End(i) => Set(w, i, w.copiers[i].(pc := Closed))
    case Roll(i) =>
      var w' := Set(w, i, w.copiers[i].(pc := Adding(w.copiers[i].pc.buf)));
      if w.now >= w.deadline then w'.(used := 0, deadline := w.now + l.period, log := w.log + [Reset]) else w'
    case Add(i) =>
      var c := w.copiers[i];
      var (used, granted) := FetchAdd(w.used, |c.pc.buf|, l.cap);
      Set(w, i, c.(pc := if granted then Writing(c.pc.buf) else Closed))
      .(used := used, log := w.log + [Charged(|c.pc.buf|, granted)])
    case Forward(i) =>
      var c := w.copiers[i];
      Set(w, i, c.(out := c.out + c.pc.buf, pc := Reading))
    case Break(i, k) =>
      var c := w.copiers[i];
      Set(w, i, c.(out := c.out + c.pc.buf[..k], pc := Closed))
  }

  // ---------------- the log ----------------

  function Init(log: seq<Entry>): seq<Entry>
    requires log != []
  {
    log[..|log| - 1]
  }

  function Last(log: seq<Entry>): Entry
    requires log != []
  {
    log[|log| - 1]
  }

  /** Bytes charged since the last reset, granted or not. */
  function Spent(log: seq<Entry>): nat {
    if log == [] || Last(log).Reset? then 0 else Spent(Init(log)) + Last(log).n
  }

  /** Bytes granted since the last reset. */
  function Granted(log: seq<Entry>): nat {
    if log == [] || Last(log).Reset? then 0
    else Granted(Init(log)) + if Last(log).granted then Last(log).n else 0
  }

  predicate Refused(log: seq<Entry>) {
    log != [] && !Last(log).Reset? && (!Last(log).granted || Refused(Init(log)))
  }

  /** Bytes granted in all. */
  function GrantedEver(log: seq<Entry>): nat {
    if log == [] then 0
    else GrantedEver(Init(log)) + if Last(log).Charged? && Last(log).granted then Last(log).n else 0
  }

  function Resets(log: seq<Entry>): nat {
    if log == [] then 0 else Resets(Init(log)) + if Last(log).Reset? then 1 else 0
  }

  /** Every charge was decided by the wrapping sum of what was charged before it. */
  predicate Decided(log: seq<Entry>, cap: U64) {
    log != [] ==>
      && Decided(Init(log), cap)
      && (Last(log).Charged? ==> Last(log).granted == (Spent(log) % TWO_64 <= cap))
  }

  /** A charge since the reset took the sum past 2^64 and its remainder back under the cap. */
  predicate Wrapped(log: seq<Entry>, cap: U64) {
    && log != [] && Last(log).Charged?
    && (Wrapped(Init(log), cap) || (Spent(log) >= TWO_64 && Spent(log) % TWO_64 <= cap))
  }

  /** That happened in no period. */
  predicate NeverWrapped(log: seq<Entry>, cap: U64) {
    log != [] ==> !Wrapped(log, cap) && NeverWrapped(Init(log), cap)
  }

  /** Since the reset no charge was granted after a refusal. */
  predicate Sticky(log: seq<Entry>) {
    log != [] && Last(log).Charged? ==> Sticky(Init(log)) && (Last(log).granted ==> !Refused(Init(log)))
  }

  /** What a quota promises of the current period. */
  predicate QuotaHolds(log: seq<Entry>, cap: U64) { Granted(log) <= cap && Sticky(log) }

  /** Since the reset no charge was larger than `most`. */
  predicate Sized(log: seq<Entry>, most: nat) {
    log != [] && Last(log).Charged? ==> Last(log).n <= most && Sized(Init(log), most)
  }

  /**
    Below 2^64 the granted bytes fit the cap, a refusal means the cap was
    exceeded, and until then nothing is refused.
   */
  lemma {:induction false} PeriodBound(log: seq<Entry>, cap: U64)
    requires Decided(log, cap) && Spent(log) < TWO_64
    ensures QuotaHolds(log, cap)
    ensures Refused(log) <==> Spent(log) > cap
    ensures !Refused(log) ==> Granted(log) == Spent(log)
  {
    if log != [] && Last(log).Charged? { PeriodBound(Init(log), cap); }
  }

  lemma {:induction false} UnrefusedSpent(log: seq<Entry>)
    requires !Refused(log)
    ensures Granted(log) == Spent(log)
  {
    if log != [] && Last(log).Charged? { UnrefusedSpent(Init(log)); }
  }

  /** The quota holds in the current period exactly when the counter did not wrap past the refusals. */
  lemma {:induction false} QuotaIff(log: seq<Entry>, cap: U64)
    requires Decided(log, cap)
    ensures QuotaHolds(log, cap) <==> !Wrapped(log, cap)
  {
    if log != [] && Last(log).Charged? {
      QuotaIff(Init(log), cap);
      if Spent(log) < TWO_64 {
        PeriodBound(log, cap);
      } else if Last(log).granted && !Refused(Init(log)) {
        UnrefusedSpent(log);
      }
    }
  }

  /** Charges no larger than the cap and one cannot step over the granted range. */
  lemma {:induction false} CrossingWraps(log: seq<Entry>, cap: U64)
    requires Sized(log, cap + 1) && Spent(log) >= TWO_64
    ensures Wrapped(log, cap)
  {
    if Spent(Init(log)) >= TWO_64 { CrossingWraps(Init(log), cap); }
  }

  lemma BelowUnwrapped(log: seq<Entry>, cap: U64)
    requires Decided(log, cap) && Spent(log) < TWO_64
    ensures !Wrapped(log, cap)
  {
    PeriodBound(log, cap);
    QuotaIff(log, cap);
  }

  /** For such charges the quota holds exactly while fewer than 2^64 bytes were charged. */
  lemma QuotaIffBelow(log: seq<Entry>, cap: U64)
    requires Decided(log, cap) && Sized(log, cap + 1)
    ensures QuotaHolds(log, cap) <==> Spent(log) < TWO_64
  {
    QuotaIff(log, cap);
    if Spent(log) < TWO_64 { BelowUnwrapped(log, cap); } else { CrossingWraps(log, cap); }
  }

  /** And so does the permanence of a refusal alone, unless the cap is within one charge of 2^64. */
  lemma {:induction false} StickyIffBelow(log: seq<Entry>, cap: U64, most: nat)
    requires Decided(log, cap) && Sized(log, most) && most <= cap + 1 && cap + most < TWO_64
    ensures Sticky(log) <==> Spent(log) < TWO_64
  {
    if Spent(log) < TWO_64 {
      PeriodBound(log, cap);
    } else if Spent(Init(log)) < TWO_64 {
      PeriodBound(Init(log), cap);
    } else {
      StickyIffBelow(Init(log), cap, most);
    }
  }

  /** After a refusal every charge is refused until the next reset. */
  lemma {:induction false} RefusalSticks(log: seq<Entry>, cap: U64, i: nat)
    requires Decided(log, cap) && !Wrapped(log, cap) && i < |log|
    requires log[i].Charged? && !log[i].granted
    requires forall k :: i <= k < |log| ==> log[k].Charged?
    ensures Refused(log)
    ensures forall k :: i <= k < |log| ==> !log[k].granted
    decreases |log|
  {
    if i < |log| - 1 {
      assert forall k :: 0 <= k < |log| - 1 ==> Init(log)[k] == log[k];
      RefusalSticks(Init(log), cap, i);
      QuotaIff(log, cap);
    }
  }

  lemma {:induction false} EverBound(log: seq<Entry>, cap: U64)
    requires Decided(log, cap) && NeverWrapped(log, cap)
    ensures GrantedEver(log) <= cap * Resets(log) + Granted(log)
  {
    if log != [] {
      EverBound(Init(log), cap);
      QuotaIff(Init(log), cap);
      if Last(log).Reset? { assert cap * (Resets(Init(log)) + 1) == cap * Resets(Init(log)) + cap; }
    }
  }
}
