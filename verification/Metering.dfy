/** The rate-limit state of one identity and the metered copy loop. */
module Metering {
  import opened Bytes
  import opened Sockets
  import opened Quota

  // ---------------- bandwidth arithmetic ----------------

  function DivCeil(a: nat, b: nat): nat
    requires b > 0
  {
    (a + b - 1) / b
  }

  /**
    Rounding up gives the least whole rate that delivers the declared bytes;
    it delivers more exactly when the period does not divide them.
   */
  lemma RateRoundsUp(bytes: nat, secs: nat)
    requires secs > 0
    ensures var r := DivCeil(bytes, secs);
            && bytes <= r * secs < bytes + secs
            && (r * secs > bytes <==> bytes % secs != 0)
  {
    var q, m := (bytes + secs - 1) / secs, (bytes + secs - 1) % secs;
    assert q * secs + m == bytes + secs - 1;
    var q', m' := bytes / secs, bytes % secs;
    assert q' * secs + m' == bytes;
    if m' == 0 {
      Quotient(secs, q, m, q', secs - 1);
    } else {
      assert (q' + 1) * secs == q' * secs + secs;
      Quotient(secs, q, m, q' + 1, m' - 1);
    }
  }

  lemma Quotient(b: nat, q: int, m: int, q': int, m': int)
    requires b > 0 && 0 <= m < b && 0 <= m' < b && q * b + m == q' * b + m'
    ensures q == q' && m == m'
  {
    if q < q' { Multiples(b, q, q'); }
    if q > q' { Multiples(b, q', q); }
  }

  lemma Multiples(b: nat, p: int, q: int)
    requires p < q
    ensures p * b + b <= q * b
  {
    assert (q - p - 1) * b >= 0;
    assert (q - p - 1) * b == q * b - p * b - b;
  }

  /** Each worker's share of the total rate, never less than one. */
  function PerCore(total: nat, partitions: nat): nat
    requires partitions > 0
  {
    if total / partitions == 0 then 1 else total / partitions
  }

  /**
    The shares stay within the total exactly when there is at least one unit
    for every worker, and then waste less than one each.
   */
  lemma SplitWithinIff(total: nat, partitions: nat)
    requires partitions > 0
    ensures partitions * PerCore(total, partitions) <= total <==> partitions <= total
    ensures partitions <= total ==> total < partitions * PerCore(total, partitions) + partitions
    ensures total < partitions ==> PerCore(total, partitions) == 1
  {
    var q, m := total / partitions, total % partitions;
    assert partitions * q + m == total;
  }

  // ---------------- the shared state ----------------

  const U32_MAX: nat := TWO_32 - 1

  /** Whole milliseconds to the deadline, clamped; instants are nanoseconds. */
  function RetryAfter(deadline: Instant, now: Instant): (ms: U32)
    ensures ms < U32_MAX ==> deadline <= now + ms * 1_000_000 + 999_999
    ensures now < deadline ==> now + ms * 1_000_000 <= deadline
    ensures deadline <= now ==> ms == 0
  {
    var d := if deadline <= now then 0 else (deadline - now) / 1_000_000;
    if d > U32_MAX then U32_MAX else d
  }

  datatype Charge = Granted | QuotaExceeded(retryAfterMs: U32)

  datatype RateLimitFrame = RateLimitFrame(tunnel: nat, retryAfterMs: U32)

  class RateLimitState {
    const cap: Option<U64>
    const period: Instant
    var used: U64
    var resetAt: Instant
    var control: Option<seq<RateLimitFrame>>  // what the attached session has been sent

    constructor (quota: Option<(U64, Instant)>, month: Instant, now: Instant)
      ensures used == 0 && control == None
      ensures cap == (if quota.Some? then Some(quota.value.0) else None)
      ensures period == (if quota.Some? then quota.value.1 else month) && resetAt == now + period
    {
      cap := if quota.Some? then Some(quota.value.0) else None;
      period := if quota.Some? then quota.value.1 else month;
      used := 0;
      resetAt := now + (if quota.Some? then quota.value.1 else month);
      control := None;
    }

    method AttachControl()
      modifies this`control
      ensures control == Some([])
    {
      control := Some([]);
    }

    method DetachControl()
      modifies this`control
      ensures control == None
    {
      control := None;
    }

    /**
      One charge with no other copier between its two steps. The refused bytes
      stay counted, which is why a refusal lasts.
     */
    method Charge(tunnel: nat, n: nat, now: Instant, later: Instant) returns (c: Charge)
      modifies this
      ensures cap.None? ==> c == Granted && used == old(used) && resetAt == old(resetAt) && control == old(control)
      ensures cap.Some? ==>
                var rolled := now >= old(resetAt);
                var (u, granted) := FetchAdd(if rolled then 0 else old(used), n, cap.value);
                && used == u && resetAt == (if rolled then now + period else old(resetAt))
                && c == (if granted then Granted else QuotaExceeded(RetryAfter(resetAt, later)))
                && control == (if granted || old(control).None? then old(control)
                               else Some(old(control).value + [RateLimitFrame(tunnel, RetryAfter(resetAt, later))]))
    {
      if cap.None? {
        return Granted;
      }
      if now >= resetAt {
        used := 0;
        resetAt := now + period;
      }
      var prev := used;
      used := (used + n) % TWO_64;
      if (prev + n) % TWO_64 > cap.value {
        var ms := RetryAfter(resetAt, later);
        if control.Some? {
          control := Some(control.value + [RateLimitFrame(tunnel, ms)]);
        }
        return QuotaExceeded(ms);
      }
      return Granted;
    }
  }

  /** A writer; `bytes` is what has been written to it. */
  class Sink {
    var bytes: seq<Byte>
    var closed: bool
    var broken: bool  // a write has failed

    constructor ()
      ensures bytes == [] && !closed && !broken
    {
      bytes, closed, broken := [], false, false;
    }

    /** `write_all`: everything, or an error after some of it. */
    method WriteAll(b: seq<Byte>) returns (ok: bool)
      modifies this`bytes, this`broken
      ensures old(bytes) <= bytes <= old(bytes) + b
      ensures ok <==> bytes == old(bytes) + b
      ensures broken == (old(broken) || !ok)
    {
      var k: nat :| k <= |b|;
      bytes := bytes + b[..k];
      ok := k == |b|;
      broken := broken || !ok;
    }

    method Shutdown()
      modifies this`closed
      ensures closed
    {
      closed := true;
    }
  }

  datatype Moved = Chunk(n: nat) | EndOfFile | Refused | Broken

  datatype CopyEnd = Finished(total: nat) | OverQuota | BrokenPipe | TimedOut

  /** One turn of the copy loop: a chunk is written only after it was granted, and charged even if the write breaks. */
  method CopyChunk(r: Socket, w: Sink, rate: RateLimitState, tunnel: nat, now: Instant) returns (m: Moved)
    requires !w.broken
    modifies r, w, rate
    ensures m.Broken? <==> w.broken
    ensures |w.bytes| - |old(w.bytes)| <= |old(r.incoming)| - |r.incoming| <= BUFFER_SIZE
    ensures w.bytes <= old(w.bytes) + old(r.incoming) && old(w.bytes) <= w.bytes
    ensures m.EndOfFile? <==> old(r.incoming) == []
    ensures m.EndOfFile? ==> w.bytes == old(w.bytes) && w.closed && rate.used == old(rate.used)
    ensures m.Refused? ==> rate.cap.Some? && w.bytes == old(w.bytes) && w.closed
    ensures !m.EndOfFile? ==> |r.incoming| < |old(r.incoming)|
    ensures m.Chunk? ==> 0 < m.n <= |old(r.incoming)| && r.incoming == old(r.incoming)[m.n..]
                         && w.bytes == old(w.bytes) + old(r.incoming)[..m.n]
    ensures !m.EndOfFile? && rate.cap.Some? ==>
              var n := |old(r.incoming)| - |r.incoming|;
              var rolled := now >= old(rate.resetAt);
              (rate.used, !m.Refused?) == FetchAdd(if rolled then 0 else old(rate.used), n, rate.cap.value)
              && rate.resetAt == (if rolled then now + rate.period else old(rate.resetAt))
  {
    var buf := r.Read(BUFFER_SIZE);
    assert buf <= old(r.incoming);
    if buf == [] {
      w.Shutdown();
      return EndOfFile;
    }
    var c := rate.Charge(tunnel, |buf|, now, now);
    if c.QuotaExceeded? {
      w.Shutdown();
      return Refused;
    }
    var ok := w.WriteAll(buf);
    return if ok then Chunk(|buf|) else Broken;
  }

  /** Whether either direction of a connection has moved a byte. */
  class Flow {
    var seen: bool
  }

  /**
    What one turn of the loop meets: the time of its charge, whether its read
    outlasts the first-byte deadline, whether the other direction moves a byte
    meanwhile, and whether the read fails.
   */
  datatype Turn = Turn(now: Instant, late: bool, peer: bool, fails: bool)

  /** No reset and no wrap can happen while this much is copied. */
  ghost predicate Calm(used: nat, resetAt: Instant, bytes: nat, turns: nat -> Turn) {
    used + bytes < TWO_64 && forall k: nat :: turns(k).now < resetAt
  }

  /**
    The loop after its first read has not timed out. It forwards a prefix of
    its input and all of it when it finishes; it breaks exactly when a read of
    turn `k`, its last, or a write failed; it is over quota only when the last
    charge was; within one period it finishes exactly when its input fits what
    was left of the cap.
   */
  method CopyLoop(r: Socket, w: Sink, rate: RateLimitState, flow: Flow, tunnel: nat, turns: nat -> Turn)
      returns (end: CopyEnd, ghost k: nat)
    requires !w.broken
    modifies r, w, rate, flow
    ensures end.BrokenPipe? <==> turns(k).fails || w.broken
    ensures forall j :: 0 <= j < k ==> !turns(j).fails
    ensures end.Finished? ==> r.incoming == []
    ensures end.OverQuota? ==> rate.cap.Some? && rate.used > rate.cap.value
    ensures old(w.bytes) <= w.bytes <= old(w.bytes) + old(r.incoming)
    ensures flow.seen <==> old(flow.seen) || |r.incoming| < |old(r.incoming)|
    ensures w.bytes != old(w.bytes) ==> flow.seen
    ensures end.Finished? ==> w.bytes == old(w.bytes) + old(r.incoming) && end.total == |old(r.incoming)|
    ensures end.Finished? || end.OverQuota? ==> w.closed
    ensures !end.TimedOut?
    ensures !end.BrokenPipe? && rate.cap.Some? && Calm(old(rate.used), old(rate.resetAt), |old(r.incoming)|, turns) ==>
              (end.Finished? <==> old(r.incoming) == [] || old(rate.used) + |old(r.incoming)| <= rate.cap.value)
  {
    var total, i := 0, 0;
    ghost var calm := rate.cap.Some? && Calm(rate.used, rate.resetAt, |r.incoming|, turns);
    while true
      invariant 0 <= total <= |old(r.incoming)| && r.incoming == old(r.incoming)[total..]
      invariant w.bytes == old(w.bytes) + old(r.incoming)[..total]
      invariant flow.seen <==> old(flow.seen) || total > 0
      invariant !w.broken && forall j :: 0 <= j < i ==> !turns(j).fails
      invariant calm ==> rate.resetAt == old(rate.resetAt) && rate.used == old(rate.used) + total
                         && (total > 0 ==> rate.used <= rate.cap.value)
      decreases |r.incoming|
    {
      var t := turns(i);
      if t.fails {
        return BrokenPipe, i;
      }
      var m := CopyChunk(r, w, rate, tunnel, t.now);
      if m.EndOfFile? {
        return Finished(total), i;
      }
      flow.seen := true;
      match m
      case Refused => return OverQuota, i;
      case Broken => return BrokenPipe, i;
      case Chunk(n) =>
        total, i := total + n, i + 1;
    }
  }

  /**
    The copy loop with its first-byte deadline: it times out exactly when no
    byte flows either way in time, and then nothing has changed.
   */
  method Shovel(r: Socket, w: Sink, rate: RateLimitState, flow: Flow, tunnel: nat, turns: nat -> Turn)
      returns (end: CopyEnd, ghost k: nat)
    requires !w.broken
    modifies r, w, rate, flow
    ensures end.BrokenPipe? <==> !end.TimedOut? && (turns(k).fails || w.broken)
    ensures forall j :: 0 <= j < k ==> !turns(j).fails
    ensures old(w.bytes) <= w.bytes <= old(w.bytes) + old(r.incoming)
    ensures end.TimedOut? <==> !old(flow.seen) && turns(0).late && !turns(0).peer
    ensures end.TimedOut? ==> w.bytes == old(w.bytes) && r.incoming == old(r.incoming) && rate.used == old(rate.used)
    ensures flow.seen <==> old(flow.seen) || |r.incoming| < |old(r.incoming)| || (turns(0).late && turns(0).peer)
    ensures w.bytes != old(w.bytes) ==> flow.seen
    ensures end.Finished? ==> w.bytes == old(w.bytes) + old(r.incoming) && end.total == |old(r.incoming)|
    ensures end.Finished? || end.OverQuota? ==> w.closed
    ensures end.Finished? ==> r.incoming == []
    ensures end.OverQuota? ==> rate.cap.Some? && rate.used > rate.cap.value
    ensures (end.Finished? || end.OverQuota?) && rate.cap.Some?
            && Calm(old(rate.used), old(rate.resetAt), |old(r.incoming)|, turns) ==>
              (end.Finished? <==> old(r.incoming) == [] || old(rate.used) + |old(r.incoming)| <= rate.cap.value)
  {
    if !flow.seen && turns(0).late {
      if !turns(0).peer {
        return TimedOut, 0;
      }
      flow.seen := true;
    }
    end, k := CopyLoop(r, w, rate, flow, tunnel, turns);
  }
}
