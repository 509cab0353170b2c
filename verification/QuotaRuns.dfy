/** Every run of the metered copiers: what they forward, together and over time. */
module QuotaRuns {
  import opened Bytes
  import opened Quota

  ghost predicate Run(ws: seq<World>, es: seq<Event>, l: Limits, t0: Instant) {
    && |ws| == |es| + 1 && ws[0] == Start(l, t0)
    && forall k {:trigger es[k]} :: 0 <= k < |es| ==> Enabled(ws[k], es[k]) && ws[k + 1] == Apply(ws[k], es[k], l)
  }

  // ---------------- one copier ----------------

  /** The chunk in hand follows what was written, and both come from the source in order. */
  predicate CopierOK(c: Copier) {
    c.taken <= |c.source|
    && match c.pc
       case Reading => c.out == c.source[..c.taken]
       case Closed => c.out <= c.source[..c.taken]
       case _ => c.out + c.pc.buf == c.source[..c.taken]
  }

  /** Bytes of a copier that were granted: written, or about to be. */
  function Due(c: Copier): nat { |c.out| + if c.pc.Writing? then |c.pc.buf| else 0 }

  function DueSum(cs: seq<Copier>): nat {
    if cs == [] then 0 else DueSum(cs[..|cs| - 1]) + Due(cs[|cs| - 1])
  }

  function Forwarded(cs: seq<Copier>): nat {
    if cs == [] then 0 else Forwarded(cs[..|cs| - 1]) + |cs[|cs| - 1].out|
  }

  lemma {:induction false} DueSet(cs: seq<Copier>, i: nat, c: Copier)
    requires i < |cs|
    ensures DueSum(cs[i := c]) == DueSum(cs) - Due(cs[i]) + Due(c)
  {
    var n := |cs| - 1;
    if i == n {
      assert cs[i := c][..n] == cs[..n];
    } else {
      DueSet(cs[..n], i, c);
      assert cs[i := c][..n] == cs[..n][i := c];
    }
  }

  lemma {:induction false} ForwardedDue(cs: seq<Copier>)
    ensures Forwarded(cs) <= DueSum(cs)
  {
    if cs != [] { ForwardedDue(cs[..|cs| - 1]); }
  }

  // ---------------- the invariant ----------------

  ghost predicate CopiersOK(cs: seq<Copier>) {
    forall i :: 0 <= i < |cs| ==> CopierOK(cs[i])
  }

  ghost predicate CounterOK(used: U64, log: seq<Entry>, cap: U64) {
    used == Spent(log) % TWO_64 && Decided(log, cap)
  }

  /** Each reset is a whole period after the one before. */
  ghost predicate ClockOK(now: Instant, deadline: Instant, resets: nat, period: Instant, t0: Instant) {
    t0 + period * resets <= now && t0 + period * resets + period <= deadline
  }

  ghost predicate Inv(w: World, l: Limits, t0: Instant) {
    && CopiersOK(w.copiers) && CounterOK(w.used, w.log, l.cap)
    && DueSum(w.copiers) <= GrantedEver(w.log)
    && ClockOK(w.now, w.deadline, Resets(w.log), l.period, t0)
  }

  lemma CounterAdd(used: U64, log: seq<Entry>, cap: U64, n: nat)
    requires CounterOK(used, log, cap)
    ensures var (used', granted) := FetchAdd(used, n, cap);
            && CounterOK(used', log + [Charged(n, granted)], cap)
            && GrantedEver(log + [Charged(n, granted)]) == GrantedEver(log) + (if granted then n else 0)
            && Resets(log + [Charged(n, granted)]) == Resets(log)
  {
  }

  lemma CounterReset(log: seq<Entry>, cap: U64)
    requires Decided(log, cap)
    ensures CounterOK(0, log + [Entry.Reset], cap)
    ensures GrantedEver(log + [Entry.Reset]) == GrantedEver(log) && Resets(log + [Entry.Reset]) == Resets(log) + 1
  {
  }

  lemma ClockReset(now: Instant, deadline: Instant, resets: nat, period: Instant, t0: Instant)
    requires ClockOK(now, deadline, resets, period, t0) && now >= deadline
    ensures ClockOK(now, now + period, resets + 1, period, t0)
  {
    assert period * (resets + 1) == period * resets + period;
  }

  lemma AddKeeps(w: World, i: nat, l: Limits, t0: Instant)
    requires Inv(w, l, t0) && Enabled(w, Add(i))
    ensures Inv(Apply(w, Add(i), l), l, t0)
  {
    var c := w.copiers[i];
    var w' := Apply(w, Add(i), l);
    CounterAdd(w.used, w.log, l.cap, |c.pc.buf|);
    DueSet(w.copiers, i, w'.copiers[i]);
    assert CopierOK(w'.copiers[i]) by {
      assert CopierOK(c);
      assert c.out <= c.source[..c.taken];
    }
  }

  lemma RollKeeps(w: World, i: nat, l: Limits, t0: Instant)
    requires Inv(w, l, t0) && Enabled(w, Roll(i))
    ensures Inv(Apply(w, Roll(i), l), l, t0)
  {
    var w' := Apply(w, Roll(i), l);
    DueSet(w.copiers, i, w'.copiers[i]);
    assert CopierOK(w.copiers[i]);
    if w.now >= w.deadline {
      CounterReset(w.log, l.cap);
      ClockReset(w.now, w.deadline, Resets(w.log), l.period, t0);
    }
  }

  lemma CopierKeeps(w: World, e: Event, l: Limits, t0: Instant)
    requires Inv(w, l, t0) && Enabled(w, e) && (e.Take? || e.End? || e.Forward? || e.Break?)
    ensures Inv(Apply(w, e, l), l, t0)
  {
    var w' := Apply(w, e, l);
    DueSet(w.copiers, e.i, w'.copiers[e.i]);
    var c := w.copiers[e.i];
    if e.Take? {
      assert c.source[..c.taken] + c.source[c.taken..c.taken + e.n] == c.source[..c.taken + e.n];
    }
  }

  lemma StepKeeps(w: World, e: Event, l: Limits, t0: Instant)
    requires Inv(w, l, t0) && Enabled(w, e)
    ensures Inv(Apply(w, e, l), l, t0)
  {
    match e
    case Add(i) => AddKeeps(w, i, l, t0);
    case Roll(i) => RollKeeps(w, i, l, t0);
    case Join(source) =>
      var c := Copier(source, 0, [], Reading);
      assert (w.copiers + [c])[..|w.copiers|] == w.copiers;
    case Tick(_) =>
    case _ => CopierKeeps(w, e, l, t0);
  }

  lemma {:induction false} InvAlways(ws: seq<World>, es: seq<Event>, l: Limits, t0: Instant, n: nat)
    requires Run(ws, es, l, t0) && n < |ws|
    ensures Inv(ws[n], l, t0)
  {
    if n > 0 {
      InvAlways(ws, es, l, t0, n - 1);
      StepKeeps(ws[n - 1], es[n - 1], l, t0);
    }
  }

  // ---------------- the guarantees ----------------

  /** Each copier has written a prefix of its input. */
  lemma ForwardsPrefix(ws: seq<World>, es: seq<Event>, l: Limits, t0: Instant, n: nat, i: nat)
    requires Run(ws, es, l, t0) && n < |ws| && i < |ws[n].copiers|
    ensures ws[n].copiers[i].out <= ws[n].copiers[i].source
  {
    InvAlways(ws, es, l, t0, n);
    assert CopierOK(ws[n].copiers[i]);
  }

  predicate ChunkOK(c: Copier) { c.pc.Reading? || c.pc.Closed? || |c.pc.buf| <= BUFFER_SIZE }

  /** Only chunks of at most 16 KiB are ever charged. */
  ghost predicate Chunked(w: World) {
    Sized(w.log, BUFFER_SIZE) && forall i :: 0 <= i < |w.copiers| ==> ChunkOK(w.copiers[i])
  }

  lemma StepChunked(w: World, e: Event, l: Limits)
    requires Chunked(w) && Enabled(w, e)
    ensures Chunked(Apply(w, e, l))
  {
    var w' := Apply(w, e, l);
    assert Sized(w'.log, BUFFER_SIZE) by {
      if e.Add? || e.Roll? { assert ChunkOK(w.copiers[e.i]); }
    }
    forall i | 0 <= i < |w'.copiers| ensures ChunkOK(w'.copiers[i]) {
      if i < |w.copiers| { assert ChunkOK(w.copiers[i]); }
    }
  }

  lemma {:induction false} ChunkedAlways(ws: seq<World>, es: seq<Event>, l: Limits, t0: Instant, n: nat)
    requires Run(ws, es, l, t0) && n < |ws|
    ensures Chunked(ws[n])
  {
    if n > 0 {
      ChunkedAlways(ws, es, l, t0, n - 1);
      StepChunked(ws[n - 1], es[n - 1], l);
    }
  }

  lemma {:induction false} SizedLarger(log: seq<Entry>, a: nat, b: nat)
    requires Sized(log, a) && a <= b
    ensures Sized(log, b)
  {
    if log != [] && Last(log).Charged? { SizedLarger(Quota.Init(log), a, b); }
  }

  /**
    For any number of copiers and any interleaving the quota of the current
    period holds exactly when the counter did not wrap past its refusals; for
    a cap of a chunk or more that is while fewer than 2^64 bytes were charged.
   */
  lemma QuotaSafeIff(ws: seq<World>, es: seq<Event>, l: Limits, t0: Instant, n: nat)
    requires Run(ws, es, l, t0) && n < |ws|
    ensures QuotaHolds(ws[n].log, l.cap) <==> !Wrapped(ws[n].log, l.cap)
    ensures BUFFER_SIZE <= l.cap + 1 ==> (QuotaHolds(ws[n].log, l.cap) <==> Spent(ws[n].log) < TWO_64)
    ensures Spent(ws[n].log) < TWO_64 ==> QuotaHolds(ws[n].log, l.cap) && (Refused(ws[n].log) <==> ws[n].used > l.cap)
  {
    InvAlways(ws, es, l, t0, n);
    QuotaIff(ws[n].log, l.cap);
    if BUFFER_SIZE <= l.cap + 1 {
      ChunkedAlways(ws, es, l, t0, n);
      SizedLarger(ws[n].log, BUFFER_SIZE, l.cap + 1);
      QuotaIffBelow(ws[n].log, l.cap);
    }
    if Spent(ws[n].log) < TWO_64 { PeriodBound(ws[n].log, l.cap); }
  }

  /** Seen from any point of a run: once one copier is refused, all are, until the counter is reset. */
  lemma RefusalLasts(ws: seq<World>, es: seq<Event>, l: Limits, t0: Instant, n: nat, i: nat)
    requires Run(ws, es, l, t0) && n < |ws| && !Wrapped(ws[n].log, l.cap)
    requires i < |ws[n].log| && ws[n].log[i].Charged? && !ws[n].log[i].granted
    requires forall k :: i <= k < |ws[n].log| ==> ws[n].log[k].Charged?
    ensures forall k :: i <= k < |ws[n].log| ==> !ws[n].log[k].granted
  {
    InvAlways(ws, es, l, t0, n);
    RefusalSticks(ws[n].log, l.cap, i);
  }

  /**
    The rate promised over time: all bytes forwarded on behalf of one identity
    since `t0` are at most one cap for every started period, however many
    copiers there are and however their steps interleave.
   */
  lemma ForwardedOverTime(ws: seq<World>, es: seq<Event>, l: Limits, t0: Instant, n: nat)
    requires Run(ws, es, l, t0) && n < |ws| && NeverWrapped(ws[n].log, l.cap) && l.period > 0
    ensures t0 <= ws[n].now
    ensures Forwarded(ws[n].copiers) <= l.cap * (1 + (ws[n].now - t0) / l.period)
  {
    var w := ws[n];
    InvAlways(ws, es, l, t0, n);
    ForwardedDue(w.copiers);
    EverBound(w.log, l.cap);
    QuotaIff(w.log, l.cap);
    var r, q := Resets(w.log), (w.now - t0) / l.period;
    assert r <= q by { Divides(l.period, r, w.now - t0); }
    Scales(l.cap, r, q);
  }

  // ---------------- time, renewal and the end of a copier ----------------

  /** The time the clock steps of a run add up to. */
  function Elapsed(es: seq<Event>): nat {
    if es == [] then 0
    else
      var e := es[|es| - 1];
      Elapsed(es[..|es| - 1]) + if e.Tick? then e.d else 0
  }

  /** The quota's clock is the time that has passed, and the next reset is never further away than one period. */
  lemma {:induction false} ClockInRuns(ws: seq<World>, es: seq<Event>, l: Limits, t0: Instant, n: nat)
    requires Run(ws, es, l, t0) && n < |ws|
    ensures ws[n].now == t0 + Elapsed(es[..n]) && ws[n].deadline <= ws[n].now + l.period
  {
    if n > 0 {
      ClockInRuns(ws, es, l, t0, n - 1);
      assert es[..n][..n - 1] == es[..n - 1];
      assert es[..n][n - 1] == es[n - 1];
    }
  }

  /** Without a reset the deadline stays. */
  lemma {:induction false} DeadlineStays(ws: seq<World>, es: seq<Event>, l: Limits, t0: Instant, j: nat, k: nat)
    requires Run(ws, es, l, t0) && j <= k < |ws|
    ensures Resets(ws[j].log) <= Resets(ws[k].log)
    ensures Resets(ws[j].log) == Resets(ws[k].log) ==> ws[j].deadline == ws[k].deadline
    decreases k
  {
    if j < k {
      DeadlineStays(ws, es, l, t0, j, k - 1);
      var w, e := ws[k - 1], es[k - 1];
      assert Enabled(w, e);
      if e.Roll? {
        CounterReset(w.log, l.cap) by { InvAlways(ws, es, l, t0, k - 1); }
      } else if e.Add? {
        CounterAdd(w.used, w.log, l.cap, |w.copiers[e.i].pc.buf|) by { InvAlways(ws, es, l, t0, k - 1); }
      }
    }
  }

  /** The quota is renewed: a charge that begins a period or more after any moment finds a reset since then. */
  lemma QuotaRenewed(ws: seq<World>, es: seq<Event>, l: Limits, t0: Instant, j: nat, k: nat, i: nat)
    requires Run(ws, es, l, t0) && j <= k < |es| && es[k] == Roll(i) && ws[k].now >= ws[j].now + l.period
    ensures Resets(ws[k + 1].log) > Resets(ws[j].log)
  {
    ClockInRuns(ws, es, l, t0, j);
    DeadlineStays(ws, es, l, t0, j, k);
    DeadlineStays(ws, es, l, t0, k, k + 1);
    CounterReset(ws[k].log, l.cap) by { InvAlways(ws, es, l, t0, k); }
  }

  /** The first charge after a reset is granted exactly when it fits the cap on its own. */
  lemma FreshPeriodGrants(ws: seq<World>, es: seq<Event>, l: Limits, t0: Instant, k: nat, i: nat)
    requires Run(ws, es, l, t0) && k < |es| && es[k] == Add(i)
    requires ws[k].log != [] && Last(ws[k].log).Reset?
    ensures i < |ws[k].copiers| && i < |ws[k + 1].copiers| && ws[k].copiers[i].pc.Adding?
    ensures ws[k + 1].copiers[i].pc ==
            if |ws[k].copiers[i].pc.buf| <= l.cap then Writing(ws[k].copiers[i].pc.buf) else Closed
  {
    assert Enabled(ws[k], es[k]);
    InvAlways(ws, es, l, t0, k);
    ChunkedAlways(ws, es, l, t0, k);
    assert ChunkOK(ws[k].copiers[i]);
  }

  /** The copier an event moves. */
  function Mover(e: Event): Option<nat> {
    match e
    case Join(_) => None
    case Tick(_) => None
    case _ => Some(e.i)
  }

  /** A copier ends by end-of-file, a broken write or a refused charge, and by nothing else. */
  lemma CopierEndsIff(ws: seq<World>, es: seq<Event>, l: Limits, t0: Instant, k: nat, i: nat)
    requires Run(ws, es, l, t0) && k < |es| && i < |ws[k].copiers| && !ws[k].copiers[i].pc.Closed?
    ensures i < |ws[k + 1].copiers|
    ensures ws[k + 1].copiers[i].pc.Closed? <==>
            && Mover(es[k]) == Some(i)
            && (es[k].End? || es[k].Break? || (es[k].Add? && ws[k + 1].log != [] && Last(ws[k + 1].log).Charged? && !Last(ws[k + 1].log).granted))
  {
    assert Enabled(ws[k], es[k]);
  }

  /** And then it writes nothing more. */
  lemma {:induction false} ClosedStays(ws: seq<World>, es: seq<Event>, l: Limits, t0: Instant, n: nat, m: nat, i: nat)
    requires Run(ws, es, l, t0) && n <= m < |ws| && i < |ws[n].copiers| && ws[n].copiers[i].pc.Closed?
    ensures i < |ws[m].copiers| && ws[m].copiers[i] == ws[n].copiers[i]
    decreases m
  {
    if n < m {
      ClosedStays(ws, es, l, t0, n, m - 1, i);
      assert Enabled(ws[m - 1], es[m - 1]);
    }
  }

  // ---------------- the wrap is reached ----------------

  ghost predicate Waiting(cs: seq<Copier>, from: nat) {
    forall i :: from <= i < |cs| ==> cs[i].pc.Adding? && |cs[i].pc.buf| == BUFFER_SIZE
  }

  lemma Extend(ws: seq<World>, es: seq<Event>, l: Limits, t0: Instant, e: Event)
      returns (ws': seq<World>, es': seq<Event>)
    requires Run(ws, es, l, t0) && Enabled(ws[|es|], e)
    ensures Run(ws', es', l, t0) && es' == es + [e] && ws'[|es'|] == Apply(ws[|es|], e, l)
  {
    ws', es' := ws + [Apply(ws[|es|], e, l)], es + [e];
    forall k {:trigger es'[k]} | 0 <= k < |es'| ensures Enabled(ws'[k], es'[k]) && ws'[k + 1] == Apply(ws'[k], es'[k], l) {
      if k < |es| {
        assert es'[k] == es[k] && ws'[k] == ws[k] && ws'[k + 1] == ws[k + 1];
      } else {
        assert es'[k] == e && ws'[k] == ws[k];
      }
    }
  }

  /** One more connection arrives, reads a full chunk and passes the reset. */
  lemma Arrive(ws: seq<World>, es: seq<Event>, l: Limits, t0: Instant) returns (ws': seq<World>, es': seq<Event>)
    requires Run(ws, es, l, t0) && Waiting(ws[|es|].copiers, 0) && Spent(ws[|es|].log) == 0
    ensures Run(ws', es', l, t0) && Waiting(ws'[|es'|].copiers, 0) && Spent(ws'[|es'|].log) == 0
    ensures |ws'[|es'|].copiers| == |ws[|es|].copiers| + 1
  {
    var i := |ws[|es|].copiers|;
    ws', es' := Extend(ws, es, l, t0, Join(seq(BUFFER_SIZE, k => 0)));
    ws', es' := Extend(ws', es', l, t0, Take(i, BUFFER_SIZE));
    ws', es' := Extend(ws', es', l, t0, Roll(i));
  }

  lemma {:induction false} ArriveAll(l: Limits, t0: Instant, n: nat) returns (ws: seq<World>, es: seq<Event>)
    ensures Run(ws, es, l, t0) && Waiting(ws[|es|].copiers, 0) && Spent(ws[|es|].log) == 0
    ensures |ws[|es|].copiers| == n
  {
    if n == 0 {
      ws, es := [Start(l, t0)], [];
    } else {
      ws, es := ArriveAll(l, t0, n - 1);
      ws, es := Arrive(ws, es, l, t0);
    }
  }

  /** Of `n` waiting connections the first `a` have been charged. */
  lemma {:induction false} ChargeAll(l: Limits, t0: Instant, n: nat, a: nat) returns (ws: seq<World>, es: seq<Event>)
    requires a <= n
    ensures Run(ws, es, l, t0) && |ws[|es|].copiers| == n && Waiting(ws[|es|].copiers, a)
    ensures Spent(ws[|es|].log) == a * BUFFER_SIZE && (a > 0 ==> ws[|es|].log != [] && Last(ws[|es|].log).Charged?)
    decreases a
  {
    if a == 0 {
      ws, es := ArriveAll(l, t0, n);
    } else {
      ws, es := ChargeAll(l, t0, n, a - 1);
      var log := ws[|es|].log;
      ws, es := Extend(ws, es, l, t0, Add(a - 1));
    }
  }

  /** Whatever the limits, chunks of at most 16 KiB can break the quota: after 2^50 full ones the counter is at zero. */
  lemma WrapReached(l: Limits, t0: Instant) returns (ws: seq<World>, es: seq<Event>)
    ensures Run(ws, es, l, t0) && Spent(ws[|es|].log) == TWO_64
    ensures !QuotaHolds(ws[|es|].log, l.cap)
  {
    var n := TWO_64 / BUFFER_SIZE;
    ws, es := ChargeAll(l, t0, n, n);
    assert n * BUFFER_SIZE == TWO_64;
    QuotaSafeIff(ws, es, l, t0, |es|);
  }

  lemma Divides(p: nat, r: nat, x: nat)
    requires p > 0 && p * r <= x
    ensures r <= x / p
  {
    if x / p < r {
      assert p * (x / p) + p <= p * r by { Scales(p, x / p + 1, r); }
    }
  }

  lemma Scales(c: nat, a: nat, b: nat)
    requires a <= b
    ensures c * a <= c * b
    ensures c * (1 + b) == c + c * b
  {
  }
}
