/**
  The `conns=` cap is kept exactly when a key has one session at a time. For
  any cap, sessions that all pass the check before any of them publishes reach
  the bound of `SessionCaps`.
 */
module SessionRaces {
  import opened Bytes
  import opened Text
  import opened Registry
  import opened Sessions
  import opened SessionRuns
  import opened SessionCaps

  // ---------------- names ----------------

  function Labels(n: nat): set<string> { set i | 0 <= i < n :: Numeral(i) }

  lemma LabelsNext(n: nat)
    ensures Numeral(n) !in Labels(n) && Labels(n + 1) == Labels(n) + {Numeral(n)}
  {
    forall i | 0 <= i < n ensures Numeral(i) != Numeral(n) {
      if Numeral(i) == Numeral(n) { NumeralUnique(i, n); }
    }
    forall l | l in Labels(n + 1) ensures l in Labels(n) + {Numeral(n)} {
      var i :| 0 <= i < n + 1 && l == Numeral(i);
    }
  }

  // ---------------- the line-up ----------------

  predicate Positive(i: nat) { i > 0 }

  /** The numbers from 1 to `n`. */
  function Upto(n: nat): set<nat> { set i: nat | i <= n && Positive(i) }

  lemma {:induction false} UptoSize(n: nat)
    ensures |Upto(n)| == n
  {
    if n > 0 {
      UptoSize(n - 1);
      assert Upto(n) == Upto(n - 1) + {n};
    }
  }

  function Racer(key: PubKey, cap: nat, sid: SessionId, pc: Pc): Session { Session(key, sid, Some(cap), 0, pc) }

  /** Sessions 1 to `m`, all of one key and cap, where `pcs` says they are. */
  ghost predicate Roster(w: World, key: PubKey, cap: nat, m: nat, pcs: nat -> Pc) {
    && w.sessions.Keys == Upto(m) && w.owners.Keys == Upto(m)
    && forall sid :: sid in w.sessions ==> w.sessions[sid] == Racer(key, cap, sid, pcs(sid))
  }

  /** Tunnels 1 to `t`, all of the key; the next `held` ids are handed out. */
  ghost predicate Stocked(s: State, key: PubKey, t: nat, held: nat) {
    && s.nextId == t + held + 1 && s.usedLabels == Labels(t + held)
    && s.tunnels.Keys == Upto(t) && forall id :: id in s.tunnels ==> s.tunnels[id].owner == key
  }

  /** The first `c` sessions have passed the check, the others are idle. */
  function Line(c: nat): nat -> Pc { (sid: nat) => if sid <= c then Checked else Idle }

  /** Session `c` has also reserved the next name. */
  function Reserved(c: nat, id: TunnelId, name: string): nat -> Pc {
    (sid: nat) => if sid < c then Checked else if sid == c then HoldsHttp(id, name) else Idle
  }

  lemma RosterCapped(w: World, key: PubKey, cap: nat, m: nat, pcs: nat -> Pc)
    requires Roster(w, key, cap, m, pcs)
    ensures forall most: nat :: m <= most ==> Capped(w, key, cap, most)
  {
    UptoSize(m);
    assert SessionsOf(w.sessions, key) == Upto(m) by {
      forall sid | sid in Upto(m) ensures sid in SessionsOf(w.sessions, key) { assert sid in w.sessions.Keys; }
    }
  }

  lemma StockedCount(s: State, key: PubKey, t: nat, held: nat)
    requires Stocked(s, key, t, held)
    ensures CountOwnedBy(s, key) == t
  {
    UptoSize(t);
    assert Owned(s.tunnels, key) == Upto(t) by {
      forall id | id in Upto(t) ensures id in Owned(s.tunnels, key) { assert id in s.tunnels.Keys; }
    }
  }

  // ---------------- its steps ----------------

  lemma CheckStep(w: World, cfg: Config, key: PubKey, cap: nat, m: nat, c: nat, t: nat)
    requires Roster(w, key, cap, m, Line(c)) && Stocked(w.reg, key, t, 0) && c < m && t < cap
    ensures var e := CheckCap(c + 1);
            && Enabled(w, e)
            && Roster(Apply(w, e, cfg), key, cap, m, Line(c + 1)) && Stocked(Apply(w, e, cfg).reg, key, t, 0)
  {
    StockedCount(w.reg, key, t, 0);
    assert c + 1 in w.sessions.Keys;
    var w' := Apply(w, CheckCap(c + 1), cfg);
    assert w'.sessions.Keys == w.sessions.Keys;
  }

  lemma AllocateStep(w: World, cfg: Config, key: PubKey, cap: nat, m: nat, c: nat, t: nat)
    requires Roster(w, key, cap, m, Line(c)) && Stocked(w.reg, key, t, 0) && 1 <= c <= m && t + 1 < MAX_ID
    ensures var e := Event.AllocateHttp(c, Numeral(t));
            && Enabled(w, e) && IdsLeft(w, e)
            && Roster(Apply(w, e, cfg), key, cap, m, Reserved(c, t + 1, Numeral(t))) && Stocked(Apply(w, e, cfg).reg, key, t, 1)
  {
    assert c in w.sessions.Keys;
    LabelsNext(t);
    var w' := Apply(w, Event.AllocateHttp(c, Numeral(t)), cfg);
    assert w'.sessions.Keys == w.sessions.Keys;
  }

  lemma PublishStep(w: World, cfg: Config, key: PubKey, cap: nat, m: nat, c: nat, t: nat)
    requires 1 <= c <= m && t + 1 < MAX_ID
    requires Roster(w, key, cap, m, Reserved(c, t + 1, Numeral(t))) && Stocked(w.reg, key, t, 1)
    ensures var e := PublishHttp(c, false);
            && Enabled(w, e)
            && Roster(Apply(w, e, cfg), key, cap, m, Line(c - 1)) && Stocked(Apply(w, e, cfg).reg, key, t + 1, 0)
  {
    assert c in w.sessions.Keys;
    var w' := Apply(w, PublishHttp(c, false), cfg);
    assert w'.sessions.Keys == w.sessions.Keys;
    assert Upto(t + 1) == Upto(t) + {t + 1};
  }

  // ---------------- the runs ----------------

  ghost predicate CappedRun(ws: seq<World>, es: seq<Event>, cfg: Config, key: PubKey, cap: nat, most: nat) {
    Run(ws, es, cfg) && forall k :: 0 <= k < |ws| ==> Capped(ws[k], key, cap, most)
  }

  lemma Extend(ws: seq<World>, es: seq<Event>, cfg: Config, key: PubKey, cap: nat, most: nat, e: Event)
      returns (ws': seq<World>, es': seq<Event>)
    requires CappedRun(ws, es, cfg, key, cap, most) && Enabled(ws[|es|], e) && IdsLeft(ws[|es|], e)
    requires Capped(Apply(ws[|es|], e, cfg), key, cap, most)
    ensures CappedRun(ws', es', cfg, key, cap, most) && ws'[|es'|] == Apply(ws[|es|], e, cfg)
  {
    ws', es' := ws + [Apply(ws[|es|], e, cfg)], es + [e];
    forall k | 0 <= k < |ws'| ensures Capped(ws'[k], key, cap, most) {
      if k < |ws| { assert ws'[k] == ws[k]; }
    }
  }

  ghost predicate Stage(ws: seq<World>, es: seq<Event>, cfg: Config, key: PubKey, cap: nat, most: nat, c: nat, t: nat) {
    && CappedRun(ws, es, cfg, key, cap, most)
    && Roster(ws[|es|], key, cap, most, Line(c)) && Stocked(ws[|es|].reg, key, t, 0)
  }

  lemma {:induction false} ConnectAll(cfg: Config, key: PubKey, cap: nat, most: nat, m: nat)
      returns (ws: seq<World>, es: seq<Event>)
    requires m <= most
    ensures CappedRun(ws, es, cfg, key, cap, most)
    ensures Roster(ws[|es|], key, cap, m, Line(0)) && Stocked(ws[|es|].reg, key, 0, 0)
    decreases m
  {
    if m == 0 {
      ws, es := [START], [];
      RosterCapped(START, key, cap, 0, Line(0));
    } else {
      ws, es := ConnectAll(cfg, key, cap, most, m - 1);
      var e := Connect(m, key, m, Some(cap), 0);
      RosterCapped(Apply(ws[|es|], e, cfg), key, cap, m, Line(0));
      ws, es := Extend(ws, es, cfg, key, cap, most, e);
    }
  }

  lemma CheckNext(ws: seq<World>, es: seq<Event>, cfg: Config, key: PubKey, cap: nat, most: nat, c: nat, t: nat)
      returns (ws': seq<World>, es': seq<Event>)
    requires Stage(ws, es, cfg, key, cap, most, c, t) && c < most && t < cap
    ensures Stage(ws', es', cfg, key, cap, most, c + 1, t)
  {
    CheckStep(ws[|es|], cfg, key, cap, most, c, t);
    RosterCapped(Apply(ws[|es|], CheckCap(c + 1), cfg), key, cap, most, Line(c + 1));
    ws', es' := Extend(ws, es, cfg, key, cap, most, CheckCap(c + 1));
  }

  lemma PublishNext(ws: seq<World>, es: seq<Event>, cfg: Config, key: PubKey, cap: nat, most: nat, c: nat, t: nat)
      returns (ws': seq<World>, es': seq<Event>)
    requires Stage(ws, es, cfg, key, cap, most, c, t) && 1 <= c <= most && t + 1 < MAX_ID
    ensures Stage(ws', es', cfg, key, cap, most, c - 1, t + 1)
  {
    var e := Event.AllocateHttp(c, Numeral(t));
    AllocateStep(ws[|es|], cfg, key, cap, most, c, t);
    RosterCapped(Apply(ws[|es|], e, cfg), key, cap, most, Reserved(c, t + 1, Numeral(t)));
    ws', es' := Extend(ws, es, cfg, key, cap, most, e);
    PublishStep(ws'[|es'|], cfg, key, cap, most, c, t);
    RosterCapped(Apply(ws'[|es'|], PublishHttp(c, false), cfg), key, cap, most, Line(c - 1));
    ws', es' := Extend(ws', es', cfg, key, cap, most, PublishHttp(c, false));
  }

  /** One session registers `t` tunnels, each under the cap. */
  lemma {:induction false} RegisterAlone(cfg: Config, key: PubKey, cap: nat, most: nat, t: nat)
      returns (ws: seq<World>, es: seq<Event>)
    requires 1 <= most && t <= cap && t < MAX_ID
    ensures Stage(ws, es, cfg, key, cap, most, 0, t)
    decreases t
  {
    if t == 0 {
      ws, es := ConnectAll(cfg, key, cap, most, most);
    } else {
      ws, es := RegisterAlone(cfg, key, cap, most, t - 1);
      ws, es := CheckNext(ws, es, cfg, key, cap, most, 0, t - 1);
      ws, es := PublishNext(ws, es, cfg, key, cap, most, 1, t - 1);
    }
  }

  /** All sessions pass the check one tunnel below the cap. */
  lemma {:induction false} CheckAll(cfg: Config, key: PubKey, cap: nat, most: nat, c: nat)
      returns (ws: seq<World>, es: seq<Event>)
    requires 1 <= most && 1 <= cap < MAX_ID && c <= most
    ensures Stage(ws, es, cfg, key, cap, most, c, cap - 1)
    decreases c
  {
    if c == 0 {
      ws, es := RegisterAlone(cfg, key, cap, most, cap - 1);
    } else {
      ws, es := CheckAll(cfg, key, cap, most, c - 1);
      ws, es := CheckNext(ws, es, cfg, key, cap, most, c - 1, cap - 1);
    }
  }

  /** Then `n` of them publish. */
  lemma {:induction false} PublishAll(cfg: Config, key: PubKey, cap: nat, most: nat, n: nat)
      returns (ws: seq<World>, es: seq<Event>)
    requires 1 <= most && 1 <= cap && cap + n < MAX_ID && n <= most
    ensures Stage(ws, es, cfg, key, cap, most, most - n, cap - 1 + n)
    decreases n
  {
    if n == 0 {
      ws, es := CheckAll(cfg, key, cap, most, most);
    } else {
      ws, es := PublishAll(cfg, key, cap, most, n - 1);
      ws, es := PublishNext(ws, es, cfg, key, cap, most, most - n + 1, cap - 2 + n);
    }
  }

  /** The bound on the load is reached, by published tunnels, for every cap and number of sessions. */
  lemma BoundReached(cfg: Config, key: PubKey, cap: nat, most: nat) returns (ws: seq<World>, es: seq<Event>)
    requires cap + most < MAX_ID
    ensures CappedRun(ws, es, cfg, key, cap, most)
    ensures CountOwnedBy(ws[|es|].reg, key) == Bound(cap, most)
  {
    if cap == 0 || most == 0 {
      ws, es := ConnectAll(cfg, key, cap, most, 0);
      StockedCount(ws[|es|].reg, key, 0, 0);
    } else {
      ws, es := PublishAll(cfg, key, cap, most, most);
      StockedCount(ws[|es|].reg, key, cap - 1 + most, 0);
    }
  }

  /** Every run in which the key's sessions carry the cap, at most so many at a time, keeps it. */
  ghost predicate CapKept(cfg: Config, key: PubKey, cap: nat, most: nat) {
    forall ws: seq<World>, es: seq<Event> :: CappedRun(ws, es, cfg, key, cap, most) ==>
      forall n :: 0 <= n < |ws| ==> CountOwnedBy(ws[n].reg, key) <= cap
  }

  /** The cap holds in every run exactly when it is zero or the key has one session at a time. */
  lemma CapIff(cfg: Config, key: PubKey, cap: U32, most: nat)
    ensures CapKept(cfg, key, cap, most) <==> cap == 0 || most <= 1
  {
    if cap == 0 || most <= 1 {
      forall ws: seq<World>, es: seq<Event>, n: nat | CappedRun(ws, es, cfg, key, cap, most) && n < |ws|
        ensures CountOwnedBy(ws[n].reg, key) <= cap
      {
        CapBound(ws, es, cfg, n, key, cap, most);
      }
    } else {
      var ws, es := BoundReached(cfg, key, cap, 2);
      MoreSessions(ws, es, cfg, key, cap, 2, most);
      assert CountOwnedBy(ws[|es|].reg, key) > cap;
    }
  }

  lemma MoreSessions(ws: seq<World>, es: seq<Event>, cfg: Config, key: PubKey, cap: nat, a: nat, b: nat)
    requires CappedRun(ws, es, cfg, key, cap, a) && a <= b
    ensures CappedRun(ws, es, cfg, key, cap, b)
  {
    forall k | 0 <= k < |ws| ensures Capped(ws[k], key, cap, b) { assert Capped(ws[k], key, cap, a); }
  }
}
