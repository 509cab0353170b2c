/**
  The `conns=` cap. A registration compares the key's tunnel count with the
  cap in one critical section and publishes in a later one, so sessions of one
  key can overrun the cap together, by at most one tunnel for each session
  beyond the first.
 */
module SessionCaps {
  import opened Bytes
  import opened Registry
  import opened Sessions
  import opened SessionRuns

  predicate Pending(pc: Pc) { pc.Checked? || Holds(pc) }

  function SessionsOf(ss: map<SessionId, Session>, key: PubKey): set<SessionId> {
    set sid | sid in ss && ss[sid].owner == key
  }

  /** Sessions of the key that have passed the check and not yet published or given up. */
  function Registering(ss: map<SessionId, Session>, key: PubKey): set<SessionId> {
    set sid | sid in ss && ss[sid].owner == key && Pending(ss[sid].pc)
  }

  /** Tunnels the key holds or is about to hold. */
  function Load(w: World, key: PubKey): nat {
    CountOwnedBy(w.reg, key) + |Registering(w.sessions, key)|
  }

  function Bound(cap: nat, sessions: nat): nat {
    if cap == 0 || sessions == 0 then 0 else cap - 1 + sessions
  }

  // ---------------- sizes ----------------

  lemma Subsize<T>(a: set<T>, b: set<T>)
    requires a <= b
    ensures |a| <= |b|
  {
    assert b == a + (b - a);
  }

  /** A session that changes place joins or leaves the registering sessions; others stay. */
  lemma GotoRegistering(ss: map<SessionId, Session>, sid: SessionId, pc: Pc, key: PubKey)
    requires sid in ss
    ensures var r, r' := Registering(ss, key), Registering(ss[sid := ss[sid].(pc := pc)], key);
            && (!Pending(pc) ==> r' == r - {sid})
            && (Pending(pc) ==> r' == r + (if ss[sid].owner == key then {sid} else {}))
  {
  }

  lemma InsertOwned(m: map<TunnelId, Tunnel>, t: Tunnel, key: PubKey)
    requires t.id !in m
    ensures Owned(m[t.id := t], key) == Owned(m, key) + (if t.owner == key then {t.id} else {})
  {
  }

  // ---------------- one step ----------------

  lemma Shrinks(w: World, w': World, key: PubKey)
    requires Owned(w'.reg.tunnels, key) <= Owned(w.reg.tunnels, key)
    requires Registering(w'.sessions, key) <= Registering(w.sessions, key)
    ensures Load(w', key) <= Load(w, key)
  {
    Subsize(Owned(w'.reg.tunnels, key), Owned(w.reg.tunnels, key));
    Subsize(Registering(w'.sessions, key), Registering(w.sessions, key));
  }

  /** A published tunnel was counted while it was being registered. */
  lemma PublishLoad(w: World, sid: SessionId, t: Tunnel, key: PubKey)
    requires HeldOK(w) && Fulfils(w, sid, t)
    ensures Load(Goto(w, sid, Idle).(reg := Insert(w.reg, t)), key) == Load(w, key)
  {
    GotoRegistering(w.sessions, sid, Idle, key);
    InsertOwned(w.reg.tunnels, t, key);
    if t.owner == key { assert sid in Registering(w.sessions, key); }
  }

  lemma PublishEventLoad(w: World, e: Event, cfg: Config, key: PubKey)
    requires HeldOK(w) && Enabled(w, e) && (e.PublishHttp? || e.PublishTcp?)
    ensures Load(Apply(w, e, cfg), key) == Load(w, key)
  {
    match e
    case PublishHttp(sid, inspect) =>
      var pc := w.sessions[sid].pc;
      PublishLoad(w, sid, TunnelOf(w, sid, pc.id, Http(pc.name), None, None, inspect), key);
    case PublishTcp(sid, listener, abort, inspect) =>
      var pc := w.sessions[sid].pc;
      PublishLoad(w, sid, TunnelOf(w, sid, pc.id, Tcp(pc.port), Some(abort), Some(listener), inspect), key);
  }

  /** A session moves on without starting a registration; at most leases change. */
  lemma GotoLoad(w: World, sid: SessionId, pc: Pc, s: State, key: PubKey)
    requires sid in w.sessions && (Pending(pc) ==> Pending(w.sessions[sid].pc))
    requires Owned(s.tunnels, key) == Owned(w.reg.tunnels, key)
    ensures Load(Goto(w, sid, pc).(reg := s), key) <= Load(w, key)
  {
    GotoRegistering(w.sessions, sid, pc, key);
    Shrinks(w, Goto(w, sid, pc).(reg := s), key);
  }

  /** Resuming conserves every key's count. */
  lemma ResumeOwned(s: State, name: string, previous: SessionId, resumer: PubKey, connection: Connection,
                    found: Option<TunnelId>, key: PubKey)
    ensures Owned(TryResume(s, name, previous, resumer, connection, found).0.tunnels, key) == Owned(s.tunnels, key)
  {
  }

  lemma ResumeLoad(w: World, e: Event, cfg: Config, key: PubKey)
    requires WorldOK(w) && Enabled(w, e) && e.Resume?
    ensures Load(Apply(w, e, cfg), key) <= Load(w, key)
  {
    var x := w.sessions[e.sid];
    var r := TryResume(w.reg, e.name, e.previous, x.owner, x.connection, e.found);
    ResumeOwned(w.reg, e.name, e.previous, x.owner, x.connection, e.found, key);
    GotoLoad(w, e.sid, NextPc(r.1), r.0, key);
  }

  lemma MoveLoad(w: World, e: Event, cfg: Config, key: PubKey)
    requires Enabled(w, e) && (e.Decline? || e.AllocateHttp? || e.AllocateTcp? || e.BindFailed? || e.RecordAbort?)
    ensures Load(Apply(w, e, cfg), key) <= Load(w, key)
  {
    var w' := Apply(w, e, cfg);
    assert Owned(w'.reg.tunnels, key) == Owned(w.reg.tunnels, key);
    GotoLoad(w, e.sid, w'.sessions[e.sid].pc, w'.reg, key);
    assert Goto(w, e.sid, w'.sessions[e.sid].pc).sessions == w'.sessions;
  }

  /** Tunnels and sessions that go away, the clock, and sessions that have just connected. */
  lemma OtherLoad(w: World, e: Event, cfg: Config, key: PubKey)
    requires WorldOK(w) && Enabled(w, e) && (e.Connect? || e.Unregister? || e.Finish? || e.Reap? || e.Tick?)
    ensures Load(Apply(w, e, cfg), key) <= Load(w, key)
  {
    Shrinks(w, Apply(w, e, cfg), key);
  }

  /** Passing the check is the only step that adds load, and only below the cap. */
  lemma LoadStep(w: World, e: Event, cfg: Config, key: PubKey)
    requires WorldOK(w) && Enabled(w, e)
    ensures var w' := Apply(w, e, cfg);
            || Load(w', key) <= Load(w, key)
            || (&& e.CheckCap? && w.sessions[e.sid].owner == key && UnderCap(w.reg, w.sessions[e.sid])
                && Load(w', key) <= CountOwnedBy(w.reg, key) + |SessionsOf(w.sessions, key)|)
  {
    match e
    case CheckCap(sid) =>
      if UnderCap(w.reg, w.sessions[sid]) {
        GotoRegistering(w.sessions, sid, Checked, key);
        if w.sessions[sid].owner == key {
          Subsize(Registering(Goto(w, sid, Checked).sessions, key), SessionsOf(w.sessions, key));
        }
      }
    case PublishHttp(_, _) => PublishEventLoad(w, e, cfg, key);
    case PublishTcp(_, _, _, _) => PublishEventLoad(w, e, cfg, key);
    case Resume(_, _, _, _) => ResumeLoad(w, e, cfg, key);
    case Connect(_, _, _, _, _) => OtherLoad(w, e, cfg, key);
    case Unregister(_, _) => OtherLoad(w, e, cfg, key);
    case Finish(_, _, _) => OtherLoad(w, e, cfg, key);
    case Reap => OtherLoad(w, e, cfg, key);
    case Tick(_) => OtherLoad(w, e, cfg, key);
    case _ => MoveLoad(w, e, cfg, key);
  }

  // ---------------- every run ----------------

  /** The key's sessions carry this cap, and there are at most so many of them. */
  ghost predicate Capped(w: World, key: PubKey, cap: nat, most: nat) {
    && (forall sid :: sid in w.sessions && w.sessions[sid].owner == key ==> w.sessions[sid].maxConns == Some(cap))
    && |SessionsOf(w.sessions, key)| <= most
  }

  lemma LoadStepBound(w: World, e: Event, cfg: Config, key: PubKey, cap: nat, most: nat)
    requires WorldOK(w) && Enabled(w, e) && Capped(w, key, cap, most) && Load(w, key) <= Bound(cap, most)
    ensures Load(Apply(w, e, cfg), key) <= Bound(cap, most)
  {
    LoadStep(w, e, cfg, key);
    if e.CheckCap? && w.sessions[e.sid].owner == key { assert e.sid in SessionsOf(w.sessions, key); }
  }

  /**
    With at most one session of the key at a time its tunnels, counting those
    being registered, never exceed the cap; every further session adds at most
    one. `SessionRaces` shows that each of them can.
   */
  lemma {:induction false} CapBound(ws: seq<World>, es: seq<Event>, cfg: Config, n: nat, key: PubKey, cap: nat, most: nat)
    requires Run(ws, es, cfg) && n < |ws|
    requires forall k :: 0 <= k < n ==> Capped(ws[k], key, cap, most)
    ensures Load(ws[n], key) <= Bound(cap, most)
    ensures most <= 1 ==> CountOwnedBy(ws[n].reg, key) <= cap
  {
    if n == 0 {
      assert Owned(START.reg.tunnels, key) == {} && Registering(START.sessions, key) == {};
    } else {
      CapBound(ws, es, cfg, n - 1, key, cap, most);
      RegistryInvariant(ws, es, cfg, n - 1);
      LoadStepBound(ws[n - 1], es[n - 1], cfg, key, cap, most);
    }
  }
}
