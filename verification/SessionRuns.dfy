/** The registry invariant over every interleaving, and that an ended session is never resumed. */
module SessionRuns {
  import opened Bytes
  import opened Registry
  import opened Sessions

  // ---------------- every step ----------------

  lemma QuietSets(w: World, sid: SessionId, pc: Pc, s: State)
    requires WorldOK(w) && sid in w.sessions && !Holds(w.sessions[sid].pc) && !Holds(pc) && SameButLeases(w.reg, s)
    ensures var w' := Goto(w, sid, pc).(reg := s); TableOK(w'.reg) && PortsOK(w') && LabelsOK(w')
  {
    LeasesKeepTable(w.reg, s);
    PcSets(w.sessions, sid, w.sessions[sid].(pc := pc));
  }

  lemma QuietHeld(w: World, sid: SessionId, pc: Pc, s: State)
    requires HeldOK(w) && OriginsOK(w)
    requires sid in w.sessions && !Holds(w.sessions[sid].pc) && !Holds(pc) && SameButLeases(w.reg, s)
    ensures var w' := Goto(w, sid, pc).(reg := s); HeldOK(w') && OriginsOK(w')
  {
    forall id | id in s.tunnels ensures id in w.reg.tunnels { assert id in w.reg.tunnels.Keys; }
  }

  /** A session moves on without reserving or releasing anything; at most leases change. */
  lemma QuietKeeps(w: World, sid: SessionId, pc: Pc, s: State)
    requires WorldOK(w) && sid in w.sessions && !Holds(w.sessions[sid].pc) && !Holds(pc) && SameButLeases(w.reg, s)
    ensures WorldOK(Goto(w, sid, pc).(reg := s))
  {
    QuietSets(w, sid, pc, s);
    QuietHeld(w, sid, pc, s);
  }

  lemma RemoveKeeps(w: World, ids: set<TunnelId>)
    requires WorldOK(w)
    ensures WorldOK(w.(reg := RemoveAll(w.reg, ids)))
  {
    RemoveKeepsTable(w.reg, ids);
  }

  lemma ReserveKeepsTable(s: State)
    requires TableOK(s) && s.nextId < MAX_ID
    ensures forall port: U16 :: TableOK(ReservePort(s, port))
    ensures forall name: string :: TableOK(ReserveLabel(s, name))
  {
    forall port: U16 ensures TableOK(ReservePort(s, port)) {
      forall id | id in s.tunnels ensures TunnelOK(ReservePort(s, port), id) { assert TunnelOK(s, id); }
    }
    forall name: string ensures TableOK(ReserveLabel(s, name)) {
      forall id | id in s.tunnels ensures TunnelOK(ReserveLabel(s, name), id) { assert TunnelOK(s, id); }
    }
  }

  lemma AllocateTcpKeeps(w: World, sid: SessionId, port: U16)
    requires WorldOK(w) && At(w, sid, Checked) && w.reg.nextId < MAX_ID && port !in w.reg.usedPorts
    ensures WorldOK(Goto(w, sid, HoldsTcp(w.reg.nextId, port)).(reg := ReservePort(w.reg, port)))
  {
    var w' := Goto(w, sid, HoldsTcp(w.reg.nextId, port)).(reg := ReservePort(w.reg, port));
    ReserveKeepsTable(w.reg);
    PcSets(w.sessions, sid, w'.sessions[sid]);
    assert HeldOK(w') by {
      forall i, j | i in w'.sessions && j in w'.sessions && i != j ensures !Conflict(w'.sessions[i].pc, w'.sessions[j].pc) {
        if i == sid && w.sessions[j].pc.HoldsTcp? { assert w.sessions[j].pc.port in HeldPorts(w.sessions); }
        if j == sid && w.sessions[i].pc.HoldsTcp? { assert w.sessions[i].pc.port in HeldPorts(w.sessions); }
      }
    }
  }

  lemma AllocateHttpKeeps(w: World, sid: SessionId, name: string)
    requires WorldOK(w) && At(w, sid, Checked) && w.reg.nextId < MAX_ID && name !in w.reg.usedLabels
    ensures WorldOK(Goto(w, sid, HoldsHttp(w.reg.nextId, name)).(reg := ReserveLabel(w.reg, name)))
  {
    var w' := Goto(w, sid, HoldsHttp(w.reg.nextId, name)).(reg := ReserveLabel(w.reg, name));
    ReserveKeepsTable(w.reg);
    PcSets(w.sessions, sid, w'.sessions[sid]);
    assert HeldOK(w') by {
      forall i, j | i in w'.sessions && j in w'.sessions && i != j ensures !Conflict(w'.sessions[i].pc, w'.sessions[j].pc) {
        if i == sid && w.sessions[j].pc.HoldsHttp? { assert w.sessions[j].pc.name in HeldLabels(w.sessions); }
        if j == sid && w.sessions[i].pc.HoldsHttp? { assert w.sessions[i].pc.name in HeldLabels(w.sessions); }
      }
    }
  }

  /** The tunnel a reservation was made for. */
  ghost predicate Fulfils(w: World, sid: SessionId, t: Tunnel) {
    && sid in w.sessions
    && t.owner == w.sessions[sid].owner && t.session == sid
    && match w.sessions[sid].pc
       case HoldsTcp(id, port) => t.id == id && t.kind == Tcp(port) && t.listener.Some?
       case HoldsHttp(id, name) => t.id == id && t.kind == Http(name) && t.listener.None?
       case _ => false
  }

  lemma PublishTable(w: World, sid: SessionId, t: Tunnel)
    requires WorldOK(w) && Fulfils(w, sid, t)
    ensures var w' := Goto(w, sid, Idle).(reg := Insert(w.reg, t));
            TableOK(w'.reg) && PortsOK(w') && LabelsOK(w')
  {
    var pc := w.sessions[sid].pc;
    assert pc.HoldsTcp? ==> pc.port in HeldPorts(w.sessions);
    assert pc.HoldsHttp? ==> pc.name in HeldLabels(w.sessions);
    InsertKeepsTable(w.reg, t);
    PcSets(w.sessions, sid, w.sessions[sid].(pc := Idle));
  }

  lemma PublishHeld(w: World, sid: SessionId, t: Tunnel)
    requires HeldOK(w) && OriginsOK(w) && Fulfils(w, sid, t)
    ensures var w' := Goto(w, sid, Idle).(reg := Insert(w.reg, t));
            HeldOK(w') && OriginsOK(w')
  {
    var w' := Goto(w, sid, Idle).(reg := Insert(w.reg, t));
    forall i | i in w'.sessions && Holds(w'.sessions[i].pc) ensures w'.sessions[i].pc.id !in w'.reg.tunnels {
      assert !Conflict(w.sessions[i].pc, w.sessions[sid].pc);
    }
  }

  /** Publishing turns a reservation into a tunnel. */
  lemma PublishKeeps(w: World, sid: SessionId, t: Tunnel)
    requires WorldOK(w) && Fulfils(w, sid, t)
    ensures WorldOK(Goto(w, sid, Idle).(reg := Insert(w.reg, t)))
  {
    PublishTable(w, sid, t);
    PublishHeld(w, sid, t);
  }

  lemma BindFailedKeeps(w: World, sid: SessionId)
    requires WorldOK(w) && sid in w.sessions && w.sessions[sid].pc.HoldsTcp?
    ensures WorldOK(Goto(w, sid, Idle).(leaked := w.leaked + {w.sessions[sid].pc.port}))
  {
    assert w.sessions[sid].pc.port in HeldPorts(w.sessions);
    PcSets(w.sessions, sid, w.sessions[sid].(pc := Idle));
  }

  lemma ConnectKeeps(w: World, sid: SessionId, x: Session)
    requires WorldOK(w) && sid !in w.owners && x.pc == Idle
    ensures WorldOK(w.(sessions := w.sessions[sid := x], owners := w.owners[sid := x.owner]))
  {
    PcSets(w.sessions, sid, x);
  }

  /** A session without reservations leaves. */
  lemma LeaveKeeps(w: World, sid: SessionId)
    requires WorldOK(w) && sid in w.sessions && !Holds(w.sessions[sid].pc)
    ensures WorldOK(w.(sessions := w.sessions - {sid}))
  {
    var ss, ss' := w.sessions, w.sessions - {sid};
    forall p ensures p in HeldPorts(ss') <==> p in HeldPorts(ss) {
      if p in HeldPorts(ss) {
        var i :| i in ss && ss[i].pc.HoldsTcp? && ss[i].pc.port == p;
        assert ss'[i].pc.HoldsTcp?;
      }
    }
    forall l ensures l in HeldLabels(ss') <==> l in HeldLabels(ss) {
      if l in HeldLabels(ss) {
        var i :| i in ss && ss[i].pc.HoldsHttp? && ss[i].pc.name == l;
        assert ss'[i].pc.HoldsHttp?;
      }
    }
    assert HeldPorts(ss') == HeldPorts(ss) && HeldLabels(ss') == HeldLabels(ss);
  }

  lemma GoneKeeps(w: World, sid: SessionId)
    requires WorldOK(w) && sid in w.sessions && !w.sessions[sid].pc.HoldsHttp?
    ensures WorldOK(Gone(w, sid))
  {
    var pc := w.sessions[sid].pc;
    if pc.HoldsTcp? {
      var w1 := Goto(w, sid, Idle).(leaked := w.leaked + {pc.port});
      BindFailedKeeps(w, sid);
      LeaveKeeps(w1, sid);
      assert w1.sessions - {sid} == w.sessions - {sid};
    } else {
      LeaveKeeps(w, sid);
    }
  }

  lemma DropKeeps(w: World, sid: SessionId, deadline: Instant, w': World)
    requires WorldOK(w) && sid in w.sessions && !w.sessions[sid].pc.HoldsHttp?
    requires w' == Ended(w, sid, Dropped, deadline)
    ensures WorldOK(w')
  {
    GoneKeeps(w, sid);
    DangleKeeps(Gone(w, sid), w.sessions[sid].owner, deadline);
  }

  lemma CloseKeeps(w: World, sid: SessionId, how: End, deadline: Instant, w': World)
    requires WorldOK(w) && sid in w.sessions && !w.sessions[sid].pc.HoldsHttp? && how != Dropped
    requires w' == Ended(w, sid, how, deadline)
    ensures WorldOK(w')
  {
    var ids, g := Owned(w.reg.tunnels, w.sessions[sid].owner), Gone(w, sid);
    GoneKeeps(w, sid);
    RemoveKeeps(g, ids);
  }

  lemma DangleKeeps(w: World, owner: PubKey, deadline: Instant)
    requires WorldOK(w)
    ensures WorldOK(w.(reg := MarkDangling(w.reg, owner, deadline)))
  {
    MarkDanglingLeases(w.reg, owner, deadline);
    LeasesKeepTable(w.reg, MarkDangling(w.reg, owner, deadline));
  }

  lemma ResumeLeases(s: State, name: string, session: SessionId, key: PubKey, connection: Connection, found: Option<TunnelId>)
    requires TableOK(s) && ScanOK(s, name, session, found)
    ensures SameButLeases(s, TryResume(s, name, session, key, connection, found).0)
  {
    ResumeSound(s, name, session, key, connection, found);
  }

  lemma AllocateKeeps(w: World, e: Event, cfg: Config)
    requires WorldOK(w) && Enabled(w, e) && IdsLeft(w, e) && (e.AllocateHttp? || e.AllocateTcp?)
    ensures WorldOK(Apply(w, e, cfg))
  {
    match e
    case AllocateHttp(sid, name) =>
      if name in w.reg.usedLabels { QuietKeeps(w, sid, Idle, w.reg); } else { AllocateHttpKeeps(w, sid, name); }
    case AllocateTcp(sid, allow) =>
      var r := PickFreePort(cfg.portLo, cfg.portHi, w.reg.usedPorts, allow);
      if r.None? { QuietKeeps(w, sid, Idle, w.reg); } else { AllocateTcpKeeps(w, sid, r.value); }
  }

  lemma ReadyKeeps(w: World, e: Event, cfg: Config)
    requires WorldOK(w) && Enabled(w, e)
    requires e.CheckCap? || e.Decline? || e.Resume? || e.RecordAbort? || e.BindFailed?
    ensures WorldOK(Apply(w, e, cfg))
  {
    match e
    case CheckCap(sid) => QuietKeeps(w, sid, Checked, w.reg);
    case Decline(sid) => QuietKeeps(w, sid, Idle, w.reg);
    case BindFailed(sid) => BindFailedKeeps(w, sid);
    case Resume(sid, name, previous, found) =>
      var x := w.sessions[sid];
      ResumeLeases(w.reg, name, previous, x.owner, x.connection, found);
      var r := TryResume(w.reg, name, previous, x.owner, x.connection, found);
      QuietKeeps(w, sid, NextPc(r.1), r.0);
    case RecordAbort(sid, abort) => QuietKeeps(w, sid, Idle, SetTcpAbort(w.reg, w.sessions[sid].pc.id, abort));
  }

  lemma PublishEventKeeps(w: World, e: Event, cfg: Config)
    requires WorldOK(w) && Enabled(w, e) && (e.PublishHttp? || e.PublishTcp?)
    ensures WorldOK(Apply(w, e, cfg))
  {
    match e
    case PublishHttp(sid, inspect) =>
      var pc := w.sessions[sid].pc;
      PublishKeeps(w, sid, TunnelOf(w, sid, pc.id, Http(pc.name), None, None, inspect));
    case PublishTcp(sid, listener, abort, inspect) =>
      var pc := w.sessions[sid].pc;
      PublishKeeps(w, sid, TunnelOf(w, sid, pc.id, Tcp(pc.port), Some(abort), Some(listener), inspect));
  }

  lemma ConnectEventKeeps(w: World, e: Event, cfg: Config)
    requires WorldOK(w) && Enabled(w, e) && e.Connect?
    ensures WorldOK(Apply(w, e, cfg))
  {
    ConnectKeeps(w, e.sid, Session(e.owner, e.connection, e.maxConns, e.rate, Idle));
  }

  lemma FinishApplies(w: World, e: Event, cfg: Config)
    requires Enabled(w, e) && e.Finish?
    ensures e.sid in w.sessions && !w.sessions[e.sid].pc.HoldsHttp?
    ensures Apply(w, e, cfg) == Ended(w, e.sid, e.how, w.now + e.grace)
  {
  }

  lemma FinishEventKeeps(w: World, e: Event, cfg: Config)
    requires WorldOK(w) && Enabled(w, e) && e.Finish?
    ensures WorldOK(Apply(w, e, cfg))
  {
    match e.how
    case Dropped =>
      FinishApplies(w, e, cfg);
      DropKeeps(w, e.sid, w.now + e.grace, Apply(w, e, cfg));
    case _ =>
      FinishApplies(w, e, cfg);
      CloseKeeps(w, e.sid, e.how, w.now + e.grace, Apply(w, e, cfg));
  }

  lemma StepKeeps(w: World, e: Event, cfg: Config)
    requires WorldOK(w) && Enabled(w, e) && IdsLeft(w, e)
    ensures WorldOK(Apply(w, e, cfg))
  {
    match e
    case Connect(_, _, _, _, _) => ConnectEventKeeps(w, e, cfg);
    case Finish(_, _, _) => FinishEventKeeps(w, e, cfg);
    case AllocateHttp(_, _) => AllocateKeeps(w, e, cfg);
    case AllocateTcp(_, _) => AllocateKeeps(w, e, cfg);
    case PublishHttp(_, _) => PublishEventKeeps(w, e, cfg);
    case PublishTcp(_, _, _, _) => PublishEventKeeps(w, e, cfg);
    case Unregister(_, id) => RemoveKeeps(w, {id});
    case Reap => RemoveKeeps(w, Expired(w.reg.tunnels, w.now));
    case Tick(d) =>
    case _ => ReadyKeeps(w, e, cfg);
  }

  // ---------------- every run ----------------

  ghost predicate Trace(ws: seq<World>, es: seq<Event>, cfg: Config) {
    && |ws| == |es| + 1
    && forall k {:trigger es[k]} :: 0 <= k < |es| ==> Enabled(ws[k], es[k]) && ws[k + 1] == Apply(ws[k], es[k], cfg)
  }

  /** A trace from the start that allocates ids fewer than 2^64 - 1 times. */
  ghost predicate Run(ws: seq<World>, es: seq<Event>, cfg: Config) {
    && Trace(ws, es, cfg) && ws[0] == START
    && forall k {:trigger es[k]} :: 0 <= k < |es| ==> IdsLeft(ws[k], es[k])
  }

  /**
    Over every interleaving: used ports and labels are exactly those of
    registered tunnels plus reservations, and no two tunnels share anything.
   */
  lemma {:induction false} RegistryInvariant(ws: seq<World>, es: seq<Event>, cfg: Config, n: nat)
    requires Run(ws, es, cfg) && n < |ws|
    ensures WorldOK(ws[n])
  {
    if n == 0 {
    } else {
      RegistryInvariant(ws, es, cfg, n - 1);
      StepKeeps(ws[n - 1], es[n - 1], cfg);
    }
  }

  /** The time the clock steps of a run add up to. */
  ghost function Elapsed(es: seq<Event>): nat {
    if es == [] then 0
    else
      var e := es[|es| - 1];
      Elapsed(es[..|es| - 1]) + if e.Tick? then e.d else 0
  }

  lemma NowStays(w: World, e: Event, cfg: Config)
    requires Enabled(w, e)
    ensures Apply(w, e, cfg).now == w.now + if e.Tick? then e.d else 0
  {
  }

  /** Nothing but time moves the clock the deadlines are measured by. */
  lemma {:induction false} ClockInRuns(ws: seq<World>, es: seq<Event>, cfg: Config, n: nat)
    requires Run(ws, es, cfg) && n < |ws|
    ensures ws[n].now == Elapsed(es[..n])
  {
    if n > 0 {
      ClockInRuns(ws, es, cfg, n - 1);
      NowStays(ws[n - 1], es[n - 1], cfg);
      assert es[..n][..n - 1] == es[..n - 1];
    }
  }

  lemma StepOnward(w: World, e: Event, cfg: Config)
    requires Enabled(w, e)
    ensures w.over <= Apply(w, e, cfg).over && w.now <= Apply(w, e, cfg).now
  {
  }

  /** Time passes forward and a session that is over stays over. */
  lemma {:induction false} Onward(ws: seq<World>, es: seq<Event>, cfg: Config, n: nat, m: nat)
    requires Trace(ws, es, cfg) && n <= m < |ws|
    ensures ws[n].over <= ws[m].over && ws[n].now <= ws[m].now
    decreases m
  {
    if n < m {
      Onward(ws, es, cfg, n, m - 1);
      StepOnward(ws[m - 1], es[m - 1], cfg);
    }
  }

  // ---------------- no resume after Bye ----------------

  lemma OverRefused(w: World, e: Event)
    requires WorldOK(w) && Enabled(w, e) && e.Resume? && e.previous in w.over
    ensures var x := w.sessions[e.sid];
            !TryResume(w.reg, e.name, e.previous, x.owner, x.connection, e.found).1.Reattached?
  {
    var x := w.sessions[e.sid];
    ResumeSound(w.reg, e.name, e.previous, x.owner, x.connection, e.found);
  }

  /** Once a session has ended by Bye, shutdown, revocation or error, no request naming it re-attaches a tunnel. */
  lemma NoResumeAfterBye(ws: seq<World>, es: seq<Event>, cfg: Config, k: nat, m: nat)
    requires Run(ws, es, cfg) && k < m < |es|
    requires es[k].Finish? && es[k].how != Dropped
    requires es[m].Resume? && es[m].previous == es[k].sid
    ensures var x := ws[m].sessions[es[m].sid];
            !TryResume(ws[m].reg, es[m].name, es[m].previous, x.owner, x.connection, es[m].found).1.Reattached?
  {
    Onward(ws, es, cfg, k + 1, m);
    RegistryInvariant(ws, es, cfg, m);
    OverRefused(ws[m], es[m]);
  }
}
