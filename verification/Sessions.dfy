/**
  Sessions, the reaper and the clock driving the registry concurrently. One
  step is one critical section: between allocating a name or port and
  publishing the tunnel any other session may act, so a session carries what
  it has reserved.
 */
module Sessions {
  import opened Bytes
  import opened Registry

  /** Where a session is between two critical sections of one registration. */
  datatype Pc =
    | Idle
    | Checked
    | HoldsHttp(id: TunnelId, name: string)
    | HoldsTcp(id: TunnelId, port: U16)
    | Resumed(id: TunnelId)

  datatype Session = Session(
    owner: PubKey, connection: Connection, maxConns: Option<nat>, rate: RateState, pc: Pc)

  datatype End = Bye | Dropped | Terminal

  /**
    `owners` remembers every session id ever issued and its key, `over` the
    sessions whose end forbids resumption, `leaked` the ports reserved by a
    registration that failed to bind.
   */
  datatype World = World(
    reg: State, sessions: map<SessionId, Session>,
    owners: map<SessionId, PubKey>, over: set<SessionId>, leaked: set<U16>, now: Instant)

  datatype Config = Config(portLo: U16, portHi: U16)

  const START: World := World(EMPTY, map[], map[], {}, {}, 0)

  datatype Event =
    | Connect(sid: SessionId, owner: PubKey, connection: Connection, maxConns: Option<nat>, rate: RateState)
    | CheckCap(sid: SessionId)
    | Decline(sid: SessionId)
    | AllocateHttp(sid: SessionId, name: string)
    | AllocateTcp(sid: SessionId, allow: Option<seq<U16>>)
    | PublishHttp(sid: SessionId, inspect: bool)
    | PublishTcp(sid: SessionId, listener: Listener, abort: AbortHandle, inspect: bool)
    | BindFailed(sid: SessionId)
    | Resume(sid: SessionId, name: string, previous: SessionId, found: Option<TunnelId>)
    | RecordAbort(sid: SessionId, abort: AbortHandle)
    | Unregister(sid: SessionId, id: TunnelId)
    | Finish(sid: SessionId, how: End, grace: nat)
    | Reap
    | Tick(d: nat)

  predicate At(w: World, sid: SessionId, pc: Pc) {
    sid in w.sessions && w.sessions[sid].pc == pc
  }

  predicate Holds(pc: Pc) { pc.HoldsHttp? || pc.HoldsTcp? }

  /**
    When an event can happen. Session ids are fresh. A session is dropped or
    says Bye between requests; an error may end it anywhere except between
    reserving a label and publishing it, where the program does nothing that
    can fail.
   */
  ghost predicate Enabled(w: World, e: Event) {
    match e
    case Connect(sid, _, _, _, _) => sid !in w.owners
    case CheckCap(sid) => At(w, sid, Idle)
    case Decline(sid) => At(w, sid, Checked)
    case AllocateHttp(sid, _) => At(w, sid, Checked)
    case AllocateTcp(sid, _) => At(w, sid, Checked)
    case PublishHttp(sid, _) => sid in w.sessions && w.sessions[sid].pc.HoldsHttp?
    case PublishTcp(sid, _, _, _) => sid in w.sessions && w.sessions[sid].pc.HoldsTcp?
    case BindFailed(sid) => sid in w.sessions && w.sessions[sid].pc.HoldsTcp?
    case Resume(sid, name, previous, found) => At(w, sid, Idle) && ScanOK(w.reg, name, previous, found)
    case RecordAbort(sid, _) => sid in w.sessions && w.sessions[sid].pc.Resumed?
    case Unregister(sid, _) => At(w, sid, Idle)
    case Finish(sid, how, _) =>
      && sid in w.sessions && !w.sessions[sid].pc.HoldsHttp?
      && (how != Terminal ==> w.sessions[sid].pc == Idle)
    case Reap => true
    case Tick(_) => true
  }

  /** An allocation does not wrap the id counter. */
  ghost predicate IdsLeft(w: World, e: Event) {
    e.AllocateHttp? || e.AllocateTcp? ==> w.reg.nextId < MAX_ID
  }

  function Goto(w: World, sid: SessionId, pc: Pc): World
    requires sid in w.sessions
  {
    w.(sessions := w.sessions[sid := w.sessions[sid].(pc := pc)])
  }

  function UnderCap(s: State, x: Session): bool {
    x.maxConns.None? || CountOwnedBy(s, x.owner) < x.maxConns.value
  }

  function TunnelOf(w: World, sid: SessionId, id: TunnelId, kind: Kind, abort: Option<AbortHandle>,
                    listener: Option<Listener>, inspect: bool): Tunnel
    requires sid in w.sessions
  {
    var x := w.sessions[sid];
    Tunnel(id, x.owner, sid, kind, Live(x.connection, abort), listener, x.rate, inspect)
  }

  /** A re-attached TCP tunnel still needs its new accept task recorded. */
  function NextPc(out: Outcome): Pc {
    if out.Reattached? && out.info.ResumedTcp? then Pc.Resumed(out.id) else Idle
  }

  /** What the end of a session does to the tunnels of its key. */
  function Dispose(s: State, owner: PubKey, how: End, deadline: Instant): State {
    match how
    case Dropped => MarkDangling(s, owner, deadline)
    case _ => RemoveAll(s, Owned(s.tunnels, owner))
  }

  /** What remains of a session that is gone: nothing, or a leaked port. */
  function Gone(w: World, sid: SessionId): World
    requires sid in w.sessions
  {
    var pc := w.sessions[sid].pc;
    w.(sessions := w.sessions - {sid}, leaked := if pc.HoldsTcp? then w.leaked + {pc.port} else w.leaked)
  }

  function Ended(w: World, sid: SessionId, how: End, deadline: Instant): World
    requires sid in w.sessions
  {
    Gone(w, sid).(reg := Dispose(w.reg, w.sessions[sid].owner, how, deadline),
                  over := if how == Dropped then w.over else w.over + {sid})
  }

  function Apply(w: World, e: Event, cfg: Config): World
    requires Enabled(w, e)
  {
    match e
    case Connect(sid, owner, connection, maxConns, rate) =>
      w.(sessions := w.sessions[sid := Session(owner, connection, maxConns, rate, Idle)],
         owners := w.owners[sid := owner])
    case CheckCap(sid) => if UnderCap(w.reg, w.sessions[sid]) then Goto(w, sid, Checked) else w
    case Decline(sid) => Goto(w, sid, Idle)
    case AllocateHttp(sid, name) =>
      if name in w.reg.usedLabels then Goto(w, sid, Idle)
      else Goto(w, sid, HoldsHttp(w.reg.nextId, name)).(reg := ReserveLabel(w.reg, name))
    case AllocateTcp(sid, allow) =>
      (match PickFreePort(cfg.portLo, cfg.portHi, w.reg.usedPorts, allow)
       case None => Goto(w, sid, Idle)
       case Some(port) => Goto(w, sid, HoldsTcp(w.reg.nextId, port)).(reg := ReservePort(w.reg, port)))
    case PublishHttp(sid, inspect) =>
      var pc := w.sessions[sid].pc;
      Goto(w, sid, Idle).(reg := Insert(w.reg, TunnelOf(w, sid, pc.id, Http(pc.name), None, None, inspect)))
    case PublishTcp(sid, listener, abort, inspect) =>
      var pc := w.sessions[sid].pc;
      Goto(w, sid, Idle).(reg := Insert(w.reg, TunnelOf(w, sid, pc.id, Tcp(pc.port), Some(abort), Some(listener), inspect)))
    case BindFailed(sid) => Goto(w, sid, Idle).(leaked := w.leaked + {w.sessions[sid].pc.port})
    case Resume(sid, name, previous, found) =>
      var x := w.sessions[sid];
      var (s, out) := TryResume(w.reg, name, previous, x.owner, x.connection, found);
      Goto(w, sid, NextPc(out)).(reg := s)
    case RecordAbort(sid, abort) =>
      var id := w.sessions[sid].pc.id;
      Goto(w, sid, Idle).(reg := SetTcpAbort(w.reg, id, abort))
    case Unregister(sid, id) => w.(reg := RemoveAll(w.reg, {id}))
    case Finish(sid, how, grace) =>
      Ended(w, sid, how, w.now + grace)
    case Reap => w.(reg := RemoveAll(w.reg, Expired(w.reg.tunnels, w.now)))
    case Tick(d) => w.(now := w.now + d)
  }

  // ---------------- the invariant ----------------

  function HeldPorts(ss: map<SessionId, Session>): set<U16> {
    set sid | sid in ss && ss[sid].pc.HoldsTcp? :: ss[sid].pc.port
  }

  function HeldLabels(ss: map<SessionId, Session>): set<string> {
    set sid | sid in ss && ss[sid].pc.HoldsHttp? :: ss[sid].pc.name
  }

  /** Used ports are those of tunnels, of registrations under way, and of failed binds; no port is two of these. */
  ghost predicate PortsOK(w: World) {
    && w.reg.usedPorts == PortsOf(w.reg.tunnels) + HeldPorts(w.sessions) + w.leaked
    && PortsOf(w.reg.tunnels) !! HeldPorts(w.sessions) && PortsOf(w.reg.tunnels) !! w.leaked
    && HeldPorts(w.sessions) !! w.leaked
  }

  ghost predicate LabelsOK(w: World) {
    && w.reg.usedLabels == LabelsOf(w.reg.tunnels) + HeldLabels(w.sessions)
    && LabelsOf(w.reg.tunnels) !! HeldLabels(w.sessions)
  }

  ghost predicate Conflict(p: Pc, q: Pc) {
    Holds(p) && Holds(q) &&
    (p.id == q.id || (p.HoldsTcp? && q.HoldsTcp? && p.port == q.port)
     || (p.HoldsHttp? && q.HoldsHttp? && p.name == q.name))
  }

  /** Reservations are of unpublished ids and never overlap. */
  ghost predicate HeldOK(w: World) {
    && (forall sid :: sid in w.sessions && Holds(w.sessions[sid].pc) ==>
          w.sessions[sid].pc.id < w.reg.nextId && w.sessions[sid].pc.id !in w.reg.tunnels)
    && (forall i, j :: i in w.sessions && j in w.sessions && i != j ==> !Conflict(w.sessions[i].pc, w.sessions[j].pc))
  }

  /** Every tunnel belongs to a known session of the same key that has not ended for good. */
  ghost predicate OriginsOK(w: World) {
    && (forall sid :: sid in w.sessions ==>
          sid in w.owners && w.owners[sid] == w.sessions[sid].owner && sid !in w.over)
    && (forall sid :: sid in w.over ==> sid in w.owners)
    && (forall id :: id in w.reg.tunnels ==>
          var t := w.reg.tunnels[id];
          t.session in w.owners && w.owners[t.session] == t.owner && t.session !in w.over)
  }

  ghost predicate WorldOK(w: World) {
    TableOK(w.reg) && PortsOK(w) && LabelsOK(w) && HeldOK(w) && OriginsOK(w)
  }

  // ---------------- changes of the table ----------------

  /** Two tables with the same tunnels up to their leases. */
  ghost predicate SameButLeases(s: State, s': State) {
    && s'.nextId == s.nextId && s'.usedPorts == s.usedPorts && s'.usedLabels == s.usedLabels && s'.labels == s.labels
    && s'.tunnels.Keys == s.tunnels.Keys
    && forall id :: id in s.tunnels ==> id in s'.tunnels && s'.tunnels[id] == s.tunnels[id].(lease := s'.tunnels[id].lease)
  }

  lemma KindsKeepPorts(m: map<TunnelId, Tunnel>, m': map<TunnelId, Tunnel>)
    requires forall id :: id in m ==> id in m' && m'[id].kind == m[id].kind
    ensures PortsOf(m) <= PortsOf(m')
  {
    forall p | p in PortsOf(m) ensures p in PortsOf(m') {
      var id :| id in m && m[id].kind.Tcp? && m[id].kind.port == p;
      assert m'[id].kind.Tcp?;
    }
  }

  lemma KindsKeepLabels(m: map<TunnelId, Tunnel>, m': map<TunnelId, Tunnel>)
    requires forall id :: id in m ==> id in m' && m'[id].kind == m[id].kind
    ensures LabelsOf(m) <= LabelsOf(m')
  {
    forall l | l in LabelsOf(m) ensures l in LabelsOf(m') {
      var id :| id in m && m[id].kind.Http? && m[id].kind.name == l;
      assert m'[id].kind.Http?;
    }
  }

  lemma LeasesKeepTable(s: State, s': State)
    requires TableOK(s) && SameButLeases(s, s')
    ensures TableOK(s') && PortsOf(s'.tunnels) == PortsOf(s.tunnels) && LabelsOf(s'.tunnels) == LabelsOf(s.tunnels)
  {
    var m, m' := s.tunnels, s'.tunnels;
    forall id | id in m' ensures id in m && m[id].kind == m'[id].kind { assert id in m.Keys; }
    forall id | id in m' ensures TunnelOK(s', id) { assert TunnelOK(s, id); }
    KindsKeepPorts(m, m');
    KindsKeepPorts(m', m);
    KindsKeepLabels(m, m');
    KindsKeepLabels(m', m);
  }

  lemma MarkDanglingLeases(s: State, owner: PubKey, expiresAt: Instant)
    ensures SameButLeases(s, MarkDangling(s, owner, expiresAt))
  {
  }

  /** Removal frees exactly what the removed tunnels held. */
  lemma RemoveKeepsTable(s: State, ids: set<TunnelId>)
    requires TableOK(s)
    ensures var s' := RemoveAll(s, ids);
            var gone := Only(s.tunnels, ids);
            && TableOK(s')
            && PortsOf(s'.tunnels) == PortsOf(s.tunnels) - PortsOf(gone) && PortsOf(gone) <= PortsOf(s.tunnels)
            && LabelsOf(s'.tunnels) == LabelsOf(s.tunnels) - LabelsOf(gone) && LabelsOf(gone) <= LabelsOf(s.tunnels)
  {
    var s', gone := RemoveAll(s, ids), Only(s.tunnels, ids);
    forall p ensures p in PortsOf(s'.tunnels) <==> p in PortsOf(s.tunnels) && p !in PortsOf(gone) {
      PortStays(s, ids, p);
    }
    forall l ensures l in LabelsOf(s'.tunnels) <==> l in LabelsOf(s.tunnels) && l !in LabelsOf(gone) {
      LabelStays(s, ids, l);
    }
    forall id | id in s'.tunnels ensures TunnelOK(s', id) {
      assert TunnelOK(s, id);
      if s.tunnels[id].kind.Tcp? { PortStays(s, ids, s.tunnels[id].kind.port); }
      else { LabelStays(s, ids, s.tunnels[id].kind.name); }
    }
    forall l | l in s.labels && s.labels[l] in ids ensures l in LabelsOf(gone) {
      assert gone[s.labels[l]].kind.Http?;
    }
  }

  lemma PortStays(s: State, ids: set<TunnelId>, p: U16)
    requires TableOK(s)
    ensures p in PortsOf(s.tunnels - ids) <==> p in PortsOf(s.tunnels) && p !in PortsOf(Only(s.tunnels, ids))
    ensures p in PortsOf(Only(s.tunnels, ids)) ==> p in PortsOf(s.tunnels)
  {
    var m, m', gone := s.tunnels, s.tunnels - ids, Only(s.tunnels, ids);
    assert forall j :: j in m' ==> m'[j] == m[j];
    assert forall j :: j in gone ==> gone[j] == m[j];
    if p in PortsOf(m) {
      var i :| i in m && m[i].kind.Tcp? && m[i].kind.port == p;
      forall j | j in m && j != i ensures m[j].kind != Tcp(p) { assert !SamePort(m[i], m[j]); }
      if i in ids { assert gone[i].kind.Tcp?; } else { assert m'[i].kind.Tcp?; }
    } else {
      forall j | j in m ensures m[j].kind != Tcp(p) { }
    }
  }

  lemma LabelStays(s: State, ids: set<TunnelId>, l: string)
    requires TableOK(s)
    ensures l in LabelsOf(s.tunnels - ids) <==> l in LabelsOf(s.tunnels) && l !in LabelsOf(Only(s.tunnels, ids))
    ensures l in LabelsOf(Only(s.tunnels, ids)) ==> l in LabelsOf(s.tunnels)
  {
    var m, m', gone := s.tunnels, s.tunnels - ids, Only(s.tunnels, ids);
    assert forall j :: j in m' ==> m'[j] == m[j];
    assert forall j :: j in gone ==> gone[j] == m[j];
    if l in LabelsOf(m) {
      var i :| i in m && m[i].kind.Http? && m[i].kind.name == l;
      assert TunnelOK(s, i);
      forall j | j in m && j != i ensures m[j].kind != Http(l) { assert TunnelOK(s, j); }
      if i in ids { assert gone[i].kind.Http?; } else { assert m'[i].kind.Http?; }
    } else {
      forall j | j in m ensures m[j].kind != Http(l) { }
    }
  }

  /** Publishing a tunnel on a reserved, otherwise unused id and name or port. */
  lemma InsertKeepsTable(s: State, t: Tunnel)
    requires TableOK(s) && t.id !in s.tunnels && t.id < s.nextId
    requires match t.kind
             case Tcp(p) => p in s.usedPorts && p !in PortsOf(s.tunnels) && t.listener.Some?
             case Http(l) => l in s.usedLabels && l !in LabelsOf(s.tunnels) && t.listener.None?
    ensures var s' := Insert(s, t);
            && TableOK(s')
            && PortsOf(s'.tunnels) == PortsOf(s.tunnels) + (if t.kind.Tcp? then {t.kind.port} else {})
            && LabelsOf(s'.tunnels) == LabelsOf(s.tunnels) + (if t.kind.Http? then {t.kind.name} else {})
  {
    var s' := Insert(s, t);
    forall l | l in s.labels ensures l in LabelsOf(s.tunnels) {
      assert s.tunnels[s.labels[l]].kind.Http?;
    }
    InsertSets(s.tunnels, t);
    forall id | id in s'.tunnels ensures TunnelOK(s', id) {
      if id != t.id { assert TunnelOK(s, id); }
    }
    forall i, j | i in s'.tunnels && j in s'.tunnels && i != j ensures !SamePort(s'.tunnels[i], s'.tunnels[j]) {
      if i == t.id && s.tunnels[j].kind.Tcp? { assert s.tunnels[j].kind.port in PortsOf(s.tunnels); }
      if j == t.id && s.tunnels[i].kind.Tcp? { assert s.tunnels[i].kind.port in PortsOf(s.tunnels); }
    }
  }

  lemma InsertSets(m: map<TunnelId, Tunnel>, t: Tunnel)
    requires t.id !in m
    ensures PortsOf(m[t.id := t]) == PortsOf(m) + (if t.kind.Tcp? then {t.kind.port} else {})
    ensures LabelsOf(m[t.id := t]) == LabelsOf(m) + (if t.kind.Http? then {t.kind.name} else {})
  {
    var m' := m[t.id := t];
    forall p ensures p in PortsOf(m') <==> p in PortsOf(m) || (t.kind.Tcp? && t.kind.port == p) {
      if p in PortsOf(m) {
        var i :| i in m && m[i].kind.Tcp? && m[i].kind.port == p;
        assert m'[i].kind.Tcp?;
      }
      if t.kind.Tcp? && t.kind.port == p { assert m'[t.id].kind.Tcp?; }
    }
    forall l ensures l in LabelsOf(m') <==> l in LabelsOf(m) || (t.kind.Http? && t.kind.name == l) {
      if l in LabelsOf(m) {
        var i :| i in m && m[i].kind.Http? && m[i].kind.name == l;
        assert m'[i].kind.Http?;
      }
      if t.kind.Http? && t.kind.name == l { assert m'[t.id].kind.Http?; }
    }
  }

  // ---------------- changes of the sessions ----------------

  lemma PcSets(ss: map<SessionId, Session>, sid: SessionId, x: Session)
    requires forall i, j :: i in ss && j in ss && i != j ==> !Conflict(ss[i].pc, ss[j].pc)
    ensures var had := if sid in ss && ss[sid].pc.HoldsTcp? then {ss[sid].pc.port} else {};
            var has := if x.pc.HoldsTcp? then {x.pc.port} else {};
            HeldPorts(ss[sid := x]) == HeldPorts(ss) - had + has
    ensures var had := if sid in ss && ss[sid].pc.HoldsHttp? then {ss[sid].pc.name} else {};
            var has := if x.pc.HoldsHttp? then {x.pc.name} else {};
            HeldLabels(ss[sid := x]) == HeldLabels(ss) - had + has
  {
    forall p ensures p in HeldPorts(ss[sid := x]) <==>
                     || (p in HeldPorts(ss) && !(sid in ss && ss[sid].pc.HoldsTcp? && ss[sid].pc.port == p))
                     || (x.pc.HoldsTcp? && x.pc.port == p)
    {
      PcPort(ss, sid, x, p);
    }
    forall l ensures l in HeldLabels(ss[sid := x]) <==>
                     || (l in HeldLabels(ss) && !(sid in ss && ss[sid].pc.HoldsHttp? && ss[sid].pc.name == l))
                     || (x.pc.HoldsHttp? && x.pc.name == l)
    {
      PcLabel(ss, sid, x, l);
    }
  }

  lemma PcPort(ss: map<SessionId, Session>, sid: SessionId, x: Session, p: U16)
    requires forall i, j :: i in ss && j in ss && i != j ==> !Conflict(ss[i].pc, ss[j].pc)
    ensures p in HeldPorts(ss[sid := x]) <==>
            || (p in HeldPorts(ss) && !(sid in ss && ss[sid].pc.HoldsTcp? && ss[sid].pc.port == p))
            || (x.pc.HoldsTcp? && x.pc.port == p)
  {
    var ss' := ss[sid := x];
    if p in HeldPorts(ss') {
      var i :| i in ss' && ss'[i].pc.HoldsTcp? && ss'[i].pc.port == p;
      if i != sid { assert ss[i].pc.HoldsTcp?; assert sid in ss ==> !Conflict(ss[i].pc, ss[sid].pc); }
    }
    if p in HeldPorts(ss) {
      var i :| i in ss && ss[i].pc.HoldsTcp? && ss[i].pc.port == p;
      if i != sid { assert ss'[i].pc.HoldsTcp?; }
    }
    if x.pc.HoldsTcp? && x.pc.port == p { assert ss'[sid].pc.HoldsTcp?; }
  }

  lemma PcLabel(ss: map<SessionId, Session>, sid: SessionId, x: Session, l: string)
    requires forall i, j :: i in ss && j in ss && i != j ==> !Conflict(ss[i].pc, ss[j].pc)
    ensures l in HeldLabels(ss[sid := x]) <==>
            || (l in HeldLabels(ss) && !(sid in ss && ss[sid].pc.HoldsHttp? && ss[sid].pc.name == l))
            || (x.pc.HoldsHttp? && x.pc.name == l)
  {
    var ss' := ss[sid := x];
    if l in HeldLabels(ss') {
      var i :| i in ss' && ss'[i].pc.HoldsHttp? && ss'[i].pc.name == l;
      if i != sid { assert ss[i].pc.HoldsHttp?; assert sid in ss ==> !Conflict(ss[i].pc, ss[sid].pc); }
    }
    if l in HeldLabels(ss) {
      var i :| i in ss && ss[i].pc.HoldsHttp? && ss[i].pc.name == l;
      if i != sid { assert ss'[i].pc.HoldsHttp?; }
    }
    if x.pc.HoldsHttp? && x.pc.name == l { assert ss'[sid].pc.HoldsHttp?; }
  }
}
