/**
  What answering a frame does to the table of tunnels, said without the steps
  it takes: which requests file a tunnel and which one, what a resume gives
  back, what an unregistration removes.
 */
module SessionAnswers {
  import opened Bytes
  import opened Registry
  import opened Sessions
  import opened SessionRuns
  import opened SessionTask

  ghost predicate Admissible(t: Task, s: State, f: Frame)
    requires f.RegisterTunnel?
  {
    && (t.maxConns.Some? ==> |set id | id in s.tunnels && s.tunnels[id].owner == t.owner| < t.maxConns.value)
    && f.admitted
    && if f.tcp then PickFreePort(t.reg.portLo, t.reg.portHi, s.usedPorts, f.allow).Some? && f.listener.Some?
       else f.name !in s.usedLabels
  }

  ghost function Requested(t: Task, s: State, f: Frame): Tunnel
    requires f.RegisterTunnel? && Admissible(t, s, f)
  {
    if f.tcp then
      Tunnel(s.nextId, t.owner, t.sid, Tcp(PickFreePort(t.reg.portLo, t.reg.portHi, s.usedPorts, f.allow).value),
             Live(t.connection, Some(f.abort)), f.listener, t.rate, f.inspect)
    else Tunnel(s.nextId, t.owner, t.sid, Http(f.name), Live(t.connection, None), None, t.rate, f.inspect)
  }

  /** A fresh registration files exactly the tunnel asked for, under the next id, or no tunnel at all. */
  ghost predicate Filed(t: Task, s: State, f: Frame, s': State)
    requires f.RegisterTunnel?
  {
    if Admissible(t, s, f) then
      && s'.tunnels == s.tunnels[s.nextId := Requested(t, s, f)]
      && s'.labels == if f.tcp then s.labels else s.labels[f.name := s.nextId]
    else s'.tunnels == s.tunnels && s'.labels == s.labels
  }

  /** The tunnel a resume request is about, if it dangles under the session named. */
  ghost function Sought(s: State, f: Frame, found: Option<TunnelId>): Option<TunnelId>
    requires f.RegisterTunnel? && f.resume.Some?
  {
    var c := if f.name in s.labels then Some(s.labels[f.name]) else found;
    if c.Some? && c.value in s.tunnels && s.tunnels[c.value].lease.Dangling? && s.tunnels[c.value].session == f.resume.value
    then c else None
  }

  /**
    A resume of one's own lease gives that tunnel back, on the new connection
    and with the new accept task; an HTTP tunnel is withdrawn again outside
    domain mode. Another key's lease is left alone and nothing is registered.
    Without such a lease the request is a fresh registration.
   */
  ghost predicate Resumed(t: Task, s: State, f: Frame, found: Option<TunnelId>, s': State)
    requires f.RegisterTunnel? && f.resume.Some?
  {
    match Sought(s, f, found)
    case None => Filed(t, s, f, s')
    case Some(id) =>
      var u := s.tunnels[id];
      if u.owner != t.owner then s' == s
      else if u.kind.Tcp? then s'.tunnels == s.tunnels[id := u.(lease := Live(t.connection, Some(f.abort)))] && s'.labels == s.labels
      else if !t.domainMode && f.replied then s'.tunnels == s.tunnels - {id}
      else s'.tunnels == s.tunnels[id := u.(lease := Live(t.connection, None))] && s'.labels == s.labels
  }

  lemma Next(ws: seq<World>, es: seq<Event>, cfg: Config, k: nat)
    requires Trace(ws, es, cfg) && k < |es|
    ensures Enabled(ws[k], es[k]) && ws[k + 1] == Apply(ws[k], es[k], cfg)
  {
  }

  /** The cap check by its own words. */
  lemma CapSays(t: Task, s: State, pc: Pc)
    ensures UnderCap(s, t.Me(pc)) <==>
            (t.maxConns.Some? ==> |set id | id in s.tunnels && s.tunnels[id].owner == t.owner| < t.maxConns.value)
  {
    assert Owned(s.tunnels, t.owner) == set id | id in s.tunnels && s.tunnels[id].owner == t.owner;
  }

  ghost predicate Standing(t: Task, w: World, pc: Pc) { t.sid in w.sessions && w.sessions[t.sid] == t.Me(pc) }

  lemma CheckedOrNot(t: Task, w: World)
    requires Standing(t, w, Idle)
    ensures var w' := Apply(w, CheckCap(t.sid), t.Cfg());
            w'.reg == w.reg && Standing(t, w', if UnderCap(w.reg, t.Me(Idle)) then Checked else Idle)
  {
  }

  lemma Declined(t: Task, w: World)
    requires Standing(t, w, Checked)
    ensures var w' := Apply(w, Decline(t.sid), t.Cfg()); w'.reg == w.reg && Standing(t, w', Idle)
  {
  }

  lemma HttpReserved(t: Task, w: World, name: string)
    requires Standing(t, w, Checked)
    ensures var w' := Apply(w, Event.AllocateHttp(t.sid, name), t.Cfg());
            && w'.reg.tunnels == w.reg.tunnels && w'.reg.labels == w.reg.labels
            && Standing(t, w', if name in w.reg.usedLabels then Idle else HoldsHttp(w.reg.nextId, name))
  {
  }

  lemma TcpReserved(t: Task, w: World, allow: Option<seq<U16>>)
    requires Standing(t, w, Checked)
    ensures var w' := Apply(w, Event.AllocateTcp(t.sid, allow), t.Cfg());
            var port := PickFreePort(t.reg.portLo, t.reg.portHi, w.reg.usedPorts, allow);
            && w'.reg.tunnels == w.reg.tunnels && w'.reg.labels == w.reg.labels
            && Standing(t, w', if port.None? then Idle else HoldsTcp(w.reg.nextId, port.value))
  {
  }

  lemma HttpPublished(t: Task, w: World, id: TunnelId, name: string, inspect: bool)
    requires Standing(t, w, HoldsHttp(id, name))
    ensures var w' := Apply(w, PublishHttp(t.sid, inspect), t.Cfg());
            var u := Tunnel(id, t.owner, t.sid, Http(name), Live(t.connection, None), None, t.rate, inspect);
            && w'.reg.tunnels == w.reg.tunnels[id := u] && w'.reg.labels == w.reg.labels[name := id] && Standing(t, w', Idle)
  {
  }

  lemma TcpPublished(t: Task, w: World, id: TunnelId, port: U16, listener: Listener, abort: AbortHandle, inspect: bool)
    requires Standing(t, w, HoldsTcp(id, port))
    ensures var w' := Apply(w, PublishTcp(t.sid, listener, abort, inspect), t.Cfg());
            var u := Tunnel(id, t.owner, t.sid, Tcp(port), Live(t.connection, Some(abort)), Some(listener), t.rate, inspect);
            && w'.reg.tunnels == w.reg.tunnels[id := u] && w'.reg.labels == w.reg.labels && Standing(t, w', Idle)
  {
  }

  lemma BindLeaks(t: Task, w: World, id: TunnelId, port: U16)
    requires Standing(t, w, HoldsTcp(id, port))
    ensures var w' := Apply(w, BindFailed(t.sid), t.Cfg()); w'.reg == w.reg && Standing(t, w', Idle)
  {
  }

  lemma HttpFiles(t: Task, ws: seq<World>, es: seq<Event>, a: nat, b: nat, f: Frame)
    requires Trace(ws, es, t.Cfg()) && a <= b <= |es| && f.RegisterTunnel? && !f.tcp
    requires Standing(t, ws[a], Checked) && UnderCap(ws[a].reg, t.Me(Idle))
    requires es[a..b] == t.HttpSteps(ws[a].reg.usedLabels, f)
    ensures Filed(t, ws[a].reg, f, ws[b].reg) && Standing(t, ws[b], Idle)
  {
    var s := es[a..b];
    assert s[0] == es[a];
    Next(ws, es, t.Cfg(), a);
    CapSays(t, ws[a].reg, Idle);
    if !f.admitted {
      Declined(t, ws[a]);
    } else {
      HttpReserved(t, ws[a], f.name);
      if f.name !in ws[a].reg.usedLabels {
        assert s[1] == es[a + 1];
        Next(ws, es, t.Cfg(), a + 1);
        HttpPublished(t, ws[a + 1], ws[a].reg.nextId, f.name, f.inspect);
      }
    }
  }

  lemma TcpFiles(t: Task, ws: seq<World>, es: seq<Event>, a: nat, b: nat, f: Frame)
    requires Trace(ws, es, t.Cfg()) && a <= b <= |es| && f.RegisterTunnel? && f.tcp
    requires Standing(t, ws[a], Checked) && UnderCap(ws[a].reg, t.Me(Idle))
    requires es[a..b] == t.TcpSteps(ws[a].reg.usedPorts, f)
    ensures Filed(t, ws[a].reg, f, ws[b].reg) && Standing(t, ws[b], Idle)
  {
    var s := es[a..b];
    var port := PickFreePort(t.reg.portLo, t.reg.portHi, ws[a].reg.usedPorts, f.allow);
    assert s[0] == es[a];
    Next(ws, es, t.Cfg(), a);
    CapSays(t, ws[a].reg, Idle);
    if !f.admitted {
      Declined(t, ws[a]);
    } else {
      TcpReserved(t, ws[a], f.allow);
      if port.Some? {
        assert s[1] == es[a + 1];
        Next(ws, es, t.Cfg(), a + 1);
        if f.listener.None? {
          BindLeaks(t, ws[a + 1], ws[a].reg.nextId, port.value);
        } else {
          TcpPublished(t, ws[a + 1], ws[a].reg.nextId, port.value, f.listener.value, f.abort, f.inspect);
        }
      }
    }
  }

  lemma FreshFiles(t: Task, ws: seq<World>, es: seq<Event>, a: nat, b: nat, f: Frame)
    requires Trace(ws, es, t.Cfg()) && a <= b <= |es| && f.RegisterTunnel? && Standing(t, ws[a], Idle)
    requires es[a..b] == t.FreshSteps(ws[a], f)
    ensures Filed(t, ws[a].reg, f, ws[b].reg) && Standing(t, ws[b], Idle)
  {
    var s := es[a..b];
    assert s[0] == es[a];
    Next(ws, es, t.Cfg(), a);
    CheckedOrNot(t, ws[a]);
    CapSays(t, ws[a].reg, Idle);
    if UnderCap(ws[a].reg, t.Me(Idle)) {
      assert s[1..] == es[a + 1..b];
      if f.tcp { TcpFiles(t, ws, es, a + 1, b, f); } else { HttpFiles(t, ws, es, a + 1, b, f); }
    }
  }

  // ---------------- resuming ----------------

  /** The outcome of a resume in the words of the request. */
  lemma OutcomeSays(t: Task, w: World, f: Frame, found: Option<TunnelId>)
    requires f.RegisterTunnel? && f.resume.Some? && Standing(t, w, Idle) && TableOK(w.reg)
    requires Enabled(w, t.ResumeOf(f, found))
    ensures var out, id := t.OutcomeOf(w, f, found), Sought(w.reg, f, found);
            && (out.Unknown? <==> id.None?)
            && (out.IdentityMismatch? <==> id.Some? && w.reg.tunnels[id.value].owner != t.owner)
            && (out.Reattached? <==> id.Some? && w.reg.tunnels[id.value].owner == t.owner)
            && (out.Reattached? ==> out.id == id.value && (out.info.ResumedTcp? <==> w.reg.tunnels[id.value].kind.Tcp?))
  {
    var c := Candidate(w.reg, f.name, found);
    if c.Some? && c.value in w.reg.tunnels { assert TunnelOK(w.reg, c.value); }
  }

  lemma ResumeActs(t: Task, w: World, f: Frame, found: Option<TunnelId>)
    requires f.RegisterTunnel? && f.resume.Some? && Standing(t, w, Idle) && TableOK(w.reg)
    requires Enabled(w, t.ResumeOf(f, found))
    ensures var w', out := Apply(w, t.ResumeOf(f, found), t.Cfg()), t.OutcomeOf(w, f, found);
            && (!out.Reattached? ==> w'.reg == w.reg && Standing(t, w', Idle))
            && (out.Reattached? ==>
                  && out.id in w.reg.tunnels && w'.reg.labels == w.reg.labels
                  && w'.reg.tunnels == w.reg.tunnels[out.id := w.reg.tunnels[out.id].(lease := Live(t.connection, None))]
                  && Standing(t, w', if out.info.ResumedTcp? then Pc.Resumed(out.id) else Idle))
  {
    ResumeSound(w.reg, f.name, f.resume.value, t.owner, t.connection, found);
  }

  lemma AbortRecorded(t: Task, w: World, id: TunnelId, abort: AbortHandle)
    requires Standing(t, w, Pc.Resumed(id)) && id in w.reg.tunnels && w.reg.tunnels[id].lease == Live(t.connection, None)
    ensures var w' := Apply(w, RecordAbort(t.sid, abort), t.Cfg());
            && w'.reg.tunnels == w.reg.tunnels[id := w.reg.tunnels[id].(lease := Live(t.connection, Some(abort)))]
            && w'.reg.labels == w.reg.labels && Standing(t, w', Idle)
  {
  }

  lemma Withdrawn(t: Task, w: World, id: TunnelId)
    requires Standing(t, w, Idle)
    ensures var w' := Apply(w, Unregister(t.sid, id), t.Cfg());
            w'.reg.tunnels == w.reg.tunnels - {id} && Standing(t, w', Idle)
  {
  }

  lemma ReattachActs(t: Task, ws: seq<World>, es: seq<Event>, a: nat, b: nat, f: Frame, found: Option<TunnelId>)
    requires Trace(ws, es, t.Cfg()) && a <= b <= |es| && Standing(t, ws[a], Idle) && TableOK(ws[a].reg)
    requires f.RegisterTunnel? && f.resume.Some? && Enabled(ws[a], t.ResumeOf(f, found))
    requires t.OutcomeOf(ws[a], f, found).Reattached? && es[a..b] == t.ResumeSteps(ws[a], f, found)
    ensures Resumed(t, ws[a].reg, f, found, ws[b].reg) && Standing(t, ws[b], Idle)
  {
    var s, out := es[a..b], t.OutcomeOf(ws[a], f, found);
    assert s[0] == es[a];
    Next(ws, es, t.Cfg(), a);
    OutcomeSays(t, ws[a], f, found);
    ResumeActs(t, ws[a], f, found);
    if |s| == 2 {
      assert s[1] == es[a + 1];
      Next(ws, es, t.Cfg(), a + 1);
      if out.info.ResumedTcp? { AbortRecorded(t, ws[a + 1], out.id, f.abort); } else { Withdrawn(t, ws[a + 1], out.id); }
      var m, u := ws[a].reg.tunnels, ws[a].reg.tunnels[out.id];
      assert m[out.id := u.(lease := Live(t.connection, None))] - {out.id} == m - {out.id};
    }
  }

  lemma RegisterActs(t: Task, ws: seq<World>, es: seq<Event>, a: nat, b: nat, f: Frame, found: Option<TunnelId>)
    requires Trace(ws, es, t.Cfg()) && a <= b <= |es| && Standing(t, ws[a], Idle) && TableOK(ws[a].reg)
    requires f.RegisterTunnel? && f.resume.Some? && Enabled(ws[a], t.ResumeOf(f, found))
    requires es[a..b] == t.RegisterSteps(ws[a], f, found)
    ensures Resumed(t, ws[a].reg, f, found, ws[b].reg) && Standing(t, ws[b], Idle)
  {
    var s, out := es[a..b], t.OutcomeOf(ws[a], f, found);
    OutcomeSays(t, ws[a], f, found);
    if out.Reattached? {
      ReattachActs(t, ws, es, a, b, f, found);
    } else {
      assert s[0] == es[a];
      Next(ws, es, t.Cfg(), a);
      ResumeActs(t, ws[a], f, found);
      if out.Unknown? {
        assert s[1..] == es[a + 1..b];
        FreshFiles(t, ws, es, a + 1, b, f);
      }
    }
  }

  // ---------------- every frame ----------------

  /** What one answered frame has done to the table of tunnels. */
  lemma AnswerActs(t: Task, ws: seq<World>, es: seq<Event>, a: nat, b: nat, f: Frame, found: Option<TunnelId>)
    requires Trace(ws, es, t.Cfg()) && t.Answers(ws, es, a, b, f, found)
    requires Standing(t, ws[a], Idle) && TableOK(ws[a].reg)
    ensures Standing(t, ws[b], Idle)
    ensures match f
            case RegisterTunnel(_, _, resume, _, _, _, _, _, _) =>
              if resume.None? then Filed(t, ws[a].reg, f, ws[b].reg) else Resumed(t, ws[a].reg, f, found, ws[b].reg)
            case UnregisterTunnel(id) => ws[b].reg.tunnels == ws[a].reg.tunnels - {id}
            case _ => ws[b] == ws[a]
  {
    if f.RegisterTunnel? {
      if f.resume.None? { FreshFiles(t, ws, es, a, b, f); } else { RegisterActs(t, ws, es, a, b, f, found); }
    } else if f.UnregisterTunnel? {
      assert es[a..b][0] == es[a];
      Next(ws, es, t.Cfg(), a);
      Withdrawn(t, ws[a], f.id);
    }
  }
}
