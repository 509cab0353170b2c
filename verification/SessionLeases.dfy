/**
  What a tunnel's owner may rely on over every run: an id always denotes the
  same tunnel, and a dangling lease lasts until its deadline.
 */
module SessionLeases {
  import opened Bytes
  import opened Registry
  import opened Sessions
  import opened SessionRuns

  // ---------------- one step ----------------

  ghost predicate SameTunnel(t: Tunnel, u: Tunnel) { u == t.(lease := u.lease) }

  /** An id that was issued and can never be published again. */
  ghost predicate Retired(w: World, id: TunnelId) {
    && id < w.reg.nextId && id !in w.reg.tunnels
    && forall sid :: sid in w.sessions && Holds(w.sessions[sid].pc) ==> w.sessions[sid].pc.id != id
  }

  /** The steps that may take a tunnel away. */
  ghost predicate Removes(w: World, e: Event, id: TunnelId)
    requires Enabled(w, e) && id in w.reg.tunnels
  {
    var t := w.reg.tunnels[id];
    match e
    case Unregister(_, i) => i == id
    case Finish(sid, how, _) => how != Dropped && w.sessions[sid].owner == t.owner
    case Reap => t.lease.Dangling? && t.lease.expiresAt <= w.now
    case _ => false
  }

  /** A request of the tunnel's key names the session the tunnel dangles under, and the lookup finds it. */
  ghost predicate Takes(s: State, name: string, previous: SessionId, key: PubKey, found: Option<TunnelId>, id: TunnelId)
    requires id in s.tunnels
  {
    var t := s.tunnels[id];
    t.lease.Dangling? && previous == t.session && key == t.owner && Candidate(s, name, found) == Some(id)
  }

  ghost predicate Claims(w: World, e: Event, id: TunnelId)
    requires Enabled(w, e) && id in w.reg.tunnels
  {
    e.Resume? && Takes(w.reg, e.name, e.previous, w.sessions[e.sid].owner, e.found, id)
  }

  /** The drop of a session of the tunnel's key. */
  ghost predicate Drops(w: World, e: Event, key: PubKey)
    requires Enabled(w, e)
  {
    e.Finish? && e.how == Dropped && w.sessions[e.sid].owner == key
  }

  /**
    What a step makes of a tunnel it leaves in the table. A live lease starts
    its grace period when a session of its key is dropped and gets the accept
    task recorded for it; a dangling one changes only by a claim.
   */
  ghost predicate Keeps(w: World, e: Event, id: TunnelId, u: Tunnel)
    requires Enabled(w, e) && id in w.reg.tunnels
  {
    var t := w.reg.tunnels[id];
    && SameTunnel(t, u)
    && match t.lease
       case Dangling(_) => u.lease == if Claims(w, e, id) then Live(w.sessions[e.sid].connection, None) else t.lease
       case Live(connection, _) =>
         u.lease ==
           if Drops(w, e, t.owner) then Dangling(w.now + e.grace)
           else if e.RecordAbort? && w.sessions[e.sid].pc == Pc.Resumed(id) then Live(connection, Some(e.abort))
           else t.lease
  }

  lemma ResumeStep(w: World, e: Event, cfg: Config, id: TunnelId)
    requires TableOK(w.reg) && Enabled(w, e) && e.Resume? && id in w.reg.tunnels
    ensures var w' := Apply(w, e, cfg);
            && id in w'.reg.tunnels
            && w'.reg.tunnels[id] == if Claims(w, e, id) then w.reg.tunnels[id].(lease := Live(w.sessions[e.sid].connection, None))
                                     else w.reg.tunnels[id]
  {
  }

  lemma FinishTunnel(w: World, e: Event, cfg: Config, id: TunnelId)
    requires Enabled(w, e) && e.Finish? && id in w.reg.tunnels
    ensures var w' := Apply(w, e, cfg);
            && (id in w'.reg.tunnels <==> !Removes(w, e, id))
            && (id in w'.reg.tunnels ==> Keeps(w, e, id, w'.reg.tunnels[id]))
  {
  }

  lemma PublishTunnel(w: World, e: Event, cfg: Config, id: TunnelId)
    requires HeldOK(w) && Enabled(w, e) && (e.PublishHttp? || e.PublishTcp?) && id in w.reg.tunnels
    ensures id in Apply(w, e, cfg).reg.tunnels && Apply(w, e, cfg).reg.tunnels[id] == w.reg.tunnels[id]
  {
  }

  lemma PlainTunnel(w: World, e: Event, cfg: Config, id: TunnelId)
    requires Enabled(w, e) && id in w.reg.tunnels
    requires !e.Resume? && !e.PublishHttp? && !e.PublishTcp? && !e.Finish?
    ensures var w' := Apply(w, e, cfg);
            && (id in w'.reg.tunnels <==> !Removes(w, e, id))
            && (id in w'.reg.tunnels ==> Keeps(w, e, id, w'.reg.tunnels[id]))
  {
  }

  /** A step removes a tunnel exactly when it is one of the removing steps; otherwise only its lease changes, as said. */
  lemma StepTunnel(w: World, e: Event, cfg: Config, id: TunnelId)
    requires TableOK(w.reg) && HeldOK(w) && Enabled(w, e) && id in w.reg.tunnels
    ensures var w' := Apply(w, e, cfg);
            && (id in w'.reg.tunnels <==> !Removes(w, e, id))
            && (id in w'.reg.tunnels ==> Keeps(w, e, id, w'.reg.tunnels[id]))
  {
    match e
    case Resume(_, _, _, _) => ResumeStep(w, e, cfg, id);
    case PublishHttp(_, _) => PublishTunnel(w, e, cfg, id);
    case PublishTcp(_, _, _, _) => PublishTunnel(w, e, cfg, id);
    case Finish(_, _, _) => FinishTunnel(w, e, cfg, id);
    case _ => PlainTunnel(w, e, cfg, id);
  }

  /** A tunnel appears only when the session that reserved its id publishes it, and it is that session's. */
  lemma StepAppears(w: World, e: Event, cfg: Config, id: TunnelId)
    requires Enabled(w, e) && id !in w.reg.tunnels
    ensures var w' := Apply(w, e, cfg);
            && (id in w'.reg.tunnels <==> (e.PublishHttp? || e.PublishTcp?) && w.sessions[e.sid].pc.id == id)
            && (id in w'.reg.tunnels ==>
                  var x := w.sessions[e.sid];
                  w'.reg.tunnels[id] ==
                    if e.PublishHttp? then
                      Tunnel(id, x.owner, e.sid, Http(x.pc.name), Live(x.connection, None), None, x.rate, e.inspect)
                    else
                      Tunnel(id, x.owner, e.sid, Tcp(x.pc.port), Live(x.connection, Some(e.abort)), Some(e.listener), x.rate, e.inspect))
  {
    if e.Resume? { assert id !in Apply(w, e, cfg).reg.tunnels.Keys; }
  }

  lemma StepRetired(w: World, e: Event, cfg: Config, id: TunnelId)
    requires Enabled(w, e) && IdsLeft(w, e) && Retired(w, id)
    ensures Retired(Apply(w, e, cfg), id)
  {
    if e.Resume? { assert id !in Apply(w, e, cfg).reg.tunnels.Keys; }
  }

  // ---------------- every run ----------------

  lemma {:induction false} Tracked(ws: seq<World>, es: seq<Event>, cfg: Config, n: nat, m: nat, id: TunnelId)
    requires Run(ws, es, cfg) && n <= m < |ws| && id in ws[n].reg.tunnels
    ensures (id in ws[m].reg.tunnels && SameTunnel(ws[n].reg.tunnels[id], ws[m].reg.tunnels[id])) || Retired(ws[m], id)
    decreases m
  {
    if n < m {
      Tracked(ws, es, cfg, n, m - 1, id);
      TrackedStep(ws, es, cfg, m - 1, id);
    }
  }

  lemma TrackedStep(ws: seq<World>, es: seq<Event>, cfg: Config, k: nat, id: TunnelId)
    requires Run(ws, es, cfg) && k < |es| && (id in ws[k].reg.tunnels || Retired(ws[k], id))
    ensures (&& id in ws[k].reg.tunnels && id in ws[k + 1].reg.tunnels
             && SameTunnel(ws[k].reg.tunnels[id], ws[k + 1].reg.tunnels[id]))
            || Retired(ws[k + 1], id)
  {
    RegistryInvariant(ws, es, cfg, k);
    if id in ws[k].reg.tunnels {
      StepTunnel(ws[k], es[k], cfg, id);
    } else {
      StepRetired(ws[k], es[k], cfg, id);
    }
  }

  /** An id never changes its meaning: owner, session, kind, listener, limits and inspection stay those of its first tunnel. */
  lemma IdentityStable(ws: seq<World>, es: seq<Event>, cfg: Config, n: nat, m: nat, id: TunnelId)
    requires Run(ws, es, cfg) && n <= m < |ws| && id in ws[n].reg.tunnels && id in ws[m].reg.tunnels
    ensures SameTunnel(ws[n].reg.tunnels[id], ws[m].reg.tunnels[id])
    ensures forall k :: n <= k <= m ==> id in ws[k].reg.tunnels
  {
    Tracked(ws, es, cfg, n, m, id);
    forall k | n <= k <= m ensures id in ws[k].reg.tunnels {
      Tracked(ws, es, cfg, n, k, id);
      if Retired(ws[k], id) { RetiredStays(ws, es, cfg, k, m, id); }
    }
  }

  lemma {:induction false} RetiredStays(ws: seq<World>, es: seq<Event>, cfg: Config, n: nat, m: nat, id: TunnelId)
    requires Run(ws, es, cfg) && n <= m < |ws| && Retired(ws[n], id)
    ensures Retired(ws[m], id)
    decreases m
  {
    if n < m {
      RetiredStays(ws, es, cfg, n, m - 1, id);
      TrackedStep(ws, es, cfg, m - 1, id);
    }
  }

  // ---------------- the grace period ----------------

  /** Steps that end a lease early: the owner resumes, unregisters, or ends a session for good. */
  ghost predicate EndsEarly(w: World, e: Event, id: TunnelId)
    requires Enabled(w, e) && id in w.reg.tunnels
  {
    Claims(w, e, id) || (!e.Reap? && Removes(w, e, id))
  }

  ghost predicate LeftAlone(ws: seq<World>, es: seq<Event>, cfg: Config, n: nat, m: nat, id: TunnelId)
    requires Run(ws, es, cfg) && n <= m < |ws|
  {
    forall k :: n <= k < m && id in ws[k].reg.tunnels ==> !EndsEarly(ws[k], es[k], id)
  }

  ghost predicate ReapedBy(ws: seq<World>, es: seq<Event>, n: nat, m: nat, deadline: Instant)
    requires n <= m <= |es| < |ws|
  {
    exists k :: n <= k < m && es[k].Reap? && deadline <= ws[k].now
  }

  lemma LeaseStep(w: World, e: Event, cfg: Config, id: TunnelId)
    requires WorldOK(w) && Enabled(w, e) && id in w.reg.tunnels && w.reg.tunnels[id].lease.Dangling?
    requires !EndsEarly(w, e, id)
    ensures id in Apply(w, e, cfg).reg.tunnels <==> !(e.Reap? && w.reg.tunnels[id].lease.expiresAt <= w.now)
    ensures id in Apply(w, e, cfg).reg.tunnels ==> Apply(w, e, cfg).reg.tunnels[id] == w.reg.tunnels[id]
  {
    StepTunnel(w, e, cfg, id);
  }

  /** What one step does to a lease, without the rest of the world. */
  ghost predicate LeaseMoves(w: World, e: Event, w': World, id: TunnelId) {
    if id in w.reg.tunnels then
      w.reg.tunnels[id].lease.Dangling? ==>
        && (id in w'.reg.tunnels <==> !(e.Reap? && w.reg.tunnels[id].lease.expiresAt <= w.now))
        && (id in w'.reg.tunnels ==> w'.reg.tunnels[id] == w.reg.tunnels[id])
    else id !in w'.reg.tunnels
  }

  lemma LeaseMovesAt(ws: seq<World>, es: seq<Event>, cfg: Config, n: nat, k: nat, id: TunnelId)
    requires Run(ws, es, cfg) && n <= k < |es| && id in ws[n].reg.tunnels
    requires id in ws[k].reg.tunnels ==> !EndsEarly(ws[k], es[k], id)
    ensures LeaseMoves(ws[k], es[k], ws[k + 1], id)
  {
    RegistryInvariant(ws, es, cfg, k);
    if id in ws[k].reg.tunnels {
      if ws[k].reg.tunnels[id].lease.Dangling? { LeaseStep(ws[k], es[k], cfg, id); }
    } else {
      Tracked(ws, es, cfg, n, k, id);
      TrackedStep(ws, es, cfg, k, id);
    }
  }

  lemma {:induction false} LeaseHistory(ws: seq<World>, es: seq<Event>, n: nat, m: nat, id: TunnelId)
    requires n <= m <= |es| < |ws| && id in ws[n].reg.tunnels && ws[n].reg.tunnels[id].lease.Dangling?
    requires forall k :: n <= k < m ==> LeaseMoves(ws[k], es[k], ws[k + 1], id)
    ensures id in ws[m].reg.tunnels <==> !ReapedBy(ws, es, n, m, ws[n].reg.tunnels[id].lease.expiresAt)
    ensures id in ws[m].reg.tunnels ==> ws[m].reg.tunnels[id] == ws[n].reg.tunnels[id]
    decreases m
  {
    if n < m {
      LeaseHistory(ws, es, n, m - 1, id);
      assert LeaseMoves(ws[m - 1], es[m - 1], ws[m - 1 + 1], id);
    }
  }

  /**
    A lease nobody ends early is kept, unchanged, exactly until the reaper
    first runs at or after the deadline; a second disconnect never moves the
    deadline.
   */
  lemma LeaseSurvivesIff(ws: seq<World>, es: seq<Event>, cfg: Config, n: nat, m: nat, id: TunnelId)
    requires Run(ws, es, cfg) && n <= m < |ws| && id in ws[n].reg.tunnels && ws[n].reg.tunnels[id].lease.Dangling?
    requires LeftAlone(ws, es, cfg, n, m, id)
    ensures id in ws[m].reg.tunnels <==> !ReapedBy(ws, es, n, m, ws[n].reg.tunnels[id].lease.expiresAt)
    ensures id in ws[m].reg.tunnels ==> ws[m].reg.tunnels[id] == ws[n].reg.tunnels[id]
  {
    forall k | n <= k < m ensures LeaseMoves(ws[k], es[k], ws[k + 1], id) { LeaseMovesAt(ws, es, cfg, n, k, id); }
    LeaseHistory(ws, es, n, m, id);
  }

  /** While a lease dangles nobody is given its port, and a request for its name is refused. */
  lemma LeaseReserves(ws: seq<World>, es: seq<Event>, cfg: Config, n: nat, m: nat, id: TunnelId)
    requires Run(ws, es, cfg) && n <= m < |es| && id in ws[n].reg.tunnels && ws[n].reg.tunnels[id].lease.Dangling?
    requires LeftAlone(ws, es, cfg, n, m, id)
    requires !ReapedBy(ws, es, n, m, ws[n].reg.tunnels[id].lease.expiresAt)
    ensures es[m].AllocateHttp? && ws[n].reg.tunnels[id].kind == Http(es[m].name) ==>
              ws[m + 1].reg == ws[m].reg && ws[m + 1].sessions[es[m].sid].pc == Idle
    ensures es[m].AllocateTcp? && ws[n].reg.tunnels[id].kind.Tcp? ==>
              var pc := ws[m + 1].sessions[es[m].sid].pc;
              pc.HoldsTcp? ==> pc.port != ws[n].reg.tunnels[id].kind.port
  {
    LeaseSurvivesIff(ws, es, cfg, n, m, id);
    RegistryInvariant(ws, es, cfg, m);
  }

  /**
    Before the deadline the owner gets the tunnel back: a resume that names
    the session and an HTTP name re-attaches that very tunnel, changing
    nothing but its lease.
   */
  lemma ResumeWithinGrace(ws: seq<World>, es: seq<Event>, cfg: Config, n: nat, m: nat, id: TunnelId)
    requires Run(ws, es, cfg) && n <= m < |es| && id in ws[n].reg.tunnels && ws[n].reg.tunnels[id].lease.Dangling?
    requires LeftAlone(ws, es, cfg, n, m, id)
    requires ws[m].now < ws[n].reg.tunnels[id].lease.expiresAt
    requires es[m].Resume? && es[m].previous == ws[n].reg.tunnels[id].session
    requires ws[n].reg.tunnels[id].kind == Http(es[m].name)
    requires ws[m].sessions[es[m].sid].owner == ws[n].reg.tunnels[id].owner
    ensures id in ws[m + 1].reg.tunnels
    ensures ws[m + 1].reg.tunnels[id] ==
            ws[n].reg.tunnels[id].(lease := Live(ws[m].sessions[es[m].sid].connection, None))
    ensures ResolveLabel(ws[m + 1].reg, es[m].name)
            == Some(Resolved(id, ws[m].sessions[es[m].sid].connection, ws[n].reg.tunnels[id].rate, ws[n].reg.tunnels[id].inspect))
  {
    var t := ws[n].reg.tunnels[id];
    forall k | n <= k < m ensures ws[k].now < t.lease.expiresAt { Onward(ws, es, cfg, k, m); }
    LeaseSurvivesIff(ws, es, cfg, n, m, id);
    RegistryInvariant(ws, es, cfg, m);
    assert TunnelOK(ws[m].reg, id);
    ResumeStep(ws[m], es[m], cfg, id);
    RegistryInvariant(ws, es, cfg, m + 1);
    assert TunnelOK(ws[m + 1].reg, id);
  }

  /** A drop starts the grace period of the key's live tunnels and touches no other tunnel and no running deadline. */
  lemma DropStartsGrace(ws: seq<World>, es: seq<Event>, cfg: Config, k: nat, id: TunnelId)
    requires Run(ws, es, cfg) && k < |es| && es[k].Finish? && es[k].how == Dropped && id in ws[k].reg.tunnels
    ensures es[k].sid in ws[k].sessions && id in ws[k + 1].reg.tunnels && ws[k + 1].now == ws[k].now
    ensures var t := ws[k].reg.tunnels[id];
            ws[k + 1].reg.tunnels[id] ==
              if t.owner == ws[k].sessions[es[k].sid].owner && t.lease.Live? then t.(lease := Dangling(ws[k].now + es[k].grace))
              else t
  {
    assert Enabled(ws[k], es[k]);
    FinishTunnel(ws[k], es[k], cfg, id);
  }

  /**
    From the drop: less than the grace period later, with nothing ended early
    in between, a resume that names the session and the label gets the very
    tunnel back, and the label resolves to the new connection.
   */
  lemma ResumeAfterDrop(ws: seq<World>, es: seq<Event>, cfg: Config, k: nat, m: nat, id: TunnelId)
    requires Run(ws, es, cfg) && k < m < |es| && es[k].Finish? && es[k].how == Dropped
    requires id in ws[k].reg.tunnels && ws[k].reg.tunnels[id].lease.Live?
    requires ws[k].sessions[es[k].sid].owner == ws[k].reg.tunnels[id].owner
    requires LeftAlone(ws, es, cfg, k + 1, m, id) && ws[m].now < ws[k].now + es[k].grace
    requires es[m].Resume? && es[m].previous == ws[k].reg.tunnels[id].session
    requires ws[k].reg.tunnels[id].kind == Http(es[m].name)
    requires ws[m].sessions[es[m].sid].owner == ws[k].reg.tunnels[id].owner
    ensures var connection := ws[m].sessions[es[m].sid].connection;
            && id in ws[m + 1].reg.tunnels
            && ws[m + 1].reg.tunnels[id] == ws[k].reg.tunnels[id].(lease := Live(connection, None))
            && ResolveLabel(ws[m + 1].reg, es[m].name)
               == Some(Resolved(id, connection, ws[k].reg.tunnels[id].rate, ws[k].reg.tunnels[id].inspect))
  {
    DropStartsGrace(ws, es, cfg, k, id);
    ResumeWithinGrace(ws, es, cfg, k + 1, m, id);
  }

  /**
    For a TCP lease the name sent along must not be that of an HTTP tunnel;
    then some TCP tunnel of the session comes back, with its own port.
   */
  lemma TcpResumeWithinGrace(ws: seq<World>, es: seq<Event>, cfg: Config, n: nat, m: nat, id: TunnelId)
    requires Run(ws, es, cfg) && n <= m < |es| && id in ws[n].reg.tunnels && ws[n].reg.tunnels[id].lease.Dangling?
    requires LeftAlone(ws, es, cfg, n, m, id)
    requires ws[m].now < ws[n].reg.tunnels[id].lease.expiresAt
    requires es[m].Resume? && es[m].previous == ws[n].reg.tunnels[id].session
    requires ws[n].reg.tunnels[id].kind.Tcp? && es[m].name !in ws[m].reg.labels
    requires ws[m].sessions[es[m].sid].owner == ws[n].reg.tunnels[id].owner
    ensures es[m].found.Some? && es[m].found.value in ws[m].reg.tunnels && es[m].found.value in ws[m + 1].reg.tunnels
    ensures var t := ws[m].reg.tunnels[es[m].found.value];
            && t.session == es[m].previous && t.kind.Tcp?
            && ws[m + 1].reg.tunnels[es[m].found.value] == t.(lease := Live(ws[m].sessions[es[m].sid].connection, None))
  {
    var t := ws[n].reg.tunnels[id];
    forall k | n <= k < m ensures ws[k].now < t.lease.expiresAt { Onward(ws, es, cfg, k, m); }
    LeaseSurvivesIff(ws, es, cfg, n, m, id);
    RegistryInvariant(ws, es, cfg, m);
    ResumeStep(ws[m], es[m], cfg, es[m].found.value);
  }

}
