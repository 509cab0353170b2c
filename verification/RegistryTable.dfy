/** The registry as the shared, mutable table the sessions and the reaper work on. */
module RegistryTable {
  import opened Bytes
  import opened Registry

  lemma RemoveStep(s: State, ids: set<TunnelId>, id: TunnelId)
    ensures RemoveAll(RemoveAll(s, ids), {id}) == RemoveAll(s, ids + {id})
  {
    var m := s.tunnels;
    var m1 := m - ids;
    var a, b, c := Only(m, ids), Only(m1, {id}), Only(m, ids + {id});
    assert m1 - {id} == m - (ids + {id});
    forall p ensures p in PortsOf(c) <==> p in PortsOf(a) || p in PortsOf(b) {
      if p in PortsOf(c) {
        var i :| i in c && c[i].kind.Tcp? && c[i].kind.port == p;
        if i in ids { assert i in a && a[i] == c[i]; } else { assert i in b && b[i] == c[i]; }
      }
      if p in PortsOf(a) {
        var i :| i in a && a[i].kind.Tcp? && a[i].kind.port == p;
        assert i in c && c[i] == a[i];
      }
      if p in PortsOf(b) {
        var i :| i in b && b[i].kind.Tcp? && b[i].kind.port == p;
        assert i in c && c[i] == b[i];
      }
    }
    LabelsSplit(m, ids, id);
    var u := s.usedPorts;
    assert u - PortsOf(a) - PortsOf(b) == u - PortsOf(c);
    assert s.usedLabels - LabelsOf(a) - LabelsOf(b) == s.usedLabels - LabelsOf(c);
    assert s.labels - LabelsOf(a) - LabelsOf(b) == s.labels - LabelsOf(c);
  }

  lemma LabelsSplit(m: map<TunnelId, Tunnel>, ids: set<TunnelId>, id: TunnelId)
    ensures LabelsOf(Only(m, ids + {id})) == LabelsOf(Only(m, ids)) + LabelsOf(Only(m - ids, {id}))
  {
    var a, b, c := Only(m, ids), Only(m - ids, {id}), Only(m, ids + {id});
    forall l ensures l in LabelsOf(c) <==> l in LabelsOf(a) || l in LabelsOf(b) {
      if l in LabelsOf(c) {
        var i :| i in c && c[i].kind.Http? && c[i].kind.name == l;
        if i in ids { assert i in a && a[i] == c[i]; } else { assert i in b && b[i] == c[i]; }
      }
      if l in LabelsOf(a) {
        var i :| i in a && a[i].kind.Http? && a[i].kind.name == l;
        assert i in c && c[i] == a[i];
      }
      if l in LabelsOf(b) {
        var i :| i in b && b[i].kind.Http? && b[i].kind.name == l;
        assert i in c && c[i] == b[i];
      }
    }
  }

  /** The accept tasks of live tunnels. */
  function Handles(m: map<TunnelId, Tunnel>): set<AbortHandle> {
    set id | id in m && m[id].lease.Live? && m[id].lease.abort.Some? :: m[id].lease.abort.value
  }

  /** Recording an accept task on a live tunnel makes it the one task that removing or dropping the tunnel stops. */
  lemma RecordedTaskStops(s: State, id: TunnelId, abort: AbortHandle)
    requires id in s.tunnels && s.tunnels[id].lease.Live?
    ensures var s' := SetTcpAbort(s, id, abort);
            && Handles(Only(s'.tunnels, {id})) == {abort}
            && s'.tunnels == s.tunnels[id := s.tunnels[id].(lease := Live(s.tunnels[id].lease.connection, Some(abort)))]
            && s' == s.(tunnels := s'.tunnels)
  {
    var m := Only(SetTcpAbort(s, id, abort).tunnels, {id});
    assert id in m && m[id].lease.Live? && m[id].lease.abort == Some(abort);
    assert m.Keys == {id};
  }

  lemma HandlesSplit(m: map<TunnelId, Tunnel>, ids: set<TunnelId>, id: TunnelId)
    ensures Handles(Only(m, ids + {id})) == Handles(Only(m, ids)) + Handles(Only(m - ids, {id}))
  {
    var a, b, c := Only(m, ids), Only(m - ids, {id}), Only(m, ids + {id});
    forall h ensures h in Handles(c) <==> h in Handles(a) || h in Handles(b) {
      if h in Handles(c) {
        var i :| i in c && c[i].lease.Live? && c[i].lease.abort == Some(h);
        if i in ids { assert i in a && a[i] == c[i]; } else { assert i in b && b[i] == c[i]; }
      }
      if h in Handles(a) {
        var i :| i in a && a[i].lease.Live? && a[i].lease.abort == Some(h);
        assert i in c && c[i] == a[i];
      }
      if h in Handles(b) {
        var i :| i in b && b[i].lease.Live? && b[i].lease.abort == Some(h);
        assert i in c && c[i] == b[i];
      }
    }
  }

  lemma FiredStep(m: map<TunnelId, Tunnel>, done: set<TunnelId>, id: TunnelId,
                  start: set<AbortHandle>, before: set<AbortHandle>, after: set<AbortHandle>)
    requires before == start + Handles(Only(m, done)) && after == before + Handles(Only(m - done, {id}))
    ensures after == start + Handles(Only(m, done + {id}))
  {
    HandlesSplit(m, done, id);
  }

  lemma OnlyOne(m: map<TunnelId, Tunnel>, done: set<TunnelId>, id: TunnelId)
    requires id in m && id !in done
    ensures Only(m - done, {id}) == map[id := m[id]]
  {
  }

  /** All tunnels of the owner but those still to do have begun their grace period. */
  ghost predicate Begun(m0: map<TunnelId, Tunnel>, m: map<TunnelId, Tunnel>, todo: set<TunnelId>, owner: PubKey, at: Instant) {
    && m.Keys == m0.Keys
    && forall id :: id in m ==> m[id] == if id in todo then m0[id] else Dangle(m0[id], owner, at)
  }

  class TunnelRegistry {
    const portLo: U16
    const portHi: U16
    var nextId: U64
    var usedPorts: set<U16>
    var usedLabels: set<string>
    var tunnels: map<TunnelId, Tunnel>
    var labels: map<string, TunnelId>
    var aborted: set<AbortHandle>  // accept tasks told to stop

    function Value(): State
      reads this
    {
      State(nextId, usedPorts, usedLabels, tunnels, labels)
    }

    constructor (lo: U16, hi: U16)
      ensures portLo == lo && portHi == hi && Value() == EMPTY && aborted == {}
    {
      portLo, portHi, nextId := lo, hi, 1;
      usedPorts, usedLabels, tunnels, labels, aborted := {}, {}, map[], map[], {};
    }

    method FreshId() returns (id: TunnelId)
      modifies this`nextId
      ensures id == old(nextId) && nextId == NextId(id)
    {
      id := nextId;
      nextId := if nextId == MAX_ID then 1 else nextId + 1;
    }

    /** The first port of the pool that is free and allowed. */
    method FindPort(allow: Option<seq<U16>>) returns (r: Option<U16>)
      ensures r == PickFreePort(portLo, portHi, usedPorts, allow)
    {
      var p: nat := portLo;
      while p <= portHi
        invariant portLo <= p <= portHi as int + 1 || p == portLo
        invariant PickFreePort(portLo, portHi, usedPorts, allow) == PickFreePort(p, portHi, usedPorts, allow)
        decreases portHi as int + 1 - p
      {
        if p !in usedPorts && (allow.None? || p in allow.value) {
          return Some(p);
        }
        p := p + 1;
      }
      return None;
    }

    method AllocateTcp(allow: Option<seq<U16>>) returns (r: Option<(TunnelId, U16)>)
      modifies this
      ensures aborted == old(aborted)
      ensures match PickFreePort(portLo, portHi, old(usedPorts), allow)
              case None => r == None && Value() == old(Value())
              case Some(port) => r == Some((old(nextId), port)) && Value() == ReservePort(old(Value()), port)
    {
      var port := FindPort(allow);
      if port.None? { return None; }
      usedPorts := usedPorts + {port.value};
      var id := FreshId();
      return Some((id, port.value));
    }

    method AllocateHttp(name: string) returns (r: Option<TunnelId>)
      modifies this
      ensures aborted == old(aborted)
      ensures name in old(usedLabels) ==> r == None && Value() == old(Value())
      ensures name !in old(usedLabels) ==> r == Some(old(nextId)) && Value() == ReserveLabel(old(Value()), name)
    {
      if name in usedLabels { return None; }
      usedLabels := usedLabels + {name};
      var id := FreshId();
      return Some(id);
    }

    method Publish(t: Tunnel)
      modifies this
      ensures aborted == old(aborted)
      ensures Value() == Insert(old(Value()), t)
    {
      if t.kind.Http? {
        labels := labels[t.kind.name := t.id];
      }
      tunnels := tunnels[t.id := t];
    }

    method Resolve(name: string) returns (r: Option<Resolved>)
      ensures r == ResolveLabel(Value(), name)
    {
      if name !in labels { return None; }
      var id := labels[name];
      if id !in tunnels { return None; }
      match tunnels[id].lease
      case Live(connection, _) => return Some(Resolved(id, connection, tunnels[id].rate, tunnels[id].inspect));
      case Dangling(_) => return None;
    }

    /** Take a tunnel out, free what it held and stop its accept task. */
    method RemoveLocked(id: TunnelId)
      modifies this
      ensures Value() == RemoveAll(old(Value()), {id})
      ensures aborted == old(aborted) + Handles(Only(old(tunnels), {id}))
    {
      ghost var gone := Only(tunnels, {id});
      if id !in tunnels {
        assert gone == map[] && tunnels - {id} == tunnels;
        assert PortsOf(gone) == {} && LabelsOf(gone) == {} && Handles(gone) == {};
        assert labels - {} == labels;
        return;
      }
      var t := tunnels[id];
      assert gone == map[id := t];
      Abort(id, t);
      tunnels := tunnels - {id};
      match t.kind
      case Tcp(port) =>
        assert PortsOf(gone) == {port} && LabelsOf(gone) == {} by { assert gone[id].kind.Tcp?; }
        assert labels - {} == labels;
        usedPorts := usedPorts - {port};
      case Http(name) =>
        assert PortsOf(gone) == {} && LabelsOf(gone) == {name} by { assert gone[id].kind.Http?; }
        usedLabels := usedLabels - {name};
        labels := labels - {name};
    }

    method Abort(id: TunnelId, t: Tunnel)
      modifies this`aborted
      ensures aborted == old(aborted) + Handles(map[id := t])
    {
      ghost var m := map[id := t];
      if t.lease.Live? && t.lease.abort.Some? {
        assert Handles(m) == {t.lease.abort.value} by { assert m[id].lease.Live?; }
        aborted := aborted + {t.lease.abort.value};
      } else {
        assert Handles(m) == {};
      }
    }

    /** Remove a snapshot of ids one by one, in whatever order the table yields them. */
    method RemoveEach(ids: set<TunnelId>)
      modifies this
      ensures Value() == RemoveAll(old(Value()), ids)
      ensures aborted == old(aborted) + Handles(Only(old(tunnels), ids))
    {
      var todo := ids;
      assert ids - todo == {};
      while todo != {}
        invariant todo <= ids && Value() == RemoveAll(old(Value()), ids - todo)
        invariant aborted == old(aborted) + Handles(Only(old(tunnels), ids - todo))
        decreases |todo|
      {
        var id :| id in todo;
        RemoveStep(old(Value()), ids - todo, id);
        ghost var before := aborted;
        RemoveLocked(id);
        FiredStep(old(tunnels), ids - todo, id, old(aborted), before, aborted);
        assert ids - todo + {id} == ids - (todo - {id});
        todo := todo - {id};
      }
      assert ids - todo == ids;
    }

    method RemoveAllOwnedBy(owner: PubKey)
      modifies this
      ensures Value() == RemoveAll(old(Value()), Owned(old(tunnels), owner))
      ensures tunnels == map id | id in old(tunnels) && old(tunnels)[id].owner != owner :: old(tunnels)[id]
      ensures aborted == old(aborted) + Handles(Only(old(tunnels), Owned(old(tunnels), owner)))
    {
      var ids := set id | id in tunnels && tunnels[id].owner == owner;
      RemoveEach(ids);
    }

    method ReapExpired(now: Instant) returns (n: nat)
      modifies this
      ensures Value() == RemoveAll(old(Value()), Expired(old(tunnels), now)) && aborted == old(aborted)
      ensures forall id :: id in tunnels <==>
                id in old(tunnels) && !(old(tunnels)[id].lease.Dangling? && old(tunnels)[id].lease.expiresAt <= now)
      ensures n == |Expired(old(tunnels), now)|
    {
      var ids := set id | id in tunnels && tunnels[id].lease.Dangling? && tunnels[id].lease.expiresAt <= now;
      n := |ids|;
      assert Handles(Only(tunnels, ids)) == {};
      RemoveEach(ids);
    }

    /** Every live tunnel of the owner starts its grace period, its accept task stopped; dangling ones keep their deadline. */
    method MarkAllDangling(owner: PubKey, now: Instant, grace: nat)
      modifies this
      ensures Value() == MarkDangling(old(Value()), owner, now + grace)
      ensures tunnels.Keys == old(tunnels).Keys
      ensures forall id :: id in tunnels ==>
                tunnels[id] == if old(tunnels)[id].owner == owner && old(tunnels)[id].lease.Live?
                               then old(tunnels)[id].(lease := Dangling(now + grace)) else old(tunnels)[id]
      ensures aborted == old(aborted) + Handles(Only(old(tunnels), Owned(old(tunnels), owner)))
    {
      ghost var start := Value();
      var owned := set id | id in tunnels && tunnels[id].owner == owner;
      DangleEach(owned, owner, now + grace);
    }

    method DangleEach(ids: set<TunnelId>, owner: PubKey, at: Instant)
      requires ids == Owned(tunnels, owner)
      modifies this`tunnels, this`aborted
      ensures Begun(old(tunnels), tunnels, {}, owner, at)
      ensures aborted == old(aborted) + Handles(Only(old(tunnels), ids))
    {
      var todo := ids;
      assert ids - todo == {};
      while todo != {}
        invariant todo <= ids && Begun(old(tunnels), tunnels, todo, owner, at)
        invariant aborted == old(aborted) + Handles(Only(old(tunnels), ids - todo))
        decreases |todo|
      {
        var id :| id in todo;
        ghost var before := aborted;
        DangleOne(id, at);
        OnlyOne(old(tunnels), ids - todo, id);
        FiredStep(old(tunnels), ids - todo, id, old(aborted), before, aborted);
        assert ids - todo + {id} == ids - (todo - {id});
        todo := todo - {id};
      }
      assert ids - todo == ids;
    }

    method DangleOne(id: TunnelId, expiresAt: Instant)
      requires id in tunnels
      modifies this`tunnels, this`aborted
      ensures tunnels == old(tunnels)[id := Dangle(old(tunnels)[id], old(tunnels)[id].owner, expiresAt)]
      ensures aborted == old(aborted) + Handles(map[id := old(tunnels)[id]])
    {
      var t := tunnels[id];
      Abort(id, t);
      if t.lease.Live? {
        tunnels := tunnels[id := t.(lease := Dangling(expiresAt))];
      }
    }

    /** A scan for a dangling TCP tunnel of the session, in table order. */
    method FindTcpLease(session: SessionId) returns (found: Option<TunnelId>)
      ensures ScanFound(Value(), session, found)
    {
      var todo := tunnels.Keys;
      while todo != {}
        invariant todo <= tunnels.Keys
        invariant forall id :: id in tunnels && id !in todo ==> !TcpLease(tunnels[id], session)
        decreases |todo|
      {
        var id :| id in todo;
        var t := tunnels[id];
        if t.session == session && t.lease.Dangling? && t.kind.Tcp? {
          return Some(id);
        }
        todo := todo - {id};
      }
      return None;
    }

    method Resume(name: string, session: SessionId, key: PubKey, connection: Connection)
      returns (out: Outcome, ghost found: Option<TunnelId>)
      modifies this
      ensures aborted == old(aborted)
      ensures ScanOK(old(Value()), name, session, found)
      ensures (Value(), out) == TryResume(old(Value()), name, session, key, connection, found)
    {
      var candidate: Option<TunnelId>;
      found := None;
      if name in labels {
        candidate := Some(labels[name]);
      } else {
        candidate := FindTcpLease(session);
        found := candidate;
      }
      if candidate.None? { return Unknown, found; }
      var id := candidate.value;
      if id !in tunnels { return Unknown, found; }
      var t := tunnels[id];
      if !t.lease.Dangling? || t.session != session { return Unknown, found; }
      if t.owner != key { return IdentityMismatch, found; }
      tunnels := tunnels[id := t.(lease := Live(connection, None))];
      match t.kind
      case Http(l) => return Reattached(id, ResumedHttp(l), t.inspect), found;
      case Tcp(port) =>
        if t.listener.None? { return Unknown, found; }
        return Reattached(id, ResumedTcp(port, t.listener.value), t.inspect), found;
    }

    method SetAbort(id: TunnelId, abort: AbortHandle)
      modifies this
      ensures aborted == old(aborted)
      ensures Value() == SetTcpAbort(old(Value()), id, abort)
      ensures !(id in old(tunnels) && old(tunnels)[id].lease.Live?) ==> Value() == old(Value())
    {
      if id in tunnels && tunnels[id].lease.Live? {
        tunnels := tunnels[id := tunnels[id].(lease := tunnels[id].lease.(abort := Some(abort)))];
      }
    }

    method Count(owner: PubKey) returns (n: nat)
      ensures n == CountOwnedBy(Value(), owner)
    {
      n := 0;
      var todo := tunnels.Keys;
      ghost var counted: set<TunnelId> := {};
      while todo != {}
        invariant todo <= tunnels.Keys && n == |counted|
        invariant forall id :: id in counted <==> id in tunnels && id !in todo && tunnels[id].owner == owner
        decreases |todo|
      {
        var id :| id in todo;
        todo := todo - {id};
        if tunnels[id].owner == owner {
          n := n + 1;
          counted := counted + {id};
        }
      }
      assert counted == Owned(tunnels, owner);
    }
  }
}
