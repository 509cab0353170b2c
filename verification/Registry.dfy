/**
  The tunnel registry: allocation of ids, ports and labels, the reverse index
  from labels to tunnels, and the Live/Dangling lease of every tunnel. Each
  function is one critical section of the shared table.
 */
module Registry {
  import opened Bytes

  // Opaque tokens of the surrounding program.
  type PubKey = nat
  type SessionId = nat
  type Connection = nat
  type AbortHandle = nat
  type Listener = nat
  type RateState = nat
  type TunnelId = U64

  const MAX_ID: U64 := TWO_64 - 1

  datatype Kind = Tcp(port: U16) | Http(name: string)

  datatype Lease =
    | Live(connection: Connection, abort: Option<AbortHandle>)
    | Dangling(expiresAt: Instant)

  datatype Tunnel = Tunnel(
    id: TunnelId, owner: PubKey, session: SessionId, kind: Kind, lease: Lease,
    listener: Option<Listener>, rate: RateState, inspect: bool)

  datatype State = State(
    nextId: U64, usedPorts: set<U16>, usedLabels: set<string>,
    tunnels: map<TunnelId, Tunnel>, labels: map<string, TunnelId>)

  const EMPTY: State := State(1, {}, {}, map[], map[])

  // ---------------- allocation ----------------

  /** Ids count up and wrap to one. */
  function NextId(id: U64): U64 { if id == MAX_ID then 1 else id + 1 }

  predicate Eligible(p: U16, used: set<U16>, allow: Option<seq<U16>>) {
    p !in used && (allow.Some? ==> p in allow.value)
  }

  /** The lowest eligible port of `lo..=hi`. */
  function PickFreePort(lo: nat, hi: U16, used: set<U16>, allow: Option<seq<U16>>): (r: Option<U16>)
    ensures r.Some? ==>
              && lo <= r.value <= hi && Eligible(r.value, used, allow)
              && forall p: U16 :: lo <= p < r.value ==> !Eligible(p, used, allow)
    ensures r.None? ==> forall p: U16 :: lo <= p <= hi ==> !Eligible(p, used, allow)
    decreases hi as int + 1 - lo
  {
    if lo > hi then None
    else if Eligible(lo, used, allow) then Some(lo)
    else PickFreePort(lo + 1, hi, used, allow)
  }

  /** A port is picked exactly when it is free and allowed and no lower one of the range is. */
  lemma PickedIff(lo: U16, hi: U16, used: set<U16>, allow: Option<seq<U16>>, port: U16)
    ensures PickFreePort(lo, hi, used, allow) == Some(port) <==>
            && lo <= port <= hi && port !in used && (allow.Some? ==> port in allow.value)
            && forall p: U16 :: lo <= p < port ==> p in used || (allow.Some? && p !in allow.value)
  {
    forall p: U16
      ensures Eligible(p, used, allow) <==> !(p in used || (allow.Some? && p !in allow.value))
    {
    }
  }

  /** The id of the `k`-th allocation of a registry. */
  function IssuedId(k: nat): U64 { if k == 0 then EMPTY.nextId else NextId(IssuedId(k - 1)) }

  /** Ids start at one, count up, and come round to one again; zero is never issued. */
  lemma {:induction false} IdsCycle(k: nat)
    ensures IssuedId(k) == 1 + k % MAX_ID
  {
    if k > 0 { IdsCycle(k - 1); }
  }

  /** The reserved port and the table afterwards. The id handed out is the old `nextId`. */
  function ReservePort(s: State, port: U16): State {
    s.(usedPorts := s.usedPorts + {port}, nextId := NextId(s.nextId))
  }

  function ReserveLabel(s: State, name: string): State {
    s.(usedLabels := s.usedLabels + {name}, nextId := NextId(s.nextId))
  }

  function Insert(s: State, t: Tunnel): State {
    s.(labels := if t.kind.Http? then s.labels[t.kind.name := t.id] else s.labels,
       tunnels := s.tunnels[t.id := t])
  }

  // ---------------- lookups ----------------

  datatype Resolved = Resolved(id: TunnelId, connection: Connection, rate: RateState, inspect: bool)

  function ResolveLabel(s: State, name: string): Option<Resolved> {
    if name in s.labels && s.labels[name] in s.tunnels then
      var t := s.tunnels[s.labels[name]];
      if t.lease.Live? then Some(Resolved(s.labels[name], t.lease.connection, t.rate, t.inspect)) else None
    else None
  }

  function Owned(m: map<TunnelId, Tunnel>, owner: PubKey): set<TunnelId> {
    set id | id in m && m[id].owner == owner
  }

  function CountOwnedBy(s: State, owner: PubKey): nat { |Owned(s.tunnels, owner)| }

  // ---------------- removal ----------------

  function PortsOf(m: map<TunnelId, Tunnel>): set<U16> {
    set id | id in m && m[id].kind.Tcp? :: m[id].kind.port
  }

  function LabelsOf(m: map<TunnelId, Tunnel>): set<string> {
    set id | id in m && m[id].kind.Http? :: m[id].kind.name
  }

  function Only(m: map<TunnelId, Tunnel>, ids: set<TunnelId>): map<TunnelId, Tunnel> {
    map id | id in m && id in ids :: m[id]
  }

  /** Remove every listed tunnel and free what it held. */
  function RemoveAll(s: State, ids: set<TunnelId>): State {
    var gone := Only(s.tunnels, ids);
    s.(tunnels := s.tunnels - ids,
       usedPorts := s.usedPorts - PortsOf(gone),
       usedLabels := s.usedLabels - LabelsOf(gone),
       labels := s.labels - LabelsOf(gone))
  }

  function Expired(m: map<TunnelId, Tunnel>, now: Instant): set<TunnelId> {
    set id | id in m && m[id].lease.Dangling? && m[id].lease.expiresAt <= now
  }

  // ---------------- leases ----------------

  function Dangle(t: Tunnel, owner: PubKey, expiresAt: Instant): Tunnel {
    if t.owner == owner && t.lease.Live? then t.(lease := Dangling(expiresAt)) else t
  }

  function MarkDangling(s: State, owner: PubKey, expiresAt: Instant): State {
    s.(tunnels := map id | id in s.tunnels :: Dangle(s.tunnels[id], owner, expiresAt))
  }

  datatype Resumed = ResumedHttp(name: string) | ResumedTcp(port: U16, listener: Listener)

  datatype Outcome =
    | Reattached(id: TunnelId, info: Resumed, inspect: bool)
    | Unknown
    | IdentityMismatch

  predicate TcpLease(t: Tunnel, session: SessionId) {
    t.session == session && t.lease.Dangling? && t.kind.Tcp?
  }

  /**
    The tunnel a resume looks at: the holder of the name if there is one,
    otherwise some dangling TCP tunnel of the session. `found` is the answer
    of the scan, which visits the table in no particular order.
   */
  function Candidate(s: State, name: string, found: Option<TunnelId>): Option<TunnelId> {
    if name in s.labels then Some(s.labels[name]) else found
  }

  ghost predicate ScanFound(s: State, session: SessionId, found: Option<TunnelId>) {
    match found
    case Some(id) => id in s.tunnels && TcpLease(s.tunnels[id], session)
    case None => forall id :: id in s.tunnels ==> !TcpLease(s.tunnels[id], session)
  }

  /** The scan only happens when no HTTP tunnel holds the name. */
  ghost predicate ScanOK(s: State, name: string, session: SessionId, found: Option<TunnelId>) {
    name !in s.labels ==> ScanFound(s, session, found)
  }

  /** The lease is swapped to Live before the listener is looked at, as in the program. */
  function TryResume(s: State, name: string, session: SessionId, key: PubKey,
                     connection: Connection, found: Option<TunnelId>): (State, Outcome)
  {
    match Candidate(s, name, found)
    case None => (s, Unknown)
    case Some(id) =>
      if id !in s.tunnels then (s, Unknown)
      else
        var t := s.tunnels[id];
        if !t.lease.Dangling? || t.session != session then (s, Unknown)
        else if t.owner != key then (s, IdentityMismatch)
        else
          var s' := s.(tunnels := s.tunnels[id := t.(lease := Live(connection, None))]);
          match t.kind
          case Http(l) => (s', Reattached(id, ResumedHttp(l), t.inspect))
          case Tcp(port) =>
            if t.listener.None? then (s', Unknown)
            else (s', Reattached(id, ResumedTcp(port, t.listener.value), t.inspect))
  }

  function SetTcpAbort(s: State, id: TunnelId, abort: AbortHandle): State {
    if id in s.tunnels && s.tunnels[id].lease.Live? then
      s.(tunnels := s.tunnels[id := s.tunnels[id].(lease := s.tunnels[id].lease.(abort := Some(abort)))])
    else s
  }

  // ---------------- the table's own invariant ----------------

  /** Each tunnel is filed under its own id, holds its port or name, and TCP tunnels keep a listener. */
  ghost predicate TunnelOK(s: State, id: TunnelId)
    requires id in s.tunnels
  {
    var t := s.tunnels[id];
    && t.id == id && id < s.nextId
    && match t.kind
       case Tcp(port) => port in s.usedPorts && t.listener.Some?
       case Http(name) => name in s.usedLabels && name in s.labels && s.labels[name] == id && t.listener.None?
  }

  ghost predicate SamePort(a: Tunnel, b: Tunnel) { a.kind.Tcp? && b.kind.Tcp? && a.kind.port == b.kind.port }

  ghost predicate TableOK(s: State) {
    && (forall id :: id in s.tunnels ==> TunnelOK(s, id))
    && (forall l :: l in s.labels ==> s.labels[l] in s.tunnels && s.tunnels[s.labels[l]].kind == Http(l))
    && (forall i, j :: i in s.tunnels && j in s.tunnels && i != j ==> !SamePort(s.tunnels[i], s.tunnels[j]))
  }

  /** No two tunnels share a port or a name. */
  lemma NoSharing(s: State, i: TunnelId, j: TunnelId)
    requires TableOK(s) && i in s.tunnels && j in s.tunnels && i != j
    ensures s.tunnels[i].kind != s.tunnels[j].kind && s.tunnels[i].id != s.tunnels[j].id
  {
    assert TunnelOK(s, i) && TunnelOK(s, j);
  }

  /** The reverse index answers what a scan of the whole table would. */
  lemma ResolveAgreesWithScan(s: State, name: string, r: Resolved)
    requires TableOK(s)
    ensures ResolveLabel(s, name) == Some(r) <==>
            exists id :: id in s.tunnels && s.tunnels[id].kind == Http(name) && s.tunnels[id].lease.Live?
              && r == Resolved(id, s.tunnels[id].lease.connection, s.tunnels[id].rate, s.tunnels[id].inspect)
  {
    forall id | id in s.tunnels && s.tunnels[id].kind == Http(name) ensures name in s.labels && s.labels[name] == id {
      assert TunnelOK(s, id);
    }
  }

  /**
    A resume re-attaches exactly one tunnel, dangling under that session and
    key, and changes nothing of it but the lease; otherwise nothing changes.
   */
  lemma ResumeSound(s: State, name: string, session: SessionId, key: PubKey, connection: Connection, found: Option<TunnelId>)
    requires TableOK(s) && ScanOK(s, name, session, found)
    ensures var (s', out) := TryResume(s, name, session, key, connection, found);
            match out
            case Reattached(id, info, inspect) =>
              && id in s.tunnels && s.tunnels[id].lease.Dangling?
              && s.tunnels[id].session == session && s.tunnels[id].owner == key
              && s' == s.(tunnels := s.tunnels[id := s.tunnels[id].(lease := Live(connection, None))])
              && inspect == s.tunnels[id].inspect
              && (match info
                  case ResumedHttp(l) => s.tunnels[id].kind == Http(l)
                  case ResumedTcp(p, listener) => s.tunnels[id].kind == Tcp(p) && s.tunnels[id].listener == Some(listener))
            case _ => s' == s
  {
    var c := Candidate(s, name, found);
    if c.Some? && c.value in s.tunnels { assert TunnelOK(s, c.value); }
  }

  /**
    Without the invariant a failed outcome would leave a swapped lease behind,
    exactly when a matching TCP tunnel has no listener.
   */
  lemma FailedResumeChangesIff(s: State, name: string, session: SessionId, key: PubKey,
                               connection: Connection, found: Option<TunnelId>)
    requires ScanOK(s, name, session, found)
    ensures var (s', out) := TryResume(s, name, session, key, connection, found);
            !out.Reattached? && s' != s <==>
              && Candidate(s, name, found).Some? && Candidate(s, name, found).value in s.tunnels
              && var t := s.tunnels[Candidate(s, name, found).value];
                 t.lease.Dangling? && t.session == session && t.owner == key && t.kind.Tcp? && t.listener.None?
  {
    var c := Candidate(s, name, found);
    if c.Some? && c.value in s.tunnels {
      var t := s.tunnels[c.value];
      var s1 := s.(tunnels := s.tunnels[c.value := t.(lease := Live(connection, None))]);
      if t.lease.Dangling? { assert s1.tunnels[c.value] != s.tunnels[c.value]; }
    }
  }

  /**
    Which answer a resume gets. It is about the holder of the name, or else
    the tunnel the scan found. A lease of that session under another key is a
    mismatch; one's own is re-attached, a TCP tunnel only with its listener;
    anything else is unknown.
   */
  lemma ResumeOutcomes(s: State, name: string, session: SessionId, key: PubKey, connection: Connection, found: Option<TunnelId>)
    ensures var out := TryResume(s, name, session, key, connection, found).1;
            var c := if name in s.labels then Some(s.labels[name]) else found;
            var leased := c.Some? && c.value in s.tunnels && s.tunnels[c.value].lease.Dangling? && s.tunnels[c.value].session == session;
            && (out == IdentityMismatch <==> leased && s.tunnels[c.value].owner != key)
            && (out.Reattached? <==>
                  leased && s.tunnels[c.value].owner == key && (s.tunnels[c.value].kind.Tcp? ==> s.tunnels[c.value].listener.Some?))
            && (out.Reattached? ==>
                  var t := s.tunnels[c.value];
                  out == Reattached(c.value,
                                    match t.kind case Http(l) => ResumedHttp(l) case Tcp(p) => ResumedTcp(p, t.listener.value),
                                    t.inspect))
  {
  }

  /** An HTTP resume succeeds exactly when the name's tunnel dangles under that session and key. */
  lemma HttpResumeIff(s: State, name: string, session: SessionId, key: PubKey, connection: Connection, found: Option<TunnelId>)
    requires TableOK(s) && name in s.labels
    ensures var t := s.tunnels[s.labels[name]];
            TryResume(s, name, session, key, connection, found).1.Reattached?
            <==> t.lease.Dangling? && t.session == session && t.owner == key
  {
    assert TunnelOK(s, s.labels[name]);
  }

  /**
    A TCP lease of the session and key is found exactly when the name sent
    along names no HTTP tunnel; a name that does decides the request alone.
   */
  lemma TcpResumeIff(s: State, name: string, session: SessionId, key: PubKey, connection: Connection,
                     found: Option<TunnelId>, id: TunnelId)
    requires TableOK(s) && ScanOK(s, name, session, found)
    requires forall i :: i in s.tunnels && s.tunnels[i].session == session ==> s.tunnels[i].owner == key
    requires id in s.tunnels && TcpLease(s.tunnels[id], session)
    ensures var out := TryResume(s, name, session, key, connection, found).1;
            out.Reattached? && out.info.ResumedTcp? <==> name !in s.labels
  {
    if name !in s.labels {
      assert found.Some?;
      assert TunnelOK(s, found.value);
    } else {
      assert TunnelOK(s, s.labels[name]);
    }
  }
}
