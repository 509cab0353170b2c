/**
  One session as the program runs it: a loop over control frames that calls
  into the shared registry, and the disposition of its tunnels at the end. Its
  ghost trace shows that all it does is take steps of the concurrent system.
 */
module SessionTask {
  import opened Bytes
  import opened Registry
  import opened RegistryTable
  import opened Sessions
  import opened SessionRuns

  /**
    A registration request with what the surroundings decide about it: whether
    it passes the admission checks, the result of binding a listener, the
    accept task that will be spawned, and whether the reply can be sent.
   */
  datatype Frame =
    | Ping(replied: bool)
    | ListPeers(replied: bool)
    | RegisterTunnel(name: string, tcp: bool, resume: Option<SessionId>, inspect: bool, admitted: bool,
                     allow: Option<seq<U16>>, listener: Option<Listener>, abort: AbortHandle, replied: bool)
    | UnregisterTunnel(id: TunnelId)
    | ByeFrame
    | Unexpected

  datatype Verdict = Continue | Stop(how: End)

  /** A Bye ends the session for good; so does a frame that is out of place or cannot be answered. */
  function VerdictOf(f: Frame): (v: Verdict)
    ensures v == Stop(Bye) <==> f.ByeFrame?
    ensures v == Stop(Terminal) <==> f.Unexpected? || ((f.Ping? || f.ListPeers? || f.RegisterTunnel?) && !f.replied)
    ensures v != Stop(Dropped)
  {
    match f
    case ByeFrame => Stop(Bye)
    case Unexpected => Stop(Terminal)
    case UnregisterTunnel(_) => Continue
    case _ => if f.replied then Continue else Stop(Terminal)
  }

  /**
    How a session ends after answering the first `k` frames: by the last of
    them, by a halt while waiting for the next, or by the stream breaking off.
   */
  ghost predicate EndsAs(how: End, frames: seq<Frame>, halted: nat -> bool, k: nat) {
    && k <= |frames|
    && (forall i :: 0 <= i < k ==> !halted(i))
    && (forall i :: 0 <= i < k - 1 ==> VerdictOf(frames[i]) == Continue)
    && var open := k > 0 ==> VerdictOf(frames[k - 1]) == Continue;
       && (how == Bye <==> k > 0 && frames[k - 1].ByeFrame?)
       && (how == Terminal <==> (k > 0 && VerdictOf(frames[k - 1]) == Stop(Terminal)) || (open && halted(k)))
       && (how == Dropped <==> k == |frames| && open && !halted(k))
  }

  /** The first `i` frames were answered and the session goes on. */
  ghost predicate GoesOn(frames: seq<Frame>, halted: nat -> bool, i: nat) {
    i <= |frames| && forall j :: 0 <= j < i ==> VerdictOf(frames[j]) == Continue && !halted(j)
  }

  lemma WaitEnds(frames: seq<Frame>, halted: nat -> bool, i: nat)
    requires GoesOn(frames, halted, i)
    ensures halted(i) ==> EndsAs(Terminal, frames, halted, i)
    ensures !halted(i) && i == |frames| ==> EndsAs(Dropped, frames, halted, i)
  {
  }

  lemma FrameEnds(frames: seq<Frame>, halted: nat -> bool, i: nat)
    requires GoesOn(frames, halted, i) && i < |frames| && !halted(i)
    ensures VerdictOf(frames[i]).Stop? ==> EndsAs(VerdictOf(frames[i]).how, frames, halted, i + 1)
    ensures VerdictOf(frames[i]) == Continue ==> GoesOn(frames, halted, i + 1)
  {
  }

  class Task {
    const reg: TunnelRegistry
    const sid: SessionId
    const owner: PubKey
    const connection: Connection
    const maxConns: Option<nat>
    const rate: RateState
    const domainMode: bool
    ghost var worlds: seq<World>
    ghost var events: seq<Event>

    ghost function Cfg(): Config { Config(reg.portLo, reg.portHi) }

    ghost predicate Traced()
      reads this
    {
      Trace(worlds, events, Cfg())
    }

    ghost function Last(): World
      requires Traced()
      reads this
    {
      worlds[|worlds| - 1]
    }

    ghost function Me(pc: Pc): Session { Session(owner, connection, maxConns, rate, pc) }

    /** The trace ends in the table's present state with this session where it says. */
    ghost predicate Standing(pc: Pc)
      reads this, reg
    {
      && Traced() && Last().reg == reg.Value() && Last().now == worlds[0].now
      && sid in Last().sessions && Last().sessions[sid] == Me(pc)
    }

    /** The session has connected: its first step. */
    constructor (reg: TunnelRegistry, ghost w: World, sid: SessionId, owner: PubKey, connection: Connection,
                 maxConns: Option<nat>, rate: RateState, domainMode: bool)
      requires w.reg == reg.Value() && sid !in w.owners
      ensures this.reg == reg && this.sid == sid && this.owner == owner && this.connection == connection
      ensures this.maxConns == maxConns && this.rate == rate && this.domainMode == domainMode
      ensures Standing(Idle) && |worlds| == 2 && worlds[0] == w
      ensures events == [Connect(sid, owner, connection, maxConns, rate)]
    {
      this.reg, this.sid, this.owner, this.connection := reg, sid, owner, connection;
      this.maxConns, this.rate, this.domainMode := maxConns, rate, domainMode;
      var e := Connect(sid, owner, connection, maxConns, rate);
      worlds := [w, Apply(w, e, Config(reg.portLo, reg.portHi))];
      events := [e];
    }

    /** The steps of a fresh registration, from the cap check on. */
    ghost function FreshSteps(w: World, f: Frame): seq<Event>
      requires f.RegisterTunnel? && sid in w.sessions
    {
      if !UnderCap(w.reg, w.sessions[sid]) then [CheckCap(sid)]
      else [CheckCap(sid)] + if f.tcp then TcpSteps(w.reg.usedPorts, f) else HttpSteps(w.reg.usedLabels, f)
    }

    ghost function HttpSteps(used: set<string>, f: Frame): seq<Event>
      requires f.RegisterTunnel?
    {
      if !f.admitted then [Decline(sid)]
      else if f.name in used then [Event.AllocateHttp(sid, f.name)]
      else [Event.AllocateHttp(sid, f.name), PublishHttp(sid, f.inspect)]
    }

    ghost function TcpSteps(used: set<U16>, f: Frame): seq<Event>
      requires f.RegisterTunnel?
    {
      if !f.admitted then [Decline(sid)]
      else if PickFreePort(reg.portLo, reg.portHi, used, f.allow).None? then [Event.AllocateTcp(sid, f.allow)]
      else if f.listener.None? then [Event.AllocateTcp(sid, f.allow), BindFailed(sid)]
      else [Event.AllocateTcp(sid, f.allow), PublishTcp(sid, f.listener.value, f.abort, f.inspect)]
    }

    ghost function ResumeOf(f: Frame, found: Option<TunnelId>): Event
      requires f.RegisterTunnel? && f.resume.Some?
    {
      Event.Resume(sid, f.name, f.resume.value, found)
    }

    ghost function OutcomeOf(w: World, f: Frame, found: Option<TunnelId>): Outcome
      requires f.RegisterTunnel? && f.resume.Some?
    {
      TryResume(w.reg, f.name, f.resume.value, owner, connection, found).1
    }

    /** What a resume attempt does before any fresh registration: the attempt, and a re-attached tunnel's follow-up. */
    ghost function ResumeSteps(w: World, f: Frame, found: Option<TunnelId>): seq<Event>
      requires f.RegisterTunnel? && f.resume.Some?
    {
      var out := OutcomeOf(w, f, found);
      [ResumeOf(f, found)] +
      if !out.Reattached? then []
      else if out.info.ResumedTcp? then [RecordAbort(sid, f.abort)]
      else if !domainMode && f.replied then [Unregister(sid, out.id)]
      else []
    }

    /** Every step of answering a registration request. */
    ghost function RegisterSteps(w: World, f: Frame, found: Option<TunnelId>): seq<Event>
      requires f.RegisterTunnel? && sid in w.sessions
      requires f.resume.Some? ==> Enabled(w, ResumeOf(f, found))
    {
      if f.resume.None? then FreshSteps(w, f)
      else if !OutcomeOf(w, f, found).Unknown? then ResumeSteps(w, f, found)
      else ResumeSteps(w, f, found) + FreshSteps(Apply(w, ResumeOf(f, found), Cfg()), f)
    }

    /** Record one step. */
    ghost method Note(e: Event)
      requires Traced() && Enabled(Last(), e)
      modifies this`worlds, this`events
      ensures Traced() && Last() == Apply(old(Last()), e, Cfg())
      ensures events == old(events) + [e] && old(worlds) <= worlds
    {
      worlds := worlds + [Apply(Last(), e, Cfg())];
      events := events + [e];
    }

    method RegisterHttp(f: Frame) returns (id: Option<TunnelId>)
      requires f.RegisterTunnel? && Standing(Checked)
      modifies this`worlds, this`events, reg
      ensures Standing(Idle) && old(worlds) <= worlds
      ensures events == old(events) + HttpSteps(old(reg.usedLabels), f)
      ensures id.Some? <==> f.admitted && f.name !in old(reg.usedLabels)
      ensures id.None? ==> reg.Value() == old(reg.Value())
      ensures id.Some? ==>
                && id.value == old(reg.nextId) && id.value in reg.tunnels
                && reg.tunnels[id.value] == Tunnel(id.value, owner, sid, Http(f.name), Live(connection, None), None, rate, f.inspect)
    {
      if !f.admitted {
        Note(Decline(sid));
        return None;
      }
      id := reg.AllocateHttp(f.name);
      Note(Event.AllocateHttp(sid, f.name));
      if id.None? {
        return;
      }
      reg.Publish(Tunnel(id.value, owner, sid, Http(f.name), Live(connection, None), None, rate, f.inspect));
      Note(PublishHttp(sid, f.inspect));
    }

    /** A failed bind leaves the port reserved. */
    method RegisterTcp(f: Frame) returns (id: Option<TunnelId>)
      requires f.RegisterTunnel? && Standing(Checked)
      modifies this`worlds, this`events, reg
      ensures Standing(Idle) && old(worlds) <= worlds
      ensures events == old(events) + TcpSteps(old(reg.usedPorts), f)
      ensures var port := PickFreePort(reg.portLo, reg.portHi, old(reg.usedPorts), f.allow);
              && (id.Some? <==> f.admitted && port.Some? && f.listener.Some?)
              && (id.Some? ==>
                    && id.value in reg.tunnels
                    && reg.tunnels[id.value] == Tunnel(id.value, owner, sid, Tcp(port.value), Live(connection, Some(f.abort)),
                                                       f.listener, rate, f.inspect))
    {
      if !f.admitted {
        Note(Decline(sid));
        return None;
      }
      var a := reg.AllocateTcp(f.allow);
      Note(Event.AllocateTcp(sid, f.allow));
      if a.None? {
        return None;
      }
      var (i, port) := a.value;
      if f.listener.None? {
        Note(BindFailed(sid));
        return None;
      }
      reg.Publish(Tunnel(i, owner, sid, Tcp(port), Live(connection, Some(f.abort)), f.listener, rate, f.inspect));
      Note(PublishTcp(sid, f.listener.value, f.abort, f.inspect));
      return Some(i);
    }

    /** A fresh registration, under the cap. */
    method RegisterFresh(f: Frame)
      requires f.RegisterTunnel? && Standing(Idle)
      modifies this`worlds, this`events, reg
      ensures Standing(Idle) && old(worlds) <= worlds
      ensures events == old(events) + FreshSteps(old(Last()), f)
    {
      var live := reg.Count(owner);
      Note(CheckCap(sid));
      if maxConns.Some? && live >= maxConns.value {
        return;
      }
      if f.tcp {
        var _ := RegisterTcp(f);
      } else {
        var _ := RegisterHttp(f);
      }
    }

    /** The resume part of a registration: only a lease of the named session and this key is re-attached. */
    method TryReattach(f: Frame) returns (out: Outcome, ghost found: Option<TunnelId>)
      requires f.RegisterTunnel? && f.resume.Some? && Standing(Idle)
      modifies this`worlds, this`events, reg
      ensures Standing(Idle) && old(worlds) <= worlds
      ensures Enabled(old(Last()), ResumeOf(f, found)) && out == OutcomeOf(old(Last()), f, found)
      ensures events == old(events) + ResumeSteps(old(Last()), f, found)
      ensures !out.Reattached? ==> Last() == Apply(old(Last()), ResumeOf(f, found), Cfg())
      ensures out.Reattached? ==>
                && out.id in old(reg.tunnels) && old(reg.tunnels)[out.id].lease.Dangling?
                && old(reg.tunnels)[out.id].session == f.resume.value && old(reg.tunnels)[out.id].owner == owner
    {
      out, found := reg.Resume(f.name, f.resume.value, owner, connection);
      Note(ResumeOf(f, found));
      if out.Reattached? {
        match out.info
        case ResumedTcp(_, _) =>
          reg.SetAbort(out.id, f.abort);
          Note(RecordAbort(sid, f.abort));
        case ResumedHttp(_) =>
          if !domainMode && f.replied {
            reg.RemoveLocked(out.id);
            Note(Unregister(sid, out.id));
          }
      }
    }

    /** Resume if asked to and possible; otherwise a fresh registration. */
    method Register(f: Frame) returns (ghost found: Option<TunnelId>)
      requires f.RegisterTunnel? && Standing(Idle)
      modifies this`worlds, this`events, reg
      ensures Standing(Idle) && old(worlds) <= worlds
      ensures f.resume.Some? ==> Enabled(old(Last()), ResumeOf(f, found))
      ensures events == old(events) + RegisterSteps(old(Last()), f, found)
    {
      found := None;
      if f.resume.Some? {
        var out;
        out, found := TryReattach(f);
        if !out.Unknown? {
          return;
        }
      }
      RegisterFresh(f);
    }

    /** The steps of answering one frame. */
    ghost function FrameSteps(w: World, f: Frame, found: Option<TunnelId>): seq<Event>
      requires sid in w.sessions
      requires f.RegisterTunnel? && f.resume.Some? ==> Enabled(w, ResumeOf(f, found))
    {
      match f
      case RegisterTunnel(_, _, _, _, _, _, _, _, _) => RegisterSteps(w, f, found)
      case UnregisterTunnel(id) => [Unregister(sid, id)]
      case _ => []
    }

    /** Steps `a` to `b` of a trace answer the frame, from the world before them. */
    ghost predicate Answers(ws: seq<World>, es: seq<Event>, a: nat, b: nat, f: Frame, found: Option<TunnelId>) {
      && a <= b <= |es| && a < |ws| && sid in ws[a].sessions
      && (f.RegisterTunnel? && f.resume.Some? ==> Enabled(ws[a], ResumeOf(f, found)))
      && es[a..b] == FrameSteps(ws[a], f, found)
    }

    /** The frames were answered one after the other, each from the world the one before it left. */
    ghost predicate AllAnswered(ws: seq<World>, es: seq<Event>, marks: seq<nat>, fs: seq<Frame>, founds: seq<Option<TunnelId>>) {
      && |marks| == |fs| + 1 && |founds| == |fs| && marks[|fs|] == |es|
      && forall i :: 0 <= i < |fs| ==> Answers(ws, es, marks[i], marks[i + 1], fs[i], founds[i])
    }

    lemma AnswersOnward(ws: seq<World>, es: seq<Event>, ws': seq<World>, es': seq<Event>, marks: seq<nat>,
                        fs: seq<Frame>, founds: seq<Option<TunnelId>>, f: Frame, found: Option<TunnelId>)
      requires AllAnswered(ws, es, marks, fs, founds) && ws <= ws' && es <= es' && |es| < |ws|
      requires Answers(ws', es', |es|, |es'|, f, found)
      ensures AllAnswered(ws', es', marks + [|es'|], fs + [f], founds + [found])
    {
      var marks', fs', founds' := marks + [|es'|], fs + [f], founds + [found];
      forall i | 0 <= i < |fs'| ensures Answers(ws', es', marks'[i], marks'[i + 1], fs'[i], founds'[i]) {
        if i < |fs| {
          assert Answers(ws, es, marks[i], marks[i + 1], fs[i], founds[i]);
          assert es'[marks[i]..marks[i + 1]] == es[marks[i]..marks[i + 1]];
        }
      }
    }

    method Dispatch(f: Frame) returns (v: Verdict, ghost found: Option<TunnelId>)
      requires Standing(Idle)
      modifies this`worlds, this`events, reg
      ensures Standing(Idle) && old(worlds) <= worlds
      ensures f.RegisterTunnel? && f.resume.Some? ==> Enabled(old(Last()), ResumeOf(f, found))
      ensures events == old(events) + FrameSteps(old(Last()), f, found)
      ensures v == VerdictOf(f)
    {
      found := None;
      match f
      case Ping(replied) =>
        v := if replied then Continue else Stop(Terminal);
      case ListPeers(replied) =>
        v := if replied then Continue else Stop(Terminal);
      case RegisterTunnel(_, _, _, _, _, _, _, _, replied) =>
        found := Register(f);
        v := if replied then Continue else Stop(Terminal);
      case UnregisterTunnel(id) =>
        reg.RemoveLocked(id);
        Note(Unregister(sid, id));
        v := Continue;
      case ByeFrame =>
        v := Stop(Bye);
      case Unexpected =>
        v := Stop(Terminal);
    }

    /** One more frame is answered. */
    method AnswerNext(f: Frame, ghost fs: seq<Frame>, ghost marks: seq<nat>, ghost founds: seq<Option<TunnelId>>)
      returns (v: Verdict, ghost marks': seq<nat>, ghost founds': seq<Option<TunnelId>>)
      requires Standing(Idle) && AllAnswered(worlds, events, marks, fs, founds)
      modifies this`worlds, this`events, reg
      ensures Standing(Idle) && old(worlds) <= worlds && old(events) <= events
      ensures v == VerdictOf(f)
      ensures AllAnswered(worlds, events, marks', fs + [f], founds') && marks'[0] == marks[0]
    {
      ghost var found;
      v, found := Dispatch(f);
      marks', founds' := marks + [|events|], founds + [found];
      assert events[|old(events)|..|events|] == FrameSteps(old(worlds)[|old(events)|], f, found);
      AnswersOnward(old(worlds), old(events), worlds, events, marks, fs, founds, f, found);
    }

    /** Frames in order until one ends the session, a halt is signalled while waiting for the next, or the stream breaks off. */
    method Run(frames: seq<Frame>, halted: nat -> bool)
      returns (how: End, ghost k: nat, ghost marks: seq<nat>, ghost founds: seq<Option<TunnelId>>)
      requires Standing(Idle)
      modifies this`worlds, this`events, reg
      ensures Standing(Idle) && old(worlds) <= worlds && old(events) <= events
      ensures EndsAs(how, frames, halted, k)
      ensures AllAnswered(worlds, events, marks, frames[..k], founds) && marks[0] == |old(events)|
    {
      var i := 0;
      marks, founds := [|events|], [];
      while i < |frames|
        invariant GoesOn(frames, halted, i) && Standing(Idle) && old(worlds) <= worlds && old(events) <= events
        invariant AllAnswered(worlds, events, marks, frames[..i], founds) && marks[0] == |old(events)|
      {
        WaitEnds(frames, halted, i);
        if halted(i) {
          return Terminal, i, marks, founds;
        }
        FrameEnds(frames, halted, i);
        var v;
        v, marks, founds := AnswerNext(frames[i], frames[..i], marks, founds);
        assert frames[..i] + [frames[i]] == frames[..i + 1];
        if v.Stop? {
          return v.how, i + 1, marks, founds;
        }
        i := i + 1;
      }
      WaitEnds(frames, halted, i);
      how, k := if halted(i) then Terminal else Dropped, i;
    }

    /** What becomes of the key's tunnels: kept for a grace period after a drop, removed after any other end. */
    method Dispose(how: End, now: Instant, grace: nat)
      requires Standing(Idle) && worlds[0].now <= now
      modifies this`worlds, this`events, reg
      ensures Traced() && Last().reg == reg.Value() && old(worlds) <= worlds
      ensures sid !in Last().sessions && events == old(events) + [Tick(now - old(Last()).now), Finish(sid, how, grace)]
      ensures worlds[|old(events)| + 1].now == now
      ensures how != Dropped ==>
                && sid in Last().over
                && reg.tunnels == map id | id in old(reg.tunnels) && old(reg.tunnels)[id].owner != owner :: old(reg.tunnels)[id]
      ensures how == Dropped ==>
                && reg.tunnels.Keys == old(reg.tunnels).Keys
                && forall id :: id in reg.tunnels ==>
                     reg.tunnels[id] == if old(reg.tunnels)[id].owner == owner && old(reg.tunnels)[id].lease.Live?
                                        then old(reg.tunnels)[id].(lease := Dangling(now + grace)) else old(reg.tunnels)[id]
    {
      Note(Tick(now - Last().now));
      if how == Dropped {
        reg.MarkAllDangling(owner, now, grace);
      } else {
        reg.RemoveAllOwnedBy(owner);
      }
      Note(Finish(sid, how, grace));
    }
  }

  /**
    A connection from authentication to disposition is a sequence of steps of
    the concurrent system: the session connects, answers its frames in order
    up to the one it ends with, and is finished accordingly.
   */
  method HandleConnection(reg: TunnelRegistry, ghost w: World, sid: SessionId, owner: PubKey, connection: Connection,
                          maxConns: Option<nat>, rate: RateState, domainMode: bool,
                          frames: seq<Frame>, halted: nat -> bool, now: Instant, grace: nat)
    returns (how: End, ghost t: Task, ghost k: nat, ghost marks: seq<nat>, ghost founds: seq<Option<TunnelId>>)
    requires w.reg == reg.Value() && sid !in w.owners && w.now <= now
    modifies reg
    ensures t.reg == reg && t.sid == sid && t.owner == owner && t.connection == connection
    ensures t.maxConns == maxConns && t.rate == rate && t.domainMode == domainMode
    ensures EndsAs(how, frames, halted, k)
    ensures Trace(t.worlds, t.events, Config(reg.portLo, reg.portHi)) && t.worlds[0] == w
    ensures |marks| == k + 1 && marks[0] == 1 && |t.events| == marks[k] + 2
    ensures t.events[0] == Connect(sid, owner, connection, maxConns, rate)
    ensures t.AllAnswered(t.worlds[..marks[k] + 1], t.events[..marks[k]], marks, frames[..k], founds)
    ensures t.events[marks[k]].Tick? && t.events[marks[k] + 1] == Finish(sid, how, grace)
    ensures t.worlds[marks[k] + 1].now == now
    ensures t.worlds[|t.events|].reg == reg.Value() && sid !in t.worlds[|t.events|].sessions
    ensures how != Dropped ==> sid in t.worlds[|t.events|].over
  {
    var task := new Task(reg, w, sid, owner, connection, maxConns, rate, domainMode);
    how, k, marks, founds := task.Run(frames, halted);
    ghost var ws, es := task.worlds, task.events;
    task.Dispose(how, now, grace);
    t := task;
    assert t.events[..|es|] == es && t.worlds[..|es| + 1] == ws;
  }

  /** The reaper's periodic pass is the reaping step. */
  method ReapOnce(reg: TunnelRegistry, ghost w: World, now: Instant) returns (n: nat, ghost w': World)
    requires w.reg == reg.Value() && w.now == now
    modifies reg
    ensures Enabled(w, Reap) && w' == Apply(w, Reap, Config(reg.portLo, reg.portHi)) && w'.reg == reg.Value()
    ensures n == |Expired(w.reg.tunnels, w.now)|
  {
    n := reg.ReapExpired(now);
    w' := Apply(w, Reap, Config(reg.portLo, reg.portHi));
  }
}
