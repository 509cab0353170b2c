/**
  Draining ends: the writer, the pipe and the reader do a bounded amount of
  work on the frames sent so far, and when they can do no more everything has
  been dispatched. With it, what one state promises is stated for every run.
 */
module MuxDraining {
  import opened Bytes
  import opened MuxWire
  import opened MuxHalves
  import opened MuxSystem
  import opened MuxInvariant
  import opened MuxRuns
  import opened MuxCompleteness

  // ---------------- one direction of the connection ----------------

  function Sender(w: World, toServer: bool): Endpoint { if toServer then w.client else w.server }

  function Receiver(w: World, toServer: bool): Endpoint { if toServer then w.server else w.client }

  /** Steps that carry frames of this direction on. */
  predicate Carries(s: Step, toServer: bool) {
    match s
    case Local(atServer, e) =>
      if atServer == toServer then e.Dispatch? else e.WriterTake? || e.WriterPush?
    case Pull(atServer, _) => atServer == toServer
  }

  // ---------------- the measure ----------------

  function Backlog(fs: seq<Frame>): nat {
    if fs == [] then 0 else 3 * |Encode(fs[0])| + 2 + Backlog(fs[1..])
  }

  function Untaken(o: Outbound): seq<Frame> { if o.taken <= |o.sent| then o.sent[o.taken..] else [] }

  /** A byte is moved at most three times, and each frame is taken once. */
  function Work(o: Outbound, rbuf: seq<Byte>): nat {
    Backlog(Untaken(o)) + 3 * |o.writing| + 2 * |o.pipe| + |rbuf|
  }

  function WorkOf(w: World, toServer: bool): nat {
    Work(Sender(w, toServer).out, Receiver(w, toServer).inb.rbuf)
  }

  lemma TakeWork(o: Outbound, rbuf: seq<Byte>)
    requires o.taken < |o.sent| && o.writing == []
    ensures Work(Take(o), rbuf) < Work(o, rbuf)
  {
    assert o.sent[o.taken..][1..] == o.sent[o.taken + 1..];
  }

  /** One step of the sending side alone. */
  lemma SenderWork(x: Endpoint, e: Event, cap: nat, rbuf: seq<Byte>)
    requires Enabled(x, e, cap) && Apply(x, e, cap).out.sent == x.out.sent
    ensures Work(Apply(x, e, cap).out, rbuf) + (if e.WriterTake? || e.WriterPush? then 1 else 0) <= Work(x.out, rbuf)
  {
    if e.WriterTake? { TakeWork(x.out, rbuf); }
  }

  /** One step of the receiving side alone. */
  lemma ReceiverWork(y: Endpoint, e: Event, cap: nat)
    requires Enabled(y, e, cap)
    ensures |Apply(y, e, cap).inb.rbuf| + (if e.Dispatch? then 1 else 0) <= |y.inb.rbuf|
  {
  }

  /** Work done by one step, without the rest of the world. */
  predicate Works(w: World, s: Step, w': World, toServer: bool) {
    WorkOf(w', toServer) + (if Carries(s, toServer) then 1 else 0) <= WorkOf(w, toServer)
  }

  /** Unless the sender emits a frame, no step adds work, and every step that carries frames on takes some away. */
  lemma StepWork(w: World, s: Step, cap: nat, toServer: bool)
    requires CanStep(w, s, cap) && Sender(DoStep(w, s, cap), toServer).out.sent == Sender(w, toServer).out.sent
    ensures Works(w, s, DoStep(w, s, cap), toServer)
  {
    var x, y := Sender(w, toServer), Receiver(w, toServer);
    match s
    case Local(atServer, e) =>
      if atServer == toServer { ReceiverWork(y, e, cap); } else { SenderWork(x, e, cap, y.inb.rbuf); }
    case Pull(_, n) =>
  }

  // ---------------- over a run ----------------

  function Carried(steps: seq<Step>, n: nat, m: nat, toServer: bool): nat
    requires n <= m <= |steps|
    decreases m
  {
    if n == m then 0 else Carried(steps, n, m - 1, toServer) + if Carries(steps[m - 1], toServer) then 1 else 0
  }

  /** The sender emits nothing between two states. */
  ghost predicate Quiet(ws: seq<World>, n: nat, m: nat, toServer: bool)
    requires n <= m < |ws|
  {
    forall k :: n <= k <= m ==> Sender(ws[k], toServer).out.sent == Sender(ws[n], toServer).out.sent
  }

  lemma WorksAt(ws: seq<World>, steps: seq<Step>, cap: nat, k: nat, toServer: bool)
    requires Run(ws, steps, cap) && k < |steps|
    requires Sender(ws[k + 1], toServer).out.sent == Sender(ws[k], toServer).out.sent
    ensures Works(ws[k], steps[k], ws[k + 1], toServer)
  {
    StepWork(ws[k], steps[k], cap, toServer);
  }

  lemma {:induction false} WorkHistory(ws: seq<World>, steps: seq<Step>, n: nat, m: nat, toServer: bool)
    requires n <= m <= |steps| < |ws| && forall k :: n <= k < m ==> Works(ws[k], steps[k], ws[k + 1], toServer)
    ensures WorkOf(ws[m], toServer) + Carried(steps, n, m, toServer) <= WorkOf(ws[n], toServer)
    decreases m
  {
    if n < m {
      WorkHistory(ws, steps, n, m - 1, toServer);
      assert Works(ws[m - 1], steps[m - 1], ws[m - 1 + 1], toServer);
    }
  }

  /** While the sender is quiet its frames are carried on only so many times as there is work. */
  lemma DrainingEnds(ws: seq<World>, steps: seq<Step>, cap: nat, n: nat, m: nat, toServer: bool)
    requires Run(ws, steps, cap) && n <= m < |ws| && Quiet(ws, n, m, toServer)
    ensures WorkOf(ws[m], toServer) + Carried(steps, n, m, toServer) <= WorkOf(ws[n], toServer)
  {
    forall k | n <= k < m ensures Works(ws[k], steps[k], ws[k + 1], toServer) { WorksAt(ws, steps, cap, k, toServer); }
    WorkHistory(ws, steps, n, m, toServer);
  }

  lemma PairOf(ws: seq<World>, steps: seq<Step>, cap: nat, n: nat, toServer: bool)
    requires Run(ws, steps, cap) && cap < TWO_32 && n < |ws|
    ensures Pair(Sender(ws[n], toServer), Receiver(ws[n], toServer))
  {
    InvAlways(ws, steps, cap, n);
    PairSymmetric(ws[n].client, ws[n].server);
  }

  /**
    In every run: where nothing can be carried on, accepted or read any more,
    and the connection stands, every frame sent has been dispatched.
   */
  lemma StandstillMeansDrained(ws: seq<World>, steps: seq<Step>, cap: nat, n: nat, toServer: bool)
    requires Run(ws, steps, cap) && cap <= MAX_MUX_PAYLOAD && n < |ws|
    requires Sender(ws[n], toServer).out.limit.None?
    requires !Receiver(ws[n], toServer).closed && !Receiver(ws[n], toServer).inb.done
    ensures !Moves(Sender(ws[n], toServer), Receiver(ws[n], toServer)) ==>
              Receiver(ws[n], toServer).inb.seen == Sender(ws[n], toServer).out.sent
  {
    var x, y := Sender(ws[n], toServer), Receiver(ws[n], toServer);
    PairOf(ws, steps, cap, n, toServer);
    HealthyAlways(ws, steps, cap, n);
    if |y.inb.seen| < |x.out.sent| { Progress(x, y); }
    SeenAll(x, y);
  }

  lemma SeenAll(x: Endpoint, y: Endpoint)
    requires Pair(x, y)
    ensures |y.inb.seen| <= |x.out.sent|
    ensures |y.inb.seen| == |x.out.sent| ==> y.inb.seen == x.out.sent
  {
  }

  // ---------------- promises of one state, for every run ----------------

  predicate AtEof(i: Inbound, id: U32) { id in i.recvs && id !in i.dropped && i.recvs[id].eof }

  /** In every run, a reader that has met end-of-stream has read everything, and the stream was finished. */
  lemma EofInRuns(ws: seq<World>, steps: seq<Step>, cap: nat, n: nat, toServer: bool, id: U32)
    requires Run(ws, steps, cap) && cap < TWO_32 && n < |ws|
    requires AtEof(Receiver(ws[n], toServer).inb, id)
    ensures var x, y := Sender(ws[n], toServer), Receiver(ws[n], toServer);
            && id in x.out.sends && id in x.out.wrote && id in y.inb.got && x.out.sends[id].finished
            && y.inb.got[id] == Content(x.out, Own(x.isServer, id), id)
  {
    PairOf(ws, steps, cap, n, toServer);
    EofMeansAll(Sender(ws[n], toServer), Receiver(ws[n], toServer), id);
  }

  /** In every run, a read step that yields nothing into a non-empty buffer has reached the end of a finished stream. */
  lemma ZeroReadInRuns(ws: seq<World>, steps: seq<Step>, cap: nat, k: nat, toServer: bool, id: U32, room: nat)
    requires Run(ws, steps, cap) && cap < TWO_32 && k < |steps| && room > 0
    requires steps[k] == Local(toServer, ReadBytes(id, room))
    ensures var x, y := Sender(ws[k], toServer), Receiver(ws[k], toServer);
            && Enabled(y, ReadBytes(id, room), cap)
            && (ReadFrom(y.inb, id, room).outcome == Ready([]) ==>
                  && id in x.out.sends && id in x.out.wrote && x.out.sends[id].finished
                  && y.inb.got[id] == Content(x.out, Own(x.isServer, id), id))
  {
    var x, y := Sender(ws[k], toServer), Receiver(ws[k], toServer);
    PairOf(ws, steps, cap, k, toServer);
    assert CanStep(ws[k], steps[k], cap);
    if ReadFrom(y.inb, id, room).outcome == Ready([]) { ZeroReadMeansEof(x, y, id, room); }
  }

  /** In every run, a DATA or FIN dispatched belongs to a stream registered before it. */
  lemma NoStrayInRuns(ws: seq<World>, steps: seq<Step>, cap: nat, k: nat, toServer: bool)
    requires Run(ws, steps, cap) && cap < TWO_32 && k < |steps| && steps[k] == Local(toServer, Dispatch)
    ensures var i := Receiver(ws[k], toServer).inb;
            && Inspect(i.rbuf).Complete?
            && (Inspect(i.rbuf).f.header.flag != Open ==> FrameId(Inspect(i.rbuf).f) in i.inbox)
  {
    PairOf(ws, steps, cap, k, toServer);
    assert CanStep(ws[k], steps[k], cap);
    var y := Receiver(ws[k], toServer);
    if Inspect(y.inb.rbuf).f.header.flag != Open { NoStrayFrame(Sender(ws[k], toServer), y); }
  }
}
