/**
  Two mux endpoints joined by two byte pipes, as a transition system. One
  step is one atomic action of one endpoint: an application call, a writer
  or reader task moving bytes, or the reader dispatching a frame.

  Fields named `sent`, `seen`, `wrote`, `got` and `opens` are history: the
  frames ever pushed on the writer queue, the frames ever dispatched, the
  bytes accepted from and handed to the application, the number of opens.
  `Inner.streams` is `streams` (the ids with a live sender) and `inbox` (the
  channel contents by id); the handles the application holds are named by
  stream id, which `MuxInvariant.FreshOnOpen` justifies.
 */
module MuxSystem {
  import opened Bytes
  import opened MuxWire
  import opened MuxHalves

  const STREAM_INBOUND_CAPACITY: nat := 64
  const MAX_OPENS: nat := 0x7FFF_FFFF

  datatype AcceptedStream = AcceptedStream(id: U32, openPayload: seq<Byte>)

  /** Everything on the way out: the send halves, the writer queue, the writer task, the pipe. */
  datatype Outbound = Outbound(
    sends: map<U32, SendHalf>, wrote: map<U32, seq<Byte>>,
    sent: seq<Frame>, taken: nat, limit: Option<nat>,
    writing: seq<Byte>, pipe: seq<Byte>)

  /** Everything on the way in: the reader task, the channels, the accept queue, the recv halves. */
  datatype Inbound = Inbound(
    done: bool, rbuf: seq<Byte>, seen: seq<Frame>,
    streams: set<U32>, inbox: map<U32, seq<Chunk>>, accepts: seq<AcceptedStream>, controlSlot: bool,
    recvs: map<U32, RecvHalf>, got: map<U32, seq<Byte>>, dropped: set<U32>)

  datatype Endpoint = Endpoint(
    isServer: bool, nextId: U32, opens: nat, closed: bool, out: Outbound, inb: Inbound)

  function FirstId(isServer: bool): U32 { if isServer then 1 else 2 }

  function Fresh(isServer: bool): Endpoint {
    Endpoint(
      isServer, FirstId(isServer), 0, false,
      Outbound(map[], map[], [], 0, None, [], []),
      Inbound(
        false, [], [], {CONTROL_STREAM_ID}, map[CONTROL_STREAM_ID := []],
        if isServer then [AcceptedStream(CONTROL_STREAM_ID, Zeros(9))] else [], !isServer,
        map[], map[], {}))
  }

  // ---------------- steps of one endpoint ----------------

  datatype Event =
    | OpenStream
    | AcceptStream
    | WriteBytes(id: U32, buf: seq<Byte>)
    | FinishStream(id: U32)
    | CloseMux
    | WriterTake
    | WriterPush(n: nat)
    | Dispatch
    | ReaderExit
    | ConnectionLost
    | ReadBytes(id: U32, room: nat)
    | DropRecv(id: U32)

  /** `fetch_add(2)` on a 32-bit counter. */
  function NextId(id: U32): U32 { (id + 2) % TWO_32 }

  /** Hand the send half of stream `id` to the application ... */
  function HandSend(o: Outbound, id: U32, pending: Option<seq<Byte>>): Outbound {
    o.(sends := o.sends[id := SendHalf(id, pending, false)], wrote := o.wrote[id := []])
  }

  /** ... and the recv half. */
  function HandRecv(i: Inbound, id: U32, leftover: seq<Byte>): Inbound {
    i.(recvs := i.recvs[id := RecvHalf(leftover, false)], got := i.got[id := []])
  }

  /** Insert a new channel under `id`. */
  function Register(i: Inbound, id: U32): Inbound {
    i.(streams := i.streams + {id}, inbox := i.inbox[id := []])
  }

  function OpenBi(x: Endpoint): Endpoint {
    if x.inb.controlSlot then
      x.(out := HandSend(x.out, CONTROL_STREAM_ID, None),
         inb := HandRecv(x.inb.(controlSlot := false), CONTROL_STREAM_ID, []))
    else
      x.(nextId := NextId(x.nextId), opens := x.opens + 1,
         out := HandSend(x.out, x.nextId, Some([])),
         inb := HandRecv(Register(x.inb, x.nextId), x.nextId, []))
  }

  function Prime(a: AcceptedStream): seq<Byte> {
    if a.id == CONTROL_STREAM_ID then [] else a.openPayload
  }

  function AcceptBi(x: Endpoint): Endpoint
    requires x.inb.accepts != []
  {
    var a := x.inb.accepts[0];
    x.(out := HandSend(x.out, a.id, None),
       inb := HandRecv(x.inb.(accepts := x.inb.accepts[1..]), a.id, Prime(a)))
  }

  /** What a write or a finish does to the outbound side; `accepted` are the bytes taken from the caller. */
  function Emit(o: Outbound, id: U32, e: Emission, accepted: seq<Byte>): Outbound
    requires id in o.wrote
  {
    o.(sends := o.sends[id := e.half], sent := o.sent + e.frames,
       wrote := o.wrote[id := o.wrote[id] + accepted])
  }

  function WriteTo(o: Outbound, closed: bool, id: U32, buf: seq<Byte>): Outbound
    requires id in o.sends && id in o.wrote && o.sends[id].Valid()
  {
    var e := Write(o.sends[id], closed, buf);
    Emit(o, id, e, if e.outcome.Taken? then buf else [])
  }

  function FinishOn(o: Outbound, id: U32): Outbound
    requires id in o.sends && id in o.wrote && o.sends[id].Valid()
  {
    Emit(o, id, Finish(o.sends[id]), [])
  }

  function Take(o: Outbound): Outbound
    requires o.taken < |o.sent|
  {
    o.(taken := o.taken + 1, writing := Encode(o.sent[o.taken]))
  }

  /** The reader's effect of one complete frame. */
  function Deliver(i: Inbound, f: Frame): Inbound {
    var id := f.header.streamId;
    var j := i.(rbuf := [], seen := i.seen + [f]);
    match f.header.flag
    case Open => Register(j, id).(accepts := i.accepts + [AcceptedStream(id, f.payload)])
    case Data =>
      if id in i.streams && id in i.inbox
      then j.(inbox := i.inbox[id := i.inbox[id] + [f.payload]]) else j
    case Fin => j.(streams := i.streams - {id})
  }

  /** The bounded channel has room, or nobody is listening. */
  predicate HasRoom(i: Inbound, f: Frame) {
    var id := f.header.streamId;
    f.header.flag == Data && id in i.streams && id in i.inbox ==>
      |i.inbox[id]| < STREAM_INBOUND_CAPACITY
  }

  function ReadFrom(i: Inbound, id: U32, room: nat): Reception
    requires id in i.recvs && id in i.inbox
  {
    Read(i.recvs[id], i.inbox[id], id !in i.streams, room)
  }

  function Received(r: Reception): seq<Byte> {
    if r.outcome.Ready? then r.outcome.data else []
  }

  function AfterRead(i: Inbound, id: U32, room: nat): Inbound
    requires id in i.recvs && id in i.inbox && id in i.got
  {
    var r := ReadFrom(i, id, room);
    i.(recvs := i.recvs[id := r.half], inbox := i.inbox[id := r.chunks],
       got := i.got[id := i.got[id] + Received(r)])
  }

  /**
    When an event can happen. `cap` bounds the size of one write, and ids are
    minted at most `MAX_OPENS` times per side. The reader task ends on a frame
    it refuses, or at any time on end-of-file or a lost connection; a writer
    task that ends is one that takes no further steps.
   */
  predicate Enabled(x: Endpoint, e: Event, cap: nat) {
    match e
    case OpenStream => !x.closed && (x.inb.controlSlot || x.opens < MAX_OPENS)
    case AcceptStream => x.inb.accepts != []
    case WriteBytes(id, buf) =>
      id in x.out.sends && id in x.out.wrote && x.out.sends[id].Valid() && |buf| <= cap
    case FinishStream(id) => id in x.out.sends && id in x.out.wrote && x.out.sends[id].Valid()
    case CloseMux => !x.closed
    case WriterTake =>
      && x.out.writing == [] && x.out.taken < |x.out.sent|
      && (x.out.limit.Some? ==> x.out.taken < x.out.limit.value)
    case WriterPush(n) => 0 < n <= |x.out.writing|
    case Dispatch =>
      !x.inb.done && Inspect(x.inb.rbuf).Complete? && HasRoom(x.inb, Inspect(x.inb.rbuf).f)
    case ReaderExit => !x.inb.done && Inspect(x.inb.rbuf).Exit?
    case ConnectionLost => !x.inb.done
    case ReadBytes(id, _) => id in x.inb.recvs && id in x.inb.inbox && id in x.inb.got && id !in x.inb.dropped
    case DropRecv(id) => id in x.inb.recvs && id !in x.inb.dropped
  }

  function Apply(x: Endpoint, e: Event, cap: nat): Endpoint
    requires Enabled(x, e, cap)
  {
    match e
    case OpenStream => OpenBi(x)
    case AcceptStream => AcceptBi(x)
    case WriteBytes(id, buf) => x.(out := WriteTo(x.out, x.closed, id, buf))
    case FinishStream(id) => x.(out := FinishOn(x.out, id))
    case CloseMux => x.(closed := true, out := x.out.(limit := Some(|x.out.sent|)))
    case WriterTake => x.(out := Take(x.out))
    case WriterPush(n) =>
      x.(out := x.out.(pipe := x.out.pipe + x.out.writing[..n], writing := x.out.writing[n..]))
    case Dispatch => x.(inb := Deliver(x.inb, Inspect(x.inb.rbuf).f))
    case ReaderExit => x.(closed := true, inb := x.inb.(done := true))
    case ConnectionLost => x.(closed := true, inb := x.inb.(done := true))
    case ReadBytes(id, room) => x.(inb := AfterRead(x.inb, id, room))
    case DropRecv(id) =>
      x.(inb := x.inb.(streams := x.inb.streams - {id}, dropped := x.inb.dropped + {id}))
  }

  // ---------------- the joined system ----------------

  datatype World = World(client: Endpoint, server: Endpoint)

  /** One side acts alone, or its reader pulls bytes out of the peer's pipe. */
  datatype Step = Local(atServer: bool, e: Event) | Pull(atServer: bool, n: nat)

  predicate CanPull(x: Endpoint, y: Endpoint, n: nat) {
    && !x.inb.done && Inspect(x.inb.rbuf).NeedMore?
    && 0 < n <= Min(Inspect(x.inb.rbuf).n, |y.out.pipe|)
  }

  function PullIn(x: Endpoint, y: Endpoint, n: nat): Endpoint
    requires n <= |y.out.pipe|
  {
    x.(inb := x.inb.(rbuf := x.inb.rbuf + y.out.pipe[..n]))
  }

  function PullOut(y: Endpoint, n: nat): Endpoint
    requires n <= |y.out.pipe|
  {
    y.(out := y.out.(pipe := y.out.pipe[n..]))
  }

  predicate CanStep(w: World, s: Step, cap: nat) {
    match s
    case Local(true, e) => Enabled(w.server, e, cap)
    case Local(false, e) => Enabled(w.client, e, cap)
    case Pull(true, n) => CanPull(w.server, w.client, n)
    case Pull(false, n) => CanPull(w.client, w.server, n)
  }

  function DoStep(w: World, s: Step, cap: nat): World
    requires CanStep(w, s, cap)
  {
    match s
    case Local(true, e) => w.(server := Apply(w.server, e, cap))
    case Local(false, e) => w.(client := Apply(w.client, e, cap))
    case Pull(true, n) => World(PullOut(w.client, n), PullIn(w.server, w.client, n))
    case Pull(false, n) => World(PullIn(w.client, w.server, n), PullOut(w.server, n))
  }

  // ---------------- the per-stream protocol ----------------

  function FrameId(f: Frame): U32 { f.header.streamId }

  /** The stream bytes carried by a frame sequence: OPEN and DATA payloads in order. */
  function DataOf(fs: seq<Frame>, id: U32): seq<Byte> {
    if fs == [] then []
    else
      var f := fs[|fs| - 1];
      DataOf(fs[..|fs| - 1], id) + if FrameId(f) == id then f.payload else []
  }

  /** Life of one direction of one stream, as its frames tell it. */
  datatype Phase = Idle | Active | Done | Bad

  function Advance(p: Phase, f: Frame): Phase {
    match (p, f.header.flag)
    case (Idle, Open) => Active
    case (Active, Data) => Active
    case (Active, Fin) => Done
    case _ => Bad
  }

  function Start(lazy: bool): Phase { if lazy then Idle else Active }

  function PhaseFrom(start: Phase, fs: seq<Frame>, id: U32): Phase {
    if fs == [] then start
    else
      var p := PhaseFrom(start, fs[..|fs| - 1], id);
      var f := fs[|fs| - 1];
      if FrameId(f) == id then Advance(p, f) else p
  }

  function PhaseOf(fs: seq<Frame>, id: U32, lazy: bool): Phase {
    PhaseFrom(Start(lazy), fs, id)
  }

  lemma {:induction false} AppendFrames(start: Phase, fs: seq<Frame>, gs: seq<Frame>, id: U32)
    ensures DataOf(fs + gs, id) == DataOf(fs, id) + DataOf(gs, id)
    ensures PhaseFrom(start, fs + gs, id) == PhaseFrom(PhaseFrom(start, fs, id), gs, id)
    decreases |gs|
  {
    if gs == [] {
      assert fs + gs == fs;
    } else {
      var n := |gs| - 1;
      AppendFrames(start, fs, gs[..n], id);
      assert (fs + gs)[..|fs + gs| - 1] == fs + gs[..n];
    }
  }

  /** A stream that never went wrong was never wrong before. */
  lemma {:induction false} PhasePrefix(fs: seq<Frame>, n: nat, id: U32, lazy: bool)
    requires n <= |fs| && PhaseOf(fs, id, lazy) != Bad
    ensures PhaseOf(fs[..n], id, lazy) != Bad
    decreases |fs|
  {
    if n < |fs| {
      PhasePrefix(fs[..|fs| - 1], n, id, lazy);
      assert fs[..|fs| - 1][..n] == fs[..n];
    } else {
      assert fs[..n] == fs;
    }
  }

  lemma {:induction false} DataPrefix(fs: seq<Frame>, n: nat, id: U32)
    requires n <= |fs|
    ensures DataOf(fs[..n], id) <= DataOf(fs, id)
    decreases |fs|
  {
    if n < |fs| {
      DataPrefix(fs[..|fs| - 1], n, id);
      assert fs[..|fs| - 1][..n] == fs[..n];
    } else {
      assert fs[..n] == fs;
    }
  }
}
