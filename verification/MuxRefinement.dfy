/** The joined mux refines a set of independent FIFO byte streams. */
module MuxRefinement {
  import opened Bytes
  import opened MuxWire
  import opened MuxHalves
  import opened MuxSystem
  import opened MuxInvariant
  import opened MuxRuns

  // ---------------- the abstract system ----------------

  /** One end of a FIFO: the bytes put in (or taken out) so far and whether it ended. */
  datatype Tape = Tape(bytes: seq<Byte>, ended: bool)

  /** All streams of one direction: what the writers put in, what the readers took out. */
  datatype Fifos = Fifos(ins: map<U32, Tape>, outs: map<U32, Tape>)

  /**
    Streams do not influence each other: a step touches one stream. A reader
    only ever extends what it has by bytes that are already in its own
    stream, and sees the end only of a finished stream it has read in full.
   */
  ghost predicate FifoStep(d: Fifos, d': Fifos) {
    || d' == d
    || (exists id: U32 :: id !in d.ins && d' == d.(ins := d.ins[id := Tape([], false)]))
    || (exists id: U32 :: id !in d.outs && d' == d.(outs := d.outs[id := Tape([], false)]))
    || (exists id: U32, b: seq<Byte> :: Append(d, d', id, b))
    || (exists id: U32 :: End(d, d', id))
    || (exists id: U32, b: seq<Byte> :: TakeOut(d, d', id, b))
    || (exists id: U32 :: SeeEnd(d, d', id))
  }

  ghost predicate Append(d: Fifos, d': Fifos, id: U32, b: seq<Byte>) {
    id in d.ins && !d.ins[id].ended && d' == d.(ins := d.ins[id := Tape(d.ins[id].bytes + b, false)])
  }

  /** Ending a stream may pad it to nine bytes. */
  ghost predicate End(d: Fifos, d': Fifos, id: U32) {
    && id in d.ins && !d.ins[id].ended
    && (|| d' == d.(ins := d.ins[id := Tape(d.ins[id].bytes, true)])
        || d' == d.(ins := d.ins[id := Tape(Pad(d.ins[id].bytes), true)]))
  }

  ghost predicate TakeOut(d: Fifos, d': Fifos, id: U32, b: seq<Byte>) {
    && b != [] && id in d.ins && id in d.outs && !d.outs[id].ended
    && d.outs[id].bytes + b <= d.ins[id].bytes
    && d' == d.(outs := d.outs[id := Tape(d.outs[id].bytes + b, false)])
  }

  ghost predicate SeeEnd(d: Fifos, d': Fifos, id: U32) {
    && id in d.ins && id in d.outs && d.ins[id].ended && d.outs[id].bytes == d.ins[id].bytes
    && d' == d.(outs := d.outs[id := Tape(d.outs[id].bytes, true)])
  }

  // ---------------- the refinement mapping ----------------

  ghost function InsOf(o: Outbound, isServer: bool): map<U32, Tape> {
    map id: U32 | id in o.sends && id in o.wrote :: Tape(Content(o, Own(isServer, id), id), o.sends[id].finished)
  }

  ghost function OutsOf(i: Inbound): map<U32, Tape> {
    map id: U32 | id in i.recvs && id in i.got :: Tape(i.got[id], i.recvs[id].eof)
  }

  /** The direction from `x` to `y`. */
  ghost function Abs(x: Endpoint, y: Endpoint): Fifos { Fifos(InsOf(x.out, x.isServer), OutsOf(y.inb)) }

  // ---------------- one local step seen as sender and as reader ----------------

  /** How the writers' tapes of an endpoint may change in one of its own steps. */
  ghost predicate InsStep(m: map<U32, Tape>, m': map<U32, Tape>) {
    || m' == m
    || (exists id: U32 :: id !in m && m' == m[id := Tape([], false)])
    || (exists id: U32, b: seq<Byte> :: id in m && !m[id].ended && m' == m[id := Tape(m[id].bytes + b, false)])
    || (exists id: U32 ::
          && id in m && !m[id].ended
          && (m' == m[id := Tape(m[id].bytes, true)] || m' == m[id := Tape(Pad(m[id].bytes), true)]))
  }

  lemma InsStepIsFifoStep(m: map<U32, Tape>, m': map<U32, Tape>, outs: map<U32, Tape>)
    requires InsStep(m, m')
    ensures FifoStep(Fifos(m, outs), Fifos(m', outs))
  {
    var d, d' := Fifos(m, outs), Fifos(m', outs);
    if m' == m {
    } else if id: U32 :| id !in m && m' == m[id := Tape([], false)] {
      assert d' == d.(ins := d.ins[id := Tape([], false)]);
    } else if id: U32, b: seq<Byte> :| id in m && !m[id].ended && m' == m[id := Tape(m[id].bytes + b, false)] {
      assert Append(d, d', id, b);
    } else {
      var id: U32 :| && id in m && !m[id].ended
                     && (m' == m[id := Tape(m[id].bytes, true)] || m' == m[id := Tape(Pad(m[id].bytes), true)]);
      assert End(d, d', id);
    }
  }

  lemma HandSendIns(o: Outbound, isServer: bool, id: U32, pending: Option<seq<Byte>>)
    requires id !in o.sends
    ensures InsStep(InsOf(o, isServer), InsOf(HandSend(o, id, pending), isServer))
  {
    var m, m' := InsOf(o, isServer), InsOf(HandSend(o, id, pending), isServer);
    assert id !in m;
    assert m' == m[id := Tape([], false)];
  }

  /** A write or finish changes the tape of its own stream only. */
  lemma EmitIns(o: Outbound, isServer: bool, id: U32, e: Emission, accepted: seq<Byte>)
    requires id in o.sends && id in o.wrote
    ensures var o' := Emit(o, id, e, accepted);
            InsOf(o', isServer)
            == InsOf(o, isServer)[id := Tape(Content(o', Own(isServer, id), id), e.half.finished)]
  {
  }

  lemma WriteIns(o: Outbound, isServer: bool, closed: bool, id: U32, buf: seq<Byte>)
    requires id in o.sends && id in o.wrote && o.sends[id].Valid()
    ensures InsStep(InsOf(o, isServer), InsOf(WriteTo(o, closed, id, buf), isServer))
  {
    var m, e := InsOf(o, isServer), Write(o.sends[id], closed, buf);
    var accepted := if e.outcome.Taken? then buf else [];
    EmitIns(o, isServer, id, e, accepted);
    assert id in m;
    if o.sends[id].finished || closed {
      assert o.wrote[id] + [] == o.wrote[id];
      assert m[id := m[id]] == m;
    } else {
      assert !m[id].ended && m[id].bytes == o.wrote[id];
    }
  }

  lemma FinishIns(o: Outbound, isServer: bool, id: U32)
    requires id in o.sends && id in o.wrote && o.sends[id].Valid()
    ensures InsStep(InsOf(o, isServer), InsOf(FinishOn(o, id), isServer))
  {
    var m, m' := InsOf(o, isServer), InsOf(FinishOn(o, id), isServer);
    EmitIns(o, isServer, id, Finish(o.sends[id]), []);
    assert o.wrote[id] + [] == o.wrote[id] && id in m;
    if o.sends[id].finished {
      assert m[id := m[id]] == m;
    } else {
      assert !m[id].ended && m[id].bytes == o.wrote[id];
      assert m' == m[id := Tape(m[id].bytes, true)] || m' == m[id := Tape(Pad(m[id].bytes), true)];
    }
  }

  lemma MovedIns(o: Outbound, o': Outbound, isServer: bool)
    requires SameOut(o, o')
    ensures InsOf(o', isServer) == InsOf(o, isServer)
  {
  }

  lemma OpenIns(x: Endpoint, y: Endpoint)
    requires Pair(x, y) && (x.inb.controlSlot || x.opens < MAX_OPENS)
    ensures InsStep(InsOf(x.out, x.isServer), InsOf(OpenBi(x).out, x.isServer))
  {
    if x.inb.controlSlot {
      assert IdOK(x, CONTROL_STREAM_ID);
      HandSendIns(x.out, x.isServer, CONTROL_STREAM_ID, None);
    } else {
      FreshOnOpen(x);
      HandSendIns(x.out, x.isServer, x.nextId, Some([]));
    }
  }

  lemma AcceptIns(x: Endpoint, y: Endpoint)
    requires Pair(x, y) && x.inb.accepts != []
    ensures InsStep(InsOf(x.out, x.isServer), InsOf(AcceptBi(x).out, x.isServer))
  {
    var id := x.inb.accepts[0].id;
    assert IdOK(x, id);
    HandSendIns(x.out, x.isServer, id, None);
  }

  /** As a sender, every step of an endpoint is a step of the FIFOs it writes. */
  lemma LocalIns(x: Endpoint, y: Endpoint, e: Event, cap: nat)
    requires Pair(x, y) && Enabled(x, e, cap)
    ensures InsStep(InsOf(x.out, x.isServer), InsOf(Apply(x, e, cap).out, x.isServer))
  {
    match e
    case OpenStream => OpenIns(x, y);
    case AcceptStream => AcceptIns(x, y);
    case WriteBytes(id, buf) => WriteIns(x.out, x.isServer, x.closed, id, buf);
    case FinishStream(id) => FinishIns(x.out, x.isServer, id);
    case _ => MovedIns(x.out, Apply(x, e, cap).out, x.isServer);
  }

  lemma HandRecvOuts(ins: map<U32, Tape>, i: Inbound, i': Inbound, id: U32, leftover: seq<Byte>)
    requires id !in i.recvs
    requires i'.recvs == i.recvs[id := RecvHalf(leftover, false)] && i'.got == i.got[id := []]
    ensures FifoStep(Fifos(ins, OutsOf(i)), Fifos(ins, OutsOf(i')))
  {
    var d := Fifos(ins, OutsOf(i));
    assert id !in d.outs;
    assert OutsOf(i') == OutsOf(i)[id := Tape([], false)];
    assert Fifos(ins, OutsOf(i')) == d.(outs := d.outs[id := Tape([], false)]);
  }

  /** What a read may do, for a stream whose reader and writer agree. */
  lemma ReadFacts(x: Endpoint, y: Endpoint, id: U32, room: nat)
    requires Pair(x, y)
    requires id in y.inb.recvs && id in y.inb.inbox && id in y.inb.got && id !in y.inb.dropped
    ensures var r := ReadFrom(y.inb, id, room);
            var b := Received(r);
            && (b != [] ==> !y.inb.recvs[id].eof && !r.half.eof)
            && (y.inb.recvs[id].eof ==> r.half.eof)
            && (b != [] || r.half.eof ==>
                  && id in x.out.sends && id in x.out.wrote
                  && y.inb.got[id] + b <= Content(x.out, Own(x.isServer, id), id))
            && (r.half.eof ==>
                  && b == [] && x.out.sends[id].finished
                  && y.inb.got[id] == Content(x.out, Own(x.isServer, id), id))
  {
    var y' := y.(inb := AfterRead(y.inb, id, room));
    var r := ReadFrom(y.inb, id, room);
    assert ReceiverOK(y.inb, Own(x.isServer, id), Own(!x.isServer, id), Minted(!x.isServer, y.opens, id), id);
    assert Pair(x, y') by {
      PairSymmetric(x, y);
      ReadKeeps(y, x, id, room);
      PairSymmetric(y', x);
    }
    PairSafe(x, y', id);
    if r.half.eof {
      EofMeansAll(x, y', id);
      assert y.inb.got[id] + [] == y.inb.got[id];
    }
  }

  lemma ReadTape(i: Inbound, id: U32, room: nat)
    requires id in i.recvs && id in i.inbox && id in i.got
    ensures var r := ReadFrom(i, id, room);
            OutsOf(AfterRead(i, id, room)) == OutsOf(i)[id := Tape(i.got[id] + Received(r), r.half.eof)]
  {
  }

  /** A read extends the reader's tape by bytes already in the stream, or sees its end. */
  lemma ReadOuts(x: Endpoint, y: Endpoint, id: U32, room: nat)
    requires Pair(x, y)
    requires id in y.inb.recvs && id in y.inb.inbox && id in y.inb.got && id !in y.inb.dropped
    ensures FifoStep(Abs(x, y), Abs(x, y.(inb := AfterRead(y.inb, id, room))))
  {
    ReadFacts(x, y, id, room);
    ReadTape(y.inb, id, room);
    var r := ReadFrom(y.inb, id, room);
    TapeStep(InsOf(x.out, x.isServer), OutsOf(y.inb), id, Received(r), r.half.eof);
  }

  lemma TapeStep(ins: map<U32, Tape>, outs: map<U32, Tape>, id: U32, b: seq<Byte>, eof: bool)
    requires id in outs
    requires b != [] ==> !outs[id].ended && !eof
    requires b != [] || eof ==> id in ins && outs[id].bytes + b <= ins[id].bytes
    requires outs[id].ended ==> eof
    requires eof ==> b == [] && ins[id].ended && outs[id].bytes == ins[id].bytes
    ensures FifoStep(Fifos(ins, outs), Fifos(ins, outs[id := Tape(outs[id].bytes + b, eof)]))
  {
    var d, d' := Fifos(ins, outs), Fifos(ins, outs[id := Tape(outs[id].bytes + b, eof)]);
    if b != [] {
      assert TakeOut(d, d', id, b);
    } else {
      assert outs[id].bytes + b == outs[id].bytes;
      if eof {
        assert SeeEnd(d, d', id);
      } else {
        assert outs[id := outs[id]] == outs;
      }
    }
  }

  lemma OpenOuts(x: Endpoint, y: Endpoint)
    requires Pair(x, y) && (y.inb.controlSlot || y.opens < MAX_OPENS)
    ensures FifoStep(Abs(x, y), Abs(x, OpenBi(y)))
  {
    var id := if y.inb.controlSlot then CONTROL_STREAM_ID else y.nextId;
    if !y.inb.controlSlot { FreshOnOpen(y); }
    assert IdOK(y, id);
    HandRecvOuts(InsOf(x.out, x.isServer), y.inb, OpenBi(y).inb, id, []);
  }

  /** As a reader, every step of an endpoint is a step of the FIFOs it reads. */
  lemma LocalOuts(x: Endpoint, y: Endpoint, e: Event, cap: nat)
    requires Pair(x, y) && Enabled(y, e, cap)
    ensures FifoStep(Abs(x, y), Abs(x, Apply(y, e, cap)))
  {
    match e
    case OpenStream => OpenOuts(x, y);
    case AcceptStream =>
      var a := y.inb.accepts[0];
      HandRecvOuts(InsOf(x.out, x.isServer), y.inb, AcceptBi(y).inb, a.id, Prime(a));
    case ReadBytes(id, room) => ReadOuts(x, y, id, room);
    case _ =>
  }

  /** Both directions of the connection as FIFOs. */
  ghost predicate SpecStep(w: World, w': World) {
    && FifoStep(Abs(w.client, w.server), Abs(w'.client, w'.server))
    && FifoStep(Abs(w.server, w.client), Abs(w'.server, w'.client))
  }

  lemma LocalRefines(x: Endpoint, y: Endpoint, e: Event, cap: nat)
    requires Pair(x, y) && Enabled(x, e, cap)
    ensures FifoStep(Abs(x, y), Abs(Apply(x, e, cap), y))
    ensures FifoStep(Abs(y, x), Abs(y, Apply(x, e, cap)))
  {
    var x' := Apply(x, e, cap);
    LocalIns(x, y, e, cap);
    InsStepIsFifoStep(InsOf(x.out, x.isServer), InsOf(x'.out, x.isServer), OutsOf(y.inb));
    PairSymmetric(x, y);
    LocalOuts(y, x, e, cap);
  }

  lemma PullRefines(x: Endpoint, y: Endpoint, n: nat)
    requires n <= |y.out.pipe|
    ensures Abs(PullIn(x, y, n), PullOut(y, n)) == Abs(x, y)
    ensures Abs(PullOut(y, n), PullIn(x, y, n)) == Abs(y, x)
  {
    MovedIns(y.out, PullOut(y, n).out, y.isServer);
  }

  lemma StepRefines(w: World, s: Step, cap: nat)
    requires Inv(w) && CanStep(w, s, cap)
    ensures SpecStep(w, DoStep(w, s, cap))
  {
    var c, v := w.client, w.server;
    match s
    case Local(true, e) =>
      PairSymmetric(c, v);
      LocalRefines(v, c, e, cap);
    case Local(false, e) => LocalRefines(c, v, e, cap);
    case Pull(true, n) => PullRefines(v, c, n);
    case Pull(false, n) => PullRefines(c, v, n);
  }

  /** Every run of the mux is a run of independent FIFO streams. */
  lemma MuxRefinesFifos(ws: seq<World>, steps: seq<Step>, cap: nat)
    requires Run(ws, steps, cap) && cap < TWO_32
    ensures Abs(ws[0].client, ws[0].server) == Fifos(map[], map[])
    ensures Abs(ws[0].server, ws[0].client) == Fifos(map[], map[])
    ensures forall k :: 0 <= k < |steps| ==> SpecStep(ws[k], ws[k + 1])
  {
    forall k | 0 <= k < |steps| ensures SpecStep(ws[k], ws[k + 1]) {
      InvAlways(ws, steps, cap, k);
      StepRefines(ws[k], steps[k], cap);
    }
  }

  lemma {:induction false} EndedAlong(ds: seq<Fifos>, n: nat, m: nat, id: U32)
    requires n <= m < |ds| && forall k :: n <= k < m ==> FifoStep(ds[k], ds[k + 1])
    requires id in ds[n].outs && ds[n].outs[id].ended
    ensures id in ds[m].outs && ds[m].outs[id] == ds[n].outs[id]
    decreases m
  {
    if n < m {
      EndedAlong(ds, n, m - 1, id);
      assert FifoStep(ds[m - 1], ds[m - 1 + 1]);
    }
  }

  ghost function Client(ws: seq<World>): seq<Fifos> {
    seq(|ws|, k requires 0 <= k < |ws| => Abs(ws[k].client, ws[k].server))
  }

  ghost function Server(ws: seq<World>): seq<Fifos> {
    seq(|ws|, k requires 0 <= k < |ws| => Abs(ws[k].server, ws[k].client))
  }

  /** A reader of the mux that has seen end-of-stream never reads another byte of that stream. */
  lemma EofPermanent(ws: seq<World>, steps: seq<Step>, cap: nat, n: nat, m: nat, id: U32)
    requires Run(ws, steps, cap) && cap < TWO_32 && n <= m < |ws|
    ensures var d, d' := Abs(ws[n].client, ws[n].server), Abs(ws[m].client, ws[m].server);
            id in d.outs && d.outs[id].ended ==> id in d'.outs && d'.outs[id] == d.outs[id]
    ensures var d, d' := Abs(ws[n].server, ws[n].client), Abs(ws[m].server, ws[m].client);
            id in d.outs && d.outs[id].ended ==> id in d'.outs && d'.outs[id] == d.outs[id]
  {
    MuxRefinesFifos(ws, steps, cap);
    var c, v := Client(ws), Server(ws);
    forall k | n <= k < m ensures FifoStep(c[k], c[k + 1]) && FifoStep(v[k], v[k + 1]) {
      assert SpecStep(ws[k], ws[k + 1]);
    }
    if id in c[n].outs && c[n].outs[id].ended { EndedAlong(c, n, m, id); }
    if id in v[n].outs && v[n].outs[id].ended { EndedAlong(v, n, m, id); }
  }
}
