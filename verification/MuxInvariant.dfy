/** What every step of the joined mux keeps, stream by stream. */
module MuxInvariant {
  import opened Bytes
  import opened MuxWire
  import opened MuxHalves
  import opened MuxSystem

  /** The ids a side mints: odd for the server, even and not zero for the client. */
  predicate Own(isServer: bool, id: U32) {
    id != CONTROL_STREAM_ID && (id % 2 == 1) == isServer
  }

  predicate Minted(isServer: bool, opens: nat, id: U32) {
    Own(isServer, id) && id < FirstId(isServer) + 2 * opens
  }

  // ---------------- one endpoint ----------------

  ghost predicate IdOK(x: Endpoint, id: U32) {
    && (id in x.out.sends <==> id in x.inb.recvs)
    && (id in x.out.sends <==> id in x.out.wrote)
    && (id in x.out.sends <==> id in x.inb.got)
    && (id in x.inb.dropped ==> id in x.inb.recvs)
    && (Own(x.isServer, id) ==> (id in x.out.sends <==> Minted(x.isServer, x.opens, id)))
  }

  ghost predicate AcceptsOK(x: Endpoint) {
    && (forall k :: 0 <= k < |x.inb.accepts| ==>
                      !Own(x.isServer, x.inb.accepts[k].id) && x.inb.accepts[k].id !in x.inb.recvs)
    && (forall j, k :: 0 <= j < k < |x.inb.accepts| ==> x.inb.accepts[j].id != x.inb.accepts[k].id)
    && (x.inb.controlSlot ==>
          && !x.isServer && CONTROL_STREAM_ID !in x.inb.recvs
          && (forall k :: 0 <= k < |x.inb.accepts| ==> x.inb.accepts[k].id != CONTROL_STREAM_ID))
  }

  ghost predicate SideOK(x: Endpoint) {
    && x.opens <= MAX_OPENS
    && x.nextId == (FirstId(x.isServer) + 2 * x.opens) % TWO_32
    && (forall id: U32 :: IdOK(x, id))
    && AcceptsOK(x)
  }

  // ---------------- one direction ----------------

  /** What the peer will eventually read of a stream: an early finish pads a stream opened here. */
  function Content(o: Outbound, lazy: bool, id: U32): seq<Byte>
    requires id in o.sends && id in o.wrote
  {
    if o.sends[id].finished && lazy then Pad(o.wrote[id]) else o.wrote[id]
  }

  /** What the frames pushed for a stream say, against the half and what was written to it. */
  predicate StreamOK(h: SendHalf, wrote: seq<Byte>, lazy: bool, phase: Phase, data: seq<Byte>) {
    if h.finished then h.pendingOpen.None? && phase == Done && data == if lazy then Pad(wrote) else wrote
    else if h.pendingOpen.Some? then
      lazy && phase == Idle && data == [] && wrote == h.pendingOpen.value
    else phase == Active && data == wrote && (lazy ==> |wrote| >= OPEN_PAYLOAD)
  }

  /** The frames pushed for a stream tell exactly what was written to it. */
  ghost predicate SenderOK(o: Outbound, lazy: bool, id: U32) {
    if id in o.sends && id in o.wrote then
      && o.sends[id].id == id && o.sends[id].Valid()
      && StreamOK(o.sends[id], o.wrote[id], lazy, PhaseOf(o.sent, id, lazy), DataOf(o.sent, id))
    else PhaseOf(o.sent, id, lazy) == Start(lazy) && DataOf(o.sent, id) == []
  }

  /**
    What the dispatched frames of stream `id` say, against the reader's table,
    the channel and the recv half. `own` says that the receiver mints this id,
    `minted` that it has.
   */
  ghost predicate RecvOK(i: Inbound, id: U32, lazy: bool, own: bool, minted: bool, phase: Phase, data: seq<Byte>) {
    && (phase == Idle ==> lazy)
    && (id in i.inbox <==> if lazy then phase != Idle else if own then minted else true)
    && (id in i.streams <==> id in i.inbox && phase != Done && id !in i.dropped)
    && (id in i.recvs ==> id in i.inbox)
    && (id !in i.inbox ==> phase == Start(lazy) && data == [])
    && (id in i.inbox ==> forall k :: 0 <= k < |i.inbox[id]| ==> i.inbox[id][k] != [])
    && (id in i.recvs && id in i.got ==> HeldOK(i, id, phase, data))
  }

  ghost predicate HeldOK(i: Inbound, id: U32, phase: Phase, data: seq<Byte>)
    requires id in i.recvs && id in i.got && id in i.inbox
  {
    if id in i.dropped then i.got[id] <= data
    else
      && i.got[id] + i.recvs[id].leftover + Flat(i.inbox[id]) == data
      && (i.recvs[id].eof ==> phase == Done && i.recvs[id].leftover == [] && i.inbox[id] == [])
  }

  /** The frames dispatched for a stream are accounted for at the receiver. */
  ghost predicate ReceiverOK(i: Inbound, lazy: bool, own: bool, minted: bool, id: U32) {
    RecvOK(i, id, lazy, own, minted, PhaseOf(i.seen, id, lazy), DataOf(i.seen, id))
  }

  /** A stream waiting to be accepted holds its OPEN payload and all data since. */
  ghost predicate WaitingOK(i: Inbound, s: AcceptedStream, data: seq<Byte>) {
    s.id in i.inbox && Prime(s) + Flat(i.inbox[s.id]) == data
  }

  ghost predicate QueuedOK(i: Inbound, s: AcceptedStream) {
    WaitingOK(i, s, DataOf(i.seen, s.id))
  }

  ghost predicate QueueOK(i: Inbound, aServer: bool, aOpens: nat) {
    && (forall k :: 0 <= k < |i.accepts| ==>
                      && QueuedOK(i, i.accepts[k])
                      && (i.accepts[k].id != CONTROL_STREAM_ID ==> Minted(aServer, aOpens, i.accepts[k].id)))
    && (i.controlSlot ==> QueuedOK(i, AcceptedStream(CONTROL_STREAM_ID, [])))
  }

  /** Bytes on their way are the encoding of the frames on their way. */
  ghost predicate WireOK(o: Outbound, i: Inbound) {
    && |i.seen| <= o.taken <= |o.sent|
    && i.seen == o.sent[..|i.seen|]
    && i.rbuf + o.pipe + o.writing == EncodeAll(o.sent[|i.seen|..o.taken])
    && (i.rbuf != [] ==> |i.seen| < o.taken && |i.rbuf| <= |Encode(o.sent[|i.seen|])|)
  }

  ghost predicate FramesOK(o: Outbound) {
    forall k :: 0 <= k < |o.sent| ==> Emittable(o.sent[k]) && FrameId(o.sent[k]) in o.sends
  }

  ghost predicate SendersOK(o: Outbound, aServer: bool) {
    forall id: U32 :: SenderOK(o, Own(aServer, id), id)
  }

  ghost predicate ReceiversOK(i: Inbound, aServer: bool, bOpens: nat) {
    forall id: U32 :: ReceiverOK(i, Own(aServer, id), Own(!aServer, id), Minted(!aServer, bOpens, id), id)
  }

  /** A stream the peer minted is sent on only once the peer has minted it. */
  ghost predicate RepliesOK(o: Outbound, aServer: bool, bOpens: nat) {
    forall id: U32 :: id in o.sends && Own(!aServer, id) ==> Minted(!aServer, bOpens, id)
  }

  /** The direction from the side with role `aServer` to its peer. */
  ghost predicate Dir(o: Outbound, i: Inbound, aServer: bool, aOpens: nat, bOpens: nat) {
    && WireOK(o, i)
    && FramesOK(o)
    && SendersOK(o, aServer)
    && RepliesOK(o, aServer, bOpens)
    && ReceiversOK(i, aServer, bOpens)
    && QueueOK(i, aServer, aOpens)
  }

  ghost predicate Pair(x: Endpoint, y: Endpoint) {
    && x.isServer != y.isServer
    && SideOK(x) && SideOK(y)
    && Dir(x.out, y.inb, x.isServer, x.opens, y.opens)
    && Dir(y.out, x.inb, y.isServer, y.opens, x.opens)
  }

  ghost predicate Inv(w: World) {
    !w.client.isServer && w.server.isServer && Pair(w.client, w.server)
  }

  lemma InitInv()
    ensures Inv(World(Fresh(false), Fresh(true)))
  {
    InitDir(false);
    InitDir(true);
  }

  lemma InitDir(aServer: bool)
    ensures SideOK(Fresh(aServer))
    ensures Dir(Fresh(aServer).out, Fresh(!aServer).inb, aServer, 0, 0)
  {
    var i := Fresh(!aServer).inb;
    forall id: U32 ensures ReceiverOK(i, Own(aServer, id), Own(!aServer, id), Minted(!aServer, 0, id), id) {
    }
    assert QueuedOK(i, AcceptedStream(CONTROL_STREAM_ID, []));
  }

  // ---------------- opens and accepts ----------------

  /** The id an open mints was never used: not handed out, not registered, not met by the reader. */
  lemma FreshOnOpen(x: Endpoint)
    requires SideOK(x) && x.opens < MAX_OPENS
    requires ReceiversOK(x.inb, !x.isServer, x.opens)
    ensures x.nextId == FirstId(x.isServer) + 2 * x.opens
    ensures Own(x.isServer, x.nextId) && !Minted(x.isServer, x.opens, x.nextId)
    ensures x.nextId !in x.out.sends && x.nextId !in x.inb.inbox && x.nextId !in x.inb.streams
  {
    assert IdOK(x, x.nextId);
    assert Own(x.isServer, x.nextId) && !Own(!x.isServer, x.nextId);
    assert ReceiverOK(x.inb, Own(!x.isServer, x.nextId), Own(!!x.isServer, x.nextId),
                      Minted(!!x.isServer, x.opens, x.nextId), x.nextId);
  }

  lemma HandSendKeeps(o: Outbound, aServer: bool, id: U32)
    requires SendersOK(o, aServer) && id !in o.sends
    ensures SendersOK(HandSend(o, id, if Own(aServer, id) then Some([]) else None), aServer)
  {
    var o' := HandSend(o, id, if Own(aServer, id) then Some([]) else None);
    forall j: U32 ensures SenderOK(o', Own(aServer, j), j) {
      assert SenderOK(o, Own(aServer, j), j);
    }
  }

  lemma OpenSide(x: Endpoint)
    requires SideOK(x) && (x.inb.controlSlot || (x.opens < MAX_OPENS && x.nextId !in x.inb.inbox))
    requires ReceiversOK(x.inb, !x.isServer, x.opens)
    ensures SideOK(OpenBi(x))
  {
    if !x.inb.controlSlot { FreshOnOpen(x); }
    forall id: U32 ensures IdOK(OpenBi(x), id) { OpenId(x, id); }
    assert AcceptsOK(OpenBi(x));
  }

  lemma OpenId(x: Endpoint, id: U32)
    requires IdOK(x, id) && (!x.inb.controlSlot ==> Own(x.isServer, x.nextId) && x.nextId == FirstId(x.isServer) + 2 * x.opens)
    requires x.inb.controlSlot ==> !Own(x.isServer, CONTROL_STREAM_ID)
    ensures IdOK(OpenBi(x), id)
  {
    if !x.inb.controlSlot && id != x.nextId {
      assert Minted(x.isServer, x.opens + 1, id) == Minted(x.isServer, x.opens, id);
    }
  }

  /** The recv half of a registered stream takes over what its channel holds. */
  lemma HandRecvKeeps(i: Inbound, aServer: bool, bOpens: nat, id: U32, leftover: seq<Byte>)
    requires ReceiversOK(i, aServer, bOpens)
    requires id in i.inbox && id !in i.recvs && id !in i.dropped
    requires leftover + Flat(i.inbox[id]) == DataOf(i.seen, id)
    ensures ReceiversOK(HandRecv(i, id, leftover), aServer, bOpens)
  {
    var i' := HandRecv(i, id, leftover);
    forall j: U32 ensures ReceiverOK(i', Own(aServer, j), Own(!aServer, j), Minted(!aServer, bOpens, j), j) {
      assert ReceiverOK(i, Own(aServer, j), Own(!aServer, j), Minted(!aServer, bOpens, j), j);
      if j == id { assert [] + leftover == leftover; }
    }
  }

  /** Registering the next own id keeps every other stream as it was. */
  lemma RegisterOwnKeeps(i: Inbound, aServer: bool, bOpens: nat, id: U32)
    requires ReceiversOK(i, aServer, bOpens)
    requires id == FirstId(!aServer) + 2 * bOpens && Own(!aServer, id)
    requires id !in i.inbox && id !in i.dropped
    ensures ReceiversOK(Register(i, id), aServer, bOpens + 1)
  {
    var i' := Register(i, id);
    forall j: U32 ensures ReceiverOK(i', Own(aServer, j), Own(!aServer, j), Minted(!aServer, bOpens + 1, j), j) {
      assert ReceiverOK(i, Own(aServer, j), Own(!aServer, j), Minted(!aServer, bOpens, j), j);
      assert j != id ==> Minted(!aServer, bOpens + 1, j) == Minted(!aServer, bOpens, j);
    }
  }

  lemma OpenReceivers(x: Endpoint)
    requires SideOK(x) && (x.inb.controlSlot || x.opens < MAX_OPENS)
    requires ReceiversOK(x.inb, !x.isServer, x.opens)
    requires x.inb.controlSlot ==> QueuedOK(x.inb, AcceptedStream(CONTROL_STREAM_ID, []))
    ensures ReceiversOK(OpenBi(x).inb, !x.isServer, OpenBi(x).opens)
  {
    if x.inb.controlSlot {
      assert IdOK(x, CONTROL_STREAM_ID);
      var i := x.inb.(controlSlot := false);
      assert ReceiversOK(i, !x.isServer, x.opens) by {
        forall j: U32 ensures ReceiverOK(i, Own(!x.isServer, j), Own(x.isServer, j), Minted(x.isServer, x.opens, j), j) {
          assert ReceiverOK(x.inb, Own(!x.isServer, j), Own(!!x.isServer, j), Minted(!!x.isServer, x.opens, j), j);
        }
      }
      HandRecvKeeps(i, !x.isServer, x.opens, CONTROL_STREAM_ID, []);
    } else {
      FreshOnOpen(x);
      assert IdOK(x, x.nextId);
      assert ReceiverOK(x.inb, Own(!x.isServer, x.nextId), Own(!!x.isServer, x.nextId),
                        Minted(!!x.isServer, x.opens, x.nextId), x.nextId);
      RegisterOwnKeeps(x.inb, !x.isServer, x.opens, x.nextId);
      HandRecvKeeps(Register(x.inb, x.nextId), !x.isServer, x.opens + 1, x.nextId, []);
    }
  }

  lemma OpenQueue(x: Endpoint, aOpens: nat)
    requires SideOK(x) && (x.inb.controlSlot || x.opens < MAX_OPENS)
    requires ReceiversOK(x.inb, !x.isServer, x.opens) && QueueOK(x.inb, !x.isServer, aOpens)
    ensures QueueOK(OpenBi(x).inb, !x.isServer, aOpens)
  {
    if !x.inb.controlSlot { FreshOnOpen(x); }
    var i' := OpenBi(x).inb;
    forall k | 0 <= k < |i'.accepts| ensures QueuedOK(i', i'.accepts[k]) {
      assert QueuedOK(x.inb, x.inb.accepts[k]);
    }
  }

  lemma OpenKeeps(x: Endpoint, y: Endpoint)
    requires Pair(x, y) && (x.inb.controlSlot || x.opens < MAX_OPENS)
    ensures Pair(OpenBi(x), y)
  {
    if !x.inb.controlSlot { FreshOnOpen(x); }
    OpenSide(x);
    OpenSends(x, y);
    OpenReads(x, y);
  }

  /** A new send half adds nothing to what is on its way. */
  lemma HandSendDir(o: Outbound, i: Inbound, aServer: bool, aOpens: nat, aOpens': nat, bOpens: nat, id: U32)
    requires Dir(o, i, aServer, aOpens, bOpens) && id !in o.sends && aOpens <= aOpens'
    requires Own(!aServer, id) ==> Minted(!aServer, bOpens, id)
    ensures Dir(HandSend(o, id, if Own(aServer, id) then Some([]) else None), i, aServer, aOpens', bOpens)
  {
    HandSendKeeps(o, aServer, id);
  }

  lemma OpenSends(x: Endpoint, y: Endpoint)
    requires Pair(x, y) && (x.inb.controlSlot || x.opens < MAX_OPENS)
    ensures Dir(OpenBi(x).out, y.inb, x.isServer, OpenBi(x).opens, y.opens)
  {
    var id := if x.inb.controlSlot then CONTROL_STREAM_ID else x.nextId;
    if !x.inb.controlSlot { FreshOnOpen(x); }
    assert IdOK(x, id);
    HandSendDir(x.out, y.inb, x.isServer, x.opens, OpenBi(x).opens, y.opens, id);
  }

  lemma OpenReads(x: Endpoint, y: Endpoint)
    requires Pair(x, y) && (x.inb.controlSlot || x.opens < MAX_OPENS)
    ensures Dir(y.out, OpenBi(x).inb, y.isServer, y.opens, OpenBi(x).opens)
  {
    OpenReceivers(x);
    OpenQueue(x, y.opens);
  }

  lemma AcceptSide(x: Endpoint)
    requires SideOK(x) && x.inb.accepts != []
    ensures SideOK(AcceptBi(x))
  {
    forall id: U32 ensures IdOK(AcceptBi(x), id) { assert IdOK(x, id); }
    var q := AcceptBi(x).inb.accepts;
    assert forall k :: 0 <= k < |q| ==> q[k] == x.inb.accepts[k + 1];
  }

  lemma AcceptReceivers(x: Endpoint, aOpens: nat)
    requires SideOK(x) && x.inb.accepts != []
    requires ReceiversOK(x.inb, !x.isServer, x.opens) && QueueOK(x.inb, !x.isServer, aOpens)
    ensures ReceiversOK(AcceptBi(x).inb, !x.isServer, x.opens)
    ensures QueueOK(AcceptBi(x).inb, !x.isServer, aOpens)
  {
    var a := x.inb.accepts[0];
    var i := x.inb.(accepts := x.inb.accepts[1..]);
    assert QueuedOK(x.inb, a) && IdOK(x, a.id);
    assert ReceiversOK(i, !x.isServer, x.opens) by {
      forall j: U32 ensures ReceiverOK(i, Own(!x.isServer, j), Own(x.isServer, j), Minted(x.isServer, x.opens, j), j) {
        assert ReceiverOK(x.inb, Own(!x.isServer, j), Own(!!x.isServer, j), Minted(!!x.isServer, x.opens, j), j);
      }
    }
    HandRecvKeeps(i, !x.isServer, x.opens, a.id, Prime(a));
    var i' := AcceptBi(x).inb;
    forall k | 0 <= k < |i'.accepts|
      ensures QueuedOK(i', i'.accepts[k])
      ensures i'.accepts[k].id != CONTROL_STREAM_ID ==> Minted(!x.isServer, aOpens, i'.accepts[k].id)
    {
      assert i'.accepts[k] == x.inb.accepts[k + 1];
      assert QueuedOK(x.inb, x.inb.accepts[k + 1]);
    }
  }

  lemma AcceptKeeps(x: Endpoint, y: Endpoint)
    requires Pair(x, y) && x.inb.accepts != []
    ensures Pair(AcceptBi(x), y)
  {
    AcceptSide(x);
    AcceptSends(x, y);
    AcceptReceivers(x, y.opens);
  }

  lemma AcceptSends(x: Endpoint, y: Endpoint)
    requires Pair(x, y) && x.inb.accepts != []
    ensures Dir(AcceptBi(x).out, y.inb, x.isServer, x.opens, y.opens)
  {
    var a := x.inb.accepts[0];
    assert IdOK(x, a.id);
    HandSendDir(x.out, y.inb, x.isServer, x.opens, x.opens, y.opens, a.id);
  }

  // ---------------- writes and finishes ----------------

  lemma {:induction false} OtherFrames(start: Phase, gs: seq<Frame>, id: U32)
    requires forall k :: 0 <= k < |gs| ==> FrameId(gs[k]) != id
    ensures DataOf(gs, id) == [] && PhaseFrom(start, gs, id) == start
    decreases |gs|
  {
    if gs != [] { OtherFrames(start, gs[..|gs| - 1], id); }
  }

  /** Frames pushed for one stream say nothing about the others. */
  lemma EmitOthers(o: Outbound, lazy: bool, id: U32, e: Emission, accepted: seq<Byte>, j: U32)
    requires id in o.wrote && j != id && SenderOK(o, lazy, j)
    requires forall k :: 0 <= k < |e.frames| ==> FrameId(e.frames[k]) == id
    ensures SenderOK(Emit(o, id, e, accepted), lazy, j)
  {
    AppendFrames(Start(lazy), o.sent, e.frames, j);
    OtherFrames(PhaseOf(o.sent, j, lazy), e.frames, j);
  }

  lemma DataFramesSay(id: U32, rest: seq<Byte>)
    ensures DataOf(DataFrames(id, rest), id) == rest
    ensures PhaseFrom(Active, DataFrames(id, rest), id) == Active
  {
    var fs := DataFrames(id, rest);
    if rest != [] { assert fs[..0] == []; }
  }

  lemma OpenFrameSays(id: U32, payload: seq<Byte>)
    ensures DataOf([OpenFrame(id, payload)], id) == payload
    ensures PhaseFrom(Idle, [OpenFrame(id, payload)], id) == Active
  {
    assert [OpenFrame(id, payload)][..0] == [];
  }

  lemma FinFrameSays(id: U32)
    ensures DataOf([FinFrame(id)], id) == []
    ensures PhaseFrom(Active, [FinFrame(id)], id) == Done
  {
    assert [FinFrame(id)][..0] == [];
  }

  /** A write's frames carry exactly the bytes it accepted, after those still pending. */
  lemma WriteSays(h: SendHalf, closed: bool, buf: seq<Byte>, wrote: seq<Byte>, lazy: bool, phase: Phase, data: seq<Byte>)
    requires h.Valid() && StreamOK(h, wrote, lazy, phase, data)
    ensures var e := Write(h, closed, buf);
            StreamOK(e.half, wrote + if e.outcome.Taken? then buf else [], lazy,
                     PhaseFrom(phase, e.frames, h.id), data + DataOf(e.frames, h.id))
  {
    assert data + [] == data && wrote + [] == wrote;
    if !h.finished && !closed {
      if h.pendingOpen.None? {
        DataFramesSay(h.id, buf);
      } else {
        LazyWriteSays(h, buf, wrote, lazy, phase, data);
      }
    }
  }

  lemma OpeningSays(id: U32, payload: seq<Byte>, rest: seq<Byte>)
    ensures DataOf([OpenFrame(id, payload)] + DataFrames(id, rest), id) == payload + rest
    ensures PhaseFrom(Idle, [OpenFrame(id, payload)] + DataFrames(id, rest), id) == Active
  {
    OpenFrameSays(id, payload);
    DataFramesSay(id, rest);
    AppendFrames(Idle, [OpenFrame(id, payload)], DataFrames(id, rest), id);
  }

  lemma LazyWriteSays(h: SendHalf, buf: seq<Byte>, wrote: seq<Byte>, lazy: bool, phase: Phase, data: seq<Byte>)
    requires h.Valid() && StreamOK(h, wrote, lazy, phase, data) && !h.finished && h.pendingOpen.Some?
    ensures var e := Write(h, false, buf);
            StreamOK(e.half, wrote + buf, lazy, PhaseFrom(phase, e.frames, h.id), data + DataOf(e.frames, h.id))
  {
    assert data + [] == data;
    var pending := h.pendingOpen.value;
    var take := Min(OPEN_PAYLOAD - |pending|, |buf|);
    assert buf == buf[..take] + buf[take..];
    if take == OPEN_PAYLOAD - |pending| {
      var filled := pending + buf[..take];
      OpeningSays(h.id, filled, buf[take..]);
      assert pending + buf == filled + buf[take..];
    } else {
      assert buf[..take] == buf;
    }
  }

  lemma FinishSays(h: SendHalf, wrote: seq<Byte>, lazy: bool, phase: Phase, data: seq<Byte>)
    requires h.Valid() && StreamOK(h, wrote, lazy, phase, data)
    ensures var e := Finish(h);
            StreamOK(e.half, wrote, lazy, PhaseFrom(phase, e.frames, h.id), data + DataOf(e.frames, h.id))
  {
    assert data + [] == data;
    FinFrameSays(h.id);
    if !h.finished && h.pendingOpen.Some? {
      var open := OpenFrame(h.id, Pad(h.pendingOpen.value));
      OpenFrameSays(h.id, open.payload);
      AppendFrames(phase, [open], [FinFrame(h.id)], h.id);
    } else if !h.finished {
      assert [] + [FinFrame(h.id)] == [FinFrame(h.id)];
    }
  }

  /** The frames a half emits can be put on the wire and belong to its stream. */
  lemma EmittedFrames(h: SendHalf, closed: bool, buf: seq<Byte>)
    requires h.Valid() && (h.pendingOpen.Some? ==> h.id != CONTROL_STREAM_ID) && |buf| < TWO_32
    ensures forall f :: f in Write(h, closed, buf).frames ==> Emittable(f) && FrameId(f) == h.id
    ensures forall f :: f in Finish(h).frames ==> Emittable(f) && FrameId(f) == h.id
  {
  }

  /** Pushing frames of one live stream keeps the direction in order. */
  lemma EmitDir(o: Outbound, i: Inbound, aServer: bool, aOpens: nat, bOpens: nat,
                id: U32, e: Emission, accepted: seq<Byte>)
    requires Dir(o, i, aServer, aOpens, bOpens) && id in o.sends && id in o.wrote
    requires forall f :: f in e.frames ==> Emittable(f) && FrameId(f) == id
    requires SenderOK(Emit(o, id, e, accepted), Own(aServer, id), id)
    ensures Dir(Emit(o, id, e, accepted), i, aServer, aOpens, bOpens)
  {
    var o' := Emit(o, id, e, accepted);
    assert WireOK(o', i) by {
      assert o'.sent[..|i.seen|] == o.sent[..|i.seen|];
      assert o'.sent[|i.seen|..o.taken] == o.sent[|i.seen|..o.taken];
    }
    assert SendersOK(o', aServer) by {
      forall j: U32 ensures SenderOK(o', Own(aServer, j), j) {
        assert SenderOK(o, Own(aServer, j), j);
        if j != id { EmitOthers(o, Own(aServer, j), id, e, accepted, j); }
      }
    }
  }

  lemma EmitSide(x: Endpoint, id: U32, e: Emission, accepted: seq<Byte>)
    requires SideOK(x) && id in x.out.sends && id in x.out.wrote
    ensures SideOK(x.(out := Emit(x.out, id, e, accepted)))
  {
    var x' := x.(out := Emit(x.out, id, e, accepted));
    forall j: U32 ensures IdOK(x', j) { assert IdOK(x, j); }
  }

  lemma WriteEmits(o: Outbound, closed: bool, lazy: bool, id: U32, buf: seq<Byte>)
    requires id in o.sends && id in o.wrote && SenderOK(o, lazy, id)
    ensures SenderOK(WriteTo(o, closed, id, buf), lazy, id)
  {
    var e := Write(o.sends[id], closed, buf);
    WriteSays(o.sends[id], closed, buf, o.wrote[id], lazy, PhaseOf(o.sent, id, lazy), DataOf(o.sent, id));
    AppendFrames(Start(lazy), o.sent, e.frames, id);
  }

  lemma FinishEmits(o: Outbound, lazy: bool, id: U32)
    requires id in o.sends && id in o.wrote && SenderOK(o, lazy, id)
    ensures SenderOK(FinishOn(o, id), lazy, id)
  {
    FinishSays(o.sends[id], o.wrote[id], lazy, PhaseOf(o.sent, id, lazy), DataOf(o.sent, id));
    AppendFrames(Start(lazy), o.sent, Finish(o.sends[id]).frames, id);
    assert o.wrote[id] + [] == o.wrote[id];
  }

  lemma WriteDir(o: Outbound, i: Inbound, aServer: bool, aOpens: nat, bOpens: nat, closed: bool, id: U32, buf: seq<Byte>)
    requires Dir(o, i, aServer, aOpens, bOpens) && |buf| < TWO_32
    requires id in o.sends && id in o.wrote && o.sends[id].Valid()
    ensures Dir(WriteTo(o, closed, id, buf), i, aServer, aOpens, bOpens)
  {
    assert SenderOK(o, Own(aServer, id), id);
    EmittedFrames(o.sends[id], closed, buf);
    WriteEmits(o, closed, Own(aServer, id), id, buf);
    var e := Write(o.sends[id], closed, buf);
    EmitDir(o, i, aServer, aOpens, bOpens, id, e, if e.outcome.Taken? then buf else []);
  }

  lemma FinishDir(o: Outbound, i: Inbound, aServer: bool, aOpens: nat, bOpens: nat, id: U32)
    requires Dir(o, i, aServer, aOpens, bOpens)
    requires id in o.sends && id in o.wrote && o.sends[id].Valid()
    ensures Dir(FinishOn(o, id), i, aServer, aOpens, bOpens)
  {
    assert SenderOK(o, Own(aServer, id), id);
    EmittedFrames(o.sends[id], false, []);
    FinishEmits(o, Own(aServer, id), id);
    EmitDir(o, i, aServer, aOpens, bOpens, id, Finish(o.sends[id]), []);
  }

  lemma WriteKeeps(x: Endpoint, y: Endpoint, id: U32, buf: seq<Byte>)
    requires Pair(x, y) && |buf| < TWO_32
    requires id in x.out.sends && id in x.out.wrote && x.out.sends[id].Valid()
    ensures Pair(x.(out := WriteTo(x.out, x.closed, id, buf)), y)
  {
    var e := Write(x.out.sends[id], x.closed, buf);
    WriteDir(x.out, y.inb, x.isServer, x.opens, y.opens, x.closed, id, buf);
    EmitSide(x, id, e, if e.outcome.Taken? then buf else []);
  }

  lemma FinishKeeps(x: Endpoint, y: Endpoint, id: U32)
    requires Pair(x, y) && id in x.out.sends && id in x.out.wrote && x.out.sends[id].Valid()
    ensures Pair(x.(out := FinishOn(x.out, id)), y)
  {
    FinishDir(x.out, y.inb, x.isServer, x.opens, y.opens, id);
    EmitSide(x, id, Finish(x.out.sends[id]), []);
  }

  // ---------------- the wire ----------------

  lemma EncodeOne(f: Frame)
    ensures EncodeAll([f]) == Encode(f)
  {
    assert [f][1..] == [];
    assert Encode(f) + [] == Encode(f);
  }

  lemma TakeWire(o: Outbound, i: Inbound)
    requires WireOK(o, i) && o.writing == [] && o.taken < |o.sent|
    ensures WireOK(Take(o), i)
  {
    var f := o.sent[o.taken];
    assert o.sent[|i.seen|..o.taken + 1] == o.sent[|i.seen|..o.taken] + [f];
    EncodeAllConcat(o.sent[|i.seen|..o.taken], [f]);
    EncodeOne(f);
    assert i.rbuf + o.pipe + [] == i.rbuf + o.pipe;
  }

  lemma PushWire(o: Outbound, i: Inbound, n: nat)
    requires WireOK(o, i) && n <= |o.writing|
    ensures WireOK(o.(pipe := o.pipe + o.writing[..n], writing := o.writing[n..]), i)
  {
    assert o.writing == o.writing[..n] + o.writing[n..];
    assert i.rbuf + (o.pipe + o.writing[..n]) + o.writing[n..] == i.rbuf + o.pipe + o.writing;
  }

  /** The bytes in transit start with the next frame to be dispatched. */
  lemma HeadOfWire(o: Outbound, i: Inbound)
    requires WireOK(o, i) && |i.seen| < o.taken
    ensures var f := o.sent[|i.seen|];
            && i.rbuf + o.pipe + o.writing == Encode(f) + EncodeAll(o.sent[|i.seen| + 1..o.taken])
            && |i.rbuf| <= |Encode(f)| && i.rbuf == Encode(f)[..|i.rbuf|]
  {
    var f, fs := o.sent[|i.seen|], o.sent[|i.seen|..o.taken];
    assert fs[0] == f && fs[1..] == o.sent[|i.seen| + 1..o.taken];
    var b := i.rbuf + o.pipe + o.writing;
    assert b[..|i.rbuf|] == i.rbuf;
    assert b[..|i.rbuf|] == Encode(f)[..|i.rbuf|];
  }

  lemma NothingTaken(o: Outbound, i: Inbound)
    requires WireOK(o, i)
    ensures |i.seen| == o.taken ==> |i.rbuf| == |o.pipe| == |o.writing| == 0
  {
    if |i.seen| == o.taken {
      assert o.sent[|i.seen|..o.taken] == [];
      assert |i.rbuf + o.pipe + o.writing| == 0;
    }
  }

  lemma PullWire(o: Outbound, i: Inbound, n: nat)
    requires WireOK(o, i) && FramesOK(o)
    requires Inspect(i.rbuf).NeedMore? && 0 < n <= Min(Inspect(i.rbuf).n, |o.pipe|)
    ensures WireOK(o.(pipe := o.pipe[n..]), i.(rbuf := i.rbuf + o.pipe[..n]))
  {
    NothingTaken(o, i);
    HeadOfWire(o, i);
    InspectHead(o.sent[|i.seen|], |i.rbuf|);
    assert o.pipe == o.pipe[..n] + o.pipe[n..];
    assert i.rbuf + o.pipe[..n] + o.pipe[n..] + o.writing == i.rbuf + o.pipe + o.writing;
  }

  /** A frame the reader completes is the next one sent, byte for byte. */
  lemma CompleteIsNext(o: Outbound, i: Inbound)
    requires WireOK(o, i) && FramesOK(o) && Inspect(i.rbuf).Complete?
    ensures |i.seen| < o.taken
    ensures Inspect(i.rbuf).f == o.sent[|i.seen|] && i.rbuf == Encode(o.sent[|i.seen|])
  {
    HeadOfWire(o, i);
    InspectHead(o.sent[|i.seen|], |i.rbuf|);
  }

  lemma DeliverWire(o: Outbound, i: Inbound, i': Inbound)
    requires WireOK(o, i) && FramesOK(o) && Inspect(i.rbuf).Complete?
    requires i'.rbuf == [] && i'.seen == i.seen + [Inspect(i.rbuf).f]
    ensures WireOK(o, i')
  {
    CompleteIsNext(o, i);
    HeadOfWire(o, i);
    var n := |i.seen|;
    assert o.sent[..n + 1] == o.sent[..n] + [o.sent[n]];
    assert (i.rbuf + o.pipe + o.writing)[|i.rbuf|..] == [] + o.pipe + o.writing;
    assert (i.rbuf + o.pipe + o.writing)[|i.rbuf|..] == EncodeAll(o.sent[n + 1..o.taken]);
  }

  // ---------------- dispatch ----------------

  /** The next frame of a stream fits the life of that stream. */
  lemma NextFits(o: Outbound, i: Inbound, lazy: bool)
    requires WireOK(o, i) && |i.seen| < |o.sent| && SenderOK(o, lazy, FrameId(o.sent[|i.seen|]))
    ensures var f := o.sent[|i.seen|];
            Advance(PhaseOf(i.seen, FrameId(f), lazy), f) != Bad
  {
    var f, n := o.sent[|i.seen|], |i.seen| + 1;
    PhasePrefix(o.sent, n, FrameId(f), lazy);
    assert o.sent[..n][..n - 1] == i.seen;
  }

  lemma SeenOther(fs: seq<Frame>, f: Frame, id: U32, lazy: bool)
    ensures DataOf(fs + [f], id) == DataOf(fs, id) + if FrameId(f) == id then f.payload else []
    ensures PhaseOf(fs + [f], id, lazy) ==
            if FrameId(f) == id then Advance(PhaseOf(fs, id, lazy), f) else PhaseOf(fs, id, lazy)
  {
    assert (fs + [f])[..|fs|] == fs;
  }

  lemma DeliverOther(i: Inbound, f: Frame, id: U32, lazy: bool, own: bool, minted: bool, phase: Phase, data: seq<Byte>)
    requires RecvOK(i, id, lazy, own, minted, phase, data) && FrameId(f) != id
    ensures RecvOK(Deliver(i, f), id, lazy, own, minted, phase, data)
  {
    DeliverLeaves(i, f, id);
    RecvSame(i, Deliver(i, f), id, lazy, own, minted, phase, data);
  }

  /** Two states of the receiver that do not differ in stream `id`. */
  ghost predicate SameAt(i: Inbound, i': Inbound, id: U32) {
    && (id in i'.inbox <==> id in i.inbox) && (id in i.inbox && id in i'.inbox ==> i'.inbox[id] == i.inbox[id])
    && (id in i'.streams <==> id in i.streams) && (id in i'.dropped <==> id in i.dropped)
    && (id in i'.recvs <==> id in i.recvs) && (id in i.recvs && id in i'.recvs ==> i'.recvs[id] == i.recvs[id])
    && (id in i'.got <==> id in i.got) && (id in i.got && id in i'.got ==> i'.got[id] == i.got[id])
  }

  lemma DeliverLeaves(i: Inbound, f: Frame, id: U32)
    requires FrameId(f) != id
    ensures SameAt(i, Deliver(i, f), id)
  {
  }

  lemma RecvSame(i: Inbound, i': Inbound, id: U32, lazy: bool, own: bool, minted: bool, phase: Phase, data: seq<Byte>)
    requires RecvOK(i, id, lazy, own, minted, phase, data) && SameAt(i, i', id)
    ensures RecvOK(i', id, lazy, own, minted, phase, data)
  {
  }

  /** Dispatching a frame of a stream, when the stream's life allows it. */
  lemma DeliverOwn(i: Inbound, f: Frame, lazy: bool, own: bool, minted: bool, phase: Phase, data: seq<Byte>)
    requires RecvOK(i, FrameId(f), lazy, own, minted, phase, data)
    requires Advance(phase, f) != Bad && Emittable(f) && (own ==> minted)
    requires FrameId(f) in i.dropped ==> FrameId(f) in i.recvs
    requires FrameId(f) in i.recvs <==> FrameId(f) in i.got
    ensures RecvOK(Deliver(i, f), FrameId(f), lazy, own, minted, Advance(phase, f), data + f.payload)
    ensures f.header.flag == Open ==> lazy && FrameId(f) !in i.inbox
  {
    var id := FrameId(f);
    match f.header.flag
    case Open =>
    case Data =>
      FlatAppend(i.inbox[id], f.payload);
      if id in i.recvs && id !in i.dropped {
        var g, l := i.got[id], i.recvs[id].leftover;
        assert g + l + (Flat(i.inbox[id]) + f.payload) == g + l + Flat(i.inbox[id]) + f.payload;
      }
    case Fin =>
      assert data + [] == data;
  }

  lemma DeliverWaiting(i: Inbound, f: Frame, s: AcceptedStream, data: seq<Byte>)
    requires WaitingOK(i, s, data) && Emittable(f)
    requires f.header.flag == Open ==> FrameId(f) !in i.inbox
    requires f.header.flag == Data && FrameId(f) == s.id ==> s.id in i.streams
    ensures WaitingOK(Deliver(i, f), s, data + if FrameId(f) == s.id then f.payload else [])
  {
    assert data + [] == data;
    if FrameId(f) == s.id && f.header.flag == Data {
      FlatAppend(i.inbox[s.id], f.payload);
      assert Prime(s) + (Flat(i.inbox[s.id]) + f.payload) == Prime(s) + Flat(i.inbox[s.id]) + f.payload;
    }
  }

  /** The delivered frame is the last one seen. */
  lemma DeliveredSays(i: Inbound, f: Frame, id: U32, lazy: bool, own: bool, minted: bool, phase: Phase, data: seq<Byte>)
    requires RecvOK(Deliver(i, f), id, lazy, own, minted, phase, data)
    requires phase == if FrameId(f) == id then Advance(PhaseOf(i.seen, id, lazy), f) else PhaseOf(i.seen, id, lazy)
    requires data == DataOf(i.seen, id) + if FrameId(f) == id then f.payload else []
    ensures ReceiverOK(Deliver(i, f), lazy, own, minted, id)
  {
    SeenOther(i.seen, f, id, lazy);
  }

  lemma DeliverId(i: Inbound, f: Frame, lazy: bool, own: bool, minted: bool, j: U32)
    requires ReceiverOK(i, lazy, own, minted, j) && Emittable(f)
    requires FrameId(f) == j ==> Advance(PhaseOf(i.seen, j, lazy), f) != Bad && (own ==> minted)
    requires j in i.dropped ==> j in i.recvs
    requires j in i.recvs <==> j in i.got
    ensures ReceiverOK(Deliver(i, f), lazy, own, minted, j)
    ensures f.header.flag == Open && FrameId(f) == j ==> lazy && j !in i.inbox
  {
    var phase, data := PhaseOf(i.seen, j, lazy), DataOf(i.seen, j);
    if j == FrameId(f) {
      DeliverOwn(i, f, lazy, own, minted, phase, data);
      DeliveredSays(i, f, j, lazy, own, minted, Advance(phase, f), data + f.payload);
    } else {
      DeliverOther(i, f, j, lazy, own, minted, phase, data);
      assert data + [] == data;
      DeliveredSays(i, f, j, lazy, own, minted, phase, data);
    }
  }

  lemma DeliverReceivers(o: Outbound, x: Endpoint, aServer: bool)
    requires aServer == !x.isServer && SideOK(x) && WireOK(o, x.inb) && FramesOK(o) && SendersOK(o, aServer)
    requires RepliesOK(o, aServer, x.opens) && ReceiversOK(x.inb, aServer, x.opens)
    requires |x.inb.seen| < |o.sent|
    ensures ReceiversOK(Deliver(x.inb, o.sent[|x.inb.seen|]), aServer, x.opens)
    ensures var f := o.sent[|x.inb.seen|];
            f.header.flag == Open ==> Own(aServer, FrameId(f)) && FrameId(f) !in x.inb.inbox
  {
    var i, f := x.inb, o.sent[|x.inb.seen|];
    forall j: U32
      ensures ReceiverOK(Deliver(i, f), Own(aServer, j), Own(!aServer, j), Minted(!aServer, x.opens, j), j)
      ensures f.header.flag == Open && FrameId(f) == j ==> Own(aServer, j) && j !in x.inb.inbox
    {
      assert IdOK(x, j) && SenderOK(o, Own(aServer, j), j);
      assert ReceiverOK(i, Own(aServer, j), Own(!aServer, j), Minted(!aServer, x.opens, j), j);
      if FrameId(f) == j { NextFits(o, i, Own(aServer, j)); }
      DeliverId(i, f, Own(aServer, j), Own(!aServer, j), Minted(!aServer, x.opens, j), j);
    }
  }

  /** A stream waiting to be accepted has a live sender until its FIN. */
  lemma WaitingIsLive(o: Outbound, x: Endpoint, aServer: bool, s: AcceptedStream)
    requires aServer == !x.isServer && WireOK(o, x.inb) && |x.inb.seen| < |o.sent|
    requires FrameId(o.sent[|x.inb.seen|]) == s.id && o.sent[|x.inb.seen|].header.flag == Data
    requires IdOK(x, s.id) && SenderOK(o, Own(aServer, s.id), s.id)
    requires ReceiverOK(x.inb, Own(aServer, s.id), Own(!aServer, s.id), Minted(!aServer, x.opens, s.id), s.id)
    requires s.id in x.inb.inbox && s.id !in x.inb.recvs
    ensures s.id in x.inb.streams
  {
    NextFits(o, x.inb, Own(aServer, s.id));
  }

  lemma DeliverQueued(i: Inbound, f: Frame, s: AcceptedStream)
    requires QueuedOK(i, s) && Emittable(f)
    requires f.header.flag == Open ==> FrameId(f) !in i.inbox
    requires f.header.flag == Data && FrameId(f) == s.id ==> s.id in i.streams
    ensures QueuedOK(Deliver(i, f), s)
  {
    DeliverWaiting(i, f, s, DataOf(i.seen, s.id));
    SeenOther(i.seen, f, s.id, false);
  }

  lemma DeliverQueue(o: Outbound, x: Endpoint, aServer: bool, aOpens: nat, s: AcceptedStream)
    requires aServer == !x.isServer && SideOK(x) && WireOK(o, x.inb) && FramesOK(o) && SendersOK(o, aServer)
    requires RepliesOK(o, aServer, x.opens) && ReceiversOK(x.inb, aServer, x.opens)
    requires |x.inb.seen| < |o.sent| && QueuedOK(x.inb, s) && s.id !in x.inb.recvs
    ensures QueuedOK(Deliver(x.inb, o.sent[|x.inb.seen|]), s)
  {
    var i, f := x.inb, o.sent[|x.inb.seen|];
    assert f.header.flag == Open ==> FrameId(f) !in i.inbox by { DeliverReceivers(o, x, aServer); }
    if f.header.flag == Data && FrameId(f) == s.id {
      assert IdOK(x, s.id) && SenderOK(o, Own(aServer, s.id), s.id);
      assert ReceiverOK(i, Own(aServer, s.id), Own(!aServer, s.id), Minted(!aServer, x.opens, s.id), s.id);
      WaitingIsLive(o, x, aServer, s);
    }
    DeliverQueued(i, f, s);
  }

  lemma DeliverSide(x: Endpoint, f: Frame)
    requires SideOK(x)
    requires f.header.flag == Open ==>
               !Own(x.isServer, FrameId(f)) && FrameId(f) != CONTROL_STREAM_ID && FrameId(f) !in x.inb.recvs
    requires f.header.flag == Open ==>
               forall k :: 0 <= k < |x.inb.accepts| ==> x.inb.accepts[k].id != FrameId(f)
    ensures SideOK(x.(inb := Deliver(x.inb, f)))
  {
    var x' := x.(inb := Deliver(x.inb, f));
    forall j: U32 ensures IdOK(x', j) { assert IdOK(x, j); }
  }

  lemma DeliverNewEntry(i: Inbound, f: Frame, lazy: bool, own: bool, minted: bool)
    requires f.header.flag == Open && FrameId(f) != CONTROL_STREAM_ID && FrameId(f) !in i.inbox
    requires ReceiverOK(i, lazy, own, minted, FrameId(f))
    ensures QueuedOK(Deliver(i, f), AcceptedStream(FrameId(f), f.payload))
  {
    SeenOther(i.seen, f, FrameId(f), lazy);
    assert [] + f.payload == f.payload + [];
  }

  lemma DeliverQueues(o: Outbound, x: Endpoint, aServer: bool, aOpens: nat)
    requires aServer == !x.isServer && SideOK(x) && Dir(o, x.inb, aServer, aOpens, x.opens)
    requires |x.inb.seen| < |o.sent|
    requires var f := o.sent[|x.inb.seen|]; f.header.flag == Open ==> Minted(aServer, aOpens, FrameId(f))
    ensures QueueOK(Deliver(x.inb, o.sent[|x.inb.seen|]), aServer, aOpens)
  {
    var i, f := x.inb, o.sent[|x.inb.seen|];
    var i', id := Deliver(i, f), FrameId(f);
    forall k | 0 <= k < |i'.accepts|
      ensures QueuedOK(i', i'.accepts[k])
      ensures i'.accepts[k].id != CONTROL_STREAM_ID ==> Minted(aServer, aOpens, i'.accepts[k].id)
    {
      if k < |i.accepts| {
        assert QueuedOK(i, i.accepts[k]);
        DeliverQueue(o, x, aServer, aOpens, i.accepts[k]);
      } else {
        DeliverReceivers(o, x, aServer);
        assert ReceiverOK(i, Own(aServer, id), Own(!aServer, id), Minted(!aServer, x.opens, id), id);
        DeliverNewEntry(i, f, Own(aServer, id), Own(!aServer, id), Minted(!aServer, x.opens, id));
      }
    }
    if i'.controlSlot { DeliverQueue(o, x, aServer, aOpens, AcceptedStream(CONTROL_STREAM_ID, [])); }
  }

  /** The OPEN of a peer never names an id that is already registered, waiting or handed out here. */
  lemma FreshOnPeerOpen(o: Outbound, x: Endpoint, aServer: bool, aOpens: nat)
    requires aServer == !x.isServer && SideOK(x) && Dir(o, x.inb, aServer, aOpens, x.opens)
    requires |x.inb.seen| < |o.sent| && o.sent[|x.inb.seen|].header.flag == Open
    ensures var id := FrameId(o.sent[|x.inb.seen|]);
            && id != CONTROL_STREAM_ID && !Own(x.isServer, id)
            && id !in x.inb.streams && id !in x.inb.inbox && id !in x.inb.recvs
            && forall k :: 0 <= k < |x.inb.accepts| ==> x.inb.accepts[k].id != id
  {
    var i, id := x.inb, FrameId(o.sent[|x.inb.seen|]);
    DeliverReceivers(o, x, aServer);
    assert ReceiverOK(i, Own(aServer, id), Own(!aServer, id), Minted(!aServer, x.opens, id), id);
    forall k | 0 <= k < |i.accepts| ensures i.accepts[k].id != id {
      assert QueuedOK(i, i.accepts[k]);
    }
  }

  lemma DispatchDir(o: Outbound, x: Endpoint, aServer: bool, aOpens: nat)
    requires aServer == !x.isServer && SideOK(x) && Dir(o, x.inb, aServer, aOpens, x.opens)
    requires Inspect(x.inb.rbuf).Complete?
    requires var f := Inspect(x.inb.rbuf).f;
             Own(aServer, FrameId(f)) && FrameId(f) in o.sends ==> Minted(aServer, aOpens, FrameId(f))
    ensures Dir(o, Deliver(x.inb, Inspect(x.inb.rbuf).f), aServer, aOpens, x.opens)
  {
    var f := Inspect(x.inb.rbuf).f;
    var i' := Deliver(x.inb, f);
    assert |x.inb.seen| < |o.sent| && f == o.sent[|x.inb.seen|] by { CompleteIsNext(o, x.inb); }
    assert WireOK(o, i') by { DeliverWire(o, x.inb, i'); }
    assert ReceiversOK(i', aServer, x.opens) && (f.header.flag == Open ==> Own(aServer, FrameId(f))) by {
      DeliverReceivers(o, x, aServer);
    }
    assert QueueOK(i', aServer, aOpens) by { DeliverQueues(o, x, aServer, aOpens); }
  }

  lemma DispatchSide(o: Outbound, x: Endpoint, aServer: bool, aOpens: nat)
    requires aServer == !x.isServer && SideOK(x) && Dir(o, x.inb, aServer, aOpens, x.opens)
    requires Inspect(x.inb.rbuf).Complete?
    ensures SideOK(x.(inb := Deliver(x.inb, Inspect(x.inb.rbuf).f)))
  {
    var f := Inspect(x.inb.rbuf).f;
    CompleteIsNext(o, x.inb);
    if f.header.flag == Open { FreshOnPeerOpen(o, x, aServer, aOpens); }
    DeliverSide(x, f);
  }

  lemma DispatchKeeps(x: Endpoint, y: Endpoint)
    requires Pair(x, y) && Inspect(x.inb.rbuf).Complete?
    ensures Pair(x.(inb := Deliver(x.inb, Inspect(x.inb.rbuf).f)), y)
  {
    assert IdOK(y, FrameId(Inspect(x.inb.rbuf).f));
    DispatchDir(y.out, x, y.isServer, y.opens);
    DispatchSide(y.out, x, y.isServer, y.opens);
  }

  // ---------------- reads and drops ----------------

  lemma ReadOwn(i: Inbound, id: U32, room: nat, lazy: bool, own: bool, minted: bool, phase: Phase, data: seq<Byte>)
    requires RecvOK(i, id, lazy, own, minted, phase, data)
    requires id in i.recvs && id in i.inbox && id in i.got && id !in i.dropped
    ensures RecvOK(AfterRead(i, id, room), id, lazy, own, minted, phase, data)
  {
    var r, g := ReadFrom(i, id, room), i.got[id];
    ReadTakesNext(i.recvs[id], i.inbox[id], id !in i.streams, room);
    Regroup(g, Received(r), r.half.leftover, Flat(r.chunks));
    Regroup(g, [], i.recvs[id].leftover, Flat(i.inbox[id]));
  }

  lemma Regroup(g: seq<Byte>, a: seq<Byte>, b: seq<Byte>, c: seq<Byte>)
    ensures g + a + b + c == g + (a + b + c)
    ensures g + [] == g && [] + b == b
  {
  }

  lemma ReadReceivers(i: Inbound, aServer: bool, bOpens: nat, id: U32, room: nat)
    requires ReceiversOK(i, aServer, bOpens)
    requires id in i.recvs && id in i.inbox && id in i.got && id !in i.dropped
    ensures ReceiversOK(AfterRead(i, id, room), aServer, bOpens)
  {
    forall j: U32
      ensures ReceiverOK(AfterRead(i, id, room), Own(aServer, j), Own(!aServer, j), Minted(!aServer, bOpens, j), j)
    {
      assert ReceiverOK(i, Own(aServer, j), Own(!aServer, j), Minted(!aServer, bOpens, j), j);
      if j == id {
        ReadOwn(i, id, room, Own(aServer, j), Own(!aServer, j), Minted(!aServer, bOpens, j),
                PhaseOf(i.seen, j, Own(aServer, j)), DataOf(i.seen, j));
      }
    }
  }

  lemma DropReceivers(i: Inbound, aServer: bool, bOpens: nat, id: U32)
    requires ReceiversOK(i, aServer, bOpens) && id in i.recvs && id in i.got && id !in i.dropped
    ensures ReceiversOK(i.(streams := i.streams - {id}, dropped := i.dropped + {id}), aServer, bOpens)
  {
    var i' := i.(streams := i.streams - {id}, dropped := i.dropped + {id});
    forall j: U32
      ensures ReceiverOK(i', Own(aServer, j), Own(!aServer, j), Minted(!aServer, bOpens, j), j)
    {
      assert ReceiverOK(i, Own(aServer, j), Own(!aServer, j), Minted(!aServer, bOpens, j), j);
    }
  }

  /** A step of a recv half leaves the ids and the queue of waiting streams alone. */
  ghost predicate RecvStep(i: Inbound, i': Inbound, id: U32) {
    && id in i.recvs
    && i'.seen == i.seen && i'.rbuf == i.rbuf && i'.accepts == i.accepts && i'.controlSlot == i.controlSlot
    && (forall j: U32 :: j in i'.recvs <==> j in i.recvs)
    && (forall j: U32 :: j in i'.got <==> j in i.got)
    && (forall j: U32 :: j in i'.dropped ==> j in i.dropped || j == id)
    && (forall j: U32 :: j in i.inbox && j != id ==> j in i'.inbox && i'.inbox[j] == i.inbox[j])
  }

  lemma RecvStepSide(x: Endpoint, i': Inbound, id: U32)
    requires SideOK(x) && RecvStep(x.inb, i', id)
    ensures SideOK(x.(inb := i'))
  {
    forall j: U32 ensures IdOK(x.(inb := i'), j) { assert IdOK(x, j); }
  }

  lemma RecvStepQueue(x: Endpoint, i': Inbound, id: U32, aServer: bool, aOpens: nat)
    requires SideOK(x) && QueueOK(x.inb, aServer, aOpens) && RecvStep(x.inb, i', id)
    ensures QueueOK(i', aServer, aOpens)
  {
    forall k | 0 <= k < |i'.accepts| ensures QueuedOK(i', i'.accepts[k]) {
      assert QueuedOK(x.inb, x.inb.accepts[k]);
    }
  }

  lemma ReadKeeps(x: Endpoint, y: Endpoint, id: U32, room: nat)
    requires Pair(x, y) && id in x.inb.recvs && id in x.inb.inbox && id in x.inb.got && id !in x.inb.dropped
    ensures Pair(x.(inb := AfterRead(x.inb, id, room)), y)
  {
    ReadReceivers(x.inb, y.isServer, x.opens, id, room);
    RecvStepSide(x, AfterRead(x.inb, id, room), id);
    RecvStepQueue(x, AfterRead(x.inb, id, room), id, y.isServer, y.opens);
  }

  lemma DropKeeps(x: Endpoint, y: Endpoint, id: U32)
    requires Pair(x, y) && id in x.inb.recvs && id !in x.inb.dropped
    ensures Pair(x.(inb := x.inb.(streams := x.inb.streams - {id}, dropped := x.inb.dropped + {id})), y)
  {
    var i' := x.inb.(streams := x.inb.streams - {id}, dropped := x.inb.dropped + {id});
    assert IdOK(x, id);
    DropReceivers(x.inb, y.isServer, x.opens, id);
    RecvStepSide(x, i', id);
    RecvStepQueue(x, i', id, y.isServer, y.opens);
  }
}
