/**
  What an application call achieves, in every run: a handle can always be
  used, a write on an open stream is taken in full, a read hands out what
  waits, an open and an accept hand out a new stream.
 */
module MuxCalls {
  import opened Bytes
  import opened MuxWire
  import opened MuxHalves
  import opened MuxSystem
  import opened MuxInvariant
  import opened MuxRuns

  function Side(w: World, atServer: bool): Endpoint { if atServer then w.server else w.client }

  lemma SideHolds(ws: seq<World>, steps: seq<Step>, cap: nat, k: nat, atServer: bool)
    requires Run(ws, steps, cap) && cap < TWO_32 && k < |ws|
    ensures Pair(Side(ws[k], atServer), Side(ws[k], !atServer))
  {
    InvAlways(ws, steps, cap, k);
    PairSymmetric(ws[k].client, ws[k].server);
  }

  lemma LocalStep(ws: seq<World>, steps: seq<Step>, cap: nat, k: nat, atServer: bool, e: Event)
    requires Run(ws, steps, cap) && k < |steps| && steps[k] == Local(atServer, e)
    ensures Enabled(Side(ws[k], atServer), e, cap)
    ensures Side(ws[k + 1], atServer) == Apply(Side(ws[k], atServer), e, cap)
    ensures Side(ws[k + 1], !atServer) == Side(ws[k], !atServer)
  {
    assert CanStep(ws[k], steps[k], cap);
  }

  /** A side may act exactly when its own state allows it, whatever its peer is doing. */
  lemma ActsAlone(w: World, atServer: bool, e: Event, cap: nat)
    ensures CanStep(w, Local(atServer, e), cap) <==> Enabled(Side(w, atServer), e, cap)
  {
  }

  /** Every handle the application holds can be used in every state of every run. */
  lemma HandlesUsable(ws: seq<World>, steps: seq<Step>, cap: nat, k: nat, atServer: bool, id: U32, buf: seq<Byte>, room: nat)
    requires Run(ws, steps, cap) && cap < TWO_32 && k < |ws| && |buf| <= cap
    ensures var x := Side(ws[k], atServer);
            && (id in x.out.sends ==> Enabled(x, WriteBytes(id, buf), cap) && Enabled(x, FinishStream(id), cap))
            && (id in x.inb.recvs && id !in x.inb.dropped ==> Enabled(x, ReadBytes(id, room), cap) && Enabled(x, DropRecv(id), cap))
            && (x.inb.accepts != [] ==> Enabled(x, AcceptStream, cap))
            && (!x.closed && x.opens < MAX_OPENS ==> Enabled(x, OpenStream, cap) && Enabled(x, CloseMux, cap))
  {
    var x, y := Side(ws[k], atServer), Side(ws[k], !atServer);
    SideHolds(ws, steps, cap, k, atServer);
    assert IdOK(x, id);
    assert SenderOK(x.out, Own(x.isServer, id), id);
    assert ReceiverOK(x.inb, Own(y.isServer, id), Own(!y.isServer, id), Minted(!y.isServer, x.opens, id), id);
  }

  /** Streams other than `id` keep their halves and histories. */
  ghost predicate OthersKept(x: Endpoint, x': Endpoint, id: U32) {
    forall j: U32 :: j != id ==>
      && (j in x'.out.sends <==> j in x.out.sends) && (j in x.out.sends ==> x'.out.sends[j] == x.out.sends[j])
      && (j in x'.out.wrote <==> j in x.out.wrote) && (j in x.out.wrote ==> x'.out.wrote[j] == x.out.wrote[j])
      && (j in x'.inb.recvs <==> j in x.inb.recvs) && (j in x.inb.recvs ==> x'.inb.recvs[j] == x.inb.recvs[j])
      && (j in x'.inb.got <==> j in x.inb.got) && (j in x.inb.got ==> x'.inb.got[j] == x.inb.got[j])
  }

  /** A write on an unfinished stream of an open mux is taken in full; any other write changes nothing. */
  lemma WriteInRuns(ws: seq<World>, steps: seq<Step>, cap: nat, k: nat, atServer: bool, id: U32, buf: seq<Byte>)
    requires Run(ws, steps, cap) && k < |steps| && steps[k] == Local(atServer, WriteBytes(id, buf))
    ensures var x, x' := Side(ws[k], atServer), Side(ws[k + 1], atServer);
            && id in x.out.sends && id in x.out.wrote && id in x'.out.sends && id in x'.out.wrote
            && OthersKept(x, x', id)
            && if x.out.sends[id].finished || x.closed then x' == x
               else x'.out.wrote[id] == x.out.wrote[id] + buf && !x'.out.sends[id].finished
  {
    var x := Side(ws[k], atServer);
    LocalStep(ws, steps, cap, k, atServer, WriteBytes(id, buf));
    WriteAccepts(x.out.sends[id], x.closed, buf);
    RefusedNothing(x.out, id);
  }

  lemma RefusedNothing(o: Outbound, id: U32)
    requires id in o.sends && id in o.wrote
    ensures Emit(o, id, Emission(o.sends[id], [], BrokenPipe), []) == o
  {
    assert o.wrote[id] + [] == o.wrote[id];
    assert o.sends[id := o.sends[id]] == o.sends && o.wrote[id := o.wrote[id]] == o.wrote;
    assert o.sent + [] == o.sent;
  }

  /** What a first finish makes of a stream: its bytes, padded with zeros to nine if its OPEN was still owed. */
  predicate Sealed(h: SendHalf, wrote: seq<Byte>, data: seq<Byte>) {
    if h.pendingOpen.Some? then
      && |data| == 9 && wrote <= data
      && forall j :: |wrote| <= j < 9 ==> data[j] == 0
    else data == wrote
  }

  lemma SealedByFinish(o: Outbound, o': Outbound, lazy: bool, id: U32)
    requires id in o.sends && id in o.wrote && SenderOK(o, lazy, id) && !o.sends[id].finished
    requires id in o'.sends && id in o'.wrote && SenderOK(o', lazy, id) && o'.sends[id].finished
    requires o'.wrote[id] == o.wrote[id]
    ensures Sealed(o.sends[id], o.wrote[id], DataOf(o'.sent, id))
  {
  }

  lemma FinishLocal(x: Endpoint, id: U32)
    requires id in x.out.sends && id in x.out.wrote && x.out.sends[id].Valid()
    ensures var x' := x.(out := FinishOn(x.out, id));
            && id in x'.out.sends && id in x'.out.wrote && OthersKept(x, x', id)
            && x'.out.sends[id].finished && x'.out.wrote[id] == x.out.wrote[id]
            && (x.out.sends[id].finished ==> x' == x)
  {
    assert x.out.wrote[id] + [] == x.out.wrote[id];
    FinishSends(x.out.sends[id]);
    if x.out.sends[id].finished { RefusedNothing(x.out, id); }
  }

  /** A finish ends the stream once and for all; what was written is final. */
  lemma FinishInRuns(ws: seq<World>, steps: seq<Step>, cap: nat, k: nat, atServer: bool, id: U32)
    requires Run(ws, steps, cap) && cap < TWO_32 && k < |steps| && steps[k] == Local(atServer, FinishStream(id))
    ensures var x, x' := Side(ws[k], atServer), Side(ws[k + 1], atServer);
            && id in x.out.sends && id in x.out.wrote && id in x'.out.sends && id in x'.out.wrote
            && OthersKept(x, x', id)
            && x'.out.sends[id].finished && x'.out.wrote[id] == x.out.wrote[id]
            && if x.out.sends[id].finished then x' == x
               else Sealed(x.out.sends[id], x.out.wrote[id], DataOf(x'.out.sent, id))
  {
    var x, x' := Side(ws[k], atServer), Side(ws[k + 1], atServer);
    var lazy := Own(x.isServer, id);
    LocalStep(ws, steps, cap, k, atServer, FinishStream(id));
    FinishLocal(x, id);
    if !x.out.sends[id].finished {
      assert SenderOK(x.out, lazy, id) by { SideHolds(ws, steps, cap, k, atServer); }
      assert SenderOK(x'.out, lazy, id) by { SideHolds(ws, steps, cap, k + 1, atServer); }
      SealedByFinish(x.out, x'.out, lazy, id);
    }
  }

  /** An open hands out a stream nobody held: Control to the first open of a client, a minted id owing its OPEN to any other. */
  lemma OpenInRuns(ws: seq<World>, steps: seq<Step>, cap: nat, k: nat, atServer: bool)
    requires Run(ws, steps, cap) && cap < TWO_32 && k < |steps| && steps[k] == Local(atServer, OpenStream)
    ensures var x, x' := Side(ws[k], atServer), Side(ws[k + 1], atServer);
            var id := if x.inb.controlSlot then CONTROL_STREAM_ID else x.nextId;
            && id !in x.out.sends && id !in x.inb.recvs && OthersKept(x, x', id)
            && id in x'.out.sends && id in x'.out.wrote && id in x'.inb.recvs && id in x'.inb.got
            && x'.out.sends[id] == SendHalf(id, if x.inb.controlSlot then None else Some([]), false)
            && x'.out.wrote[id] == [] && x'.inb.recvs[id] == RecvHalf([], false) && x'.inb.got[id] == []
            && !x'.inb.controlSlot && (x.inb.controlSlot ==> !atServer)
            && x'.opens == x.opens + (if x.inb.controlSlot then 0 else 1)
            && (!x.inb.controlSlot ==> id != CONTROL_STREAM_ID && (id % 2 == 1) == x.isServer)
  {
    var x := Side(ws[k], atServer);
    LocalStep(ws, steps, cap, k, atServer, OpenStream);
    SideHolds(ws, steps, cap, k, atServer);
    RolesFixed(ws, steps, cap, k);
    var id := if x.inb.controlSlot then CONTROL_STREAM_ID else x.nextId;
    if !x.inb.controlSlot { FreshOnOpen(x); }
    assert IdOK(x, id);
  }

  lemma {:induction false} RolesFixed(ws: seq<World>, steps: seq<Step>, cap: nat, k: nat)
    requires Run(ws, steps, cap) && k < |ws|
    ensures !ws[k].client.isServer && ws[k].server.isServer
  {
    if k > 0 {
      RolesFixed(ws, steps, cap, k - 1);
      assert CanStep(ws[k - 1], steps[k - 1], cap);
    }
  }

  /** An accept hands out the stream that has waited longest, with the bytes of its OPEN ready to read unless it is Control. */
  lemma AcceptInRuns(ws: seq<World>, steps: seq<Step>, cap: nat, k: nat, atServer: bool)
    requires Run(ws, steps, cap) && cap < TWO_32 && k < |steps| && steps[k] == Local(atServer, AcceptStream)
    ensures var x, x' := Side(ws[k], atServer), Side(ws[k + 1], atServer);
            && x.inb.accepts != [] && x'.inb.accepts == x.inb.accepts[1..]
            && var a := x.inb.accepts[0];
               && a.id !in x.out.sends && OthersKept(x, x', a.id)
               && a.id in x'.out.sends && a.id in x'.out.wrote && a.id in x'.inb.recvs && a.id in x'.inb.got
               && x'.out.sends[a.id] == SendHalf(a.id, None, false) && x'.out.wrote[a.id] == []
               && x'.inb.recvs[a.id] == RecvHalf(if a.id == CONTROL_STREAM_ID then [] else a.openPayload, false)
               && x'.inb.got[a.id] == []
  {
    var x := Side(ws[k], atServer);
    LocalStep(ws, steps, cap, k, atServer, AcceptStream);
    SideHolds(ws, steps, cap, k, atServer);
    assert IdOK(x, x.inb.accepts[0].id);
  }

  /** The bytes a stream has ready to hand out. */
  function Ready(i: Inbound, id: U32): seq<Byte>
    requires id in i.recvs && id in i.inbox
  {
    i.recvs[id].leftover + Flat(i.inbox[id])
  }

  /** What a read of stream `id` does to the receiving side. */
  predicate ReadsOn(i: Inbound, i': Inbound, id: U32, room: nat) {
    && id in i.recvs && id in i.inbox && id in i.got && id in i'.recvs && id in i'.inbox && id in i'.got
    && i'.got[id] + Ready(i', id) == i.got[id] + Ready(i, id)
    && i.got[id] <= i'.got[id] && |i'.got[id]| <= |i.got[id]| + room
    && (room > 0 && Ready(i, id) != [] ==> |i.got[id]| < |i'.got[id]|)
    && (i'.recvs[id].eof <==> i.recvs[id].eof || (Ready(i, id) == [] && id !in i.streams))
  }

  lemma ReadLocal(x: Endpoint, id: U32, room: nat)
    requires id in x.inb.recvs && id in x.inb.inbox && id in x.inb.got
    requires x.inb.recvs[id].eof ==> x.inb.recvs[id].leftover == [] && x.inb.inbox[id] == []
    requires forall k :: 0 <= k < |x.inb.inbox[id]| ==> x.inb.inbox[id][k] != []
    ensures var x' := x.(inb := AfterRead(x.inb, id, room));
            ReadsOn(x.inb, x'.inb, id, room) && OthersKept(x, x', id)
  {
    ReadValues(x.inb.recvs[id], x.inb.inbox[id], id !in x.inb.streams, room, x.inb.got[id]);
  }

  /** A read hands out the next bytes: at least one if any wait and there is room, never more than there is room for. */
  lemma ReadInRuns(ws: seq<World>, steps: seq<Step>, cap: nat, k: nat, atServer: bool, id: U32, room: nat)
    requires Run(ws, steps, cap) && cap < TWO_32 && k < |steps| && steps[k] == Local(atServer, ReadBytes(id, room))
    ensures var x, x' := Side(ws[k], atServer), Side(ws[k + 1], atServer);
            ReadsOn(x.inb, x'.inb, id, room) && OthersKept(x, x', id)
  {
    var x, y := Side(ws[k], atServer), Side(ws[k], !atServer);
    LocalStep(ws, steps, cap, k, atServer, ReadBytes(id, room));
    assert ReceiverOK(x.inb, Own(y.isServer, id), Own(!y.isServer, id), Minted(!y.isServer, x.opens, id), id) by {
      SideHolds(ws, steps, cap, k, atServer);
    }
    ReadLocal(x, id, room);
  }

  lemma ReadValues(r: RecvHalf, chunks: seq<Chunk>, gone: bool, room: nat, got: seq<Byte>)
    requires r.eof ==> r.leftover == [] && chunks == []
    requires forall k :: 0 <= k < |chunks| ==> chunks[k] != []
    ensures var res := Read(r, chunks, gone, room);
            var data := Received(res);
            && (got + data) + (res.half.leftover + Flat(res.chunks)) == got + (r.leftover + Flat(chunks))
            && |data| <= room && (room > 0 && r.leftover + Flat(chunks) != [] ==> data != [])
            && (res.half.eof <==> r.eof || (r.leftover + Flat(chunks) == [] && gone))
  {
    var res := Read(r, chunks, gone, room);
    ReadIff(r, chunks, gone, room);
    ReadTakesNext(r, chunks, gone, room);
    Regroup(got, Received(res), res.half.leftover, Flat(res.chunks));
    assert chunks != [] ==> Flat(chunks) != [];
  }

  lemma Regroup(a: seq<Byte>, b: seq<Byte>, c: seq<Byte>, d: seq<Byte>)
    ensures (a + b) + (c + d) == a + (b + c + d)
  {
  }
}
