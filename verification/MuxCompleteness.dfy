/** Nothing is lost and nothing gets stuck while every write fits the peer's cap. */
module MuxCompleteness {
  import opened Bytes
  import opened MuxWire
  import opened MuxHalves
  import opened MuxSystem
  import opened MuxInvariant
  import opened MuxRuns

  // ---------------- the readers keep running ----------------

  predicate AllAcceptable(o: Outbound) {
    forall k :: 0 <= k < |o.sent| ==> Acceptable(o.sent[k])
  }

  /** Every registered channel belongs to a recv half, a waiting stream, or the unclaimed Control stream. */
  ghost predicate Listed(i: Inbound) {
    forall id: U32 :: id in i.inbox ==> ListedId(i, id)
  }

  ghost predicate ListedId(i: Inbound, id: U32) {
    || id in i.recvs
    || (exists k :: 0 <= k < |i.accepts| && i.accepts[k].id == id)
    || (id == CONTROL_STREAM_ID && i.controlSlot)
  }

  ghost predicate Healthy(x: Endpoint) {
    AllAcceptable(x.out) && Listed(x.inb)
  }

  lemma ListedStep(i: Inbound, i': Inbound, id: U32)
    requires ListedId(i, id)
    requires forall j: U32 :: j in i.recvs ==> j in i'.recvs
    requires i.accepts <= i'.accepts && (i.controlSlot ==> i'.controlSlot)
    ensures ListedId(i', id)
  {
    if k :| 0 <= k < |i.accepts| && i.accepts[k].id == id { assert i'.accepts[k].id == id; }
  }

  lemma DeliverListed(i: Inbound, f: Frame)
    requires Listed(i)
    ensures Listed(Deliver(i, f))
  {
    var i' := Deliver(i, f);
    forall id: U32 | id in i'.inbox ensures ListedId(i', id) {
      if id in i.inbox { ListedStep(i, i', id); } else { DeliverLists(i, f, id); }
    }
  }

  lemma DeliverLists(i: Inbound, f: Frame, id: U32)
    requires id in Deliver(i, f).inbox && id !in i.inbox
    ensures ListedId(Deliver(i, f), id)
  {
    assert Deliver(i, f).accepts[|i.accepts|].id == id;
  }

  lemma LocalListed(x: Endpoint, e: Event, cap: nat)
    requires Listed(x.inb) && Enabled(x, e, cap)
    ensures Listed(Apply(x, e, cap).inb)
  {
    if e.Dispatch? { DeliverListed(x.inb, Inspect(x.inb.rbuf).f); }
  }

  lemma StepHealthy(w: World, s: Step, cap: nat)
    requires Healthy(w.client) && Healthy(w.server) && CanStep(w, s, cap) && cap <= MAX_MUX_PAYLOAD
    ensures Healthy(DoStep(w, s, cap).client) && Healthy(DoStep(w, s, cap).server)
  {
    match s
    case Local(true, e) => LocalListed(w.server, e, cap);
    case Local(false, e) => LocalListed(w.client, e, cap);
    case Pull(_, _) =>
  }

  lemma {:induction false} HealthyAlways(ws: seq<World>, steps: seq<Step>, cap: nat, n: nat)
    requires Run(ws, steps, cap) && cap <= MAX_MUX_PAYLOAD && n < |ws|
    ensures Healthy(ws[n].client) && Healthy(ws[n].server)
  {
    if n == 0 {
      assert ListedId(Fresh(false).inb, CONTROL_STREAM_ID);
      assert Fresh(true).inb.accepts[0].id == CONTROL_STREAM_ID;
    } else {
      HealthyAlways(ws, steps, cap, n - 1);
      StepHealthy(ws[n - 1], steps[n - 1], cap);
    }
  }

  /** No reader ever gives up on a peer whose writes fit the cap. */
  lemma ReaderNeverExits(x: Endpoint, y: Endpoint)
    requires Pair(x, y) && AllAcceptable(y.out)
    ensures !Inspect(x.inb.rbuf).Exit?
  {
    if x.inb.rbuf != [] {
      HeadOfWire(y.out, x.inb);
      var f, n := y.out.sent[|x.inb.seen|], |x.inb.rbuf|;
      InspectHead(f, n);
    }
  }

  // ---------------- completeness ----------------

  /** All frames dispatched, nothing left in the channel or the leftover buffer of stream `id`. */
  predicate Drained(x: Endpoint, y: Endpoint, id: U32) {
    && |y.inb.seen| == |x.out.sent|
    && id in x.out.sends && id in x.out.wrote
    && id in y.inb.recvs && id in y.inb.got && id in y.inb.inbox && id !in y.inb.dropped
    && y.inb.recvs[id].leftover == [] && y.inb.inbox[id] == []
  }

  /** A drained finished stream was read in full, and the next read sees its end. */
  lemma DrainedIsComplete(x: Endpoint, y: Endpoint, id: U32, room: nat)
    requires Pair(x, y) && Drained(x, y, id) && x.out.sends[id].finished
    ensures y.inb.got[id] == Content(x.out, Own(x.isServer, id), id)
    ensures var r := ReadFrom(y.inb, id, room); r.outcome == Ready([]) && r.half.eof
  {
    var lazy := Own(x.isServer, id);
    assert SenderOK(x.out, lazy, id);
    assert ReceiverOK(y.inb, lazy, Own(!x.isServer, id), Minted(!x.isServer, y.opens, id), id);
    assert y.inb.seen == x.out.sent;
    assert y.inb.got[id] + [] + [] == y.inb.got[id];
  }

  /**
    Mux completeness: while writes fit the cap, no reader gives up on a frame,
    and in every state in which a finished stream has drained, its reader holds
    exactly the written (padded) bytes and reads end-of-stream next.
   */
  lemma MuxCompleteness(ws: seq<World>, steps: seq<Step>, cap: nat, n: nat, id: U32, room: nat)
    requires Run(ws, steps, cap) && cap <= MAX_MUX_PAYLOAD && n < |ws|
    ensures !Inspect(ws[n].client.inb.rbuf).Exit? && !Inspect(ws[n].server.inb.rbuf).Exit?
    ensures Finished(ws[n].client, ws[n].server, id) ==> ReadInFull(ws[n].client, ws[n].server, id, room)
    ensures Finished(ws[n].server, ws[n].client, id) ==> ReadInFull(ws[n].server, ws[n].client, id, room)
  {
    var c, v := ws[n].client, ws[n].server;
    InvAlways(ws, steps, cap, n);
    HealthyAlways(ws, steps, cap, n);
    PairSymmetric(c, v);
    ReaderNeverExits(c, v);
    ReaderNeverExits(v, c);
    if Finished(c, v, id) { DrainedIsComplete(c, v, id, room); }
    if Finished(v, c, id) { DrainedIsComplete(v, c, id, room); }
  }

  predicate Finished(x: Endpoint, y: Endpoint, id: U32) {
    Drained(x, y, id) && x.out.sends[id].finished
  }

  predicate ReadInFull(x: Endpoint, y: Endpoint, id: U32, room: nat)
    requires Drained(x, y, id)
  {
    var r := ReadFrom(y.inb, id, room);
    && y.inb.got[id] == Content(x.out, Own(x.isServer, id), id)
    && r.outcome == Ready([]) && r.half.eof
  }

  // ---------------- progress ----------------

  /** A step that moves the direction from `x` to `y` forward. */
  ghost predicate Moves(x: Endpoint, y: Endpoint) {
    || Enabled(x, WriterTake, 0)
    || Enabled(x, WriterPush(1), 0)
    || CanPull(y, x, 1)
    || Enabled(y, Dispatch, 0)
    || Enabled(y, AcceptStream, 0)
    || (y.inb.controlSlot && Enabled(y, OpenStream, 0))
    || (exists id: U32 :: Enabled(y, ReadBytes(id, 1), 0) && y.inb.inbox[id] != [])
  }

  predicate Readable(i: Inbound, id: U32) {
    id in i.recvs && id in i.inbox && id in i.got && id !in i.dropped && i.inbox[id] != []
  }

  /** A dispatch blocked by a full channel is blocked by a stream the application can accept or read. */
  lemma FullChannel(x: Endpoint, y: Endpoint, id: U32)
    requires Pair(x, y) && Listed(y.inb)
    requires id in y.inb.streams && id in y.inb.inbox && |y.inb.inbox[id]| >= STREAM_INBOUND_CAPACITY
    ensures Readable(y.inb, id) || y.inb.accepts != [] || y.inb.controlSlot
  {
    assert ListedId(y.inb, id) && IdOK(y, id);
    assert ReceiverOK(y.inb, Own(x.isServer, id), Own(!x.isServer, id), Minted(!x.isServer, y.opens, id), id);
  }

  lemma ReadableMoves(x: Endpoint, y: Endpoint, id: U32)
    requires !y.closed && (Readable(y.inb, id) || y.inb.accepts != [] || y.inb.controlSlot)
    ensures Moves(x, y)
  {
    if Readable(y.inb, id) { assert Enabled(y, ReadBytes(id, 1), 0); }
  }

  lemma BlockedMeansUnread(x: Endpoint, y: Endpoint)
    requires Pair(x, y) && Listed(y.inb) && !y.closed && !y.inb.done && Inspect(y.inb.rbuf).Complete?
    ensures Moves(x, y)
  {
    var f := Inspect(y.inb.rbuf).f;
    if HasRoom(y.inb, f) {
      assert Enabled(y, Dispatch, 0);
    } else {
      FullChannel(x, y, FrameId(f));
      ReadableMoves(x, y, FrameId(f));
    }
  }

  /** While a frame has arrived only in part, the rest of it can be written or read. */
  lemma PartialMoves(x: Endpoint, y: Endpoint, f: Frame)
    requires !y.inb.done && x.out.limit.None?
    requires |y.inb.rbuf| < |Encode(f)| <= |y.inb.rbuf + x.out.pipe + x.out.writing|
    requires Inspect(y.inb.rbuf).NeedMore?
    ensures Moves(x, y)
  {
    if x.out.pipe != [] {
      assert CanPull(y, x, 1);
    } else {
      assert Enabled(x, WriterPush(1), 0);
    }
  }

  /**
    No deadlock: as long as a sent frame has not been dispatched, the writer
    can write, the reader can read or dispatch, or the receiving application
    has a stream to accept or bytes to read.
   */
  lemma Progress(x: Endpoint, y: Endpoint)
    requires Pair(x, y) && AllAcceptable(x.out) && Listed(y.inb)
    requires x.out.limit.None? && !y.closed && !y.inb.done
    requires |y.inb.seen| < |x.out.sent|
    ensures Moves(x, y)
  {
    var o, i := x.out, y.inb;
    if |i.seen| == o.taken {
      assert o.sent[|i.seen|..o.taken] == [];
      assert |i.rbuf + o.pipe + o.writing| == 0;
      assert Enabled(x, WriterTake, 0);
    } else {
      HeadOfWire(o, i);
      var f := o.sent[|i.seen|];
      InspectHead(f, |i.rbuf|);
      if |i.rbuf| < |Encode(f)| { PartialMoves(x, y, f); } else { BlockedMeansUnread(x, y); }
    }
  }

  // ---------------- stream ids ----------------

  /** The id of the k-th stream a side opens, on a 32-bit counter. */
  function MintedId(isServer: bool, k: nat): U32 { (FirstId(isServer) + 2 * k) % TWO_32 }

  /** Minting keeps the parity of the side whatever the number of opens. */
  lemma MintParity(isServer: bool, k: nat)
    ensures (MintedId(isServer, k) % 2 == 1) == isServer
    ensures NextId(MintedId(isServer, k)) == MintedId(isServer, k + 1)
  {
  }

  /**
    The first `n` ids of a side are pairwise distinct and never the Control
    id exactly up to 2^31 - 1 opens of the client and 2^31 of the server.
   */
  lemma MintDistinctIff(isServer: bool, n: nat)
    ensures (forall k :: 0 <= k < n ==> MintedId(isServer, k) != CONTROL_STREAM_ID) &&
            (forall j, k :: 0 <= j < k < n ==> MintedId(isServer, j) != MintedId(isServer, k))
            <==> n <= if isServer then MAX_OPENS + 1 else MAX_OPENS
  {
    if isServer {
      assert MintedId(true, 0x8000_0000) == MintedId(true, 0);
    } else {
      assert MintedId(false, 0x7FFF_FFFF) == CONTROL_STREAM_ID;
    }
  }

  /** Any DATA or FIN a reader meets belongs to a stream registered before it. */
  lemma NoStrayFrame(x: Endpoint, y: Endpoint)
    requires Pair(x, y) && Inspect(y.inb.rbuf).Complete? && Inspect(y.inb.rbuf).f.header.flag != Open
    ensures FrameId(Inspect(y.inb.rbuf).f) in y.inb.inbox
  {
    var id := FrameId(Inspect(y.inb.rbuf).f);
    CompleteIsNext(x.out, y.inb);
    assert SenderOK(x.out, Own(x.isServer, id), id);
    assert ReceiverOK(y.inb, Own(x.isServer, id), Own(!x.isServer, id), Minted(!x.isServer, y.opens, id), id);
    NextFits(x.out, y.inb, Own(x.isServer, id));
  }
}
