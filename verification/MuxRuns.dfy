/** The mux invariant and safety over every run: what is read is a prefix of what was written. */
module MuxRuns {
  import opened Bytes
  import opened MuxWire
  import opened MuxHalves
  import opened MuxSystem
  import opened MuxInvariant

  // ---------------- every step, every run ----------------

  /** Two outbound sides that differ only in where the bytes are. */
  predicate SameOut(o: Outbound, o': Outbound) {
    o'.sent == o.sent && o'.sends == o.sends && o'.wrote == o.wrote
  }

  predicate SameIn(i: Inbound, i': Inbound) {
    && i'.seen == i.seen && i'.streams == i.streams && i'.inbox == i.inbox
    && i'.accepts == i.accepts && i'.controlSlot == i.controlSlot
    && i'.recvs == i.recvs && i'.got == i.got && i'.dropped == i.dropped
  }

  lemma MovedSide(x: Endpoint, closed: bool, o': Outbound, i': Inbound)
    requires SideOK(x) && SameOut(x.out, o') && SameIn(x.inb, i')
    ensures SideOK(x.(closed := closed, out := o', inb := i'))
  {
    var x' := x.(closed := closed, out := o', inb := i');
    forall id: U32 ensures IdOK(x', id) { assert IdOK(x, id); }
  }

  lemma MovedDir(o: Outbound, i: Inbound, aServer: bool, aOpens: nat, bOpens: nat, o': Outbound, i': Inbound)
    requires Dir(o, i, aServer, aOpens, bOpens) && SameOut(o, o') && SameIn(i, i') && WireOK(o', i')
    ensures Dir(o', i', aServer, aOpens, bOpens)
  {
    assert SendersOK(o', aServer) by {
      forall id: U32 ensures SenderOK(o', Own(aServer, id), id) { assert SenderOK(o, Own(aServer, id), id); }
    }
    assert ReceiversOK(i', aServer, bOpens) by {
      forall j: U32 ensures ReceiverOK(i', Own(aServer, j), Own(!aServer, j), Minted(!aServer, bOpens, j), j) {
        assert ReceiverOK(i, Own(aServer, j), Own(!aServer, j), Minted(!aServer, bOpens, j), j);
      }
    }
    assert QueueOK(i', aServer, aOpens) by {
      forall k | 0 <= k < |i'.accepts| ensures QueuedOK(i', i'.accepts[k]) { assert QueuedOK(i, i.accepts[k]); }
    }
  }

  /** The writer task moves bytes and changes nothing else. */
  lemma WriterKeeps(x: Endpoint, y: Endpoint, closed: bool, o': Outbound)
    requires Pair(x, y) && WireOK(o', y.inb) && SameOut(x.out, o')
    ensures Pair(x.(closed := closed, out := o'), y)
  {
    MovedSide(x, closed, o', x.inb);
    MovedDir(x.out, y.inb, x.isServer, x.opens, y.opens, o', y.inb);
  }

  lemma ExitKeeps(x: Endpoint, y: Endpoint)
    requires Pair(x, y)
    ensures Pair(x.(closed := true, inb := x.inb.(done := true)), y)
  {
    MovedSide(x, true, x.out, x.inb.(done := true));
    MovedDir(y.out, x.inb, y.isServer, y.opens, x.opens, y.out, x.inb.(done := true));
  }

  lemma LocalKeeps(x: Endpoint, y: Endpoint, e: Event, cap: nat)
    requires Pair(x, y) && Enabled(x, e, cap) && cap < TWO_32
    ensures Pair(Apply(x, e, cap), y)
  {
    match e
    case OpenStream => OpenKeeps(x, y);
    case AcceptStream => AcceptKeeps(x, y);
    case WriteBytes(id, buf) => WriteKeeps(x, y, id, buf);
    case FinishStream(id) => FinishKeeps(x, y, id);
    case CloseMux => WriterKeeps(x, y, true, x.out.(limit := Some(|x.out.sent|)));
    case WriterTake =>
      TakeWire(x.out, y.inb);
      WriterKeeps(x, y, x.closed, Take(x.out));
    case WriterPush(n) =>
      PushWire(x.out, y.inb, n);
      WriterKeeps(x, y, x.closed, x.out.(pipe := x.out.pipe + x.out.writing[..n], writing := x.out.writing[n..]));
    case Dispatch => DispatchKeeps(x, y);
    case ReaderExit => ExitKeeps(x, y);
    case ConnectionLost => ExitKeeps(x, y);
    case ReadBytes(id, room) => ReadKeeps(x, y, id, room);
    case DropRecv(id) => DropKeeps(x, y, id);
  }

  lemma PairSymmetric(x: Endpoint, y: Endpoint)
    requires Pair(x, y)
    ensures Pair(y, x)
  {
  }

  lemma PullKeeps(x: Endpoint, y: Endpoint, n: nat)
    requires Pair(x, y) && CanPull(x, y, n)
    ensures Pair(PullIn(x, y, n), PullOut(y, n))
  {
    var i', o' := PullIn(x, y, n).inb, PullOut(y, n).out;
    PullWire(y.out, x.inb, n);
    MovedDir(y.out, x.inb, y.isServer, y.opens, x.opens, o', i');
    MovedDir(x.out, y.inb, x.isServer, x.opens, y.opens, x.out, y.inb);
    MovedSide(x, x.closed, x.out, i');
    MovedSide(y, y.closed, o', y.inb);
  }

  lemma StepKeeps(w: World, s: Step, cap: nat)
    requires Inv(w) && CanStep(w, s, cap) && cap < TWO_32
    ensures Inv(DoStep(w, s, cap))
  {
    var c, v := w.client, w.server;
    match s
    case Local(true, e) =>
      LocalKeeps(v, c, e, cap);
      PairSymmetric(Apply(v, e, cap), c);
    case Local(false, e) => LocalKeeps(c, v, e, cap);
    case Pull(true, n) =>
      PullKeeps(v, c, n);
      PairSymmetric(PullIn(v, c, n), PullOut(c, n));
    case Pull(false, n) => PullKeeps(c, v, n);
  }

  /** A run: any interleaving of enabled steps from a fresh connection. */
  predicate Run(ws: seq<World>, steps: seq<Step>, cap: nat) {
    && |ws| == |steps| + 1
    && ws[0] == World(Fresh(false), Fresh(true))
    && forall k :: 0 <= k < |steps| ==> CanStep(ws[k], steps[k], cap) && ws[k + 1] == DoStep(ws[k], steps[k], cap)
  }

  lemma {:induction false} InvAlways(ws: seq<World>, steps: seq<Step>, cap: nat, n: nat)
    requires Run(ws, steps, cap) && cap < TWO_32 && n < |ws|
    ensures Inv(ws[n])
  {
    if n == 0 {
      InitInv();
    } else {
      InvAlways(ws, steps, cap, n - 1);
      StepKeeps(ws[n - 1], steps[n - 1], cap);
    }
  }

  // ---------------- safety ----------------

  /** What `y` has read of stream `id` is an initial part of what its peer `x` put into it. */
  predicate ReadsPrefix(x: Endpoint, y: Endpoint, id: U32) {
    id in y.inb.got ==>
      if id in x.out.sends && id in x.out.wrote
      then y.inb.got[id] <= Content(x.out, Own(x.isServer, id), id)
      else y.inb.got[id] == []
  }

  lemma PairSafe(x: Endpoint, y: Endpoint, id: U32)
    requires Pair(x, y)
    ensures ReadsPrefix(x, y, id)
  {
    assert SenderOK(x.out, Own(x.isServer, id), id);
    assert ReceiverOK(y.inb, Own(x.isServer, id), Own(!x.isServer, id), Minted(!x.isServer, y.opens, id), id);
    assert IdOK(y, id) && IdOK(x, id);
    DataPrefix(x.out.sent, |y.inb.seen|, id);
  }

  /**
    Mux safety: in every state of every run, on every stream and in both
    directions, the bytes read are a prefix of the bytes the peer wrote on
    that stream (zero-padded to nine when it was finished early).
   */
  lemma MuxSafety(ws: seq<World>, steps: seq<Step>, cap: nat, n: nat, id: U32)
    requires Run(ws, steps, cap) && cap < TWO_32 && n < |ws|
    ensures ReadsPrefix(ws[n].client, ws[n].server, id)
    ensures ReadsPrefix(ws[n].server, ws[n].client, id)
  {
    InvAlways(ws, steps, cap, n);
    PairSafe(ws[n].client, ws[n].server, id);
    PairSymmetric(ws[n].client, ws[n].server);
    PairSafe(ws[n].server, ws[n].client, id);
  }

  // ---------------- end of stream ----------------

  /** After its FIN a stream carries nothing more. */
  lemma {:induction false} DoneIsFinal(fs: seq<Frame>, n: nat, id: U32, lazy: bool)
    requires n <= |fs| && PhaseOf(fs[..n], id, lazy) == Done && PhaseOf(fs, id, lazy) != Bad
    ensures PhaseOf(fs, id, lazy) == Done && DataOf(fs, id) == DataOf(fs[..n], id)
    decreases |fs|
  {
    if n < |fs| {
      var m := |fs| - 1;
      assert fs[..m][..n] == fs[..n];
      PhasePrefix(fs, m, id, lazy);
      DoneIsFinal(fs[..m], n, id, lazy);
    } else {
      assert fs[..n] == fs;
    }
  }

  /** A reader that sees the end of a stream has read all of it, and it was finished. */
  lemma EofMeansAll(x: Endpoint, y: Endpoint, id: U32)
    requires Pair(x, y) && id in y.inb.recvs && id !in y.inb.dropped && y.inb.recvs[id].eof
    ensures id in x.out.sends && id in x.out.wrote && id in y.inb.got
    ensures x.out.sends[id].finished && y.inb.got[id] == Content(x.out, Own(x.isServer, id), id)
  {
    var lazy := Own(x.isServer, id);
    assert SenderOK(x.out, lazy, id);
    assert ReceiverOK(y.inb, lazy, Own(!x.isServer, id), Minted(!x.isServer, y.opens, id), id);
    assert IdOK(y, id) && IdOK(x, id);
    DoneIsFinal(x.out.sent, |y.inb.seen|, id, lazy);
    assert y.inb.got[id] + [] + [] == y.inb.got[id];
  }

  /** A read into a non-empty buffer yields no bytes only at the true end of the stream. */
  lemma ZeroReadMeansEof(x: Endpoint, y: Endpoint, id: U32, room: nat)
    requires Pair(x, y) && room > 0
    requires id in y.inb.recvs && id in y.inb.inbox && id in y.inb.got && id !in y.inb.dropped
    requires ReadFrom(y.inb, id, room).outcome == Ready([])
    ensures id in x.out.sends && id in x.out.wrote
    ensures x.out.sends[id].finished && y.inb.got[id] == Content(x.out, Own(x.isServer, id), id)
  {
    assert ReceiverOK(y.inb, Own(x.isServer, id), Own(!x.isServer, id), Minted(!x.isServer, y.opens, id), id);
    var y' := y.(inb := AfterRead(y.inb, id, room));
    PairSymmetric(x, y);
    ReadKeeps(y, x, id, room);
    PairSymmetric(y', x);
    assert y'.inb.recvs[id].eof;
    EofMeansAll(x, y', id);
    assert y.inb.got[id] + [] == y.inb.got[id];
  }
}
