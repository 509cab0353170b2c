/**
  What a side holds of what it received, in every run: channels stay within
  their capacity, a dropped handle is never served again, a stopped reader
  takes nothing more.
 */
module MuxBuffers {
  import opened Bytes
  import opened MuxWire
  import opened MuxHalves
  import opened MuxSystem
  import opened MuxInvariant
  import opened MuxRuns
  import opened MuxCalls

  // ---------------- bounded channels ----------------

  ghost predicate Bounded(i: Inbound) {
    forall id :: id in i.inbox ==> |i.inbox[id]| <= STREAM_INBOUND_CAPACITY
  }

  lemma DeliverBounded(i: Inbound, f: Frame)
    requires Bounded(i) && HasRoom(i, f)
    ensures Bounded(Deliver(i, f))
  {
    var i', j := Deliver(i, f), FrameId(f);
    forall id | id in i'.inbox ensures |i'.inbox[id]| <= STREAM_INBOUND_CAPACITY {
      if id != j { assert id in i.inbox && i'.inbox[id] == i.inbox[id]; }
    }
  }

  lemma ReadBounded(i: Inbound, id: U32, room: nat)
    requires id in i.recvs && id in i.inbox && id in i.got && Bounded(i)
    ensures Bounded(AfterRead(i, id, room))
  {
    assert |ReadFrom(i, id, room).chunks| <= |i.inbox[id]|;
  }

  lemma LocalBounded(x: Endpoint, e: Event, cap: nat)
    requires Enabled(x, e, cap) && Bounded(x.inb)
    ensures Bounded(Apply(x, e, cap).inb)
  {
    match e
    case Dispatch => DeliverBounded(x.inb, Inspect(x.inb.rbuf).f);
    case ReadBytes(id, room) => ReadBounded(x.inb, id, room);
    case OpenStream =>
    case _ => assert Apply(x, e, cap).inb.inbox == x.inb.inbox;
  }

  /** However fast the peer writes and however slowly the application reads, a channel holds at most 64 chunks. */
  lemma {:induction false} ChannelsBounded(ws: seq<World>, steps: seq<Step>, cap: nat, k: nat)
    requires Run(ws, steps, cap) && k < |ws|
    ensures Bounded(ws[k].client.inb) && Bounded(ws[k].server.inb)
  {
    if k > 0 {
      ChannelsBounded(ws, steps, cap, k - 1);
      var w, s := ws[k - 1], steps[k - 1];
      assert CanStep(w, s, cap);
      if s.Local? { LocalBounded(Side(w, s.atServer), s.e, cap); }
    }
  }

  // ---------------- what later steps leave alone ----------------

  /** The reader task has ended, and will see nothing more. */
  predicate Halted(x: Endpoint, x': Endpoint) {
    x.inb.done ==> x'.inb.done && x'.inb.rbuf == x.inb.rbuf && x'.inb.seen == x.inb.seen && (x.closed ==> x'.closed)
  }

  /** The application has dropped its recv half of `id`: nothing more is queued for it or read from it. */
  predicate Deaf(i: Inbound, i': Inbound, id: U32) {
    id in i.dropped ==>
      && id in i'.dropped && id !in i'.streams
      && id in i.inbox && id in i'.inbox && i'.inbox[id] == i.inbox[id]
      && id in i.got && id in i'.got && i'.got[id] == i.got[id]
  }

  /** What a step leaves of a side whose reader has ended, or whose application has dropped `id`. */
  predicate Leaves(x: Endpoint, x': Endpoint, id: U32) {
    Halted(x, x') && Deaf(x.inb, x'.inb, id)
  }

  lemma DropHolds(x: Endpoint, y: Endpoint, id: U32)
    requires Pair(x, y) && id in x.inb.dropped
    ensures id !in x.inb.streams && id in x.inb.recvs && id in x.inb.inbox && id in x.inb.got
    ensures x.inb.controlSlot ==> id != CONTROL_STREAM_ID
    ensures x.inb.accepts != [] ==> x.inb.accepts[0].id != id
  {
    assert IdOK(x, id);
    assert ReceiverOK(x.inb, Own(y.isServer, id), Own(!y.isServer, id), Minted(!y.isServer, x.opens, id), id);
  }

  lemma DeliverDeaf(i: Inbound, f: Frame, id: U32)
    requires id in i.dropped && id !in i.streams && id in i.inbox && id in i.got
    requires f.header.flag == Open ==> FrameId(f) != id
    ensures Deaf(i, Deliver(i, f), id)
  {
  }

  lemma OpensOther(x: Endpoint, y: Endpoint, id: U32)
    requires Pair(x, y) && Inspect(x.inb.rbuf).Complete? && id in x.inb.inbox
    ensures var f := Inspect(x.inb.rbuf).f; f.header.flag == Open ==> FrameId(f) != id
  {
    CompleteIsNext(y.out, x.inb);
    if Inspect(x.inb.rbuf).f.header.flag == Open { FreshOnPeerOpen(y.out, x, y.isServer, y.opens); }
  }

  lemma OpenDeaf(x: Endpoint, y: Endpoint, id: U32)
    requires Pair(x, y) && (x.inb.controlSlot || x.opens < MAX_OPENS) && id in x.inb.dropped
    ensures Deaf(x.inb, OpenBi(x).inb, id)
  {
    DropHolds(x, y, id);
    if !x.inb.controlSlot { FreshOnOpen(x); }
  }

  lemma LocalDeaf(x: Endpoint, y: Endpoint, e: Event, cap: nat, id: U32)
    requires Pair(x, y) && Enabled(x, e, cap) && id in x.inb.dropped
    ensures Deaf(x.inb, Apply(x, e, cap).inb, id)
  {
    DropHolds(x, y, id);
    match e
    case Dispatch =>
      OpensOther(x, y, id);
      DeliverDeaf(x.inb, Inspect(x.inb.rbuf).f, id);
    case OpenStream => OpenDeaf(x, y, id);
    case ReadBytes(j, room) => assert j != id;
    case AcceptStream =>
    case DropRecv(_) =>
    case _ =>
  }

  lemma LocalHalted(x: Endpoint, e: Event, cap: nat)
    requires Enabled(x, e, cap)
    ensures Halted(x, Apply(x, e, cap))
  {
  }

  lemma StepLeaves(ws: seq<World>, steps: seq<Step>, cap: nat, k: nat, atServer: bool, id: U32)
    requires Run(ws, steps, cap) && cap < TWO_32 && k < |steps|
    ensures Leaves(Side(ws[k], atServer), Side(ws[k + 1], atServer), id)
  {
    var x, y, s := Side(ws[k], atServer), Side(ws[k], !atServer), steps[k];
    SideHolds(ws, steps, cap, k, atServer);
    assert CanStep(ws[k], s, cap);
    if id in x.inb.dropped { DropHolds(x, y, id); }
    if s.Local? && s.atServer == atServer {
      LocalHalted(x, s.e, cap);
      if id in x.inb.dropped { LocalDeaf(x, y, s.e, cap, id); }
    }
  }

  lemma LeavesThen(x: Endpoint, y: Endpoint, z: Endpoint, id: U32)
    requires Leaves(x, y, id) && Leaves(y, z, id)
    ensures Leaves(x, z, id)
  {
  }

  lemma LeavesSelf(x: Endpoint, y: Endpoint, id: U32)
    requires Pair(x, y)
    ensures Leaves(x, x, id)
  {
    if id in x.inb.dropped { DropHolds(x, y, id); }
  }

  predicate LeavesAt(ws: seq<World>, k: nat, atServer: bool, id: U32) {
    k + 1 < |ws| && Leaves(Side(ws[k], atServer), Side(ws[k + 1], atServer), id)
  }

  lemma {:induction false} LeavesAlong(ws: seq<World>, n: nat, m: nat, atServer: bool, id: U32)
    requires n <= m < |ws| && Leaves(Side(ws[n], atServer), Side(ws[n], atServer), id)
    requires forall k :: n <= k < m ==> LeavesAt(ws, k, atServer, id)
    ensures Leaves(Side(ws[n], atServer), Side(ws[m], atServer), id)
    decreases m
  {
    if n < m {
      LeavesAlong(ws, n, m - 1, atServer, id);
      assert LeavesAt(ws, m - 1, atServer, id);
      LeavesThen(Side(ws[n], atServer), Side(ws[m - 1], atServer), Side(ws[m], atServer), id);
    }
  }

  /** Once a reader has ended it sees nothing more, and once a recv half is dropped nothing more is queued for it. */
  lemma LeftAlone(ws: seq<World>, steps: seq<Step>, cap: nat, n: nat, m: nat, atServer: bool, id: U32)
    requires Run(ws, steps, cap) && cap < TWO_32 && n <= m < |ws|
    ensures Leaves(Side(ws[n], atServer), Side(ws[m], atServer), id)
  {
    SideHolds(ws, steps, cap, n, atServer);
    LeavesSelf(Side(ws[n], atServer), Side(ws[n], !atServer), id);
    forall k | n <= k < m ensures LeavesAt(ws, k, atServer, id) { StepLeaves(ws, steps, cap, k, atServer, id); }
    LeavesAlong(ws, n, m, atServer, id);
  }

  /** Dropping a recv half takes its sender out of the table at once, for good, and touches no other stream. */
  lemma DropInRuns(ws: seq<World>, steps: seq<Step>, cap: nat, k: nat, m: nat, atServer: bool, id: U32)
    requires Run(ws, steps, cap) && cap < TWO_32 && k < m < |ws| && steps[k] == Local(atServer, DropRecv(id))
    ensures var x, x', z := Side(ws[k], atServer), Side(ws[k + 1], atServer), Side(ws[m], atServer);
            && x'.out == x.out && OthersKept(x, x', id) && x'.inb.inbox == x.inb.inbox
            && (forall j :: j != id ==> (j in x'.inb.streams <==> j in x.inb.streams))
            && id in x.inb.inbox && id in x.inb.got && id in z.inb.inbox && id in z.inb.got && id !in z.inb.streams
            && z.inb.inbox[id] == x.inb.inbox[id] && z.inb.got[id] == x.inb.got[id]
            && forall room: nat :: !Enabled(z, ReadBytes(id, room), cap)
  {
    LocalStep(ws, steps, cap, k, atServer, DropRecv(id));
    LeftAlone(ws, steps, cap, k + 1, m, atServer, id);
  }
}
