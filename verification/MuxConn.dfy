/**
  The mux connection as the objects the program shares: the table of live
  senders, the accept queue, the writer queue, the stream halves, and the
  reader and writer loops over a socket that may cut its reads anywhere.
 */
module MuxConn {
  import opened Bytes
  import opened Sockets
  import opened MuxWire
  import opened MuxHalves
  import MuxSystem

  /** A per-stream channel; `senderAlive` is cleared when the table drops the sender. */
  class Channel {
    var chunks: seq<Chunk>
    var senderAlive: bool

    constructor ()
      ensures chunks == [] && senderAlive
    {
      chunks := [];
      senderAlive := true;
    }
  }

  /** What the writer queue holds: frames, and the mark a close leaves behind. */
  datatype OutFrame = Emitted(frame: Frame) | CloseMark

  function Emits(fs: seq<Frame>): seq<OutFrame> { seq(|fs|, i requires 0 <= i < |fs| => Emitted(fs[i])) }

  /** The frames queued before the first close. */
  function BeforeClose(q: seq<OutFrame>): seq<Frame> {
    if q == [] || q[0].CloseMark? then [] else [q[0].frame] + BeforeClose(q[1..])
  }

  /** What one frame does to the table of live channels. */
  function DispatchTable(t: map<U32, seq<Chunk>>, f: Frame): map<U32, seq<Chunk>> {
    var id := f.header.streamId;
    match f.header.flag
    case Open => t[id := []]
    case Data => if id in t then t[id := t[id] + [f.payload]] else t
    case Fin => t - {id}
  }

  function DispatchAll(t: map<U32, seq<Chunk>>, fs: seq<Frame>): map<U32, seq<Chunk>>
    decreases |fs|
  {
    if fs == [] then t else DispatchAll(DispatchTable(t, fs[0]), fs[1..])
  }

  /** The streams a sequence of frames opens, in order. */
  function OpensOf(fs: seq<Frame>): seq<MuxSystem.AcceptedStream> {
    if fs == [] then []
    else (if fs[0].header.flag == Open then [MuxSystem.AcceptedStream(fs[0].header.streamId, fs[0].payload)] else [])
         + OpensOf(fs[1..])
  }

  ghost function LiveTable(i: MuxSystem.Inbound): map<U32, seq<Chunk>> {
    map id: U32 | id in i.streams && id in i.inbox :: i.inbox[id]
  }

  /** The dispatch step of the transition system is this table update. */
  lemma DeliverIsDispatchTable(i: MuxSystem.Inbound, f: Frame)
    ensures LiveTable(MuxSystem.Deliver(i, f)) == DispatchTable(LiveTable(i), f)
  {
    var t, t' := LiveTable(i), LiveTable(MuxSystem.Deliver(i, f));
    match f.header.flag
    case Open => assert t' == t[f.header.streamId := []];
    case Data =>
      if f.header.streamId in t {
        assert t' == t[f.header.streamId := t[f.header.streamId] + [f.payload]];
      } else {
        assert t' == t;
      }
    case Fin => assert t' == t - {f.header.streamId};
  }

  class Inner {
    const isServer: bool
    var queue: seq<OutFrame>
    var streams: map<U32, Channel>
    var accepts: seq<(MuxSystem.AcceptedStream, Channel)>
    var controlSlot: Channel?
    var nextStreamId: U32
    var closed: bool
    var writerGone: bool  // the writer task has ended and takes no more frames
    ghost var seen: seq<Frame>

    /** Distinct ids have distinct channels, and every sender in the table is alive. */
    ghost predicate Valid()
      reads this`streams, Channels()
    {
      && (forall i: U32, j: U32 :: i in streams && j in streams && i != j ==> streams[i] != streams[j])
      && (forall i: U32 :: i in streams ==> streams[i].senderAlive)
    }

    ghost function Table(): map<U32, seq<Chunk>>
      reads this`streams, Channels()
    {
      map id: U32 | id in streams :: streams[id].chunks
    }

    constructor (isServer: bool)
      ensures this.isServer == isServer && Valid() && fresh(Channels())
      ensures queue == [] && !closed && !writerGone && seen == []
      ensures nextStreamId == MuxSystem.FirstId(isServer)
      ensures Table() == map[CONTROL_STREAM_ID := []] && CONTROL_STREAM_ID in streams
      ensures isServer ==> controlSlot == null && |accepts| == 1 &&
                           accepts[0] == (MuxSystem.AcceptedStream(CONTROL_STREAM_ID, Zeros(9)), streams[CONTROL_STREAM_ID])
      ensures !isServer ==> accepts == [] && controlSlot == streams[CONTROL_STREAM_ID]
    {
      var ctrl := new Channel();
      this.isServer := isServer;
      queue, closed, writerGone, seen := [], false, false, [];
      nextStreamId := if isServer then 1 else 2;
      streams := map[CONTROL_STREAM_ID := ctrl];
      if isServer {
        controlSlot, accepts := null, [(MuxSystem.AcceptedStream(CONTROL_STREAM_ID, Zeros(9)), ctrl)];
      } else {
        controlSlot, accepts := ctrl, [];
      }
    }

    /** The waiting streams without their channels. */
    ghost function Waiting(): seq<MuxSystem.AcceptedStream>
      reads this`accepts
    {
      var a := accepts;
      seq(|a|, i requires 0 <= i < |a| => a[i].0)
    }

    ghost function Channels(): set<Channel>
      reads this`streams
    {
      set id: U32 | id in streams :: streams[id]
    }

    method MintStreamId() returns (id: U32)
      modifies this`nextStreamId
      ensures id == old(nextStreamId) && nextStreamId == MuxSystem.NextId(id)
    {
      id := nextStreamId;
      nextStreamId := (nextStreamId + 2) % TWO_32;
    }

    /** Queue a frame unless the writer task is gone. */
    method Push(f: Frame) returns (ok: bool)
      modifies this`queue
      ensures ok == !writerGone && queue == old(queue) + if ok then [Emitted(f)] else []
    {
      if writerGone {
        assert queue + [] == queue;
        return false;
      }
      queue := queue + [Emitted(f)];
      return true;
    }

    /** Refuse further opens and writes, and let the writer stop after what is queued; once. */
    method Close()
      modifies this`queue, this`closed
      ensures closed
      ensures queue == old(queue) + if old(closed) || writerGone then [] else [CloseMark]
    {
      if closed || writerGone {
        closed := true;
        assert queue + [] == queue;
        return;
      }
      closed := true;
      queue := queue + [CloseMark];
    }

    /** Insert a new channel under `id`; a sender stored there before is dropped. */
    method Register(id: U32) returns (ch: Channel)
      requires Valid()
      modifies this`streams, Channels()
      ensures Valid() && fresh(ch) && ch.chunks == []
      ensures streams == old(streams)[id := ch] && Table() == old(Table())[id := []]
      ensures Channels() <= old(Channels()) + {ch}
      ensures forall c :: c in old(Channels()) ==> c.chunks == old(c.chunks)
      ensures id in old(streams) ==> !old(streams)[id].senderAlive
    {
      ch := new Channel();
      if id in streams { streams[id].senderAlive := false; }
      streams := streams[id := ch];
    }

    /** Drop the sender stored under `id`, if any. */
    method Unregister(id: U32)
      requires Valid()
      modifies this`streams, Channels()
      ensures Valid() && streams == old(streams) - {id} && Table() == old(Table()) - {id}
      ensures Channels() <= old(Channels())
      ensures forall c :: c in old(Channels()) ==> c.chunks == old(c.chunks)
      ensures id in old(streams) ==> !old(streams)[id].senderAlive
    {
      if id in streams { streams[id].senderAlive := false; }
      streams := streams - {id};
    }

    /** Send a chunk to the stream's channel; unknown ids are discarded. */
    method Forward(id: U32, payload: seq<Byte>)
      requires Valid()
      modifies Channels()
      ensures Valid()
      ensures Table() == if id in streams then old(Table())[id := old(Table())[id] + [payload]] else old(Table())
    {
      if id in streams {
        streams[id].chunks := streams[id].chunks + [payload];
      }
    }

    /** Register the stream an OPEN names and queue it for the application. */
    method Enlist(id: U32, payload: seq<Byte>)
      requires Valid()
      modifies this`streams, this`accepts, Channels()
      ensures Valid() && Table() == old(Table())[id := []] && id in streams && fresh(streams[id])
      ensures accepts == old(accepts) + [(MuxSystem.AcceptedStream(id, payload), streams[id])]
      ensures forall c :: c in Channels() ==> c in old(Channels()) || fresh(c)
    {
      var ch := Register(id);
      accepts := accepts + [(MuxSystem.AcceptedStream(id, payload), ch)];
    }

    /** The reader task's effect of one frame. */
    method Dispatch(f: Frame)
      requires Valid()
      modifies this`streams, this`accepts, this`seen, Channels()
      ensures Valid() && Table() == DispatchTable(old(Table()), f)
      ensures seen == old(seen) + [f]
      ensures f.header.flag == Open ==>
                var id := f.header.streamId;
                && id in streams && fresh(streams[id])
                && accepts == old(accepts) + [(MuxSystem.AcceptedStream(id, f.payload), streams[id])]
      ensures f.header.flag != Open ==> accepts == old(accepts)
      ensures forall c :: c in Channels() ==> c in old(Channels()) || fresh(c)
    {
      var id := f.header.streamId;
      seen := seen + [f];
      match f.header.flag
      case Open => Enlist(id, f.payload);
      case Data => Forward(id, f.payload);
      case Fin => Unregister(id);
    }

    /**
      The first open of a client hands out the Control stream; every other
      open mints an id, registers its channel and defers the OPEN frame.
     */
    method OpenBi() returns (r: Option<(SendStream, RecvStream)>)
      requires Valid()
      modifies this`streams, this`nextStreamId, this`controlSlot, Channels()
      ensures Valid()
      ensures r.None? <==> old(closed)
      ensures r.None? ==> streams == old(streams) && nextStreamId == old(nextStreamId) && controlSlot == old(controlSlot)
      ensures r.Some? ==>
                var (s, v) := r.value;
                && fresh(s) && fresh(v) && s.inner == this && v.inner == this
                && v.Half() == RecvHalf([], false) && v.streamId == s.streamId
                && if old(controlSlot) != null && !isServer then
                     && s.Half() == SendHalf(CONTROL_STREAM_ID, None, false)
                     && v.data == old(controlSlot) && controlSlot == null
                     && streams == old(streams) && nextStreamId == old(nextStreamId)
                   else
                     && s.Half() == SendHalf(old(nextStreamId), Some([]), false)
                     && fresh(v.data) && streams == old(streams)[old(nextStreamId) := v.data]
                     && nextStreamId == MuxSystem.NextId(old(nextStreamId)) && controlSlot == old(controlSlot)
    {
      if closed { return None; }
      if !isServer && controlSlot != null {
        var s := new SendStream(this, CONTROL_STREAM_ID, None);
        var v := new RecvStream(this, CONTROL_STREAM_ID, controlSlot, []);
        controlSlot := null;
        return Some((s, v));
      }
      var id := MintStreamId();
      var ch := Register(id);
      var s := new SendStream(this, id, Some([]));
      var v := new RecvStream(this, id, ch, []);
      return Some((s, v));
    }

    /** The next waiting stream, primed with its OPEN payload unless it is Control. */
    method AcceptBi() returns (s: SendStream, v: RecvStream)
      requires accepts != []
      modifies this`accepts
      ensures accepts == old(accepts)[1..]
      ensures var (a, ch) := old(accepts)[0];
              && fresh(s) && fresh(v) && s.inner == this && v.inner == this
              && s.Half() == SendHalf(a.id, None, false)
              && v.Half() == RecvHalf(MuxSystem.Prime(a), false) && v.streamId == a.id && v.data == ch
    {
      var (a, ch) := accepts[0];
      accepts := accepts[1..];
      s := new SendStream(this, a.id, None);
      v := new RecvStream(this, a.id, ch, if a.id == CONTROL_STREAM_ID then [] else a.openPayload);
    }
  }

  class SendStream {
    const inner: Inner
    const streamId: U32
    var pendingOpen: Option<seq<Byte>>
    var finished: bool

    constructor (inner: Inner, id: U32, pending: Option<seq<Byte>>)
      ensures this.inner == inner && Half() == SendHalf(id, pending, false)
    {
      this.inner, streamId, pendingOpen, finished := inner, id, pending, false;
    }

    function Half(): SendHalf
      reads this
    {
      SendHalf(streamId, pendingOpen, finished)
    }

    /** As the value function says; when the writer is gone nothing is queued, and a write that would is an error. */
    method PollWrite(buf: seq<Byte>) returns (r: WriteOutcome)
      requires Half().Valid()
      modifies this, inner`queue
      ensures var e := Write(old(Half()), inner.closed, buf);
              && Half() == e.half
              && r == (if inner.writerGone && e.frames != [] then BrokenPipe else e.outcome)
              && inner.queue == old(inner.queue) + if inner.writerGone then [] else Emits(e.frames)
    {
      ghost var q := inner.queue;
      if finished || inner.closed {
        assert q == q + [];
        return BrokenPipe;
      }
      var cursor := 0;
      ghost var first: seq<Frame> := [];
      if pendingOpen.Some? {
        var take := Min(OPEN_PAYLOAD - |pendingOpen.value|, |buf|);
        var pending := pendingOpen.value + buf[..take];
        cursor := take;
        if |pending| < OPEN_PAYLOAD {
          pendingOpen := Some(pending);
          assert q == q + [];
          return Taken(cursor);
        }
        pendingOpen := None;
        first := [OpenFrame(streamId, pending)];
        var ok := inner.Push(OpenFrame(streamId, pending));
        if !ok {
          return BrokenPipe;
        }
      }
      assert inner.queue == q + Emits(first);
      if buf[cursor..] != [] {
        var ok := inner.Push(DataFrame(streamId, buf[cursor..]));
        if !ok {
          return BrokenPipe;
        }
      }
      return Taken(|buf|);
    }

    /** Once; an error exactly when the FIN cannot be queued any more. */
    method FinishStream() returns (ok: bool)
      requires Half().Valid()
      modifies this, inner`queue
      ensures var e := Finish(old(Half()));
              && Half() == e.half && ok == (old(finished) || !inner.writerGone)
              && inner.queue == old(inner.queue) + if inner.writerGone then [] else Emits(e.frames)
    {
      ghost var q := inner.queue;
      if finished {
        assert q == q + [];
        return true;
      }
      finished := true;
      ghost var first: seq<Frame> := [];
      if pendingOpen.Some? {
        var open := OpenFrame(streamId, pendingOpen.value + Zeros(OPEN_PAYLOAD - |pendingOpen.value|));
        pendingOpen := None;
        first := [open];
        var _ := inner.Push(open);
      }
      assert inner.queue == q + if inner.writerGone then [] else Emits(first);
      ok := inner.Push(FinFrame(streamId));
    }
  }

  class RecvStream {
    const inner: Inner
    const streamId: U32
    const data: Channel
    var leftover: seq<Byte>
    var eof: bool

    constructor (inner: Inner, id: U32, data: Channel, leftover: seq<Byte>)
      ensures this.inner == inner && streamId == id && this.data == data
      ensures Half() == RecvHalf(leftover, false)
    {
      this.inner, streamId, this.data, this.leftover, eof := inner, id, data, leftover, false;
    }

    function Half(): RecvHalf
      reads this
    {
      RecvHalf(leftover, eof)
    }

    method PollRead(room: nat) returns (r: ReadOutcome)
      modifies this, data`chunks
      ensures var res := Read(old(Half()), old(data.chunks), !data.senderAlive, room);
              Half() == res.half && data.chunks == res.chunks && r == res.outcome
    {
      if leftover != [] {
        var take := Min(|leftover|, room);
        r := Ready(leftover[..take]);
        leftover := leftover[take..];
        return;
      }
      if eof { return Ready([]); }
      if data.chunks != [] {
        var chunk := data.chunks[0];
        data.chunks := data.chunks[1..];
        var take := Min(|chunk|, room);
        r := Ready(chunk[..take]);
        leftover := chunk[take..];
      } else if !data.senderAlive {
        eof := true;
        r := Ready([]);
      } else {
        r := Pending;
      }
    }

    /** Dropping the half detaches whatever sender the table holds under its id. */
    method Drop()
      requires inner.Valid()
      modifies inner`streams, inner.Channels()
      ensures inner.Valid() && inner.Table() == old(inner.Table()) - {streamId}
    {
      inner.Unregister(streamId);
    }
  }

  // ---------------- the two tasks ----------------

  /** The reader loop: however the socket cuts its reads, it dispatches exactly `Frames` of the stream. */
  method ReaderTask(sock: Socket, inner: Inner)
    requires inner.Valid()
    modifies sock, inner`streams, inner`accepts, inner`seen, inner`closed, inner.Channels()
    ensures inner.Valid() && inner.closed
    ensures inner.seen == old(inner.seen) + Frames(old(sock.incoming))
    ensures inner.Table() == DispatchAll(old(inner.Table()), Frames(old(sock.incoming)))
    ensures inner.Waiting() == old(inner.Waiting()) + OpensOf(Frames(old(sock.incoming)))
  {
    var more := true;
    while more
      invariant inner.Valid()
      invariant forall c :: c in inner.Channels() ==> c in old(inner.Channels()) || fresh(c)
      invariant old(inner.seen) + Frames(old(sock.incoming)) == inner.seen + if more then Frames(sock.incoming) else []
      invariant DispatchAll(old(inner.Table()), Frames(old(sock.incoming)))
             == DispatchAll(inner.Table(), if more then Frames(sock.incoming) else [])
      invariant old(inner.Waiting()) + OpensOf(Frames(old(sock.incoming)))
             == inner.Waiting() + OpensOf(if more then Frames(sock.incoming) else [])
      decreases more, |sock.incoming|
    {
      more := ReaderTurn(sock, inner);
    }
    assert inner.seen + [] == inner.seen && inner.Waiting() + [] == inner.Waiting();
    inner.closed := true;
  }

  /** One frame read and dispatched, or the end of the loop. */
  method ReaderTurn(sock: Socket, inner: Inner) returns (more: bool)
    requires inner.Valid()
    modifies sock, inner`streams, inner`accepts, inner`seen, inner.Channels()
    ensures inner.Valid()
    ensures forall c :: c in inner.Channels() ==> c in old(inner.Channels()) || fresh(c)
    ensures old(inner.seen) + Frames(old(sock.incoming)) == inner.seen + if more then Frames(sock.incoming) else []
    ensures DispatchAll(old(inner.Table()), Frames(old(sock.incoming)))
         == DispatchAll(inner.Table(), if more then Frames(sock.incoming) else [])
    ensures old(inner.Waiting()) + OpensOf(Frames(old(sock.incoming)))
         == inner.Waiting() + OpensOf(if more then Frames(sock.incoming) else [])
    ensures more ==> |sock.incoming| < |old(sock.incoming)|
  {
    ghost var all := sock.incoming;
    var f := ReadOneFrame(sock);
    if f.None? { return false; }
    ghost var before, rest := inner.seen, Frames(sock.incoming);
    assert Frames(all) == [f.value] + rest && ([f.value] + rest)[1..] == rest;
    inner.Dispatch(f.value);
    assert before + ([f.value] + rest) == before + [f.value] + rest;
    assert inner.Waiting() == old(inner.Waiting()) + OpensOf([f.value]);
    OpensCons(old(inner.Waiting()), f.value, rest);
    return true;
  }

  lemma OpensCons(w: seq<MuxSystem.AcceptedStream>, f: Frame, rest: seq<Frame>)
    ensures w + OpensOf([f] + rest) == w + OpensOf([f]) + OpensOf(rest)
  {
    assert ([f] + rest)[1..] == rest;
  }

  /** One turn of the reader loop: header, checks, payload. */
  method ReadOneFrame(sock: Socket) returns (f: Option<Frame>)
    modifies sock
    ensures f.None? <==> !Inspect(old(sock.incoming)).Complete?
    ensures f.Some? ==> f.value == Inspect(old(sock.incoming)).f && sock.incoming == old(sock.incoming)[|Encode(f.value)|..]
  {
    ghost var all := sock.incoming;
    var head := sock.ReadExact(MUX_HEADER_SIZE);
    if head.None? { return None; }
    var decoded := DecodeHeader(head.value);
    if decoded.Err? { return None; }
    var h := decoded.value;
    EncodeDecode(head.value);
    if h.flag == Data && h.payloadLen > MAX_MUX_PAYLOAD { return None; }
    var payload := sock.ReadExact(h.payloadLen);
    if payload.None? { return None; }
    if h.flag == Open && h.streamId == CONTROL_STREAM_ID { return None; }
    assert all[9..][..h.payloadLen] == all[9..9 + h.payloadLen];
    assert all[9..][h.payloadLen..] == all[9 + h.payloadLen..];
    return Some(Frame(h, payload.value));
  }

  /**
    What reaches the pipe of the frames `fs`: those before frame `k`, the first
    that breaks, and as much of that one as was written; or all of them.
   */
  ghost predicate WroteUntil(fs: seq<Frame>, broken: nat -> Option<nat>, k: nat, bytes: seq<Byte>) {
    && k <= |fs| && (forall j :: 0 <= j < k ==> broken(j).None?)
    && if k == |fs| then bytes == EncodeAll(fs)
       else broken(k).Some? && bytes == EncodeAll(fs[..k]) + Encode(fs[k])[..Min(broken(k).value, |Encode(fs[k])|)]
  }

  lemma EncodeSnoc(fs: seq<Frame>, f: Frame)
    ensures EncodeAll(fs + [f]) == EncodeAll(fs) + Encode(f)
  {
    EncodeAllConcat(fs, [f]);
    var one := [f];
    assert one[1..] == [] && Encode(f) + [] == Encode(f);
  }

  lemma OneMore(fs: seq<Frame>, k: nat)
    requires k < |fs|
    ensures EncodeAll(fs[..k + 1]) == EncodeAll(fs[..k]) + Encode(fs[k])
  {
    var a, f := fs[..k], fs[k];
    assert fs[..k + 1] == a + [f];
    EncodeSnoc(a, f);
  }

  lemma PartOfAll(fs: seq<Frame>, k: nat)
    requires k <= |fs|
    ensures EncodeAll(fs[..k]) <= EncodeAll(fs)
  {
    var a, b := fs[..k], fs[k..];
    assert fs == a + b;
    EncodeAllConcat(a, b);
  }

  /** A frame that breaks leaves a part of the encoding in the pipe. */
  lemma StoppedAt(fs: seq<Frame>, broken: nat -> Option<nat>, k: nat, pipe: seq<Byte>, part: seq<Byte>)
    requires k < |fs| && (forall j :: 0 <= j < k ==> broken(j).None?) && broken(k).Some?
    requires part == Encode(fs[k])[..Min(broken(k).value, |Encode(fs[k])|)]
    ensures var written := pipe + EncodeAll(fs[..k]) + part;
            WroteUntil(fs, broken, k, written[|pipe|..]) && pipe <= written <= pipe + EncodeAll(fs)
  {
    var sofar := EncodeAll(fs[..k]);
    assert (pipe + sofar + part)[|pipe|..] == sofar + part;
    OneMore(fs, k);
    PartOfAll(fs, k + 1);
    assert sofar + part <= sofar + Encode(fs[k]);
  }

  /**
    The writer loop: what is queued before a close goes to the pipe, header
    then payload, in order, or a part of it when the connection breaks;
    `broken` tells after how many bytes of which frame, and `k` is the first
    frame that broke. Then the writer is gone.
   */
  method WriterTask(inner: Inner, pipe: seq<Byte>, broken: nat -> Option<nat>) returns (written: seq<Byte>, ghost k: nat)
    modifies inner`queue, inner`writerGone
    ensures inner.queue == [] && inner.writerGone
    ensures pipe <= written <= pipe + EncodeAll(BeforeClose(old(inner.queue)))
    ensures WroteUntil(BeforeClose(old(inner.queue)), broken, k, written[|pipe|..])
    ensures (forall j :: broken(j) == None) ==> written == pipe + EncodeAll(BeforeClose(old(inner.queue)))
  {
    written := pipe;
    var i := 0;
    ghost var fs := BeforeClose(inner.queue);
    while inner.queue != []
      invariant i <= |fs| && fs[i..] == BeforeClose(inner.queue) && forall j :: 0 <= j < i ==> broken(j).None?
      invariant written == pipe + EncodeAll(fs[..i])
      decreases |inner.queue|
    {
      var out := inner.queue[0];
      inner.queue := inner.queue[1..];
      if out.CloseMark? {
        break;
      }
      assert fs[i..] == [out.frame] + BeforeClose(inner.queue);
      assert fs[i] == out.frame && fs[i + 1..] == fs[i..][1..];
      OneMore(fs, i);
      var bytes := HeaderBytes(out.frame.header) + out.frame.payload;
      if broken(i).Some? {
        var part := bytes[..Min(broken(i).value, |bytes|)];
        StoppedAt(fs, broken, i, pipe, part);
        written := written + part;
        inner.queue, inner.writerGone := [], true;
        return written, i;
      }
      written := written + bytes;
      i := i + 1;
    }
    inner.queue, inner.writerGone := [], true;
    assert fs[i..] == [] && fs[..i] == fs;
    return written, i;
  }
}
