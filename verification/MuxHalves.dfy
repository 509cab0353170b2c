/**
  The two halves of a multiplexed stream, as functions on values: what a
  write, a finish and a read do to the half and what they hand to the rest
  of the mux. The classes of module `MuxConn` are proved against these.
 */
module MuxHalves {
  import opened Bytes
  import opened MuxWire

  /** `pendingOpen` holds the bytes collected for an OPEN not yet emitted. */
  datatype SendHalf = SendHalf(id: U32, pendingOpen: Option<seq<Byte>>, finished: bool) {
    predicate Valid() {
      pendingOpen.Some? ==> |pendingOpen.value| < OPEN_PAYLOAD
    }
  }

  datatype WriteOutcome = Taken(n: nat) | BrokenPipe

  /** The half afterwards, the frames pushed on the writer queue, the caller's answer. */
  datatype Emission = Emission(half: SendHalf, frames: seq<Frame>, outcome: WriteOutcome)

  function DataFrames(id: U32, rest: seq<Byte>): seq<Frame> {
    if rest == [] then [] else [DataFrame(id, rest)]
  }

  function Write(h: SendHalf, closed: bool, buf: seq<Byte>): (e: Emission)
    requires h.Valid()
    ensures e.half.Valid()
    ensures e.outcome.Taken? ==> e.outcome.n == |buf|
  {
    if h.finished || closed then Emission(h, [], BrokenPipe)
    else
      match h.pendingOpen
      case None => Emission(h, DataFrames(h.id, buf), Taken(|buf|))
      case Some(pending) =>
        var take := Min(OPEN_PAYLOAD - |pending|, |buf|);
        var filled := pending + buf[..take];
        if |filled| == OPEN_PAYLOAD then
          Emission(h.(pendingOpen := None),
                   [OpenFrame(h.id, filled)] + DataFrames(h.id, buf[take..]), Taken(|buf|))
        else
          Emission(h.(pendingOpen := Some(filled)), [], Taken(take))
  }

  /** The bytes a half holds back for its OPEN. */
  function Held(h: SendHalf): seq<Byte> { if h.pendingOpen.Some? then h.pendingOpen.value else [] }

  function Payloads(fs: seq<Frame>): seq<Byte> { if fs == [] then [] else fs[0].payload + Payloads(fs[1..]) }

  /**
    A write is refused exactly on a finished half or a closed mux, and then
    changes nothing. Otherwise all of it is taken: what was held back and the
    new bytes are what the frames carry and what is held back then; DATA only
    follows the OPEN, and nothing is held back after it.
   */
  lemma WriteAccepts(h: SendHalf, closed: bool, buf: seq<Byte>)
    requires h.Valid()
    ensures var e := Write(h, closed, buf);
            if h.finished || closed then e.outcome == BrokenPipe && e.half == h && e.frames == []
            else
              && e.outcome == Taken(|buf|)
              && Payloads(e.frames) + Held(e.half) == Held(h) + buf
              && e.half.id == h.id && !e.half.finished
              && (e.half.pendingOpen.Some? <==> h.pendingOpen.Some? && |Held(h) + buf| < OPEN_PAYLOAD)
              && (forall f :: f in e.frames ==> f.header.streamId == h.id && f.header.payloadLen == |f.payload| % TWO_32)
              && (forall k :: 0 <= k < |e.frames| ==>
                    e.frames[k].header.flag == if k == 0 && h.pendingOpen.Some? then Open else Data)
              && |e.frames| <= 2
  {
    if !h.finished && !closed {
      if h.pendingOpen.None? {
        DataPayload(h.id, buf);
        assert [] + buf == buf + [];
      } else {
        OpeningAccepts(h, h.pendingOpen.value, buf);
      }
    }
  }

  lemma DataPayload(id: U32, rest: seq<Byte>)
    ensures Payloads(DataFrames(id, rest)) == rest
  {
    if rest != [] { OpenPayload(DataFrame(id, rest), []); }
  }

  lemma OpenPayload(f: Frame, fs: seq<Frame>)
    ensures Payloads([f] + fs) == f.payload + Payloads(fs)
  {
    assert ([f] + fs)[1..] == fs;
  }

  lemma OpeningAccepts(h: SendHalf, pending: seq<Byte>, buf: seq<Byte>)
    requires h.Valid() && !h.finished && h.pendingOpen == Some(pending)
    ensures var e := Write(h, false, buf);
            && e.outcome == Taken(|buf|) && Payloads(e.frames) + Held(e.half) == pending + buf
            && (e.half.pendingOpen.Some? <==> |pending + buf| < OPEN_PAYLOAD)
  {
    var take := Min(OPEN_PAYLOAD - |pending|, |buf|);
    var filled, rest := pending + buf[..take], buf[take..];
    assert filled + rest == pending + buf;
    if |filled| == OPEN_PAYLOAD {
      OpenPayload(OpenFrame(h.id, filled), DataFrames(h.id, rest));
      DataPayload(h.id, rest);
    } else {
      assert rest == [] && [] + filled == filled + rest;
    }
  }

  /** Zero-pad to the nine bytes an OPEN carries. */
  function Pad(b: seq<Byte>): (p: seq<Byte>)
    ensures |b| < OPEN_PAYLOAD ==> |p| == OPEN_PAYLOAD && b <= p
  {
    if |b| < OPEN_PAYLOAD then b + Zeros(OPEN_PAYLOAD - |b|) else b
  }

  function Finish(h: SendHalf): (e: Emission)
    requires h.Valid()
    ensures e.half.Valid() && e.half.finished
  {
    if h.finished then Emission(h, [], Taken(0))
    else
      var open := if h.pendingOpen.Some? then [OpenFrame(h.id, Pad(h.pendingOpen.value))] else [];
      Emission(h.(pendingOpen := None, finished := true), open + [FinFrame(h.id)], Taken(0))
  }

  /** A finish emits, once, the owed OPEN padded with zeros and then the FIN. */
  lemma FinishSends(h: SendHalf)
    requires h.Valid()
    ensures var e := Finish(h);
            && e.half == h.(pendingOpen := if h.finished then h.pendingOpen else None, finished := true)
            && (h.finished ==> e.frames == []) && e.outcome == Taken(0)
            && (!h.finished ==>
                  && e.frames != [] && e.frames[|e.frames| - 1] == Frame(Header(Fin, h.id, 0), [])
                  && |e.frames| == (if h.pendingOpen.Some? then 2 else 1)
                  && (h.pendingOpen.Some? ==>
                        && e.frames[0].header == Header(Open, h.id, 9) && |e.frames[0].payload| == 9
                        && Held(h) <= e.frames[0].payload
                        && forall k :: |Held(h)| <= k < 9 ==> e.frames[0].payload[k] == 0))
  {
  }

  type Chunk = seq<Byte>

  datatype RecvHalf = RecvHalf(leftover: seq<Byte>, eof: bool)

  datatype ReadOutcome = Pending | Ready(data: seq<Byte>)

  /** The half afterwards, what remains in its channel, the caller's answer. */
  datatype Reception = Reception(half: RecvHalf, chunks: seq<Chunk>, outcome: ReadOutcome)

  function Read(r: RecvHalf, chunks: seq<Chunk>, senderGone: bool, room: nat): (res: Reception)
    ensures res.outcome.Ready? ==> |res.outcome.data| <= room
  {
    if r.leftover != [] then
      var take := Min(|r.leftover|, room);
      Reception(r.(leftover := r.leftover[take..]), chunks, Ready(r.leftover[..take]))
    else if r.eof then Reception(r, chunks, Ready([]))
    else if chunks != [] then
      var take := Min(|chunks[0]|, room);
      Reception(r.(leftover := chunks[0][take..]), chunks[1..], Ready(chunks[0][..take]))
    else if senderGone then Reception(r.(eof := true), chunks, Ready([]))
    else Reception(r, chunks, Pending)
  }

  /**
    What a read answers: the front of the leftover, or else of the first
    chunk, as much as there is room for, keeping the rest as leftover; the end
    exactly when it was met before or nothing waits and the sender is gone;
    otherwise it waits.
   */
  lemma ReadIff(r: RecvHalf, chunks: seq<Chunk>, senderGone: bool, room: nat)
    ensures var res := Read(r, chunks, senderGone, room);
            var next := if r.leftover != [] then r.leftover else if !r.eof && chunks != [] then chunks[0] else [];
            && (res.outcome == Pending <==> r.leftover == [] && !r.eof && chunks == [] && !senderGone)
            && (res.outcome.Ready? ==>
                  && res.outcome.data + res.half.leftover == next
                  && (|res.outcome.data| == room || res.half.leftover == []))
            && res.chunks == (if r.leftover == [] && !r.eof && chunks != [] then chunks[1..] else chunks)
            && (res.half.eof <==> r.eof || (r.leftover == [] && chunks == [] && senderGone))
  {
  }

  /** All bytes waiting in a channel. */
  function Flat(chunks: seq<Chunk>): seq<Byte> {
    if chunks == [] then [] else chunks[0] + Flat(chunks[1..])
  }

  lemma {:induction false} FlatAppend(chunks: seq<Chunk>, c: Chunk)
    ensures Flat(chunks + [c]) == Flat(chunks) + c
  {
    if chunks == [] {
      assert chunks + [c] == [c];
    } else {
      assert (chunks + [c])[1..] == chunks[1..] + [c];
      FlatAppend(chunks[1..], c);
    }
  }

  /** A read hands out the next bytes of the stream and keeps the others in order. */
  lemma ReadTakesNext(r: RecvHalf, chunks: seq<Chunk>, senderGone: bool, room: nat)
    requires r.eof ==> r.leftover == []
    ensures var res := Read(r, chunks, senderGone, room);
            var data := if res.outcome.Ready? then res.outcome.data else [];
            data + res.half.leftover + Flat(res.chunks) == r.leftover + Flat(chunks)
  {
    var res := Read(r, chunks, senderGone, room);
    if r.leftover != [] {
      assert r.leftover == res.outcome.data + res.half.leftover;
    } else if !r.eof && chunks != [] {
      assert chunks[0] == res.outcome.data + res.half.leftover;
      assert Flat(chunks) == chunks[0] + Flat(chunks[1..]);
    }
  }
}
