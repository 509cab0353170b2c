/**
  The `krot-tcp/1` wire: the fixed nine-byte frame header, the frames the
  senders emit, and what the reader task makes of a byte stream.
 */
module MuxWire {
  import opened Bytes

  const MUX_HEADER_SIZE: nat := 9
  const CONTROL_STREAM_ID: U32 := 0
  const OPEN_PAYLOAD: nat := 9
  const MAX_MUX_PAYLOAD: nat := 256 * 1024

  datatype Flag = Open | Data | Fin

  datatype Header = Header(flag: Flag, streamId: U32, payloadLen: U32)

  datatype HeaderError =
    | TooShort
    | UnknownFlag(b: Byte)
    | FinWithPayload(n: U32)
    | OpenBadPayload(n: U32)

  function FlagByte(f: Flag): Byte {
    match f
    case Open => 1
    case Data => 2
    case Fin => 3
  }

  function FlagOfByte(b: Byte): Option<Flag> {
    match b
    case 1 => Some(Open)
    case 2 => Some(Data)
    case 3 => Some(Fin)
    case _ => None
  }

  function HeaderBytes(h: Header): (b: seq<Byte>)
    ensures |b| == MUX_HEADER_SIZE
  {
    [FlagByte(h.flag)] + U32ToLe(h.streamId) + U32ToLe(h.payloadLen)
  }

  /** The array is filled field by field, as the serialiser does. */
  method ToBytes(h: Header) returns (out: array<Byte>)
    ensures fresh(out) && out[..] == HeaderBytes(h)
  {
    out := new Byte[MUX_HEADER_SIZE](_ => 0);
    out[0] := FlagByte(h.flag);
    var id := U32ToLe(h.streamId);
    for i := 0 to 4
      invariant out[0] == FlagByte(h.flag)
      invariant forall k :: 0 <= k < i ==> out[1 + k] == id[k]
    {
      out[1 + i] := id[i];
    }
    var len := U32ToLe(h.payloadLen);
    for i := 0 to 4
      invariant out[0] == FlagByte(h.flag)
      invariant forall k :: 0 <= k < 4 ==> out[1 + k] == id[k]
      invariant forall k :: 0 <= k < i ==> out[5 + k] == len[k]
    {
      out[5 + i] := len[i];
    }
    assert out[..] == HeaderBytes(h);
  }

  function DecodeHeader(bytes: seq<Byte>): Result<Header, HeaderError> {
    if |bytes| < MUX_HEADER_SIZE then Err(TooShort)
    else
      match FlagOfByte(bytes[0])
      case None => Err(UnknownFlag(bytes[0]))
      case Some(flag) =>
        var streamId := U32FromLe(bytes[1..5]);
        var payloadLen := U32FromLe(bytes[5..9]);
        if flag == Fin && payloadLen != 0 then Err(FinWithPayload(payloadLen))
        else if flag == Open && payloadLen != OPEN_PAYLOAD then Err(OpenBadPayload(payloadLen))
        else Ok(Header(flag, streamId, payloadLen))
  }

  /** Why a header is rejected. */
  lemma HeaderErrors(bytes: seq<Byte>)
    ensures var r := DecodeHeader(bytes);
            && (r == Err(TooShort) <==> |bytes| < 9)
            && (r.Err? && r.error.UnknownFlag? <==> |bytes| >= 9 && bytes[0] !in {1, 2, 3})
            && (r.Err? && r.error.FinWithPayload? <==> |bytes| >= 9 && bytes[0] == 3 && U32FromLe(bytes[5..9]) != 0)
            && (r.Err? && r.error.OpenBadPayload? <==> |bytes| >= 9 && bytes[0] == 1 && U32FromLe(bytes[5..9]) != 9)
            && (|bytes| >= 9 && r.Err? ==>
                  r.error == UnknownFlag(bytes[0]) || r.error == FinWithPayload(U32FromLe(bytes[5..9]))
                  || r.error == OpenBadPayload(U32FromLe(bytes[5..9])))
  {
  }

  /** The headers the protocol admits: FIN is empty, OPEN carries nine bytes. */
  predicate Admissible(h: Header) {
    && (h.flag == Fin ==> h.payloadLen == 0)
    && (h.flag == Open ==> h.payloadLen == OPEN_PAYLOAD)
  }

  /** Decoding inverts encoding on exactly the admissible headers. */
  lemma DecodeEncode(h: Header, tail: seq<Byte>)
    ensures DecodeHeader(HeaderBytes(h) + tail) == Ok(h) <==> Admissible(h)
    ensures !Admissible(h) ==> DecodeHeader(HeaderBytes(h) + tail).Err?
  {
    var b := HeaderBytes(h) + tail;
    assert b[1..5] == U32ToLe(h.streamId);
    assert b[5..9] == U32ToLe(h.payloadLen);
    U32LeRoundTrip(h.streamId);
    U32LeRoundTrip(h.payloadLen);
  }

  /** Encoding inverts decoding: an accepted header has one spelling. */
  lemma EncodeDecode(bytes: seq<Byte>)
    requires DecodeHeader(bytes).Ok?
    ensures Admissible(DecodeHeader(bytes).value)
    ensures HeaderBytes(DecodeHeader(bytes).value) == bytes[..MUX_HEADER_SIZE]
  {
    U32LeUnique(bytes[1..5]);
    U32LeUnique(bytes[5..9]);
    var h := DecodeHeader(bytes).value;
    assert HeaderBytes(h) == [bytes[0]] + bytes[1..5] + bytes[5..9];
  }

  // ---------------- frames ----------------

  /** A frame handed to the writer task: a header and its payload. */
  datatype Frame = Frame(header: Header, payload: seq<Byte>)

  function OpenFrame(id: U32, payload: seq<Byte>): Frame {
    Frame(Header(Open, id, OPEN_PAYLOAD), payload)
  }

  /** The length field is the payload length cast to 32 bits. */
  function DataFrame(id: U32, payload: seq<Byte>): Frame {
    Frame(Header(Data, id, |payload| % TWO_32), payload)
  }

  function FinFrame(id: U32): Frame {
    Frame(Header(Fin, id, 0), [])
  }

  /** Frames the two stream halves put on the writer queue, for writes below 4 GiB. */
  predicate Emittable(f: Frame) {
    && Admissible(f.header)
    && |f.payload| == f.header.payloadLen
    && (f.header.flag == Open ==> f.header.streamId != CONTROL_STREAM_ID)
    && (f.header.flag == Data ==> f.payload != [])
  }

  /** Emitted frames the peer's reader is willing to take. */
  predicate Acceptable(f: Frame) {
    f.header.flag == Data ==> f.header.payloadLen <= MAX_MUX_PAYLOAD
  }

  function Encode(f: Frame): (b: seq<Byte>)
    ensures |b| == MUX_HEADER_SIZE + |f.payload|
  {
    HeaderBytes(f.header) + f.payload
  }

  function EncodeAll(fs: seq<Frame>): seq<Byte> {
    if fs == [] then [] else Encode(fs[0]) + EncodeAll(fs[1..])
  }

  lemma {:induction false} EncodeAllConcat(fs: seq<Frame>, gs: seq<Frame>)
    ensures EncodeAll(fs + gs) == EncodeAll(fs) + EncodeAll(gs)
  {
    if fs == [] {
      assert fs + gs == gs;
    } else {
      assert (fs + gs)[1..] == fs[1..] + gs;
      EncodeAllConcat(fs[1..], gs);
    }
  }

  /** What the reader can do with the bytes at hand. */
  datatype View = NeedMore(n: nat) | Exit | Complete(f: Frame)

  /**
    The reader's decision on the bytes read since the last frame boundary:
    wait for exactly so many more, give up, or dispatch a frame.
   */
  function Inspect(rbuf: seq<Byte>): (v: View)
    ensures v.NeedMore? ==> v.n > 0
    ensures v.Complete? ==>
              && |rbuf| >= |Encode(v.f)|
              && |v.f.payload| == v.f.header.payloadLen
  {
    if |rbuf| < MUX_HEADER_SIZE then NeedMore(MUX_HEADER_SIZE - |rbuf|)
    else
      match DecodeHeader(rbuf[..MUX_HEADER_SIZE])
      case Err(_) => Exit
      case Ok(h) =>
        match h.flag
        case Open =>
          if |rbuf| < 18 then NeedMore(18 - |rbuf|)
          else if h.streamId == CONTROL_STREAM_ID then Exit
          else Complete(Frame(h, rbuf[9..18]))
        case Data =>
          if h.payloadLen > MAX_MUX_PAYLOAD then Exit
          else if |rbuf| < 9 + h.payloadLen then NeedMore(9 + h.payloadLen - |rbuf|)
          else Complete(Frame(h, rbuf[9..9 + h.payloadLen]))
        case Fin => Complete(Frame(h, []))
  }

  /** The reader gives up exactly on a header it cannot decode, an OPEN of the Control stream, or DATA above 256 KiB. */
  lemma RefusedIff(rbuf: seq<Byte>)
    ensures Inspect(rbuf).Exit? <==>
            && |rbuf| >= 9
            && match DecodeHeader(rbuf[..9])
               case Err(_) => true
               case Ok(h) => (h.flag == Open && h.streamId == 0 && |rbuf| >= 18) || (h.flag == Data && h.payloadLen > 256 * 1024)
    ensures Inspect(rbuf).NeedMore? ==>
              Inspect(rbuf).n + |rbuf| == if |rbuf| < 9 then 9 else 9 + U32FromLe(rbuf[5..9])
  {
    if |rbuf| >= 9 { assert rbuf[..9][5..9] == rbuf[5..9]; }
  }

  /** Every frame the reader dispatches, in order, from a stream of bytes. */
  function Frames(bytes: seq<Byte>): seq<Frame>
    decreases |bytes|
  {
    match Inspect(bytes)
    case Complete(f) => [f] + Frames(bytes[|Encode(f)|..])
    case _ => []
  }

  /**
    The reader on an emitted frame followed by anything: it dispatches the
    frame if the frame is acceptable and exits otherwise.
   */
  lemma InspectEncoded(f: Frame, rest: seq<Byte>)
    requires Emittable(f)
    ensures Inspect(Encode(f) + rest) == if Acceptable(f) then Complete(f) else Exit
  {
    var b := Encode(f) + rest;
    assert b[..9] == HeaderBytes(f.header) + [];
    DecodeEncode(f.header, []);
    assert b[9..9 + |f.payload|] == f.payload;
  }

  /** The reader on a strict prefix of an emitted frame: it waits, or has already refused. */
  lemma InspectPartial(f: Frame, n: nat)
    requires Emittable(f) && n < |Encode(f)|
    ensures Inspect(Encode(f)[..n]).NeedMore? || (Inspect(Encode(f)[..n]).Exit? && !Acceptable(f))
    ensures Inspect(Encode(f)[..n]).NeedMore? ==> n + Inspect(Encode(f)[..n]).n <= |Encode(f)|
  {
    var b := Encode(f)[..n];
    if n >= 9 {
      assert b[..9] == HeaderBytes(f.header) + [];
      DecodeEncode(f.header, []);
    }
  }

  /** The reader completes a frame exactly when all of it has arrived and it is acceptable. */
  lemma InspectHead(f: Frame, n: nat)
    requires Emittable(f) && n <= |Encode(f)|
    ensures var v := Inspect(Encode(f)[..n]);
            && (v.Complete? <==> n == |Encode(f)| && Acceptable(f))
            && (v.Complete? ==> v.f == f)
            && (v.NeedMore? ==> n < |Encode(f)| && n + v.n <= |Encode(f)|)
            && (Acceptable(f) ==> !v.Exit?)
  {
    if n < |Encode(f)| {
      InspectPartial(f, n);
    } else {
      InspectEncoded(f, []);
      assert Encode(f)[..n] == Encode(f) + [];
    }
  }

  /** How many frames of `fs` the reader gets out of the first `n` bytes of their encoding. */
  function Arrived(fs: seq<Frame>, n: nat): (k: nat)
    ensures k <= |fs|
  {
    if fs == [] || n < |Encode(fs[0])| || !Acceptable(fs[0]) then 0
    else 1 + Arrived(fs[1..], n - |Encode(fs[0])|)
  }

  /**
    Cut the bytes of any emitted frame sequence anywhere: what the reader
    dispatches is a prefix of what was sent.
   */
  lemma {:induction false} PrefixYieldsFramePrefix(fs: seq<Frame>, n: nat)
    requires forall i :: 0 <= i < |fs| ==> Emittable(fs[i])
    requires n <= |EncodeAll(fs)|
    ensures Frames(EncodeAll(fs)[..n]) == fs[..Arrived(fs, n)]
    decreases |fs|
  {
    if fs != [] {
      var f, e := fs[0], Encode(fs[0]);
      if n < |e| {
        assert EncodeAll(fs)[..n] == e[..n];
        NoFrame(f, n);
      } else {
        var b := EncodeAll(fs[1..]);
        if Acceptable(f) { PrefixYieldsFramePrefix(fs[1..], n - |e|); }
        PrefixStep(fs, f, b, n);
      }
    }
  }

  lemma PrefixStep(fs: seq<Frame>, f: Frame, b: seq<Byte>, n: nat)
    requires fs != [] && f == fs[0] && Emittable(f) && b == EncodeAll(fs[1..])
    requires |Encode(f)| <= n <= |Encode(f)| + |b|
    requires Acceptable(f) ==> Frames(b[..n - |Encode(f)|]) == fs[1..][..Arrived(fs[1..], n - |Encode(f)|)]
    ensures Frames((Encode(f) + b)[..n]) == fs[..Arrived(fs, n)]
  {
    var rest := b[..n - |Encode(f)|];
    CutAfter(Encode(f), b, n);
    FirstFrame(f, rest);
    if Acceptable(f) { TakeOneMore(fs, Arrived(fs[1..], n - |Encode(f)|)); }
  }

  lemma CutAfter(e: seq<Byte>, b: seq<Byte>, n: nat)
    requires |e| <= n <= |e| + |b|
    ensures (e + b)[..n] == e + b[..n - |e|]
  {
  }

  lemma TakeOneMore(fs: seq<Frame>, k: nat)
    requires k < |fs|
    ensures fs[..k + 1] == [fs[0]] + fs[1..][..k]
  {
  }

  lemma NoFrame(f: Frame, n: nat)
    requires Emittable(f) && n < |Encode(f)|
    ensures Frames(Encode(f)[..n]) == []
  {
    InspectPartial(f, n);
  }

  lemma FirstFrame(f: Frame, rest: seq<Byte>)
    requires Emittable(f)
    ensures Frames(Encode(f) + rest) == if Acceptable(f) then [f] + Frames(rest) else []
  {
    InspectEncoded(f, rest);
    assert (Encode(f) + rest)[|Encode(f)|..] == rest;
  }

  /**
    That prefix is as long as it can be: its frames arrived whole and were
    acceptable, and the next one is refused or still incomplete.
   */
  lemma {:induction false} ArrivedIsMaximal(fs: seq<Frame>, n: nat)
    ensures |EncodeAll(fs[..Arrived(fs, n)])| <= n
    ensures forall i :: 0 <= i < Arrived(fs, n) ==> Acceptable(fs[i])
    ensures Arrived(fs, n) < |fs| ==>
              !Acceptable(fs[Arrived(fs, n)]) || n < |EncodeAll(fs[..Arrived(fs, n) + 1])|
    decreases |fs|
  {
    var k := Arrived(fs, n);
    if fs == [] || !Acceptable(fs[0]) {
      assert fs[..k] == [];
    } else if n < |Encode(fs[0])| {
      assert fs[..k] == [] && fs[..k + 1] == [fs[0]];
    } else {
      ArrivedIsMaximal(fs[1..], n - |Encode(fs[0])|);
      assert fs[..k][1..] == fs[1..][..k - 1];
      if k < |fs| {
        assert fs[..k + 1][1..] == fs[1..][..k];
      }
      forall i | 0 <= i < k ensures Acceptable(fs[i]) {
        if i > 0 { assert fs[i] == fs[1..][i - 1]; }
      }
    }
  }

  /** Everything emitted below the reader's cap comes back, frame for frame. */
  lemma {:induction false} WireRoundTrip(fs: seq<Frame>)
    requires forall i :: 0 <= i < |fs| ==> Emittable(fs[i]) && Acceptable(fs[i])
    ensures Frames(EncodeAll(fs)) == fs
  {
    if fs != [] {
      InspectEncoded(fs[0], EncodeAll(fs[1..]));
      assert EncodeAll(fs)[|Encode(fs[0])|..] == EncodeAll(fs[1..]);
      WireRoundTrip(fs[1..]);
    }
  }

  /** A write becomes one DATA frame; the frame survives the wire exactly when the peer's cap allows it. */
  lemma DataSurvivesIff(id: U32, payload: seq<Byte>)
    requires payload != []
    requires |payload| < TWO_32
    ensures Frames(Encode(DataFrame(id, payload))) == [DataFrame(id, payload)] <==> |payload| <= MAX_MUX_PAYLOAD
  {
    var f := DataFrame(id, payload);
    assert |payload| % TWO_32 == |payload|;
    InspectEncoded(f, []);
    assert Encode(f) + [] == Encode(f);
    if |payload| <= MAX_MUX_PAYLOAD {
      assert Encode(f)[|Encode(f)|..] == [];
    }
  }
}
