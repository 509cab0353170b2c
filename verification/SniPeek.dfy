/** The ClientHello parser as a cursor over a buffer, the peek that feeds it, and the replay that hides the peek. */
module SniPeek {
  import opened Bytes
  import opened ClientHello
  import opened Sockets

  // ---------------- the cursor ----------------

  class Reader {
    const buf: seq<Byte>
    var pos: nat

    ghost predicate Valid()
      reads this
    {
      pos <= |buf|
    }

    constructor (bytes: seq<Byte>)
      ensures Valid() && buf == bytes && pos == 0
    {
      buf := bytes;
      pos := 0;
    }

    function Remaining(): seq<Byte>
      requires Valid()
      reads this
    {
      buf[pos..]
    }

    /** Take the next `n` bytes, or fail and stay. */
    method Bite(n: nat) returns (r: Option<seq<Byte>>)
      requires Valid()
      modifies this
      ensures Valid()
      ensures match CutAt(old(Remaining()), n)
              case None => r == None && Remaining() == old(Remaining())
              case Some(c) => r == Some(c.field) && Remaining() == c.rest
    {
      if |buf| - pos < n {
        return None;
      }
      r := Some(buf[pos..pos + n]);
      assert buf[pos..][..n] == buf[pos..pos + n] && buf[pos..][n..] == buf[pos + n..];
      pos := pos + n;
    }

    method TakeU8() returns (r: Option<Byte>)
      requires Valid()
      modifies this
      ensures Valid()
      ensures if old(Remaining()) == [] then r == None && Remaining() == old(Remaining())
              else r == Some(old(Remaining())[0]) && Remaining() == old(Remaining())[1..]
    {
      var b := Bite(1);
      return if b.Some? then Some(b.value[0]) else None;
    }

    method TakeU16() returns (r: Option<U16>)
      requires Valid()
      modifies this
      ensures Valid()
      ensures if |old(Remaining())| < 2 then r == None && Remaining() == old(Remaining())
              else r == Some(U16FromBe(old(Remaining())[..2])) && Remaining() == old(Remaining())[2..]
    {
      var b := Bite(2);
      return if b.Some? then Some(U16FromBe(b.value)) else None;
    }

    method TakeU24() returns (r: Option<nat>)
      requires Valid()
      modifies this
      ensures Valid()
      ensures if |old(Remaining())| < 3 then r == None && Remaining() == old(Remaining())
              else r == Some(U24FromBe(old(Remaining())[..3])) && Remaining() == old(Remaining())[3..]
    {
      var b := Bite(3);
      return if b.Some? then Some(U24FromBe(b.value)) else None;
    }

    /** A field with a one-byte length. */
    method TakeVec8() returns (r: Option<seq<Byte>>)
      requires Valid()
      modifies this
      ensures Valid()
      ensures match CutVec8(old(Remaining()))
              case None => r == None
              case Some(c) => r == Some(c.field) && Remaining() == c.rest
    {
      var n := TakeU8();
      if n.None? {
        return None;
      }
      r := Bite(n.value);
    }

    /** A field with a two-byte length. */
    method TakeVec16() returns (r: Option<seq<Byte>>)
      requires Valid()
      modifies this
      ensures Valid()
      ensures match CutVec16(old(Remaining()))
              case None => r == None
              case Some(c) => r == Some(c.field) && Remaining() == c.rest
    {
      var n := TakeU16();
      if n.None? {
        return None;
      }
      r := Bite(n.value);
    }
  }

  // ---------------- the parser ----------------

  method ParseSniExtension(data: seq<Byte>, lower: Lowering) returns (r: Result<string, HelloError>)
    ensures r == ParseSni(data, lower)
  {
    var reader := new Reader(data);
    var l := reader.TakeVec16();
    if l.None? {
      return Err(TruncatedField);
    }
    var list := new Reader(l.value);
    while list.pos < |list.buf|
      invariant list.Valid() && WalkNames(list.Remaining(), lower) == WalkNames(l.value, lower)
      decreases |list.Remaining()|
    {
      ghost var before := list.Remaining();
      var kind := list.TakeU8();
      var name := list.TakeVec16();
      if name.None? {
        return Err(TruncatedField);
      }
      if kind.value == 0 {
        var s := lower(name.value);
        return if s.Some? then Ok(s.value) else Err(NonUtf8);
      }
      assert WalkNames(before, lower) == WalkNames(list.Remaining(), lower);
    }
    return Err(NoHostName);
  }

  method ParseAlpnExtension(data: seq<Byte>) returns (r: Result<seq<seq<Byte>>, HelloError>)
    ensures r == ParseAlpn(data)
  {
    var reader := new Reader(data);
    var l := reader.TakeVec16();
    if l.None? {
      return Err(TruncatedField);
    }
    var list := new Reader(l.value);
    var out: seq<seq<Byte>> := [];
    ghost var goal := WalkProtocols(l.value);
    PrefixedNone(goal);
    while list.pos < |list.buf|
      invariant list.Valid() && goal == Prefixed(out, WalkProtocols(list.Remaining()))
      decreases |list.Remaining()|
    {
      var name := list.TakeVec8();
      if name.None? {
        return Err(TruncatedField);
      }
      PrefixedStep(out, name.value, WalkProtocols(list.Remaining()));
      out := out + [name.value];
    }
    PrefixedAll(out, list.Remaining());
    return Ok(out);
  }

  /** A list read so far and what the rest of it will be. */
  function Prefixed(out: seq<seq<Byte>>, r: Result<seq<seq<Byte>>, HelloError>): Result<seq<seq<Byte>>, HelloError> {
    match r
    case Err(e) => Err(e)
    case Ok(ps) => Ok(out + ps)
  }

  lemma PrefixedNone(r: Result<seq<seq<Byte>>, HelloError>)
    ensures Prefixed([], r) == r
  {
    if r.Ok? { assert [] + r.value == r.value; }
  }

  lemma PrefixedAll(out: seq<seq<Byte>>, rest: seq<Byte>)
    requires rest == []
    ensures Prefixed(out, WalkProtocols(rest)) == Ok(out)
  {
    assert out + [] == out;
  }

  lemma PrefixedStep(out: seq<seq<Byte>>, p: seq<Byte>, r: Result<seq<seq<Byte>>, HelloError>)
    ensures Prefixed(out + [p], r) == match r
                                      case Err(e) => Err(e)
                                      case Ok(ps) => Prefixed(out, Ok([p] + ps))
  {
    if r.Ok? { assert out + [p] + r.value == out + ([p] + r.value); }
  }

  method WalkExtensionBlock(block: seq<Byte>, lower: Lowering) returns (r: Result<Found, HelloError>)
    ensures r == WalkExtensions(block, NOTHING, lower)
  {
    var exts := new Reader(block);
    var found := NOTHING;
    while exts.pos < |exts.buf|
      invariant exts.Valid() && WalkExtensions(exts.Remaining(), found, lower) == WalkExtensions(block, NOTHING, lower)
      decreases |exts.Remaining()|
    {
      ghost var before := exts.Remaining();
      var kind := exts.TakeU16();
      if kind.None? {
        return Err(TruncatedField);
      }
      var data := exts.TakeVec16();
      if data.None? {
        return Err(TruncatedField);
      }
      assert WalkExtensions(before, found, lower) ==
             match Absorb(Extension(kind.value, data.value), found, lower)
             case Err(e) => Err(e)
             case Ok(f) => WalkExtensions(exts.Remaining(), f, lower);
      if kind.value == EXT_SERVER_NAME {
        var n := ParseSniExtension(data.value, lower);
        if n.Err? {
          return Err(n.error);
        }
        found := found.(name := Some(n.value));
      } else if kind.value == EXT_ALPN {
        var a := ParseAlpnExtension(data.value);
        if a.Err? {
          return Err(a.error);
        }
        found := found.(alpn := a.value);
      }
    }
    return Ok(found);
  }

  /** The extension block of a ClientHello body. */
  method ExtensionBlock(bytes: seq<Byte>) returns (r: Option<seq<Byte>>)
    ensures r == match CutFields(bytes)
                 case None => None
                 case Some(f) => Some(f.extensions)
  {
    var body := new Reader(bytes);
    var version := body.Bite(2);
    if version.None? {
      return None;
    }
    var random := body.Bite(32);
    if random.None? {
      return None;
    }
    assert body.Remaining() == bytes[34..];
    var sid := body.TakeVec8();
    if sid.None? {
      return None;
    }
    var ciphers := body.TakeVec16();
    if ciphers.None? {
      return None;
    }
    var compression := body.TakeVec8();
    if compression.None? {
      return None;
    }
    r := body.TakeVec16();
  }

  method ParseClientHello(fragment: seq<Byte>, lower: Lowering) returns (r: Result<(string, seq<seq<Byte>>), HelloError>)
    ensures r == ParseHello(fragment, lower)
  {
    var reader := new Reader(fragment);
    var kind := reader.TakeU8();
    if kind.None? {
      return Err(TruncatedField);
    }
    if kind.value != 1 {
      return Err(NotClientHello);
    }
    var len := reader.TakeU24();
    if len.None? {
      return Err(TruncatedField);
    }
    assert fragment[1..][..3] == fragment[1..4] && fragment[1..][3..] == fragment[4..];
    var body := reader.Bite(len.value);
    if body.None? {
      return Err(TruncatedField);
    }
    var block := ExtensionBlock(body.value);
    if block.None? {
      return Err(TruncatedField);
    }
    var found := WalkExtensionBlock(block.value, lower);
    if found.Err? {
      return Err(found.error);
    }
    return if found.value.name.Some? then Ok((found.value.name.value, found.value.alpn)) else Err(NoSniExtension);
  }

  // ---------------- peek ----------------

  const MAX_HELLO: nat := 16 * 1024

  datatype PeekError = EofInHello | NotHandshakeRecord | ImplausibleLength | BadHello(error: HelloError)

  datatype Peeked = Peeked(serverName: string, alpn: seq<seq<Byte>>, buffered: seq<Byte>)

  function RecordLength(b: seq<Byte>): nat
    requires |b| >= 5
  {
    U16FromBe(b[3..5])
  }

  /** What a peek answers about everything the socket will ever deliver. */
  function PeekAnswer(b: seq<Byte>, lower: Lowering): Result<Peeked, PeekError> {
    if |b| < 5 then Err(EofInHello)
    else if b[0] != 0x16 then Err(NotHandshakeRecord)
    else if RecordLength(b) == 0 || RecordLength(b) > MAX_HELLO then Err(ImplausibleLength)
    else if |b| < 5 + RecordLength(b) then Err(EofInHello)
    else
      match ParseHello(b[5..5 + RecordLength(b)], lower)
      case Err(e) => Err(BadHello(e))
      case Ok((name, alpn)) => Ok(Peeked(name, alpn, b[..5 + RecordLength(b)]))
  }

  /** A TLS record (section 5.1 of RFC 8446). */
  function Record(kind: Byte, major: Byte, minor: Byte, body: seq<Byte>): seq<Byte>
    requires |body| < 0x1_0000
  {
    [kind, major, minor] + U16ToBe(|body|) + body
  }

  lemma RecordHead(kind: Byte, major: Byte, minor: Byte, body: seq<Byte>, rest: seq<Byte>)
    requires |body| < 0x1_0000
    ensures var b := Record(kind, major, minor, body) + rest;
            && |b| == 5 + |body| + |rest| && b[0] == kind && RecordLength(b) == |body|
            && b[5..5 + |body|] == body && b[..5 + |body|] == Record(kind, major, minor, body)
  {
    var b := Record(kind, major, minor, body) + rest;
    assert b[3..5] == U16ToBe(|body|);
  }

  lemma RecordExact(b: seq<Byte>)
    requires |b| >= 5 && |b| >= 5 + RecordLength(b)
    ensures b[..5 + RecordLength(b)] == Record(b[0], b[1], b[2], b[5..5 + RecordLength(b)])
  {
    assert U16ToBe(U16FromBe(b[3..5])) == b[3..5];
  }

  /** The first record of the stream is a handshake record with this body. */
  ghost predicate StartsWith(b: seq<Byte>, record: seq<Byte>, body: seq<Byte>) {
    && 0 < |body| <= 16_384
    && record <= b && exists major, minor :: record == Record(22, major, minor, body)
  }

  lemma PeekFound(b: seq<Byte>, lower: Lowering, record: seq<Byte>, body: seq<Byte>)
    requires StartsWith(b, record, body) && ParseHello(body, lower).Ok?
    ensures PeekAnswer(b, lower) == Ok(Peeked(ParseHello(body, lower).value.0, ParseHello(body, lower).value.1, record))
  {
    var major, minor :| record == Record(22, major, minor, body);
    var rest := b[|record|..];
    assert b == record + rest;
    RecordHead(22, major, minor, body, rest);
  }

  /**
    A peek succeeds exactly when the stream starts with a handshake record of
    one to 16384 bytes whose body parses, and then holds that record.
   */
  lemma PeekIff(b: seq<Byte>, lower: Lowering, p: Peeked)
    ensures PeekAnswer(b, lower) == Ok(p) <==>
            exists body :: StartsWith(b, p.buffered, body) && ParseHello(body, lower) == Ok((p.serverName, p.alpn))
  {
    if PeekAnswer(b, lower) == Ok(p) {
      RecordExact(b);
      assert StartsWith(b, p.buffered, b[5..5 + RecordLength(b)]);
    }
    forall body | StartsWith(b, p.buffered, body) && ParseHello(body, lower) == Ok((p.serverName, p.alpn))
      ensures PeekAnswer(b, lower) == Ok(p)
    {
      PeekFound(b, lower, p.buffered, body);
    }
  }

  /** Why a peek fails: too few bytes, another kind of record, an implausible length, or a body the parser refuses. */
  lemma PeekFails(b: seq<Byte>, lower: Lowering)
    ensures var r := PeekAnswer(b, lower);
            var plausible := |b| >= 5 && b[0] == 22 && 0 < 256 * (b[3] as int) + b[4] <= 16_384;
            && (r == Err(EofInHello) <==> |b| < 5 || (plausible && |b| < 5 + 256 * (b[3] as int) + b[4]))
            && (r == Err(NotHandshakeRecord) <==> |b| >= 5 && b[0] != 22)
            && (r == Err(ImplausibleLength) <==> |b| >= 5 && b[0] == 22 && !plausible)
            && (r.Err? && r.error.BadHello? ==> plausible && ParseHello(b[5..5 + RecordLength(b)], lower) == Err(r.error.error))
  {
  }

  /** Read until `needed` bytes are buffered, and never a byte more, however the socket cuts its reads. */
  method ReadAtLeast(s: Socket, buf: seq<Byte>, needed: nat) returns (ok: bool, buf': seq<Byte>)
    requires |buf| <= needed
    modifies s
    ensures buf' + s.incoming == buf + old(s.incoming) && |buf'| <= needed
    ensures ok <==> |buf'| == needed
    ensures ok <==> |buf| + |old(s.incoming)| >= needed
  {
    buf' := buf;
    while |buf'| < needed
      invariant |buf| <= |buf'| <= needed && buf' + s.incoming == buf + old(s.incoming)
      decreases needed - |buf'|
    {
      var b := s.Read(needed - |buf'|);
      ghost var was := buf';
      buf' := buf' + b;
      assert buf' + s.incoming == was + (b + s.incoming);
      if b == [] {
        return false, buf';
      }
    }
    return true, buf';
  }

  /** On success exactly the first record is buffered and everything after it is still in the socket. */
  method Peek(s: Socket, lower: Lowering) returns (r: Result<Peeked, PeekError>)
    modifies s
    ensures r == PeekAnswer(old(s.incoming), lower)
    ensures r.Ok? ==> r.value.buffered + s.incoming == old(s.incoming)
  {
    ghost var all := s.incoming;
    var ok, buf := ReadAtLeast(s, [], 5);
    assert buf + s.incoming == all;
    if !ok {
      return Err(EofInHello);
    }
    assert forall i :: 0 <= i < 5 ==> buf[i] == all[i];
    if buf[0] != 0x16 {
      return Err(NotHandshakeRecord);
    }
    var len := U16FromBe([buf[3], buf[4]]);
    assert [buf[3], buf[4]] == all[3..5];
    if len == 0 || len > MAX_HELLO {
      return Err(ImplausibleLength);
    }
    var needed := 5 + len;
    ok, buf := ReadAtLeast(s, buf, needed);
    if !ok {
      return Err(EofInHello);
    }
    assert buf == all[..needed];
    assert buf[5..needed] == all[5..needed];
    var p := ParseClientHello(buf[5..needed], lower);
    return match p
      case Err(e) => Err(BadHello(e))
      case Ok((name, alpn)) => Ok(Peeked(name, alpn, buf));
  }

  // ---------------- replay ----------------

  class ReplayStream {
    const replay: seq<Byte>
    var readPos: nat
    const inner: Socket

    ghost predicate Valid()
      reads this
    {
      readPos <= |replay|
    }

    /** Everything a reader of this stream will ever get. */
    ghost function Pending(): seq<Byte>
      requires Valid()
      reads this, inner
    {
      replay[readPos..] + inner.incoming
    }

    constructor (bytes: seq<Byte>, s: Socket)
      ensures Valid() && inner == s && Pending() == bytes + s.incoming
    {
      replay := bytes;
      readPos := 0;
      inner := s;
    }

    /** Read as if nothing had been peeked: the next bytes of the stream, none only at its end or into no room. */
    method Read(room: nat) returns (b: seq<Byte>)
      requires Valid()
      modifies this, inner
      ensures Valid() && |b| <= room && b + Pending() == old(Pending())
      ensures room > 0 && old(Pending()) != [] ==> b != []
    {
      ghost var all := Pending();
      if readPos < |replay| {
        var take := Min(|replay| - readPos, room);
        b := replay[readPos..readPos + take];
        readPos := readPos + take;
        assert replay[readPos - take..] == b + replay[readPos..];
        assert b + (replay[readPos..] + inner.incoming) == (b + replay[readPos..]) + inner.incoming;
        return;
      }
      assert replay[readPos..] == [];
      b := inner.Read(room);
      assert Pending() == inner.incoming;
    }
  }

  /** Read with any buffer sizes until the end. */
  method ReadAll(r: ReplayStream, rooms: nat -> nat) returns (out: seq<Byte>)
    requires r.Valid() && forall k: nat :: rooms(k) > 0
    modifies r, r.inner
    ensures out == old(r.Pending())
  {
    out := [];
    var k := 0;
    ghost var all := r.Pending();
    assert out + all == all;
    while true
      invariant r.Valid() && out + r.Pending() == all
      decreases |r.Pending()|
    {
      ghost var before := r.Pending();
      var b := r.Read(rooms(k));
      Regroup(out, b, r.Pending(), before, all);
      if b == [] {
        return;
      }
      out := out + b;
      k := k + 1;
    }
  }

  lemma Regroup(out: seq<Byte>, b: seq<Byte>, rest: seq<Byte>, before: seq<Byte>, all: seq<Byte>)
    requires b + rest == before && out + before == all
    ensures (out + b) + rest == all && (before == [] ==> out == all)
  {
  }

  /** After a successful peek the wrapped stream delivers exactly the bytes the socket held before it. */
  method PeekThenReadAll(s: Socket, lower: Lowering, rooms: nat -> nat) returns (peeked: bool, out: seq<Byte>)
    requires forall k: nat :: rooms(k) > 0
    modifies s
    ensures peeked <==> PeekAnswer(old(s.incoming), lower).Ok?
    ensures peeked ==> out == old(s.incoming)
  {
    var p := Peek(s, lower);
    if p.Err? {
      return false, [];
    }
    var r := new ReplayStream(p.value.buffered, s);
    out := ReadAll(r, rooms);
    return true, out;
  }
}
