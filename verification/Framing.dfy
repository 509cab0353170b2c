/**
  Length-prefixed frames: a base-128 length and a payload. The slice decoder
  and the streaming reader are both proved against one reference reading.
 */
module Framing {
  import opened Bytes
  import opened Sockets

  const MAX_FRAME_SIZE: nat := 64 * 1024
  const VARINT_MAX_BYTES: nat := 5

  datatype FramingError =
    | FrameTooLarge(size: nat)
    | BadVarint
    | Truncated(needed: nat, had: nat)
    | Postcard

  // ---------------- base 128 ----------------

  /** Little-endian base-128 value of the low seven bits of each byte. */
  function Value(g: seq<Byte>): nat {
    if g == [] then 0 else g[0] % 128 + 128 * Value(g[1..])
  }

  /** How many leading bytes ask for another one. */
  function Continuing(b: seq<Byte>): (n: nat)
    ensures n <= |b|
    ensures forall i :: 0 <= i < n ==> b[i] >= 128
    ensures n < |b| ==> b[n] < 128
  {
    if b == [] || b[0] < 128 then 0 else 1 + Continuing(b[1..])
  }

  /** The reference reading: at most five bytes, the last one final, and a value that fits. */
  function ReadVarint(b: seq<Byte>): (r: Option<(U32, nat)>)
    ensures r.Some? ==> 1 <= r.value.1 <= VARINT_MAX_BYTES && r.value.1 <= |b|
  {
    var n := Continuing(b);
    if n < |b| && n < VARINT_MAX_BYTES && Value(b[..n + 1]) < TWO_32 then Some((Value(b[..n + 1]), n + 1)) else None
  }

  function VarintBytes(v: nat): (b: seq<Byte>)
    ensures |b| >= 1
  {
    if v < 128 then [v] else [128 + v % 128] + VarintBytes(v / 128)
  }

  function Pow128(i: nat): (p: nat)
    ensures p >= 1
  {
    if i == 0 then 1 else 128 * Pow128(i - 1)
  }

  lemma {:induction false} ValueSplit(g: seq<Byte>, h: seq<Byte>)
    ensures Value(g + h) == Value(g) + Pow128(|g|) * Value(h)
  {
    if g == [] {
      assert g + h == h;
    } else {
      ValueSplit(g[1..], h);
      assert (g + h)[1..] == g[1..] + h;
      Distribute(g[0] % 128, Value(g[1..]), Pow128(|g| - 1), Value(h));
    }
  }

  lemma Distribute(a: nat, t: nat, p: nat, v: nat)
    ensures a + 128 * (t + p * v) == a + 128 * t + (128 * p) * v
  {
    assert 128 * (p * v) == (128 * p) * v;
  }

  lemma {:induction false} ValueBound(g: seq<Byte>)
    ensures Value(g) < Pow128(|g|)
  {
    if g != [] { ValueBound(g[1..]); }
  }

  /** A complete varint: every byte but the last asks for another. */
  ghost predicate Groups(g: seq<Byte>) {
    g != [] && g[|g| - 1] < 128 && forall i :: 0 <= i < |g| - 1 ==> g[i] >= 128
  }

  lemma GroupsCons(h: Byte, g: seq<Byte>)
    requires Groups(g) && h >= 128
    ensures Groups([h] + g)
  {
  }

  lemma {:induction false} VarintShape(v: nat)
    ensures Groups(VarintBytes(v)) && Value(VarintBytes(v)) == v
  {
    if v < 128 {
      assert [v] + [] == [v];
    } else {
      VarintShape(v / 128);
      GroupsCons(128 + v % 128, VarintBytes(v / 128));
    }
  }

  lemma {:induction false} VarintSize(v: nat, k: nat)
    requires v < Pow128(k + 1)
    ensures |VarintBytes(v)| <= k + 1
  {
    if v >= 128 {
      if k > 0 { VarintSize(v / 128, k - 1); }
    }
  }

  /** Every u32 reads back, whatever follows it. */
  lemma VarintRoundTrip(v: U32, rest: seq<Byte>)
    ensures ReadVarint(VarintBytes(v) + rest) == Some((v, |VarintBytes(v)|))
    ensures |VarintBytes(v)| <= VARINT_MAX_BYTES
  {
    var b := VarintBytes(v);
    VarintShape(v);
    assert Pow128(1) == 128 && Pow128(2) == 16384 && Pow128(3) == 2097152 && Pow128(4) == 268435456;
    VarintSize(v, 4);
    assert (b + rest)[..|b|] == b;
  }

  lemma ConsVarint(h: Byte, t: seq<Byte>)
    requires h >= 128 && Value(t) >= 1
    ensures VarintBytes(Value([h] + t)) == [h] + VarintBytes(Value(t))
  {
    assert ([h] + t)[1..] == t;
    var v := Value([h] + t);
    assert v == h % 128 + 128 * Value(t);
    assert v / 128 == Value(t) && v % 128 == h % 128 && h == 128 + h % 128;
  }

  lemma {:induction false} LastGroup(g: seq<Byte>)
    requires g != [] && 0 < g[|g| - 1] < 128
    ensures Value(g) >= 1
  {
    if |g| > 1 { LastGroup(g[1..]); }
  }

  /** A length prefix is what the writer would have produced exactly when it has no superfluous zero group. */
  lemma {:induction false} MinimalIff(g: seq<Byte>)
    requires Groups(g)
    ensures VarintBytes(Value(g)) == g <==> |g| == 1 || g[|g| - 1] != 0
  {
    if |g| == 1 {
      assert Value(g) == g[0] % 128 + 128 * Value(g[1..]);
    } else {
      var h, t := g[0], g[1..];
      assert g == [h] + t;
      MinimalIff(t);
      if t[|t| - 1] != 0 { LastGroup(t); }
      if Value(t) >= 1 {
        ConsVarint(h, t);
        assert ([h] + VarintBytes(Value(t)))[1..] == VarintBytes(Value(t));
        if |t| == 1 { assert Value(t) == t[0] % 128 + 128 * Value(t[1..]); }
      } else {
        assert Value(g) < 128;
      }
    }
  }

  // ---------------- the varint loops ----------------

  method WriteVarint(v: U32, out: seq<Byte>) returns (out': seq<Byte>)
    ensures out' == out + VarintBytes(v)
  {
    var x: nat := v;
    out' := out;
    while x >= 0x80
      invariant out' + VarintBytes(x) == out + VarintBytes(v)
    {
      out' := out' + [x % 128 + 128];
      x := x / 128;
    }
    out' := out' + [x];
  }

  /** The bits of one byte, moved into place, would not fit a u32. */
  predicate DropsBits(bits: nat, i: nat) {
    7 * i >= 32 || bits * Pow128(i) % TWO_32 / Pow128(i) != bits
  }

  lemma Powers(i: nat)
    requires i < VARINT_MAX_BYTES
    ensures Pow128(i) == [1, 128, 16384, 2097152, 268435456][i]
  {
    assert Pow128(0) == 1;
    assert Pow128(1) == 128;
    assert Pow128(2) == 16384;
    assert Pow128(3) == 2097152;
    assert Pow128(4) == 268435456;
  }

  /** Bits are dropped exactly when the value would overflow; the bits below do not matter. */
  lemma DropsIff(bits: nat, i: nat, acc: nat)
    requires i < VARINT_MAX_BYTES && bits < 128 && acc < Pow128(i)
    ensures DropsBits(bits, i) <==> acc + bits * Pow128(i) >= TWO_32
  {
    Powers(i);
  }

  lemma ValueStep(b: seq<Byte>, i: nat)
    requires i < |b|
    ensures Value(b[..i + 1]) == Value(b[..i]) + b[i] % 128 * Pow128(i)
    ensures Value(b[..i]) < Pow128(i) && Value(b[..i]) <= Value(b[..i + 1])
  {
    assert b[..i + 1] == b[..i] + [b[i]];
    ValueSplit(b[..i], [b[i]]);
    assert Value([b[i]]) == b[i] % 128 + 128 * Value([b[i]][1..]);
    ValueBound(b[..i]);
  }

  lemma {:induction false} ValueGrows(b: seq<Byte>, i: nat, n: nat)
    requires i <= n <= |b|
    ensures Value(b[..i]) <= Value(b[..n])
    decreases n
  {
    if i < n {
      ValueGrows(b, i, n - 1);
      ValueStep(b, n - 1);
    }
  }

  /** Nothing can be read from bytes whose first groups already overflow, or that go on for too long. */
  lemma NoReading(b: seq<Byte>, i: nat)
    requires i < |b| && i <= Continuing(b) && Value(b[..i + 1]) >= TWO_32
    ensures ReadVarint(b) == None
  {
    var n := Continuing(b);
    if n < |b| { ValueGrows(b, i + 1, n + 1); }
  }

  /** The slice reader. */
  method ReadVarintSlice(b: seq<Byte>) returns (r: Option<(U32, nat)>)
    ensures r == ReadVarint(b)
  {
    var acc: nat := 0;
    var i := 0;
    while i < |b| && i < VARINT_MAX_BYTES
      invariant 0 <= i <= |b| && i <= VARINT_MAX_BYTES
      invariant i <= Continuing(b) && acc == Value(b[..i]) && acc < TWO_32
    {
      var bits := b[i] % 128;
      ValueStep(b, i);
      DropsIff(bits, i, acc);
      if DropsBits(bits, i) {
        NoReading(b, i);
        return None;
      }
      acc := acc + bits * Pow128(i);
      if b[i] < 128 {
        return Some((acc, i + 1));
      }
      i := i + 1;
    }
    return None;
  }

  // ---------------- frames ----------------

  function EncodeRaw(p: seq<Byte>): seq<Byte> { VarintBytes(|p|) + p }

  /** The payload at the head of `b` and the bytes it takes. */
  function DecodeRaw(b: seq<Byte>): (r: Result<(seq<Byte>, nat), FramingError>)
    ensures r.Ok? ==> r.value.1 <= |b| && |r.value.0| <= MAX_FRAME_SIZE && |r.value.0| < r.value.1
  {
    match ReadVarint(b)
    case None => Err(BadVarint)
    case Some((len, k)) =>
      if len > MAX_FRAME_SIZE then Err(FrameTooLarge(len))
      else if |b| < k + len then Err(Truncated(k + len, |b|))
      else Ok((b[k..k + len], k + len))
  }

  lemma RawRoundTrip(p: seq<Byte>, rest: seq<Byte>)
    requires |p| <= MAX_FRAME_SIZE
    ensures DecodeRaw(EncodeRaw(p) + rest) == Ok((p, |EncodeRaw(p)|))
  {
    var v := VarintBytes(|p|);
    VarintRoundTrip(|p|, p + rest);
    assert EncodeRaw(p) + rest == v + (p + rest);
    assert (EncodeRaw(p) + rest)[|v|..|v| + |p|] == p;
  }

  /** A frame cut anywhere is rejected: inside its length as malformed, inside its payload as truncated. */
  lemma StrictPrefixRejected(p: seq<Byte>, k: nat)
    requires |p| <= MAX_FRAME_SIZE && k < |EncodeRaw(p)|
    ensures DecodeRaw(EncodeRaw(p)[..k]) ==
            if k < |VarintBytes(|p|)| then Err(BadVarint) else Err(Truncated(|EncodeRaw(p)|, k))
  {
    var v, b := VarintBytes(|p|), EncodeRaw(p)[..k];
    if k < |v| {
      VarintShape(|p|);
      assert forall i :: 0 <= i < k ==> b[i] == v[i];
    } else {
      VarintRoundTrip(|p|, p[..k - |v|]);
      assert b == v + p[..k - |v|];
    }
  }

  /** What is decoded re-encodes to the same bytes exactly when its length was written minimally. */
  lemma ReencodeIff(b: seq<Byte>)
    requires DecodeRaw(b).Ok?
    ensures var (p, k) := DecodeRaw(b).value;
            var n := Continuing(b);
            EncodeRaw(p) == b[..k] <==> n == 0 || b[n] != 0
  {
    var (p, k) := DecodeRaw(b).value;
    var n := Continuing(b);
    var g := b[..n + 1];
    assert b[..k] == g + p;
    assert forall i :: 0 <= i < n ==> g[i] == b[i];
    MinimalIff(g);
    if EncodeRaw(p) == b[..k] {
      assert |VarintBytes(|p|)| == |g|;
      assert VarintBytes(|p|) == EncodeRaw(p)[..|g|];
      assert g == (g + p)[..|g|];
    }
  }

  function EncodeRaws(ps: seq<seq<Byte>>): seq<Byte> {
    if ps == [] then [] else EncodeRaw(ps[0]) + EncodeRaws(ps[1..])
  }

  /** Frame after frame until the input is used up. */
  function DecodeRaws(b: seq<Byte>): Result<seq<seq<Byte>>, FramingError>
    decreases |b|
  {
    if b == [] then Ok([])
    else
      match DecodeRaw(b)
      case Err(e) => Err(e)
      case Ok((p, k)) =>
        match DecodeRaws(b[k..])
        case Err(e) => Err(e)
        case Ok(ps) => Ok([p] + ps)
  }

  lemma DecodeCons(p: seq<Byte>, e: seq<Byte>, rest: seq<Byte>)
    requires |p| <= MAX_FRAME_SIZE && e == EncodeRaw(p) && DecodeRaws(rest).Ok?
    ensures DecodeRaws(e + rest) == Ok([p] + DecodeRaws(rest).value)
  {
    RawRoundTrip(p, rest);
    assert (e + rest)[|e|..] == rest;
  }

  /** Any list of payloads within the size limit comes back exactly. */
  lemma {:induction false} ListRoundTrip(ps: seq<seq<Byte>>)
    requires forall p :: p in ps ==> |p| <= MAX_FRAME_SIZE
    ensures DecodeRaws(EncodeRaws(ps)) == Ok(ps)
  {
    if ps != [] {
      var e, rest := EncodeRaw(ps[0]), EncodeRaws(ps[1..]);
      ListRoundTrip(ps[1..]);
      DecodeCons(ps[0], e, rest);
      assert ps == [ps[0]] + ps[1..];
    }
  }

  // ---------------- typed frames ----------------

  /** A serialiser and its inverse; the message format itself is a library's. */
  datatype Codec<!T> = Codec(enc: T -> Option<seq<Byte>>, dec: seq<Byte> -> Option<T>)

  ghost predicate Inverse<T(!new)>(c: Codec<T>) {
    forall x: T :: c.enc(x).Some? ==> c.dec(c.enc(x).value) == Some(x)
  }

  method EncodeFrame<T>(c: Codec<T>, x: T, out: seq<Byte>) returns (r: Result<nat, FramingError>, out': seq<Byte>)
    ensures match c.enc(x)
            case None => r == Err(Postcard) && out' == out
            case Some(p) =>
              if |p| > MAX_FRAME_SIZE then r == Err(FrameTooLarge(|p|)) && out' == out
              else r == Ok(|EncodeRaw(p)|) && out' == out + EncodeRaw(p)
  {
    out' := out;
    var e := c.enc(x);
    if e.None? {
      return Err(Postcard), out;
    }
    var p := e.value;
    if |p| > MAX_FRAME_SIZE {
      return Err(FrameTooLarge(|p|)), out;
    }
    out' := WriteVarint(|p|, out');
    out' := out' + p;
    return Ok(|out'| - |out|), out';
  }

  function Typed<T>(c: Codec<T>, r: Result<(seq<Byte>, nat), FramingError>): Result<(T, nat), FramingError> {
    match r
    case Err(e) => Err(e)
    case Ok((p, k)) => if c.dec(p).Some? then Ok((c.dec(p).value, k)) else Err(Postcard)
  }

  method DecodeFrame<T>(c: Codec<T>, b: seq<Byte>) returns (r: Result<(T, nat), FramingError>)
    ensures r == Typed(c, DecodeRaw(b))
  {
    var v := ReadVarintSlice(b);
    if v.None? {
      return Err(BadVarint);
    }
    var (len, k) := v.value;
    if len > MAX_FRAME_SIZE {
      return Err(FrameTooLarge(len));
    }
    var end := k + len;
    if |b| < end {
      return Err(Truncated(end, |b|));
    }
    var x := c.dec(b[k..end]);
    return if x.Some? then Ok((x.value, end)) else Err(Postcard);
  }

  /** What was encoded decodes to the same value and takes exactly its own bytes, whatever follows. */
  lemma FrameRoundTrip<T(!new)>(c: Codec<T>, x: T, rest: seq<Byte>)
    requires Inverse(c) && c.enc(x).Some? && |c.enc(x).value| <= MAX_FRAME_SIZE
    ensures Typed(c, DecodeRaw(EncodeRaw(c.enc(x).value) + rest)) == Ok((x, |EncodeRaw(c.enc(x).value)|))
  {
    RawRoundTrip(c.enc(x).value, rest);
  }

  // ---------------- the streaming reader ----------------

  datatype StreamError = UnexpectedEof | Protocol(error: FramingError)

  /** The slice decoder's answer as a stream reports it: input that ends too early is an end-of-file. */
  function StreamAnswer<T>(b: seq<Byte>, r: Result<(T, nat), FramingError>): Result<T, StreamError> {
    match r
    case Ok((x, _)) => Ok(x)
    case Err(Truncated(_, _)) => Err(UnexpectedEof)
    case Err(BadVarint) =>
      if Continuing(b) == |b| < VARINT_MAX_BYTES then Err(UnexpectedEof) else Err(Protocol(BadVarint))
    case Err(e) => Err(Protocol(e))
  }

  /** The length, one byte at a time, so that nothing of the payload is consumed. */
  method ReadVarintStream(s: Socket) returns (r: Result<U32, StreamError>)
    modifies s
    ensures ReadVarint(old(s.incoming)).Some? ==>
              && r == Ok(ReadVarint(old(s.incoming)).value.0)
              && s.incoming == old(s.incoming)[ReadVarint(old(s.incoming)).value.1..]
    ensures ReadVarint(old(s.incoming)).None? ==>
              r == (if Continuing(old(s.incoming)) == |old(s.incoming)| < VARINT_MAX_BYTES then Err(UnexpectedEof)
                    else Err(Protocol(BadVarint)))
  {
    ghost var b := s.incoming;
    var acc: nat := 0;
    var i := 0;
    while i < VARINT_MAX_BYTES
      invariant 0 <= i <= |b| && i <= VARINT_MAX_BYTES && s.incoming == b[i..]
      invariant i <= Continuing(b) && acc == Value(b[..i]) && acc < TWO_32
    {
      var one := s.ReadExact(1);
      if one.None? {
        return Err(UnexpectedEof);
      }
      assert one.value[0] == b[i];
      var bits := one.value[0] % 128;
      ValueStep(b, i);
      DropsIff(bits, i, acc);
      if DropsBits(bits, i) {
        NoReading(b, i);
        OverflowIsLate(b, i);
        return Err(Protocol(BadVarint));
      }
      acc := acc + bits * Pow128(i);
      if one.value[0] < 128 {
        return Ok(acc);
      }
      i := i + 1;
    }
    return Err(Protocol(BadVarint));
  }

  lemma OverflowIsLate(b: seq<Byte>, i: nat)
    requires i < |b| && i < VARINT_MAX_BYTES && Value(b[..i + 1]) >= TWO_32
    ensures i == 4
  {
    ValueBound(b[..i + 1]);
    if i < 4 { Powers(i + 1); }
  }

  /** The streaming reader accepts what the slice decoder accepts, with the same value and consumption. */
  method ReadFrame<T>(c: Codec<T>, s: Socket) returns (r: Result<T, StreamError>)
    modifies s
    ensures r == StreamAnswer(old(s.incoming), Typed(c, DecodeRaw(old(s.incoming))))
    ensures r.Ok? ==> s.incoming == old(s.incoming)[DecodeRaw(old(s.incoming)).value.1..]
  {
    ghost var b := s.incoming;
    var v := ReadVarintStream(s);
    if v.Err? {
      return Err(v.error);
    }
    var len := v.value;
    if len > MAX_FRAME_SIZE {
      return Err(Protocol(FrameTooLarge(len)));
    }
    var buf := s.ReadExact(len);
    if buf.None? {
      return Err(UnexpectedEof);
    }
    ghost var k := ReadVarint(b).value.1;
    assert buf.value == b[k..k + len];
    var x := c.dec(buf.value);
    return if x.Some? then Ok(x.value) else Err(Protocol(Postcard));
  }
}
