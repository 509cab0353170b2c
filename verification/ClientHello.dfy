/**
  The structure of a TLS ClientHello (section 4.1.2 of RFC 8446), its
  server_name extension (section 3 of RFC 6066) and its ALPN extension
  (section 3.1 of RFC 7301): what the parser computes on any bytes, and the
  serialisation it inverts.
 */
module ClientHello {
  import opened Bytes

  datatype HelloError = TruncatedField | NotClientHello | NoSniExtension | NoHostName | NonUtf8

  /** UTF-8 decoding followed by lower-casing; none when the bytes are not UTF-8. */
  type Lowering = seq<Byte> -> Option<string>

  const EXT_SERVER_NAME: U16 := 0x0000
  const EXT_ALPN: U16 := 0x0010

  // ---------------- length-prefixed fields ----------------

  /** A field and what follows it. */
  datatype Cut = Cut(field: seq<Byte>, rest: seq<Byte>)

  function CutAt(b: seq<Byte>, n: nat): Option<Cut> {
    if |b| < n then None else Some(Cut(b[..n], b[n..]))
  }

  function CutVec8(b: seq<Byte>): Option<Cut> {
    if b == [] then None else CutAt(b[1..], b[0])
  }

  function CutVec16(b: seq<Byte>): (c: Option<Cut>)
    ensures c.Some? ==> |c.value.field| < 0x1_0000 && |c.value.rest| + |c.value.field| + 2 == |b|
  {
    if |b| < 2 then None else CutAt(b[2..], U16FromBe(b[..2]))
  }

  function Vec8(x: seq<Byte>): seq<Byte>
    requires |x| < 256
  {
    [|x|] + x
  }

  function Vec16(x: seq<Byte>): seq<Byte>
    requires |x| < 0x1_0000
  {
    U16ToBe(|x|) + x
  }

  lemma CutVec8Inverse(x: seq<Byte>, rest: seq<Byte>)
    requires |x| < 256
    ensures CutVec8(Vec8(x) + rest) == Some(Cut(x, rest))
  {
    assert (Vec8(x) + rest)[1..] == x + rest;
    assert (x + rest)[..|x|] == x && (x + rest)[|x|..] == rest;
  }

  lemma CutVec16Inverse(x: seq<Byte>, rest: seq<Byte>)
    requires |x| < 0x1_0000
    ensures CutVec16(Vec16(x) + rest) == Some(Cut(x, rest))
  {
    var b := Vec16(x) + rest;
    assert b[..2] == U16ToBe(|x|);
    assert b[2..] == x + rest;
    assert (x + rest)[..|x|] == x && (x + rest)[|x|..] == rest;
  }

  lemma Vec8Exact(b: seq<Byte>)
    requires CutVec8(b).Some?
    ensures var c := CutVec8(b).value; |c.field| < 256 && Vec8(c.field) + c.rest == b
  {
  }

  lemma Vec16Exact(b: seq<Byte>)
    requires CutVec16(b).Some?
    ensures var c := CutVec16(b).value; Vec16(c.field) + c.rest == b
  {
    var c := CutVec16(b).value;
    assert U16ToBe(U16FromBe(b[..2])) == b[..2];
    assert b == b[..2] + b[2..] && b[2..] == c.field + c.rest;
  }

  // ---------------- server names ----------------

  datatype ServerName = ServerName(kind: Byte, name: seq<Byte>)

  predicate ValidName(n: ServerName) { |n.name| < 0x1_0000 }

  function NameBytes(n: ServerName): seq<Byte>
    requires ValidName(n)
  {
    [n.kind] + Vec16(n.name)
  }

  function NamesBytes(ns: seq<ServerName>): seq<Byte>
    requires forall n :: n in ns ==> ValidName(n)
  {
    if ns == [] then [] else NameBytes(ns[0]) + NamesBytes(ns[1..])
  }

  /** The first host_name of a list, lower-cased; entries of other types are stepped over. */
  function WalkNames(b: seq<Byte>, lower: Lowering): Result<string, HelloError>
    decreases |b|
  {
    if b == [] then Err(NoHostName)
    else
      match CutVec16(b[1..])
      case None => Err(TruncatedField)
      case Some(c) =>
        if b[0] != 0 then WalkNames(c.rest, lower)
        else if lower(c.field).Some? then Ok(lower(c.field).value)
        else Err(NonUtf8)
  }

  function ParseSni(data: seq<Byte>, lower: Lowering): Result<string, HelloError> {
    match CutVec16(data)
    case None => Err(TruncatedField)
    case Some(c) => WalkNames(c.field, lower)
  }

  function FirstHost(ns: seq<ServerName>): Option<seq<Byte>> {
    if ns == [] then None else if ns[0].kind == 0 then Some(ns[0].name) else FirstHost(ns[1..])
  }

  lemma {:induction false} WalkNamesOf(ns: seq<ServerName>, lower: Lowering)
    requires forall n :: n in ns ==> ValidName(n)
    ensures WalkNames(NamesBytes(ns), lower) ==
            match FirstHost(ns)
            case None => Err(NoHostName)
            case Some(host) => if lower(host).Some? then Ok(lower(host).value) else Err(NonUtf8)
  {
    if ns != [] {
      var rest := NamesBytes(ns[1..]);
      assert ValidName(ns[0]);
      CutVec16Inverse(ns[0].name, rest);
      assert NamesBytes(ns)[1..] == Vec16(ns[0].name) + rest;
      WalkNamesOf(ns[1..], lower);
    }
  }

  /** Serialised entries in front of other bytes. */
  function NamesBefore(ns: seq<ServerName>, tail: seq<Byte>): seq<Byte>
    requires forall n :: n in ns ==> ValidName(n)
  {
    if ns == [] then tail
    else
      assert ValidName(ns[0]);
      [ns[0].kind] + (Vec16(ns[0].name) + NamesBefore(ns[1..], tail))
  }

  /** Bytes of which `host` is the first host_name entry: well-formed entries of other types, the host, then anything. */
  ghost predicate NamesFirst(b: seq<Byte>, ns: seq<ServerName>, host: seq<Byte>, rest: seq<Byte>) {
    && (forall n :: n in ns ==> ValidName(n) && n.kind != 0) && |host| < 0x1_0000
    && b == NamesBefore(ns, [0] + (Vec16(host) + rest))
  }

  lemma WalkOne(kind: Byte, name: seq<Byte>, tail: seq<Byte>, lower: Lowering)
    requires |name| < 0x1_0000
    ensures WalkNames([kind] + (Vec16(name) + tail), lower) ==
            if kind != 0 then WalkNames(tail, lower)
            else if lower(name).Some? then Ok(lower(name).value) else Err(NonUtf8)
  {
    var b := [kind] + (Vec16(name) + tail);
    assert b[1..] == Vec16(name) + tail;
    CutVec16Inverse(name, tail);
  }

  lemma {:induction false} WalkFinds(ns: seq<ServerName>, tail: seq<Byte>, lower: Lowering)
    requires forall n :: n in ns ==> ValidName(n) && n.kind != 0
    ensures WalkNames(NamesBefore(ns, tail), lower) == WalkNames(tail, lower)
  {
    if ns != [] {
      assert ValidName(ns[0]);
      WalkOne(ns[0].kind, ns[0].name, NamesBefore(ns[1..], tail), lower);
      WalkFinds(ns[1..], tail, lower);
    }
  }

  lemma {:induction false} WalkFound(b: seq<Byte>, lower: Lowering) returns (ns: seq<ServerName>, host: seq<Byte>, rest: seq<Byte>)
    requires WalkNames(b, lower).Ok?
    ensures NamesFirst(b, ns, host, rest) && lower(host) == Some(WalkNames(b, lower).value)
    decreases |b|
  {
    var c := CutVec16(b[1..]).value;
    Vec16Exact(b[1..]);
    assert b == [b[0]] + (Vec16(c.field) + c.rest);
    if b[0] == 0 {
      ns, host, rest := [], c.field, c.rest;
    } else {
      var ns';
      ns', host, rest := WalkFound(c.rest, lower);
      ns := [ServerName(b[0], c.field)] + ns';
      assert ns[1..] == ns';
    }
  }

  /** A name is found exactly when it is the lowered first host_name, whatever comes after it. */
  lemma WalkNamesIff(b: seq<Byte>, lower: Lowering, name: string)
    ensures WalkNames(b, lower) == Ok(name) <==>
            exists ns, host, rest :: NamesFirst(b, ns, host, rest) && lower(host) == Some(name)
  {
    if WalkNames(b, lower) == Ok(name) {
      var ns, host, rest := WalkFound(b, lower);
    }
    forall ns, host, rest | NamesFirst(b, ns, host, rest) && lower(host) == Some(name)
      ensures WalkNames(b, lower) == Ok(name)
    {
      WalkFinds(ns, [0] + (Vec16(host) + rest), lower);
      WalkOne(0, host, rest, lower);
    }
  }

  // ---------------- ALPN ----------------

  predicate ValidProtocols(ps: seq<seq<Byte>>) { forall p :: p in ps ==> |p| < 256 }

  function ProtocolsBytes(ps: seq<seq<Byte>>): seq<Byte>
    requires ValidProtocols(ps)
  {
    if ps == [] then [] else Vec8(ps[0]) + ProtocolsBytes(ps[1..])
  }

  function WalkProtocols(b: seq<Byte>): Result<seq<seq<Byte>>, HelloError>
    decreases |b|
  {
    if b == [] then Ok([])
    else
      match CutVec8(b)
      case None => Err(TruncatedField)
      case Some(c) =>
        match WalkProtocols(c.rest)
        case Err(e) => Err(e)
        case Ok(ps) => Ok([c.field] + ps)
  }

  function ParseAlpn(data: seq<Byte>): Result<seq<seq<Byte>>, HelloError> {
    match CutVec16(data)
    case None => Err(TruncatedField)
    case Some(c) => WalkProtocols(c.field)
  }

  /** The protocol list is read exactly when it is the serialisation of that list. */
  lemma {:induction false} WalkProtocolsOf(ps: seq<seq<Byte>>)
    requires ValidProtocols(ps)
    ensures WalkProtocols(ProtocolsBytes(ps)) == Ok(ps)
  {
    if ps != [] {
      CutVec8Inverse(ps[0], ProtocolsBytes(ps[1..]));
      WalkProtocolsOf(ps[1..]);
      assert [ps[0]] + ps[1..] == ps;
    }
  }

  lemma {:induction false} WalkProtocolsExact(b: seq<Byte>)
    requires WalkProtocols(b).Ok?
    ensures ValidProtocols(WalkProtocols(b).value) && ProtocolsBytes(WalkProtocols(b).value) == b
    decreases |b|
  {
    if b != [] {
      var c := CutVec8(b).value;
      Vec8Exact(b);
      WalkProtocolsExact(c.rest);
      var ps := WalkProtocols(b).value;
      assert ps[1..] == WalkProtocols(c.rest).value;
    }
  }

  // ---------------- extensions ----------------

  datatype Extension = Extension(kind: U16, data: seq<Byte>)

  predicate ValidExtensions(xs: seq<Extension>) { forall x :: x in xs ==> |x.data| < 0x1_0000 }

  function ExtensionBytes(x: Extension): seq<Byte>
    requires |x.data| < 0x1_0000
  {
    U16ToBe(x.kind) + Vec16(x.data)
  }

  function ExtensionsBytes(xs: seq<Extension>): seq<Byte>
    requires ValidExtensions(xs)
  {
    if xs == [] then [] else ExtensionBytes(xs[0]) + ExtensionsBytes(xs[1..])
  }

  /** The extension block as a list, without looking inside. */
  function SplitExtensions(b: seq<Byte>): Option<seq<Extension>>
    decreases |b|
  {
    if b == [] then Some([])
    else if |b| < 2 then None
    else
      match CutVec16(b[2..])
      case None => None
      case Some(c) =>
        match SplitExtensions(c.rest)
        case None => None
        case Some(xs) => Some([Extension(U16FromBe(b[..2]), c.field)] + xs)
  }

  lemma {:induction false} SplitOf(xs: seq<Extension>)
    requires ValidExtensions(xs)
    ensures SplitExtensions(ExtensionsBytes(xs)) == Some(xs)
  {
    if xs != [] {
      var rest := ExtensionsBytes(xs[1..]);
      var b := ExtensionBytes(xs[0]) + rest;
      assert b[..2] == U16ToBe(xs[0].kind);
      assert b[2..] == Vec16(xs[0].data) + rest;
      CutVec16Inverse(xs[0].data, rest);
      SplitOf(xs[1..]);
      assert [xs[0]] + xs[1..] == xs;
    }
  }

  lemma {:induction false} SplitExact(b: seq<Byte>)
    requires SplitExtensions(b).Some?
    ensures ValidExtensions(SplitExtensions(b).value) && ExtensionsBytes(SplitExtensions(b).value) == b
    decreases |b|
  {
    if b != [] {
      var c := CutVec16(b[2..]).value;
      Vec16Exact(b[2..]);
      SplitExact(c.rest);
      var xs := SplitExtensions(b).value;
      assert xs[1..] == SplitExtensions(c.rest).value;
      assert U16ToBe(U16FromBe(b[..2])) == b[..2];
      assert b == b[..2] + b[2..];
    }
  }

  /** What has been learnt from the extensions so far. */
  datatype Found = Found(name: Option<string>, alpn: seq<seq<Byte>>)

  const NOTHING: Found := Found(None, [])

  function Absorb(x: Extension, f: Found, lower: Lowering): Result<Found, HelloError> {
    if x.kind == EXT_SERVER_NAME then
      match ParseSni(x.data, lower)
      case Err(e) => Err(e)
      case Ok(name) => Ok(f.(name := Some(name)))
    else if x.kind == EXT_ALPN then
      match ParseAlpn(x.data)
      case Err(e) => Err(e)
      case Ok(ps) => Ok(f.(alpn := ps))
    else Ok(f)
  }

  /** One pass over the block, as the parser makes it: errors surface in the order met. */
  function WalkExtensions(b: seq<Byte>, f: Found, lower: Lowering): Result<Found, HelloError>
    decreases |b|
  {
    if b == [] then Ok(f)
    else if |b| < 2 then Err(TruncatedField)
    else
      match CutVec16(b[2..])
      case None => Err(TruncatedField)
      case Some(c) =>
        match Absorb(Extension(U16FromBe(b[..2]), c.field), f, lower)
        case Err(e) => Err(e)
        case Ok(f') => WalkExtensions(c.rest, f', lower)
  }

  /** The pass over a list of extensions. */
  function Meaning(xs: seq<Extension>, f: Found, lower: Lowering): Result<Found, HelloError> {
    if xs == [] then Ok(f)
    else
      match Absorb(xs[0], f, lower)
      case Err(e) => Err(e)
      case Ok(f') => Meaning(xs[1..], f', lower)
  }

  lemma {:induction false} WalkIsMeaning(b: seq<Byte>, f: Found, lower: Lowering)
    ensures SplitExtensions(b).Some? ==> WalkExtensions(b, f, lower) == Meaning(SplitExtensions(b).value, f, lower)
    ensures SplitExtensions(b).None? ==> WalkExtensions(b, f, lower).Err?
    decreases |b|
  {
    if b != [] && |b| >= 2 && CutVec16(b[2..]).Some? {
      var c := CutVec16(b[2..]).value;
      var a := Absorb(Extension(U16FromBe(b[..2]), c.field), f, lower);
      if a.Ok? { WalkIsMeaning(c.rest, a.value, lower); }
      if SplitExtensions(c.rest).Some? {
        assert SplitExtensions(b).value[1..] == SplitExtensions(c.rest).value;
      }
    }
  }

  /** The data of the last extension of a kind. */
  function LastOf(xs: seq<Extension>, kind: U16): Option<seq<Byte>> {
    if xs == [] then None
    else if LastOf(xs[1..], kind).Some? then LastOf(xs[1..], kind)
    else if xs[0].kind == kind then Some(xs[0].data)
    else None
  }

  predicate Readable(x: Extension, lower: Lowering) {
    && (x.kind == EXT_SERVER_NAME ==> ParseSni(x.data, lower).Ok?)
    && (x.kind == EXT_ALPN ==> ParseAlpn(x.data).Ok?)
  }

  /** A pass succeeds exactly when every server_name and ALPN extension is readable; the last of each kind decides. */
  lemma {:induction false} MeaningIff(xs: seq<Extension>, f: Found, lower: Lowering)
    ensures Meaning(xs, f, lower).Ok? <==> forall x :: x in xs ==> Readable(x, lower)
    ensures Meaning(xs, f, lower).Ok? ==>
              var sni, alpn := LastOf(xs, EXT_SERVER_NAME), LastOf(xs, EXT_ALPN);
              && (sni.Some? ==> ParseSni(sni.value, lower).Ok?)
              && (alpn.Some? ==> ParseAlpn(alpn.value).Ok?)
              && Meaning(xs, f, lower).value ==
                 Found(if sni.Some? then Some(ParseSni(sni.value, lower).value) else f.name,
                       if alpn.Some? then ParseAlpn(alpn.value).value else f.alpn)
  {
    if xs != [] {
      var a := Absorb(xs[0], f, lower);
      if a.Ok? {
        MeaningIff(xs[1..], a.value, lower);
        assert xs == [xs[0]] + xs[1..];
      } else {
        assert !Readable(xs[0], lower);
      }
    }
  }

  // ---------------- the message ----------------

  datatype Fields = Fields(
    version: seq<Byte>, random: seq<Byte>, sessionId: seq<Byte>, ciphers: seq<Byte>,
    compression: seq<Byte>, extensions: seq<Byte>, extra: seq<Byte>)

  predicate ValidFields(f: Fields) {
    && |f.version| == 2 && |f.random| == 32 && |f.sessionId| < 256 && |f.ciphers| < 0x1_0000
    && |f.compression| < 256 && |f.extensions| < 0x1_0000
  }

  function FieldsTail(f: Fields): seq<Byte>
    requires ValidFields(f)
  {
    Vec16(f.ciphers) + (Vec8(f.compression) + (Vec16(f.extensions) + f.extra))
  }

  function FieldsBytes(f: Fields): seq<Byte>
    requires ValidFields(f)
  {
    f.version + (f.random + (Vec8(f.sessionId) + FieldsTail(f)))
  }

  function CutTail(b: seq<Byte>, version: seq<Byte>, random: seq<Byte>, sessionId: seq<Byte>): Option<Fields> {
    match CutVec16(b)
    case None => None
    case Some(cs) =>
      match CutVec8(cs.rest)
      case None => None
      case Some(cm) =>
        match CutVec16(cm.rest)
        case None => None
        case Some(ex) => Some(Fields(version, random, sessionId, cs.field, cm.field, ex.field, ex.rest))
  }

  function CutFields(b: seq<Byte>): Option<Fields> {
    if |b| < 34 then None
    else
      match CutVec8(b[34..])
      case None => None
      case Some(sid) => CutTail(sid.rest, b[..2], b[2..34], sid.field)
  }

  lemma FieldsOf(f: Fields)
    requires ValidFields(f)
    ensures CutFields(FieldsBytes(f)) == Some(f)
  {
    HeadOf(f.version, f.random, Vec8(f.sessionId) + FieldsTail(f));
    CutVec8Inverse(f.sessionId, FieldsTail(f));
    TailOf(f);
  }

  lemma HeadOf(version: seq<Byte>, random: seq<Byte>, rest: seq<Byte>)
    requires |version| == 2 && |random| == 32
    ensures var b := version + (random + rest); b[..2] == version && b[2..34] == random && b[34..] == rest
  {
  }

  lemma TailOf(f: Fields)
    requires ValidFields(f)
    ensures CutTail(FieldsTail(f), f.version, f.random, f.sessionId) == Some(f)
  {
    CutVec16Inverse(f.ciphers, Vec8(f.compression) + (Vec16(f.extensions) + f.extra));
    CutVec8Inverse(f.compression, Vec16(f.extensions) + f.extra);
    CutVec16Inverse(f.extensions, f.extra);
  }

  lemma TailExact(b: seq<Byte>, version: seq<Byte>, random: seq<Byte>, sessionId: seq<Byte>)
    requires |version| == 2 && |random| == 32 && |sessionId| < 256
    requires CutTail(b, version, random, sessionId).Some?
    ensures var f := CutTail(b, version, random, sessionId).value;
            && f.version == version && f.random == random && f.sessionId == sessionId
            && ValidFields(f) && FieldsTail(f) == b
  {
    Vec16Exact(b);
    var cs := CutVec16(b).value;
    Vec8Exact(cs.rest);
    var cm := CutVec8(cs.rest).value;
    Vec16Exact(cm.rest);
  }

  lemma Thirds(b: seq<Byte>)
    requires |b| >= 34
    ensures b[..2] + (b[2..34] + b[34..]) == b
  {
  }

  lemma FieldsExact(b: seq<Byte>)
    requires CutFields(b).Some?
    ensures ValidFields(CutFields(b).value) && FieldsBytes(CutFields(b).value) == b
  {
    var sid := CutVec8(b[34..]).value;
    assert |sid.field| < 256 && Vec8(sid.field) + sid.rest == b[34..] by { Vec8Exact(b[34..]); }
    TailExact(sid.rest, b[..2], b[2..34], sid.field);
    Thirds(b);
  }

  /** The handshake message at the head of a record. */
  function CutHandshake(b: seq<Byte>): Result<Cut, HelloError> {
    if b == [] then Err(TruncatedField)
    else if b[0] != 1 then Err(NotClientHello)
    else if |b| < 4 then Err(TruncatedField)
    else
      match CutAt(b[4..], U24FromBe(b[1..4]))
      case None => Err(TruncatedField)
      case Some(c) => Ok(c)
  }

  function Handshake(body: seq<Byte>): seq<Byte>
    requires |body| < 0x100_0000
  {
    [1] + U24ToBe(|body|) + body
  }

  lemma HandshakeOf(body: seq<Byte>, rest: seq<Byte>)
    requires |body| < 0x100_0000
    ensures CutHandshake(Handshake(body) + rest) == Ok(Cut(body, rest))
  {
    var b := Handshake(body) + rest;
    assert b[1..4] == U24ToBe(|body|);
    assert b[4..] == body + rest;
    assert (body + rest)[..|body|] == body && (body + rest)[|body|..] == rest;
  }

  lemma HandshakeExact(b: seq<Byte>)
    requires CutHandshake(b).Ok?
    ensures var c := CutHandshake(b).value; |c.field| < 0x100_0000 && Handshake(c.field) + c.rest == b
  {
    var c := CutHandshake(b).value;
    U24Unique(b[1..4]);
    assert b == [1] + b[1..4] + b[4..] && b[4..] == c.field + c.rest;
  }

  lemma U24Unique(b: seq<Byte>)
    requires |b| == 3
    ensures U24ToBe(U24FromBe(b)) == b
  {
    var v := U24FromBe(b);
    assert v / 256 == 256 * (b[0] as int) + b[1] as int;
  }

  /** What the parser answers on any bytes. */
  function ParseHello(b: seq<Byte>, lower: Lowering): Result<(string, seq<seq<Byte>>), HelloError> {
    match CutHandshake(b)
    case Err(e) => Err(e)
    case Ok(c) =>
      match CutFields(c.field)
      case None => Err(TruncatedField)
      case Some(f) =>
        match WalkExtensions(f.extensions, NOTHING, lower)
        case Err(e) => Err(e)
        case Ok(found) => if found.name.Some? then Ok((found.name.value, found.alpn)) else Err(NoSniExtension)
  }

  // ---------------- serialised hellos ----------------

  datatype Hello = Hello(
    version: seq<Byte>, random: seq<Byte>, sessionId: seq<Byte>, ciphers: seq<Byte>,
    compression: seq<Byte>, extensions: seq<Extension>, extra: seq<Byte>)

  function FieldsFor(h: Hello): Fields
    requires ValidExtensions(h.extensions)
  {
    Fields(h.version, h.random, h.sessionId, h.ciphers, h.compression, ExtensionsBytes(h.extensions), h.extra)
  }

  predicate ValidHello(h: Hello) {
    ValidExtensions(h.extensions) && ValidFields(FieldsFor(h)) && |FieldsBytes(FieldsFor(h))| < 0x100_0000
  }

  function HelloBytes(h: Hello): seq<Byte>
    requires ValidHello(h)
  {
    Handshake(FieldsBytes(FieldsFor(h)))
  }

  lemma ParseOf(h: Hello, rest: seq<Byte>, lower: Lowering)
    requires ValidHello(h)
    ensures ParseHello(HelloBytes(h) + rest, lower) ==
            match Meaning(h.extensions, NOTHING, lower)
            case Err(e) => Err(e)
            case Ok(found) => if found.name.Some? then Ok((found.name.value, found.alpn)) else Err(NoSniExtension)
  {
    HandshakeOf(FieldsBytes(FieldsFor(h)), rest);
    FieldsOf(FieldsFor(h));
    SplitOf(h.extensions);
    WalkIsMeaning(ExtensionsBytes(h.extensions), NOTHING, lower);
  }

  ghost predicate Denotes(b: seq<Byte>, h: Hello, rest: seq<Byte>) {
    ValidHello(h) && HelloBytes(h) + rest == b
  }

  /**
    The parser accepts exactly the serialised hellos, followed by anything,
    whose extensions yield a name; it never accepts bytes of another shape.
   */
  lemma ParseIff(b: seq<Byte>, lower: Lowering, name: string, alpn: seq<seq<Byte>>)
    ensures ParseHello(b, lower) == Ok((name, alpn)) <==>
            exists h, rest :: Denotes(b, h, rest) && Meaning(h.extensions, NOTHING, lower) == Ok(Found(Some(name), alpn))
  {
    if ParseHello(b, lower) == Ok((name, alpn)) {
      var c := CutHandshake(b).value;
      var f := CutFields(c.field).value;
      HandshakeExact(b);
      FieldsExact(c.field);
      WalkIsMeaning(f.extensions, NOTHING, lower);
      var xs := SplitExtensions(f.extensions).value;
      SplitExact(f.extensions);
      var h := Hello(f.version, f.random, f.sessionId, f.ciphers, f.compression, xs, f.extra);
      assert FieldsFor(h) == f;
      assert Denotes(b, h, c.rest);
    }
    forall h, rest | Denotes(b, h, rest) && Meaning(h.extensions, NOTHING, lower) == Ok(Found(Some(name), alpn))
      ensures ParseHello(b, lower) == Ok((name, alpn))
    {
      ParseOf(h, rest, lower);
    }
  }

  // ---------------- well-formed hellos ----------------

  predicate Ascii(b: seq<Byte>) { forall i :: 0 <= i < |b| ==> b[i] < 128 }

  function AsciiLower(b: seq<Byte>): string
    requires Ascii(b)
  {
    seq(|b|, i requires 0 <= i < |b| => (if 65 <= b[i] <= 90 then b[i] + 32 else b[i]) as char)
  }

  /** What the library's decoding and lower-casing do to ASCII. */
  ghost predicate LowersAscii(lower: Lowering) {
    forall b: seq<Byte> :: Ascii(b) ==> lower(b) == Some(AsciiLower(b))
  }

  /** The one extension of a kind. */
  predicate Sole(xs: seq<Extension>, i: nat, kind: U16) {
    i < |xs| && xs[i].kind == kind && forall k :: 0 <= k < |xs| && k != i ==> xs[k].kind != kind
  }

  lemma {:induction false} SoleIsLast(xs: seq<Extension>, i: nat, kind: U16)
    requires Sole(xs, i, kind)
    ensures LastOf(xs, kind) == Some(xs[i].data)
  {
    if i == 0 {
      NoneIsLast(xs[1..], kind);
    } else {
      SoleIsLast(xs[1..], i - 1, kind);
    }
  }

  lemma {:induction false} NoneIsLast(xs: seq<Extension>, kind: U16)
    requires forall k :: 0 <= k < |xs| ==> xs[k].kind != kind
    ensures LastOf(xs, kind) == None
  {
    if xs != [] { NoneIsLast(xs[1..], kind); }
  }

  predicate SniData(data: seq<Byte>, names: seq<ServerName>) {
    (forall n :: n in names ==> ValidName(n)) && |NamesBytes(names)| < 0x1_0000 && data == Vec16(NamesBytes(names))
  }

  predicate AlpnData(data: seq<Byte>, ps: seq<seq<Byte>>) {
    ValidProtocols(ps) && |ProtocolsBytes(ps)| < 0x1_0000 && data == Vec16(ProtocolsBytes(ps))
  }

  lemma SniOf(data: seq<Byte>, names: seq<ServerName>, lower: Lowering)
    requires SniData(data, names) && FirstHost(names).Some? && Ascii(FirstHost(names).value) && LowersAscii(lower)
    ensures ParseSni(data, lower) == Ok(AsciiLower(FirstHost(names).value))
  {
    CutVec16Inverse(NamesBytes(names), []);
    assert data + [] == data;
    WalkNamesOf(names, lower);
  }

  lemma AlpnOf(data: seq<Byte>, ps: seq<seq<Byte>>)
    requires AlpnData(data, ps)
    ensures ParseAlpn(data) == Ok(ps)
  {
    CutVec16Inverse(ProtocolsBytes(ps), []);
    assert data + [] == data;
    WalkProtocolsOf(ps);
  }

  /** The offered protocols: those of the one ALPN extension, or none. */
  ghost predicate Offers(xs: seq<Extension>, ps: seq<seq<Byte>>) {
    (exists j: nat :: Sole(xs, j, EXT_ALPN) && AlpnData(xs[j].data, ps))
    || (ps == [] && forall k :: 0 <= k < |xs| ==> xs[k].kind != EXT_ALPN)
  }

  /**
    A well-formed hello with an ASCII host_name, any other extensions in any
    order and anything after it parses to the first host_name in lower case
    and the offered protocols in order.
   */
  lemma HelloRoundTrip(h: Hello, rest: seq<Byte>, lower: Lowering, i: nat, names: seq<ServerName>, ps: seq<seq<Byte>>)
    requires ValidHello(h) && LowersAscii(lower)
    requires Sole(h.extensions, i, EXT_SERVER_NAME) && SniData(h.extensions[i].data, names)
    requires FirstHost(names).Some? && Ascii(FirstHost(names).value)
    requires Offers(h.extensions, ps)
    ensures ParseHello(HelloBytes(h) + rest, lower) == Ok((AsciiLower(FirstHost(names).value), ps))
  {
    var xs := h.extensions;
    SoleIsLast(xs, i, EXT_SERVER_NAME);
    SniOf(xs[i].data, names, lower);
    if j: nat :| Sole(xs, j, EXT_ALPN) && AlpnData(xs[j].data, ps) {
      SoleIsLast(xs, j, EXT_ALPN);
      AlpnOf(xs[j].data, ps);
    } else {
      NoneIsLast(xs, EXT_ALPN);
    }
    MeaningIff(xs, NOTHING, lower);
    ParseOf(h, rest, lower);
  }
}
