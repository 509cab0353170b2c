/**
  The login gate in front of a tunnel: the redirect that carries the requested
  path, the form that carries it back, and the sessions it opens. Strings are
  their UTF-8 bytes.
 */
module Login {
  import opened Bytes
  import opened Pieces

  type Str = seq<Byte>

  /** UTF-8: which bytes are valid, and the replacement of those that are not. */
  datatype Charset = Charset(valid: Str -> bool, lossy: Str -> Str)

  /** ASCII is valid, and valid bytes are left as they are. */
  ghost predicate Faithful(cs: Charset) {
    && (forall b: Str :: cs.valid(b) ==> cs.lossy(b) == b)
    && (forall b: Str :: Ascii(b) ==> cs.valid(b))
  }

  predicate Ascii(b: Str) { forall i :: 0 <= i < |b| ==> b[i] < 128 }

  const SLASH: Str := [47]
  const LOGIN_PATH: Str := [47, 95, 95, 107, 114, 111, 116, 47, 108, 111, 103, 105, 110]         // "/__krot/login"
  const LOGOUT_PATH: Str := [47, 95, 95, 107, 114, 111, 116, 47, 108, 111, 103, 111, 117, 116]   // "/__krot/logout"
  const USER: Str := [117, 115, 101, 114]
  const PASS: Str := [112, 97, 115, 115]
  const NEXT: Str := [110, 101, 120, 116]
  const NEXT_IS: Str := [110, 101, 120, 116, 61]  // "next="
  const POST: Str := [80, 79, 83, 84]
  const SESSION_TTL: Instant := 8 * 3600

  const QUESTION: Byte := 63
  const AMPERSAND: Byte := 38
  const EQUALS: Byte := 61
  const PLUS: Byte := 43
  const PERCENT: Byte := 37

  // ---------------- percent encoding ----------------

  predicate Unreserved(b: Byte) {
    || 65 <= b <= 90 || 97 <= b <= 122 || 48 <= b <= 57
    || b in {45, 95, 46, 126, 47, 58, 64, 44, 59, 61}  // - _ . ~ / : @ , ; =
  }

  function HexUpper(n: nat): Byte
    requires n < 16
  {
    if n <= 9 then 48 + n else 55 + n
  }

  function HexValue(b: Byte): (r: Option<nat>)
    ensures r.Some? ==> r.value < 16
  {
    if 48 <= b <= 57 then Some(b - 48)
    else if 97 <= b <= 102 then Some(b - 87)
    else if 65 <= b <= 70 then Some(b - 55)
    else None
  }

  function EncodeByte(b: Byte): Str {
    if Unreserved(b) then [b] else [PERCENT, HexUpper(b / 16), HexUpper(b % 16)]
  }

  function PercentEncode(s: Str): Str {
    if s == [] then [] else EncodeByte(s[0]) + PercentEncode(s[1..])
  }

  /** The bytes of one decoding step and how much input they took. */
  function DecodeOne(raw: Str): (r: (Byte, nat))
    requires raw != []
    ensures 1 <= r.1 <= |raw|
  {
    if raw[0] == PLUS then (32, 1)
    else if raw[0] == PERCENT && |raw| > 2 && HexValue(raw[1]).Some? && HexValue(raw[2]).Some? then
      (16 * HexValue(raw[1]).value + HexValue(raw[2]).value, 3)
    else (raw[0], 1)
  }

  function DecodeBytes(raw: Str): Str
    decreases |raw|
  {
    if raw == [] then [] else [DecodeOne(raw).0] + DecodeBytes(raw[DecodeOne(raw).1..])
  }

  function FormDecode(raw: Str, cs: Charset): Str { cs.lossy(DecodeBytes(raw)) }

  method PercentEncodePath(s: Str) returns (out: Str)
    ensures out == PercentEncode(s)
  {
    out := [];
    var i := 0;
    ghost var all := PercentEncode(s);
    assert s[0..] == s && out + all == all;
    while i < |s|
      invariant 0 <= i <= |s| && out + PercentEncode(s[i..]) == all
    {
      assert s[i..][1..] == s[i + 1..];
      if Unreserved(s[i]) {
        out := out + [s[i]];
      } else {
        out := out + [PERCENT, HexUpper(s[i] / 16), HexUpper(s[i] % 16)];
      }
      i := i + 1;
    }
    assert s[i..] == [] && out + [] == out;
  }

  method DecodeAt(raw: Str, i: nat) returns (x: Byte, n: nat)
    requires i < |raw|
    ensures (x, n) == DecodeOne(raw[i..])
  {
    x, n := raw[i], 1;
    if raw[i] == PLUS {
      x := 32;
    } else if raw[i] == PERCENT && i + 2 < |raw| {
      var hi, lo := HexValue(raw[i + 1]), HexValue(raw[i + 2]);
      if hi.Some? && lo.Some? {
        x, n := 16 * hi.value + lo.value, 3;
      }
    }
  }

  method DecodeForm(raw: Str, cs: Charset) returns (r: Str)
    ensures r == FormDecode(raw, cs)
  {
    var out: Str := [];
    var i := 0;
    ghost var all := DecodeBytes(raw);
    assert raw[0..] == raw && out + all == all;
    while i < |raw|
      invariant 0 <= i <= |raw| && out + DecodeBytes(raw[i..]) == all
    {
      var x, n := DecodeAt(raw, i);
      assert raw[i..][n..] == raw[i + n..];
      out := out + [x];
      i := i + n;
    }
    assert raw[i..] == [] && out + [] == out;
    return cs.lossy(out);
  }

  /** Any bytes survive encoding and decoding. */
  lemma {:induction false} DecodeEncode(s: Str)
    ensures DecodeBytes(PercentEncode(s)) == s
  {
    if s != [] {
      var rest := PercentEncode(s[1..]);
      assert (EncodeByte(s[0]) + rest)[|EncodeByte(s[0])|..] == rest;
      DecodeEncode(s[1..]);
      assert s == [s[0]] + s[1..];
    }
  }

  /** Every UTF-8 path survives the redirect's encoding and the form's decoding. */
  lemma PathRoundTrip(s: Str, cs: Charset)
    requires Faithful(cs) && cs.valid(s)
    ensures FormDecode(PercentEncode(s), cs) == s
  {
    DecodeEncode(s);
  }

  predicate Inert(b: Byte) { Unreserved(b) || b == PERCENT }

  /** The encoding never contains a character that would end a query field. */
  lemma {:induction false} EncodedInert(s: Str)
    ensures forall i :: 0 <= i < |PercentEncode(s)| ==> Inert(PercentEncode(s)[i])
    ensures AMPERSAND !in PercentEncode(s) && QUESTION !in PercentEncode(s)
  {
    if s != [] { EncodedInert(s[1..]); }
  }

  // ---------------- fields ----------------

  /** Everything after the first `c`. */
  function After(s: Str, c: Byte): Option<Str> {
    var p := Until(s, c);
    if |p| == |s| then None else Some(s[|p| + 1..])
  }

  lemma AfterFirst(a: Str, b: Str, c: Byte)
    requires c !in a
    ensures Until(a + [c] + b, c) == a && After(a + [c] + b, c) == Some(b)
    ensures SplitOn(a + [c] + b, c) == [a] + SplitOn(b, c)
    ensures SplitOn(a, c) == [a] && After(a, c) == None
  {
    UntilFirst(a, b, c);
    SplitFirst(a, b, c);
    SplitPlain(a, c);
    assert (a + [c] + b)[|a| + 1..] == b;
  }

  /** The guard on a redirect target: one leading slash, not two, and no line break. */
  predicate PassesGuard(s: Str) { s != [] && s[0] == 47 && (|s| > 1 ==> s[1] != 47) && 13 !in s && 10 !in s }

  function SafeNext(s: Str): (r: Str)
    ensures PassesGuard(r)
    ensures PassesGuard(s) ==> r == s
  {
    if PassesGuard(s) then s else SLASH
  }

  datatype Form = Form(user: Option<Str>, pass: Option<Str>, next: Option<Str>)

  const EMPTY_FORM: Form := Form(None, None, None)

  /** The first field of each name counts. */
  function Assign(f: Form, key: Str, value: Str): Form {
    if key == USER && f.user.None? then f.(user := Some(value))
    else if key == PASS && f.pass.None? then f.(pass := Some(value))
    else if key == NEXT && f.next.None? then f.(next := Some(value))
    else f
  }

  /** A piece without an equals sign is skipped. */
  function AddField(f: Form, piece: Str, cs: Charset): Form {
    var v := After(piece, EQUALS);
    if v.None? then f else Assign(f, Until(piece, EQUALS), FormDecode(v.value, cs))
  }

  function AddFields(f: Form, pieces: seq<Str>, cs: Charset): Form
    decreases |pieces|
  {
    if pieces == [] then f else AddFields(AddField(f, pieces[0], cs), pieces[1..], cs)
  }

  function ParseForm(body: Str, cs: Charset): Form { AddFields(EMPTY_FORM, SplitOn(body, AMPERSAND), cs) }

  method ReadForm(body: Str, cs: Charset) returns (f: Form)
    ensures f == ParseForm(body, cs)
  {
    var pieces := SplitOn(body, AMPERSAND);
    f := EMPTY_FORM;
    var i := 0;
    while i < |pieces|
      invariant 0 <= i <= |pieces| && AddFields(f, pieces[i..], cs) == ParseForm(body, cs)
    {
      assert pieces[i..][1..] == pieces[i + 1..];
      f := AddField(f, pieces[i], cs);
      i := i + 1;
    }
  }

  function Field(key: Str, value: Str): Str { key + [EQUALS] + PercentEncode(value) }

  function FormBody(user: Str, pass: Str, next: Str): Str {
    Field(USER, user) + [AMPERSAND] + (Field(PASS, pass) + [AMPERSAND] + Field(NEXT, next))
  }

  lemma FieldAdds(f: Form, key: Str, value: Str, cs: Charset)
    requires Faithful(cs) && cs.valid(value) && EQUALS !in key && AMPERSAND !in key
    ensures AMPERSAND !in Field(key, value)
    ensures AddField(f, Field(key, value), cs) == Assign(f, key, value)
  {
    EncodedInert(value);
    AfterFirst(key, PercentEncode(value), EQUALS);
    PathRoundTrip(value, cs);
  }

  lemma FormPieces(u: Str, p: Str, n: Str)
    requires AMPERSAND !in u && AMPERSAND !in p && AMPERSAND !in n
    ensures SplitOn(u + [AMPERSAND] + (p + [AMPERSAND] + n), AMPERSAND) == [u, p, n]
  {
    AfterFirst(u, p + [AMPERSAND] + n, AMPERSAND);
    AfterFirst(p, n, AMPERSAND);
    AfterFirst(n, [], AMPERSAND);
  }

  lemma AddThree(f: Form, a: Str, b: Str, c: Str, cs: Charset)
    ensures AddFields(f, [a, b, c], cs) == AddField(AddField(AddField(f, a, cs), b, cs), c, cs)
  {
    var three: seq<Str> := [a, b, c];
    assert three[1..] == [b, c] && [b, c][1..] == [c];
    var last := AddField(AddField(f, a, cs), b, cs);
    assert AddFields(last, [c], cs) == AddField(last, c, cs);
  }

  lemma AssignThree(user: Str, pass: Str, next: Str)
    ensures Assign(Assign(Assign(EMPTY_FORM, USER, user), PASS, pass), NEXT, next) == Form(Some(user), Some(pass), Some(next))
  {
    assert USER[0] != PASS[0] && USER[0] != NEXT[0] && PASS[0] != NEXT[0];
  }

  /** A submitted form delivers the three values it was filled with. */
  lemma FormRoundTrip(user: Str, pass: Str, next: Str, cs: Charset)
    requires Faithful(cs) && cs.valid(user) && cs.valid(pass) && cs.valid(next)
    ensures ParseForm(FormBody(user, pass, next), cs) == Form(Some(user), Some(pass), Some(next))
  {
    var u, p, n := Field(USER, user), Field(PASS, pass), Field(NEXT, next);
    var f1 := Assign(EMPTY_FORM, USER, user);
    FieldAdds(EMPTY_FORM, USER, user, cs);
    FieldAdds(f1, PASS, pass, cs);
    FieldAdds(Assign(f1, PASS, pass), NEXT, next, cs);
    FormPieces(u, p, n);
    AddThree(EMPTY_FORM, u, p, n, cs);
    AssignThree(user, pass, next);
  }

  lemma FieldAscii(key: Str, value: Str)
    requires Ascii(key)
    ensures Ascii(Field(key, value))
  {
    EncodedInert(value);
  }

  lemma FormAscii(user: Str, pass: Str, next: Str)
    ensures Ascii(FormBody(user, pass, next))
  {
    FieldAscii(USER, user);
    FieldAscii(PASS, pass);
    FieldAscii(NEXT, next);
  }

  /** A body of the user field alone. */
  lemma UserAlone(user: Str, cs: Charset)
    requires Faithful(cs) && cs.valid(user)
    ensures ParseForm(Field(USER, user), cs) == Form(Some(user), None, None)
  {
    var u := Field(USER, user);
    FieldAdds(EMPTY_FORM, USER, user, cs);
    AfterFirst(u, [], AMPERSAND);
    var pieces: seq<Str> := [u];
    assert pieces[1..] == [];
    assert AddFields(EMPTY_FORM, pieces, cs) == AddField(EMPTY_FORM, u, cs);
  }

  // ---------------- the literals ----------------

  function Latin(s: string): Str
    requires forall i :: 0 <= i < |s| ==> s[i] < 128 as char
  {
    seq(|s|, i requires 0 <= i < |s| => s[i] as int)
  }

  /** The paths and names of the gate, and how long a session lasts in seconds. */
  lemma Literals()
    ensures LOGIN_PATH == Latin("/__krot/login") && LOGOUT_PATH == Latin("/__krot/logout") && SLASH == Latin("/")
    ensures USER == Latin("user") && PASS == Latin("pass") && NEXT == Latin("next") && NEXT_IS == Latin("next=")
    ensures POST == Latin("POST") && [QUESTION, AMPERSAND, EQUALS, PLUS, PERCENT] == Latin("?&=+%")
    ensures SESSION_TTL == 28_800
  {
    assert Latin("?&=+%") == [63, 38, 61, 43, 37];
  }

  // ---------------- the codec by its alphabet ----------------

  /** Letters, digits and ten marks stand for themselves; any other byte is a percent sign and two hex digits. */
  lemma EncodeByteIff(b: Byte)
    ensures EncodeByte(b) == [b] <==>
            || 'A' as int <= b <= 'Z' as int || 'a' as int <= b <= 'z' as int || '0' as int <= b <= '9' as int
            || b in {'-' as int, '_' as int, '.' as int, '~' as int, '/' as int, ':' as int, '@' as int, ',' as int, ';' as int, '=' as int}
    ensures EncodeByte(b) != [b] ==>
              && |EncodeByte(b)| == 3 && EncodeByte(b)[0] == '%' as int
              && HexDigit(EncodeByte(b)[1], b / 16) && HexDigit(EncodeByte(b)[2], b % 16)
  {
  }

  /** The byte is a hex digit of this value, in either case. */
  predicate HexDigit(b: Byte, v: nat) {
    || ('0' as int <= b <= '9' as int && v == b - '0' as int)
    || ('a' as int <= b <= 'f' as int && v == b - 'a' as int + 10)
    || ('A' as int <= b <= 'F' as int && v == b - 'A' as int + 10)
  }

  lemma HexValueIff(b: Byte, v: nat)
    ensures HexValue(b) == Some(v) <==> HexDigit(b, v)
  {
  }

  /** A plus is a space, a percent sign with two hex digits the byte they name; everything else stands for itself. */
  lemma DecodeSays(raw: Str, hi: nat, lo: nat)
    requires raw != []
    ensures raw[0] == '+' as int ==> DecodeBytes(raw) == [' ' as int] + DecodeBytes(raw[1..])
    ensures raw[0] == '%' as int && |raw| > 2 && HexDigit(raw[1], hi) && HexDigit(raw[2], lo) ==>
              DecodeBytes(raw) == [16 * hi + lo] + DecodeBytes(raw[3..])
    ensures raw[0] != '+' as int
            && (raw[0] == '%' as int ==> |raw| <= 2 || HexValue(raw[1]).None? || HexValue(raw[2]).None?) ==>
              DecodeBytes(raw) == [raw[0]] + DecodeBytes(raw[1..])
  {
    if |raw| > 2 {
      HexValueIff(raw[1], hi);
      HexValueIff(raw[2], lo);
    }
  }

  // ---------------- the first field of each name ----------------

  function FirstNamed(pieces: seq<Str>, key: Str, cs: Charset): Option<Str> {
    if pieces == [] then None
    else
      var p := Until(pieces[0], EQUALS);
      if |p| < |pieces[0]| && p == key then Some(FormDecode(pieces[0][|p| + 1..], cs)) else FirstNamed(pieces[1..], key, cs)
  }

  function Else(a: Option<Str>, b: Option<Str>): Option<Str> { if a.Some? then a else b }

  lemma NamesDiffer()
    ensures USER != PASS && USER != NEXT && PASS != NEXT
  {
    assert USER[0] != PASS[0] && USER[0] != NEXT[0] && PASS[0] != NEXT[0];
  }

  lemma {:induction false} FieldsAreFirst(f: Form, pieces: seq<Str>, cs: Charset)
    ensures AddFields(f, pieces, cs) == Form(Else(f.user, FirstNamed(pieces, USER, cs)),
                                             Else(f.pass, FirstNamed(pieces, PASS, cs)),
                                             Else(f.next, FirstNamed(pieces, NEXT, cs)))
    decreases |pieces|
  {
    NamesDiffer();
    if pieces != [] { FieldsAreFirst(AddField(f, pieces[0], cs), pieces[1..], cs); }
  }

  /** A body is cut at its ampersands; the first field of each name counts, decoded, and others do not. */
  lemma FormIsFirst(body: Str, cs: Charset)
    ensures var pieces := SplitOn(body, AMPERSAND);
            ParseForm(body, cs) == Form(FirstNamed(pieces, USER, cs), FirstNamed(pieces, PASS, cs), FirstNamed(pieces, NEXT, cs))
  {
    FieldsAreFirst(EMPTY_FORM, SplitOn(body, AMPERSAND), cs);
  }
}
