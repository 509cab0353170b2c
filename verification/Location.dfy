/**
  Where a browser goes for a `Location`, by the basic URL parser of the WHATWG
  URL Standard with an http base, as far as it decides whether the answer stays
  on the site.
 */
module Location {
  import opened Bytes
  import opened Login
  import opened Pieces

  const TAB: Byte := 9
  const LF: Byte := 10
  const CR: Byte := 13
  const COLON: Byte := 58
  const BACKSLASH: Byte := 92

  /** Leading control characters and spaces are dropped. */
  function Stripped(s: Str): Str {
    if s != [] && s[0] <= 32 then Stripped(s[1..]) else s
  }

  predicate Ignored(b: Byte) { b == TAB || b == LF || b == CR }

  /** Tabs and line breaks are removed wherever they stand. */
  function Cleaned(s: Str): Str {
    if s == [] then [] else (if Ignored(s[0]) then [] else [s[0]]) + Cleaned(s[1..])
  }

  /** For http a backslash is a slash. */
  predicate IsSlash(b: Byte) { b == 47 || b == BACKSLASH }

  predicate IsAlpha(b: Byte) { 65 <= b <= 90 || 97 <= b <= 122 }

  predicate SchemeByte(b: Byte) { IsAlpha(b) || 48 <= b <= 57 || b == 43 || b == 45 || b == 46 }

  predicate HasScheme(u: Str) {
    && u != [] && IsAlpha(u[0])
    && exists i :: 0 < i < |u| && u[i] == COLON && forall j :: 0 < j < i ==> SchemeByte(u[j])
  }

  /** An address with a scheme or with two leading slashes names its own host. */
  predicate OffSite(s: Str) {
    var u := Cleaned(Stripped(s));
    HasScheme(u) || (|u| >= 2 && IsSlash(u[0]) && IsSlash(u[1]))
  }

  // ---------------- what the guard lets through ----------------

  function SkipTabs(s: Str): Str {
    if s != [] && s[0] == TAB then SkipTabs(s[1..]) else s
  }

  /** Passes the guard, and after its slash and any tabs comes another slash or a backslash. */
  predicate Escapes(s: Str) {
    && PassesGuard(s)
    && var t := SkipTabs(s[1..]);
       t != [] && IsSlash(t[0])
  }

  lemma {:induction false} CleanedFirst(s: Str)
    requires LF !in s && CR !in s
    ensures Cleaned(s) == [] <==> SkipTabs(s) == []
    ensures SkipTabs(s) != [] ==> Cleaned(s)[0] == SkipTabs(s)[0]
  {
    if s != [] && s[0] == TAB { CleanedFirst(s[1..]); }
  }

  /** What passes the guard stays on the site unless it escapes. */
  lemma GuardedIff(s: Str)
    requires PassesGuard(s)
    ensures OffSite(s) <==> Escapes(s)
  {
    CleanedFirst(s[1..]);
  }

  /**
    The safe form of an address stays on the site exactly when the address
    fails the guard or what follows its slash and any tabs is neither a slash
    nor a backslash.
   */
  lemma SafeNextIff(s: Str)
    ensures OffSite(SafeNext(s)) <==> Escapes(s)
  {
    GuardedIff(SafeNext(s));
    assert SLASH[1..] == [];
  }

  lemma TwoSlashesLeave(s: Str)
    requires |s| >= 2 && s[0] == 47 && s[1] == 47
    ensures OffSite(s)
  {
    assert Cleaned(s) == [47] + Cleaned(s[1..]);
    assert s[1..][0] == 47;
    assert Cleaned(s[1..]) == [47] + Cleaned(s[1..][1..]);
  }

  /**
    What the guard is for: without tabs and backslashes the safe form never
    leaves the site, it is always one header line, and a path of one header
    line that stays on the site is left alone.
   */
  lemma SafeNextServes(s: Str)
    ensures TAB !in s && BACKSLASH !in s ==> !OffSite(SafeNext(s))
    ensures CR !in SafeNext(s) && LF !in SafeNext(s)
    ensures s != [] && s[0] == 47 && CR !in s && LF !in s && !OffSite(s) ==> SafeNext(s) == s
  {
    SafeNextIff(s);
    if |s| >= 2 && s[0] == 47 && s[1] == 47 { TwoSlashesLeave(s); }
  }

  /** Addresses the guard passes although they name another host: a backslash after the slash, or a tab between two. */
  lemma GuardMisses(host: Str)
    requires LF !in host && CR !in host
    ensures OffSite(SafeNext([47, BACKSLASH] + host)) && OffSite(SafeNext([47, TAB, 47] + host))
  {
    var a, b := [47, BACKSLASH] + host, [47, TAB, 47] + host;
    assert SkipTabs(a[1..])[0] == BACKSLASH;
    assert b[1..][0] == TAB && b[1..][1..] == [47] + host;
    assert SkipTabs(b[1..]) == [47] + host;
    SafeNextIff(a);
    SafeNextIff(b);
  }
}
