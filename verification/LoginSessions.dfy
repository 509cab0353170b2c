/** What the login gate answers to a request, and what that means over many requests. */
module LoginSessions {
  import opened Bytes
  import opened Location
  import opened Login
  import opened Pieces

  /** Session tokens and when each expires. */
  type Store = map<Str, Instant>

  datatype Request = Request(verb: Str, path: Str, token: Option<Str>, body: Str)

  datatype Cookie = NoCookie | SetCookie(token: Str) | ClearCookie

  datatype Action =
    | Forward
    | Redirect(location: Str, cookie: Cookie)
    | ServeLogin(next: Str, failed: bool)

  datatype Gate = Gate(user: Str, pass: Str, cs: Charset)

  // ---------------- the store ----------------

  /** A new session; expired ones go. */
  function Create(s: Store, token: Str, now: Instant): Store {
    (map t | t in s && s[t] > now :: s[t])[token := now + SESSION_TTL]
  }

  /** A valid token is extended, an expired one removed. */
  function Touch(s: Store, token: Str, now: Instant): (Store, bool) {
    if token !in s then (s, false)
    else if s[token] > now then (s[token := now + SESSION_TTL], true)
    else (s - {token}, false)
  }

  class SessionStore {
    var tokens: Store

    constructor ()
      ensures tokens == map[]
    {
      tokens := map[];
    }

    method CreateSession(token: Str, now: Instant)
      modifies this
      ensures tokens == Create(old(tokens), token, now)
    {
      var keep: Store := map[];
      var rest := tokens.Keys;
      while rest != {}
        invariant rest <= tokens.Keys && tokens == old(tokens)
        invariant keep == map t | t in tokens && t !in rest && tokens[t] > now :: tokens[t]
        decreases rest
      {
        var t :| t in rest;
        if tokens[t] > now {
          keep := keep[t := tokens[t]];
        }
        rest := rest - {t};
      }
      tokens := keep[token := now + SESSION_TTL];
    }

    method ValidateAndRefresh(token: Str, now: Instant) returns (ok: bool)
      modifies this
      ensures (tokens, ok) == Touch(old(tokens), token, now)
    {
      if token !in tokens {
        return false;
      }
      if tokens[token] > now {
        tokens := tokens[token := now + SESSION_TTL];
        return true;
      }
      tokens := tokens - {token};
      return false;
    }

    method Invalidate(token: Str)
      modifies this
      ensures tokens == old(tokens) - {token}
    {
      tokens := tokens - {token};
    }
  }

  // ---------------- decisions ----------------

  function Upper(b: Byte): Byte { if 97 <= b <= 122 then b - 32 else b }

  predicate IsPost(verb: Str) { |verb| == 4 && forall i :: 0 <= i < 4 ==> Upper(verb[i]) == POST[i] }

  /** The first `next=` field of a query. */
  function NextParam(pieces: seq<Str>): Option<Str> {
    if pieces == [] then None
    else if NEXT_IS <= pieces[0] then Some(pieces[0][|NEXT_IS|..])
    else NextParam(pieces[1..])
  }

  function NextOf(path: Str, cs: Charset): Str {
    var q := After(path, QUESTION);
    var n := if q.None? then None else NextParam(SplitOn(q.value, AMPERSAND));
    if n.None? then SLASH else SafeNext(FormDecode(n.value, cs))
  }

  function SubmittedForm(g: Gate, body: Str): Form { ParseForm(if g.cs.valid(body) then body else [], g.cs) }

  predicate Credentials(g: Gate, f: Form) {
    f.user == Some(g.user) && (if f.pass.Some? then f.pass.value else []) == g.pass
  }

  /** A login with the user's name and password; a missing password counts as the empty one. */
  predicate IsLogin(g: Gate, r: Request) {
    && Until(r.path, QUESTION) == LOGIN_PATH && IsPost(r.verb)
    && var f := SubmittedForm(g, r.body);
       f.user == Some(g.user) && (f.pass == Some(g.pass) || (f.pass.None? && g.pass == []))
  }

  predicate IsLogout(r: Request) { Until(r.path, QUESTION) == LOGOUT_PATH }

  function LoginRedirect(path: Str): Str { LOGIN_PATH + [QUESTION] + (NEXT_IS + PercentEncode(path)) }

  function Submit(s: Store, g: Gate, r: Request, now: Instant, token: Str): (Store, Action) {
    var f := SubmittedForm(g, r.body);
    var next := if f.next.None? then SLASH else SafeNext(f.next.value);
    if Credentials(g, f) then (Create(s, token, now), Redirect(next, SetCookie(token)))
    else (s, ServeLogin(next, true))
  }

  function Guard(s: Store, r: Request, now: Instant): (Store, Action) {
    var toLogin := Redirect(LoginRedirect(r.path), NoCookie);
    if r.token.None? then (s, toLogin)
    else
      var (s', ok) := Touch(s, r.token.value, now);
      (s', if ok then Forward else toLogin)
  }

  /** The gate's answer; `token` is the random token a successful login would be given. */
  function Decide(s: Store, g: Gate, r: Request, now: Instant, token: Str): (Store, Action) {
    var path := Until(r.path, QUESTION);
    if path == LOGOUT_PATH then
      (if r.token.Some? then s - {r.token.value} else s, Redirect(SLASH, ClearCookie))
    else if path == LOGIN_PATH then
      if IsPost(r.verb) then Submit(s, g, r, now, token) else (s, ServeLogin(NextOf(r.path, g.cs), false))
    else Guard(s, r, now)
  }

  method DecideSession(store: SessionStore, g: Gate, r: Request, now: Instant, token: Str) returns (a: Action)
    modifies store
    ensures (store.tokens, a) == Decide(old(store.tokens), g, r, now, token)
  {
    var path := Until(r.path, QUESTION);
    if path == LOGOUT_PATH {
      if r.token.Some? {
        store.Invalidate(r.token.value);
      }
      return Redirect(SLASH, ClearCookie);
    }
    if path == LOGIN_PATH && IsPost(r.verb) {
      var f := ReadForm(if g.cs.valid(r.body) then r.body else [], g.cs);
      var next := if f.next.None? then SLASH else SafeNext(f.next.value);
      if f.user == Some(g.user) && (if f.pass.Some? then f.pass.value else []) == g.pass {
        store.CreateSession(token, now);
        return Redirect(next, SetCookie(token));
      }
      return ServeLogin(next, true);
    }
    if path == LOGIN_PATH {
      return ServeLogin(NextOf(r.path, g.cs), false);
    }
    if r.token.Some? {
      var ok := store.ValidateAndRefresh(r.token.value, now);
      if ok {
        return Forward;
      }
    }
    var encoded := PercentEncodePath(r.path);
    return Redirect(LOGIN_PATH + [QUESTION] + (NEXT_IS + encoded), NoCookie);
  }

  // ---------------- the redirect comes back ----------------

  lemma LoginPathPlain()
    ensures QUESTION !in LOGIN_PATH && LOGIN_PATH != LOGOUT_PATH && LOGIN_PATH[0] == 47 && LOGIN_PATH[1] == 95
  {
    assert |LOGIN_PATH| != |LOGOUT_PATH|;
  }

  lemma LoginPathAlone()
    ensures Until(LOGIN_PATH, QUESTION) == LOGIN_PATH != LOGOUT_PATH
  {
    LoginPathPlain();
    var p := Until(LOGIN_PATH, QUESTION);
    assert p == LOGIN_PATH[..|p|];
  }

  lemma NextIsPlain()
    ensures AMPERSAND !in NEXT_IS
  {
  }

  /** The query of the redirect is one field, and it decodes to the path that was asked for. */
  lemma RedirectCarries(p: Str, cs: Charset)
    requires Faithful(cs) && cs.valid(p)
    ensures Until(LoginRedirect(p), QUESTION) == LOGIN_PATH
    ensures NextOf(LoginRedirect(p), cs) == SafeNext(p)
  {
    var q := NEXT_IS + PercentEncode(p);
    LoginPathPlain();
    NextIsPlain();
    AfterFirst(LOGIN_PATH, q, QUESTION);
    EncodedInert(p);
    AfterFirst(q, [], AMPERSAND);
    assert q[|NEXT_IS|..] == PercentEncode(p);
    assert NEXT_IS <= q;
    PathRoundTrip(p, cs);
  }

  /**
    A request that is turned away is sent to an address which, fetched, serves
    a form whose `next` is exactly the safe form of the path first asked for.
   */
  lemma RedirectRoundTrip(s: Store, g: Gate, r: Request, now: Instant, token: Str,
                          s2: Store, r2: Request, now2: Instant, token2: Str)
    requires Faithful(g.cs) && g.cs.valid(r.path)
    requires Until(r.path, QUESTION) != LOGIN_PATH && !IsLogout(r) && Decide(s, g, r, now, token).1 != Forward
    requires !IsPost(r2.verb) && Decide(s, g, r, now, token).1 == Redirect(r2.path, NoCookie)
    ensures Decide(s2, g, r2, now2, token2) == (s2, ServeLogin(SafeNext(r.path), false))
  {
    RedirectCarries(r.path, g.cs);
    LoginPathPlain();
  }

  lemma LocalRedirect(p: Str)
    ensures PassesGuard(LoginRedirect(p)) && !OffSite(LoginRedirect(p))
  {
    LoginPathPlain();
    EncodedInert(p);
    var l := LoginRedirect(p);
    assert forall i :: 0 <= i < |LOGIN_PATH| ==> l[i] == LOGIN_PATH[i];
    assert 13 !in LOGIN_PATH && 10 !in LOGIN_PATH && 13 !in NEXT_IS && 10 !in NEXT_IS;
    assert 13 !in PercentEncode(p) && 10 !in PercentEncode(p);
    assert l[1..][0] == 95;
    GuardedIff(l);
  }

  /** Every redirect is one header line and starts with exactly one slash. */
  lemma RedirectsGuarded(s: Store, g: Gate, r: Request, now: Instant, token: Str)
    ensures var a := Decide(s, g, r, now, token).1;
            a.Redirect? ==>
              && a.location != [] && a.location[0] == 47 && (|a.location| > 1 ==> a.location[1] != 47)
              && CR !in a.location && LF !in a.location
  {
    LocalRedirect(r.path);
  }

  /** The three redirects: after a login, after a logout, and to the login page. */
  lemma RedirectTargets(s: Store, g: Gate, r: Request, now: Instant, token: Str)
    ensures var a, next := Decide(s, g, r, now, token).1, SubmittedForm(g, r.body).next;
            && (IsLogin(g, r) ==> a.Redirect? && a.location == if next.None? then SLASH else SafeNext(next.value))
            && (!IsLogin(g, r) && a.Redirect? ==> a.location == SLASH || a.location == LoginRedirect(r.path))
  {
    LoginPathsDiffer();
    var path := Until(r.path, QUESTION);
    if path == LOGIN_PATH && IsPost(r.verb) {
      assert Decide(s, g, r, now, token) == Submit(s, g, r, now, token);
    } else if path != LOGIN_PATH && path != LOGOUT_PATH {
      assert Decide(s, g, r, now, token) == Guard(s, r, now);
    }
  }

  lemma LoginPathsDiffer()
    ensures LOGIN_PATH != LOGOUT_PATH
  {
    assert |LOGIN_PATH| != |LOGOUT_PATH|;
  }

  lemma SlashStays()
    ensures !OffSite(SLASH)
  {
    SafeNextIff(SLASH);
    assert SLASH[1..] == [];
  }

  lemma NextLeavesIff(next: Option<Str>)
    ensures OffSite(if next.None? then SLASH else SafeNext(next.value)) <==> next.Some? && Escapes(next.value)
  {
    SlashStays();
    if next.Some? { SafeNextIff(next.value); }
  }

  /**
    An answer sends the browser off the site exactly when it follows a right
    login whose form asks for an address that escapes the guard.
   */
  lemma RedirectsLeaveIff(s: Store, g: Gate, r: Request, now: Instant, token: Str)
    ensures var a, next := Decide(s, g, r, now, token).1, SubmittedForm(g, r.body).next;
            a.Redirect? && OffSite(a.location) <==> IsLogin(g, r) && next.Some? && Escapes(next.value)
  {
    RedirectTargets(s, g, r, now, token);
    NextLeavesIff(SubmittedForm(g, r.body).next);
    SlashStays();
    LocalRedirect(r.path);
  }

  // ---------------- logging in ----------------

  lemma SafeNextTwice(p: Str)
    ensures SafeNext(SafeNext(p)) == SafeNext(p)
  {
  }

  lemma Submitted(g: Gate, user: Str, pass: Str, next: Str)
    requires Faithful(g.cs) && g.cs.valid(user) && g.cs.valid(pass) && g.cs.valid(next)
    ensures SubmittedForm(g, FormBody(user, pass, next)) == Form(Some(user), Some(pass), Some(next))
  {
    FormAscii(user, pass, next);
    FormRoundTrip(user, pass, next, g.cs);
  }

  /** The verb is compared letter by letter, whatever the case. */
  lemma PostSays(verb: Str)
    ensures IsPost(verb) <==>
            |verb| == 4 && verb[0] in {80, 112} && verb[1] in {79, 111} && verb[2] in {83, 115} && verb[3] in {84, 116}
  {
    assert POST == [80, 79, 83, 84];
  }

  /**
    A request opens a session exactly when it is a login with the right name
    and password, and then adds its token and drops only expired ones. A login
    that is not leaves the store alone and is asked again.
   */
  lemma OpensIff(s: Store, g: Gate, r: Request, now: Instant, token: Str)
    ensures var (s', a) := Decide(s, g, r, now, token);
            && (a.Redirect? && a.cookie == SetCookie(token) <==> IsLogin(g, r))
            && (IsLogin(g, r) ==>
                  && (forall t :: t in s' <==> t == token || (t in s && s[t] > now))
                  && (forall t :: t in s' ==> s'[t] == if t == token then now + SESSION_TTL else s[t]))
            && (!IsLogin(g, r) && Until(r.path, QUESTION) == LOGIN_PATH && IsPost(r.verb) ==>
                  && s' == s && a.ServeLogin? && a.failed
                  && var next := SubmittedForm(g, r.body).next;
                     a.next == if next.None? then SLASH else SafeNext(next.value))
  {
    LoginPathsDiffer();
    var path := Until(r.path, QUESTION);
    if path == LOGIN_PATH && IsPost(r.verb) {
      assert Decide(s, g, r, now, token) == Submit(s, g, r, now, token);
    } else if path != LOGIN_PATH && path != LOGOUT_PATH {
      assert Decide(s, g, r, now, token) == Guard(s, r, now);
    }
  }

  lemma SubmitAnswers(s: Store, g: Gate, r: Request, now: Instant, token: Str, f: Form)
    requires r.path == LOGIN_PATH && IsPost(r.verb) && SubmittedForm(g, r.body) == f
    ensures var next := if f.next.None? then SLASH else SafeNext(f.next.value);
            Decide(s, g, r, now, token) ==
            if f.user == Some(g.user) && (f.pass == Some(g.pass) || (f.pass.None? && g.pass == []))
            then (Create(s, token, now), Redirect(next, SetCookie(token)))
            else (s, ServeLogin(next, true))
  {
    PostSubmits(s, g, r, now, token);
    SubmitSays(s, g, r, now, token, f);
  }

  lemma PostSubmits(s: Store, g: Gate, r: Request, now: Instant, token: Str)
    requires r.path == LOGIN_PATH && IsPost(r.verb)
    ensures Decide(s, g, r, now, token) == Submit(s, g, r, now, token)
  {
    LoginPathAlone();
  }

  lemma SubmitSays(s: Store, g: Gate, r: Request, now: Instant, token: Str, f: Form)
    requires SubmittedForm(g, r.body) == f
    ensures var next := if f.next.None? then SLASH else SafeNext(f.next.value);
            Submit(s, g, r, now, token) ==
            if f.user == Some(g.user) && (f.pass == Some(g.pass) || (f.pass.None? && g.pass == []))
            then (Create(s, token, now), Redirect(next, SetCookie(token)))
            else (s, ServeLogin(next, true))
  {
  }

  /** A body that is not UTF-8 is an empty form. */
  lemma InvalidBody(g: Gate, body: Str)
    requires !g.cs.valid(body)
    ensures SubmittedForm(g, body) == EMPTY_FORM
  {
    FormIsFirst([], g.cs);
    assert Until([], EQUALS) == [];
  }

  /** Whatever name and password are typed into the form: a session opens exactly for the right ones. */
  lemma LoginIff(s: Store, g: Gate, post: Str, now: Instant, token: Str, user: Str, pass: Str, next: Str)
    requires Faithful(g.cs) && g.cs.valid(user) && g.cs.valid(pass) && g.cs.valid(next) && IsPost(post)
    ensures Decide(s, g, Request(post, LOGIN_PATH, None, FormBody(user, pass, next)), now, token) ==
            if user == g.user && pass == g.pass then (Create(s, token, now), Redirect(SafeNext(next), SetCookie(token)))
            else (s, ServeLogin(SafeNext(next), true))
  {
    Submitted(g, user, pass, next);
    SubmitAnswers(s, g, Request(post, LOGIN_PATH, None, FormBody(user, pass, next)), now, token,
                  Form(Some(user), Some(pass), Some(next)));
  }

  /** A form without a password field opens a session exactly when the password is empty. */
  lemma NoPasswordIff(s: Store, g: Gate, post: Str, now: Instant, token: Str, user: Str)
    requires Faithful(g.cs) && g.cs.valid(user) && IsPost(post)
    ensures var a := Decide(s, g, Request(post, LOGIN_PATH, None, Field(USER, user)), now, token).1;
            a == if user == g.user && g.pass == [] then Redirect(SLASH, SetCookie(token)) else ServeLogin(SLASH, true)
  {
    FieldAscii(USER, user);
    UserAlone(user, g.cs);
    SubmitAnswers(s, g, Request(post, LOGIN_PATH, None, Field(USER, user)), now, token, Form(Some(user), None, None));
  }

  /** A right login whose form asks for a slash and a backslash is answered with another host. */
  lemma LoginLeaves(s: Store, g: Gate, post: Str, now: Instant, token: Str, host: Str)
    requires Faithful(g.cs) && g.cs.valid(g.user) && g.cs.valid(g.pass) && IsPost(post)
    requires Ascii(host) && LF !in host && CR !in host
    ensures var next := [47, BACKSLASH] + host;
            var a := Decide(s, g, Request(post, LOGIN_PATH, None, FormBody(g.user, g.pass, next)), now, token).1;
            a == Redirect(next, SetCookie(token)) && OffSite(a.location)
  {
    var next := [47, BACKSLASH] + host;
    LoginIff(s, g, post, now, token, g.user, g.pass, next);
    GuardMisses(host);
  }

  lemma FreshTokenForwards(s: Store, g: Gate, t2: Instant, token: Str, r: Request, t3: Instant, k: Str)
    requires Until(r.path, QUESTION) != LOGIN_PATH && Until(r.path, QUESTION) != LOGOUT_PATH
    requires r.token == Some(token) && t3 < t2 + SESSION_TTL
    ensures Decide(Create(s, token, t2), g, r, t3, k).1 == Forward
  {
  }

  /**
    The whole way in. A request turned away from a path, the redirect fetched,
    the form sent back with the right credentials, and the answer followed
    with the cookie before it expires: the request ends forwarded, at the safe
    form of the path first asked for, on the site unless that path escapes.
   */
  lemma LoginFlow(g: Gate, s0: Store, r0: Request, t0: Instant, k0: Str,
                  s1: Store, get: Str, t1: Instant, k1: Str,
                  s2: Store, post: Str, t2: Instant, token: Str, verb: Str, body: Str, t3: Instant, k3: Str)
    requires Faithful(g.cs) && g.cs.valid(r0.path) && g.cs.valid(g.user) && g.cs.valid(g.pass)
    requires Until(r0.path, QUESTION) != LOGIN_PATH && !IsLogout(r0) && Decide(s0, g, r0, t0, k0).1 != Forward
    requires !IsPost(get) && IsPost(post) && t3 < t2 + SESSION_TTL
    ensures var a0 := Decide(s0, g, r0, t0, k0).1;
            && a0.Redirect?
            && var a1 := Decide(s1, g, Request(get, a0.location, None, []), t1, k1).1;
               && a1 == ServeLogin(SafeNext(r0.path), false)
               && var filled := FormBody(g.user, g.pass, a1.next);
                  var (s3, a2) := Decide(s2, g, Request(post, LOGIN_PATH, None, filled), t2, token);
                  && a2 == Redirect(SafeNext(r0.path), SetCookie(token))
                  && (OffSite(a2.location) <==> Escapes(r0.path))
                  && Decide(s3, g, Request(verb, a2.location, Some(token), body), t3, k3).1 == Forward
  {
    var next := SafeNext(r0.path);
    RedirectRoundTrip(s0, g, r0, t0, k0, s1, Request(get, LoginRedirect(r0.path), None, []), t1, k1);
    assert Ascii(SLASH);
    LoginIff(s2, g, post, t2, token, g.user, g.pass, next);
    SafeNextTwice(r0.path);
    SafeNextIff(r0.path);
    FreshTokenForwards(s2, g, t2, token, Request(verb, next, Some(token), body), t3, k3);
  }

  // ---------------- every run ----------------

  datatype Turn = Turn(r: Request, now: Instant, token: Str)

  ghost predicate Run(ss: seq<Store>, ts: seq<Turn>, g: Gate) {
    && |ss| == |ts| + 1 && ss[0] == map[]
    && forall k {:trigger ts[k]} :: 0 <= k < |ts| ==> ss[k + 1] == Decide(ss[k], g, ts[k].r, ts[k].now, ts[k].token).0
  }

  predicate Issues(g: Gate, t: Turn, tok: Str) { IsLogin(g, t.r) && t.token == tok }

  predicate Ends(t: Turn, tok: Str) { IsLogout(t.r) && t.r.token == Some(tok) }

  predicate Forwards(s: Store, g: Gate, t: Turn, tok: Str) {
    t.r.token == Some(tok) && Decide(s, g, t.r, t.now, t.token).1 == Forward
  }

  ghost predicate IssuedAt(ts: seq<Turn>, g: Gate, k: nat, n: nat, tok: Str) {
    k < n <= |ts| && Issues(g, ts[k], tok) && forall j :: k < j < n ==> !Ends(ts[j], tok)
  }

  ghost predicate UsedAt(ss: seq<Store>, ts: seq<Turn>, g: Gate, j: nat, n: nat, tok: Str) {
    j < n <= |ts| <= |ss| && (Issues(g, ts[j], tok) || Forwards(ss[j], g, ts[j], tok))
  }

  /** What one turn does to one token, without the rest of the gate. */
  predicate TokenMoves(before: Store, after: Store, tok: Str, now: Instant, issues: bool, ends: bool, forwards: bool) {
    tok in after ==>
      || (issues && after[tok] == now + SESSION_TTL)
      || (tok in before && !ends && (after[tok] == before[tok] || (forwards && after[tok] == now + SESSION_TTL)))
  }

  /** When a token was issued, and when its expiry was last set. */
  lemma {:induction false} TokenHistory(ss: seq<Store>, tok: Str, n: nat, now: nat -> Instant,
                                        issues: nat -> bool, ends: nat -> bool, forwards: nat -> bool)
      returns (k: nat, j: nat)
    requires n < |ss| && ss[0] == map[] && tok in ss[n]
    requires forall i: nat :: i < n ==> TokenMoves(ss[i], ss[i + 1], tok, now(i), issues(i), ends(i), forwards(i))
    ensures k < n && issues(k) && forall i :: k < i < n ==> !ends(i)
    ensures j < n && (issues(j) || forwards(j)) && ss[n][tok] == now(j) + SESSION_TTL
  {
    var m := n - 1;
    assert TokenMoves(ss[m], ss[m + 1], tok, now(m), issues(m), ends(m), forwards(m));
    if issues(m) && ss[n][tok] == now(m) + SESSION_TTL {
      k, j := m, m;
    } else {
      k, j := TokenHistory(ss, tok, m, now, issues, ends, forwards);
      if ss[n][tok] != ss[m][tok] { j := m; }
    }
  }

  lemma TokenMovesAt(ss: seq<Store>, ts: seq<Turn>, g: Gate, i: nat, tok: Str)
    requires Run(ss, ts, g) && i < |ts|
    ensures TokenMoves(ss[i], ss[i + 1], tok, ts[i].now, Issues(g, ts[i], tok), Ends(ts[i], tok), Forwards(ss[i], g, ts[i], tok))
  {
    assert ss[i + 1] == Decide(ss[i], g, ts[i].r, ts[i].now, ts[i].token).0;
  }

  ghost predicate AllMove(ss: seq<Store>, ts: seq<Turn>, g: Gate, n: nat, tok: Str) {
    n < |ss| && n <= |ts| &&
    forall i: nat :: i < n ==>
      TokenMoves(ss[i], ss[i + 1], tok, NowOf(ts)(i), IssuesOf(g, ts, tok)(i), EndsOf(ts, tok)(i), ForwardsOf(ss, g, ts, tok)(i))
  }

  lemma RunMoves(ss: seq<Store>, ts: seq<Turn>, g: Gate, n: nat, tok: Str)
    requires Run(ss, ts, g) && n < |ss|
    ensures AllMove(ss, ts, g, n, tok)
  {
    forall i: nat | i < n
      ensures TokenMoves(ss[i], ss[i + 1], tok, NowOf(ts)(i), IssuesOf(g, ts, tok)(i), EndsOf(ts, tok)(i), ForwardsOf(ss, g, ts, tok)(i))
    {
      TokenMovesAt(ss, ts, g, i, tok);
    }
  }

  lemma OriginOf(ss: seq<Store>, ts: seq<Turn>, g: Gate, n: nat, tok: Str) returns (k: nat, j: nat)
    requires AllMove(ss, ts, g, n, tok) && |ts| <= |ss| && ss[0] == map[] && tok in ss[n]
    ensures IssuedAt(ts, g, k, n, tok)
    ensures UsedAt(ss, ts, g, j, n, tok) && ss[n][tok] == ts[j].now + SESSION_TTL
  {
    var ends := EndsOf(ts, tok);
    k, j := TokenHistory(ss, tok, n, NowOf(ts), IssuesOf(g, ts, tok), ends, ForwardsOf(ss, g, ts, tok));
    forall i | k < i < n ensures !Ends(ts[i], tok) { assert !ends(i); }
  }

  lemma TokenOrigin(ss: seq<Store>, ts: seq<Turn>, g: Gate, n: nat, tok: Str) returns (k: nat, j: nat)
    requires Run(ss, ts, g) && n < |ss| && tok in ss[n]
    ensures IssuedAt(ts, g, k, n, tok)
    ensures UsedAt(ss, ts, g, j, n, tok) && ss[n][tok] == ts[j].now + SESSION_TTL
  {
    RunMoves(ss, ts, g, n, tok);
    k, j := OriginOf(ss, ts, g, n, tok);
  }

  function NowOf(ts: seq<Turn>): nat -> Instant { (i: nat) => if i < |ts| then ts[i].now else 0 }

  function IssuesOf(g: Gate, ts: seq<Turn>, tok: Str): nat -> bool { (i: nat) => i < |ts| && Issues(g, ts[i], tok) }

  function EndsOf(ts: seq<Turn>, tok: Str): nat -> bool { (i: nat) => i < |ts| && Ends(ts[i], tok) }

  function ForwardsOf(ss: seq<Store>, g: Gate, ts: seq<Turn>, tok: Str): nat -> bool {
    (i: nat) => i < |ts| && i < |ss| && Forwards(ss[i], g, ts[i], tok)
  }

  // ---------------- a token lasts ----------------

  /** A token is known and good until at least `until`. */
  predicate Good(s: Store, tok: Str, until: Instant) { tok in s && s[tok] >= until }

  lemma GoodStays(s: Store, g: Gate, t: Turn, tok: Str, until: Instant)
    requires Good(s, tok, until) && t.now < until <= t.now + SESSION_TTL && !Ends(t, tok)
    ensures Good(Decide(s, g, t.r, t.now, t.token).0, tok, until)
  {
  }

  lemma UsedIsGood(s: Store, g: Gate, t: Turn, tok: Str)
    requires Issues(g, t, tok) || Forwards(s, g, t, tok)
    ensures Good(Decide(s, g, t.r, t.now, t.token).0, tok, t.now + SESSION_TTL)
  {
    LoginPathsDiffer();
    if Issues(g, t, tok) { OpensIff(s, g, t.r, t.now, t.token); }
  }

  lemma GoodForwards(s: Store, g: Gate, t: Turn, tok: Str, until: Instant)
    requires Good(s, tok, until) && t.now < until && t.r.token == Some(tok)
    requires Until(t.r.path, QUESTION) != LOGIN_PATH && Until(t.r.path, QUESTION) != LOGOUT_PATH
    ensures Forwards(s, g, t, tok)
  {
  }

  lemma {:induction false} GoodAlong(ss: seq<Store>, ts: seq<Turn>, g: Gate, n: nat, m: nat, tok: Str, until: Instant)
    requires Run(ss, ts, g) && n <= m < |ss| && Good(ss[n], tok, until)
    requires forall k :: n <= k < m ==> ts[k].now < until <= ts[k].now + SESSION_TTL && !Ends(ts[k], tok)
    ensures Good(ss[m], tok, until)
    decreases m
  {
    if n < m {
      GoodAlong(ss, ts, g, n, m - 1, tok, until);
      GoodStays(ss[m - 1], g, ts[m - 1], tok, until);
    }
  }

  /**
    A token issued or used at one turn forwards every request made with it in
    the following session lifetime, whatever other logins, logouts and
    requests happen in between, unless it is itself logged out.
   */
  lemma TokenLasts(ss: seq<Store>, ts: seq<Turn>, g: Gate, n: nat, m: nat, tok: Str)
    requires Run(ss, ts, g) && n < m < |ts| && (Issues(g, ts[n], tok) || Forwards(ss[n], g, ts[n], tok))
    requires forall k :: n < k < m ==> ts[n].now <= ts[k].now < ts[n].now + SESSION_TTL && !Ends(ts[k], tok)
    requires ts[m].now < ts[n].now + SESSION_TTL && ts[m].r.token == Some(tok)
    requires Until(ts[m].r.path, QUESTION) != LOGIN_PATH && Until(ts[m].r.path, QUESTION) != LOGOUT_PATH
    ensures Decide(ss[m], g, ts[m].r, ts[m].now, ts[m].token).1 == Forward
  {
    var until := ts[n].now + SESSION_TTL;
    UsedIsGood(ss[n], g, ts[n], tok);
    GoodAlong(ss, ts, g, n + 1, m, tok, until);
    GoodForwards(ss[m], g, ts[m], tok, until);
  }

  /**
    A request is forwarded only with a token that an earlier login with the
    right credentials was given, that no logout has ended since, and that was
    issued or used less than the session lifetime ago.
   */
  lemma ForwardNeedsLogin(ss: seq<Store>, ts: seq<Turn>, g: Gate, n: nat)
    requires Run(ss, ts, g) && n < |ts|
    requires Decide(ss[n], g, ts[n].r, ts[n].now, ts[n].token).1 == Forward
    ensures ts[n].r.token.Some?
    ensures exists k: nat :: IssuedAt(ts, g, k, n, ts[n].r.token.value)
    ensures exists j: nat :: UsedAt(ss, ts, g, j, n, ts[n].r.token.value) && ts[n].now < ts[j].now + SESSION_TTL
  {
    var tok := ts[n].r.token.value;
    assert tok in ss[n] && ss[n][tok] > ts[n].now;
    var k, j := TokenOrigin(ss, ts, g, n, tok);
  }
}
