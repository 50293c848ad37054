/**
 What a request claims by its signature, and how often one claim gets through.
 The set of seen signatures remembers signature strings; this file says what that
 means for signed texts, and for the requests themselves.
 */
module SignedRequests {
  import opened Text
  import opened Handlers
  import opened Invariants
  import opened SetRuns
  import opened ReplayRuns
  import Addresses
  import Signed
  import Replay
  import Store
  import TtlSet

  /******* Claims *******/

  /** What a signature stands for: a registration, or a request by a user, with the
      digest of its body when it has one. */
  datatype Claim = Registers(username: string, kem: string, sig: string, timestamp: string)
                 | Asks(method_: string, path: string, username: string, timestamp: string, digest: Option<string>)

  function ClaimOf(env: Env, r: Request): Option<Claim> {
    match r
    case RegisterUser(b) => Some(Registers(b.username, b.kem, b.sig, b.timestamp))
    case SendMail(_) => None
    case LookUp(_) => None
    case _ =>
      var rt := RouteOf(r);
      Some(AsksIn(env, rt.method_, rt.path, r.header, rt.body))
  }

  function AsksIn(env: Env, method_: string, path: string, h: Header, body: Option<string>): Claim {
    Asks(method_, path, h.username, h.timestamp, if body.Some? then Some(env.sha256(body.value)) else None)
  }

  /** The text that is signed. */
  function TextOf(c: Claim): string {
    match c
    case Registers(username, kem, sig, timestamp) => Signed.RegisterMessage(username, kem, sig, timestamp)
    case Asks(method_, path, username, timestamp, None) => Signed.HeaderMessage(method_, path, username, timestamp)
    case Asks(method_, path, username, timestamp, Some(d)) =>
      Signed.HeaderBodyMessage(method_, path, username, timestamp, d)
  }

  /** A claim as accepted requests make them. */
  predicate Proper(c: Claim) {
    c.Asks? ==> Signed.AcceptedHeader(c.method_, c.username, c.timestamp) && (c.digest.Some? ==> Signed.HexDigest(c.digest.value))
  }

  /** Whatever is signed can be read in one way only. */
  lemma ClaimsReadOneWay(c: Claim, d: Claim)
    requires Proper(c) && Proper(d)
    ensures TextOf(c) == TextOf(d) <==> c == d
  {
    hide Signed.RegisterMessage, Signed.HeaderMessage, Signed.HeaderBodyMessage, Signed.AcceptedHeader, Signed.HexDigest,
      Signed.MailMessage;
    match (c, d)
    case (Registers(u, k, s, t), Registers(u', k', s', t')) =>
      Signed.RegisterMessageInjective(u, k, s, t, u', k', s', t');
    case (Registers(u, k, s, t), Asks(m', p', u', t', e')) => RegisterIsNoRequest(u, k, s, t, m', p', u', t', e');
    case (Asks(m', p', u', t', e'), Registers(u, k, s, t)) => RegisterIsNoRequest(u, k, s, t, m', p', u', t', e');
    case (Asks(m, p, u, t, None), Asks(m', p', u', t', None)) =>
      Signed.HeaderMessageInjective(m, p, u, t, m', p', u', t');
    case (Asks(m, p, u, t, Some(e)), Asks(m', p', u', t', Some(e'))) =>
      Signed.HeaderBodyMessageInjective(m, p, u, t, e, m', p', u', t', e');
    case (Asks(m, p, u, t, None), Asks(m', p', u', t', Some(e'))) =>
      Signed.HeaderKindsDisjoint(m, p, u, t, m', p', u', t', e');
    case (Asks(m, p, u, t, Some(e)), Asks(m', p', u', t', None)) =>
      Signed.HeaderKindsDisjoint(m', p', u', t', m, p, u, t, e);
  }

  lemma RegisterIsNoRequest(u: string, k: string, s: string, t: string,
                            m': string, p': string, u': string, t': string, e': Option<string>)
    requires Signed.AcceptedHeader(m', u', t') && (e'.Some? ==> Signed.HexDigest(e'.value))
    ensures Signed.RegisterMessage(u, k, s, t) != TextOf(Asks(m', p', u', t', e'))
  {
    PlainHeader();
    var mail := Signed.MailFields("", "", "", "", "", "", "", 0);
    var digest := if e'.Some? then e'.value else Zeros();
    hide Signed.RegisterMessage, Signed.HeaderMessage, Signed.HeaderBodyMessage, Signed.AcceptedHeader, Signed.HexDigest,
      Signed.MailMessage;
    Signed.KindsDisjoint((u, k, s, t), mail, m', p', u', t', m', p', u', t', digest);
  }

  /******* What an accepted request showed *******/

  lemma ShownVerifies(env: Env, users: Store.Users, method_: string, path: string, h: Header, body: Option<string>, now: nat)
    requires Shown(env, users, method_, path, h, body, now).Some?
    ensures Shown(env, users, method_, path, h, body, now).value == (h.signature, h.timestamp)
    ensures h.username in users && InWindow(h.timestamp, now)
    ensures Verifies(env, users[h.username].sig, TextOf(AsksIn(env, method_, path, h, body)), h.signature)
  {
    hide PowOk, InWindow, Verifies, Signed.HeaderMessage, Signed.HeaderBodyMessage;
  }

  lemma RegistrationVerifies(env: Env, cfg: Config, b: Registration, now: nat)
    requires RegisterChecks(env, cfg, b, now).None?
    ensures Verifies(env, b.sig, Signed.RegisterMessage(b.username, b.kem, b.sig, b.timestamp), b.signature)
    ensures InWindow(b.timestamp, now)
  {
    hide PowOk, InWindow, ValidKEM, Addresses.ValidUsername, IsReserved, Signed.RegisterMessage;
  }

  /** A shown signature verifies over a proper claim, under some key, inside the
      window of the timestamp in the claim. */
  lemma PresentedClaim(env: Env, cfg: Config, users: Store.Users, e: Event)
    requires HexDigests(env) && UsersOk(users) && Presented(env, cfg, users, e).Some?
    ensures var shown := Presented(env, cfg, users, e).value;
            && ClaimOf(env, e.request).Some?
            && var c := ClaimOf(env, e.request).value;
            && Proper(c) && c.timestamp == shown.1 && InWindow(shown.1, e.now)
            && exists key :: Verifies(env, key, TextOf(c), shown.0)
  {
    hide RegisterChecks, Shown, InWindow, TextOf, Verifies, AsksIn, Proper, PlainMethod;
    if HasHeader(e.request) {
      var rt := RouteOf(e.request);
      RoutesArePlain(e.request);
      HeaderClaim(env, users, rt.method_, rt.path, e.request.header, rt.body, e.now);
    } else {
      var b := e.request.form;
      RegistrationVerifies(env, cfg, b, e.now);
      RegisterText(b.username, b.kem, b.sig, b.timestamp);
    }
  }

  lemma RegisterText(u: string, k: string, s: string, t: string)
    ensures TextOf(Registers(u, k, s, t)) == Signed.RegisterMessage(u, k, s, t) && Proper(Registers(u, k, s, t))
  {
  }

  lemma HeaderClaim(env: Env, users: Store.Users, method_: string, path: string, h: Header, body: Option<string>, now: nat)
    requires HexDigests(env) && UsersOk(users) && PlainMethod(method_)
    requires Shown(env, users, method_, path, h, body, now).Some?
    ensures var c := AsksIn(env, method_, path, h, body);
            var shown := Shown(env, users, method_, path, h, body, now).value;
            && Proper(c) && c.timestamp == h.timestamp && shown == (h.signature, h.timestamp) && InWindow(h.timestamp, now)
            && exists key :: Verifies(env, key, TextOf(c), h.signature)
  {
    ShownVerifies(env, users, method_, path, h, body, now);
    hide Shown, TextOf, Verifies, Addresses.ValidUsername, ParseInt, Signed.HexDigest;
    assert ParseInt(h.timestamp).Some?;
  }

  predicate PlainMethod(method_: string) { method_ != "" && ':' !in method_ && '{' !in method_ }

  lemma RoutesArePlain(r: Request)
    requires HasHeader(r)
    ensures PlainMethod(RouteOf(r).method_)
  {
  }

  /** The account a shown header names signed the claim, with the key it has. */
  lemma PresentedByNamed(env: Env, cfg: Config, users: Store.Users, e: Event)
    requires HasHeader(e.request) && Presented(env, cfg, users, e).Some?
    ensures var h := e.request.header;
            && h.username in users && ClaimOf(env, e.request).Some?
            && Verifies(env, users[h.username].sig, TextOf(ClaimOf(env, e.request).value), h.signature)
  {
    hide Shown, TextOf, Verifies, AsksIn;
    var rt := RouteOf(e.request);
    ShownVerifies(env, users, rt.method_, rt.path, e.request.header, rt.body, e.now);
  }

  /******* One claim, one signature *******/

  /** Request `i` got its claim past the set of seen signatures. */
  ghost predicate Passes(env: Env, cfg: Config, run: Run, i: nat, c: Claim)
    requires i < |run|
  {
    && ClaimOf(env, run[i].request) == Some(c)
    && PresentedAt(env, cfg, run, i).Some?
    && Uses(env, cfg, run, i, PresentedAt(env, cfg, run, i).value.0)
  }

  lemma UsePasses(env: Env, cfg: Config, run: Run, i: nat, signature: string)
    requires HexDigests(env) && i < |run| && Uses(env, cfg, run, i, signature)
    ensures ClaimOf(env, run[i].request).Some?
    ensures var c := ClaimOf(env, run[i].request).value;
            && Passes(env, cfg, run, i, c) && Proper(c)
            && PresentedAt(env, cfg, run, i) == Some((signature, c.timestamp)) && InWindow(c.timestamp, run[i].now)
            && exists key :: Verifies(env, key, TextOf(c), signature)
  {
    var s := After(env, cfg, run[..i]);
    RunKeeps(env, cfg, run[..i]);
    PresentedClaim(env, cfg, s.tables.users, run[i]);
    hide After, Presented, ClaimOf, Proper, TextOf, Verifies, InWindow, MailOk, BlocksOk, IdsDistinct, UsersOk, TtlSet.AddTo;
  }

  /** A signature string stands for one claim: when it authenticates twice, both
      requests have the same kind, path, name, timestamp and body digest. */
  lemma SameClaim(env: Env, cfg: Config, run: Run, i: nat, j: nat, signature: string)
    requires Binding(env) && HexDigests(env) && i < |run| && j < |run|
    requires Uses(env, cfg, run, i, signature) && Uses(env, cfg, run, j, signature)
    ensures ClaimOf(env, run[i].request) == ClaimOf(env, run[j].request)
    ensures PresentedAt(env, cfg, run, i) == PresentedAt(env, cfg, run, j)
  {
    UsePasses(env, cfg, run, i, signature);
    UsePasses(env, cfg, run, j, signature);
    var c, d := ClaimOf(env, run[i].request).value, ClaimOf(env, run[j].request).value;
    var k :| Verifies(env, k, TextOf(c), signature);
    var k' :| Verifies(env, k', TextOf(d), signature);
    assert TextOf(c) == TextOf(d);
    hide ClaimOf, Proper, TextOf, Verifies, Uses, PresentedAt, InWindow, Binding, HexDigests;
    ClaimsReadOneWay(c, d);
  }

  lemma WindowGap(ts: string, now: nat, later: nat)
    requires InWindow(ts, now) && InWindow(ts, later)
    ensures later - now < 601 * SECOND
    ensures later - now > 600 * SECOND ==>
              now / SECOND - ParseInt(ts).value == -Replay.WINDOW && later / SECOND - ParseInt(ts).value == Replay.WINDOW
  {
    var v := ParseInt(ts).value;
    hide ParseInt;
    Replay.InWindowSpan(SECOND, now, v);
    Replay.InWindowSpan(SECOND, later, v);
    Replay.FloorBounds(now, SECOND, v - Replay.WINDOW, v - Replay.WINDOW);
    Replay.FloorBounds(later, SECOND, v + Replay.WINDOW, v + Replay.WINDOW);
  }

  /** As long as no generation fills up, a signature string passes a second time only
      when the first time was in the first second of its 601, and the second is in the
      last, the one `Unix()` rounds away. */
  lemma ReplayWithinSecond(env: Env, cfg: Config, run: Run, i: nat, j: nat, signature: string)
    requires Binding(env) && HexDigests(env) && Clocked(run) && i < j < |run|
    requires Uses(env, cfg, run, i, signature) && Uses(env, cfg, run, j, signature)
    requires TtlSet.NoFill(SEEN, SeenCalls(env, cfg, run, |run|))
    ensures 600 * SECOND < run[j].now - run[i].now < 601 * SECOND
    ensures ClaimOf(env, run[i].request).Some? && ParseInt(ClaimOf(env, run[i].request).value.timestamp).Some?
    ensures var ts := ParseInt(ClaimOf(env, run[i].request).value.timestamp).value;
            run[i].now / SECOND == ts - Replay.WINDOW && run[j].now / SECOND == ts + Replay.WINDOW
  {
    UsedAgain(env, cfg, run, i, j, signature);
    SameClaim(env, cfg, run, i, j, signature);
    UsePasses(env, cfg, run, i, signature);
    UsePasses(env, cfg, run, j, signature);
    assert ParseInt(ClaimOf(env, run[i].request).value.timestamp).Some?;
    hide SeenCalls, Uses, Clocked, Binding, HexDigests, TtlSet.NoFill, TtlSet.OthersSince, InWindow, Passes, PresentedAt,
      Proper, TextOf, Verifies, ParseInt, ClaimOf;
    WindowGap(ClaimOf(env, run[i].request).value.timestamp, run[i].now, run[j].now);
  }

  /** The verifier reads at most one string for a message. */
  ghost predicate OneSpelling(env: Env) {
    forall k, k', msg, sig, sig' :: Verifies(env, k, msg, sig) && Verifies(env, k', msg, sig') ==> sig == sig'
  }

  /** Then, and as long as no generation fills up, a claim gets through once, but for
      that same last second. */
  lemma ClaimPassesOnce(env: Env, cfg: Config, run: Run, i: nat, j: nat, c: Claim)
    requires OneSpelling(env) && HexDigests(env) && Clocked(run) && i < j < |run|
    requires Passes(env, cfg, run, i, c) && Passes(env, cfg, run, j, c)
    requires TtlSet.NoFill(SEEN, SeenCalls(env, cfg, run, |run|))
    ensures PresentedAt(env, cfg, run, i) == PresentedAt(env, cfg, run, j)
    ensures 600 * SECOND < run[j].now - run[i].now < 601 * SECOND
  {
    var sig, sig' := PresentedAt(env, cfg, run, i).value.0, PresentedAt(env, cfg, run, j).value.0;
    UsePasses(env, cfg, run, i, sig);
    UsePasses(env, cfg, run, j, sig');
    var k :| Verifies(env, k, TextOf(c), sig);
    var k' :| Verifies(env, k', TextOf(c), sig');
    assert sig == sig';
    hide SeenCalls, Uses, Clocked, OneSpelling, HexDigests, TtlSet.NoFill, TtlSet.OthersSince, InWindow, PresentedAt, Proper,
      TextOf, Verifies, ClaimOf;
    UsedAgain(env, cfg, run, i, j, sig);
    WindowGap(c.timestamp, run[i].now, run[j].now);
  }

  /******* Requests and mail *******/

  /** No claim reads like a signed mail. */
  lemma ClaimIsNoMail(c: Claim, f: Signed.MailFields)
    requires Proper(c)
    ensures TextOf(c) != Signed.MailMessage(f)
  {
    PlainHeader();
    hide Signed.RegisterMessage, Signed.HeaderMessage, Signed.HeaderBodyMessage, Signed.AcceptedHeader, Signed.HexDigest,
      Signed.MailMessage;
    var none := ("", "", "", "");
    match c
    case Registers(u, k, s, t) =>
      Signed.KindsDisjoint((u, k, s, t), f, "GET", "", "alice", "0", "GET", "", "alice", "0", Zeros());
    case Asks(m, p, u, t, None) => Signed.KindsDisjoint(none, f, m, p, u, t, m, p, u, t, Zeros());
    case Asks(m, p, u, t, Some(d)) => Signed.KindsDisjoint(none, f, m, p, u, t, m, p, u, t, d);
  }

  function Zeros(): string { seq(64, _ => '0') }

  lemma PlainHeader()
    ensures Signed.AcceptedHeader("GET", "alice", "0") && Signed.HexDigest(Zeros())
  {
    assert IsLetter("alice"[0]);
    assert Addresses.ValidUsername("alice");
    ParseIntItoa(0);
    assert Itoa(0) == "0";
    hide Addresses.ValidUsername, ParseInt;
  }

  /** If signatures bind what they sign, no signature that authenticated a request of a
      run is the signature of a mail stored before or after it. */
  lemma MailSignsNoRequest(env: Env, cfg: Config, run: Run, i: nat, n: nat, h: string, signature: string)
    requires Binding(env) && HexDigests(env) && i < |run| && n <= |run| && Uses(env, cfg, run, i, signature)
    requires h in After(env, cfg, run[..n]).tables.mail
    ensures After(env, cfg, run[..n]).tables.mail[h].signature != signature
  {
    var s := After(env, cfg, run[..n]);
    UsePasses(env, cfg, run, i, signature);
    RunKeeps(env, cfg, run[..n]);
    assert RowOk(env, cfg, s, h);
    hide After, Uses, PresentedAt, ClaimOf, Proper, TextOf, Verifies, UsersOk, BlocksOk, IdsDistinct, PartiesOk, ContentOk,
      Signed.MailMessage, HexDigests;
    var c := ClaimOf(env, run[i].request).value;
    var k :| Verifies(env, k, TextOf(c), signature);
    ClaimIsNoMail(c, s.origin[h].fields);
  }
}
