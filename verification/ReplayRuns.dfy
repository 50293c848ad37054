/**
 Replay protection over the runs of a whole instance: what a header-signed or
 registering request leaves in the set of seen signatures, and when the same
 signature can authenticate a second time.
 */
module ReplayRuns {
  import opened Text
  import opened Handlers
  import opened Invariants
  import opened Addresses
  import Signed
  import TtlSet
  import Store
  import opened SetRuns

  /** The signature a request shows once its checks are passed, with its timestamp;
      `None` when the request never reaches the set. */
  function Presented(env: Env, cfg: Config, users: Store.Users, e: Event): Option<(string, string)> {
    match e.request
    case RegisterUser(b) =>
      if RegisterChecks(env, cfg, b, e.now).None? then Some((b.signature, b.timestamp)) else None
    case SendMail(_) => None
    case LookUp(_) => None
    case _ =>
      var rt := RouteOf(e.request);
      Shown(env, users, rt.method_, rt.path, e.request.header, rt.body, e.now)
  }

  function Shown(env: Env, users: Store.Users, method_: string, path: string, h: Header, body: Option<string>, now: nat)
    : Option<(string, string)>
  {
    if AuthChecks(env, users, method_, path, h, body, now).User? then Some((h.signature, h.timestamp)) else None
  }

  /** The set after a request that showed, or did not show, a signature. */
  function SeenAfter(env: Env, seen: TtlSet.State, shown: Option<(string, string)>, now: nat): TtlSet.State {
    SetAfter(SEEN, seen, Hashed(env, shown), now)
  }

  /** The key a shown signature has in the set. */
  function Hashed(env: Env, shown: Option<(string, string)>): Option<string> {
    match shown
    case None => None
    case Some((signature, _)) => Some(env.sha256(signature))
  }

  lemma MarkFreshSeen(env: Env, s: Instance, signature: string, pow: string, now: nat)
    ensures MarkFresh(env, s, signature, pow, now).0.seen == TtlSet.AddTo(SEEN, s.seen, env.sha256(signature), now).0
    ensures MarkFresh(env, s, signature, pow, now).1 ==> TtlSet.AddTo(SEEN, s.seen, env.sha256(signature), now).1
  {
    hide TtlSet.AddTo;
  }

  lemma AuthenticateSeen(env: Env, s: Instance, method_: string, path: string, h: Header, body: Option<string>, now: nat)
    ensures var shown := Shown(env, s.tables.users, method_, path, h, body, now);
            var (s', auth) := Authenticate(env, s, method_, path, h, body, now);
            && s'.seen == SeenAfter(env, s.seen, shown, now)
            && (auth.User? ==> shown.Some? && TtlSet.AddTo(SEEN, s.seen, env.sha256(h.signature), now).1)
  {
    MarkFreshSeen(env, s, h.signature, h.pow, now);
    hide MarkFresh, AuthChecks, TtlSet.AddTo;
  }

  lemma RegisterSeen(env: Env, cfg: Config, s: Instance, b: Registration, now: nat)
    ensures Register(env, cfg, s, b, now).0.seen
         == if RegisterChecks(env, cfg, b, now).None? then TtlSet.AddTo(SEEN, s.seen, env.sha256(b.signature), now).0
            else s.seen
  {
    MarkFreshSeen(env, s, b.signature, b.pow, now);
    hide MarkFresh, RegisterChecks, TtlSet.AddTo;
  }

  /** A step touches the set of seen signatures at most once. */
  lemma StepSeen(env: Env, cfg: Config, s: Instance, e: Event)
    ensures Step(env, cfg, s, e).0.seen
         == SeenAfter(env, s.seen, Presented(env, cfg, s.tables.users, e), e.now)
  {
    hide Register, Send, Burn, Block, Unblock, Rotate, Destroy, ListedMail, GottenMail, ListedBlocks, LookedUp,
      Authenticate, RegisterChecks, Shown, TtlSet.AddTo;
    match e.request
    case RegisterUser(b) => RegisterSeen(env, cfg, s, b, e.now);
    case SendMail(m) => SendFrame(env, cfg, s, m, e.remote, e.now, e.ids);
    case LookUp(name) => LookUpFrame(cfg, s, name, e.remote, e.now);
    case _ =>
      var rt := RouteOf(e.request);
      RoutedStep(env, cfg, s, e);
      AuthenticateSeen(env, s, rt.method_, rt.path, e.request.header, rt.body, e.now);
      hide Step;
  }

  /******* Runs *******/

  function PresentedAt(env: Env, cfg: Config, run: Run, i: nat): Option<(string, string)>
    requires i < |run|
  {
    Presented(env, cfg, After(env, cfg, run[..i]).tables.users, run[i])
  }

  function SeenKeys(env: Env, cfg: Config, run: Run): KeyAt {
    (i: nat) => if i < |run| then Hashed(env, PresentedAt(env, cfg, run, i)) else None
  }

  /** The calls the first `n` requests make to the set of seen signatures. */
  function SeenCalls(env: Env, cfg: Config, run: Run, n: nat): TtlSet.Run
    requires n <= |run|
  {
    Calls(SeenKeys(env, cfg, run), run, n)
  }

  /** Request `i` passed its checks with this signature, and the set took it. */
  ghost predicate Uses(env: Env, cfg: Config, run: Run, i: nat, signature: string)
    requires i < |run|
  {
    && PresentedAt(env, cfg, run, i).Some? && PresentedAt(env, cfg, run, i).value.0 == signature
    && TtlSet.AddTo(SEEN, After(env, cfg, run[..i]).seen, env.sha256(signature), run[i].now).1
  }

  /** The instance's set is the set those calls make. */
  lemma {:induction false} SeenIsCalls(env: Env, cfg: Config, run: Run, n: nat)
    requires n <= |run|
    ensures After(env, cfg, run[..n]).seen == TtlSet.After(SEEN, SeenCalls(env, cfg, run, n))
  {
    if n > 0 {
      var before, calls := After(env, cfg, run[..n - 1]), SeenCalls(env, cfg, run, n - 1);
      var key := SeenKeys(env, cfg, run)(n - 1);
      SeenIsCalls(env, cfg, run, n - 1);
      AfterNext(env, cfg, run, n - 1);
      assert key == Hashed(env, Presented(env, cfg, before.tables.users, run[n - 1]));
      assert SeenCalls(env, cfg, run, n) == calls + CallOf(key, run[n - 1].now);
      hide Step, After, Presented, SetAfter, CallOf, SeenKeys, SeenCalls, Hashed;
      StepSeen(env, cfg, before, run[n - 1]);
      LastCall(SEEN, calls, key, run[n - 1].now);
    }
  }

  lemma UseIsTaken(env: Env, cfg: Config, run: Run, i: nat, signature: string)
    requires i < |run| && Uses(env, cfg, run, i, signature)
    ensures Takes(SEEN, SeenKeys(env, cfg, run), run, i, env.sha256(signature))
  {
    hide PresentedAt, After, TtlSet.AddTo, TtlSet.After, Calls;
    SeenIsCalls(env, cfg, run, i);
  }

  /** A signature authenticates a second time only after ten minutes, or after
      250,000 other signatures. */
  lemma UsedAgain(env: Env, cfg: Config, run: Run, i: nat, j: nat, signature: string)
    requires Clocked(run) && i < j < |run|
    requires Uses(env, cfg, run, i, signature) && Uses(env, cfg, run, j, signature)
    ensures var calls := SeenCalls(env, cfg, run, |run|);
            var k, l := |SeenCalls(env, cfg, run, i)|, |SeenCalls(env, cfg, run, j)|;
            && k < l < |calls|
            && (run[j].now - run[i].now >= 600 * SECOND || |TtlSet.OthersSince(SEEN, calls, k, l)| >= 250_000)
            && (TtlSet.NoFill(SEEN, calls) ==> run[j].now - run[i].now > 600 * SECOND)
  {
    UseIsTaken(env, cfg, run, i, signature);
    UseIsTaken(env, cfg, run, j, signature);
    TakenAgain(SEEN, SeenKeys(env, cfg, run), run, i, j, env.sha256(signature));
    hide SeenKeys, Calls, Uses, Takes, Clocked, TtlSet.NoFill, TtlSet.OthersSince;
  }

  /** A denied request is always refused. */
  lemma AuthenticatedServed(env: Env, cfg: Config, s: Instance, e: Event)
    requires HasHeader(e.request) && !Step(env, cfg, s, e).1.Fail?
    ensures var shown := Presented(env, cfg, s.tables.users, e);
            shown.Some? && TtlSet.AddTo(SEEN, s.seen, env.sha256(shown.value.0), e.now).1
  {
    var rt, h := RouteOf(e.request), e.request.header;
    RoutedStep(env, cfg, s, e);
    AuthenticateSeen(env, s, rt.method_, rt.path, h, rt.body, e.now);
    ShownIsHeader(env, s.tables.users, rt.method_, rt.path, h, rt.body, e.now);
    hide Step, Authenticate, Shown, TtlSet.AddTo;
  }

  lemma ShownIsHeader(env: Env, users: Store.Users, method_: string, path: string, h: Header, body: Option<string>, now: nat)
    ensures var shown := Shown(env, users, method_, path, h, body, now); shown.Some? ==> shown.value.0 == h.signature
  {
    hide AuthChecks;
  }

  lemma RegisterRefusals(env: Env, cfg: Config, b: Registration, now: nat)
    ensures var refusal := RegisterChecks(env, cfg, b, now); refusal.Some? ==> refusal.value.Fail?
  {
    hide PowOk, InWindow, ValidKEM, ValidUsername, IsReserved, Signed.RegisterMessage;
  }

  lemma RegisteredServed(env: Env, cfg: Config, s: Instance, b: Registration, now: nat)
    requires !Register(env, cfg, s, b, now).1.Fail?
    ensures RegisterChecks(env, cfg, b, now).None? && TtlSet.AddTo(SEEN, s.seen, env.sha256(b.signature), now).1
  {
    MarkFreshSeen(env, s, b.signature, b.pow, now);
    RegisterRefusals(env, cfg, b, now);
    hide MarkFresh, RegisterChecks, TtlSet.AddTo;
  }

  /** Every registration and every request with a signed header that is not refused used
      its signature up. */
  lemma ServedUses(env: Env, cfg: Config, run: Run, i: nat)
    requires i < |run| && (run[i].request.RegisterUser? || HasHeader(run[i].request))
    requires !Step(env, cfg, After(env, cfg, run[..i]), run[i]).1.Fail?
    ensures PresentedAt(env, cfg, run, i).Some? && Uses(env, cfg, run, i, PresentedAt(env, cfg, run, i).value.0)
  {
    var s, e := After(env, cfg, run[..i]), run[i];
    hide After, Register, TtlSet.AddTo, RegisterChecks;
    if e.request.RegisterUser? {
      RegisteredServed(env, cfg, s, e.request.form, e.now);
    } else {
      AuthenticatedServed(env, cfg, s, e);
      hide Step, Presented;
    }
  }
}
