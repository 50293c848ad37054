/**
 Proof-of-work tokens over the runs of a whole instance: which requests spend
 one, and that a token pays once.
 */
module PowRuns {
  import opened Text
  import opened Handlers
  import opened Invariants
  import opened SetRuns
  import Addresses
  import Pow
  import Replay
  import Store
  import TtlSet

  /** The token a request spends; `None` when it fails before that point. */
  function Paid(env: Env, cfg: Config, s: Instance, e: Event): Option<string> {
    match e.request
    case RegisterUser(b) =>
      if RegisterChecks(env, cfg, b, e.now).None? && NewSignature(env, s, b.signature, e.now) then Some(b.pow) else None
    case SendMail(m) => if Ready(env, cfg, s, m, e.remote, e.now) then Some(m.pow) else None
    case LookUp(_) => None
    case _ =>
      var rt := RouteOf(e.request);
      PaidInHeader(env, s, rt.method_, rt.path, e.request.header, rt.body, e.now)
  }

  predicate NewSignature(env: Env, s: Instance, signature: string, now: nat) {
    TtlSet.AddTo(SEEN, s.seen, env.sha256(signature), now).1
  }

  function PaidInHeader(env: Env, s: Instance, method_: string, path: string, h: Header, body: Option<string>, now: nat)
    : Option<string>
  {
    if AuthChecks(env, s.tables.users, method_, path, h, body, now).User? && NewSignature(env, s, h.signature, now) then
      Some(h.pow)
    else None
  }

  /** A submission whose form and keys are good and whose sender is not blocked. */
  predicate Passed(env: Env, cfg: Config, s: Instance, m: Submission, remote: Remote, now: nat) {
    var form := CheckForm(env, cfg, m, now);
    && form.GoodForm?
    && CheckKeys(env, cfg, s.tables.users, s.cache, form.sender, form.recipient, form.fields, m.signature,
                 remote, now).1.Signer?
    && !BlockedBy(s.tables, form.recipient, form.sender)
  }

  /** A submission that passed every check before its token is spent. */
  predicate Ready(env: Env, cfg: Config, s: Instance, m: Submission, remote: Remote, now: nat) {
    var form := CheckForm(env, cfg, m, now);
    && Passed(env, cfg, s, m, remote, now)
    && env.sha256(m.signature) !in s.tables.mail
    && (form.fields.encReplyTo != "" && !form.recipient.own ==> ReplyRefusal(remote.level).None?)
  }

  function Key(env: Env, token: Option<string>): Option<string> {
    match token
    case None => None
    case Some(t) => Some(env.sha256(t))
  }

  /** The set after a request that spent a token, or none. */
  function SpentAfter(env: Env, spent: TtlSet.State, token: Option<string>, now: nat): TtlSet.State {
    SetAfter(SPENT, spent, Key(env, token), now)
  }

  predicate NewToken(env: Env, s: Instance, token: string, now: nat) {
    TtlSet.AddTo(SPENT, s.spent, env.sha256(token), now).1
  }

  lemma MarkFreshSpent(env: Env, s: Instance, signature: string, pow: string, now: nat)
    ensures var paid := if NewSignature(env, s, signature, now) then Some(pow) else None;
            var (s', isNew) := MarkFresh(env, s, signature, pow, now);
            && s'.spent == SpentAfter(env, s.spent, paid, now)
            && (isNew ==> paid.Some? && NewToken(env, s, pow, now))
  {
    hide TtlSet.AddTo;
  }

  lemma Untouched(env: Env, spent: TtlSet.State, now: nat)
    ensures SpentAfter(env, spent, None, now) == spent
  {
  }

  lemma AuthenticateSpent(env: Env, s: Instance, method_: string, path: string, h: Header, body: Option<string>, now: nat)
    ensures var paid := PaidInHeader(env, s, method_, path, h, body, now);
            var (s', auth) := Authenticate(env, s, method_, path, h, body, now);
            && s'.spent == SpentAfter(env, s.spent, paid, now)
            && (auth.User? ==> paid == Some(h.pow) && NewToken(env, s, h.pow, now))
  {
    MarkFreshSpent(env, s, h.signature, h.pow, now);
    Untouched(env, s.spent, now);
    hide MarkFresh, AuthChecks, NewSignature, NewToken, SpentAfter;
  }

  lemma RegisterSpent(env: Env, cfg: Config, s: Instance, b: Registration, now: nat)
    ensures Register(env, cfg, s, b, now).0.spent
         == if RegisterChecks(env, cfg, b, now).None? then MarkFresh(env, s, b.signature, b.pow, now).0.spent else s.spent
  {
    hide MarkFresh, RegisterChecks, Store.UserCreated;
  }

  lemma FrontSpent(env: Env, cfg: Config, s: Instance, m: Submission, remote: Remote, now: nat)
    ensures var paid := if Ready(env, cfg, s, m, remote, now) then Some(m.pow) else None;
            var (s', front) := SendFront(env, cfg, s, m, remote, now);
            && s'.spent == SpentAfter(env, s.spent, paid, now)
            && (front.Accept? ==> paid.Some? && NewToken(env, s, m.pow, now))
  {
    hide CheckForm, CheckKeys, BlockedBy, TtlSet.AddTo, ReplyRefusal;
  }

  lemma SendSpent(env: Env, cfg: Config, s: Instance, m: Submission, remote: Remote, now: nat, ids: seq<string>)
    ensures Send(env, cfg, s, m, remote, now, ids).0.spent == SendFront(env, cfg, s, m, remote, now).0.spent
  {
    hide SendFront, Store.InsertFrom, MailRow, RelayRefusal;
  }

  /** A step touches the set of spent tokens at most once, with the token paid. */
  lemma StepSpent(env: Env, cfg: Config, s: Instance, e: Event)
    ensures Step(env, cfg, s, e).0.spent == SpentAfter(env, s.spent, Paid(env, cfg, s, e), e.now)
  {
    hide Register, Send, Burn, Block, Unblock, Rotate, Destroy, ListedMail, GottenMail, ListedBlocks, LookedUp,
      Authenticate, RegisterChecks, MarkFresh, SendFront,
      PaidInHeader, NewSignature, Ready, SetAfter;
    match e.request
    case RegisterUser(b) =>
      RegisterSpent(env, cfg, s, b, e.now);
      MarkFreshSpent(env, s, b.signature, b.pow, e.now);
      Untouched(env, s.spent, e.now);
    case SendMail(m) =>
      SendSpent(env, cfg, s, m, e.remote, e.now, e.ids);
      FrontSpent(env, cfg, s, m, e.remote, e.now);
    case LookUp(name) =>
      LookUpFrame(cfg, s, name, e.remote, e.now);
      Untouched(env, s.spent, e.now);
    case _ =>
      var rt := RouteOf(e.request);
      RoutedStep(env, cfg, s, e);
      AuthenticateSpent(env, s, rt.method_, rt.path, e.request.header, rt.body, e.now);
      hide Step;
  }

  /******* Runs *******/

  function PaidAt(env: Env, cfg: Config, run: Run, i: nat): Option<string>
    requires i < |run|
  {
    Paid(env, cfg, After(env, cfg, run[..i]), run[i])
  }

  function SpentKeys(env: Env, cfg: Config, run: Run): KeyAt {
    (i: nat) => if i < |run| then Key(env, PaidAt(env, cfg, run, i)) else None
  }

  /** The calls the first `n` requests make to the set of spent tokens. */
  function SpentCalls(env: Env, cfg: Config, run: Run, n: nat): TtlSet.Run
    requires n <= |run|
  {
    Calls(SpentKeys(env, cfg, run), run, n)
  }

  /** The instance's set is the set those calls make. */
  lemma {:induction false} SpentIsCalls(env: Env, cfg: Config, run: Run, n: nat)
    requires n <= |run|
    ensures After(env, cfg, run[..n]).spent == TtlSet.After(SPENT, SpentCalls(env, cfg, run, n))
  {
    if n > 0 {
      var before, calls := After(env, cfg, run[..n - 1]), SpentCalls(env, cfg, run, n - 1);
      var key := SpentKeys(env, cfg, run)(n - 1);
      SpentIsCalls(env, cfg, run, n - 1);
      AfterNext(env, cfg, run, n - 1);
      assert key == Key(env, Paid(env, cfg, before, run[n - 1]));
      assert SpentCalls(env, cfg, run, n) == calls + CallOf(key, run[n - 1].now);
      hide Step, After, Paid, SetAfter, CallOf, SpentKeys, SpentCalls, Key;
      StepSpent(env, cfg, before, run[n - 1]);
      LastCall(SPENT, calls, key, run[n - 1].now);
    }
  }

  /** Request `i` paid with this token, and the set took it. */
  ghost predicate Pays(env: Env, cfg: Config, run: Run, i: nat, token: string)
    requires i < |run|
  {
    PaidAt(env, cfg, run, i) == Some(token) && NewToken(env, After(env, cfg, run[..i]), token, run[i].now)
  }

  lemma PaymentIsTaken(env: Env, cfg: Config, run: Run, i: nat, token: string)
    requires i < |run| && Pays(env, cfg, run, i, token)
    ensures Takes(SPENT, SpentKeys(env, cfg, run), run, i, env.sha256(token))
  {
    hide PaidAt, After, TtlSet.AddTo, TtlSet.After, Calls;
    SpentIsCalls(env, cfg, run, i);
  }

  /** The day a token bears, the third of its fields. */
  function DayOf(env: Env, token: string): Option<int> {
    var parts := Split(token, ':');
    if |parts| < 3 then None else env.pow.dayOf(parts[2])
  }

  predicate FreshAt(env: Env, token: string, now: nat) {
    DayOf(env, token).Some? && Replay.FreshDay(SECOND, now, DayOf(env, token).value)
  }

  lemma PowIsFresh(env: Env, token: string, resource: string, now: nat)
    requires PowOk(env, token, resource, now)
    ensures FreshAt(env, token, now)
  {
    hide Pow.Middle, Pow.Small;
  }

  lemma ReadyIsFresh(env: Env, cfg: Config, m: Submission, now: nat)
    requires CheckForm(env, cfg, m, now).GoodForm?
    ensures FreshAt(env, m.pow, now)
  {
    hide PowOk, InWindow, Addresses.ParseAddress;
    PowIsFresh(env, m.pow, m.sender, now);
  }

  lemma RegistrationIsFresh(env: Env, cfg: Config, b: Registration, now: nat)
    requires RegisterChecks(env, cfg, b, now).None?
    ensures FreshAt(env, b.pow, now)
  {
    hide PowOk, InWindow, ValidKEM, IsReserved, Verifies;
    PowIsFresh(env, b.pow, b.username, now);
  }

  lemma HeaderIsFresh(env: Env, users: Store.Users, method_: string, path: string, h: Header, body: Option<string>, now: nat)
    requires AuthChecks(env, users, method_, path, h, body, now).User?
    ensures FreshAt(env, h.pow, now)
  {
    hide PowOk, InWindow, Verifies, HeaderText;
    PowIsFresh(env, h.pow, h.username, now);
  }

  /** Only a token of yesterday, today or tomorrow gets as far as being spent. */
  lemma PaidIsFresh(env: Env, cfg: Config, s: Instance, e: Event)
    requires Paid(env, cfg, s, e).Some?
    ensures FreshAt(env, Paid(env, cfg, s, e).value, e.now)
  {
    hide RegisterChecks, AuthChecks, CheckForm, CheckKeys, BlockedBy, ReplyRefusal, NewSignature, FreshAt;
    match e.request
    case RegisterUser(b) => RegistrationIsFresh(env, cfg, b, e.now);
    case SendMail(m) => ReadyIsFresh(env, cfg, m, e.now);
    case LookUp(_) =>
    case _ =>
      var rt := RouteOf(e.request);
      HeaderIsFresh(env, s.tables.users, rt.method_, rt.path, e.request.header, rt.body, e.now);
  }

  lemma FreshWithinThreeDays(env: Env, token: string, now: nat, later: nat)
    requires FreshAt(env, token, now) && FreshAt(env, token, later)
    ensures later - now < 72 * 3600 * SECOND
  {
    var d := DayOf(env, token).value;
    hide DayOf;
    Replay.FreshDaySpan(SECOND, now, d);
    Replay.FreshDaySpan(SECOND, later, d);
  }

  /** In every run, whatever the requests: a token pays again only when at least
      250,000 other tokens were taken since, and no later than 72 hours after. */
  lemma PaysAgain(env: Env, cfg: Config, run: Run, i: nat, j: nat, token: string)
    requires Clocked(run) && i < j < |run|
    requires Pays(env, cfg, run, i, token) && Pays(env, cfg, run, j, token)
    ensures var calls := SpentCalls(env, cfg, run, |run|);
            var k, l := |SpentCalls(env, cfg, run, i)|, |SpentCalls(env, cfg, run, j)|;
            && k < l < |calls|
            && run[j].now - run[i].now < 259_200_000_000_000
            && |TtlSet.OthersSince(SPENT, calls, k, l)| >= 250_000
  {
    PaidIsFresh(env, cfg, After(env, cfg, run[..i]), run[i]);
    PaidIsFresh(env, cfg, After(env, cfg, run[..j]), run[j]);
    hide SpentKeys, Calls, Paid, FreshAt, After, NewToken, Takes, Clocked, TtlSet.NoFill, TtlSet.OthersSince;
    FreshWithinThreeDays(env, token, run[i].now, run[j].now);
    PaymentIsTaken(env, cfg, run, i, token);
    PaymentIsTaken(env, cfg, run, j, token);
    TakenAgain(SPENT, SpentKeys(env, cfg, run), run, i, j, env.sha256(token));
  }

  /** In every run, whatever the requests: as long as no generation of the set
      fills up, no token pays for two of them. */
  lemma TokenPaysOnce(env: Env, cfg: Config, run: Run, i: nat, j: nat, token: string)
    requires Clocked(run) && i < j < |run| && Pays(env, cfg, run, i, token)
    requires TtlSet.NoFill(SPENT, SpentCalls(env, cfg, run, |run|))
    ensures !Pays(env, cfg, run, j, token)
  {
    if Pays(env, cfg, run, j, token) {
      PaidTwice(env, cfg, run, i, j, token);
      PaidIsFresh(env, cfg, After(env, cfg, run[..i]), run[i]);
      PaidIsFresh(env, cfg, After(env, cfg, run[..j]), run[j]);
      hide Paid, FreshAt, After, SpentCalls, NewToken;
      FreshWithinThreeDays(env, token, run[i].now, run[j].now);
      assert false;
    }
  }

  lemma PaidTwice(env: Env, cfg: Config, run: Run, i: nat, j: nat, token: string)
    requires Clocked(run) && i < j < |run|
    requires Pays(env, cfg, run, i, token) && Pays(env, cfg, run, j, token)
    requires TtlSet.NoFill(SPENT, SpentCalls(env, cfg, run, |run|))
    ensures run[j].now - run[i].now > 72 * 3600 * SECOND
  {
    hide SpentKeys, Calls, Pays, Takes, Clocked, TtlSet.NoFill, TtlSet.OthersSince;
    PaymentIsTaken(env, cfg, run, i, token);
    PaymentIsTaken(env, cfg, run, j, token);
    TakenAgain(SPENT, SpentKeys(env, cfg, run), run, i, j, env.sha256(token));
  }

  /******* What is paid for *******/

  /** A mail is stored only for a token. */
  lemma StoredIsPaid(env: Env, cfg: Config, s: Instance, m: Submission, remote: Remote, now: nat, ids: seq<string>)
    requires Send(env, cfg, s, m, remote, now, ids).0.tables != s.tables
    ensures Ready(env, cfg, s, m, remote, now) && NewToken(env, s, m.pow, now)
  {
    FrontFrame(env, cfg, s, m, remote, now);
    FrontSpent(env, cfg, s, m, remote, now);
    hide SendFront, Store.InsertFrom, MailRow, RelayRefusal, Ready, NewToken;
  }

  lemma RegisteredIsPaid(env: Env, cfg: Config, s: Instance, b: Registration, now: nat)
    requires Register(env, cfg, s, b, now).0.tables != s.tables
    ensures RegisterChecks(env, cfg, b, now).None? && NewSignature(env, s, b.signature, now) && NewToken(env, s, b.pow, now)
  {
    MarkFreshFrame(env, s, b.signature, b.pow, now);
    MarkFreshSpent(env, s, b.signature, b.pow, now);
    hide MarkFresh, RegisterChecks, NewSignature, NewToken, SpentAfter;
  }

  /** A request with a signed header that is not refused, reads included, paid. */
  lemma HeaderIsPaid(env: Env, cfg: Config, s: Instance, e: Event)
    requires HasHeader(e.request)
    requires !Step(env, cfg, s, e).1.Fail? || Step(env, cfg, s, e).0.tables != s.tables
    ensures Paid(env, cfg, s, e).Some? && NewToken(env, s, Paid(env, cfg, s, e).value, e.now)
  {
    var rt, h := RouteOf(e.request), e.request.header;
    RoutedStep(env, cfg, s, e);
    AuthenticateSpent(env, s, rt.method_, rt.path, h, rt.body, e.now);
    hide Step, Authenticate, PaidInHeader, NewToken, SpentAfter;
  }

  /** Every request that changes a table paid with its token, and so did every read of a
      user's own mail or blocks that was answered. */
  lemma ChangesArePaid(env: Env, cfg: Config, run: Run, i: nat)
    requires i < |run|
    requires var s := After(env, cfg, run[..i]);
             var (s', r) := Step(env, cfg, s, run[i]);
             s'.tables != s.tables || (HasHeader(run[i].request) && !r.Fail?)
    ensures PaidAt(env, cfg, run, i).Some? && Pays(env, cfg, run, i, PaidAt(env, cfg, run, i).value)
  {
    var s, e := After(env, cfg, run[..i]), run[i];
    hide After, Register, Send, RegisterChecks, Ready, NewSignature, NewToken;
    if e.request.RegisterUser? {
      RegisteredIsPaid(env, cfg, s, e.request.form, e.now);
    } else if e.request.SendMail? {
      StoredIsPaid(env, cfg, s, e.request.submission, e.remote, e.now, e.ids);
    } else if e.request.LookUp? {
      LookUpFrame(cfg, s, e.request.name, e.remote, e.now);
    } else {
      HeaderIsPaid(env, cfg, s, e);
      hide Step, Paid;
    }
  }
}
