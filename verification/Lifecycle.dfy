/**
 What the invariant says of whole runs: the life of an account, and the life of
 a stored mail.
 */
module Lifecycle {
  import opened Text
  import opened Addresses
  import opened Handlers
  import opened Invariants
  import Signed
  import Store
  import TtlSet

  /******* Stored mail *******/

  /** Every stored mail of every run: its signature is its own; it has a local
      party; a local sender's key of today verifies it; a local recipient's key
      of today is the one it was encrypted to. */
  lemma StoredMail(env: Env, cfg: Config, run: Run, h: string)
    requires var s := After(env, cfg, run); h in s.tables.mail
    ensures var s := After(env, cfg, run);
            var m := s.tables.mail[h];
            && h in s.origin
            && var f := s.origin[h].fields;
            var a, b := ParseAddress(f.sender, cfg.domain), ParseAddress(f.recipient, cfg.domain);
            && a.Ok? && b.Ok? && m.sender == Stored(a.address) && m.recipient == Stored(b.address)
            && (forall g :: g in s.tables.mail && g != h ==>
                  s.tables.mail[g].signature != m.signature && s.tables.mail[g].id != m.id)
            && (m.sender in s.tables.users || m.recipient in s.tables.users)
            && (a.address.own ==>
                  m.sender in s.tables.users && Verifies(env, s.tables.users[m.sender].sig, Signed.MailMessage(f), m.signature))
            && (b.address.own ==>
                  m.recipient in s.tables.users && Fingerprint(env, s.tables.users[m.recipient].kem) == f.fingerprint)
  {
    RunKeeps(env, cfg, run);
    var s := After(env, cfg, run);
    hide After;
    assert RowOk(env, cfg, s, h);
    OwnStoredBare(s.origin[h].fields.sender, cfg.domain);
    OwnStoredBare(s.origin[h].fields.recipient, cfg.domain);
    forall g | g in s.tables.mail && g != h
      ensures s.tables.mail[g].signature != s.tables.mail[h].signature && s.tables.mail[g].id != s.tables.mail[h].id
    {
      assert RowOk(env, cfg, s, g);
    }
    hide ParseAddress, Stored, RowOk, MailOk, UsersOk, BlocksOk, Verifies, Fingerprint, Signed.MailMessage;
  }

  /** A submission that is not answered 201 changes no table. */
  lemma FailedSendStoresNothing(env: Env, cfg: Config, s: Instance, m: Submission, remote: Remote, now: nat,
                                ids: seq<string>)
    requires Status(Send(env, cfg, s, m, remote, now, ids).1) != 201
    ensures Send(env, cfg, s, m, remote, now, ids).0.tables == s.tables
  {
    var (s1, front) := SendFront(env, cfg, s, m, remote, now);
    FrontFrame(env, cfg, s, m, remote, now);
    hide SendFront;
    if front.Accept? {
      InsertedRow(s1.tables.mail, env.sha256(m.signature),
                  MailRow(m, front.sender, front.recipient, front.origin, now), ids);
      hide Store.InsertFrom, MailRow;
    }
  }

  /** One answered 201 names the row with its signature: the one stored before,
      when there is one, and then nothing is stored again. */
  lemma SentIsStored(env: Env, cfg: Config, s: Instance, m: Submission, remote: Remote, now: nat, ids: seq<string>)
    requires Send(env, cfg, s, m, remote, now, ids).1.Created?
    ensures var (s', r) := Send(env, cfg, s, m, remote, now, ids);
            var h := env.sha256(m.signature);
            && h in s'.tables.mail && s'.tables.mail[h].id == r.id
            && (h in s.tables.mail ==> s'.tables == s.tables)
            && (forall g :: g != h ==> (g in s'.tables.mail <==> g in s.tables.mail))
            && (forall g :: g in s.tables.mail ==> s'.tables.mail[g] == s.tables.mail[g])
  {
    hide SendFront, Store.InsertFrom, MailRow;
    var (s1, front) := SendFront(env, cfg, s, m, remote, now);
    FrontFrame(env, cfg, s, m, remote, now);
    if front.Accept? {
      InsertedRow(s1.tables.mail, env.sha256(m.signature),
                  MailRow(m, front.sender, front.recipient, front.origin, now), ids);
    } else {
      AnswerIsStored(env, cfg, s, m, remote, now);
    }
  }

  lemma AnswerIsStored(env: Env, cfg: Config, s: Instance, m: Submission, remote: Remote, now: nat)
    requires SendFront(env, cfg, s, m, remote, now).1.Answer?
    requires SendFront(env, cfg, s, m, remote, now).1.response.Created?
    ensures var h := env.sha256(m.signature);
            h in s.tables.mail && s.tables.mail[h].id == SendFront(env, cfg, s, m, remote, now).1.response.id
  {
    hide CheckForm, CheckKeys, BlockedBy, TtlSet.AddTo;
    FormCodes(env, cfg, m, now);
    var form := CheckForm(env, cfg, m, now);
    if form.GoodForm? {
      KeyCodes(env, cfg, s.tables.users, s.cache, form.sender, form.recipient, form.fields, m.signature, remote, now);
    }
  }

  /******* Accounts *******/

  /** No row ever goes, and the row of a destroyed account never changes. */
  ghost predicate AccountsKept(users: Store.Users, users': Store.Users) {
    forall u :: u in users ==>
      && u in users' && users'[u].createdAt == users[u].createdAt
      && (Destroyed(users[u]) ==> users'[u] == users[u])
  }

  lemma KeptTransitively(a: Store.Users, b: Store.Users, c: Store.Users)
    requires AccountsKept(a, b) && AccountsKept(b, c)
    ensures AccountsKept(a, c)
  {
  }

  /** Only three requests touch the accounts, and each only one of them. */
  lemma RegisterUsers(env: Env, cfg: Config, s: Instance, b: Registration, now: nat)
    ensures AccountsKept(s.tables.users, Register(env, cfg, s, b, now).0.tables.users)
  {
    MarkFreshFrame(env, s, b.signature, b.pow, now);
    hide MarkFresh, RegisterChecks, Lower;
  }

  lemma RotateUsers(env: Env, s: Instance, h: Header, body: string, keys: Option<(string, string)>, now: nat)
    ensures AccountsKept(s.tables.users, Rotate(env, s, h, body, keys, now).0.tables.users)
  {
    AuthenticateFrame(env, s, "POST", "/api/rotate", h, Some(body), now);
    var (s1, auth) := Authenticate(env, s, "POST", "/api/rotate", h, Some(body), now);
    hide Authenticate, ValidKEM;
    assert auth.User? ==> auth.name == h.username;
  }

  lemma DestroyUsers(env: Env, s: Instance, h: Header, now: nat)
    ensures AccountsKept(s.tables.users, Destroy(env, s, h, now).0.tables.users)
  {
    AuthenticateFrame(env, s, "DELETE", "/api/destroy", h, None, now);
    var (s1, auth) := Authenticate(env, s, "DELETE", "/api/destroy", h, None, now);
    hide Authenticate;
    assert auth.User? ==> auth.name == h.username;
  }

  lemma OtherUsers(env: Env, cfg: Config, s: Instance, e: Event)
    requires e.request.BurnMail? || e.request.BlockTarget? || e.request.UnblockTarget? || Reads(e.request)
    ensures Step(env, cfg, s, e).0.tables.users == s.tables.users
  {
    hide Authenticate, TargetOf, Stored, Store.MailDeleted, LookedUp;
    if Reads(e.request) {
      ReadsFrame(env, cfg, s, e);
      hide Step;
    } else {
      var rt := RouteOf(e.request);
      AuthenticateFrame(env, s, rt.method_, rt.path, e.request.header, rt.body, e.now);
    }
  }

  lemma StepAccounts(env: Env, cfg: Config, s: Instance, e: Event)
    ensures AccountsKept(s.tables.users, Step(env, cfg, s, e).0.tables.users)
  {
    if e.request.BurnMail? || e.request.BlockTarget? || e.request.UnblockTarget? || Reads(e.request) {
      OtherUsers(env, cfg, s, e);
    } else if e.request.SendMail? {
      SendFrame(env, cfg, s, e.request.submission, e.remote, e.now, e.ids);
    } else if e.request.RegisterUser? {
      RegisterUsers(env, cfg, s, e.request.form, e.now);
    } else if e.request.RotateKeys? {
      RotateUsers(env, s, e.request.header, e.request.body, e.request.keys, e.now);
    } else {
      DestroyUsers(env, s, e.request.header, e.now);
    }
    hide Register, Send, Rotate, Destroy, Burn, Block, Unblock, ListedMail, GottenMail, ListedBlocks, LookedUp;
  }

  /** Over any stretch of a run: names stay taken, destroyed accounts stay as
      they are. */
  lemma {:induction false} AccountsInRun(env: Env, cfg: Config, run: Run, n: nat, m: nat)
    requires n <= m <= |run|
    ensures AccountsKept(After(env, cfg, run[..n]).tables.users, After(env, cfg, run[..m]).tables.users)
  {
    hide After, Step;
    if n < m {
      AccountsInRun(env, cfg, run, n, m - 1);
      AfterNext(env, cfg, run, m - 1);
      var s, t := After(env, cfg, run[..m - 1]), After(env, cfg, run[..m]);
      StepAccounts(env, cfg, s, run[m - 1]);
      assert t == Step(env, cfg, s, run[m - 1]).0;
      KeptTransitively(After(env, cfg, run[..n]).tables.users, s.tables.users, t.tables.users);
    }
  }

  /** Did call `i` of the run register `name`? */
  ghost predicate Registers(env: Env, cfg: Config, run: Run, i: nat, name: string)
    requires i < |run|
  {
    && run[i].request.RegisterUser? && run[i].request.form.username == name
    && Step(env, cfg, After(env, cfg, run[..i]), run[i]).1 == Done(201)
  }

  lemma RegisteredIsNew(env: Env, cfg: Config, s: Instance, b: Registration, now: nat)
    requires Register(env, cfg, s, b, now).1 == Done(201)
    ensures !Store.Taken(s.tables.users, b.username)
    ensures Register(env, cfg, s, b, now).0.tables.users == s.tables.users[b.username := Store.User(b.kem, b.sig, now / SECOND)]
  {
    MarkFreshFrame(env, s, b.signature, b.pow, now);
    hide MarkFresh, PowOk, InWindow, ValidKEM, ValidUsername, IsReserved, Signed.RegisterMessage;
  }

  /** No name is ever registered twice, in any spelling, destroyed or not. */
  lemma RegisteredOnce(env: Env, cfg: Config, run: Run, i: nat, j: nat, a: string, b: string)
    requires i < j < |run| && Registers(env, cfg, run, i, a) && Registers(env, cfg, run, j, b)
    ensures Lower(a) != Lower(b)
  {
    var s, t := After(env, cfg, run[..i]), After(env, cfg, run[..j]);
    AfterNext(env, cfg, run, i);
    AccountsInRun(env, cfg, run, i + 1, j);
    hide After;
    RegisteredIsNew(env, cfg, s, run[i].request.form, run[i].now);
    RegisteredIsNew(env, cfg, t, run[j].request.form, run[j].now);
    hide Register;
    assert a in After(env, cfg, run[..i + 1]).tables.users;
    assert a in t.tables.users;
  }
}
