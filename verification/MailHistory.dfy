/**
 The history of a mail row: which request put it there, and that nothing but its
 own parties' signed requests takes it away.
 */
module MailHistory {
  import opened Text
  import opened Addresses
  import opened Handlers
  import opened Invariants
  import opened SignedRequests
  import Effects
  import Lifecycle
  import ReplayRuns
  import Store

  /******* One request *******/

  /** Does this request take row `m` away: burned by a party, or a party rotated or
      destroyed? */
  predicate Removes(env: Env, cfg: Config, s: Instance, e: Event, m: Store.Mail) {
    && Step(env, cfg, s, e).1 == Done(200)
    && match e.request
       case BurnMail(id, h) => id == m.id && Store.PartyTo(m, h.username)
       case RotateKeys(h, _, _) => Store.PartyTo(m, h.username)
       case DestroyAccount(h) => Store.PartyTo(m, h.username)
       case _ => false
  }

  /** Is row `h` still there, as it was? */
  predicate Keeps(s: Instance, s': Instance, h: string) {
    h in s.tables.mail && h in s'.tables.mail && s'.tables.mail[h] == s.tables.mail[h]
  }

  /** A row is gone after a request that removes it, and the same after any other. */
  lemma RowStep(env: Env, cfg: Config, s: Instance, e: Event, h: string)
    requires Inv(env, cfg, s) && h in s.tables.mail
    ensures var s' := Step(env, cfg, s, e).0;
            if Removes(env, cfg, s, e, s.tables.mail[h]) then h !in s'.tables.mail else Keeps(s, s', h)
  {
    hide Register, Send, Burn, Block, Unblock, Rotate, Destroy, ListedMail, GottenMail, ListedBlocks, LookedUp,
      Effects.Authorized, UsersOk, MailOk;
    match e.request
    case RegisterUser(form) => Effects.RegisteredExactly(env, cfg, s, form, e.now);
    case SendMail(m) => SendKeepsRow(env, cfg, s, m, e.remote, e.now, e.ids, h);
    case BurnMail(id, hd) => BurnRow(env, s, id, hd, e.now, h);
    case BlockTarget(hd, body, target) => Effects.BlockedExactly(env, cfg, s, hd, body, target, e.now);
    case UnblockTarget(hd, body, target) => Effects.UnblockedExactly(env, cfg, s, hd, body, target, e.now);
    case RotateKeys(hd, body, keys) => Effects.RotatedExactly(env, s, hd, body, keys, e.now);
    case DestroyAccount(hd) => Effects.DestroyedExactly(env, s, hd, e.now);
    case _ => ReadsFrame(env, cfg, s, e);
  }

  lemma SendKeepsRow(env: Env, cfg: Config, s: Instance, m: Submission, remote: Remote, now: nat, ids: seq<string>, h: string)
    requires h in s.tables.mail
    ensures Keeps(s, Send(env, cfg, s, m, remote, now, ids).0, h)
    ensures Send(env, cfg, s, m, remote, now, ids).1 != Done(200)
  {
    Effects.SendAnswers(env, cfg, s, m, remote, now, ids);
    if Send(env, cfg, s, m, remote, now, ids).1.Created? {
      Lifecycle.SentIsStored(env, cfg, s, m, remote, now, ids);
    } else {
      Lifecycle.FailedSendStoresNothing(env, cfg, s, m, remote, now, ids);
    }
    hide Send;
  }

  lemma BurnRow(env: Env, s: Instance, id: string, hd: Header, now: nat, h: string)
    requires IdsDistinct(s.tables.mail) && h in s.tables.mail
    ensures var (s', r) := Burn(env, s, id, hd, now);
            var m := s.tables.mail[h];
            if r == Done(200) && id == m.id && Store.PartyTo(m, hd.username) then h !in s'.tables.mail else Keeps(s, s', h)
  {
    Effects.BurnedExactly(env, s, id, hd, now);
    hide Burn, Effects.Authorized, Store.PartyTo;
  }

  /** Only the submission with this signature makes a new row of this reference. */
  lemma NewRowStep(env: Env, cfg: Config, s: Instance, e: Event, h: string)
    requires Inv(env, cfg, s) && h !in s.tables.mail && h in Step(env, cfg, s, e).0.tables.mail
    ensures e.request.SendMail? && env.sha256(e.request.submission.signature) == h && Step(env, cfg, s, e).1.Created?
  {
    hide Register, Send, Burn, Block, Unblock, Rotate, Destroy, ListedMail, GottenMail, ListedBlocks, LookedUp,
      Effects.Authorized, UsersOk, MailOk;
    match e.request
    case RegisterUser(form) => Effects.RegisteredExactly(env, cfg, s, form, e.now);
    case SendMail(m) =>
      Effects.SendAnswers(env, cfg, s, m, e.remote, e.now, e.ids);
      if Send(env, cfg, s, m, e.remote, e.now, e.ids).1.Created? {
        Lifecycle.SentIsStored(env, cfg, s, m, e.remote, e.now, e.ids);
      } else {
        Lifecycle.FailedSendStoresNothing(env, cfg, s, m, e.remote, e.now, e.ids);
      }
    case BurnMail(id, hd) => Effects.BurnedExactly(env, s, id, hd, e.now);
    case BlockTarget(hd, body, target) => Effects.BlockedExactly(env, cfg, s, hd, body, target, e.now);
    case UnblockTarget(hd, body, target) => Effects.UnblockedExactly(env, cfg, s, hd, body, target, e.now);
    case RotateKeys(hd, body, keys) => Effects.RotatedExactly(env, s, hd, body, keys, e.now);
    case DestroyAccount(hd) => Effects.DestroyedExactly(env, s, hd, e.now);
    case _ => ReadsFrame(env, cfg, s, e);
  }

  /******* Every run *******/

  /** The instance before request `i` of a run. */
  function Before(env: Env, cfg: Config, run: Run, i: nat): Instance
    requires i <= |run|
  {
    After(env, cfg, run[..i])
  }

  predicate RemovesAt(env: Env, cfg: Config, run: Run, i: nat, row: Store.Mail)
    requires i < |run|
  {
    Removes(env, cfg, Before(env, cfg, run, i), run[i], row)
  }

  lemma RowAt(env: Env, cfg: Config, run: Run, i: nat, h: string)
    requires i < |run| && h in Before(env, cfg, run, i).tables.mail
    ensures var s, s' := Before(env, cfg, run, i), Before(env, cfg, run, i + 1);
            if RemovesAt(env, cfg, run, i, s.tables.mail[h]) then h !in s'.tables.mail else Keeps(s, s', h)
  {
    RunKeeps(env, cfg, run[..i]);
    AfterNext(env, cfg, run, i);
    hide After, Step, Removes, Inv;
    RowStep(env, cfg, After(env, cfg, run[..i]), run[i], h);
  }

  /** Nothing between requests `n` and `m` removes this row. */
  ghost predicate Undisturbed(env: Env, cfg: Config, run: Run, n: nat, m: nat, row: Store.Mail)
    requires m <= |run|
  {
    forall i :: n <= i < m ==> !RemovesAt(env, cfg, run, i, row)
  }

  /** No mail is lost: over any stretch of a run, a row stays as it is unless a request
      removes it. */
  lemma {:induction false} MailKept(env: Env, cfg: Config, run: Run, n: nat, m: nat, h: string)
    requires n <= m <= |run| && h in Before(env, cfg, run, n).tables.mail
    requires Undisturbed(env, cfg, run, n, m, Before(env, cfg, run, n).tables.mail[h])
    ensures Keeps(Before(env, cfg, run, n), Before(env, cfg, run, m), h)
  {
    hide Before, RemovesAt;
    if n < m {
      MailKept(env, cfg, run, n, m - 1, h);
      RowAt(env, cfg, run, m - 1, h);
    }
  }

  /** Request `i` stored the row of this reference. */
  predicate StoresAt(env: Env, cfg: Config, run: Run, i: nat, h: string)
    requires i < |run|
  {
    var s := Before(env, cfg, run, i);
    && run[i].request.SendMail? && env.sha256(run[i].request.submission.signature) == h
    && h !in s.tables.mail && Step(env, cfg, s, run[i]).1.Created?
  }

  lemma NewRowAt(env: Env, cfg: Config, run: Run, i: nat, h: string)
    requires i < |run| && h !in Before(env, cfg, run, i).tables.mail && h in Before(env, cfg, run, i + 1).tables.mail
    ensures StoresAt(env, cfg, run, i, h)
  {
    RunKeeps(env, cfg, run[..i]);
    AfterNext(env, cfg, run, i);
    hide After, Step, Inv;
    NewRowStep(env, cfg, After(env, cfg, run[..i]), run[i], h);
  }

  /** Request `i` stored row `h`, and nothing has removed it up to `n`. */
  ghost predicate StandsSince(env: Env, cfg: Config, run: Run, i: nat, n: nat, h: string)
    requires i < n <= |run|
  {
    && StoresAt(env, cfg, run, i, h) && h in Before(env, cfg, run, i + 1).tables.mail
    && Undisturbed(env, cfg, run, i + 1, n, Before(env, cfg, run, i + 1).tables.mail[h])
  }

  /** What the mail table holds after any run: exactly the rows that a submission
      answered 201 put there and that no party's request has removed since. */
  lemma RowHistory(env: Env, cfg: Config, run: Run, n: nat, h: string)
    requires n <= |run|
    ensures h in Before(env, cfg, run, n).tables.mail <==> exists i :: 0 <= i < n && StandsSince(env, cfg, run, i, n, h)
    ensures forall i :: 0 <= i < n && StandsSince(env, cfg, run, i, n, h) ==>
              Keeps(Before(env, cfg, run, i + 1), Before(env, cfg, run, n), h)
  {
    hide Before, StoresAt;
    forall i | 0 <= i < n && StandsSince(env, cfg, run, i, n, h)
      ensures Keeps(Before(env, cfg, run, i + 1), Before(env, cfg, run, n), h)
    {
      MailKept(env, cfg, run, i + 1, n, h);
    }
    if h in Before(env, cfg, run, n).tables.mail {
      StoredBySomeone(env, cfg, run, n, h);
    }
  }

  lemma NothingAtFirst(env: Env, cfg: Config, run: Run)
    ensures Before(env, cfg, run, 0).tables.mail == map[]
  {
    assert run[..0] == [];
  }

  lemma {:induction false} StoredBySomeone(env: Env, cfg: Config, run: Run, n: nat, h: string)
    requires n <= |run| && h in Before(env, cfg, run, n).tables.mail
    ensures exists i :: 0 <= i < n && StandsSince(env, cfg, run, i, n, h)
  {
    hide Before, StoresAt, RemovesAt;
    NothingAtFirst(env, cfg, run);
    if h in Before(env, cfg, run, n - 1).tables.mail {
      StoredBySomeone(env, cfg, run, n - 1, h);
      var i :| 0 <= i < n - 1 && StandsSince(env, cfg, run, i, n - 1, h);
      MailKept(env, cfg, run, i + 1, n - 1, h);
      RowAt(env, cfg, run, n - 1, h);
      assert StandsSince(env, cfg, run, i, n, h);
    } else {
      NewRowAt(env, cfg, run, n - 1, h);
      assert StandsSince(env, cfg, run, n - 1, n, h);
    }
  }

  /******* Who removes *******/

  /** The account that a signed request names signed it, with the key it had then. */
  ghost predicate SignedByNamed(env: Env, s: Instance, r: Request)
    requires HasHeader(r)
  {
    var h := r.header;
    && h.username in s.tables.users && ClaimOf(env, r).Some?
    && Verifies(env, s.tables.users[h.username].sig, TextOf(ClaimOf(env, r).value), h.signature)
  }

  /** Any signed request that is not refused, reads included, was signed by the account
      it names. */
  lemma DoneIsSigned(env: Env, cfg: Config, s: Instance, e: Event)
    requires HasHeader(e.request) && !Step(env, cfg, s, e).1.Fail?
    ensures SignedByNamed(env, s, e.request)
  {
    ReplayRuns.AuthenticatedServed(env, cfg, s, e);
    PresentedByNamed(env, cfg, s.tables.users, e);
    hide Step, ReplayRuns.Presented, TextOf, Verifies, ClaimOf;
  }

  /** So whoever removes a mail is a party to it and signed for it, with the key the
      account had at that time. */
  lemma RemovalIsSigned(env: Env, cfg: Config, run: Run, i: nat, row: Store.Mail)
    requires i < |run| && RemovesAt(env, cfg, run, i, row)
    ensures HasHeader(run[i].request) && Store.PartyTo(row, run[i].request.header.username)
    ensures SignedByNamed(env, Before(env, cfg, run, i), run[i].request)
  {
    hide Before, Step;
    DoneIsSigned(env, cfg, Before(env, cfg, run, i), run[i]);
  }

  /******* Whose keys change *******/

  /** Does this request give the account other keys, or none? */
  predicate Rekeys(env: Env, cfg: Config, s: Instance, e: Event, name: string) {
    && (e.request.RotateKeys? || e.request.DestroyAccount?) && e.request.header.username == name
    && Step(env, cfg, s, e).1 == Done(200)
  }

  lemma AccountStep(env: Env, cfg: Config, s: Instance, e: Event, name: string)
    requires name in s.tables.users && !Rekeys(env, cfg, s, e, name)
    ensures var s' := Step(env, cfg, s, e).0; name in s'.tables.users && s'.tables.users[name] == s.tables.users[name]
  {
    hide Register, Send, Burn, Block, Unblock, Rotate, Destroy, Effects.Authorized;
    match e.request
    case RegisterUser(form) => Effects.RegisteredExactly(env, cfg, s, form, e.now);
    case SendMail(m) => SendFrame(env, cfg, s, m, e.remote, e.now, e.ids);
    case RotateKeys(hd, body, keys) => Effects.RotatedExactly(env, s, hd, body, keys, e.now);
    case DestroyAccount(hd) => Effects.DestroyedExactly(env, s, hd, e.now);
    case _ =>
      Lifecycle.OtherUsers(env, cfg, s, e);
      hide Step;
  }

  /** Over any stretch of a run, an account has other keys only when a request in it
      was done that the account itself had signed, with the key it had then. */
  lemma {:induction false} KeysChangeSigned(env: Env, cfg: Config, run: Run, n: nat, m: nat, name: string)
    requires n <= m <= |run| && name in Before(env, cfg, run, n).tables.users
    ensures name in Before(env, cfg, run, m).tables.users
    ensures Before(env, cfg, run, m).tables.users[name] != Before(env, cfg, run, n).tables.users[name] ==>
              exists i :: n <= i < m && Rekeys(env, cfg, Before(env, cfg, run, i), run[i], name)
                && SignedByNamed(env, Before(env, cfg, run, i), run[i].request)
  {
    if n < m {
      AfterNext(env, cfg, run, m - 1);
      assert Before(env, cfg, run, m) == Step(env, cfg, Before(env, cfg, run, m - 1), run[m - 1]).0;
      KeysChangeSigned(env, cfg, run, n, m - 1, name);
      hide Before, Step, SignedByNamed;
      AccountIn(env, cfg, Before(env, cfg, run, m - 1), run[m - 1], name);
      if Rekeys(env, cfg, Before(env, cfg, run, m - 1), run[m - 1], name) {
        DoneIsSigned(env, cfg, Before(env, cfg, run, m - 1), run[m - 1]);
      } else {
        AccountStep(env, cfg, Before(env, cfg, run, m - 1), run[m - 1], name);
      }
    }
  }

  lemma AccountIn(env: Env, cfg: Config, s: Instance, e: Event, name: string)
    requires name in s.tables.users
    ensures name in Step(env, cfg, s, e).0.tables.users
  {
    Lifecycle.StepAccounts(env, cfg, s, e);
    hide Step;
  }
}
