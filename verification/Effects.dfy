/**
 What each request does, told without the order in which its handler looks at
 things: when exactly it succeeds, and what exactly it changes then.
 */
module Effects {
  import opened Text
  import opened Addresses
  import opened Handlers
  import opened Invariants
  import opened PowRuns
  import Signed
  import Pow
  import Store
  import TtlSet

  /******* Signatures, times and tokens, told without the handlers' own words *******/

  /** A decimal number of seconds, at most 300 away from the clock, which ticks in
      nanoseconds. */
  predicate InTime(timestamp: string, now: nat) {
    ParseInt(timestamp).Some? && -300 <= now / 1_000_000_000 - ParseInt(timestamp).value <= 300
  }

  /** A token minted for this resource, around today. */
  ghost predicate PaidFor(env: Env, token: string, resource: string, now: nat) {
    Pow.IsToken(env.pow, token, resource, now / 86_400_000_000_000)
  }

  predicate Signs(env: Env, key: string, text: string, signature: string) {
    env.parsesSig(key) && env.verify(key, text, signature)
  }

  /** A key for encryption: one that decodes to the 1184 bytes of ML-KEM-768. */
  predicate SealingKey(env: Env, kem: string) {
    env.decodeKem(kem).Some? && |env.decodeKem(kem).value| == 1184
  }

  lemma InTimeExact(timestamp: string, now: nat)
    ensures InWindow(timestamp, now) <==> InTime(timestamp, now)
  {
    hide ParseInt;
  }

  lemma PaidForExact(env: Env, token: string, resource: string, now: nat)
    ensures PowOk(env, token, resource, now) <==> PaidFor(env, token, resource, now)
  {
    assert Today(now) == now / 86_400_000_000_000;
    hide Pow.IsToken, Pow.VerifyPoW, Today;
    Pow.VerifyExact(env.pow, token, resource, Today(now));
  }

  lemma KeysAndSignatures(env: Env, key: string, text: string, signature: string)
    ensures Verifies(env, key, text, signature) <==> Signs(env, key, text, signature)
    ensures ValidKEM(env, key) <==> SealingKey(env, key)
  {
  }

  /******* Requests with signed headers *******/

  /** What a signed header covers. */
  function Covered(env: Env, method_: string, path: string, h: Header, body: Option<string>): string {
    method_ + ":" + path + ":" + h.username + ":" + h.timestamp
    + if body.Some? then ":" + env.sha256(body.value) else ""
  }

  /** The account the header names signed this very request, lately, and paid. */
  ghost predicate SignedBy(env: Env, users: Store.Users, method_: string, path: string, h: Header, body: Option<string>,
                           now: nat)
  {
    && h.username != "" && h.timestamp != "" && h.signature != "" && h.pow != ""
    && h.username in users && users[h.username].sig != ""
    && Signs(env, users[h.username].sig, Covered(env, method_, path, h, body), h.signature)
    && InTime(h.timestamp, now)
    && PaidFor(env, h.pow, h.username, now)
  }

  lemma CoveredExact(env: Env, method_: string, path: string, h: Header, body: Option<string>)
    ensures HeaderText(env, method_, path, h, body) == Covered(env, method_, path, h, body)
  {
    if body.Some? {
      Assoc(method_ + ":" + path + ":" + h.username + ":" + h.timestamp, ":", env.sha256(body.value));
    }
  }

  /** Neither the signature nor the token was used before. */
  predicate FirstUse(env: Env, s: Instance, signature: string, pow: string, now: nat) {
    NewSignature(env, s, signature, now) && NewToken(env, s, pow, now)
  }

  ghost predicate Authorized(env: Env, s: Instance, method_: string, path: string, h: Header, body: Option<string>, now: nat) {
    SignedBy(env, s.tables.users, method_, path, h, body, now) && FirstUse(env, s, h.signature, h.pow, now)
  }

  lemma ChecksExact(env: Env, users: Store.Users, method_: string, path: string, h: Header, body: Option<string>, now: nat)
    ensures AuthChecks(env, users, method_, path, h, body, now).User?
       <==> SignedBy(env, users, method_, path, h, body, now)
  {
    CoveredExact(env, method_, path, h, body);
    InTimeExact(h.timestamp, now);
    PaidForExact(env, h.pow, h.username, now);
    hide PowOk, InWindow, HeaderText, Covered, InTime, PaidFor;
  }

  /** A request is taken for the user's own exactly when it is authorized. */
  lemma AuthenticatedExact(env: Env, s: Instance, method_: string, path: string, h: Header, body: Option<string>, now: nat)
    ensures var (s', auth) := Authenticate(env, s, method_, path, h, body, now);
            && s'.tables == s.tables
            && (auth == User(h.username) <==> Authorized(env, s, method_, path, h, body, now))
            && (auth == User(h.username) || (auth.Denied? && auth.response.Fail?))
  {
    AuthenticateFrame(env, s, method_, path, h, body, now);
    ChecksExact(env, s.tables.users, method_, path, h, body, now);
    hide AuthChecks, SignedBy, TtlSet.AddTo;
  }

  /** A denied request gets 403 for a bad token, a bad time or a replay, and 401 for
      missing headers, an unknown or destroyed account or a bad signature; a bad
      token or time hides whether the account exists. */
  lemma DeniedExactly(env: Env, s: Instance, method_: string, path: string, h: Header, body: Option<string>, now: nat)
    ensures var auth := Authenticate(env, s, method_, path, h, body, now).1;
            var shown := h.username != "" && h.timestamp != "" && h.signature != "" && h.pow != "";
            var inTime := PaidFor(env, h.pow, h.username, now) && InTime(h.timestamp, now);
            var known := SignedBy(env, s.tables.users, method_, path, h, body, now);
            auth.Denied? ==>
              && auth.response.Fail?
              && (auth.response.code == 403 <==> shown && (!inTime || known))
              && (auth.response.code == 401 <==> !shown || (inTime && !known))
  {
    CoveredExact(env, method_, path, h, body);
    InTimeExact(h.timestamp, now);
    PaidForExact(env, h.pow, h.username, now);
    hide PowOk, InWindow, HeaderText, Covered, InTime, PaidFor, MarkFresh;
  }

  /** Every row but one, and that one as given. */
  ghost predicate OnlyRow(users: Store.Users, users': Store.Users, name: string, u: Store.User) {
    && users'.Keys == users.Keys + {name} && users'[name] == u
    && forall v :: v in users && v != name ==> users'[v] == users[v]
  }

  lemma RowSet(users: Store.Users, name: string, u: Store.User)
    ensures OnlyRow(users, users[name := u], name, u)
  {
  }

  /** Exactly the mail that names this user on neither side. */
  ghost predicate MailWithout(mail: Store.MailTable, mail': Store.MailTable, name: string) {
    && (forall g :: g in mail' <==> g in mail && mail[g].sender != name && mail[g].recipient != name)
    && (forall g :: g in mail' ==> mail'[g] == mail[g])
  }

  /** Rotation takes effect exactly when it is authorized and both keys are good;
      then the account has them, and its mail is gone. */
  lemma RotatedExactly(env: Env, s: Instance, h: Header, body: string, keys: Option<(string, string)>, now: nat)
    ensures var (s', r) := Rotate(env, s, h, body, keys, now);
            && (r == Done(200) <==>
                  && Authorized(env, s, "POST", "/api/rotate", h, Some(body), now)
                  && keys.Some? && keys.value.0 != "" && keys.value.1 != ""
                  && SealingKey(env, keys.value.0) && env.parsesSig(keys.value.1))
            && if r == Done(200) then
                 && h.username in s.tables.users
                 && var at := s.tables.users[h.username].createdAt;
                 && OnlyRow(s.tables.users, s'.tables.users, h.username, Store.User(keys.value.0, keys.value.1, at))
                 && MailWithout(s.tables.mail, s'.tables.mail, h.username)
                 && s'.tables.blocks == s.tables.blocks
               else r.Fail? && s'.tables == s.tables
  {
    AuthenticateFrame(env, s, "POST", "/api/rotate", h, Some(body), now);
    AuthenticatedExact(env, s, "POST", "/api/rotate", h, Some(body), now);
    hide Authenticate, Authorized;
  }

  /** Destruction: empty keys, no mail, and no block by or of the account. */
  lemma DestroyedExactly(env: Env, s: Instance, h: Header, now: nat)
    ensures var (s', r) := Destroy(env, s, h, now);
            && (r == Done(200) <==> Authorized(env, s, "DELETE", "/api/destroy", h, None, now))
            && if r == Done(200) then
                 && h.username in s.tables.users
                 && var at := s.tables.users[h.username].createdAt;
                 && OnlyRow(s.tables.users, s'.tables.users, h.username, Store.User("", "", at))
                 && MailWithout(s.tables.mail, s'.tables.mail, h.username)
                 && (forall k :: k in s'.tables.blocks <==>
                       k in s.tables.blocks && k.0 != h.username && k.1 != h.username)
                 && (forall k :: k in s'.tables.blocks ==> s'.tables.blocks[k] == s.tables.blocks[k])
               else r.Fail? && s'.tables == s.tables
  {
    AuthenticateFrame(env, s, "DELETE", "/api/destroy", h, None, now);
    AuthenticatedExact(env, s, "DELETE", "/api/destroy", h, None, now);
    hide Authenticate, Authorized;
  }

  /** Burning: only a party may, and what goes is the row it named. */
  lemma BurnedExactly(env: Env, s: Instance, id: string, h: Header, now: nat)
    requires IdsDistinct(s.tables.mail)
    ensures var (s', r) := Burn(env, s, id, h, now);
            && s'.tables == s.tables.(mail := s'.tables.mail)
            && (r == Done(200) <==>
                  && Authorized(env, s, "DELETE", "/api/mail/" + id, h, None, now)
                  && exists g :: g in s.tables.mail && s.tables.mail[g].id == id && Store.PartyTo(s.tables.mail[g], h.username))
            && if r == Done(200) then
                 exists g :: g in s.tables.mail && s.tables.mail[g].id == id
                   && Store.PartyTo(s.tables.mail[g], h.username) && s'.tables.mail == s.tables.mail - {g}
               else r.Fail? && s'.tables == s.tables
  {
    AuthenticateFrame(env, s, "DELETE", "/api/mail/" + id, h, None, now);
    AuthenticatedExact(env, s, "DELETE", "/api/mail/" + id, h, None, now);
    hide Authenticate, Authorized, Store.PartyTo;
    var mail := s.tables.mail;
    if exists g :: g in mail && mail[g].id == id && Store.PartyTo(mail[g], h.username) {
      var g :| g in mail && mail[g].id == id && Store.PartyTo(mail[g], h.username);
      assert Store.MailDeleted(mail, id, h.username).0 == mail - {g};
    }
  }

  predicate GoodTarget(cfg: Config, target: Option<string>) {
    target.Some? && target.value != "" && ParseBlockTarget(target.value, cfg.domain).Ok?
  }

  lemma TargetExact(cfg: Config, target: Option<string>)
    ensures var (t, refusal) := TargetOf(cfg, target);
            && (t.Some? <==> GoodTarget(cfg, target)) && (t.None? ==> refusal.Fail?)
            && (t.Some? ==> t.value == ParseBlockTarget(target.value, cfg.domain).address)
  {
    hide ParseBlockTarget;
  }

  /** Blocking: one row more, or the time of one renewed. */
  lemma BlockedExactly(env: Env, cfg: Config, s: Instance, h: Header, body: string, target: Option<string>, now: nat)
    ensures var (s', r) := Block(env, cfg, s, h, body, target, now);
            && s'.tables == s.tables.(blocks := s'.tables.blocks)
            && (r == Done(201) <==> Authorized(env, s, "POST", "/api/block", h, Some(body), now) && GoodTarget(cfg, target))
            && if r == Done(201) then
                 var row := (h.username, Stored(ParseBlockTarget(target.value, cfg.domain).address));
                 && s'.tables.blocks.Keys == s.tables.blocks.Keys + {row}
                 && s'.tables.blocks[row] == now / SECOND
                 && forall k :: k in s.tables.blocks && k != row ==> s'.tables.blocks[k] == s.tables.blocks[k]
               else r.Fail? && s'.tables == s.tables
  {
    AuthenticateFrame(env, s, "POST", "/api/block", h, Some(body), now);
    AuthenticatedExact(env, s, "POST", "/api/block", h, Some(body), now);
    TargetExact(cfg, target);
    var (s1, auth) := Authenticate(env, s, "POST", "/api/block", h, Some(body), now);
    var (t, refusal) := TargetOf(cfg, target);
    hide Authenticate, Authorized, TargetOf, GoodTarget, ParseBlockTarget, Stored;
  }

  /** Unblocking: the target's row goes, whatever spelling was used. */
  lemma UnblockedExactly(env: Env, cfg: Config, s: Instance, h: Header, body: string, target: Option<string>, now: nat)
    requires BlocksOk(cfg, s.tables)
    ensures var (s', r) := Unblock(env, cfg, s, h, body, target, now);
            && s'.tables == s.tables.(blocks := s'.tables.blocks)
            && (r == Done(200) <==> Authorized(env, s, "DELETE", "/api/block", h, Some(body), now) && GoodTarget(cfg, target))
            && if r == Done(200) then
                 s'.tables.blocks == s.tables.blocks - {(h.username, Stored(ParseBlockTarget(target.value, cfg.domain).address))}
               else r.Fail? && s'.tables == s.tables
  {
    AuthenticateFrame(env, s, "DELETE", "/api/block", h, Some(body), now);
    AuthenticatedExact(env, s, "DELETE", "/api/block", h, Some(body), now);
    TargetExact(cfg, target);
    var (s1, auth) := Authenticate(env, s, "DELETE", "/api/block", h, Some(body), now);
    var (t, refusal) := TargetOf(cfg, target);
    hide Authenticate, Authorized, TargetOf, ParseBlockTarget, Stored;
  }

  /******* Registration *******/

  /** The owner of good keys asked for a good free name, lately, and paid. */
  /** No reserved name equals this one up to case. */
  predicate Unreserved(name: string, reserved: seq<string>) {
    forall r :: r in reserved ==> Lower(r) != Lower(name)
  }

  lemma UnreservedExact(name: string, reserved: seq<string>)
    ensures IsReserved(name, reserved) <==> !Unreserved(name, reserved)
  {
    hide Lower;
  }

  ghost predicate MayRegister(env: Env, cfg: Config, b: Registration, now: nat) {
    && cfg.registrationEnabled
    && ValidUsername(b.username) && Unreserved(b.username, cfg.reserved)
    && b.kem != "" && b.sig != "" && b.timestamp != "" && b.signature != "" && b.pow != ""
    && SealingKey(env, b.kem)
    && Signs(env, b.sig, Signed.RegisterMessage(b.username, b.kem, b.sig, b.timestamp), b.signature)
    && InTime(b.timestamp, now)
    && PaidFor(env, b.pow, b.username, now)
  }

  lemma RegistrationExact(env: Env, cfg: Config, b: Registration, now: nat)
    ensures var refusal := RegisterChecks(env, cfg, b, now);
            (refusal.None? <==> MayRegister(env, cfg, b, now)) && (refusal.Some? ==> refusal.value.Fail?)
  {
    assert ValidUsername(b.username) ==> b.username != "";
    hide PowOk, InWindow, ValidUsername, IsReserved, Unreserved, Signed.RegisterMessage, InTime, PaidFor, ValidKEM, SealingKey;
    UnreservedExact(b.username, cfg.reserved);
    InTimeExact(b.timestamp, now);
    PaidForExact(env, b.pow, b.username, now);
    KeysAndSignatures(env, b.kem, "", "");
  }

  lemma RegisteredWhen(env: Env, cfg: Config, s: Instance, b: Registration, now: nat)
    ensures var r := Register(env, cfg, s, b, now).1;
            && (r == Done(201) <==>
                  && MayRegister(env, cfg, b, now) && FirstUse(env, s, b.signature, b.pow, now)
                  && !Store.Taken(s.tables.users, b.username))
            && (r == Done(201) || r.Fail?)
  {
    MarkFreshFrame(env, s, b.signature, b.pow, now);
    MarkFreshExact(env, s, b.signature, b.pow, now);
    RegistrationExact(env, cfg, b, now);
    hide RegisterChecks, MayRegister, MarkFresh, FirstUse, Store.Taken;
  }

  lemma RegisteredRow(env: Env, cfg: Config, s: Instance, b: Registration, now: nat)
    ensures var (s', r) := Register(env, cfg, s, b, now);
            && s'.tables == s.tables.(users := s'.tables.users)
            && if r == Done(201) then
                 s'.tables.users == s.tables.users[b.username := Store.User(b.kem, b.sig, now / SECOND)]
               else s'.tables == s.tables
  {
    MarkFreshFrame(env, s, b.signature, b.pow, now);
    RegistrationExact(env, cfg, b, now);
    hide RegisterChecks, MayRegister, MarkFresh, Store.Taken;
  }

  /** Registration succeeds exactly when it may, for a name free in every spelling;
      then there is one account more, with the keys given. */
  lemma RegisteredExactly(env: Env, cfg: Config, s: Instance, b: Registration, now: nat)
    ensures var (s', r) := Register(env, cfg, s, b, now);
            && s'.tables == s.tables.(users := s'.tables.users)
            && (r == Done(201) <==>
                  && MayRegister(env, cfg, b, now) && FirstUse(env, s, b.signature, b.pow, now)
                  && !Store.Taken(s.tables.users, b.username))
            && if r == Done(201) then
                 && b.username !in s.tables.users
                 && OnlyRow(s.tables.users, s'.tables.users, b.username, Store.User(b.kem, b.sig, now / SECOND))
               else r.Fail? && s'.tables == s.tables
  {
    RegisteredWhen(env, cfg, s, b, now);
    RegisteredRow(env, cfg, s, b, now);
    assert !Store.Taken(s.tables.users, b.username) ==> b.username !in s.tables.users;
    RowSet(s.tables.users, b.username, Store.User(b.kem, b.sig, now / SECOND));
    hide Register, MayRegister, FirstUse, Store.Taken, OnlyRow;
  }

  lemma MarkFreshExact(env: Env, s: Instance, signature: string, pow: string, now: nat)
    ensures MarkFresh(env, s, signature, pow, now).1 <==> FirstUse(env, s, signature, pow, now)
  {
    hide TtlSet.AddTo;
  }

  /******* Mail *******/

  /** What a submission must be, keys and tables apart. */
  ghost predicate FormOk(env: Env, cfg: Config, m: Submission, now: nat) {
    var a, b := ParseAddress(m.sender, cfg.domain), ParseAddress(m.recipient, cfg.domain);
    && m.sender != "" && m.recipient != "" && m.fingerprint != "" && m.encKeySender != "" && m.encKeyRecipient != ""
    && m.encBody != "" && m.timestamp != "" && m.signature != "" && m.pow != ""
    && m.encSubject.Some? && m.encReplyTo != Some("")
    && m.size.Some? && m.size.value.Some? && WholeTo2e53(m.size.value.value)
    && a.Ok? && b.Ok? && (a.address.own || b.address.own) && ('@' in m.sender || b.address.own)
    && InTime(m.timestamp, now)
    && PaidFor(env, m.pow, m.sender, now)
  }

  /** A whole number from 0 to 2^53. */
  predicate WholeTo2e53(size: real) { size == size.Floor as real && 0 <= size.Floor <= 9_007_199_254_740_992 }

  lemma FormExact(env: Env, cfg: Config, m: Submission, now: nat)
    ensures var form := CheckForm(env, cfg, m, now);
            && (form.GoodForm? <==> FormOk(env, cfg, m, now))
            && (form.GoodForm? ==>
                  && ParseAddress(m.sender, cfg.domain) == Ok(form.sender)
                  && ParseAddress(m.recipient, cfg.domain) == Ok(form.recipient)
                  && form.fields == FieldsOf(m))
  {
    InTimeExact(m.timestamp, now);
    PaidForExact(env, m.pow, m.sender, now);
    hide ParseAddress, PowOk, InWindow, InTime, PaidFor;
  }

  predicate TakesReplies(level: Option<int>) { level.Some? && level.value >= 3 }

  predicate TookIt(relay: Option<(nat, string)>) { relay.Some? && 200 <= relay.value.0 < 300 }

  /** A submission succeeds exactly when its form and keys are good, the recipient
      has not blocked the sender, and either it was stored before or it pays, the
      other side takes it, and an identifier is free. */
  lemma SentExactly(env: Env, cfg: Config, s: Instance, m: Submission, remote: Remote, now: nat, ids: seq<string>)
    ensures Send(env, cfg, s, m, remote, now, ids).1.Created? <==>
              && FormOk(env, cfg, m, now)
              && var a, b := ParseAddress(m.sender, cfg.domain).address, ParseAddress(m.recipient, cfg.domain).address;
              && CheckKeys(env, cfg, s.tables.users, s.cache, a, b, FieldsOf(m), m.signature, remote, now).1.Signer?
              && !BlockedBy(s.tables, b, a)
              && (env.sha256(m.signature) in s.tables.mail
                  || (&& (m.encReplyTo.Some? && !b.own ==> TakesReplies(remote.level))
                      && NewToken(env, s, m.pow, now)
                      && (b.own || TookIt(remote.relay))
                      && exists i :: 0 <= i < |ids| && !Store.IdTaken(s.tables.mail, ids[i])))
  {
    var (s1, front) := SendFront(env, cfg, s, m, remote, now);
    FrontFrame(env, cfg, s, m, remote, now);
    FrontExact(env, cfg, s, m, remote, now);
    FormExact(env, cfg, m, now);
    if CheckForm(env, cfg, m, now).GoodForm? {
      ReplyMarked(env, cfg, m, now);
    }
    hide SendFront, SendBack, CheckForm, CheckKeys, FormOk, BlockedBy, NewToken, Store.IdTaken, ParseAddress;
    if front.Accept? {
      BackExact(env, s1, m, front, remote.relay, now, ids);
    } else {
      BackAnswers(env, s1, m, front, remote.relay, now, ids);
    }
  }

  /** A submission is answered 201 or refused. */
  lemma SendAnswers(env: Env, cfg: Config, s: Instance, m: Submission, remote: Remote, now: nat, ids: seq<string>)
    ensures var r := Send(env, cfg, s, m, remote, now, ids).1; r.Created? || (r.Fail? && Status(r) != 201)
  {
    FormCodes(env, cfg, m, now);
    var form := CheckForm(env, cfg, m, now);
    hide CheckForm, CheckKeys, BlockedBy, StoredId, TtlSet.AddTo, Store.InsertFrom, MailRow;
    if form.GoodForm? {
      KeyCodes(env, cfg, s.tables.users, s.cache, form.sender, form.recipient, form.fields, m.signature, remote, now);
    }
  }

  lemma BackAnswers(env: Env, s: Instance, m: Submission, front: Front, relay: Option<(nat, string)>, now: nat, ids: seq<string>)
    requires front.Answer?
    ensures SendBack(env, s, m, front, relay, now, ids) == (s, front.response)
  {
  }

  lemma BackExact(env: Env, s: Instance, m: Submission, front: Front, relay: Option<(nat, string)>, now: nat, ids: seq<string>)
    requires front.Accept? && env.sha256(m.signature) !in s.tables.mail
    ensures SendBack(env, s, m, front, relay, now, ids).1.Created? <==>
              && (front.recipient.own || TookIt(relay))
              && exists i :: 0 <= i < |ids| && !Store.IdTaken(s.tables.mail, ids[i])
  {
    SomeIdFree(s.tables.mail, env.sha256(m.signature), MailRow(m, front.sender, front.recipient, front.origin, now), ids);
    TookItExact(relay);
    hide RelayRefusal, MailRow, Store.InsertFrom, Store.IdTaken;
  }

  lemma FrontExact(env: Env, cfg: Config, s: Instance, m: Submission, remote: Remote, now: nat)
    ensures var front := SendFront(env, cfg, s, m, remote, now).1;
            var form := CheckForm(env, cfg, m, now);
            var known := env.sha256(m.signature) in s.tables.mail;
            && (front.Answer? && front.response.Created? <==> Passed(env, cfg, s, m, remote, now) && known)
            && (front.Accept? <==>
                  && Passed(env, cfg, s, m, remote, now) && !known && NewToken(env, s, m.pow, now)
                  && (form.fields.encReplyTo != "" && !form.recipient.own ==> TakesReplies(remote.level)))
            && (front.Accept? ==> front.sender == form.sender && front.recipient == form.recipient)
  {
    var form := CheckForm(env, cfg, m, now);
    FormCodes(env, cfg, m, now);
    hide CheckForm, CheckKeys, BlockedBy, TtlSet.AddTo;
    if form.GoodForm? {
      KeyCodes(env, cfg, s.tables.users, s.cache, form.sender, form.recipient, form.fields, m.signature, remote, now);
    }
  }

  lemma ReplyMarked(env: Env, cfg: Config, m: Submission, now: nat)
    requires CheckForm(env, cfg, m, now).GoodForm?
    ensures CheckForm(env, cfg, m, now).fields.encReplyTo != "" <==> m.encReplyTo.Some?
  {
    hide ParseAddress, PowOk, InWindow;
  }

  lemma TookItExact(relay: Option<(nat, string)>)
    ensures var refusal := RelayRefusal(relay);
            (refusal.None? <==> TookIt(relay)) && (refusal.Some? ==> refusal.value.Fail?)
  {
  }

  lemma {:induction false} SomeIdFree(mail: Store.MailTable, h: string, m: Store.Mail, ids: seq<string>)
    requires h !in mail
    ensures Store.InsertFrom(mail, h, m, ids).1.Stored? <==> exists i :: 0 <= i < |ids| && !Store.IdTaken(mail, ids[i])
    decreases |ids|
  {
    if ids != [] {
      SomeIdFree(mail, h, m, ids[1..]);
      hide Store.IdTaken;
      if i :| 0 <= i < |ids| && !Store.IdTaken(mail, ids[i]) {
        assert i > 0 ==> ids[1..][i - 1] == ids[i];
      }
    }
  }

  /** The row a submission leaves, field by field. */
  lemma StoredContent(env: Env, cfg: Config, s: Instance, m: Submission, remote: Remote, now: nat, ids: seq<string>)
    requires Send(env, cfg, s, m, remote, now, ids).1.Created? && env.sha256(m.signature) !in s.tables.mail
    ensures var (s', r) := Send(env, cfg, s, m, remote, now, ids);
            var a, b := ParseAddress(m.sender, cfg.domain), ParseAddress(m.recipient, cfg.domain);
            && env.sha256(m.signature) in s'.tables.mail
            && var row := s'.tables.mail[env.sha256(m.signature)];
            && a.Ok? && row.sender == Stored(a.address) && b.Ok? && row.recipient == Stored(b.address)
            && row.encKeySender == m.encKeySender && row.encKeyRecipient == m.encKeyRecipient
            && m.encSubject == Some(row.encSubject) && row.encBody == m.encBody
            && row.encReplyTo == (if m.encReplyTo.Some? then m.encReplyTo.value else "")
            && m.size == Some(Some(row.size as real))
            && row.signature == m.signature && row.timestamp == now / SECOND
            && row.id == r.id && r.id in ids && !Store.IdTaken(s.tables.mail, r.id)
  {
    var (s1, front) := SendFront(env, cfg, s, m, remote, now);
    FrontFrame(env, cfg, s, m, remote, now);
    FrontExact(env, cfg, s, m, remote, now);
    FormExact(env, cfg, m, now);
    hide SendFront, SendBack, CheckForm, CheckKeys, BlockedBy, NewToken, ParseAddress, Stored, InWindow, PowOk, Store.IdTaken;
    if front.Accept? {
      AcceptedForm(env, cfg, s, m, remote, now);
      KeptRow(env, s1, m, front, remote.relay, now, ids);
    } else {
      BackAnswers(env, s1, m, front, remote.relay, now, ids);
    }
  }

  lemma KeptRow(env: Env, s: Instance, m: Submission, front: Front, relay: Option<(nat, string)>, now: nat, ids: seq<string>)
    requires front.Accept? && env.sha256(m.signature) !in s.tables.mail
    requires SendBack(env, s, m, front, relay, now, ids).1.Created?
    ensures var (s', r) := SendBack(env, s, m, front, relay, now, ids);
            var row := MailRow(m, front.sender, front.recipient, front.origin, now);
            && s'.tables.mail == s.tables.mail[env.sha256(m.signature) := row.(id := r.id)]
            && r.id in ids && !Store.IdTaken(s.tables.mail, r.id)
  {
    var row := MailRow(m, front.sender, front.recipient, front.origin, now);
    InsertedRow(s.tables.mail, env.sha256(m.signature), row, ids);
    DrawnId(s.tables.mail, env.sha256(m.signature), row, ids);
    TookItExact(relay);
    hide RelayRefusal, MailRow, Store.InsertFrom, Store.IdTaken;
  }

  lemma AcceptedForm(env: Env, cfg: Config, s: Instance, m: Submission, remote: Remote, now: nat)
    requires SendFront(env, cfg, s, m, remote, now).1.Accept?
    ensures var front := SendFront(env, cfg, s, m, remote, now).1;
            CheckForm(env, cfg, m, now) == GoodForm(front.sender, front.recipient, front.origin.fields)
  {
    FrontPassed(env, cfg, s, m, remote, now);
  }

  lemma {:induction false} DrawnId(mail: Store.MailTable, h: string, m: Store.Mail, ids: seq<string>)
    ensures var r := Store.InsertFrom(mail, h, m, ids).1; r.Stored? && !r.dup ==> r.id in ids
    decreases |ids|
  {
    if ids != [] {
      DrawnId(mail, h, m, ids[1..]);
      hide Store.IdTaken;
    }
  }
}
