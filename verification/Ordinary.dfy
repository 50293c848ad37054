/**
 The everyday case, in literal fields: what becomes of a mail from one user of an
 instance to another.
 */
module Ordinary {
  import opened Text
  import opened Addresses
  import opened Handlers
  import opened Invariants
  import opened Effects
  import Signed
  import Store
  import PowRuns
  import TtlSet

  /** A letter as its sender writes it: the parties by name, the sealed parts, and a
      reply's reference if it is one. */
  datatype Letter = Letter(from: string, to: string, fingerprint: string, keyFrom: string, keyTo: string, subject: string,
                           body: string, reply: Option<string>, size: nat, at: int, signature: string, pow: string)

  function Written(l: Letter): Submission {
    Submission(l.from, l.to, l.fingerprint, l.keyFrom, l.keyTo, Some(l.subject), l.body, l.reply,
               Some(Some(l.size as real)), Itoa(l.at), l.signature, l.pow)
  }

  function SignedFields(l: Letter): Signed.MailFields {
    Signed.MailFields(l.from, l.to, l.fingerprint, l.subject, l.body, if l.reply.Some? then l.reply.value else "",
                      Itoa(l.at), l.size)
  }

  /** Nothing is missing; only the subject may be empty. */
  predicate Complete(l: Letter) {
    && l.fingerprint != "" && l.keyFrom != "" && l.keyTo != "" && l.body != "" && l.signature != "" && l.pow != ""
    && l.reply != Some("") && l.size <= 9_007_199_254_740_992
  }

  /** It is between live users, who may both be the same. */
  predicate BetweenUsers(users: Store.Users, l: Letter) {
    && ValidUsername(l.from) && l.from in users && users[l.from].sig != ""
    && ValidUsername(l.to) && l.to in users && users[l.to].kem != ""
  }

  /** Signed by the sender and sealed to the recipient, with the keys of today. */
  predicate SignedAndSealed(env: Env, users: Store.Users, l: Letter)
    requires BetweenUsers(users, l)
  {
    && Signs(env, users[l.from].sig, Signed.MailMessage(SignedFields(l)), l.signature)
    && env.decodeKem(users[l.to].kem).Some?
    && l.fingerprint == env.sha256(env.decodeKem(users[l.to].kem).value)
  }

  /** Sent about now, for a token. */
  ghost predicate TimelyAndPaid(env: Env, l: Letter, now: nat) {
    && -300 <= now / 1_000_000_000 - l.at <= 300
    && -9_223_372_036_854_775_808 <= l.at <= 9_223_372_036_854_775_807
    && PaidFor(env, l.pow, l.from, now)
  }

  /** The token was not used before. */
  predicate Unused(env: Env, spent: TtlSet.State, token: string) { env.sha256(token) !in spent.cur && env.sha256(token) !in spent.prev }

  /** The recipient has blocked neither the sender nor the whole instance. */
  predicate Welcome(cfg: Config, blocks: Store.Blocks, l: Letter) {
    (l.to, l.from) !in blocks && (l.to, Lower(cfg.domain)) !in blocks
  }

  lemma BareName(name: string, domain: string)
    requires ValidUsername(name)
    ensures ParseAddress(name, domain) == Ok(Address(name, Lower(domain), true))
    ensures Stored(Address(name, Lower(domain), true)) == name
  {
    ValidUsernameChars(name);
    hide ValidUsername, Lower;
  }

  lemma WrittenIsGood(env: Env, cfg: Config, s: Instance, l: Letter, now: nat)
    requires Complete(l) && ValidUsername(l.from) && ValidUsername(l.to) && TimelyAndPaid(env, l, now)
    ensures CheckForm(env, cfg, Written(l), now)
         == GoodForm(Address(l.from, Lower(cfg.domain), true), Address(l.to, Lower(cfg.domain), true), SignedFields(l))
  {
    BareName(l.from, cfg.domain);
    BareName(l.to, cfg.domain);
    ParseIntItoa(l.at);
    ItoaNotEmpty(l.at);
    WholeNumber(l.size);
    hide ParseAddress, ValidUsername, PaidFor, Itoa, ParseInt, CheckForm, Lower;
    assert FormOk(env, cfg, Written(l), now);
    hide FormOk;
    FormExact(env, cfg, Written(l), now);
    assert FieldsOf(Written(l)) == SignedFields(l);
  }

  lemma ItoaNotEmpty(v: int)
    ensures Itoa(v) != ""
  {
    hide Digits;
  }

  lemma WholeNumber(n: nat)
    ensures (n as real).Floor == n
    ensures WholeTo2e53(n as real) <==> n <= 9_007_199_254_740_992
  {
  }

  lemma LocalKeysPass(env: Env, cfg: Config, s: Instance, l: Letter, remote: Remote, now: nat)
    requires BetweenUsers(s.tables.users, l) && SignedAndSealed(env, s.tables.users, l)
    ensures var a, b := Address(l.from, Lower(cfg.domain), true), Address(l.to, Lower(cfg.domain), true);
            CheckKeys(env, cfg, s.tables.users, s.cache, a, b, SignedFields(l), l.signature, remote, now)
            == (s.cache, Signer(s.tables.users[l.from].sig))
  {
    hide Signed.MailMessage, ValidUsername, Lower;
  }

  lemma NotBlocked(cfg: Config, t: Store.Tables, l: Letter)
    requires ValidUsername(l.from) && ValidUsername(l.to)
    ensures BlockedBy(t, Address(l.to, Lower(cfg.domain), true), Address(l.from, Lower(cfg.domain), true))
       <==> !Welcome(cfg, t.blocks, l)
  {
    BareName(l.from, cfg.domain);
    BareName(l.to, cfg.domain);
    hide ValidUsername, Lower, Stored;
    var candidates := [l.from, Lower(cfg.domain)];
    assert l.from in candidates && Lower(cfg.domain) in candidates;
    assert forall c :: c in candidates ==> c == l.from || c == Lower(cfg.domain);
  }

  /** The mail, as its recipient finds it. */
  function Kept(l: Letter, id: string, now: nat): Store.Mail {
    Store.Mail(id, l.from, l.to, l.keyFrom, l.keyTo, l.subject, l.body, l.size, l.signature, now / 1_000_000_000,
               if l.reply.Some? then l.reply.value else "")
  }

  lemma LetterAccepted(env: Env, cfg: Config, s: Instance, l: Letter, remote: Remote, now: nat)
    requires Complete(l) && BetweenUsers(s.tables.users, l) && SignedAndSealed(env, s.tables.users, l)
    requires TimelyAndPaid(env, l, now) && Unused(env, s.spent, l.pow) && Welcome(cfg, s.tables.blocks, l) && env.sha256(l.signature) !in s.tables.mail
    ensures var (s', front) := SendFront(env, cfg, s, Written(l), remote, now);
            && s'.tables == s.tables
            && front == Accept(Address(l.from, Lower(cfg.domain), true), Address(l.to, Lower(cfg.domain), true),
                               Origin(SignedFields(l), s.tables.users[l.from].sig))
  {
    WrittenIsGood(env, cfg, s, l, now);
    LocalKeysPass(env, cfg, s, l, remote, now);
    NotBlocked(cfg, s.tables, l);
    NewPasses(env, s, l.pow, now);
    hide CheckForm, CheckKeys, BlockedBy, Welcome, Complete, SignedAndSealed, TimelyAndPaid, TtlSet.AddTo, Lower, Itoa,
      ValidUsername, SignedFields;
  }

  lemma LetterKept(env: Env, cfg: Config, s: Instance, l: Letter, key: string, relay: Option<(nat, string)>, now: nat, id: string)
    requires ValidUsername(l.from) && ValidUsername(l.to)
    requires env.sha256(l.signature) !in s.tables.mail && forall h :: h in s.tables.mail ==> s.tables.mail[h].id != id
    ensures var a, b := Address(l.from, Lower(cfg.domain), true), Address(l.to, Lower(cfg.domain), true);
            var (s', r) := SendBack(env, s, Written(l), Accept(a, b, Origin(SignedFields(l), key)), relay, now, [id]);
            && r == Created(id)
            && s'.tables == s.tables.(mail := s.tables.mail[env.sha256(l.signature) := Kept(l, id, now)])
  {
    BareName(l.from, cfg.domain);
    BareName(l.to, cfg.domain);
    hide Lower, Itoa, ValidUsername, Stored;
  }

  /** A complete letter between two users of an instance, signed, sealed, timely, paid and
      welcome, is answered 201 and stored field by field, whether it is a reply or not. */
  lemma OrdinaryMailIsSent(env: Env, cfg: Config, s: Instance, l: Letter, remote: Remote, now: nat, id: string)
    requires Complete(l) && BetweenUsers(s.tables.users, l) && SignedAndSealed(env, s.tables.users, l)
    requires TimelyAndPaid(env, l, now) && Unused(env, s.spent, l.pow) && Welcome(cfg, s.tables.blocks, l)
    requires env.sha256(l.signature) !in s.tables.mail && forall h :: h in s.tables.mail ==> s.tables.mail[h].id != id
    ensures var (s', r) := Send(env, cfg, s, Written(l), remote, now, [id]);
            && r == Created(id)
            && s'.tables == s.tables.(mail := s.tables.mail[env.sha256(l.signature) := Kept(l, id, now)])
  {
    hide SendFront, SendBack, Complete, SignedAndSealed, TimelyAndPaid, Welcome, Written, SignedFields, Lower, ValidUsername;
    LetterAccepted(env, cfg, s, l, remote, now);
    LetterKept(env, cfg, SendFront(env, cfg, s, Written(l), remote, now).0, l, s.tables.users[l.from].sig, remote.relay, now, id);
  }

  /** The key checks, told of two users of the same instance. */
  function KeysAnswer(env: Env, users: Store.Users, l: Letter): Option<Response> {
    if l.from !in users || users[l.from].sig == "" then Some(Fail(401, "Sender not registered"))
    else if l.to !in users then Some(Fail(404, "Recipient not found"))
    else if users[l.to].kem == "" then Some(Fail(410, "USER_DESTROYED"))
    else if !(env.decodeKem(users[l.to].kem).Some? && l.fingerprint == env.sha256(env.decodeKem(users[l.to].kem).value)) then
      Some(Fail(409, "KEY_MISMATCH"))
    else if !Signs(env, users[l.from].sig, Signed.MailMessage(SignedFields(l)), l.signature) then
      Some(Fail(401, "Invalid signature"))
    else None
  }

  lemma KeysAnswered(env: Env, cfg: Config, s: Instance, l: Letter, remote: Remote, now: nat)
    requires l.fingerprint != ""
    ensures var a, b := Address(l.from, Lower(cfg.domain), true), Address(l.to, Lower(cfg.domain), true);
            var (cache, check) := CheckKeys(env, cfg, s.tables.users, s.cache, a, b, SignedFields(l), l.signature, remote, now);
            match KeysAnswer(env, s.tables.users, l)
            case Some(refusal) => check == Refused(refusal)
            case None => check.Signer?
  {
    hide Signed.MailMessage, Lower;
  }

  /** What a complete and timely letter that cannot be kept is told: the first thing that
      is wrong, in this order. */
  lemma RefusedLetter(env: Env, cfg: Config, s: Instance, l: Letter, remote: Remote, now: nat, ids: seq<string>)
    requires Complete(l) && ValidUsername(l.from) && ValidUsername(l.to) && TimelyAndPaid(env, l, now)
    ensures var r := Send(env, cfg, s, Written(l), remote, now, ids).1;
            var h := env.sha256(l.signature);
            if KeysAnswer(env, s.tables.users, l).Some? then r == KeysAnswer(env, s.tables.users, l).value
            else if !Welcome(cfg, s.tables.blocks, l) then r == Fail(403, "Recipient has blocked this sender")
            else if h in s.tables.mail then r == Created(s.tables.mail[h].id)
            else !PowRuns.NewToken(env, s, l.pow, now) ==> r == Fail(403, "Invalid Proof of Work")
  {
    WrittenIsGood(env, cfg, s, l, now);
    KeysAnswered(env, cfg, s, l, remote, now);
    NotBlocked(cfg, s.tables, l);
    hide CheckForm, CheckKeys, BlockedBy, Welcome, Complete, TimelyAndPaid, TtlSet.AddTo, Lower, Itoa, ValidUsername, SignedFields,
      KeysAnswer, Keep;
  }

  lemma NewPasses(env: Env, s: Instance, token: string, now: nat)
    requires Unused(env, s.spent, token)
    ensures TtlSet.AddTo(SPENT, s.spent, env.sha256(token), now).1
  {
  }
}
