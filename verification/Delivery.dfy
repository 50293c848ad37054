/**
 When a submission is answered 201 after any run, told end to end: by the accounts
 and the recent answers of other instances, by the targets users blocked, and by
 what earlier requests stored, paid and removed.
 */
module Delivery {
  import opened Text
  import opened Addresses
  import opened Handlers
  import opened Invariants
  import opened CacheTransparency
  import opened Blocklist
  import opened Effects
  import opened MailHistory
  import Signed
  import Store
  import PowRuns

  /** The instances of the parties say the same when asked twice, and destroyed accounts
      stay destroyed. */
  predicate PartiesSettled(cfg: Config, s: Instance, m: Submission, remote: Remote, now: nat) {
    var a, b := ParseAddress(m.sender, cfg.domain), ParseAddress(m.recipient, cfg.domain);
    a.Ok? && b.Ok? ==> Settled(s.cache, a.address, remote, now) && Settled(s.cache, b.address, remote, now)
  }

  /** Both parties' keys fit what was signed. */
  ghost predicate PartiesFit(env: Env, cfg: Config, s: Instance, m: Submission, remote: Remote, now: nat)
    requires FormOk(env, cfg, m, now)
  {
    var a, b := ParseAddress(m.sender, cfg.domain).address, ParseAddress(m.recipient, cfg.domain).address;
    && SenderFits(env, cfg, s.tables.users, s.cache, a, Signed.MailMessage(FieldsOf(m)), m.signature, remote, now)
    && RecipientFits(env, cfg, s.tables.users, s.cache, b, m.fingerprint, remote, now)
  }

  /** The recipient's list shuts the sender out, rightly or by mistake. */
  ghost predicate ShutOut(env: Env, cfg: Config, run: Run, m: Submission, now: nat)
    requires FormOk(env, cfg, m, now)
  {
    var a, b := ParseAddress(m.sender, cfg.domain).address, ParseAddress(m.recipient, cfg.domain).address;
    var targets := TargetsAfter(env, cfg, run);
    b.own && (ShouldRefuse(cfg, targets, b, a) || Mistaken(cfg, targets, b, a))
  }

  /** Some earlier request stored this signature, and nobody has removed the row. */
  ghost predicate StillStored(env: Env, cfg: Config, run: Run, signature: string) {
    exists i :: 0 <= i < |run| && StandsSince(env, cfg, run, i, |run|, env.sha256(signature))
  }

  /** What a mail that is not stored yet takes. */
  ghost predicate CanBeStored(env: Env, cfg: Config, s: Instance, m: Submission, remote: Remote, now: nat, ids: seq<string>)
    requires FormOk(env, cfg, m, now)
  {
    var own := ParseAddress(m.recipient, cfg.domain).address.own;
    && PowRuns.NewToken(env, s, m.pow, now)
    && (own || (TookIt(remote.relay) && (m.encReplyTo.Some? ==> TakesReplies(remote.level))))
    && exists i :: 0 <= i < |ids| && !Store.IdTaken(s.tables.mail, ids[i])
  }

  lemma UserIsNamed(cfg: Config, text: string)
    requires ParseAddress(text, cfg.domain).Ok?
    ensures Canonical(ParseAddress(text, cfg.domain).address, cfg.domain)
    ensures ParseAddress(text, cfg.domain).address.local != ""
  {
    AddressIsTarget(text, cfg.domain);
    ParsedIsCanonical(text, cfg.domain);
    hide ParseAddress, ParseBlockTarget, Canonical;
  }

  lemma BlockedIsShutOut(env: Env, cfg: Config, run: Run, m: Submission, now: nat)
    requires FormOk(env, cfg, m, now) && ValidDomain(Lower(cfg.domain))
    ensures BlockedBy(After(env, cfg, run).tables, ParseAddress(m.recipient, cfg.domain).address,
                      ParseAddress(m.sender, cfg.domain).address)
       <==> ShutOut(env, cfg, run, m, now)
  {
    UserIsNamed(cfg, m.sender);
    UserIsNamed(cfg, m.recipient);
    var a, b := ParseAddress(m.sender, cfg.domain).address, ParseAddress(m.recipient, cfg.domain).address;
    hide ParseAddress, After, TargetsAfter, ShouldRefuse, Mistaken, Canonical, FormOk, ValidDomain;
    if b.own {
      RefusedExact(env, cfg, run, b, a);
    }
  }

  lemma StoredStands(env: Env, cfg: Config, run: Run, signature: string)
    ensures env.sha256(signature) in After(env, cfg, run).tables.mail <==> StillStored(env, cfg, run, signature)
  {
    assert run[..|run|] == run;
    RowHistory(env, cfg, run, |run|, env.sha256(signature));
    assert Before(env, cfg, run, |run|) == After(env, cfg, run);
    hide After, StandsSince, Before;
  }

  /** After any run: a submission is answered 201
      exactly when it is a proper one, its parties' keys fit, the recipient's list does
      not shut the sender out, and it is stored already or can be stored. */
  lemma SentAfterRun(env: Env, cfg: Config, run: Run, m: Submission, remote: Remote, now: nat, ids: seq<string>)
    requires NoEmptyKey(env) && ValidDomain(Lower(cfg.domain))
    requires PartiesSettled(cfg, After(env, cfg, run), m, remote, now)
    ensures var s := After(env, cfg, run);
            Send(env, cfg, s, m, remote, now, ids).1.Created? <==>
              && FormOk(env, cfg, m, now)
              && PartiesFit(env, cfg, s, m, remote, now)
              && !ShutOut(env, cfg, run, m, now)
              && (StillStored(env, cfg, run, m.signature) || CanBeStored(env, cfg, s, m, remote, now, ids))
  {
    var s := After(env, cfg, run);
    SentExactly(env, cfg, s, m, remote, now, ids);
    if FormOk(env, cfg, m, now) {
      FormExact(env, cfg, m, now);
      BlockedIsShutOut(env, cfg, run, m, now);
      StoredStands(env, cfg, run, m.signature);
      PartiesExactly(env, cfg, s, m, remote, now);
      hide Send, CheckForm, CheckKeys, BlockedBy, ParseAddress, ShutOut, StillStored, PartiesFit, After, FormOk,
        PartiesSettled, PowRuns.NewToken, Store.IdTaken;
    } else {
      hide Send, CheckForm, CheckKeys, BlockedBy, FormOk, After;
    }
  }

  lemma PartiesExactly(env: Env, cfg: Config, s: Instance, m: Submission, remote: Remote, now: nat)
    requires FormOk(env, cfg, m, now) && NoEmptyKey(env) && PartiesSettled(cfg, s, m, remote, now)
    ensures var f := CheckForm(env, cfg, m, now);
            && f.GoodForm?
            && (CheckKeys(env, cfg, s.tables.users, s.cache, f.sender, f.recipient, f.fields, m.signature, remote, now).1.Signer?
                <==> PartiesFit(env, cfg, s, m, remote, now))
  {
    FormExact(env, cfg, m, now);
    var f := CheckForm(env, cfg, m, now);
    assert f.sender.own || f.recipient.own;
    assert f.fields.fingerprint == m.fingerprint;
    hide CheckForm, FormOk, ParseAddress, CheckKeys, SenderFits, RecipientFits, Settled, Signed.MailMessage;
    KeysExactly(env, cfg, s.tables.users, s.cache, f.sender, f.recipient, f.fields, m.signature, remote, now);
  }
}
