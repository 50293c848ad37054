/**
 What a refused request is told. Each status is told by what is wrong with the
 request, not by the place in the handler that found it.
 */
module Refusals {
  import opened Text
  import opened Addresses
  import opened Handlers
  import opened Invariants
  import opened Effects
  import opened CacheTransparency
  import opened PowRuns
  import Federation
  import KeyCache
  import Signed
  import Store
  import TtlSet

  predicate Told(r: Response, code: nat) { r.Fail? && r.code == code }

  /******* Registration *******/

  predicate FilledIn(b: Registration) {
    b.username != "" && b.kem != "" && b.sig != "" && b.timestamp != "" && b.signature != "" && b.pow != ""
  }

  /** 409 for a name that is taken, 401 for a signature that does not verify, 400 for a form
      that cannot be read, and 403 for everything else. */
  lemma RegisterRefused(env: Env, cfg: Config, s: Instance, b: Registration, now: nat)
    ensures var r := Register(env, cfg, s, b, now).1;
            var readable := FilledIn(b) && ValidUsername(b.username);
            var permitted := Unreserved(b.username, cfg.reserved) && PaidFor(env, b.pow, b.username, now) && InTime(b.timestamp, now);
            var keysOk := env.parsesSig(b.sig) && SealingKey(env, b.kem);
            var signed := env.verify(b.sig, Signed.RegisterMessage(b.username, b.kem, b.sig, b.timestamp), b.signature);
            && (Told(r, 409) <==> MayRegister(env, cfg, b, now) && FirstUse(env, s, b.signature, b.pow, now)
                                  && Store.Taken(s.tables.users, b.username))
            && (Told(r, 401) <==> cfg.registrationEnabled && readable && permitted && keysOk && !signed)
            && (Told(r, 400) <==> cfg.registrationEnabled && (!readable || (permitted && !keysOk)))
            && (Told(r, 403) <==> !cfg.registrationEnabled || (readable && !permitted)
                                  || (MayRegister(env, cfg, b, now) && !FirstUse(env, s, b.signature, b.pow, now)))
  {
    RegisteredWhen(env, cfg, s, b, now);
    MarkFreshExact(env, s, b.signature, b.pow, now);
    MarkFreshFrame(env, s, b.signature, b.pow, now);
    RegisterCodes(env, cfg, b, now);
    RegistrationExact(env, cfg, b, now);
    hide RegisterChecks, MayRegister, MarkFresh, FirstUse, Store.Taken, FilledIn, ValidUsername, Unreserved, PaidFor, InTime,
      SealingKey, Signed.RegisterMessage;
  }

  lemma RegisterCodes(env: Env, cfg: Config, b: Registration, now: nat)
    ensures var refusal := RegisterChecks(env, cfg, b, now);
            var readable := FilledIn(b) && ValidUsername(b.username);
            var permitted := Unreserved(b.username, cfg.reserved) && PaidFor(env, b.pow, b.username, now) && InTime(b.timestamp, now);
            var keysOk := env.parsesSig(b.sig) && SealingKey(env, b.kem);
            var signed := env.verify(b.sig, Signed.RegisterMessage(b.username, b.kem, b.sig, b.timestamp), b.signature);
            var code := if !cfg.registrationEnabled then 403 else if !readable then 400 else if !permitted then 403
                        else if !keysOk then 400 else if !signed then 401 else 0;
            if code == 0 then refusal.None? && MayRegister(env, cfg, b, now)
            else refusal.Some? && Told(refusal.value, code) && !MayRegister(env, cfg, b, now)
  {
    assert ValidUsername(b.username) ==> b.username != "";
    hide PowOk, InWindow, ValidUsername, IsReserved, Unreserved, Signed.RegisterMessage, InTime, PaidFor, ValidKEM, SealingKey;
    UnreservedExact(b.username, cfg.reserved);
    InTimeExact(b.timestamp, now);
    PaidForExact(env, b.pow, b.username, now);
    KeysAndSignatures(env, b.kem, "", "");
  }

  /******* Submissions *******/

  /** Everything a submission must carry, in a form that can be read. */
  predicate Readable(m: Submission) {
    && m.sender != "" && m.recipient != "" && m.fingerprint != "" && m.encKeySender != "" && m.encKeyRecipient != ""
    && m.encBody != "" && m.timestamp != "" && m.signature != "" && m.pow != ""
    && m.encSubject.Some? && m.encReplyTo != Some("")
    && m.size.Some? && m.size.value.Some? && WholeTo2e53(m.size.value.value)
  }

  /** A submission with a bad form is told 400 when it cannot be read, or a remote recipient
      would not know its sender; 401 and 404 for an address that is none; and 403 when it is
      not for this instance to relay, or not paid, or not in time. */
  lemma FormRefused(env: Env, cfg: Config, s: Instance, m: Submission, remote: Remote, now: nat, ids: seq<string>)
    requires !FormOk(env, cfg, m, now)
    ensures var (s', r) := Send(env, cfg, s, m, remote, now, ids);
            var a, b := ParseAddress(m.sender, cfg.domain), ParseAddress(m.recipient, cfg.domain);
            && s' == s
            && if !Readable(m) then Told(r, 400)
               else if a.Err? then Told(r, 401)
               else if b.Err? then Told(r, 404)
               else if !a.address.own && !b.address.own then Told(r, 403)
               else if '@' !in m.sender && !b.address.own then Told(r, 400)
               else Told(r, 403)
  {
    FormExact(env, cfg, m, now);
    hide ParseAddress, PowOk, InWindow, FormOk, CheckKeys;
  }

  lemma KeysRefuse(env: Env, cfg: Config, s: Instance, m: Submission, remote: Remote, now: nat)
    requires FormOk(env, cfg, m, now)
    ensures var a, b := ParseAddress(m.sender, cfg.domain).address, ParseAddress(m.recipient, cfg.domain).address;
            var check := CheckKeys(env, cfg, s.tables.users, s.cache, a, b, FieldsOf(m), m.signature, remote, now).1;
            check.Refused? ==> SendFront(env, cfg, s, m, remote, now).1 == Answer(check.response)
  {
    FormExact(env, cfg, m, now);
    hide ParseAddress, FormOk, CheckForm, CheckKeys;
  }

  lemma FrontTold(env: Env, cfg: Config, s: Instance, m: Submission, remote: Remote, now: nat, ids: seq<string>)
    ensures var front := SendFront(env, cfg, s, m, remote, now).1;
            front.Answer? ==> Send(env, cfg, s, m, remote, now, ids).1 == front.response
  {
    hide SendFront, Keep, RelayRefusal;
  }

  /** With a good form: the key of a sender on another instance is not to be had, or there
      is no such sender. */
  lemma SenderRefused(env: Env, cfg: Config, s: Instance, m: Submission, remote: Remote, now: nat, ids: seq<string>)
    requires FormOk(env, cfg, m, now) && cfg.federationEnabled
    requires var a := ParseAddress(m.sender, cfg.domain).address; !a.own && CachedKeys(s.cache, a, now).None?
    ensures var r := Send(env, cfg, s, m, remote, now, ids).1;
            var answer := remote.fetch(ParseAddress(m.sender, cfg.domain).address, false);
            && (answer.Unreachable? ==> Told(r, 503))
            && (answer.RemoteNotFound? || (answer.Found? && answer.keys.sig == "") ==> Told(r, 401))
  {
    KeysRefuse(env, cfg, s, m, remote, now);
    FrontTold(env, cfg, s, m, remote, now, ids);
    FirstLookup(cfg, s.tables.users, s.cache, ParseAddress(m.sender, cfg.domain).address, remote, now);
    hide ParseAddress, FormOk, Send, SendFront, KeysOf, CheckRecipient, CheckSignature, CachedKeys;
  }

  lemma RecipientAnswered(env: Env, cfg: Config, s: Instance, m: Submission, remote: Remote, now: nat)
    requires FormOk(env, cfg, m, now) && cfg.federationEnabled
    requires var a, b := ParseAddress(m.sender, cfg.domain).address, ParseAddress(m.recipient, cfg.domain).address;
             && !b.own && CachedKeys(s.cache, b, now).None?
             && a.local in s.tables.users && s.tables.users[a.local].sig != ""
    ensures var front := SendFront(env, cfg, s, m, remote, now).1;
            var answer := remote.fetch(ParseAddress(m.recipient, cfg.domain).address, false);
            && (answer.Unreachable? ==> front.Answer? && Told(front.response, 502))
            && (answer.RemoteNotFound? ==> front.Answer? && Told(front.response, 404))
            && (answer.Found? && answer.keys.kem == "" ==> front == Answer(Fail(410, "USER_DESTROYED")))
  {
    var a, b := ParseAddress(m.sender, cfg.domain).address, ParseAddress(m.recipient, cfg.domain).address;
    KeysRefuse(env, cfg, s, m, remote, now);
    assert a.own;
    hide ParseAddress, FormOk, SendFront;
    RemoteRecipient(env, cfg, s, a, b, FieldsOf(m), m.signature, remote, now);
  }

  /** A recipient on another instance that cannot be asked, is not there, or is gone. */
  lemma RecipientRefused(env: Env, cfg: Config, s: Instance, m: Submission, remote: Remote, now: nat, ids: seq<string>)
    requires FormOk(env, cfg, m, now) && cfg.federationEnabled
    requires var a, b := ParseAddress(m.sender, cfg.domain).address, ParseAddress(m.recipient, cfg.domain).address;
             && !b.own && CachedKeys(s.cache, b, now).None?
             && a.local in s.tables.users && s.tables.users[a.local].sig != ""
    ensures var r := Send(env, cfg, s, m, remote, now, ids).1;
            var answer := remote.fetch(ParseAddress(m.recipient, cfg.domain).address, false);
            && (answer.Unreachable? ==> Told(r, 502))
            && (answer.RemoteNotFound? ==> Told(r, 404))
            && (answer.Found? && answer.keys.kem == "" ==> r == Fail(410, "USER_DESTROYED"))
  {
    hide FormOk, ParseAddress, CachedKeys, SendFront, Send;
    RecipientAnswered(env, cfg, s, m, remote, now);
    FrontTold(env, cfg, s, m, remote, now, ids);
  }

  lemma RemoteRecipient(env: Env, cfg: Config, s: Instance, a: Address, b: Address, fields: Signed.MailFields, signature: string,
                        remote: Remote, now: nat)
    requires a.own && a.local in s.tables.users && s.tables.users[a.local].sig != ""
    requires !b.own && cfg.federationEnabled && CachedKeys(s.cache, b, now).None?
    ensures var check := CheckKeys(env, cfg, s.tables.users, s.cache, a, b, fields, signature, remote, now).1;
            var answer := remote.fetch(b, false);
            && (answer.Unreachable? ==> check.Refused? && Told(check.response, 502))
            && (answer.RemoteNotFound? ==> check.Refused? && Told(check.response, 404))
            && (answer.Found? && answer.keys.kem == "" ==> check == Refused(Fail(410, "USER_DESTROYED")))
  {
    FirstLookup(cfg, s.tables.users, s.cache, b, remote, now);
    OwnKeys(cfg, s, a, remote, now);
    hide KeysOf, CheckSignature, CachedKeys, Fingerprint;
  }

  /** In a network: a recipient whose instance turns the request for keys away, whatever the
      status, counts as unknown; one whose instance is silent is unreachable. */
  lemma NetworkRefused(env: Env, cfgs: Federation.Configs, w: Federation.World, e: Federation.WorldEvent, m: Submission)
    requires e.at in w && w.Keys == cfgs.Keys && FormOk(env, cfgs[e.at], m, e.event.now) && cfgs[e.at].federationEnabled
    requires var a, b := ParseAddress(m.sender, cfgs[e.at].domain).address, ParseAddress(m.recipient, cfgs[e.at].domain).address;
             && !b.own && b.domain in w && CachedKeys(w[e.at].cache, b, e.event.now).None?
             && a.local in w[e.at].tables.users && w[e.at].tables.users[a.local].sig != ""
    ensures var r := Federation.WorldSend(env, cfgs, w, e, m).1;
            var reach := e.up(ParseAddress(m.recipient, cfgs[e.at].domain).address, false);
            && (reach.TurnedAway? ==> Told(r, 404))
            && (reach.Silent? ==> Told(r, 502))
  {
    var remote := Federation.Answers(w, e.up, e.event.remote);
    var b := ParseAddress(m.recipient, cfgs[e.at].domain).address;
    assert remote.fetch(b, false) == Federation.Heard(w[b.domain], b.local, e.up(b, false));
    hide SendFront, FormOk, ParseAddress, CachedKeys, Federation.Answers, Federation.Pubkey;
    RecipientAnswered(env, cfgs[e.at], w[e.at], m, remote, e.event.now);
    hide Send;
  }

  /** An instance that does not federate knows no remote users. */
  lemma WithoutFederation(env: Env, cfg: Config, s: Instance, m: Submission, remote: Remote, now: nat, ids: seq<string>)
    requires FormOk(env, cfg, m, now) && !cfg.federationEnabled
    ensures var r := Send(env, cfg, s, m, remote, now, ids).1;
            var a, b := ParseAddress(m.sender, cfg.domain).address, ParseAddress(m.recipient, cfg.domain).address;
            && (!a.own ==> Told(r, 401))
            && (!b.own && a.local in s.tables.users && s.tables.users[a.local].sig != "" ==> Told(r, 404))
  {
    KeysRefuse(env, cfg, s, m, remote, now);
    FrontTold(env, cfg, s, m, remote, now, ids);
    assert ParseAddress(m.sender, cfg.domain).address.own || ParseAddress(m.recipient, cfg.domain).address.own;
    hide ParseAddress, FormOk, Send, SendFront, CheckSignature, Fingerprint;
  }

  lemma OwnKeys(cfg: Config, s: Instance, a: Address, remote: Remote, now: nat)
    requires a.own && a.local in s.tables.users
    ensures KeysOf(cfg, s.tables.users, s.cache, a, false, remote, now)
         == (s.cache, Keys(s.tables.users[a.local].kem, s.tables.users[a.local].sig, false))
  {
  }

  /** What the sender of a mail for another instance is told, once it is relayed. */
  predicate RelayTold(relay: Option<(nat, string)>, r: Response) {
    match relay
    case None => Told(r, 502)
    case Some((status, text)) =>
      if 200 <= status <= 299 then r.Created? || Told(r, 500)
      else if 400 <= status <= 499 && status != 408 && status != 429 then
        r == Fail(status, if text == "" then "Relay refused" else text)
      else Told(r, 502)
  }

  lemma BackTold(env: Env, s: Instance, m: Submission, front: Front, relay: Option<(nat, string)>, now: nat, ids: seq<string>)
    requires front.Accept? && !front.recipient.own
    ensures RelayTold(relay, SendBack(env, s, m, front, relay, now, ids).1)
  {
    hide Store.InsertFrom, MailRow;
  }

  /** In a network: the sender is told what the recipient's instance answers, or what turned
      the relay away, or that it was lost, when it or its reply is. */
  lemma NetworkTold(env: Env, cfgs: Federation.Configs, w: Federation.World, e: Federation.WorldEvent, m: Submission)
    requires e.at in w && w.Keys == cfgs.Keys
    requires var front := SendFront(env, cfgs[e.at], w[e.at], m, Federation.Answers(w, e.up, e.event.remote), e.event.now).1;
             Federation.Relayed(w, e.at, front)
    ensures var r := Federation.WorldSend(env, cfgs, w, e, m).1;
            var d := SendFront(env, cfgs[e.at], w[e.at], m, Federation.Answers(w, e.up, e.event.remote),
                               e.event.now).1.recipient.domain;
            var reply := Send(env, cfgs[d], w[d], m, Federation.Answers(w, e.upThere, e.there.remote), e.there.now, e.there.ids).1;
            match e.arrival
            case Refused(code, text) => RelayTold(Some((code, text)), r)
            case LostOnTheWay => Told(r, 502)
            case Handled(replied) =>
              if !replied then Told(r, 502)
              else if reply.Fail? then RelayTold(Some((reply.code, reply.error)), r)
              else r.Created? || Told(r, 500)
  {
    var remote := Federation.Answers(w, e.up, e.event.remote);
    var (s1, front) := SendFront(env, cfgs[e.at], w[e.at], m, remote, e.event.now);
    var d := front.recipient.domain;
    var reply := Send(env, cfgs[d], w[d], m, Federation.Answers(w, e.upThere, e.there.remote), e.there.now, e.there.ids).1;
    SendAnswers(env, cfgs[d], w[d], m, Federation.Answers(w, e.upThere, e.there.remote), e.there.now, e.there.ids);
    hide SendFront, SendBack, Send, Federation.Answers;
    BackTold(env, s1, m, front, Federation.NotTaken(e.arrival), e.event.now, e.event.ids);
    BackTold(env, s1, m, front, Some((Status(reply), Federation.ErrorText(reply))), e.event.now, e.event.ids);
    BackTold(env, s1, m, front, None, e.event.now, e.event.ids);
  }

  lemma ReplyTold(env: Env, cfg: Config, s: Instance, m: Submission, remote: Remote, now: nat)
    requires Passed(env, cfg, s, m, remote, now) && env.sha256(m.signature) !in s.tables.mail
    requires !CheckForm(env, cfg, m, now).recipient.own && m.encReplyTo.Some? && !TakesReplies(remote.level)
    ensures var front := SendFront(env, cfg, s, m, remote, now).1;
            front.Answer? && Told(front.response, if remote.level.None? then 502 else 422)
  {
    ReplyMarked(env, cfg, m, now);
    hide CheckForm, CheckKeys, BlockedBy, TtlSet.AddTo;
  }

  /** What becomes of a submission for another instance that is good in itself, new and
      paid: a reply to an instance that takes none, and the outcomes of the relay. */
  lemma RelayRefused(env: Env, cfg: Config, s: Instance, m: Submission, remote: Remote, now: nat, ids: seq<string>)
    requires Passed(env, cfg, s, m, remote, now) && env.sha256(m.signature) !in s.tables.mail && NewToken(env, s, m.pow, now)
    requires !CheckForm(env, cfg, m, now).recipient.own
    ensures var r := Send(env, cfg, s, m, remote, now, ids).1;
            if m.encReplyTo.Some? && remote.level.None? then Told(r, 502)
            else if m.encReplyTo.Some? && remote.level.value < 3 then Told(r, 422)
            else RelayTold(remote.relay, r)
  {
    FrontExact(env, cfg, s, m, remote, now);
    ReplyMarked(env, cfg, m, now);
    hide Passed, CheckForm, SendFront, SendBack, NewToken, RelayTold;
    var (s1, front) := SendFront(env, cfg, s, m, remote, now);
    if m.encReplyTo.Some? && !TakesReplies(remote.level) {
      ReplyTold(env, cfg, s, m, remote, now);
      BackAnswers(env, s1, m, front, remote.relay, now, ids);
    } else {
      BackTold(env, s1, m, front, remote.relay, now, ids);
    }
  }

  /******* Requests with signed headers *******/

  /** The answers a request can get once it is authorized: 404 for a mail that is not the
      caller's, 400 for a target or keys that cannot be read, and otherwise what it asked for. */
  predicate Fits(request: Request, r: Response) {
    && (r.Fail? || Status(r) == if request.BlockTarget? then 201 else 200)
    && match request
       case BurnMail(_, _) => r == Done(200) || Told(r, 404)
       case BlockTarget(_, _, _) => r == Done(201) || Told(r, 400)
       case UnblockTarget(_, _, _) => r == Done(200) || Told(r, 400)
       case RotateKeys(_, _, _) => r == Done(200) || Told(r, 400)
       case DestroyAccount(_) => r == Done(200)
       case ListMail(_, _) => r.ShowsMail?
       case GetMail(_, _) => r.ShowsMail? || Told(r, 404)
       case ListBlocks(_) => r.ShowsBlocks?
       case _ => true
  }

  ghost predicate IsAuthorized(env: Env, s: Instance, e: Event)
    requires HasHeader(e.request)
  {
    var rt := RouteOf(e.request);
    Authorized(env, s, rt.method_, rt.path, e.request.header, rt.body, e.now)
  }

  lemma AuthorizedAnswer(env: Env, cfg: Config, s: Instance, e: Event)
    requires HasHeader(e.request) && IsAuthorized(env, s, e)
    ensures Fits(e.request, Step(env, cfg, s, e).1)
  {
    var rt := RouteOf(e.request);
    AuthenticatedExact(env, s, rt.method_, rt.path, e.request.header, rt.body, e.now);
    NamedIsThere(env, s, e);
    hide Authenticate, Authorized, Step, Fits;
    if e.request.BurnMail? || e.request.GetMail? || e.request.ListMail? {
      MailAnswer(env, cfg, s, e);
    } else if e.request.RotateKeys? || e.request.DestroyAccount? {
      AccountAnswer(env, cfg, s, e);
    } else {
      BlocksAnswer(env, cfg, s, e);
    }
  }

  ghost predicate Passes(env: Env, s: Instance, e: Event)
    requires HasHeader(e.request)
  {
    var rt := RouteOf(e.request);
    var (s1, auth) := Authenticate(env, s, rt.method_, rt.path, e.request.header, rt.body, e.now);
    auth == User(e.request.header.username) && s1.tables == s.tables
  }

  lemma MailAnswer(env: Env, cfg: Config, s: Instance, e: Event)
    requires (e.request.BurnMail? || e.request.GetMail? || e.request.ListMail?) && Passes(env, s, e)
    ensures Fits(e.request, Step(env, cfg, s, e).1)
  {
    hide Authenticate, Store.MailDeleted, Store.MailListed, Store.MailFound;
  }

  lemma BlocksAnswer(env: Env, cfg: Config, s: Instance, e: Event)
    requires (e.request.BlockTarget? || e.request.UnblockTarget? || e.request.ListBlocks?) && Passes(env, s, e)
    ensures Fits(e.request, Step(env, cfg, s, e).1)
  {
    hide Authenticate, ParseBlockTarget, WithoutBlocks, Stored, Store.BlocksListed;
  }

  lemma AccountAnswer(env: Env, cfg: Config, s: Instance, e: Event)
    requires (e.request.RotateKeys? || e.request.DestroyAccount?) && Passes(env, s, e)
    requires e.request.header.username in s.tables.users
    ensures Fits(e.request, Step(env, cfg, s, e).1)
  {
    hide Authenticate, ValidKEM;
  }

  lemma NamedIsThere(env: Env, s: Instance, e: Event)
    requires HasHeader(e.request) && IsAuthorized(env, s, e)
    ensures e.request.header.username in s.tables.users
  {
    hide Signs, Covered, InTime, PaidFor, FirstUse, RouteOf;
  }
}
