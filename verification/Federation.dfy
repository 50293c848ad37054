/**
 Instances that federate. A mail to another instance is a nested step: while the
 sender's instance handles the submission, the recipient's instance handles the
 same bytes, and each may read the other's public keys. Requests and replies
 between instances can get lost.
 */
module Federation {
  import opened Text
  import opened Addresses
  import opened Handlers
  import opened Invariants
  import opened Lifecycle
  import Signed
  import Store
  import KeyCache
  import TtlSet

  /** The instances of a network, by their domain. */
  type Configs = map<string, Config>

  type World = map<string, Instance>

  ghost predicate ConfigsOk(cfgs: Configs) {
    forall d :: d in cfgs ==> cfgs[d].domain == d && Lower(d) == d
  }

  /** What another instance reads in the answer to `GET /api/pubkey/<name>`. */
  function Pubkey(s: Instance, name: string): KeyCache.Fetched {
    match LocalKeys(s, name)
    case ShowsKeys(kem, sig) => KeyCache.Found(KeyCache.RemoteKeys(kem, sig))
    case _ => KeyCache.RemoteNotFound
  }

  /** How a request for keys fares: the handler answers it, the instance turns it away
      with another status (429, 500), or nobody answers. */
  datatype Reach = Reached | TurnedAway | Silent

  /** What the asking instance makes of it. Any status but 200 counts as "no such
      user". */
  function Heard(s: Instance, name: string, reach: Reach): KeyCache.Fetched {
    match reach
    case Reached => Pubkey(s, name)
    case TurnedAway => KeyCache.RemoteNotFound
    case Silent => KeyCache.Unreachable
  }

  /** Answers instance-to-instance requests get: from the instances of this network as
      far as they can be reached, from `outside` otherwise. */
  function Answers(w: World, up: (Address, bool) -> Reach, outside: Remote): Remote {
    Remote((a: Address, fresh_: bool) =>
             if a.domain in w then
               Heard(w[a.domain], a.local, up(a, fresh_))
             else outside.fetch(a, fresh_),
           outside.level, outside.relay)
  }

  type RefusalCode = c: nat | !(200 <= c < 300) witness 429

  /** How a relay fares: the handler takes it, and its reply arrives or does not; it is
      turned away before the handler (413, 429); or it gets lost. */
  datatype Arrival = Handled(replied: bool) | Refused(code: RefusalCode, text: string) | LostOnTheWay

  /** One request to instance `at`. For a mail that is relayed inside the network: how
      that fares, and the recipient instance's own clock, draws and view of the
      network. */
  datatype WorldEvent = WorldEvent(at: string, event: Event, up: (Address, bool) -> Reach, arrival: Arrival,
                                   there: Event, upThere: (Address, bool) -> Reach)

  /** What the sender's instance hears of a relay that no handler took. */
  function NotTaken(arrival: Arrival): Option<(nat, string)> {
    match arrival
    case Refused(code, text) => Some((code, text))
    case _ => None
  }

  function ErrorText(r: Response): string {
    if r.Fail? then r.error else ""
  }

  /** Is this submission relayed inside the network? */
  predicate Relayed(w: World, at: string, front: Front) {
    front.Accept? && !front.recipient.own && front.recipient.domain in w && front.recipient.domain != at
  }

  /** A submission at `e.at`, relayed when its recipient lives elsewhere. */
  function WorldSend(env: Env, cfgs: Configs, w: World, e: WorldEvent, m: Submission): (World, Response)
    requires e.at in w && w.Keys == cfgs.Keys
  {
    var (here, front) := SendFront(env, cfgs[e.at], w[e.at], m, Answers(w, e.up, e.event.remote), e.event.now);
    if Relayed(w, e.at, front) then
      var d := front.recipient.domain;
      if e.arrival.Handled? then
        var (there, reply) := Send(env, cfgs[d], w[d], m, Answers(w, e.upThere, e.there.remote), e.there.now, e.there.ids);
        var outcome := if e.arrival.replied then Some((Status(reply), ErrorText(reply))) else None;
        var (here, response) := SendBack(env, here, m, front, outcome, e.event.now, e.event.ids);
        (w[d := there][e.at := here], response)
      else
        var (here, response) := SendBack(env, here, m, front, NotTaken(e.arrival), e.event.now, e.event.ids);
        (w[e.at := here], response)
    else
      var (here, response) := SendBack(env, here, m, front, e.event.remote.relay, e.event.now, e.event.ids);
      (w[e.at := here], response)
  }

  /** The request as this instance meets it: other instances answer for their users. */
  function InWorld(w: World, e: WorldEvent): Event {
    e.event.(remote := Answers(w, e.up, e.event.remote))
  }

  function WorldStep(env: Env, cfgs: Configs, w: World, e: WorldEvent): (World, Response)
    requires e.at in w && w.Keys == cfgs.Keys
    ensures WorldStep(env, cfgs, w, e).0.Keys == w.Keys
  {
    if e.event.request.SendMail? then WorldSend(env, cfgs, w, e, e.event.request.submission)
    else
      var (s, response) := Step(env, cfgs[e.at], w[e.at], InWorld(w, e));
      (w[e.at := s], response)
  }

  type WorldRun = seq<WorldEvent>

  ghost predicate AddressedWithin(cfgs: Configs, run: WorldRun) {
    forall i :: 0 <= i < |run| ==> run[i].at in cfgs
  }

  function WorldAfter(env: Env, cfgs: Configs, run: WorldRun): (w: World)
    requires AddressedWithin(cfgs, run)
    ensures w.Keys == cfgs.Keys
  {
    if run == [] then map d | d in cfgs :: FRESH
    else WorldStep(env, cfgs, WorldAfter(env, cfgs, run[..|run| - 1]), run[|run| - 1]).0
  }

  /** A mail for another instance of the network that gets there, is taken there and whose
      reply comes back is kept on both sides. */
  lemma RelayedIsKept(env: Env, cfgs: Configs, w: World, e: WorldEvent, m: Submission, front: Front, id: string)
    requires e.at in w && w.Keys == cfgs.Keys && e.arrival == Handled(true) && e.event.ids == [id]
    requires front == SendFront(env, cfgs[e.at], w[e.at], m, Answers(w, e.up, e.event.remote), e.event.now).1
    requires Relayed(w, e.at, front) && forall g :: g in w[e.at].tables.mail ==> w[e.at].tables.mail[g].id != id
    requires Send(env, cfgs[front.recipient.domain], w[front.recipient.domain], m, Answers(w, e.upThere, e.there.remote),
                  e.there.now, e.there.ids).1.Created?
    ensures var (w', r) := WorldSend(env, cfgs, w, e, m);
            var h, d := env.sha256(m.signature), front.recipient.domain;
            && r == Created(id) && h in w'[e.at].tables.mail && w'[e.at].tables.mail[h].id == id
            && h in w'[d].tables.mail
  {
    var remote := Answers(w, e.up, e.event.remote);
    FrontFrame(env, cfgs[e.at], w[e.at], m, remote, e.event.now);
    AcceptedIsNew(env, cfgs[e.at], w[e.at], m, remote, e.event.now);
    var d := front.recipient.domain;
    SentIsStored(env, cfgs[d], w[d], m, Answers(w, e.upThere, e.there.remote), e.there.now, e.there.ids);
    hide SendFront, Send, Answers, MailRow;
  }

  lemma AcceptedIsNew(env: Env, cfg: Config, s: Instance, m: Submission, remote: Remote, now: nat)
    requires SendFront(env, cfg, s, m, remote, now).1.Accept?
    ensures env.sha256(m.signature) !in s.tables.mail
  {
    hide CheckForm, CheckKeys, BlockedBy, TtlSet.AddTo, ReplyRefusal;
  }

  /******* Agreement *******/

  /** The entry an instance's log has for a mail signed over these fields. */
  function EntryAt(cfg: Config, h: string, f: Signed.MailFields): Logged
    requires ParseAddress(f.sender, cfg.domain).Ok? && ParseAddress(f.recipient, cfg.domain).Ok?
  {
    Logged(h, Stored(ParseAddress(f.sender, cfg.domain).address), Stored(ParseAddress(f.recipient, cfg.domain).address))
  }

  /** Did this log ever take in a mail with this reference? */
  ghost predicate HasRef(log: set<Logged>, h: string) {
    exists e :: e in log && e.ref == h
  }

  /** What is assumed when addresses, not only signatures, are to agree. */
  ghost predicate Sound(env: Env) { Binding(env) && CollisionFree(env) }

  /** The other instance stored a mail with this signature; and if signatures bind
      what they sign, under the names it uses for these parties. */
  ghost predicate AgreedWith(env: Env, cfg: Config, other: Instance, h: string, f: Signed.MailFields) {
    && HasRef(other.log, h)
    && (Sound(env) ==>
          && ParseAddress(f.sender, cfg.domain).Ok? && ParseAddress(f.recipient, cfg.domain).Ok?
          && EntryAt(cfg, h, f) in other.log)
  }

  /** Row `h` on an instance agrees with the instance of its recipient. */
  ghost predicate RowAgrees(env: Env, cfgs: Configs, w: World, at: string, h: string)
    requires at in w && w.Keys == cfgs.Keys && h in w[at].origin
  {
    var f := w[at].origin[h].fields;
    var r := ParseAddress(f.recipient, cfgs[at].domain);
    r.Ok? && !r.address.own && r.address.domain in w ==>
      AgreedWith(env, cfgs[r.address.domain], w[r.address.domain], h, f)
  }

  ghost predicate WorldInv(env: Env, cfgs: Configs, w: World)
    requires w.Keys == cfgs.Keys
  {
    && (forall d :: d in w ==> Inv(env, cfgs[d], w[d]))
    && (forall d, h :: d in w && h in w[d].tables.mail ==> h in w[d].origin && RowAgrees(env, cfgs, w, d, h))
  }

  /** What a step may do to an instance without breaking old agreements: the log
      grows, and rows other than `added` are old ones. */
  ghost predicate Grows(s: Instance, s': Instance, added: set<string>) {
    && s.log <= s'.log
    && forall h :: h in s'.tables.mail && h !in added ==>
         && h in s.tables.mail
         && (h in s.origin ==> h in s'.origin && s'.origin[h] == s.origin[h])
  }

  lemma StepGrows(env: Env, cfg: Config, s: Instance, e: Event)
    requires !e.request.SendMail?
    ensures Grows(s, Step(env, cfg, s, e).0, {})
  {
    hide Grows, Register, Burn, Block, Unblock, Rotate, Destroy, Send, ListedMail, GottenMail, ListedBlocks, LookedUp;
    match e.request
    case RegisterUser(b) => RegisterGrows(env, cfg, s, b, e.now);
    case BurnMail(id, h) => BurnGrows(env, s, id, h, e.now);
    case BlockTarget(h, body, target) => BlockGrows(env, cfg, s, h, body, target, e.now);
    case UnblockTarget(h, body, target) => UnblockGrows(env, cfg, s, h, body, target, e.now);
    case RotateKeys(h, body, keys) => RotateGrows(env, s, h, body, keys, e.now);
    case DestroyAccount(h) => DestroyGrows(env, s, h, e.now);
    case _ =>
      ReadsFrame(env, cfg, s, e);
      SameGrows(s, Step(env, cfg, s, e).0);
  }

  lemma SameGrows(s: Instance, s': Instance)
    requires s' == s.(seen := s'.seen, spent := s'.spent, cache := s'.cache)
    ensures Grows(s, s', {})
  {
  }

  lemma RegisterGrows(env: Env, cfg: Config, s: Instance, b: Registration, now: nat)
    ensures Grows(s, Register(env, cfg, s, b, now).0, {})
  {
    MarkFreshFrame(env, s, b.signature, b.pow, now);
    hide MarkFresh, RegisterChecks, Lower;
  }

  lemma BurnGrows(env: Env, s: Instance, id: string, h: Header, now: nat)
    ensures Grows(s, Burn(env, s, id, h, now).0, {})
  {
    AuthenticateFrame(env, s, "DELETE", "/api/mail/" + id, h, None, now);
    hide Authenticate;
  }

  lemma BlockGrows(env: Env, cfg: Config, s: Instance, h: Header, body: string, target: Option<string>, now: nat)
    ensures Grows(s, Block(env, cfg, s, h, body, target, now).0, {})
  {
    AuthenticateFrame(env, s, "POST", "/api/block", h, Some(body), now);
    hide Authenticate, TargetOf, Stored;
  }

  lemma UnblockGrows(env: Env, cfg: Config, s: Instance, h: Header, body: string, target: Option<string>, now: nat)
    ensures Grows(s, Unblock(env, cfg, s, h, body, target, now).0, {})
  {
    AuthenticateFrame(env, s, "DELETE", "/api/block", h, Some(body), now);
    hide Authenticate, TargetOf, Stored;
  }

  lemma RotateGrows(env: Env, s: Instance, h: Header, body: string, keys: Option<(string, string)>, now: nat)
    ensures Grows(s, Rotate(env, s, h, body, keys, now).0, {})
  {
    AuthenticateFrame(env, s, "POST", "/api/rotate", h, Some(body), now);
    hide Authenticate, ValidKEM;
  }

  lemma DestroyGrows(env: Env, s: Instance, h: Header, now: nat)
    ensures Grows(s, Destroy(env, s, h, now).0, {})
  {
    AuthenticateFrame(env, s, "DELETE", "/api/destroy", h, None, now);
    hide Authenticate;
  }

  /** Finishing a submission adds at most its own row, and only when the relay,
      if there is one, was taken. */
  lemma BackGrows(env: Env, s: Instance, m: Submission, front: Front, relay: Option<(nat, string)>,
                  now: nat, ids: seq<string>)
    ensures var s' := SendBack(env, s, m, front, relay, now, ids).0;
            var h := env.sha256(m.signature);
            && Grows(s, s', {h})
            && s'.tables == s.tables.(mail := s'.tables.mail)
            && (h in s'.tables.mail && h !in s.tables.mail ==>
                  front.Accept? && h in s'.origin && s'.origin[h] == front.origin
                  && (front.recipient.own || RelayRefusal(relay).None?))
            && (h in s.tables.mail ==> s'.tables.mail == s.tables.mail && s'.origin == s.origin)
  {
    if front.Accept? {
      InsertedRow(s.tables.mail, env.sha256(m.signature),
                  MailRow(m, front.sender, front.recipient, front.origin, now), ids);
      hide Store.InsertFrom, MailRow, RelayRefusal;
    }
  }

  lemma BackKeeps(env: Env, cfg: Config, s: Instance, m: Submission, front: Front, relay: Option<(nat, string)>,
                  now: nat, ids: seq<string>)
    requires Inv(env, cfg, s)
    requires front.Accept? ==> Acceptable(env, cfg, s.tables.users, m, front.sender, front.recipient, front.origin)
    ensures Inv(env, cfg, SendBack(env, s, m, front, relay, now, ids).0)
  {
    hide Inv, Acceptable, Keep, RelayRefusal;
    if front.Accept? {
      KeepKeeps(env, cfg, s, m, front.sender, front.recipient, front.origin, now, ids);
    }
  }

  /** A submission is answered 201 or with an error of 400 and up. */
  lemma SendCodes(env: Env, cfg: Config, s: Instance, m: Submission, remote: Remote, now: nat, ids: seq<string>)
    ensures var r := Send(env, cfg, s, m, remote, now, ids).1;
            r.Created? || (r.Fail? && r.code >= 400)
  {
    hide SendFront, Store.InsertFrom, MailRow;
    FrontCodes(env, cfg, s, m, remote, now);
  }

  lemma FrontCodes(env: Env, cfg: Config, s: Instance, m: Submission, remote: Remote, now: nat)
    ensures var front := SendFront(env, cfg, s, m, remote, now).1;
            front.Answer? ==> front.response.Created? || (front.response.Fail? && front.response.code >= 400)
  {
    hide CheckForm, CheckKeys, BlockedBy, StoredId, TtlSet.AddTo;
    FormCodes(env, cfg, m, now);
    var form := CheckForm(env, cfg, m, now);
    if form.GoodForm? {
      KeyCodes(env, cfg, s.tables.users, s.cache, form.sender, form.recipient, form.fields, m.signature, remote, now);
    }
  }

  /** An instance that answers 201 has logged a mail with that signature, and under
      its own names for the parties if signatures bind what they sign. */
  lemma CreatedIsLogged(env: Env, cfg: Config, s: Instance, m: Submission, remote: Remote, now: nat, ids: seq<string>,
                        o: Origin)
    requires Inv(env, cfg, s)
    requires Send(env, cfg, s, m, remote, now, ids).1.Created?
    requires Verifies(env, o.key, Signed.MailMessage(o.fields), m.signature)
    ensures AgreedWith(env, cfg, Send(env, cfg, s, m, remote, now, ids).0, env.sha256(m.signature), o.fields)
  {
    var s', h := Send(env, cfg, s, m, remote, now, ids).0, env.sha256(m.signature);
    SentIsStored(env, cfg, s, m, remote, now, ids);
    SendKeeps(env, cfg, s, m, remote, now, ids);
    hide Send, Inv, AgreedWith, Signed.MailMessage, Verifies;
    RowIsLogged(env, cfg, s', h, o, m.signature);
  }

  lemma RowIsLogged(env: Env, cfg: Config, s: Instance, h: string, o: Origin, signature: string)
    requires Inv(env, cfg, s) && h in s.tables.mail && h == env.sha256(signature)
    requires Verifies(env, o.key, Signed.MailMessage(o.fields), signature)
    ensures AgreedWith(env, cfg, s, h, o.fields)
  {
    hide Sound, Signed.MailMessage, Verifies, ParseAddress, Stored, UsersOk, BlocksOk, IdsDistinct;
    assert RowOk(env, cfg, s, h);
    var row, o' := s.tables.mail[h], s.origin[h];
    assert Logged(h, row.sender, row.recipient) in s.log;
    if Sound(env) {
      SameFields(env, o'.key, o'.fields, row.signature, o.key, o.fields, signature);
    }
  }

  /** A reference stands for one set of signed fields. */
  lemma SameFields(env: Env, k: string, f: Signed.MailFields, sig: string, k': string, f': Signed.MailFields, sig': string)
    requires Sound(env) && env.sha256(sig) == env.sha256(sig')
    requires Verifies(env, k, Signed.MailMessage(f), sig) && Verifies(env, k', Signed.MailMessage(f'), sig')
    ensures f == f'
  {
    hide Verifies, Signed.MailMessage;
    assert sig == sig';
    assert Signed.MailMessage(f) == Signed.MailMessage(f');
    Signed.MailMessageInjective(f, f');
  }

  /******* One step of the world *******/

  /** Growing instances keep the agreements of old rows. */
  lemma OldRowsAgree(env: Env, cfgs: Configs, w: World, w': World, at: string, h: string)
    requires w.Keys == w'.Keys == cfgs.Keys && at in w
    requires forall d :: d in w ==> w[d].log <= w'[d].log
    requires h in w[at].origin && h in w'[at].origin && w'[at].origin[h] == w[at].origin[h]
    requires RowAgrees(env, cfgs, w, at, h)
    ensures RowAgrees(env, cfgs, w', at, h)
  {
    hide ParseAddress, EntryAt;
  }

  /** Is row `h` of an instance an old one? */
  ghost predicate OldRow(s: Instance, s': Instance, h: string) {
    h in s.tables.mail && (h in s.origin ==> h in s'.origin && s'.origin[h] == s.origin[h])
  }

  /** A world whose instances keep their invariants and their logs, and whose new
      rows agree, keeps its invariant. */
  lemma WorldGrows(env: Env, cfgs: Configs, w: World, w': World)
    requires w.Keys == w'.Keys == cfgs.Keys && WorldInv(env, cfgs, w)
    requires forall d :: d in w ==> Inv(env, cfgs[d], w'[d]) && w[d].log <= w'[d].log
    requires forall d, h :: d in w && h in w'[d].tables.mail ==>
               OldRow(w[d], w'[d], h) || (h in w'[d].origin && RowAgrees(env, cfgs, w', d, h))
    ensures WorldInv(env, cfgs, w')
  {
    hide Inv, RowAgrees;
    forall d, h | d in w' && h in w'[d].tables.mail ensures h in w'[d].origin && RowAgrees(env, cfgs, w', d, h) {
      if OldRow(w[d], w'[d], h) {
        assert h in w[d].tables.mail && h in w[d].origin && RowAgrees(env, cfgs, w, d, h);
        OldRowsAgree(env, cfgs, w, w', d, h);
      }
    }
  }

  /** A new row of a submission is addressed as the submission is. */
  lemma NewRowOfSend(env: Env, cfg: Config, s: Instance, m: Submission, remote: Remote, now: nat, ids: seq<string>)
    ensures var s', h := Send(env, cfg, s, m, remote, now, ids).0, env.sha256(m.signature);
            && s.log <= s'.log
            && (forall g :: g in s'.tables.mail && g != h ==> OldRow(s, s', g))
            && (h in s'.tables.mail && !OldRow(s, s', h) ==>
                  h in s'.origin && s'.origin[h].fields.recipient == m.recipient)
  {
    hide SendFront, SendBack, ParseAddress, Verifies, Fingerprint, Signed.MailMessage;
    var (s1, front) := SendFront(env, cfg, s, m, remote, now);
    FrontFrame(env, cfg, s, m, remote, now);
    if front.Accept? {
      FrontAccepts(env, cfg, s, m, remote, now);
    }
    BackGrows(env, s1, m, front, remote.relay, now, ids);
  }

  /** A row whose recipient is at home has nobody to agree with. */
  lemma OwnRowAgrees(env: Env, cfgs: Configs, w: World, at: string, h: string)
    requires at in w && w.Keys == cfgs.Keys && h in w[at].origin
    requires var r := ParseAddress(w[at].origin[h].fields.recipient, cfgs[at].domain);
             r.Ok? ==> r.address.own || r.address.domain !in w
    ensures RowAgrees(env, cfgs, w, at, h)
  {
    hide ParseAddress;
  }

  /** Seen from its own instance, the recipient of a relayed mail is at home. */
  lemma AtHomeThere(text: string, here: string, there: string)
    requires ParseAddress(text, here).Ok? && !ParseAddress(text, here).address.own
    requires ParseAddress(text, here).address.domain == there && Lower(there) == there
    ensures ParseAddress(text, there).Ok? && ParseAddress(text, there).address.own
  {
    OtherInstanceView(text, here, there);
  }

  lemma OwnDomain(text: string, here: string)
    requires ParseAddress(text, here).Ok?
    ensures ParseAddress(text, here).address.own == (ParseAddress(text, here).address.domain == Lower(here))
  {
  }

  /** A relay counts as taken only when the other instance answered 201. */
  lemma TakenIsAnswered(r: Response, answered: bool)
    requires r.Created? || (r.Fail? && r.code >= 400)
    requires RelayRefusal(if answered then Some((Status(r), ErrorText(r))) else None).None?
    ensures r.Created?
  {
  }

  lemma NonSendKeeps(env: Env, cfgs: Configs, w: World, e: WorldEvent)
    requires e.at in w && w.Keys == cfgs.Keys && WorldInv(env, cfgs, w) && !e.event.request.SendMail?
    ensures WorldInv(env, cfgs, WorldStep(env, cfgs, w, e).0)
  {
    hide Step, Inv, RowAgrees, Answers;
    var s, event := w[e.at], InWorld(w, e);
    var w' := WorldStep(env, cfgs, w, e).0;
    assert w' == w[e.at := Step(env, cfgs[e.at], s, event).0];
    StepKeeps(env, cfgs[e.at], s, event);
    StepGrows(env, cfgs[e.at], s, event);
    WorldGrows(env, cfgs, w, w');
  }

  /** The sender's side of a submission, once `relay` is known. */
  lemma HereKeeps(env: Env, cfg: Config, s: Instance, m: Submission, remote: Remote, relay: Option<(nat, string)>,
                  now: nat, ids: seq<string>)
    requires Inv(env, cfg, s)
    ensures var (s1, front) := SendFront(env, cfg, s, m, remote, now);
            Inv(env, cfg, SendBack(env, s1, m, front, relay, now, ids).0)
  {
    var (s1, front) := SendFront(env, cfg, s, m, remote, now);
    FrontFrame(env, cfg, s, m, remote, now);
    hide SendFront, SendBack, Inv, Acceptable;
    if front.Accept? {
      FrontAccepts(env, cfg, s, m, remote, now);
    }
    InvFrame(env, cfg, s, s1);
    BackKeeps(env, cfg, s1, m, front, relay, now, ids);
  }

  lemma HereRows(env: Env, cfg: Config, s: Instance, m: Submission, remote: Remote, relay: Option<(nat, string)>,
                 now: nat, ids: seq<string>)
    ensures var (s1, front) := SendFront(env, cfg, s, m, remote, now);
            var s', h := SendBack(env, s1, m, front, relay, now, ids).0, env.sha256(m.signature);
            && s.log <= s'.log
            && (forall g :: g in s'.tables.mail && g != h ==> OldRow(s, s', g))
            && (h in s'.tables.mail && !OldRow(s, s', h) ==>
                  && front.Accept? && h in s'.origin && s'.origin[h] == front.origin
                  && (front.recipient.own || RelayRefusal(relay).None?))
  {
    var (s1, front) := SendFront(env, cfg, s, m, remote, now);
    FrontFrame(env, cfg, s, m, remote, now);
    hide SendFront, SendBack, RelayRefusal;
    BackGrows(env, s1, m, front, relay, now, ids);
  }

  lemma AcceptedOrigin(env: Env, cfg: Config, s: Instance, m: Submission, remote: Remote, now: nat)
    requires SendFront(env, cfg, s, m, remote, now).1.Accept?
    ensures var front := SendFront(env, cfg, s, m, remote, now).1;
            && front.origin.fields.recipient == m.recipient
            && ParseAddress(m.recipient, cfg.domain) == Ok(front.recipient)
            && Verifies(env, front.origin.key, Signed.MailMessage(front.origin.fields), m.signature)
  {
    FrontAccepts(env, cfg, s, m, remote, now);
    hide SendFront, ParseAddress, Verifies, Fingerprint, Signed.MailMessage;
  }

  /** One instance of the world replaced by what a submission made of it: its
      possible new row `h` has nobody to agree with, or agrees. */
  ghost predicate Follows(env: Env, cfg: Config, s: Instance, s': Instance, h: string) {
    && Inv(env, cfg, s') && s.log <= s'.log
    && (forall g :: g in s'.tables.mail && g != h ==> OldRow(s, s', g))
    && (h in s'.tables.mail && !OldRow(s, s', h) ==> h in s'.origin)
  }

  /** Is a row of instance `x` an old one, or in agreement? */
  ghost predicate RowFine(env: Env, cfgs: Configs, w: World, w': World, x: string, h: string)
    requires w.Keys == w'.Keys == cfgs.Keys && x in w
  {
    h in w'[x].tables.mail ==> OldRow(w[x], w'[x], h) || (h in w'[x].origin && RowAgrees(env, cfgs, w', x, h))
  }

  lemma ReplaceTwo(env: Env, cfgs: Configs, w: World, at: string, here: Instance, d: string, there: Instance, h: string,
                   w': World)
    requires w.Keys == w'.Keys == cfgs.Keys && WorldInv(env, cfgs, w) && at in w && d in w
    requires w' == w[d := there][at := here]
    requires Follows(env, cfgs[at], w[at], here, h) && (d != at ==> Follows(env, cfgs[d], w[d], there, h))
    requires RowFine(env, cfgs, w, w', at, h) && RowFine(env, cfgs, w, w', d, h)
    ensures WorldInv(env, cfgs, w')
  {
    hide Inv, RowAgrees, OldRow;
    forall x, g | x in w && g in w'[x].tables.mail
      ensures OldRow(w[x], w'[x], g) || (g in w'[x].origin && RowAgrees(env, cfgs, w', x, g))
    {
      if x != at && x != d {
        SameRow(env, cfgs, w, x, g);
      }
    }
    assert forall x :: x in w ==> Inv(env, cfgs[x], w'[x]) && w[x].log <= w'[x].log;
    WorldGrows(env, cfgs, w, w');
  }

  lemma ReplaceOne(env: Env, cfgs: Configs, w: World, at: string, here: Instance, h: string, w': World)
    requires w.Keys == w'.Keys == cfgs.Keys && WorldInv(env, cfgs, w) && at in w && w' == w[at := here]
    requires Follows(env, cfgs[at], w[at], here, h) && RowFine(env, cfgs, w, w', at, h)
    ensures WorldInv(env, cfgs, w')
  {
    assert w[at := here][at := here] == w[at := here];
    hide WorldInv, Follows, RowFine;
    ReplaceTwo(env, cfgs, w, at, here, at, here, h, w');
  }

  lemma SameRow(env: Env, cfgs: Configs, w: World, x: string, g: string)
    requires w.Keys == cfgs.Keys && x in w && g in w[x].tables.mail
    ensures OldRow(w[x], w[x], g)
  {
  }

  /** The sender's side follows; a row it adds is the accepted one. */
  lemma HereFollows(env: Env, cfg: Config, s: Instance, m: Submission, remote: Remote, relay: Option<(nat, string)>,
                    now: nat, ids: seq<string>)
    requires Inv(env, cfg, s)
    ensures var (s1, front) := SendFront(env, cfg, s, m, remote, now);
            var s', h := SendBack(env, s1, m, front, relay, now, ids).0, env.sha256(m.signature);
            && Follows(env, cfg, s, s', h)
            && (h in s'.tables.mail && !OldRow(s, s', h) ==>
                  && front.Accept? && s'.origin[h] == front.origin
                  && (front.recipient.own || RelayRefusal(relay).None?)
                  && front.origin.fields.recipient == m.recipient
                  && ParseAddress(m.recipient, cfg.domain) == Ok(front.recipient)
                  && Verifies(env, front.origin.key, Signed.MailMessage(front.origin.fields), m.signature))
  {
    HereKeeps(env, cfg, s, m, remote, relay, now, ids);
    HereRows(env, cfg, s, m, remote, relay, now, ids);
    var (s1, front) := SendFront(env, cfg, s, m, remote, now);
    if front.Accept? {
      AcceptedOrigin(env, cfg, s, m, remote, now);
    }
    hide SendFront, SendBack, Inv, OldRow, ParseAddress, Verifies, Signed.MailMessage, RelayRefusal;
  }

  /** The recipient's side follows; a row it adds is addressed as the submission. */
  lemma ThereFollows(env: Env, cfg: Config, s: Instance, m: Submission, remote: Remote, now: nat, ids: seq<string>)
    requires Inv(env, cfg, s)
    ensures var s', h := Send(env, cfg, s, m, remote, now, ids).0, env.sha256(m.signature);
            && Follows(env, cfg, s, s', h)
            && (h in s'.tables.mail && !OldRow(s, s', h) ==> s'.origin[h].fields.recipient == m.recipient)
  {
    SendKeeps(env, cfg, s, m, remote, now, ids);
    NewRowOfSend(env, cfg, s, m, remote, now, ids);
    hide Send, Inv, OldRow;
  }

  /** No relay inside the network has been taken. */
  predicate NotRelayed(w: World, at: string, front: Front, relay: Option<(nat, string)>) {
    Relayed(w, at, front) ==> RelayRefusal(relay).Some?
  }

  /** A submission that stays on its instance, or leaves the network. */
  lemma SoloSendKeeps(env: Env, cfgs: Configs, w: World, at: string, m: Submission, remote: Remote,
                      relay: Option<(nat, string)>, now: nat, ids: seq<string>, s1: Instance, front: Front)
    requires ConfigsOk(cfgs) && at in w && w.Keys == cfgs.Keys && WorldInv(env, cfgs, w)
    requires SendFront(env, cfgs[at], w[at], m, remote, now) == (s1, front) && NotRelayed(w, at, front, relay)
    ensures WorldInv(env, cfgs, w[at := SendBack(env, s1, m, front, relay, now, ids).0])
  {
    hide SendFront, SendBack, Inv, RowAgrees, Verifies, Signed.MailMessage, Follows, OldRow, ParseAddress, Lower;
    assert cfgs[at].domain == at && Lower(at) == at && Inv(env, cfgs[at], w[at]);
    hide WorldInv, RelayRefusal, ConfigsOk;
    var s', h := SendBack(env, s1, m, front, relay, now, ids).0, env.sha256(m.signature);
    var w' := w[at := s'];
    HereFollows(env, cfgs[at], w[at], m, remote, relay, now, ids);
    if h in s'.tables.mail && !OldRow(w[at], s', h) {
      OwnDomain(m.recipient, at);
      FollowsOrigin(env, cfgs[at], w[at], s', h);
      OwnRowAgrees(env, cfgs, w', at, h);
    }
    ReplaceOne(env, cfgs, w, at, s', h, w');
  }

  lemma FollowsOrigin(env: Env, cfg: Config, s: Instance, s': Instance, h: string)
    requires Follows(env, cfg, s, s', h) && h in s'.tables.mail && !OldRow(s, s', h)
    ensures h in s'.origin
  {
  }

  /** A submission relayed inside the network. */
  lemma RelayedSendKeeps(env: Env, cfgs: Configs, w: World, e: WorldEvent, m: Submission)
    requires ConfigsOk(cfgs)
    requires e.at in w && w.Keys == cfgs.Keys && WorldInv(env, cfgs, w) && e.arrival.Handled?
    requires var front := SendFront(env, cfgs[e.at], w[e.at], m, Answers(w, e.up, e.event.remote), e.event.now).1;
             front.Accept? && !front.recipient.own && front.recipient.domain in w && front.recipient.domain != e.at
    ensures WorldInv(env, cfgs, WorldSend(env, cfgs, w, e, m).0)
  {
    hide SendFront, SendBack, Send, Answers, Inv, RowAgrees, ParseAddress, OldRow, Verifies,
         Signed.MailMessage, RelayRefusal, Follows, AgreedWith, Lower;
    var at, h := e.at, env.sha256(m.signature);
    var remote, remoteThere := Answers(w, e.up, e.event.remote), Answers(w, e.upThere, e.there.remote);
    var (s1, front) := SendFront(env, cfgs[at], w[at], m, remote, e.event.now);
    var d := front.recipient.domain;
    var (there, reply) := Send(env, cfgs[d], w[d], m, remoteThere, e.there.now, e.there.ids);
    var outcome := if e.arrival.replied then Some((Status(reply), ErrorText(reply))) else None;
    var here := SendBack(env, s1, m, front, outcome, e.event.now, e.event.ids).0;
    var w' := w[d := there][at := here];
    assert WorldSend(env, cfgs, w, e, m).0 == w';
    assert Inv(env, cfgs[at], w[at]) && Inv(env, cfgs[d], w[d]);
    assert cfgs[at].domain == at && cfgs[d].domain == d && Lower(d) == d;
    hide WorldSend, WorldInv, ConfigsOk;
    HereFollows(env, cfgs[at], w[at], m, remote, outcome, e.event.now, e.event.ids);
    ThereFollows(env, cfgs[d], w[d], m, remoteThere, e.there.now, e.there.ids);
    AcceptedOrigin(env, cfgs[at], w[at], m, remote, e.event.now);
    if h in there.tables.mail && !OldRow(w[d], there, h) {
      FollowsOrigin(env, cfgs[d], w[d], there, h);
      AtHomeThere(m.recipient, at, d);
      OwnRowAgrees(env, cfgs, w', d, h);
    }
    if h in here.tables.mail && !OldRow(w[at], here, h) {
      FollowsOrigin(env, cfgs[at], w[at], here, h);
      SendCodes(env, cfgs[d], w[d], m, remoteThere, e.there.now, e.there.ids);
      TakenIsAnswered(reply, e.arrival.replied);
      CreatedIsLogged(env, cfgs[d], w[d], m, remoteThere, e.there.now, e.there.ids, front.origin);
      RelayedRowAgrees(env, cfgs, w', at, h, front.recipient, front.origin.fields);
    }
    ReplaceTwo(env, cfgs, w, at, here, d, there, h, w');
  }

  lemma RelayedRowAgrees(env: Env, cfgs: Configs, w: World, at: string, h: string, recipient: Address, f: Signed.MailFields)
    requires at in w && w.Keys == cfgs.Keys && h in w[at].origin && w[at].origin[h].fields == f
    requires ParseAddress(f.recipient, cfgs[at].domain) == Ok(recipient) && recipient.domain in w
    requires AgreedWith(env, cfgs[recipient.domain], w[recipient.domain], h, f)
    ensures RowAgrees(env, cfgs, w, at, h)
  {
    hide ParseAddress, AgreedWith;
  }

  lemma WorldStepKeeps(env: Env, cfgs: Configs, w: World, e: WorldEvent)
    requires ConfigsOk(cfgs)
    requires e.at in w && w.Keys == cfgs.Keys && WorldInv(env, cfgs, w)
    ensures WorldInv(env, cfgs, WorldStep(env, cfgs, w, e).0)
  {
    hide WorldSend, WorldInv, ConfigsOk, Step, SendFront, Answers;
    if e.event.request.SendMail? {
      WorldSendKeeps(env, cfgs, w, e, e.event.request.submission);
    } else {
      NonSendKeeps(env, cfgs, w, e);
    }
  }

  lemma WorldSendKeeps(env: Env, cfgs: Configs, w: World, e: WorldEvent, m: Submission)
    requires ConfigsOk(cfgs) && e.at in w && w.Keys == cfgs.Keys && WorldInv(env, cfgs, w)
    ensures WorldInv(env, cfgs, WorldSend(env, cfgs, w, e, m).0)
  {
    var remote := Answers(w, e.up, e.event.remote);
    var (s1, front) := SendFront(env, cfgs[e.at], w[e.at], m, remote, e.event.now);
    hide SendFront, SendBack, Send, WorldInv, Answers, ConfigsOk;
    if Relayed(w, e.at, front) && e.arrival.Handled? {
      hide WorldSend;
      RelayedSendKeeps(env, cfgs, w, e, m);
    } else {
      NotTakenRefuses(e.arrival);
      hide RelayRefusal, NotTaken;
      SoloSendKeeps(env, cfgs, w, e.at, m, remote, if Relayed(w, e.at, front) then NotTaken(e.arrival) else e.event.remote.relay,
                    e.event.now, e.event.ids, s1, front);
    }
  }

  lemma NotTakenRefuses(arrival: Arrival)
    ensures RelayRefusal(NotTaken(arrival)).Some?
  {
  }

  /** A submission in the network that is not answered 201 leaves the tables of the
      instance it was made to as they were, whatever the recipient's instance did. */
  lemma FailedWorldSend(env: Env, cfgs: Configs, w: World, e: WorldEvent, m: Submission)
    requires e.at in w && w.Keys == cfgs.Keys && Status(WorldSend(env, cfgs, w, e, m).1) != 201
    ensures WorldSend(env, cfgs, w, e, m).0[e.at].tables == w[e.at].tables
  {
    var remote := Answers(w, e.up, e.event.remote);
    var (s1, front) := SendFront(env, cfgs[e.at], w[e.at], m, remote, e.event.now);
    FrontFrame(env, cfgs[e.at], w[e.at], m, remote, e.event.now);
    hide SendFront, SendBack, Send, Answers;
    if Relayed(w, e.at, front) && e.arrival.Handled? {
      var d := front.recipient.domain;
      var reply := Send(env, cfgs[d], w[d], m, Answers(w, e.upThere, e.there.remote), e.there.now, e.there.ids).1;
      BackStoresNothing(env, s1, m, front, if e.arrival.replied then Some((Status(reply), ErrorText(reply))) else None,
                        e.event.now, e.event.ids);
    } else {
      BackStoresNothing(env, s1, m, front, if Relayed(w, e.at, front) then NotTaken(e.arrival) else e.event.remote.relay,
                        e.event.now, e.event.ids);
    }
    hide Relayed, NotTaken, ErrorText;
  }

  lemma BackStoresNothing(env: Env, s: Instance, m: Submission, front: Front, relay: Option<(nat, string)>, now: nat,
                          ids: seq<string>)
    requires Status(SendBack(env, s, m, front, relay, now, ids).1) != 201
    ensures SendBack(env, s, m, front, relay, now, ids).0.tables == s.tables
  {
    hide Store.InsertFrom, MailRow, RelayRefusal;
  }

  lemma FreshWorldOk(env: Env, cfgs: Configs)
    ensures WorldInv(env, cfgs, WorldAfter(env, cfgs, []))
  {
  }

  lemma {:induction false} WorldRunKeeps(env: Env, cfgs: Configs, run: WorldRun)
    requires ConfigsOk(cfgs) && AddressedWithin(cfgs, run)
    ensures WorldInv(env, cfgs, WorldAfter(env, cfgs, run))
  {
    if run == [] {
      FreshWorldOk(env, cfgs);
    } else {
      var run0 := run[..|run| - 1];
      hide WorldInv, WorldStep;
      WorldRunKeeps(env, cfgs, run0);
      WorldStepKeeps(env, cfgs, WorldAfter(env, cfgs, run0), run[|run| - 1]);
    }
  }

  /** Federation agreement: a mail that an instance keeps for a recipient on
      another instance of the network was stored there at some time, under the
      same reference. If signatures bind what they sign, its parties agree: who is
      "alice" here was "alice@here" there, and the recipient was there without
      his domain. */
  lemma FederationAgreement(env: Env, cfgs: Configs, run: WorldRun, at: string, h: string)
    requires ConfigsOk(cfgs) && AddressedWithin(cfgs, run)
    requires at in cfgs && h in WorldAfter(env, cfgs, run)[at].tables.mail
    requires var m := WorldAfter(env, cfgs, run)[at].tables.mail[h];
             '@' in m.recipient && Cut(m.recipient, '@').1 in cfgs
    ensures var w := WorldAfter(env, cfgs, run);
            var m := w[at].tables.mail[h];
            var (name, there, _) := Cut(m.recipient, '@');
            && HasRef(w[there].log, env.sha256(m.signature))
            && (Sound(env) ==> Logged(env.sha256(m.signature), m.sender + "@" + at, name) in w[there].log)
  {
    WorldRunKeeps(env, cfgs, run);
    var w := WorldAfter(env, cfgs, run);
    hide WorldAfter;
    assert Inv(env, cfgs[at], w[at]) && RowAgrees(env, cfgs, w, at, h);
    assert RowOk(env, cfgs[at], w[at], h);
    var f := w[at].origin[h].fields;
    var m := w[at].tables.mail[h];
    RecipientElsewhere(f.recipient, at);
    var r := ParseAddress(f.recipient, at).address;
    assert PartiesOk(env, cfgs[at], w[at].tables.users, m, w[at].origin[h]);
    NamesThere(f, at, r.domain);
    hide ParseAddress, Stored, Verifies, Fingerprint, Signed.MailMessage;
  }

  /** A stored recipient with a domain in it lives elsewhere. */
  lemma RecipientElsewhere(text: string, here: string)
    requires ParseAddress(text, here).Ok? && '@' in Stored(ParseAddress(text, here).address)
    ensures var r := ParseAddress(text, here).address;
            !r.own && Cut(Stored(r), '@') == (r.local, r.domain, true)
  {
    var r := ParseAddress(text, here).address;
    ValidUsernameChars(r.local);
    CutOf(r.local, '@', r.domain);
  }

  /** How the recipient's instance names the parties of a relayed mail. */
  lemma NamesThere(f: Signed.MailFields, here: string, there: string)
    requires Lower(here) == here && Lower(there) == there
    requires var a, r := ParseAddress(f.sender, here), ParseAddress(f.recipient, here);
             a.Ok? && r.Ok? && '@' in f.sender && a.address.own && !r.address.own && r.address.domain == there
    ensures var a, r := ParseAddress(f.sender, there), ParseAddress(f.recipient, there);
            && a.Ok? && r.Ok?
            && Stored(a.address) == Stored(ParseAddress(f.sender, here).address) + "@" + here
            && Stored(r.address) == ParseAddress(f.recipient, here).address.local
            && Stored(ParseAddress(f.recipient, here).address)
               == ParseAddress(f.recipient, here).address.local + "@" + there
  {
    OtherInstanceView(f.sender, here, there);
    OtherInstanceView(f.recipient, here, there);
    ValidUsernameChars(ParseAddress(f.sender, here).address.local);
    ValidUsernameChars(ParseAddress(f.recipient, here).address.local);
  }
}
