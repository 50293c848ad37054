/**
 The request handlers (server/go/internal/api/handlers.go and auth.go) as steps
 of one instance. A step is atomic and reads the clock once. Request bodies come
 parsed; what other instances answer is a parameter.
 */
module Handlers {
  import opened Text
  import opened Addresses
  import Signed
  import Pow
  import TtlSet
  import Replay
  import Store
  import KeyCache

  /******* An instance *******/

  /** Cryptography and the calendar, left uninterpreted. `parsesSig` is
      `ParsePublicKey`, `decodeKem` is `DecodeKEMKey`, hashes come in hex. */
  datatype Env = Env(verify: (string, string, string) -> bool,
                     parsesSig: string -> bool,
                     decodeKem: string -> Option<string>,
                     sha256: string -> string,
                     pow: Pow.Env)

  datatype Config = Config(domain: string, registrationEnabled: bool, federationEnabled: bool,
                           reserved: seq<string>)

  /** History kept for the proofs: what a stored mail's signature was verified
      over, and with which key. */
  datatype Origin = Origin(fields: Signed.MailFields, key: string)

  /** History kept for the proofs: a mail that was stored at some time, by the
      hash of its signature. */
  datatype Logged = Logged(ref: string, sender: string, recipient: string)

  datatype Instance = Instance(tables: Store.Tables, seen: TtlSet.State, spent: TtlSet.State,
                               cache: KeyCache.Cache, origin: map<string, Origin>, log: set<Logged>)

  const FRESH := Instance(Store.EMPTY, TtlSet.EMPTY, TtlSet.EMPTY, map[], map[], {})

  const SECOND := KeyCache.SECOND
  const SEEN := TtlSet.Config(600 * SECOND, 250_000)
  const SPENT := TtlSet.Config(72 * 3600 * SECOND, 250_000)

  function Today(now: nat): int { now / (Replay.DAY * SECOND) }

  predicate PowOk(env: Env, token: string, resource: string, now: nat) {
    Pow.VerifyPoW(env.pow, token, resource, Today(now))
  }

  predicate InWindow(ts: string, now: nat) {
    ParseInt(ts).Some? && Replay.InWindow(SECOND, now, ParseInt(ts).value)
  }

  predicate Verifies(env: Env, key: string, msg: string, signature: string) {
    env.parsesSig(key) && env.verify(key, msg, signature)
  }

  /** What results about several requests may assume: no signature string verifies
      over two messages. */
  ghost predicate Binding(env: Env) {
    forall k, k', msg, msg', sig ::
      Verifies(env, k, msg, sig) && Verifies(env, k', msg', sig) ==> msg == msg'
  }

  ghost predicate CollisionFree(env: Env) {
    forall x, y :: env.sha256(x) == env.sha256(y) ==> x == y
  }

  /** A digest is written in 64 hexadecimal digits. */
  ghost predicate HexDigests(env: Env) {
    forall x :: Signed.HexDigest(env.sha256(x))
  }

  const KEM_PUBKEY_SIZE := 1184

  predicate ValidKEM(env: Env, kem: string) {
    env.decodeKem(kem).Some? && |env.decodeKem(kem).value| == KEM_PUBKEY_SIZE
  }

  function Fingerprint(env: Env, kem: string): string {
    match env.decodeKem(kem)
    case Some(raw) => env.sha256(raw)
    case None => ""
  }

  /** Reads show rows: mail by reference, blocks as target and time, or public keys. */
  datatype Response = Created(id: string) | Done(status: nat) | Fail(code: nat, error: string)
                    | ShowsMail(refs: set<string>) | ShowsBlocks(blocks: set<(string, int)>) | ShowsKeys(kem: string, sig: string)

  function Status(r: Response): nat {
    match r
    case Created(_) => 201
    case Done(status) => status
    case Fail(code, _) => code
    case _ => 200
  }

  /******* Authentication *******/

  /** Marks a signature and a token used; neither may be used already. The token
      is not even looked at when the signature is a repeat. */
  function MarkFresh(env: Env, s: Instance, signature: string, pow: string, now: nat): (Instance, bool) {
    var (seen, newSig) := TtlSet.AddTo(SEEN, s.seen, env.sha256(signature), now);
    var s := s.(seen := seen);
    if !newSig then (s, false)
    else
      var (spent, newPow) := TtlSet.AddTo(SPENT, s.spent, env.sha256(pow), now);
      (s.(spent := spent), newPow)
  }

  datatype Header = Header(username: string, timestamp: string, signature: string, pow: string)

  datatype Auth = Denied(response: Response) | User(name: string)

  /** The signed text; a request with a body signs its digest too. */
  function HeaderText(env: Env, method_: string, path: string, h: Header, body: Option<string>): string {
    match body
    case None => Signed.HeaderMessage(method_, path, h.username, h.timestamp)
    case Some(b) => Signed.HeaderBodyMessage(method_, path, h.username, h.timestamp, env.sha256(b))
  }

  /** The checks before anything is recorded, in the Worker's order. */
  function AuthChecks(env: Env, users: Store.Users, method_: string, path: string, h: Header,
                      body: Option<string>, now: nat): Auth
  {
    if h.username == "" || h.timestamp == "" || h.signature == "" || h.pow == "" then
      Denied(Fail(401, "Missing auth headers"))
    else if !PowOk(env, h.pow, h.username, now) then Denied(Fail(403, "Invalid Proof of Work"))
    else if !InWindow(h.timestamp, now) then Denied(Fail(403, "Timestamp out of window"))
    else if h.username !in users then Denied(Fail(401, "User not found"))
    else if users[h.username].sig == "" then Denied(Fail(401, "User not found or destroyed"))
    else if !Verifies(env, users[h.username].sig, HeaderText(env, method_, path, h, body), h.signature) then
      Denied(Fail(401, "Invalid signature"))
    else User(h.username)
  }

  function Authenticate(env: Env, s: Instance, method_: string, path: string, h: Header,
                        body: Option<string>, now: nat): (Instance, Auth)
  {
    var auth := AuthChecks(env, s.tables.users, method_, path, h, body, now);
    if auth.Denied? then (s, auth)
    else
      var (s, isNew) := MarkFresh(env, s, h.signature, h.pow, now);
      (s, if isNew then auth else Denied(Fail(403, "Replayed request")))
  }

  /******* Registration *******/

  datatype Registration = Registration(username: string, kem: string, sig: string, timestamp: string,
                                       signature: string, pow: string)

  predicate IsReserved(name: string, reserved: seq<string>) {
    exists r :: r in reserved && Lower(r) == Lower(name)
  }

  function RegisterChecks(env: Env, cfg: Config, b: Registration, now: nat): Option<Response> {
    if !cfg.registrationEnabled then Some(Fail(403, "Registration is disabled"))
    else if b.username == "" || b.kem == "" || b.sig == "" || b.timestamp == "" || b.signature == "" || b.pow == "" then
      Some(Fail(400, "Missing required fields"))
    else if !ValidUsername(b.username) then Some(Fail(400, "Invalid username format"))
    else if IsReserved(b.username, cfg.reserved) then Some(Fail(403, "Username is reserved"))
    else if !PowOk(env, b.pow, b.username, now) then Some(Fail(403, "Invalid Proof of Work"))
    else if !InWindow(b.timestamp, now) then Some(Fail(403, "Timestamp out of window"))
    else if !env.parsesSig(b.sig) || !ValidKEM(env, b.kem) then Some(Fail(400, "Invalid public key"))
    else if !env.verify(b.sig, Signed.RegisterMessage(b.username, b.kem, b.sig, b.timestamp), b.signature) then
      Some(Fail(401, "Invalid signature"))
    else None
  }

  function Register(env: Env, cfg: Config, s: Instance, b: Registration, now: nat): (Instance, Response) {
    match RegisterChecks(env, cfg, b, now)
    case Some(refusal) => (s, refusal)
    case None =>
      var (s, isNew) := MarkFresh(env, s, b.signature, b.pow, now);
      if !isNew then (s, Fail(403, "Replayed request"))
      else
        var (tables, ok) := Store.UserCreated(s.tables, b.username, Store.User(b.kem, b.sig, now / SECOND));
        (s.(tables := tables), if ok then Done(201) else Fail(409, "Username already taken"))
  }

  /******* Mail *******/

  /** A parsed submission. `size` is absent, not a number, or a number. */
  datatype Submission = Submission(sender: string, recipient: string, fingerprint: string,
                                   encKeySender: string, encKeyRecipient: string,
                                   encSubject: Option<string>, encBody: string, encReplyTo: Option<string>,
                                   size: Option<Option<real>>, timestamp: string, signature: string, pow: string)

  /** What the rest of the network answers while a submission is handled:
      keys by address and whether they were asked for afresh, the protocol level
      of the recipient's instance (`None` when it cannot be asked), and the
      outcome of the relay (`None` for a transport failure). */
  datatype Remote = Remote(fetch: (Address, bool) -> KeyCache.Fetched,
                           level: Option<int>,
                           relay: Option<(nat, string)>)

  const MAX_SIZE: real := 9007199254740992.0

  datatype Form = BadForm(response: Response)
                | GoodForm(sender: Address, recipient: Address, fields: Signed.MailFields)

  predicate MissingField(m: Submission) {
    m.sender == "" || m.recipient == "" || m.fingerprint == "" || m.encKeySender == "" ||
    m.encKeyRecipient == "" || m.encSubject.None? || m.encBody == "" || m.size.None? ||
    m.timestamp == "" || m.signature == "" || m.pow == ""
  }

  predicate IntegralSize(size: Option<real>) {
    size.Some? && size.value >= 0.0 && size.value == size.value.Floor as real && size.value <= MAX_SIZE
  }

  /** The checks that need neither keys nor the database. */
  function CheckForm(env: Env, cfg: Config, m: Submission, now: nat): Form {
    if MissingField(m) then BadForm(Fail(400, "Missing required fields"))
    else if m.encReplyTo == Some("") then BadForm(Fail(400, "Invalid enc_reply_to"))
    else if !IntegralSize(m.size.value) then BadForm(Fail(400, "Invalid size"))
    else
      var s, r := ParseAddress(m.sender, cfg.domain), ParseAddress(m.recipient, cfg.domain);
      if s.Err? then BadForm(Fail(401, "Sender not registered"))
      else if r.Err? then BadForm(Fail(404, "Recipient not found"))
      else if !s.address.own && !r.address.own then BadForm(Fail(403, "Relaying denied"))
      else if !r.address.own && '@' !in m.sender then
        BadForm(Fail(400, "Sender must be qualified for a remote recipient"))
      else if !PowOk(env, m.pow, m.sender, now) then BadForm(Fail(403, "Invalid Proof of Work"))
      else if !InWindow(m.timestamp, now) then BadForm(Fail(403, "Timestamp out of window"))
      else GoodForm(s.address, r.address, FieldsOf(m))
  }

  function FieldsOf(m: Submission): Signed.MailFields
    requires m.encSubject.Some? && m.size.Some? && m.size.value.Some?
  {
    Signed.MailFields(m.sender, m.recipient, m.fingerprint, m.encSubject.value, m.encBody,
                      if m.encReplyTo.Some? then m.encReplyTo.value else "",
                      m.timestamp, m.size.value.value.Floor)
  }

  /** Public keys of an address; `cached` when a remote answer may be stale. */
  datatype Keys = Keys(kem: string, sig: string, cached: bool) | NoUser | NoAnswer

  function KeysOf(cfg: Config, users: Store.Users, cache: KeyCache.Cache, a: Address, fresh_: bool,
                  remote: Remote, now: nat): (KeyCache.Cache, Keys)
  {
    if a.own then
      (cache, if a.local in users then Keys(users[a.local].kem, users[a.local].sig, false) else NoUser)
    else if !cfg.federationEnabled then (cache, NoUser)
    else
      var (cache, r) := KeyCache.Looked(cache, Stored(a), fresh_, remote.fetch(a, fresh_), now);
      match r
      case Found(k) => (cache, Keys(k.kem, k.sig, !fresh_))
      case RemoteNotFound => (cache, NoUser)
      case Unreachable => (cache, NoAnswer)
  }

  /** The outcome of the key checks: the key the signature verified under. */
  datatype KeyCheck = Refused(response: Response) | Signer(key: string)

  function CheckRecipient(env: Env, cfg: Config, users: Store.Users, cache: KeyCache.Cache, recipient: Address,
                          fingerprint: string, remote: Remote, now: nat): (KeyCache.Cache, Option<Response>)
  {
    var (cache, k) := KeysOf(cfg, users, cache, recipient, false, remote, now);
    match k
    case NoUser => (cache, Some(Fail(404, "Recipient not found")))
    case NoAnswer => (cache, Some(Fail(502, "Recipient instance unreachable")))
    case Keys(kem, _, cached) =>
      if kem == "" then (cache, Some(Fail(410, "USER_DESTROYED")))
      else if Fingerprint(env, kem) == fingerprint then (cache, None)
      else if !cached then (cache, Some(Fail(409, "KEY_MISMATCH")))
      else
        var (cache, again) := KeysOf(cfg, users, cache, recipient, true, remote, now);
        var kem := if again.Keys? then again.kem else "";
        (cache, if Fingerprint(env, kem) == fingerprint then None else Some(Fail(409, "KEY_MISMATCH")))
  }

  function CheckSignature(env: Env, cfg: Config, users: Store.Users, cache: KeyCache.Cache, sender: Address,
                          key: string, cached: bool, msg: string, signature: string,
                          remote: Remote, now: nat): (KeyCache.Cache, KeyCheck)
  {
    if Verifies(env, key, msg, signature) then (cache, Signer(key))
    else if !cached then (cache, Refused(Fail(401, "Invalid signature")))
    else
      var (cache, again) := KeysOf(cfg, users, cache, sender, true, remote, now);
      if again.Keys? && Verifies(env, again.sig, msg, signature) then (cache, Signer(again.sig))
      else (cache, Refused(Fail(401, "Invalid signature")))
  }

  function CheckKeys(env: Env, cfg: Config, users: Store.Users, cache: KeyCache.Cache,
                     sender: Address, recipient: Address, fields: Signed.MailFields, signature: string,
                     remote: Remote, now: nat): (KeyCache.Cache, KeyCheck)
  {
    var (cache, k) := KeysOf(cfg, users, cache, sender, false, remote, now);
    if k.NoAnswer? then (cache, Refused(Fail(503, "Sender instance unreachable")))
    else if k.NoUser? || k.sig == "" then (cache, Refused(Fail(401, "Sender not registered")))
    else
      var (cache, refusal) := CheckRecipient(env, cfg, users, cache, recipient, fields.fingerprint, remote, now);
      if refusal.Some? then (cache, Refused(refusal.value))
      else
        CheckSignature(env, cfg, users, cache, sender, k.sig, k.cached,
                       Signed.MailMessage(fields), signature, remote, now)
  }

  predicate BlockedBy(t: Store.Tables, recipient: Address, sender: Address) {
    recipient.own && Store.AnyBlocked(t.blocks, Stored(recipient), [Stored(sender), sender.domain])
  }

  function StoredId(env: Env, mail: Store.MailTable, signature: string): Option<string> {
    if env.sha256(signature) in mail then Some(mail[env.sha256(signature)].id) else None
  }

  const REPLY_LEVEL := 3

  function ReplyRefusal(level: Option<int>): Option<Response> {
    match level
    case None => Some(Fail(502, "Recipient instance unreachable"))
    case Some(n) =>
      if n < REPLY_LEVEL then Some(Fail(422, "Recipient instance does not support replies")) else None
  }

  /** How far a submission gets before it is relayed or stored. */
  datatype Front = Answer(response: Response) | Accept(sender: Address, recipient: Address, origin: Origin)

  function SendFront(env: Env, cfg: Config, s: Instance, m: Submission, remote: Remote, now: nat): (Instance, Front) {
    match CheckForm(env, cfg, m, now)
    case BadForm(refusal) => (s, Answer(refusal))
    case GoodForm(sender, recipient, fields) =>
      var (cache, check) := CheckKeys(env, cfg, s.tables.users, s.cache, sender, recipient, fields, m.signature, remote, now);
      var s := s.(cache := cache);
      match check
      case Refused(refusal) => (s, Answer(refusal))
      case Signer(key) =>
        if BlockedBy(s.tables, recipient, sender) then (s, Answer(Fail(403, "Recipient has blocked this sender")))
        else
          match StoredId(env, s.tables.mail, m.signature)
          case Some(id) => (s, Answer(Created(id)))
          case None =>
            var refusal := if fields.encReplyTo != "" && !recipient.own then ReplyRefusal(remote.level) else None;
            if refusal.Some? then (s, Answer(refusal.value))
            else
              var (spent, isNew) := TtlSet.AddTo(SPENT, s.spent, env.sha256(m.pow), now);
              var s := s.(spent := spent);
              if !isNew then (s, Answer(Fail(403, "Invalid Proof of Work")))
              else (s, Accept(sender, recipient, Origin(fields, key)))
  }

  /** `relay`: whether the recipient's instance took the submission. A refusal
      reaches the client; anything else is a 502. */
  function RelayRefusal(outcome: Option<(nat, string)>): Option<Response> {
    match outcome
    case None => Some(Fail(502, "Recipient instance unreachable"))
    case Some((status, text)) =>
      if 200 <= status < 300 then None
      else if 400 <= status < 500 && status != 408 && status != 429 then
        Some(Fail(status, if text == "" then "Relay refused" else text))
      else Some(Fail(502, "Recipient instance unreachable"))
  }

  function MailRow(m: Submission, sender: Address, recipient: Address, origin: Origin, now: nat): Store.Mail {
    Store.Mail("", Stored(sender), Stored(recipient), m.encKeySender, m.encKeyRecipient,
               origin.fields.encSubject, m.encBody, origin.fields.size, m.signature, now / SECOND,
               origin.fields.encReplyTo)
  }

  /** Stores the accepted mail under one of the drawn identifiers. */
  function Keep(env: Env, s: Instance, m: Submission, sender: Address, recipient: Address, origin: Origin,
                now: nat, ids: seq<string>): (Instance, Response)
  {
    var h := env.sha256(m.signature);
    var row := MailRow(m, sender, recipient, origin, now);
    var (mail, r) := Store.InsertFrom(s.tables.mail, h, row, ids);
    match r
    case NoId => (s, Fail(500, "Database error"))
    case Stored(id, dup) =>
      if dup then (s, Created(id))
      else
        (s.(tables := s.tables.(mail := mail), origin := s.origin[h := origin],
            log := s.log + {Logged(h, row.sender, row.recipient)}), Created(id))
  }

  function SendBack(env: Env, s: Instance, m: Submission, front: Front, relay: Option<(nat, string)>,
                    now: nat, ids: seq<string>): (Instance, Response)
  {
    match front
    case Answer(response) => (s, response)
    case Accept(sender, recipient, origin) =>
      var refusal := if recipient.own then None else RelayRefusal(relay);
      if refusal.Some? then (s, refusal.value)
      else Keep(env, s, m, sender, recipient, origin, now, ids)
  }

  function Send(env: Env, cfg: Config, s: Instance, m: Submission, remote: Remote, now: nat, ids: seq<string>)
    : (Instance, Response)
  {
    var (s, front) := SendFront(env, cfg, s, m, remote, now);
    SendBack(env, s, m, front, remote.relay, now, ids)
  }

  /******* Requests with signed headers *******/

  function Burn(env: Env, s: Instance, id: string, h: Header, now: nat): (Instance, Response) {
    var (s, auth) := Authenticate(env, s, "DELETE", "/api/mail/" + id, h, None, now);
    match auth
    case Denied(refusal) => (s, refusal)
    case User(name) =>
      var (mail, ok) := Store.MailDeleted(s.tables.mail, id, name);
      (s.(tables := s.tables.(mail := mail)), if ok then Done(200) else Fail(404, "Mail not found"))
  }

  /** The target of a block request, as the parsed body names it; `None` for a
      body that is not JSON. */
  function TargetOf(cfg: Config, target: Option<string>): (Option<Address>, Response) {
    match target
    case None => (None, Fail(400, "Invalid JSON"))
    case Some(t) =>
      if t == "" then (None, Fail(400, "Missing target"))
      else
        match ParseBlockTarget(t, cfg.domain)
        case Err(_) => (None, Fail(400, "Invalid target"))
        case Ok(a) => (Some(a), Done(200))
  }

  function Block(env: Env, cfg: Config, s: Instance, h: Header, body: string, target: Option<string>, now: nat)
    : (Instance, Response)
  {
    var (s, auth) := Authenticate(env, s, "POST", "/api/block", h, Some(body), now);
    match auth
    case Denied(refusal) => (s, refusal)
    case User(name) =>
      var (t, refusal) := TargetOf(cfg, target);
      if t.None? then (s, refusal)
      else
        (s.(tables := s.tables.(blocks := s.tables.blocks[(name, Stored(t.value)) := now / SECOND])), Done(201))
  }

  function WithoutBlocks(blocks: Store.Blocks, blocker: string, targets: seq<string>): Store.Blocks {
    map k | k in blocks && !(k.0 == blocker && k.1 in targets) :: blocks[k]
  }

  function Unblock(env: Env, cfg: Config, s: Instance, h: Header, body: string, target: Option<string>, now: nat)
    : (Instance, Response)
  {
    var (s, auth) := Authenticate(env, s, "DELETE", "/api/block", h, Some(body), now);
    match auth
    case Denied(refusal) => (s, refusal)
    case User(name) =>
      var (t, refusal) := TargetOf(cfg, target);
      if t.None? then (s, refusal)
      else
        (s.(tables := s.tables.(blocks := WithoutBlocks(s.tables.blocks, name, [Stored(t.value), target.value]))),
         Done(200))
  }

  function Rotate(env: Env, s: Instance, h: Header, body: string, keys: Option<(string, string)>, now: nat)
    : (Instance, Response)
  {
    var (s, auth) := Authenticate(env, s, "POST", "/api/rotate", h, Some(body), now);
    match auth
    case Denied(refusal) => (s, refusal)
    case User(name) =>
      match keys
      case None => (s, Fail(400, "Invalid JSON"))
      case Some((kem, sig)) =>
        if kem == "" || sig == "" then (s, Fail(400, "Missing new keys"))
        else if !env.parsesSig(sig) || !ValidKEM(env, kem) then (s, Fail(400, "Invalid public key"))
        else
          var (tables, ok) := Store.KeysRotated(s.tables, name, kem, sig);
          (s.(tables := tables), if ok then Done(200) else Fail(500, "Database error"))
  }

  function Destroy(env: Env, s: Instance, h: Header, now: nat): (Instance, Response) {
    var (s, auth) := Authenticate(env, s, "DELETE", "/api/destroy", h, None, now);
    match auth
    case Denied(refusal) => (s, refusal)
    case User(name) =>
      var (tables, ok) := Store.UserDestroyed(s.tables, name);
      (s.(tables := tables), if ok then Done(200) else Fail(500, "Database error"))
  }

  /******* Reads *******/

  /** The mailbox a request for a list means: the inbox, unless it says "sent". */
  function BoxOf(typ: string): string { if typ == "" then "inbox" else typ }

  function ListedMail(env: Env, s: Instance, typ: string, h: Header, now: nat): (Instance, Response) {
    var (s, auth) := Authenticate(env, s, "GET", "/api/mail?type=" + BoxOf(typ), h, None, now);
    match auth
    case Denied(refusal) => (s, refusal)
    case User(name) => (s, ShowsMail(Store.MailListed(s.tables.mail, name, BoxOf(typ) == "sent")))
  }

  function GottenMail(env: Env, s: Instance, id: string, h: Header, now: nat): (Instance, Response) {
    var (s, auth) := Authenticate(env, s, "GET", "/api/mail/" + id, h, None, now);
    match auth
    case Denied(refusal) => (s, refusal)
    case User(name) =>
      var refs := Store.MailFound(s.tables.mail, id, name);
      (s, if refs == {} then Fail(404, "Mail not found") else ShowsMail(refs))
  }

  function ListedBlocks(env: Env, s: Instance, h: Header, now: nat): (Instance, Response) {
    var (s, auth) := Authenticate(env, s, "GET", "/api/block", h, None, now);
    match auth
    case Denied(refusal) => (s, refusal)
    case User(name) => (s, ShowsBlocks(Store.BlocksListed(s.tables.blocks, name)))
  }

  /** A local account's keys. */
  function LocalKeys(s: Instance, name: string): Response {
    if name in s.tables.users then ShowsKeys(s.tables.users[name].kem, s.tables.users[name].sig)
    else Fail(404, "User not found")
  }

  /** `pubkey`: anybody may ask for the keys of a local or a remote user. */
  function LookedUp(cfg: Config, s: Instance, name: string, remote: Remote, now: nat): (Instance, Response) {
    if '@' !in name then (s, LocalKeys(s, name))
    else
      match ParseAddress(name, cfg.domain)
      case Err(_) => (s, Fail(404, "User not found"))
      case Ok(a) =>
        if a.own then (s, LocalKeys(s, a.local))
        else if !cfg.federationEnabled then (s, Fail(403, "Federation disabled"))
        else
          var (cache, r) := KeyCache.Looked(s.cache, Stored(a), false, remote.fetch(a, false), now);
          (s.(cache := cache),
           match r
           case Found(k) => ShowsKeys(k.kem, k.sig)
           case RemoteNotFound => Fail(404, "External user not found")
           case Unreachable => Fail(502, "Failed to connect"))
  }

  /******* Steps *******/

  datatype Request =
    | RegisterUser(form: Registration)
    | SendMail(submission: Submission)
    | BurnMail(id: string, header: Header)
    | BlockTarget(header: Header, body: string, target: Option<string>)
    | UnblockTarget(header: Header, body: string, target: Option<string>)
    | RotateKeys(header: Header, body: string, keys: Option<(string, string)>)
    | DestroyAccount(header: Header)
    | ListMail(typ: string, header: Header)
    | GetMail(id: string, header: Header)
    | ListBlocks(header: Header)
    | LookUp(name: string)

  /** Every other request is signed in its header. */
  predicate HasHeader(r: Request) { !r.RegisterUser? && !r.SendMail? && !r.LookUp? }

  /** Requests that change no table. */
  predicate Reads(r: Request) { r.ListMail? || r.GetMail? || r.ListBlocks? || r.LookUp? }

  /** What the signature in a header covers, besides the name and the time. */
  datatype Route = Route(method_: string, path: string, body: Option<string>)

  function RouteOf(r: Request): Route
    requires HasHeader(r)
  {
    match r
    case BurnMail(id, _) => Route("DELETE", "/api/mail/" + id, None)
    case BlockTarget(_, body, _) => Route("POST", "/api/block", Some(body))
    case UnblockTarget(_, body, _) => Route("DELETE", "/api/block", Some(body))
    case RotateKeys(_, body, _) => Route("POST", "/api/rotate", Some(body))
    case DestroyAccount(_) => Route("DELETE", "/api/destroy", None)
    case ListMail(typ, _) => Route("GET", "/api/mail?type=" + BoxOf(typ), None)
    case GetMail(id, _) => Route("GET", "/api/mail/" + id, None)
    case ListBlocks(_) => Route("GET", "/api/block", None)
  }

  /** A request, when it comes, what the network answers meanwhile, and the
      identifiers drawn for it. */
  datatype Event = Event(request: Request, now: nat, remote: Remote, ids: seq<string>)

  function Step(env: Env, cfg: Config, s: Instance, e: Event): (Instance, Response) {
    match e.request
    case RegisterUser(form) => Register(env, cfg, s, form, e.now)
    case SendMail(m) => Send(env, cfg, s, m, e.remote, e.now, e.ids)
    case BurnMail(id, h) => Burn(env, s, id, h, e.now)
    case BlockTarget(h, body, target) => Block(env, cfg, s, h, body, target, e.now)
    case UnblockTarget(h, body, target) => Unblock(env, cfg, s, h, body, target, e.now)
    case RotateKeys(h, body, keys) => Rotate(env, s, h, body, keys, e.now)
    case DestroyAccount(h) => Destroy(env, s, h, e.now)
    case ListMail(typ, h) => ListedMail(env, s, typ, h, e.now)
    case GetMail(id, h) => GottenMail(env, s, id, h, e.now)
    case ListBlocks(h) => ListedBlocks(env, s, h, e.now)
    case LookUp(name) => LookedUp(cfg, s, name, e.remote, e.now)
  }

  type Run = seq<Event>

  /** The instance after a run that starts from empty tables. */
  function After(env: Env, cfg: Config, run: Run): Instance {
    if run == [] then FRESH
    else Step(env, cfg, After(env, cfg, run[..|run| - 1]), run[|run| - 1]).0
  }
}
