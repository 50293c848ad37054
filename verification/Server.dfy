/**
 The server object (server/go/internal/api): the handlers as they run, updating
 the database, the two sets and the key cache in place, each proved to be the
 step of module Handlers.
 */
module Server {
  import opened Text
  import opened Addresses
  import opened Handlers
  import Signed
  import TtlSet
  import Store
  import KeyCache
  import Invariants

  class Server {
    const env: Env
    const cfg: Config
    const db: Store.DB
    const seen: TtlSet.Set
    const spent: TtlSet.Set
    const keys: KeyCache.Keys
    ghost var origin: map<string, Origin>
    ghost var log: set<Logged>

    ghost predicate Valid() {
      && seen != spent
      && seen.Params() == SEEN && spent.Params() == SPENT
      && db.sha256 == env.sha256
    }

    ghost function Abs(): Instance
      reads this, db, seen, spent, keys
    {
      Instance(db.Abs(), seen.Abs(), spent.Abs(), keys.cache, origin, log)
    }

    constructor (env: Env, cfg: Config)
      ensures Valid() && Abs() == FRESH
      ensures this.env == env && this.cfg == cfg
    {
      this.env, this.cfg := env, cfg;
      db := new Store.DB(env.sha256);
      seen := new TtlSet.Set(600 * SECOND, 250_000);
      spent := new TtlSet.Set(72 * 3600 * SECOND, 250_000);
      keys := new KeyCache.Keys();
      origin, log := map[], {};
    }

    /** `fresh` */
    method Fresh(signature: string, pow: string, now: nat) returns (ok: bool)
      requires Valid()
      modifies seen, spent
      ensures (Abs(), ok) == MarkFresh(env, old(Abs()), signature, pow, now)
    {
      var newSig := seen.Add(env.sha256(signature), now);
      if !newSig {
        return false;
      }
      ok := spent.Add(env.sha256(pow), now);
    }

    /** `auth`: answers itself when it refuses. */
    method Auth(method_: string, path: string, h: Header, body: Option<string>, now: nat) returns (a: Handlers.Auth)
      requires Valid()
      modifies seen, spent
      ensures (Abs(), a) == Authenticate(env, old(Abs()), method_, path, h, body, now)
    {
      hide MarkFresh;
      if h.username == "" || h.timestamp == "" || h.signature == "" || h.pow == "" {
        return Denied(Fail(401, "Missing auth headers"));
      }
      if !PowOk(env, h.pow, h.username, now) {
        return Denied(Fail(403, "Invalid Proof of Work"));
      }
      if !InWindow(h.timestamp, now) {
        return Denied(Fail(403, "Timestamp out of window"));
      }
      var user := db.GetUser(h.username);
      if user.None? {
        return Denied(Fail(401, "User not found"));
      }
      if user.value.sig == "" {
        return Denied(Fail(401, "User not found or destroyed"));
      }
      if !Verifies(env, user.value.sig, HeaderText(env, method_, path, h, body), h.signature) {
        return Denied(Fail(401, "Invalid signature"));
      }
      var isNew := Fresh(h.signature, h.pow, now);
      if !isNew {
        return Denied(Fail(403, "Replayed request"));
      }
      return User(h.username);
    }

    method Register(b: Registration, now: nat) returns (r: Response)
      requires Valid()
      modifies db, seen, spent
      ensures (Abs(), r) == Handlers.Register(env, cfg, old(Abs()), b, now)
    {
      hide MarkFresh, ValidUsername, IsReserved, PowOk, InWindow, ValidKEM, Signed.RegisterMessage, Store.UserCreated;
      if !cfg.registrationEnabled {
        return Fail(403, "Registration is disabled");
      }
      if b.username == "" || b.kem == "" || b.sig == "" || b.timestamp == "" || b.signature == "" || b.pow == "" {
        return Fail(400, "Missing required fields");
      }
      var valid := ScanUsername(b.username);
      if !valid {
        return Fail(400, "Invalid username format");
      }
      if IsReserved(b.username, cfg.reserved) {
        return Fail(403, "Username is reserved");
      }
      if !PowOk(env, b.pow, b.username, now) {
        return Fail(403, "Invalid Proof of Work");
      }
      if !InWindow(b.timestamp, now) {
        return Fail(403, "Timestamp out of window");
      }
      if !env.parsesSig(b.sig) || !ValidKEM(env, b.kem) {
        return Fail(400, "Invalid public key");
      }
      var msg := Signed.BuildRegisterMessage(b.username, b.kem, b.sig, b.timestamp);
      if !env.verify(b.sig, msg, b.signature) {
        return Fail(401, "Invalid signature");
      }
      var isNew := Fresh(b.signature, b.pow, now);
      if !isNew {
        return Fail(403, "Replayed request");
      }
      var ok := db.CreateUser(b.username, Store.User(b.kem, b.sig, now / SECOND));
      return if ok then Done(201) else Fail(409, "Username already taken");
    }

    /** `keysOf`: from the database for a local user, through the cache for a
        remote one. */
    method KeysFor(a: Address, fresh_: bool, remote: Remote, now: nat) returns (k: Handlers.Keys)
      modifies keys
      ensures (keys.cache, k) == KeysOf(cfg, db.users, old(keys.cache), a, fresh_, remote, now)
    {
      if a.own {
        var user := db.GetUser(a.local);
        return if user.Some? then Handlers.Keys(user.value.kem, user.value.sig, false) else NoUser;
      }
      if !cfg.federationEnabled {
        return NoUser;
      }
      var found := keys.Lookup(Stored(a), fresh_, remote.fetch(a, fresh_), now);
      match found {
        case Found(rk) => return Handlers.Keys(rk.kem, rk.sig, !fresh_);
        case RemoteNotFound => return NoUser;
        case Unreachable => return NoAnswer;
      }
    }

    method RecipientKeys(recipient: Address, fingerprint: string, remote: Remote, now: nat)
      returns (refusal: Option<Response>)
      modifies keys
      ensures (keys.cache, refusal)
           == CheckRecipient(env, cfg, db.users, old(keys.cache), recipient, fingerprint, remote, now)
    {
      hide KeysOf, Fingerprint;
      var k := KeysFor(recipient, false, remote, now);
      if k.NoUser? {
        return Some(Fail(404, "Recipient not found"));
      }
      if k.NoAnswer? {
        return Some(Fail(502, "Recipient instance unreachable"));
      }
      var kem := k.kem;
      if kem == "" {
        return Some(Fail(410, "USER_DESTROYED"));
      }
      if Fingerprint(env, kem) != fingerprint && k.cached {
        var again := KeysFor(recipient, true, remote, now);
        kem := if again.Keys? then again.kem else "";
      }
      if Fingerprint(env, kem) != fingerprint {
        return Some(Fail(409, "KEY_MISMATCH"));
      }
      return None;
    }

    /** The signature under the sender's key; a cached key may predate a rotation,
        so a failure asks again (`verifyFresh`). */
    method VerifySender(sender: Address, key: string, cached: bool, msg: string, signature: string,
                        remote: Remote, now: nat)
      returns (c: KeyCheck)
      modifies keys
      ensures (keys.cache, c)
           == CheckSignature(env, cfg, db.users, old(keys.cache), sender, key, cached, msg, signature, remote, now)
    {
      hide KeysOf, Verifies;
      if Verifies(env, key, msg, signature) {
        return Signer(key);
      }
      if cached {
        var again := KeysFor(sender, true, remote, now);
        if again.Keys? && Verifies(env, again.sig, msg, signature) {
          return Signer(again.sig);
        }
      }
      return Refused(Fail(401, "Invalid signature"));
    }

    method SenderAndRecipient(sender: Address, recipient: Address, fields: Signed.MailFields, signature: string,
                              remote: Remote, now: nat)
      returns (c: KeyCheck)
      modifies keys
      ensures (keys.cache, c)
           == CheckKeys(env, cfg, db.users, old(keys.cache), sender, recipient, fields, signature, remote, now)
    {
      hide KeysOf, CheckRecipient, CheckSignature, Signed.MailMessage;
      var k := KeysFor(sender, false, remote, now);
      if k.NoAnswer? {
        return Refused(Fail(503, "Sender instance unreachable"));
      }
      if k.NoUser? || k.sig == "" {
        return Refused(Fail(401, "Sender not registered"));
      }
      var refusal := RecipientKeys(recipient, fields.fingerprint, remote, now);
      if refusal.Some? {
        return Refused(refusal.value);
      }
      var msg := Signed.BuildMailMessage(fields);
      c := VerifySender(sender, k.sig, k.cached, msg, signature, remote, now);
    }

    /** `sendMail` up to the relay. */
    method Accepting(m: Submission, remote: Remote, now: nat) returns (front: Front)
      requires Valid()
      modifies spent, keys
      ensures (Abs(), front) == SendFront(env, cfg, old(Abs()), m, remote, now)
    {
      hide CheckForm, CheckKeys, TtlSet.AddTo, ReplyRefusal, Stored;
      var form := CheckForm(env, cfg, m, now);
      if form.BadForm? {
        return Answer(form.response);
      }
      var sender, recipient, fields := form.sender, form.recipient, form.fields;
      var check := SenderAndRecipient(sender, recipient, fields, m.signature, remote, now);
      if check.Refused? {
        return Answer(check.response);
      }
      if recipient.own {
        var blocked := db.Blocked(Stored(recipient), [Stored(sender), sender.domain]);
        if blocked {
          return Answer(Fail(403, "Recipient has blocked this sender"));
        }
      }
      var id := db.MailIDBySignature(m.signature);
      if id.Some? {
        return Answer(Created(id.value));
      }
      if fields.encReplyTo != "" && !recipient.own {
        var refusal := ReplyRefusal(remote.level);
        if refusal.Some? {
          return Answer(refusal.value);
        }
      }
      var isNew := spent.Add(env.sha256(m.pow), now);
      if !isNew {
        return Answer(Fail(403, "Invalid Proof of Work"));
      }
      return Accept(sender, recipient, Origin(fields, check.key));
    }

    method SendMail(m: Submission, remote: Remote, now: nat, ids: seq<string>) returns (r: Response)
      requires Valid()
      modifies this`origin, this`log, db`mail, spent, keys
      ensures (Abs(), r) == Send(env, cfg, old(Abs()), m, remote, now, ids)
    {
      hide SendFront, Store.InsertFrom, MailRow;
      var front := Accepting(m, remote, now);
      if front.Answer? {
        return front.response;
      }
      var Accept(sender, recipient, mailOrigin) := front;
      if !recipient.own {
        var refusal := RelayRefusal(remote.relay);
        if refusal.Some? {
          return refusal.value;
        }
      }
      var row := MailRow(m, sender, recipient, mailOrigin, now);
      assert row.signature == m.signature by { RowSignature(m, sender, recipient, mailOrigin, now); }
      ghost var h := env.sha256(m.signature);
      Invariants.InsertedRow(db.mail, h, row, ids);
      var stored := db.InsertMail(row, ids);
      match stored {
        case NoId => return Fail(500, "Database error");
        case Stored(id, dup) =>
          if !dup {
            origin, log := origin[h := mailOrigin], log + {Logged(h, row.sender, row.recipient)};
          }
          return Created(id);
      }
    }

    method BurnMail(id: string, h: Header, now: nat) returns (r: Response)
      requires Valid()
      modifies db`mail, seen, spent
      ensures (Abs(), r) == Burn(env, old(Abs()), id, h, now)
    {
      hide Authenticate, Store.MailDeleted;
      var a := Auth("DELETE", "/api/mail/" + id, h, None, now);
      if a.Denied? {
        return a.response;
      }
      var ok := db.DeleteMail(id, a.name);
      return if ok then Done(200) else Fail(404, "Mail not found");
    }

    method BlockTarget(h: Header, body: string, target: Option<string>, now: nat) returns (r: Response)
      requires Valid()
      modifies db`blocks, seen, spent
      ensures (Abs(), r) == Block(env, cfg, old(Abs()), h, body, target, now)
    {
      hide Authenticate, TargetOf, Stored;
      var a := Auth("POST", "/api/block", h, Some(body), now);
      if a.Denied? {
        return a.response;
      }
      var (t, refusal) := TargetOf(cfg, target);
      if t.None? {
        return refusal;
      }
      db.AddBlock(a.name, Stored(t.value), now / SECOND);
      return Done(201);
    }

    method UnblockTarget(h: Header, body: string, target: Option<string>, now: nat) returns (r: Response)
      requires Valid()
      modifies db`blocks, seen, spent
      ensures (Abs(), r) == Unblock(env, cfg, old(Abs()), h, body, target, now)
    {
      hide Authenticate, Stored;
      var a := Auth("DELETE", "/api/block", h, Some(body), now);
      if a.Denied? {
        return a.response;
      }
      var (t, refusal) := TargetOf(cfg, target);
      if t.None? {
        return refusal;
      }
      db.RemoveBlock(a.name, [Stored(t.value), target.value]);
      return Done(200);
    }

    method RotateKeys(h: Header, body: string, newKeys: Option<(string, string)>, now: nat) returns (r: Response)
      requires Valid()
      modifies db, seen, spent
      ensures (Abs(), r) == Rotate(env, old(Abs()), h, body, newKeys, now)
    {
      hide Authenticate, Store.KeysRotated, ValidKEM;
      var a := Auth("POST", "/api/rotate", h, Some(body), now);
      if a.Denied? {
        return a.response;
      }
      if newKeys.None? {
        return Fail(400, "Invalid JSON");
      }
      var (kem, sig) := newKeys.value;
      if kem == "" || sig == "" {
        return Fail(400, "Missing new keys");
      }
      if !env.parsesSig(sig) || !ValidKEM(env, kem) {
        return Fail(400, "Invalid public key");
      }
      var ok := db.RotateKeys(a.name, kem, sig);
      return if ok then Done(200) else Fail(500, "Database error");
    }

    method DestroyAccount(h: Header, now: nat) returns (r: Response)
      requires Valid()
      modifies db, seen, spent
      ensures (Abs(), r) == Destroy(env, old(Abs()), h, now)
    {
      hide Authenticate, Store.UserDestroyed;
      var a := Auth("DELETE", "/api/destroy", h, None, now);
      if a.Denied? {
        return a.response;
      }
      var ok := db.DestroyUser(a.name);
      return if ok then Done(200) else Fail(500, "Database error");
    }

    method ListMail(typ: string, h: Header, now: nat) returns (r: Response)
      requires Valid()
      modifies seen, spent
      ensures (Abs(), r) == ListedMail(env, old(Abs()), typ, h, now)
    {
      hide Authenticate, Store.MailListed;
      var box := typ;
      if box == "" {
        box := "inbox";
      }
      var a := Auth("GET", "/api/mail?type=" + box, h, None, now);
      if a.Denied? {
        return a.response;
      }
      var refs := db.ListMail(a.name, box == "sent");
      return ShowsMail(refs);
    }

    method GetMail(id: string, h: Header, now: nat) returns (r: Response)
      requires Valid()
      modifies seen, spent
      ensures (Abs(), r) == GottenMail(env, old(Abs()), id, h, now)
    {
      hide Authenticate, Store.MailFound;
      var a := Auth("GET", "/api/mail/" + id, h, None, now);
      if a.Denied? {
        return a.response;
      }
      var refs := db.GetMail(id, a.name);
      if refs == {} {
        return Fail(404, "Mail not found");
      }
      return ShowsMail(refs);
    }

    method ListBlocks(h: Header, now: nat) returns (r: Response)
      requires Valid()
      modifies seen, spent
      ensures (Abs(), r) == ListedBlocks(env, old(Abs()), h, now)
    {
      hide Authenticate, Store.BlocksListed;
      var a := Auth("GET", "/api/block", h, None, now);
      if a.Denied? {
        return a.response;
      }
      var rows := db.ListBlocks(a.name);
      return ShowsBlocks(rows);
    }

    method Pubkey(name: string, remote: Remote, now: nat) returns (r: Response)
      requires Valid()
      modifies keys
      ensures (Abs(), r) == LookedUp(cfg, old(Abs()), name, remote, now)
    {
      hide ParseAddress, Stored, KeyCache.Looked;
      var local := name;
      if '@' in name {
        var addr := ParseAddress(name, cfg.domain);
        if addr.Err? {
          return Fail(404, "User not found");
        }
        if !addr.address.own {
          if !cfg.federationEnabled {
            return Fail(403, "Federation disabled");
          }
          var k := keys.Lookup(Stored(addr.address), false, remote.fetch(addr.address, false), now);
          match k {
            case Found(found) => return ShowsKeys(found.kem, found.sig);
            case RemoteNotFound => return Fail(404, "External user not found");
            case Unreachable => return Fail(502, "Failed to connect");
          }
        }
        local := addr.address.local;
      }
      var u := db.GetUser(local);
      if u.None? {
        return Fail(404, "User not found");
      }
      return ShowsKeys(u.value.kem, u.value.sig);
    }

    /** Any request: the server's state moves as the step function says. */
    method Handle(e: Event) returns (r: Response)
      requires Valid()
      modifies this, db, seen, spent, keys
      ensures (Abs(), r) == Step(env, cfg, old(Abs()), e)
    {
      hide Handlers.Register, Send, Burn, Block, Unblock, Rotate, Destroy, ListedMail, GottenMail, ListedBlocks, LookedUp;
      match e.request {
        case RegisterUser(form) => r := Register(form, e.now);
        case SendMail(m) => r := SendMail(m, e.remote, e.now, e.ids);
        case BurnMail(id, h) => r := BurnMail(id, h, e.now);
        case BlockTarget(h, body, target) => r := BlockTarget(h, body, target, e.now);
        case UnblockTarget(h, body, target) => r := UnblockTarget(h, body, target, e.now);
        case RotateKeys(h, body, newKeys) => r := RotateKeys(h, body, newKeys, e.now);
        case DestroyAccount(h) => r := DestroyAccount(h, e.now);
        case ListMail(typ, h) => r := ListMail(typ, h, e.now);
        case GetMail(id, h) => r := GetMail(id, h, e.now);
        case ListBlocks(h) => r := ListBlocks(h, e.now);
        case LookUp(name) => r := Pubkey(name, e.remote, e.now);
      }
    }
  }

  lemma RowSignature(m: Submission, sender: Address, recipient: Address, o: Origin, now: nat)
    ensures MailRow(m, sender, recipient, o, now).signature == m.signature
  {
  }
}
