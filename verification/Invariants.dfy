/**
 What every run of an instance keeps: the accounts, the blocklist and the stored
 mail stay in step although the tables name users only by strings.
 */
module Invariants {
  import opened Text
  import opened Addresses
  import opened Handlers
  import Signed
  import Store
  import TtlSet

  /******* The invariant *******/

  predicate Destroyed(u: Store.User) { u.kem == "" && u.sig == "" }

  predicate Live(u: Store.User) { u.kem != "" && u.sig != "" }

  /** Names are valid, unique up to case, and have both keys or neither. */
  ghost predicate UsersOk(users: Store.Users) {
    && (forall u :: u in users ==> ValidUsername(u) && (Live(users[u]) || Destroyed(users[u])))
    && (forall u, v :: u in users && v in users && Lower(u) == Lower(v) ==> u == v)
  }

  /** Blocks belong to live users and name their targets in normal form. */
  ghost predicate BlocksOk(cfg: Config, t: Store.Tables) {
    forall k :: k in t.blocks ==>
      && k.0 in t.users && Live(t.users[k.0])
      && ParseBlockTarget(k.1, cfg.domain).Ok?
      && Stored(ParseBlockTarget(k.1, cfg.domain).address) == k.1
  }

  /** A local sender signed the mail with the key it has now. */
  predicate SenderOk(users: Store.Users, sender: Address, o: Origin) {
    sender.own ==> sender.local in users && Live(users[sender.local]) && users[sender.local].sig == o.key
  }

  /** A local recipient's key now is the one the mail was encrypted to. */
  predicate RecipientOk(env: Env, users: Store.Users, recipient: Address, o: Origin) {
    recipient.own ==>
      && recipient.local in users && Live(users[recipient.local])
      && Fingerprint(env, users[recipient.local].kem) == o.fields.fingerprint
  }

  predicate ContentOk(m: Store.Mail, o: Origin) {
    && m.encSubject == o.fields.encSubject && m.encBody == o.fields.encBody
    && m.encReplyTo == o.fields.encReplyTo && m.size == o.fields.size
  }

  predicate PartiesOk(env: Env, cfg: Config, users: Store.Users, m: Store.Mail, o: Origin) {
    var a, b := ParseAddress(o.fields.sender, cfg.domain), ParseAddress(o.fields.recipient, cfg.domain);
    && a.Ok? && b.Ok?
    && m.sender == Stored(a.address) && m.recipient == Stored(b.address)
    && (a.address.own || b.address.own)
    && (!b.address.own ==> '@' in o.fields.sender)
    && SenderOk(users, a.address, o)
    && RecipientOk(env, users, b.address, o)
  }

  /** Row `h` of the mail table, with its history. */
  ghost predicate RowOk(env: Env, cfg: Config, s: Instance, h: string)
    requires h in s.tables.mail
  {
    var m := s.tables.mail[h];
    && h == env.sha256(m.signature)
    && h in s.origin
    && Verifies(env, s.origin[h].key, Signed.MailMessage(s.origin[h].fields), m.signature)
    && ContentOk(m, s.origin[h])
    && PartiesOk(env, cfg, s.tables.users, m, s.origin[h])
    && Logged(h, m.sender, m.recipient) in s.log
  }

  ghost predicate MailOk(env: Env, cfg: Config, s: Instance) {
    forall h :: h in s.tables.mail ==> RowOk(env, cfg, s, h)
  }

  ghost predicate IdsDistinct(mail: Store.MailTable) {
    forall h, g :: h in mail && g in mail && mail[h].id == mail[g].id ==> h == g
  }

  ghost predicate Inv(env: Env, cfg: Config, s: Instance) {
    && UsersOk(s.tables.users)
    && BlocksOk(cfg, s.tables)
    && MailOk(env, cfg, s)
    && IdsDistinct(s.tables.mail)
  }

  /******* Authentication changes no table *******/

  lemma MarkFreshFrame(env: Env, s: Instance, signature: string, pow: string, now: nat)
    ensures var s' := MarkFresh(env, s, signature, pow, now).0;
            s' == s.(seen := s'.seen, spent := s'.spent)
  {
    hide TtlSet.AddTo;
  }

  lemma AuthenticateFrame(env: Env, s: Instance, method_: string, path: string, h: Header,
                          body: Option<string>, now: nat)
    ensures var (s', auth) := Authenticate(env, s, method_, path, h, body, now);
            && s' == s.(seen := s'.seen, spent := s'.spent)
            && (auth.User? ==> auth.name == h.username && h.username in s.tables.users
                               && s.tables.users[h.username].sig != "")
            && (auth.Denied? ==> auth.response.Fail?)
  {
    MarkFreshFrame(env, s, h.signature, h.pow, now);
    hide MarkFresh, PowOk, InWindow, Verifies, HeaderText;
  }

  lemma InvFrame(env: Env, cfg: Config, s: Instance, s': Instance)
    requires Inv(env, cfg, s)
    requires s' == s.(seen := s'.seen, spent := s'.spent, cache := s'.cache)
    ensures Inv(env, cfg, s')
  {
    forall h | h in s'.tables.mail ensures RowOk(env, cfg, s', h) {
      assert RowOk(env, cfg, s, h);
    }
  }

  /******* Changes of the users table *******/

  /** Mail stays in order when the accounts its local parties have do not change. */
  lemma MailOkFrame(env: Env, cfg: Config, s: Instance, s': Instance)
    requires MailOk(env, cfg, s) && s'.origin == s.origin && s.log <= s'.log
    requires forall h :: h in s'.tables.mail ==> h in s.tables.mail && s'.tables.mail[h] == s.tables.mail[h]
    requires forall h, u :: h in s'.tables.mail && u in s.tables.users && Store.PartyTo(s'.tables.mail[h], u) ==>
               u in s'.tables.users && s'.tables.users[u] == s.tables.users[u]
    ensures MailOk(env, cfg, s')
  {
    forall h | h in s'.tables.mail ensures RowOk(env, cfg, s', h) {
      assert RowOk(env, cfg, s, h);
      var m, o := s.tables.mail[h], s.origin[h];
      PartiesFrame(env, cfg, s.tables.users, s'.tables.users, m, o);
    }
  }

  lemma PartiesFrame(env: Env, cfg: Config, users: Store.Users, users': Store.Users, m: Store.Mail, o: Origin)
    requires PartiesOk(env, cfg, users, m, o)
    requires forall u :: u in users && Store.PartyTo(m, u) ==> u in users' && users'[u] == users[u]
    ensures PartiesOk(env, cfg, users', m, o)
  {
    var a, b := ParseAddress(o.fields.sender, cfg.domain).address, ParseAddress(o.fields.recipient, cfg.domain).address;
    OwnStoredBare(o.fields.sender, cfg.domain);
    OwnStoredBare(o.fields.recipient, cfg.domain);
    hide ParseAddress, Stored;
    assert a.own ==> m.sender == a.local;
    assert b.own ==> m.recipient == b.local;
  }

  lemma OwnStoredBare(text: string, domain: string)
    requires ParseAddress(text, domain).Ok?
    ensures var a := ParseAddress(text, domain).address; a.own ==> Stored(a) == a.local
  {
  }

  /** A registration changes nothing but the sets, or adds one new account. */
  lemma RegisterShape(env: Env, cfg: Config, s: Instance, b: Registration, now: nat)
    ensures var s' := Register(env, cfg, s, b, now).0;
            var u := Store.User(b.kem, b.sig, now / SECOND);
            || s' == s.(seen := s'.seen, spent := s'.spent)
            || (&& ValidUsername(b.username) && Live(u) && !Store.Taken(s.tables.users, b.username)
                && s' == s.(seen := s'.seen, spent := s'.spent,
                            tables := s.tables.(users := s.tables.users[b.username := u])))
  {
    hide MarkFresh, PowOk, InWindow, ValidKEM, ValidUsername, IsReserved, Signed.RegisterMessage, Store.Taken;
    MarkFreshFrame(env, s, b.signature, b.pow, now);
  }

  lemma RegisterKeeps(env: Env, cfg: Config, s: Instance, b: Registration, now: nat)
    requires Inv(env, cfg, s)
    ensures Inv(env, cfg, Register(env, cfg, s, b, now).0)
  {
    hide Register, Inv, ValidUsername, Live;
    var s' := Register(env, cfg, s, b, now).0;
    RegisterShape(env, cfg, s, b, now);
    if s'.tables == s.tables {
      InvFrame(env, cfg, s, s');
    } else {
      NewAccountKeeps(env, cfg, s, s', b.username, Store.User(b.kem, b.sig, now / SECOND));
    }
  }

  lemma NewAccountKeeps(env: Env, cfg: Config, s: Instance, s': Instance, name: string, u: Store.User)
    requires Inv(env, cfg, s) && ValidUsername(name) && Live(u) && !Store.Taken(s.tables.users, name)
    requires s'.tables == s.tables.(users := s.tables.users[name := u]) && s'.origin == s.origin && s'.log == s.log
    ensures Inv(env, cfg, s')
  {
    assert name !in s.tables.users;
    AddUserKeeps(s.tables.users, name, u);
    hide UsersOk, RowOk, MailOk, IdsDistinct, BlocksOk, ValidUsername, Live, Lower, Store.Taken, Store.PartyTo;
    assert forall v :: v in s.tables.users ==> v in s'.tables.users && s'.tables.users[v] == s.tables.users[v];
    MailOkFrame(env, cfg, s, s');
    MoreUsers(cfg, s.tables, s'.tables);
  }

  lemma MoreUsers(cfg: Config, t: Store.Tables, t': Store.Tables)
    requires BlocksOk(cfg, t) && t'.blocks == t.blocks
    requires forall u :: u in t.users ==> u in t'.users && t'.users[u] == t.users[u]
    ensures BlocksOk(cfg, t')
  {
    hide ParseBlockTarget, Stored;
  }

  lemma AddUserKeeps(users: Store.Users, name: string, u: Store.User)
    requires UsersOk(users) && ValidUsername(name) && Live(u) && !Store.Taken(users, name)
    ensures UsersOk(users[name := u])
  {
    hide ValidUsername, Lower;
  }

  lemma ReplaceUserKeeps(users: Store.Users, name: string, u: Store.User)
    requires UsersOk(users) && name in users && (Live(u) || Destroyed(u))
    ensures UsersOk(users[name := u])
  {
    hide ValidUsername, Lower;
  }

  /** Replacing one account's keys, once the mail it is party to is gone. */
  lemma ReplaceKeysKeeps(env: Env, cfg: Config, s: Instance, s': Instance, name: string, u: Store.User)
    requires Inv(env, cfg, s) && name in s.tables.users && (Live(u) || Destroyed(u))
    requires s'.tables.users == s.tables.users[name := u]
    requires s'.tables.mail == Store.WithoutParty(s.tables.mail, name)
    requires forall k :: k in s'.tables.blocks ==> k in s.tables.blocks && (Live(u) || k.0 != name)
    requires s'.origin == s.origin && s'.log == s.log
    ensures Inv(env, cfg, s')
  {
    hide UsersOk, RowOk, MailOk, IdsDistinct, BlocksOk, Live, Destroyed;
    ReplaceUserKeeps(s.tables.users, name, u);
    MailOkFrame(env, cfg, s, s');
    FewerIds(s.tables.mail, s'.tables.mail);
    ReplacedBlocks(cfg, s.tables, s'.tables, name, u);
  }

  lemma FewerIds(mail: Store.MailTable, mail': Store.MailTable)
    requires IdsDistinct(mail)
    requires forall h :: h in mail' ==> h in mail && mail'[h] == mail[h]
    ensures IdsDistinct(mail')
  {
  }

  lemma ReplacedBlocks(cfg: Config, t: Store.Tables, t': Store.Tables, name: string, u: Store.User)
    requires BlocksOk(cfg, t) && name in t.users && t'.users == t.users[name := u]
    requires forall k :: k in t'.blocks ==> k in t.blocks && (Live(u) || k.0 != name)
    ensures BlocksOk(cfg, t')
  {
    hide ParseBlockTarget, Stored;
  }

  lemma RotateKeeps(env: Env, cfg: Config, s: Instance, h: Header, body: string,
                    keys: Option<(string, string)>, now: nat)
    requires Inv(env, cfg, s)
    ensures Inv(env, cfg, Rotate(env, s, h, body, keys, now).0)
  {
    var (s', response) := Rotate(env, s, h, body, keys, now);
    AuthenticateFrame(env, s, "POST", "/api/rotate", h, Some(body), now);
    hide Authenticate, ValidKEM, Inv;
    var (_, auth) := Authenticate(env, s, "POST", "/api/rotate", h, Some(body), now);
    assert auth.Denied? ==> response == auth.response;
    if response == Done(200) {
      var u := s.tables.users[h.username].(kem := keys.value.0, sig := keys.value.1);
      ReplaceKeysKeeps(env, cfg, s, s', h.username, u);
    } else {
      InvFrame(env, cfg, s, s');
    }
  }

  lemma DestroyKeeps(env: Env, cfg: Config, s: Instance, h: Header, now: nat)
    requires Inv(env, cfg, s)
    ensures Inv(env, cfg, Destroy(env, s, h, now).0)
  {
    var (s', response) := Destroy(env, s, h, now);
    AuthenticateFrame(env, s, "DELETE", "/api/destroy", h, None, now);
    hide Authenticate, Inv;
    var (_, auth) := Authenticate(env, s, "DELETE", "/api/destroy", h, None, now);
    assert auth.Denied? ==> response == auth.response;
    if response == Done(200) {
      var u := s.tables.users[h.username].(kem := "", sig := "");
      ReplaceKeysKeeps(env, cfg, s, s', h.username, u);
    } else {
      InvFrame(env, cfg, s, s');
    }
  }

  /******* Changes of the blocklist *******/

  lemma AddBlockKeeps(env: Env, cfg: Config, s: Instance, s': Instance, name: string, a: Address, at: int)
    requires Inv(env, cfg, s) && name in s.tables.users && s.tables.users[name].sig != ""
    requires ParseBlockTarget(Stored(a), cfg.domain) == Ok(a)
    requires s' == s.(seen := s'.seen, spent := s'.spent,
                      tables := s.tables.(blocks := s.tables.blocks[(name, Stored(a)) := at]))
    ensures Inv(env, cfg, s')
  {
    hide ParseBlockTarget, Stored;
    MailOkFrame(env, cfg, s, s');
    assert Live(s.tables.users[name]);
    hide RowOk, UsersOk, MailOk;
    assert BlocksOk(cfg, s'.tables);
  }

  lemma BlockKeeps(env: Env, cfg: Config, s: Instance, h: Header, body: string, target: Option<string>, now: nat)
    requires Inv(env, cfg, s)
    ensures Inv(env, cfg, Block(env, cfg, s, h, body, target, now).0)
  {
    var (s', response) := Block(env, cfg, s, h, body, target, now);
    AuthenticateFrame(env, s, "POST", "/api/block", h, Some(body), now);
    hide Authenticate, Inv, ParseBlockTarget, Stored;
    var (_, auth) := Authenticate(env, s, "POST", "/api/block", h, Some(body), now);
    assert auth.Denied? ==> response == auth.response;
    if response == Done(201) {
      StoredReparses(target.value, cfg.domain);
      AddBlockKeeps(env, cfg, s, s', h.username, ParseBlockTarget(target.value, cfg.domain).address, now / SECOND);
    } else {
      InvFrame(env, cfg, s, s');
    }
  }

  lemma FewerRowsKeep(env: Env, cfg: Config, s: Instance, s': Instance)
    requires Inv(env, cfg, s)
    requires s'.tables.users == s.tables.users && s'.origin == s.origin && s'.log == s.log
    requires forall h :: h in s'.tables.mail ==> h in s.tables.mail && s'.tables.mail[h] == s.tables.mail[h]
    requires forall k :: k in s'.tables.blocks ==> k in s.tables.blocks
    ensures Inv(env, cfg, s')
  {
    hide RowOk, UsersOk, MailOk, BlocksOk, IdsDistinct;
    MailOkFrame(env, cfg, s, s');
    FewerIds(s.tables.mail, s'.tables.mail);
    FewerBlocks(cfg, s.tables, s'.tables);
  }

  lemma FewerBlocks(cfg: Config, t: Store.Tables, t': Store.Tables)
    requires BlocksOk(cfg, t) && t'.users == t.users
    requires forall k :: k in t'.blocks ==> k in t.blocks
    ensures BlocksOk(cfg, t')
  {
    hide ParseBlockTarget, Stored;
  }

  lemma UnblockKeeps(env: Env, cfg: Config, s: Instance, h: Header, body: string, target: Option<string>, now: nat)
    requires Inv(env, cfg, s)
    ensures Inv(env, cfg, Unblock(env, cfg, s, h, body, target, now).0)
  {
    var s' := Unblock(env, cfg, s, h, body, target, now).0;
    AuthenticateFrame(env, s, "DELETE", "/api/block", h, Some(body), now);
    hide Authenticate, ParseBlockTarget, Stored, Inv;
    FewerRowsKeep(env, cfg, s, s');
  }

  /******* Mail *******/

  lemma BurnKeeps(env: Env, cfg: Config, s: Instance, id: string, h: Header, now: nat)
    requires Inv(env, cfg, s)
    ensures Inv(env, cfg, Burn(env, s, id, h, now).0)
  {
    var s' := Burn(env, s, id, h, now).0;
    AuthenticateFrame(env, s, "DELETE", "/api/mail/" + id, h, None, now);
    hide Authenticate, Inv;
    FewerRowsKeep(env, cfg, s, s');
  }

  /** What a submission has when it is accepted. */
  ghost predicate Acceptable(env: Env, cfg: Config, users: Store.Users, m: Submission,
                             sender: Address, recipient: Address, o: Origin)
  {
    && ParseAddress(m.sender, cfg.domain) == Ok(sender)
    && ParseAddress(m.recipient, cfg.domain) == Ok(recipient)
    && (sender.own || recipient.own)
    && (!recipient.own ==> '@' in m.sender)
    && o.fields.sender == m.sender && o.fields.recipient == m.recipient && o.fields.encBody == m.encBody
    && Verifies(env, o.key, Signed.MailMessage(o.fields), m.signature)
    && (sender.own ==> sender.local in users && users[sender.local].sig == o.key && o.key != "")
    && (recipient.own ==> recipient.local in users && users[recipient.local].kem != ""
                          && Fingerprint(env, users[recipient.local].kem) == o.fields.fingerprint)
  }

  lemma RecipientChecked(env: Env, cfg: Config, users: Store.Users, cache: KeyCache.Cache, recipient: Address,
                         fingerprint: string, remote: Remote, now: nat)
    requires CheckRecipient(env, cfg, users, cache, recipient, fingerprint, remote, now).1.None? && recipient.own
    ensures recipient.local in users && users[recipient.local].kem != ""
    ensures Fingerprint(env, users[recipient.local].kem) == fingerprint
  {
    hide Fingerprint;
  }

  lemma SignatureChecked(env: Env, cfg: Config, users: Store.Users, cache: KeyCache.Cache, sender: Address,
                         key: string, cached: bool, msg: string, signature: string, remote: Remote, now: nat)
    ensures var r := CheckSignature(env, cfg, users, cache, sender, key, cached, msg, signature, remote, now).1;
            r.Signer? ==> Verifies(env, r.key, msg, signature) && (!cached ==> r.key == key)
  {
    hide Verifies, KeysOf;
  }

  lemma KeysChecked(env: Env, cfg: Config, users: Store.Users, cache: KeyCache.Cache, sender: Address,
                    recipient: Address, fields: Signed.MailFields, signature: string, remote: Remote, now: nat)
    requires CheckKeys(env, cfg, users, cache, sender, recipient, fields, signature, remote, now).1.Signer?
    ensures var key := CheckKeys(env, cfg, users, cache, sender, recipient, fields, signature, remote, now).1.key;
            && Verifies(env, key, Signed.MailMessage(fields), signature)
            && (sender.own ==> sender.local in users && users[sender.local].sig == key && key != "")
            && (recipient.own ==> recipient.local in users && users[recipient.local].kem != ""
                                  && Fingerprint(env, users[recipient.local].kem) == fields.fingerprint)
  {
    var (cache1, k) := KeysOf(cfg, users, cache, sender, false, remote, now);
    assert sender.own ==> k == if sender.local in users then Keys(users[sender.local].kem, users[sender.local].sig, false) else NoUser;
    hide KeysOf, Verifies, Fingerprint, Signed.MailMessage;
    var (cache2, refusal) := CheckRecipient(env, cfg, users, cache1, recipient, fields.fingerprint, remote, now);
    if recipient.own {
      RecipientChecked(env, cfg, users, cache1, recipient, fields.fingerprint, remote, now);
    }
    hide CheckRecipient;
    SignatureChecked(env, cfg, users, cache2, sender, k.sig, k.cached, Signed.MailMessage(fields), signature, remote, now);
  }

  lemma FormChecked(env: Env, cfg: Config, m: Submission, now: nat)
    requires CheckForm(env, cfg, m, now).GoodForm?
    ensures var f := CheckForm(env, cfg, m, now);
            && ParseAddress(m.sender, cfg.domain) == Ok(f.sender)
            && ParseAddress(m.recipient, cfg.domain) == Ok(f.recipient)
            && (f.sender.own || f.recipient.own)
            && (!f.recipient.own ==> '@' in m.sender)
            && f.fields.sender == m.sender && f.fields.recipient == m.recipient && f.fields.encBody == m.encBody
  {
    hide ParseAddress, PowOk, InWindow;
  }

  lemma FrontFrame(env: Env, cfg: Config, s: Instance, m: Submission, remote: Remote, now: nat)
    ensures var s' := SendFront(env, cfg, s, m, remote, now).0;
            s' == s.(cache := s'.cache, spent := s'.spent)
  {
    hide CheckForm, CheckKeys, BlockedBy, StoredId, TtlSet.AddTo, ReplyRefusal;
  }

  /** A submission changes no table but the mail, and not the seen signatures. */
  lemma SendFrame(env: Env, cfg: Config, s: Instance, m: Submission, remote: Remote, now: nat, ids: seq<string>)
    ensures var s' := Send(env, cfg, s, m, remote, now, ids).0;
            s'.tables == s.tables.(mail := s'.tables.mail) && s'.seen == s.seen
  {
    FrontFrame(env, cfg, s, m, remote, now);
    hide SendFront, Store.InsertFrom, MailRow, RelayRefusal;
  }

  /** Refusals carry an error of 400 and up. */
  lemma FormCodes(env: Env, cfg: Config, m: Submission, now: nat)
    ensures var f := CheckForm(env, cfg, m, now); f.BadForm? ==> f.response.Fail? && f.response.code >= 400
  {
    hide ParseAddress, PowOk, InWindow;
  }

  lemma KeyCodes(env: Env, cfg: Config, users: Store.Users, cache: KeyCache.Cache, sender: Address,
                 recipient: Address, fields: Signed.MailFields, signature: string, remote: Remote, now: nat)
    ensures var c := CheckKeys(env, cfg, users, cache, sender, recipient, fields, signature, remote, now).1;
            c.Refused? ==> c.response.Fail? && c.response.code >= 400
  {
    hide KeysOf, Verifies, Fingerprint, Signed.MailMessage;
  }

  /** An accepted submission passed every check on the way. */
  lemma FrontPassed(env: Env, cfg: Config, s: Instance, m: Submission, remote: Remote, now: nat)
    requires SendFront(env, cfg, s, m, remote, now).1.Accept?
    ensures var front := SendFront(env, cfg, s, m, remote, now).1;
            var form := CheckForm(env, cfg, m, now);
            && form == GoodForm(front.sender, front.recipient, front.origin.fields)
            && CheckKeys(env, cfg, s.tables.users, s.cache, front.sender, front.recipient, front.origin.fields,
                         m.signature, remote, now).1 == Signer(front.origin.key)
            && env.sha256(m.signature) !in s.tables.mail
            && !BlockedBy(s.tables, front.recipient, front.sender)
  {
    hide CheckForm, CheckKeys, BlockedBy, TtlSet.AddTo, ReplyRefusal;
  }

  lemma FrontAccepts(env: Env, cfg: Config, s: Instance, m: Submission, remote: Remote, now: nat)
    requires SendFront(env, cfg, s, m, remote, now).1.Accept?
    ensures var front := SendFront(env, cfg, s, m, remote, now).1;
            Acceptable(env, cfg, s.tables.users, m, front.sender, front.recipient, front.origin)
  {
    FrontPassed(env, cfg, s, m, remote, now);
    var front := SendFront(env, cfg, s, m, remote, now).1;
    hide SendFront, CheckForm, CheckKeys, ParseAddress, BlockedBy, Verifies, Fingerprint, Signed.MailMessage;
    FormChecked(env, cfg, m, now);
    KeysChecked(env, cfg, s.tables.users, s.cache, front.sender, front.recipient, front.origin.fields,
                m.signature, remote, now);
  }

  lemma {:induction false} InsertedRow(mail: Store.MailTable, h: string, m: Store.Mail, ids: seq<string>)
    ensures var (mail', r) := Store.InsertFrom(mail, h, m, ids);
            if r.Stored? && !r.dup then
              h !in mail && !Store.IdTaken(mail, r.id) && mail' == mail[h := m.(id := r.id)]
            else mail' == mail && (r.Stored? ==> h in mail && r.id == mail[h].id)
    decreases |ids|
  {
    if ids != [] {
      InsertedRow(mail, h, m, ids[1..]);
    }
  }

  lemma InsertKeepsIds(mail: Store.MailTable, h: string, m: Store.Mail)
    requires IdsDistinct(mail) && h !in mail && !Store.IdTaken(mail, m.id)
    ensures IdsDistinct(mail[h := m])
  {
  }

  /** The new row is in order. */
  lemma NewRowOk(env: Env, cfg: Config, s: Instance, m: Submission, sender: Address, recipient: Address,
                 o: Origin, now: nat, id: string)
    requires UsersOk(s.tables.users) && Acceptable(env, cfg, s.tables.users, m, sender, recipient, o)
    requires var h := env.sha256(m.signature);
             && h in s.tables.mail && s.tables.mail[h] == MailRow(m, sender, recipient, o, now).(id := id)
             && h in s.origin && s.origin[h] == o
             && Logged(h, Stored(sender), Stored(recipient)) in s.log
    ensures RowOk(env, cfg, s, env.sha256(m.signature))
  {
    LiveParties(env, cfg, s.tables.users, m, sender, recipient, o);
    hide ParseAddress, Stored, Verifies, Fingerprint, Signed.MailMessage, SenderOk, RecipientOk, UsersOk;
  }

  lemma KeepKeeps(env: Env, cfg: Config, s: Instance, m: Submission, sender: Address, recipient: Address,
                  o: Origin, now: nat, ids: seq<string>)
    requires Inv(env, cfg, s) && Acceptable(env, cfg, s.tables.users, m, sender, recipient, o)
    ensures Inv(env, cfg, Keep(env, s, m, sender, recipient, o, now, ids).0)
  {
    var h, row := env.sha256(m.signature), MailRow(m, sender, recipient, o, now);
    var s' := Keep(env, s, m, sender, recipient, o, now, ids).0;
    InsertedRow(s.tables.mail, h, row, ids);
    var (mail, r) := Store.InsertFrom(s.tables.mail, h, row, ids);
    hide Store.InsertFrom, Acceptable, UsersOk, BlocksOk, IdsDistinct, MailOk, RowOk;
    if r.Stored? && !r.dup {
      InsertKeepsIds(s.tables.mail, h, row.(id := r.id));
      FewerBlocks(cfg, s.tables, s'.tables);
      NewRowOk(env, cfg, s', m, sender, recipient, o, now, r.id);
      OtherRows(env, cfg, s, s', h);
    }
  }

  lemma OtherRows(env: Env, cfg: Config, s: Instance, s': Instance, h: string)
    requires MailOk(env, cfg, s) && h in s'.tables.mail && RowOk(env, cfg, s', h)
    requires forall g :: g in s'.tables.mail && g != h ==>
               g in s.tables.mail && s'.tables.mail[g] == s.tables.mail[g]
               && (g in s.origin ==> g in s'.origin && s'.origin[g] == s.origin[g])
    requires s'.tables.users == s.tables.users && s.log <= s'.log
    ensures MailOk(env, cfg, s')
  {
    forall g | g in s'.tables.mail ensures RowOk(env, cfg, s', g) {
      if g != h {
        assert RowOk(env, cfg, s, g);
      }
    }
  }

  lemma LiveParties(env: Env, cfg: Config, users: Store.Users, m: Submission, sender: Address, recipient: Address, o: Origin)
    requires UsersOk(users) && Acceptable(env, cfg, users, m, sender, recipient, o)
    ensures SenderOk(users, sender, o) && RecipientOk(env, users, recipient, o)
  {
    hide ParseAddress, Verifies, Fingerprint, ValidUsername, Lower;
  }

  lemma SendKeeps(env: Env, cfg: Config, s: Instance, m: Submission, remote: Remote, now: nat, ids: seq<string>)
    requires Inv(env, cfg, s)
    ensures Inv(env, cfg, Send(env, cfg, s, m, remote, now, ids).0)
  {
    var (s1, front) := SendFront(env, cfg, s, m, remote, now);
    FrontFrame(env, cfg, s, m, remote, now);
    hide SendFront, Inv, Acceptable, Keep, RelayRefusal;
    InvFrame(env, cfg, s, s1);
    if front.Accept? {
      FrontAccepts(env, cfg, s, m, remote, now);
      KeepKeeps(env, cfg, s1, m, front.sender, front.recipient, front.origin, now, ids);
    }
  }

  /******* Reads, and requests with a signed header *******/

  lemma ReadsFrame(env: Env, cfg: Config, s: Instance, e: Event)
    requires Reads(e.request)
    ensures var s' := Step(env, cfg, s, e).0; s' == s.(seen := s'.seen, spent := s'.spent, cache := s'.cache)
  {
    hide Authenticate, Store.MailListed, Store.MailFound, Store.BlocksListed, ParseAddress, Stored, KeyCache.Looked;
    if HasHeader(e.request) {
      var rt := RouteOf(e.request);
      AuthenticateFrame(env, s, rt.method_, rt.path, e.request.header, rt.body, e.now);
    }
  }

  /** The rest of a signed request, after its authentication, touches tables only, and is
      left out when it is denied. */
  ghost predicate OnlyTables(s1: Instance, auth: Auth, s': Instance, r: Response) {
    && s' == s1.(tables := s'.tables)
    && (auth.Denied? ==> s' == s1 && r == auth.response)
  }

  ghost predicate Routed(env: Env, cfg: Config, s: Instance, e: Event)
    requires HasHeader(e.request)
  {
    var rt := RouteOf(e.request);
    var (s1, auth) := Authenticate(env, s, rt.method_, rt.path, e.request.header, rt.body, e.now);
    var (s', r) := Step(env, cfg, s, e);
    OnlyTables(s1, auth, s', r)
  }

  lemma MailRouted(env: Env, cfg: Config, s: Instance, e: Event)
    requires e.request.BurnMail? || e.request.GetMail? || e.request.ListMail?
    ensures Routed(env, cfg, s, e)
  {
    hide Authenticate, Store.MailDeleted, Store.MailListed, Store.MailFound;
  }

  lemma BlocksRouted(env: Env, cfg: Config, s: Instance, e: Event)
    requires e.request.BlockTarget? || e.request.UnblockTarget? || e.request.ListBlocks?
    ensures Routed(env, cfg, s, e)
  {
    hide Authenticate, TargetOf, WithoutBlocks, Stored, Store.BlocksListed;
  }

  lemma AccountRouted(env: Env, cfg: Config, s: Instance, e: Event)
    requires e.request.RotateKeys? || e.request.DestroyAccount?
    ensures Routed(env, cfg, s, e)
  {
    hide Authenticate, ValidKEM, Store.KeysRotated, Store.UserDestroyed;
  }

  /** A signed request touches the two sets by its authentication only, the cache and the
      history not at all, and goes no further when it is denied. */
  lemma RoutedStep(env: Env, cfg: Config, s: Instance, e: Event)
    requires HasHeader(e.request)
    ensures var rt := RouteOf(e.request);
            var (s1, auth) := Authenticate(env, s, rt.method_, rt.path, e.request.header, rt.body, e.now);
            var (s', r) := Step(env, cfg, s, e);
            && s'.seen == s1.seen && s'.spent == s1.spent
            && s'.cache == s.cache && s'.origin == s.origin && s'.log == s.log
            && (auth.Denied? ==> s' == s1 && r == auth.response && r.Fail? && s'.tables == s.tables)
  {
    hide Authenticate, Step, RouteOf;
    var rt := RouteOf(e.request);
    AuthenticateFrame(env, s, rt.method_, rt.path, e.request.header, rt.body, e.now);
    if e.request.BurnMail? || e.request.GetMail? || e.request.ListMail? {
      MailRouted(env, cfg, s, e);
    } else if e.request.RotateKeys? || e.request.DestroyAccount? {
      AccountRouted(env, cfg, s, e);
    } else {
      BlocksRouted(env, cfg, s, e);
    }
  }

  /** A look at public keys touches the cache alone. */
  lemma LookUpFrame(cfg: Config, s: Instance, name: string, remote: Remote, now: nat)
    ensures var s' := LookedUp(cfg, s, name, remote, now).0; s' == s.(cache := s'.cache)
  {
    hide ParseAddress, Stored, KeyCache.Looked;
  }

  /******* Every run *******/

  lemma StepKeeps(env: Env, cfg: Config, s: Instance, e: Event)
    requires Inv(env, cfg, s)
    ensures Inv(env, cfg, Step(env, cfg, s, e).0)
  {
    hide Inv, Register, Send, Burn, Block, Unblock, Rotate, Destroy, ListedMail, GottenMail, ListedBlocks, LookedUp;
    match e.request
    case RegisterUser(form) => RegisterKeeps(env, cfg, s, form, e.now);
    case SendMail(m) => SendKeeps(env, cfg, s, m, e.remote, e.now, e.ids);
    case BurnMail(id, h) => BurnKeeps(env, cfg, s, id, h, e.now);
    case BlockTarget(h, body, target) => BlockKeeps(env, cfg, s, h, body, target, e.now);
    case UnblockTarget(h, body, target) => UnblockKeeps(env, cfg, s, h, body, target, e.now);
    case RotateKeys(h, body, keys) => RotateKeeps(env, cfg, s, h, body, keys, e.now);
    case DestroyAccount(h) => DestroyKeeps(env, cfg, s, h, e.now);
    case _ =>
      ReadsFrame(env, cfg, s, e);
      InvFrame(env, cfg, s, Step(env, cfg, s, e).0);
  }

  lemma AfterNext(env: Env, cfg: Config, run: Run, n: nat)
    requires n < |run|
    ensures After(env, cfg, run[..n + 1]) == Step(env, cfg, After(env, cfg, run[..n]), run[n]).0
  {
    assert run[..n + 1][..n] == run[..n];
    hide Step;
  }

  /** Every reachable state, whatever other instances answer. */
  lemma {:induction false} RunKeeps(env: Env, cfg: Config, run: Run)
    ensures Inv(env, cfg, After(env, cfg, run))
  {
    if run != [] {
      RunKeeps(env, cfg, run[..|run| - 1]);
      StepKeeps(env, cfg, After(env, cfg, run[..|run| - 1]), run[|run| - 1]);
    }
  }
}
