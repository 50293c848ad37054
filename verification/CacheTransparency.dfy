/**
 The key cache does not show: a mail that would be accepted with a fresh lookup
 of every remote key is accepted with any cache, and one that is accepted rests
 on a key the remote answers now or answered within the last minute.
 */
module CacheTransparency {
  import opened Text
  import opened Addresses
  import opened Handlers
  import opened Invariants
  import Signed
  import Store
  import KeyCache
  import TtlSet

  /** The remote instance of `a` can be asked, says the same both times, and a
      destroyed account in the cache is still destroyed. */
  predicate Steady(cache: KeyCache.Cache, a: Address, remote: Remote, now: nat) {
    !a.own ==>
      && remote.fetch(a, true) == remote.fetch(a, false)
      && !remote.fetch(a, false).Unreachable?
      && (CachedKeys(cache, a, now).Some? ==>
            var old_, answer := CachedKeys(cache, a, now).value, remote.fetch(a, false);
            && (old_.sig == "" ==> answer.Found? && answer.keys.sig == "")
            && (old_.kem == "" ==> answer.Found? && answer.keys.kem == ""))
  }

  /** Keys of `a` the cache got less than a minute ago. */
  function CachedKeys(cache: KeyCache.Cache, a: Address, now: nat): Option<KeyCache.RemoteKeys> {
    if Stored(a) in cache && KeyCache.Young(cache[Stored(a)], now) then Some(cache[Stored(a)].keys) else None
  }

  /** What a first lookup says of a remote account. */
  lemma FirstLookup(cfg: Config, users: Store.Users, cache: KeyCache.Cache, a: Address, remote: Remote, now: nat)
    requires !a.own && cfg.federationEnabled
    ensures var k := KeysOf(cfg, users, cache, a, false, remote, now).1;
            if CachedKeys(cache, a, now).Some? then
              k == Keys(CachedKeys(cache, a, now).value.kem, CachedKeys(cache, a, now).value.sig, true)
            else
              match remote.fetch(a, false)
              case Found(rk) => k == Keys(rk.kem, rk.sig, true)
              case RemoteNotFound => k == NoUser
              case Unreachable => k == NoAnswer
  {
  }

  lemma FreshLookup(cfg: Config, users: Store.Users, cache: KeyCache.Cache, a: Address, remote: Remote, now: nat)
    requires !a.own && cfg.federationEnabled
    ensures var k := KeysOf(cfg, users, cache, a, true, remote, now).1;
            match remote.fetch(a, true)
            case Found(rk) => k == Keys(rk.kem, rk.sig, false)
            case RemoteNotFound => k == NoUser
            case Unreachable => k == NoAnswer
  {
    hide KeyCache.Looked;
    KeyCache.LookedIsRecent(cache, Stored(a), true, remote.fetch(a, true), now);
  }

  /** The answer for a local account does not depend on the cache. */
  lemma LocalLookup(cfg: Config, users: Store.Users, cache: KeyCache.Cache, cache': KeyCache.Cache, a: Address,
                    fresh_: bool, remote: Remote, now: nat)
    requires a.own || !cfg.federationEnabled
    ensures KeysOf(cfg, users, cache, a, fresh_, remote, now).1 == KeysOf(cfg, users, cache', a, fresh_, remote, now).1
    ensures KeysOf(cfg, users, cache, a, fresh_, remote, now).0 == cache
  {
  }

  lemma RecipientTransparent(env: Env, cfg: Config, users: Store.Users, cache: KeyCache.Cache, recipient: Address,
                             fingerprint: string, remote: Remote, now: nat)
    requires Steady(cache, recipient, remote, now)
    requires CheckRecipient(env, cfg, users, map[], recipient, fingerprint, remote, now).1.None?
    ensures CheckRecipient(env, cfg, users, cache, recipient, fingerprint, remote, now).1.None?
  {
    if recipient.own || !cfg.federationEnabled {
      LocalLookup(cfg, users, cache, map[], recipient, false, remote, now);
      LocalLookup(cfg, users, cache, map[], recipient, true, remote, now);
    } else {
      FirstLookup(cfg, users, map[], recipient, remote, now);
      FirstLookup(cfg, users, cache, recipient, remote, now);
      FreshLookup(cfg, users, KeysOf(cfg, users, map[], recipient, false, remote, now).0, recipient, remote, now);
      FreshLookup(cfg, users, KeysOf(cfg, users, cache, recipient, false, remote, now).0, recipient, remote, now);
      assert CachedKeys(map[], recipient, now).None?;
      hide CachedKeys;
    }
    hide KeysOf, Fingerprint;
  }

  lemma SignatureTransparent(env: Env, cfg: Config, users: Store.Users, cache: KeyCache.Cache, sender: Address,
                             key: string, msg: string, signature: string, remote: Remote, now: nat)
    requires !sender.own && cfg.federationEnabled
    requires remote.fetch(sender, true).Found? && Verifies(env, remote.fetch(sender, true).keys.sig, msg, signature)
    ensures CheckSignature(env, cfg, users, cache, sender, key, true, msg, signature, remote, now).1.Signer?
  {
    FreshLookup(cfg, users, cache, sender, remote, now);
    hide KeysOf, Verifies;
  }

  /** With an empty cache a remote sender's signature is checked against what his
      instance answers. */
  lemma FreshSignature(env: Env, cfg: Config, users: Store.Users, cache: KeyCache.Cache, sender: Address,
                       key: string, msg: string, signature: string, remote: Remote, now: nat)
    requires !sender.own && cfg.federationEnabled
    requires CheckSignature(env, cfg, users, cache, sender, key, true, msg, signature, remote, now).1.Signer?
    ensures Verifies(env, key, msg, signature)
         || (remote.fetch(sender, true).Found? && Verifies(env, remote.fetch(sender, true).keys.sig, msg, signature))
  {
    FreshLookup(cfg, users, cache, sender, remote, now);
    hide KeysOf, Verifies;
  }

  /** A recipient at home is judged without the cache, and leaves it alone. */
  lemma LocalRecipient(env: Env, cfg: Config, users: Store.Users, cache: KeyCache.Cache, cache': KeyCache.Cache,
                       recipient: Address, fingerprint: string, remote: Remote, now: nat)
    requires recipient.own || !cfg.federationEnabled
    ensures CheckRecipient(env, cfg, users, cache, recipient, fingerprint, remote, now).1
         == CheckRecipient(env, cfg, users, cache', recipient, fingerprint, remote, now).1
    ensures CheckRecipient(env, cfg, users, cache, recipient, fingerprint, remote, now).0 == cache
  {
    hide Fingerprint;
  }

  /** Whatever a fresh look would accept, the cache accepts. */
  lemma KeysTransparent(env: Env, cfg: Config, users: Store.Users, cache: KeyCache.Cache, sender: Address,
                        recipient: Address, fields: Signed.MailFields, signature: string, remote: Remote, now: nat)
    requires sender.own || recipient.own
    requires Steady(cache, sender, remote, now) && Steady(cache, recipient, remote, now)
    requires CheckKeys(env, cfg, users, map[], sender, recipient, fields, signature, remote, now).1.Signer?
    ensures CheckKeys(env, cfg, users, cache, sender, recipient, fields, signature, remote, now).1.Signer?
  {
    var msg := Signed.MailMessage(fields);
    hide Signed.MailMessage, Fingerprint, Verifies;
    var (c0, k0) := KeysOf(cfg, users, map[], sender, false, remote, now);
    var (c1, k1) := KeysOf(cfg, users, cache, sender, false, remote, now);
    if sender.own || !cfg.federationEnabled {
      LocalLookup(cfg, users, map[], cache, sender, false, remote, now);
      LocalLookup(cfg, users, cache, cache, sender, false, remote, now);
      assert k0 == k1 && c0 == map[] && c1 == cache && (k0.Keys? ==> !k0.cached);
      hide KeysOf;
      RecipientTransparent(env, cfg, users, cache, recipient, fields.fingerprint, remote, now);
      hide CheckRecipient, Steady;
    } else {
      FirstLookup(cfg, users, map[], sender, remote, now);
      FirstLookup(cfg, users, cache, sender, remote, now);
      assert CachedKeys(map[], sender, now).None?;
      hide KeysOf, CachedKeys;
      LocalRecipient(env, cfg, users, c0, c1, recipient, fields.fingerprint, remote, now);
      LocalRecipient(env, cfg, users, c1, c0, recipient, fields.fingerprint, remote, now);
      hide CheckRecipient;
      FreshSignature(env, cfg, users, c0, sender, k0.sig, msg, signature, remote, now);
      SignatureTransparent(env, cfg, users, c1, sender, k1.sig, msg, signature, remote, now);
      hide CheckSignature;
    }
  }

  /** So a submission answered 201 with fresh lookups gets the same answer with
      any cache. */
  lemma SendTransparent(env: Env, cfg: Config, s: Instance, m: Submission, remote: Remote, now: nat, ids: seq<string>)
    requires Send(env, cfg, s.(cache := map[]), m, remote, now, ids).1.Created?
    requires var form := CheckForm(env, cfg, m, now);
             form.GoodForm? ==> Steady(s.cache, form.sender, remote, now) && Steady(s.cache, form.recipient, remote, now)
    ensures Send(env, cfg, s, m, remote, now, ids).1 == Send(env, cfg, s.(cache := map[]), m, remote, now, ids).1
    ensures Send(env, cfg, s, m, remote, now, ids).0.tables == Send(env, cfg, s.(cache := map[]), m, remote, now, ids).0.tables
  {
    var s0 := s.(cache := map[]);
    var form := CheckForm(env, cfg, m, now);
    FormCodes(env, cfg, m, now);
    if form.GoodForm? {
      FormChecked(env, cfg, m, now);
      var check0 := CheckKeys(env, cfg, s.tables.users, map[], form.sender, form.recipient, form.fields, m.signature, remote, now).1;
      KeyCodes(env, cfg, s.tables.users, map[], form.sender, form.recipient, form.fields, m.signature, remote, now);
      if check0.Signer? {
        KeysTransparent(env, cfg, s.tables.users, s.cache, form.sender, form.recipient, form.fields, m.signature, remote, now);
        var check1 := CheckKeys(env, cfg, s.tables.users, s.cache, form.sender, form.recipient, form.fields, m.signature, remote, now).1;
        hide CheckForm, CheckKeys, Steady;
        SameAfterKeys(env, cfg, s0, s, m, remote, now, ids, check0.key, check1.key);
      }
    }
  }

  /** Past the key checks, the cache and the signer play no part. */
  lemma SameAfterKeys(env: Env, cfg: Config, s0: Instance, s1: Instance, m: Submission, remote: Remote, now: nat,
                      ids: seq<string>, key0: string, key1: string)
    requires s1.(cache := s0.cache) == s0
    requires var f := CheckForm(env, cfg, m, now);
             && f.GoodForm?
             && CheckKeys(env, cfg, s0.tables.users, s0.cache, f.sender, f.recipient, f.fields, m.signature, remote, now).1 == Signer(key0)
             && CheckKeys(env, cfg, s1.tables.users, s1.cache, f.sender, f.recipient, f.fields, m.signature, remote, now).1 == Signer(key1)
    ensures Send(env, cfg, s0, m, remote, now, ids).1 == Send(env, cfg, s1, m, remote, now, ids).1
    ensures Send(env, cfg, s0, m, remote, now, ids).0.tables == Send(env, cfg, s1, m, remote, now, ids).0.tables
  {
    hide SendFront, CheckForm, CheckKeys, Store.InsertFrom, RelayRefusal;
    SameFront(env, cfg, s0, s1, m, remote, now, key0, key1);
  }

  lemma SameFront(env: Env, cfg: Config, s0: Instance, s1: Instance, m: Submission, remote: Remote, now: nat,
                  key0: string, key1: string)
    requires s1.(cache := s0.cache) == s0
    requires var f := CheckForm(env, cfg, m, now);
             && f.GoodForm?
             && CheckKeys(env, cfg, s0.tables.users, s0.cache, f.sender, f.recipient, f.fields, m.signature, remote, now).1 == Signer(key0)
             && CheckKeys(env, cfg, s1.tables.users, s1.cache, f.sender, f.recipient, f.fields, m.signature, remote, now).1 == Signer(key1)
    ensures var (t0, front0), (t1, front1) := SendFront(env, cfg, s0, m, remote, now), SendFront(env, cfg, s1, m, remote, now);
            && t0.tables == t1.tables == s0.tables
            && (if front0.Answer? then front1 == front0
                else front1 == Accept(front0.sender, front0.recipient, Origin(front0.origin.fields, key1)))
  {
    hide CheckForm, CheckKeys, BlockedBy, StoredId, TtlSet.AddTo, ReplyRefusal;
  }

  /******* What an accepted mail rests on *******/

  /** A key of `a` that is no older than a minute. */
  predicate RecentKeys(cache: KeyCache.Cache, a: Address, remote: Remote, now: nat, k: KeyCache.RemoteKeys) {
    || CachedKeys(cache, a, now) == Some(k)
    || remote.fetch(a, false) == KeyCache.Found(k)
    || remote.fetch(a, true) == KeyCache.Found(k)
  }

  /** The fingerprint is that of a recent, nonempty key of `a`. */
  ghost predicate RestsOnRecent(env: Env, cache: KeyCache.Cache, a: Address, remote: Remote, now: nat, fingerprint: string) {
    exists k :: RecentKeys(cache, a, remote, now, k) && k.kem != "" && Fingerprint(env, k.kem) == fingerprint
  }

  lemma RecipientRecent(env: Env, cfg: Config, users: Store.Users, cache: KeyCache.Cache, recipient: Address,
                        fingerprint: string, remote: Remote, now: nat)
    requires !recipient.own && cfg.federationEnabled
    requires CheckRecipient(env, cfg, users, cache, recipient, fingerprint, remote, now).1.None?
    requires fingerprint != Fingerprint(env, "")
    ensures RestsOnRecent(env, cache, recipient, remote, now, fingerprint)
  {
    FirstLookup(cfg, users, cache, recipient, remote, now);
    var (cache1, k1) := KeysOf(cfg, users, cache, recipient, false, remote, now);
    FreshLookup(cfg, users, cache1, recipient, remote, now);
    var k2 := KeysOf(cfg, users, cache1, recipient, true, remote, now).1;
    hide KeysOf, Fingerprint, CachedKeys;
    var k := if Fingerprint(env, k1.kem) == fingerprint then
               (if CachedKeys(cache, recipient, now).Some? then CachedKeys(cache, recipient, now).value
                else remote.fetch(recipient, false).keys)
             else remote.fetch(recipient, true).keys;
    assert RecentKeys(cache, recipient, remote, now, k);
  }

  lemma SenderRecent(env: Env, cfg: Config, users: Store.Users, cache: KeyCache.Cache, sender: Address,
                     recipient: Address, fields: Signed.MailFields, signature: string, remote: Remote, now: nat)
    requires !sender.own && cfg.federationEnabled
    requires CheckKeys(env, cfg, users, cache, sender, recipient, fields, signature, remote, now).1.Signer?
    ensures exists k :: RecentKeys(cache, sender, remote, now, k)
                     && Verifies(env, k.sig, Signed.MailMessage(fields), signature)
  {
    var (cache1, k1) := KeysOf(cfg, users, cache, sender, false, remote, now);
    FirstLookup(cfg, users, cache, sender, remote, now);
    var msg := Signed.MailMessage(fields);
    hide KeysOf, Verifies, Signed.MailMessage, CachedKeys;
    var (cache2, refusal) := CheckRecipient(env, cfg, users, cache1, recipient, fields.fingerprint, remote, now);
    hide CheckRecipient;
    FreshSignature(env, cfg, users, cache2, sender, k1.sig, msg, signature, remote, now);
    hide CheckSignature;
    var k := if Verifies(env, k1.sig, msg, signature) then
               (if CachedKeys(cache, sender, now).Some? then CachedKeys(cache, sender, now).value
                else remote.fetch(sender, false).keys)
             else remote.fetch(sender, true).keys;
    assert RecentKeys(cache, sender, remote, now, k);
  }

  /** Why the fingerprint of the empty string is shut out above: when the second
      lookup fails, the empty key takes its place, and a submission that claims
      that fingerprint passes without any key of the recipient. */
  lemma EmptyFingerprintPasses(env: Env, cfg: Config, users: Store.Users, recipient: Address, kem: string, sig: string,
                               remote: Remote, now: nat)
    requires !recipient.own && cfg.federationEnabled
    requires remote.fetch(recipient, false) == KeyCache.Found(KeyCache.RemoteKeys(kem, sig))
    requires remote.fetch(recipient, true).Unreachable?
    requires kem != "" && Fingerprint(env, kem) != Fingerprint(env, "")
    ensures CheckRecipient(env, cfg, users, map[], recipient, Fingerprint(env, ""), remote, now).1.None?
    ensures forall k :: RecentKeys(map[], recipient, remote, now, k) ==> Fingerprint(env, k.kem) != Fingerprint(env, "")
  {
    FirstLookup(cfg, users, map[], recipient, remote, now);
    FreshLookup(cfg, users, KeysOf(cfg, users, map[], recipient, false, remote, now).0, recipient, remote, now);
    assert CachedKeys(map[], recipient, now).None?;
    hide KeysOf, Fingerprint, CachedKeys;
  }

  /** Does every acceptance of this fingerprint, by any instance in any state, rest on a
      recent key of the remote recipient? */
  ghost predicate AlwaysRecent(env: Env, fingerprint: string) {
    forall cfg: Config, users: Store.Users, cache: KeyCache.Cache, recipient: Address, remote: Remote, now: nat
      | !recipient.own && cfg.federationEnabled
        && CheckRecipient(env, cfg, users, cache, recipient, fingerprint, remote, now).1.None?
      :: RestsOnRecent(env, cache, recipient, remote, now, fingerprint)
  }

  /** Exactly for the fingerprints that are not the empty key's, as soon as there is a
      key with another fingerprint. */
  lemma RecentExactly(env: Env, fingerprint: string, kem: string)
    requires kem != "" && Fingerprint(env, kem) != Fingerprint(env, "")
    ensures AlwaysRecent(env, fingerprint) <==> fingerprint != Fingerprint(env, "")
  {
    if fingerprint != Fingerprint(env, "") {
      forall cfg: Config, users: Store.Users, cache: KeyCache.Cache, recipient: Address, remote: Remote, now: nat
        | !recipient.own && cfg.federationEnabled
          && CheckRecipient(env, cfg, users, cache, recipient, fingerprint, remote, now).1.None?
        ensures RestsOnRecent(env, cache, recipient, remote, now, fingerprint)
      {
        RecipientRecent(env, cfg, users, cache, recipient, fingerprint, remote, now);
      }
    } else {
      var cfg, recipient := Config("a.example", true, true, []), Address("alice", "b.example", false);
      var remote := Remote((a: Address, fresh_: bool) =>
                             if fresh_ then KeyCache.Unreachable else KeyCache.Found(KeyCache.RemoteKeys(kem, kem)), None, None);
      EmptyFingerprintPasses(env, cfg, map[], recipient, kem, kem, remote, 0);
      assert CheckRecipient(env, cfg, map[], map[], recipient, fingerprint, remote, 0).1.None?;
      hide CheckRecipient, Fingerprint, RecentKeys;
    }
  }

  /** So a mail that is answered 201 rests on recent keys of its remote party. */
  lemma SentRests(env: Env, cfg: Config, s: Instance, m: Submission, remote: Remote, now: nat, ids: seq<string>)
    requires Send(env, cfg, s, m, remote, now, ids).1.Created?
    ensures var form := CheckForm(env, cfg, m, now);
            && form.GoodForm?
            && (!form.sender.own ==>
                  exists k :: RecentKeys(s.cache, form.sender, remote, now, k)
                    && Verifies(env, k.sig, Signed.MailMessage(form.fields), m.signature))
            && (!form.recipient.own && m.fingerprint != Fingerprint(env, "") ==>
                  RestsOnRecent(env, s.cache, form.recipient, remote, now, m.fingerprint))
  {
    CreatedPassedKeys(env, cfg, s, m, remote, now, ids);
    var form := CheckForm(env, cfg, m, now);
    FormFields(env, cfg, m, now);
    hide CheckForm, Send;
    if !form.sender.own {
      RemoteNeedsFederation(env, cfg, s.tables.users, s.cache, form.sender, form.recipient, form.fields, m.signature, remote, now);
      SenderRecent(env, cfg, s.tables.users, s.cache, form.sender, form.recipient, form.fields, m.signature, remote, now);
    }
    if !form.recipient.own && m.fingerprint != Fingerprint(env, "") {
      RecipientPassed(env, cfg, s.tables.users, s.cache, form.sender, form.recipient, form.fields, m.signature, remote, now);
      RecipientRecent(env, cfg, s.tables.users, s.cache, form.recipient, m.fingerprint, remote, now);
    }
  }

  lemma FormFields(env: Env, cfg: Config, m: Submission, now: nat)
    requires CheckForm(env, cfg, m, now).GoodForm?
    ensures var f := CheckForm(env, cfg, m, now); f.fields.fingerprint == m.fingerprint && (f.sender.own || f.recipient.own)
  {
    hide ParseAddress, PowOk, InWindow;
  }

  lemma CreatedPassedKeys(env: Env, cfg: Config, s: Instance, m: Submission, remote: Remote, now: nat, ids: seq<string>)
    requires Send(env, cfg, s, m, remote, now, ids).1.Created?
    ensures var f := CheckForm(env, cfg, m, now);
            && f.GoodForm?
            && CheckKeys(env, cfg, s.tables.users, s.cache, f.sender, f.recipient, f.fields, m.signature, remote, now).1.Signer?
  {
    var f := CheckForm(env, cfg, m, now);
    FormCodes(env, cfg, m, now);
    hide CheckForm, CheckKeys, BlockedBy, StoredId, TtlSet.AddTo, Store.InsertFrom, MailRow;
    if f.GoodForm? {
      KeyCodes(env, cfg, s.tables.users, s.cache, f.sender, f.recipient, f.fields, m.signature, remote, now);
    }
  }

  lemma RemoteNeedsFederation(env: Env, cfg: Config, users: Store.Users, cache: KeyCache.Cache, sender: Address,
                              recipient: Address, fields: Signed.MailFields, signature: string, remote: Remote, now: nat)
    requires CheckKeys(env, cfg, users, cache, sender, recipient, fields, signature, remote, now).1.Signer?
    ensures sender.own || cfg.federationEnabled
  {
    hide Verifies, Signed.MailMessage, CheckRecipient, CheckSignature, KeyCache.Looked;
  }

  lemma RecipientPassed(env: Env, cfg: Config, users: Store.Users, cache: KeyCache.Cache, sender: Address,
                        recipient: Address, fields: Signed.MailFields, signature: string, remote: Remote, now: nat)
    requires CheckKeys(env, cfg, users, cache, sender, recipient, fields, signature, remote, now).1.Signer? && sender.own
    ensures CheckRecipient(env, cfg, users, cache, recipient, fields.fingerprint, remote, now).1.None?
    ensures recipient.own || cfg.federationEnabled
  {
    LocalLookup(cfg, users, cache, cache, sender, false, remote, now);
    RecipientNeedsFederation(env, cfg, users, cache, recipient, fields.fingerprint, remote, now);
    hide KeysOf, CheckRecipient, CheckSignature, Signed.MailMessage;
  }

  lemma RecipientNeedsFederation(env: Env, cfg: Config, users: Store.Users, cache: KeyCache.Cache, recipient: Address,
                                 fingerprint: string, remote: Remote, now: nat)
    ensures CheckRecipient(env, cfg, users, cache, recipient, fingerprint, remote, now).1.None? ==>
              recipient.own || cfg.federationEnabled
  {
    hide Fingerprint, KeyCache.Looked;
  }

  /******* Exactly which keys are accepted *******/

  /** The empty text is no key (`ParsePublicKey` wants 1952 bytes). */
  predicate NoEmptyKey(env: Env) { !env.parsesSig("") }

  /** The instance of `a` says the same both times, and nothing better of an account that
      the cache knows as destroyed. It need not answer at all. */
  predicate Settled(cache: KeyCache.Cache, a: Address, remote: Remote, now: nat) {
    !a.own ==>
      && remote.fetch(a, true) == remote.fetch(a, false)
      && (CachedKeys(cache, a, now).Some? && remote.fetch(a, false).Found? ==>
            var old_, answer := CachedKeys(cache, a, now).value, remote.fetch(a, false).keys;
            (old_.sig == "" ==> answer.sig == "") && (old_.kem == "" ==> answer.kem == ""))
  }

  /** A local sender's key, or a recent one of a remote sender, verifies the mail. */
  ghost predicate SenderFits(env: Env, cfg: Config, users: Store.Users, cache: KeyCache.Cache, sender: Address,
                             msg: string, signature: string, remote: Remote, now: nat)
  {
    if sender.own then sender.local in users && Verifies(env, users[sender.local].sig, msg, signature)
    else
      cfg.federationEnabled
      && exists k :: RecentKeys(cache, sender, remote, now, k) && Verifies(env, k.sig, msg, signature)
  }

  /** The account is gone, but its keys are still cached; only the empty key's
      fingerprint passes then. */
  predicate SlipsThrough(env: Env, cache: KeyCache.Cache, a: Address, remote: Remote, now: nat, fingerprint: string) {
    && fingerprint == Fingerprint(env, "")
    && CachedKeys(cache, a, now).Some? && CachedKeys(cache, a, now).value.kem != ""
    && !(remote.fetch(a, true).Found? && remote.fetch(a, true).keys.kem != "")
  }

  ghost predicate RecipientFits(env: Env, cfg: Config, users: Store.Users, cache: KeyCache.Cache, recipient: Address,
                                fingerprint: string, remote: Remote, now: nat)
  {
    if recipient.own then
      && recipient.local in users && users[recipient.local].kem != ""
      && Fingerprint(env, users[recipient.local].kem) == fingerprint
    else
      && cfg.federationEnabled
      && (RestsOnRecent(env, cache, recipient, remote, now, fingerprint)
          || SlipsThrough(env, cache, recipient, remote, now, fingerprint))
  }

  lemma RecipientExactly(env: Env, cfg: Config, users: Store.Users, cache: KeyCache.Cache, recipient: Address,
                         fingerprint: string, remote: Remote, now: nat)
    requires Settled(cache, recipient, remote, now)
    ensures CheckRecipient(env, cfg, users, cache, recipient, fingerprint, remote, now).1.None?
       <==> RecipientFits(env, cfg, users, cache, recipient, fingerprint, remote, now)
  {
    if recipient.own {
      hide Fingerprint;
    } else if !cfg.federationEnabled {
      RecipientNeedsFederation(env, cfg, users, cache, recipient, fingerprint, remote, now);
    } else {
      FirstLookup(cfg, users, cache, recipient, remote, now);
      var (cache1, k1) := KeysOf(cfg, users, cache, recipient, false, remote, now);
      FreshLookup(cfg, users, cache1, recipient, remote, now);
      var k2 := KeysOf(cfg, users, cache1, recipient, true, remote, now).1;
      hide KeysOf, Fingerprint, CachedKeys;
    }
  }

  lemma SignatureExactly(env: Env, cfg: Config, users: Store.Users, cache: KeyCache.Cache, cache1: KeyCache.Cache,
                         sender: Address, msg: string, signature: string, remote: Remote, now: nat)
    requires NoEmptyKey(env) && Settled(cache, sender, remote, now)
    ensures var k := KeysOf(cfg, users, cache, sender, false, remote, now).1;
            SenderFits(env, cfg, users, cache, sender, msg, signature, remote, now) <==>
              && k.Keys? && k.sig != ""
              && CheckSignature(env, cfg, users, cache1, sender, k.sig, k.cached, msg, signature, remote, now).1.Signer?
  {
    var k := KeysOf(cfg, users, cache, sender, false, remote, now).1;
    if !sender.own && cfg.federationEnabled {
      FirstLookup(cfg, users, cache, sender, remote, now);
      FreshLookup(cfg, users, cache1, sender, remote, now);
      RemoteSignature(env, cfg, users, cache, cache1, sender, msg, signature, remote, now, k);
    }
    hide KeyCache.Looked, CachedKeys, RecentKeys, Settled;
  }

  lemma RemoteSignature(env: Env, cfg: Config, users: Store.Users, cache: KeyCache.Cache, cache1: KeyCache.Cache,
                        sender: Address, msg: string, signature: string, remote: Remote, now: nat, k: Keys)
    requires NoEmptyKey(env) && Settled(cache, sender, remote, now) && !sender.own && cfg.federationEnabled
    requires k == KeysOf(cfg, users, cache, sender, false, remote, now).1
    ensures SenderFits(env, cfg, users, cache, sender, msg, signature, remote, now)
       <==> k.Keys? && k.sig != ""
            && CheckSignature(env, cfg, users, cache1, sender, k.sig, k.cached, msg, signature, remote, now).1.Signer?
  {
    FirstLookup(cfg, users, cache, sender, remote, now);
    FreshLookup(cfg, users, cache1, sender, remote, now);
    hide KeysOf, CachedKeys;
    if k.Keys? {
      assert RecentKeys(cache, sender, remote, now, KeyCache.RemoteKeys(k.kem, k.sig));
    }
    if remote.fetch(sender, true).Found? {
      assert RecentKeys(cache, sender, remote, now, remote.fetch(sender, true).keys);
    }
  }

  /** The key checks pass exactly when both parties fit, whatever is cached. */
  lemma KeysExactly(env: Env, cfg: Config, users: Store.Users, cache: KeyCache.Cache, sender: Address,
                    recipient: Address, fields: Signed.MailFields, signature: string, remote: Remote, now: nat)
    requires NoEmptyKey(env) && (sender.own || recipient.own)
    requires Settled(cache, sender, remote, now) && Settled(cache, recipient, remote, now)
    ensures CheckKeys(env, cfg, users, cache, sender, recipient, fields, signature, remote, now).1.Signer?
       <==> && SenderFits(env, cfg, users, cache, sender, Signed.MailMessage(fields), signature, remote, now)
            && RecipientFits(env, cfg, users, cache, recipient, fields.fingerprint, remote, now)
  {
    var msg := Signed.MailMessage(fields);
    var (cache1, k) := KeysOf(cfg, users, cache, sender, false, remote, now);
    var (cache2, refusal) := CheckRecipient(env, cfg, users, cache1, recipient, fields.fingerprint, remote, now);
    SignatureExactly(env, cfg, users, cache, cache2, sender, msg, signature, remote, now);
    RecipientExactly(env, cfg, users, cache, recipient, fields.fingerprint, remote, now);
    if sender.own {
      LocalLookup(cfg, users, cache, cache, sender, false, remote, now);
    } else {
      LocalRecipient(env, cfg, users, cache1, cache, recipient, fields.fingerprint, remote, now);
    }
    hide KeysOf, CheckRecipient, CheckSignature, Signed.MailMessage, SenderFits, RecipientFits;
  }
}
