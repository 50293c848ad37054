/**
 Where the entries of the key cache come from: each was answered by the account's
 own instance, at the time the entry bears.
 */
module CacheHistory {
  import opened Text
  import opened Addresses
  import opened Handlers
  import opened Invariants
  import opened CacheTransparency
  import KeyCache
  import MailHistory
  import Signed
  import Store
  import TtlSet

  /** An address of a user elsewhere, as parsing gives it. */
  predicate RemoteUser(cfg: Config, a: Address) { Canonical(a, cfg.domain) && !a.own && a.local != "" }

  /** The instance of some user stored as `id` gives these keys, now. */
  ghost predicate AnsweredNow(cfg: Config, id: string, entry: KeyCache.Cached, remote: Remote, now: nat) {
    && entry.at == now
    && exists a: Address, fresh_: bool ::
         RemoteUser(cfg, a) && Stored(a) == id && remote.fetch(a, fresh_) == KeyCache.Found(entry.keys)
  }

  /** What a request may do to the cache: forget entries, and enter answers. */
  ghost predicate CacheFollows(cfg: Config, cache: KeyCache.Cache, cache': KeyCache.Cache, remote: Remote, now: nat) {
    forall id :: id in cache' ==>
      (id in cache && cache'[id] == cache[id]) || AnsweredNow(cfg, id, cache'[id], remote, now)
  }

  lemma FollowsTwice(cfg: Config, a: KeyCache.Cache, b: KeyCache.Cache, c: KeyCache.Cache, remote: Remote, now: nat)
    requires CacheFollows(cfg, a, b, remote, now) && CacheFollows(cfg, b, c, remote, now)
    ensures CacheFollows(cfg, a, c, remote, now)
  {
    hide AnsweredNow;
  }

  lemma FollowsItself(cfg: Config, a: KeyCache.Cache, remote: Remote, now: nat)
    ensures CacheFollows(cfg, a, a, remote, now)
  {
    hide AnsweredNow;
  }

  lemma KeysOfFollows(cfg: Config, users: Store.Users, cache: KeyCache.Cache, a: Address, fresh_: bool, remote: Remote, now: nat)
    requires a.own || RemoteUser(cfg, a)
    ensures CacheFollows(cfg, cache, KeysOf(cfg, users, cache, a, fresh_, remote, now).0, remote, now)
  {
    var cache' := KeysOf(cfg, users, cache, a, fresh_, remote, now).0;
    forall id | id in cache'
      ensures (id in cache && cache'[id] == cache[id]) || AnsweredNow(cfg, id, cache'[id], remote, now)
    {
      if !(id in cache && cache'[id] == cache[id]) {
        assert RemoteUser(cfg, a) && Stored(a) == id && remote.fetch(a, fresh_) == KeyCache.Found(cache'[id].keys);
      }
    }
  }

  lemma RecipientFollows(env: Env, cfg: Config, users: Store.Users, cache: KeyCache.Cache, recipient: Address,
                         fingerprint: string, remote: Remote, now: nat)
    requires recipient.own || RemoteUser(cfg, recipient)
    ensures CacheFollows(cfg, cache, CheckRecipient(env, cfg, users, cache, recipient, fingerprint, remote, now).0, remote, now)
  {
    var cache1 := KeysOf(cfg, users, cache, recipient, false, remote, now).0;
    var cache2 := KeysOf(cfg, users, cache1, recipient, true, remote, now).0;
    KeysOfFollows(cfg, users, cache, recipient, false, remote, now);
    KeysOfFollows(cfg, users, cache1, recipient, true, remote, now);
    hide KeysOf, Fingerprint, CacheFollows;
    FollowsTwice(cfg, cache, cache1, cache2, remote, now);
  }

  lemma SignatureFollows(env: Env, cfg: Config, users: Store.Users, cache: KeyCache.Cache, sender: Address, key: string,
                         cached: bool, msg: string, signature: string, remote: Remote, now: nat)
    requires sender.own || RemoteUser(cfg, sender)
    ensures CacheFollows(cfg, cache,
                         CheckSignature(env, cfg, users, cache, sender, key, cached, msg, signature, remote, now).0, remote, now)
  {
    KeysOfFollows(cfg, users, cache, sender, true, remote, now);
    FollowsItself(cfg, cache, remote, now);
    hide KeysOf, Verifies, CacheFollows;
  }

  /** The caches along the key checks. */
  lemma KeysCache(env: Env, cfg: Config, users: Store.Users, cache: KeyCache.Cache, sender: Address, recipient: Address,
                  fields: Signed.MailFields, signature: string, remote: Remote, now: nat)
    ensures var (cache1, k) := KeysOf(cfg, users, cache, sender, false, remote, now);
            var cache2 := CheckRecipient(env, cfg, users, cache1, recipient, fields.fingerprint, remote, now).0;
            var cache' := CheckKeys(env, cfg, users, cache, sender, recipient, fields, signature, remote, now).0;
            || cache' == cache1 || cache' == cache2
            || (k.Keys? && cache' == CheckSignature(env, cfg, users, cache2, sender, k.sig, k.cached,
                                                    Signed.MailMessage(fields), signature, remote, now).0)
  {
    var (cache1, k) := KeysOf(cfg, users, cache, sender, false, remote, now);
    var (cache2, refusal) := CheckRecipient(env, cfg, users, cache1, recipient, fields.fingerprint, remote, now);
    hide KeysOf, CheckRecipient, CheckSignature, Signed.MailMessage;
  }

  lemma KeysFollow(env: Env, cfg: Config, users: Store.Users, cache: KeyCache.Cache, sender: Address, recipient: Address,
                   fields: Signed.MailFields, signature: string, remote: Remote, now: nat)
    requires (sender.own || RemoteUser(cfg, sender)) && (recipient.own || RemoteUser(cfg, recipient))
    ensures CacheFollows(cfg, cache,
                         CheckKeys(env, cfg, users, cache, sender, recipient, fields, signature, remote, now).0, remote, now)
  {
    hide KeysOf, CheckRecipient, CheckSignature, CheckKeys, CacheFollows, Signed.MailMessage, RemoteUser;
    KeysCache(env, cfg, users, cache, sender, recipient, fields, signature, remote, now);
    var (cache1, k) := KeysOf(cfg, users, cache, sender, false, remote, now);
    var cache2 := CheckRecipient(env, cfg, users, cache1, recipient, fields.fingerprint, remote, now).0;
    KeysOfFollows(cfg, users, cache, sender, false, remote, now);
    RecipientFollows(env, cfg, users, cache1, recipient, fields.fingerprint, remote, now);
    FollowsTwice(cfg, cache, cache1, cache2, remote, now);
    if k.Keys? {
      var msg := Signed.MailMessage(fields);
      SignatureFollows(env, cfg, users, cache2, sender, k.sig, k.cached, msg, signature, remote, now);
      FollowsTwice(cfg, cache, cache2, CheckSignature(env, cfg, users, cache2, sender, k.sig, k.cached, msg, signature, remote, now).0,
                   remote, now);
    }
  }

  lemma FormParties(env: Env, cfg: Config, m: Submission, now: nat)
    requires CheckForm(env, cfg, m, now).GoodForm?
    ensures var f := CheckForm(env, cfg, m, now);
            && (f.sender.own || RemoteUser(cfg, f.sender)) && (f.recipient.own || RemoteUser(cfg, f.recipient))
  {
    FormChecked(env, cfg, m, now);
    PartyIsUser(cfg, m.sender);
    PartyIsUser(cfg, m.recipient);
    hide CheckForm, ParseAddress, Canonical;
  }

  lemma PartyIsUser(cfg: Config, text: string)
    ensures ParseAddress(text, cfg.domain).Ok? ==>
              var a := ParseAddress(text, cfg.domain).address; Canonical(a, cfg.domain) && a.local != ""
  {
    if ParseAddress(text, cfg.domain).Ok? {
      AddressIsTarget(text, cfg.domain);
      ParsedIsCanonical(text, cfg.domain);
    }
    hide ParseAddress, ParseBlockTarget, Canonical;
  }

  lemma FrontCache(env: Env, cfg: Config, s: Instance, m: Submission, remote: Remote, now: nat)
    ensures var f := CheckForm(env, cfg, m, now);
            SendFront(env, cfg, s, m, remote, now).0.cache
            == if f.GoodForm? then
                 CheckKeys(env, cfg, s.tables.users, s.cache, f.sender, f.recipient, f.fields, m.signature, remote, now).0
               else s.cache
  {
    hide CheckForm, CheckKeys, BlockedBy, StoredId, TtlSet.AddTo, ReplyRefusal;
  }

  lemma FrontFollows(env: Env, cfg: Config, s: Instance, m: Submission, remote: Remote, now: nat)
    ensures CacheFollows(cfg, s.cache, SendFront(env, cfg, s, m, remote, now).0.cache, remote, now)
  {
    hide CheckForm, CheckKeys, CacheFollows, RemoteUser, SendFront;
    FrontCache(env, cfg, s, m, remote, now);
    FollowsItself(cfg, s.cache, remote, now);
    var f := CheckForm(env, cfg, m, now);
    if f.GoodForm? {
      FormParties(env, cfg, m, now);
      KeysFollow(env, cfg, s.tables.users, s.cache, f.sender, f.recipient, f.fields, m.signature, remote, now);
    }
  }

  lemma BackCache(env: Env, s: Instance, m: Submission, front: Front, relay: Option<(nat, string)>, now: nat, ids: seq<string>)
    ensures SendBack(env, s, m, front, relay, now, ids).0.cache == s.cache
  {
    hide Store.InsertFrom, MailRow, RelayRefusal;
  }

  lemma OtherStepsLeaveCache(env: Env, cfg: Config, s: Instance, e: Event)
    requires !e.request.SendMail? && !e.request.LookUp?
    ensures Step(env, cfg, s, e).0.cache == s.cache
  {
    if e.request.RegisterUser? {
      MarkFreshFrame(env, s, e.request.form.signature, e.request.form.pow, e.now);
      hide RegisterChecks, MarkFresh, Store.UserCreated;
    } else {
      RoutedStep(env, cfg, s, e);
      hide Step;
    }
  }

  /** A look-up is the cache's, with the account's own instance to ask. */
  lemma LookUpAsks(cfg: Config, s: Instance, name: string, remote: Remote, now: nat)
    ensures var cache' := LookedUp(cfg, s, name, remote, now).0.cache;
            || cache' == s.cache
            || (&& ParseAddress(name, cfg.domain).Ok? && !ParseAddress(name, cfg.domain).address.own && cfg.federationEnabled
                && cache' == KeysOf(cfg, s.tables.users, s.cache, ParseAddress(name, cfg.domain).address, false, remote, now).0)
  {
    hide ParseAddress, Stored, KeyCache.Looked;
  }

  /** Whoever asks for a remote user's keys fills the cache as well. */
  lemma LookUpFollows(cfg: Config, s: Instance, name: string, remote: Remote, now: nat)
    ensures CacheFollows(cfg, s.cache, LookedUp(cfg, s, name, remote, now).0.cache, remote, now)
  {
    hide ParseAddress, Canonical, CacheFollows, LookedUp, KeysOf;
    LookUpAsks(cfg, s, name, remote, now);
    FollowsItself(cfg, s.cache, remote, now);
    PartyIsUser(cfg, name);
    if ParseAddress(name, cfg.domain).Ok? && !ParseAddress(name, cfg.domain).address.own {
      KeysOfFollows(cfg, s.tables.users, s.cache, ParseAddress(name, cfg.domain).address, false, remote, now);
    }
  }

  lemma StepFollows(env: Env, cfg: Config, s: Instance, e: Event)
    ensures CacheFollows(cfg, s.cache, Step(env, cfg, s, e).0.cache, e.remote, e.now)
  {
    if e.request.SendMail? {
      var m := e.request.submission;
      var (s1, front) := SendFront(env, cfg, s, m, e.remote, e.now);
      FrontFollows(env, cfg, s, m, e.remote, e.now);
      BackCache(env, s1, m, front, e.remote.relay, e.now, e.ids);
      hide SendFront, SendBack, CacheFollows;
    } else if e.request.LookUp? {
      LookUpFollows(cfg, s, e.request.name, e.remote, e.now);
      hide LookedUp, CacheFollows;
    } else {
      OtherStepsLeaveCache(env, cfg, s, e);
      FollowsItself(cfg, s.cache, e.remote, e.now);
      hide Step, CacheFollows;
    }
  }

  /******* Every run *******/

  /** Request `i` of the run got this answer. */
  ghost predicate AnsweredIn(cfg: Config, run: Run, i: nat, id: string, entry: KeyCache.Cached)
    requires i < |run|
  {
    AnsweredNow(cfg, id, entry, run[i].remote, run[i].now)
  }

  /** In every run, each entry of the cache was answered by the instance of its account,
      during an earlier request, at the time the entry bears. */
  lemma {:induction false} CacheProvenance(env: Env, cfg: Config, run: Run, n: nat, id: string)
    requires n <= |run| && id in MailHistory.Before(env, cfg, run, n).cache
    ensures exists i :: 0 <= i < n && AnsweredIn(cfg, run, i, id, MailHistory.Before(env, cfg, run, n).cache[id])
  {
    NoCacheAtFirst(env, cfg, run);
    CacheNext(env, cfg, run, n - 1);
    hide MailHistory.Before;
    var c, c' := MailHistory.Before(env, cfg, run, n - 1).cache, MailHistory.Before(env, cfg, run, n).cache;
    if id in c && c'[id] == c[id] {
      CacheProvenance(env, cfg, run, n - 1, id);
    } else {
      assert AnsweredIn(cfg, run, n - 1, id, c'[id]);
    }
    hide AnsweredIn, AnsweredNow;
  }

  lemma NoCacheAtFirst(env: Env, cfg: Config, run: Run)
    ensures MailHistory.Before(env, cfg, run, 0).cache == map[]
  {
    assert run[..0] == [];
  }

  lemma CacheNext(env: Env, cfg: Config, run: Run, n: nat)
    requires n < |run|
    ensures CacheFollows(cfg, MailHistory.Before(env, cfg, run, n).cache, MailHistory.Before(env, cfg, run, n + 1).cache,
                         run[n].remote, run[n].now)
  {
    AfterNext(env, cfg, run, n);
    hide After, Step, CacheFollows;
    StepFollows(env, cfg, After(env, cfg, run[..n]), run[n]);
  }

  /** An instance gave these keys for `a` no longer than a minute ago: at request `i`
      of the run, or now. */
  ghost predicate AnsweredLately(run: Run, a: Address, remote: Remote, now: nat, k: KeyCache.RemoteKeys) {
    || (exists fresh_: bool :: remote.fetch(a, fresh_) == KeyCache.Found(k))
    || (exists i, fresh_: bool :: 0 <= i < |run| && now - run[i].now < 60 * SECOND
                                  && run[i].remote.fetch(a, fresh_) == KeyCache.Found(k))
  }

  /** A recent key is one the account's own instance gave within the last minute. */
  lemma RecentIsAnswered(env: Env, cfg: Config, run: Run, a: Address, remote: Remote, now: nat, k: KeyCache.RemoteKeys)
    requires RemoteUser(cfg, a) && RecentKeys(After(env, cfg, run).cache, a, remote, now, k)
    ensures AnsweredLately(run, a, remote, now, k)
  {
    var cache := After(env, cfg, run).cache;
    assert run[..|run|] == run;
    if CachedKeys(cache, a, now) == Some(k) {
      CacheProvenance(env, cfg, run, |run|, Stored(a));
      hide After;
      var i :| 0 <= i < |run| && AnsweredIn(cfg, run, i, Stored(a), cache[Stored(a)]);
      var b: Address, fresh_: bool :| RemoteUser(cfg, b) && Stored(b) == Stored(a)
        && run[i].remote.fetch(b, fresh_) == KeyCache.Found(cache[Stored(a)].keys);
      StoredInjective(a, b, cfg.domain);
      hide Stored, Canonical;
    }
  }

  /** A mail from elsewhere that any run's instance answers 201 verifies under a key
      that the sender's instance gave within the last minute; one to elsewhere carries
      the fingerprint of such a key of the recipient, or of no key at all. */
  lemma SentRestsOnAnswers(env: Env, cfg: Config, run: Run, m: Submission, remote: Remote, now: nat, ids: seq<string>)
    requires Send(env, cfg, After(env, cfg, run), m, remote, now, ids).1.Created?
    ensures var form := CheckForm(env, cfg, m, now);
            && form.GoodForm?
            && (!form.sender.own ==>
                  exists k :: AnsweredLately(run, form.sender, remote, now, k)
                    && Verifies(env, k.sig, Signed.MailMessage(form.fields), m.signature))
            && (!form.recipient.own && m.fingerprint != Fingerprint(env, "") ==>
                  exists k :: AnsweredLately(run, form.recipient, remote, now, k)
                    && k.kem != "" && Fingerprint(env, k.kem) == m.fingerprint)
  {
    var s := After(env, cfg, run);
    SentRests(env, cfg, s, m, remote, now, ids);
    FormParties(env, cfg, m, now);
    var form := CheckForm(env, cfg, m, now);
    hide CheckForm, Send, After, RemoteUser, RecentKeys, Verifies, Fingerprint, AnsweredLately, Signed.MailMessage;
    if !form.sender.own {
      var k :| RecentKeys(s.cache, form.sender, remote, now, k) && Verifies(env, k.sig, Signed.MailMessage(form.fields), m.signature);
      RecentIsAnswered(env, cfg, run, form.sender, remote, now, k);
    }
    if !form.recipient.own && m.fingerprint != Fingerprint(env, "") {
      var k :| RecentKeys(s.cache, form.recipient, remote, now, k) && k.kem != "" && Fingerprint(env, k.kem) == m.fingerprint;
      RecentIsAnswered(env, cfg, run, form.recipient, remote, now, k);
    }
  }
}
