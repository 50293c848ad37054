/**
 The key caches of instances that federate. What `CacheTransparency` asks of a
 remote account, that it stays destroyed once it is, holds in every run of a
 network: a cache can know no destroyed account that is not destroyed still.
 */
module WorldCaches {
  import opened Text
  import opened Addresses
  import opened Handlers
  import opened Invariants
  import opened Lifecycle
  import opened CacheTransparency
  import opened CacheHistory
  import opened Federation
  import KeyCache
  import Store

  /** These empty keys, cached as `id`, are those of accounts destroyed by now. */
  ghost predicate EntryOk(cfg: Config, w: World, id: string, keys: KeyCache.RemoteKeys) {
    forall a: Address | RemoteUser(cfg, a) && Stored(a) == id && a.domain in w && (keys.kem == "" || keys.sig == "") ::
      a.local in w[a.domain].tables.users && Destroyed(w[a.domain].tables.users[a.local])
  }

  ghost predicate CacheOk(cfg: Config, w: World, cache: KeyCache.Cache) {
    forall id :: id in cache ==> EntryOk(cfg, w, id, cache[id].keys)
  }

  ghost predicate CachesOk(cfgs: Configs, w: World)
    requires w.Keys == cfgs.Keys
  {
    forall d :: d in w ==> CacheOk(cfgs[d], w, w[d].cache)
  }

  /** Accounts of one world as the next has them. */
  ghost predicate AllKept(w: World, w': World)
    requires w.Keys == w'.Keys
  {
    forall d :: d in w ==> AccountsKept(w[d].tables.users, w'[d].tables.users)
  }

  lemma OldEntryOk(cfg: Config, w: World, w': World, id: string, keys: KeyCache.RemoteKeys)
    requires w.Keys == w'.Keys && AllKept(w, w') && EntryOk(cfg, w, id, keys)
    ensures EntryOk(cfg, w', id, keys)
  {
    hide RemoteUser, Stored;
  }

  /** An answer of the network that has an empty key is of a destroyed account. */
  lemma NewEntryOk(env: Env, cfgs: Configs, w: World, cfg: Config, id: string, entry: KeyCache.Cached,
                   up: (Address, bool) -> Reach, outside: Remote, now: nat)
    requires w.Keys == cfgs.Keys && WorldInv(env, cfgs, w) && AnsweredNow(cfg, id, entry, Answers(w, up, outside), now)
    ensures EntryOk(cfg, w, id, entry.keys)
  {
    var b: Address, fresh_: bool :| RemoteUser(cfg, b) && Stored(b) == id
      && Answers(w, up, outside).fetch(b, fresh_) == KeyCache.Found(entry.keys);
    forall a: Address | RemoteUser(cfg, a) && Stored(a) == id && a.domain in w && (entry.keys.kem == "" || entry.keys.sig == "")
      ensures a.local in w[a.domain].tables.users && Destroyed(w[a.domain].tables.users[a.local])
    {
      StoredInjective(a, b, cfg.domain);
      AnswerIsRow(w, up, outside, b, fresh_, entry.keys);
      EmptyIsDestroyed(env, cfgs, w, b.domain, b.local);
      hide Canonical, Stored, Answers, WorldInv;
    }
  }

  lemma AnswerIsRow(w: World, up: (Address, bool) -> Reach, outside: Remote, b: Address, fresh_: bool, keys: KeyCache.RemoteKeys)
    requires b.domain in w && Answers(w, up, outside).fetch(b, fresh_) == KeyCache.Found(keys)
    ensures var users := w[b.domain].tables.users;
            b.local in users && users[b.local].kem == keys.kem && users[b.local].sig == keys.sig
  {
    assert Answers(w, up, outside).fetch(b, fresh_) == Heard(w[b.domain], b.local, up(b, fresh_));
  }

  lemma EmptyIsDestroyed(env: Env, cfgs: Configs, w: World, d: string, name: string)
    requires w.Keys == cfgs.Keys && WorldInv(env, cfgs, w) && d in w
    ensures name in w[d].tables.users ==>
              var u := w[d].tables.users[name]; u.kem == "" || u.sig == "" ==> Destroyed(u)
  {
    assert Inv(env, cfgs[d], w[d]);
    hide MailOk, BlocksOk, IdsDistinct, RowAgrees, ValidUsername, Lower;
  }

  lemma CacheStays(env: Env, cfgs: Configs, w: World, w': World, cfg: Config, cache: KeyCache.Cache, cache': KeyCache.Cache,
                   up: (Address, bool) -> Reach, outside: Remote, now: nat)
    requires w.Keys == w'.Keys == cfgs.Keys && WorldInv(env, cfgs, w) && AllKept(w, w')
    requires CacheOk(cfg, w, cache) && CacheFollows(cfg, cache, cache', Answers(w, up, outside), now)
    ensures CacheOk(cfg, w', cache')
  {
    hide WorldInv, AllKept, EntryOk, AnsweredNow, Answers;
    forall id | id in cache' ensures EntryOk(cfg, w', id, cache'[id].keys) {
      if !(id in cache && cache'[id] == cache[id]) {
        NewEntryOk(env, cfgs, w, cfg, id, cache'[id], up, outside, now);
      }
      OldEntryOk(cfg, w, w', id, cache'[id].keys);
    }
  }

  lemma KeptAlready(users: Store.Users)
    ensures AccountsKept(users, users)
  {
  }

  /** What a submission does to the accounts and the cache of an instance. */
  lemma SendSides(env: Env, cfg: Config, s: Instance, m: Submission, remote: Remote, relay: Option<(nat, string)>, now: nat,
                  ids: seq<string>)
    ensures var (s1, front) := SendFront(env, cfg, s, m, remote, now);
            var s' := SendBack(env, s1, m, front, relay, now, ids).0;
            CacheFollows(cfg, s.cache, s'.cache, remote, now) && s'.tables.users == s.tables.users
  {
    var (s1, front) := SendFront(env, cfg, s, m, remote, now);
    FrontFrame(env, cfg, s, m, remote, now);
    FrontFollows(env, cfg, s, m, remote, now);
    BackCache(env, s1, m, front, relay, now, ids);
    BackGrows(env, s1, m, front, relay, now, ids);
    hide SendFront, SendBack, CacheFollows, Grows;
  }

  /** Only instances `at` and `d` of the world are touched, as submissions touch them. */
  lemma TwoSides(env: Env, cfgs: Configs, w: World, w': World, at: string, d: string,
                 up: (Address, bool) -> Reach, outside: Remote, now: nat,
                 up': (Address, bool) -> Reach, outside': Remote, now': nat)
    requires w.Keys == w'.Keys == cfgs.Keys && WorldInv(env, cfgs, w) && CachesOk(cfgs, w) && at in w && d in w
    requires forall x :: x in w && x != at && x != d ==> w'[x] == w[x]
    requires w'[at].tables.users == w[at].tables.users && w'[d].tables.users == w[d].tables.users
    requires CacheFollows(cfgs[at], w[at].cache, w'[at].cache, Answers(w, up, outside), now)
    requires d != at ==> CacheFollows(cfgs[d], w[d].cache, w'[d].cache, Answers(w, up', outside'), now')
    ensures CachesOk(cfgs, w')
  {
    assert AllKept(w, w') by {
      forall x | x in w ensures AccountsKept(w[x].tables.users, w'[x].tables.users) {
        KeptAlready(w[x].tables.users);
      }
    }
    hide WorldInv, AllKept, CacheOk, Answers, AccountsKept;
    forall x | x in w ensures CacheOk(cfgs[x], w', w'[x].cache) {
      if x == at {
        CacheStays(env, cfgs, w, w', cfgs[x], w[x].cache, w'[x].cache, up, outside, now);
      } else if x == d {
        CacheStays(env, cfgs, w, w', cfgs[x], w[x].cache, w'[x].cache, up', outside', now');
      } else {
        FollowsItself(cfgs[x], w[x].cache, Answers(w, up, outside), now);
        CacheStays(env, cfgs, w, w', cfgs[x], w[x].cache, w'[x].cache, up, outside, now);
      }
    }
  }

  /** Any other request touches one instance, and its accounts are kept. */
  lemma OtherRequests(env: Env, cfgs: Configs, w: World, e: WorldEvent)
    requires e.at in w && w.Keys == cfgs.Keys && WorldInv(env, cfgs, w) && CachesOk(cfgs, w) && !e.event.request.SendMail?
    ensures CachesOk(cfgs, WorldStep(env, cfgs, w, e).0)
  {
    var event := InWorld(w, e);
    var w' := w[e.at := Step(env, cfgs[e.at], w[e.at], event).0];
    StepAccounts(env, cfgs[e.at], w[e.at], event);
    StepFollows(env, cfgs[e.at], w[e.at], event);
    hide Step, Answers;
    assert WorldStep(env, cfgs, w, e).0 == w';
    hide WorldStep;
    assert AllKept(w, w') by {
      forall x | x in w ensures AccountsKept(w[x].tables.users, w'[x].tables.users) {
        KeptAlready(w[x].tables.users);
      }
    }
    hide AllKept, AccountsKept, CacheOk, WorldInv, CacheFollows;
    forall x | x in w ensures CacheOk(cfgs[x], w', w'[x].cache) {
      FollowsItself(cfgs[x], w[x].cache, event.remote, event.now);
      CacheStays(env, cfgs, w, w', cfgs[x], w[x].cache, w'[x].cache, e.up, e.event.remote, event.now);
    }
  }

  lemma RelayedSides(env: Env, cfgs: Configs, w: World, e: WorldEvent, m: Submission)
    requires e.at in w && w.Keys == cfgs.Keys && WorldInv(env, cfgs, w) && CachesOk(cfgs, w) && e.arrival.Handled?
    requires Relayed(w, e.at, SendFront(env, cfgs[e.at], w[e.at], m, Answers(w, e.up, e.event.remote), e.event.now).1)
    ensures CachesOk(cfgs, WorldSend(env, cfgs, w, e, m).0)
  {
    hide SendFront, SendBack, CacheFollows, WorldInv, CachesOk, Answers;
    var remote, remoteThere := Answers(w, e.up, e.event.remote), Answers(w, e.upThere, e.there.remote);
    var (s1, front) := SendFront(env, cfgs[e.at], w[e.at], m, remote, e.event.now);
    var d := front.recipient.domain;
    var (there, reply) := Send(env, cfgs[d], w[d], m, remoteThere, e.there.now, e.there.ids);
    var outcome := if e.arrival.replied then Some((Status(reply), ErrorText(reply))) else None;
    var here := SendBack(env, s1, m, front, outcome, e.event.now, e.event.ids).0;
    SendSides(env, cfgs[d], w[d], m, remoteThere, remoteThere.relay, e.there.now, e.there.ids);
    SendSides(env, cfgs[e.at], w[e.at], m, remote, outcome, e.event.now, e.event.ids);
    assert WorldSend(env, cfgs, w, e, m).0 == w[d := there][e.at := here];
    hide WorldSend, Send, Status, ErrorText;
    TwoSides(env, cfgs, w, w[d := there][e.at := here], e.at, d, e.up, e.event.remote, e.event.now,
             e.upThere, e.there.remote, e.there.now);
  }

  lemma SoloSide(env: Env, cfgs: Configs, w: World, e: WorldEvent, m: Submission)
    requires e.at in w && w.Keys == cfgs.Keys && WorldInv(env, cfgs, w) && CachesOk(cfgs, w)
    requires !(&& Relayed(w, e.at, SendFront(env, cfgs[e.at], w[e.at], m, Answers(w, e.up, e.event.remote), e.event.now).1)
               && e.arrival.Handled?)
    ensures CachesOk(cfgs, WorldSend(env, cfgs, w, e, m).0)
  {
    hide SendFront, SendBack, CacheFollows, WorldInv, CachesOk, Answers, NotTaken, Relayed;
    var remote := Answers(w, e.up, e.event.remote);
    var (s1, front) := SendFront(env, cfgs[e.at], w[e.at], m, remote, e.event.now);
    var outcome := if Relayed(w, e.at, front) then NotTaken(e.arrival) else e.event.remote.relay;
    AnswersRelay(w, e.up, e.event.remote);
    var here := SendBack(env, s1, m, front, outcome, e.event.now, e.event.ids).0;
    SendSides(env, cfgs[e.at], w[e.at], m, remote, outcome, e.event.now, e.event.ids);
    assert WorldSend(env, cfgs, w, e, m).0 == w[e.at := here];
    hide WorldSend;
    TwoSides(env, cfgs, w, w[e.at := here], e.at, e.at, e.up, e.event.remote, e.event.now, e.up, e.event.remote, e.event.now);
  }

  lemma AnswersRelay(w: World, up: (Address, bool) -> Reach, outside: Remote)
    ensures Answers(w, up, outside).relay == outside.relay
  {
  }

  lemma SendRequests(env: Env, cfgs: Configs, w: World, e: WorldEvent, m: Submission)
    requires e.at in w && w.Keys == cfgs.Keys && WorldInv(env, cfgs, w) && CachesOk(cfgs, w)
    ensures CachesOk(cfgs, WorldSend(env, cfgs, w, e, m).0)
  {
    hide *;
    if && Relayed(w, e.at, SendFront(env, cfgs[e.at], w[e.at], m, Answers(w, e.up, e.event.remote), e.event.now).1)
       && e.arrival.Handled? {
      RelayedSides(env, cfgs, w, e, m);
    } else {
      SoloSide(env, cfgs, w, e, m);
    }
  }

  lemma FreshCachesOk(env: Env, cfgs: Configs)
    ensures CachesOk(cfgs, WorldAfter(env, cfgs, []))
  {
  }

  /** In every run of the network. */
  lemma {:induction false} WorldCachesOk(env: Env, cfgs: Configs, run: WorldRun)
    requires ConfigsOk(cfgs) && AddressedWithin(cfgs, run)
    ensures CachesOk(cfgs, WorldAfter(env, cfgs, run))
  {
    if run == [] {
      FreshCachesOk(env, cfgs);
    } else {
      var run0, e := run[..|run| - 1], run[|run| - 1];
      WorldCachesOk(env, cfgs, run0);
      WorldRunKeeps(env, cfgs, run0);
      assert WorldAfter(env, cfgs, run) == WorldStep(env, cfgs, WorldAfter(env, cfgs, run0), e).0;
      hide WorldAfter, WorldInv, CachesOk, WorldSend, Step, ConfigsOk;
      if e.event.request.SendMail? {
        SendRequests(env, cfgs, WorldAfter(env, cfgs, run0), e, e.event.request.submission);
      } else {
        OtherRequests(env, cfgs, WorldAfter(env, cfgs, run0), e);
      }
    }
  }

  /** With such a cache, an account that can be reached is steady. */
  lemma SteadyWhenReached(cfg: Config, w: World, cache: KeyCache.Cache, a: Address, up: (Address, bool) -> Reach,
                          outside: Remote, now: nat)
    requires RemoteUser(cfg, a) && a.domain in w && up(a, false).Reached? && up(a, true).Reached?
    requires CacheOk(cfg, w, cache)
    ensures Steady(cache, a, Answers(w, up, outside), now)
  {
    assert Answers(w, up, outside).fetch(a, false) == Pubkey(w[a.domain], a.local);
    assert Answers(w, up, outside).fetch(a, true) == Pubkey(w[a.domain], a.local);
    if CachedKeys(cache, a, now).Some? {
      assert EntryOk(cfg, w, Stored(a), cache[Stored(a)].keys);
    }
    hide Stored, Canonical, Answers;
  }

  /** So what transparency of the cache asks for holds in every run, of every account on
      an instance of the network that can be reached. */
  lemma NetworkIsSteady(env: Env, cfgs: Configs, run: WorldRun, at: string, a: Address,
                        up: (Address, bool) -> Reach, outside: Remote, now: nat)
    requires ConfigsOk(cfgs) && AddressedWithin(cfgs, run) && at in cfgs
    requires RemoteUser(cfgs[at], a) && a.domain in cfgs && up(a, false).Reached? && up(a, true).Reached?
    ensures var w := WorldAfter(env, cfgs, run); Steady(w[at].cache, a, Answers(w, up, outside), now)
  {
    WorldCachesOk(env, cfgs, run);
    var w := WorldAfter(env, cfgs, run);
    hide WorldAfter, WorldInv, CacheOk, Steady, Answers;
    SteadyWhenReached(cfgs[at], w, w[at].cache, a, up, outside, now);
  }
}
