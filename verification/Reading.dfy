/**
 What users read: a read shows the signer's own rows, all of them, and a mail that was
 taken can be read by its parties until one of them removes it.
 */
module Reading {
  import opened Text
  import opened Handlers
  import opened Invariants
  import opened Effects
  import opened MailHistory
  import Lifecycle
  import opened Addresses
  import KeyCache
  import Store

  /** A list of mail is shown if and only if the request is authorized, and then it has
      exactly what the signer received, or sent. */
  lemma ListedExactly(env: Env, s: Instance, typ: string, h: Header, now: nat)
    ensures var (s', r) := ListedMail(env, s, typ, h, now);
            && s'.tables == s.tables && (r.ShowsMail? || r.Fail?)
            && (r.ShowsMail? <==> Authorized(env, s, "GET", "/api/mail?type=" + BoxOf(typ), h, None, now))
            && (r.ShowsMail? ==>
                  forall g :: g in r.refs <==>
                    g in s.tables.mail
                    && h.username == if typ == "sent" then s.tables.mail[g].sender else s.tables.mail[g].recipient)
  {
    AuthenticatedExact(env, s, "GET", "/api/mail?type=" + BoxOf(typ), h, None, now);
    hide Authenticate, Authorized;
  }

  /** One mail is shown if and only if the request is authorized and the mail with that
      identifier names the signer; that mail and no other. */
  lemma GottenExactly(env: Env, s: Instance, id: string, h: Header, now: nat)
    requires IdsDistinct(s.tables.mail)
    ensures var (s', r) := GottenMail(env, s, id, h, now);
            && s'.tables == s.tables && (r.ShowsMail? || r.Fail?)
            && forall g :: g in s.tables.mail && s.tables.mail[g].id == id ==>
                 (r == ShowsMail({g}) <==>
                    Authorized(env, s, "GET", "/api/mail/" + id, h, None, now) && Store.PartyTo(s.tables.mail[g], h.username))
                 && (r.ShowsMail? ==> r == ShowsMail({g}))
  {
    AuthenticatedExact(env, s, "GET", "/api/mail/" + id, h, None, now);
    hide Authenticate, Authorized, Store.PartyTo;
    var refs := Store.MailFound(s.tables.mail, id, h.username);
    forall g | g in s.tables.mail && s.tables.mail[g].id == id
      ensures refs == if Store.PartyTo(s.tables.mail[g], h.username) then {g} else {}
    {
    }
  }

  /** The signer's blocks are shown if and only if the request is authorized: each target
      with its time, and no one else's. */
  lemma ListedBlocksExactly(env: Env, s: Instance, h: Header, now: nat)
    ensures var (s', r) := ListedBlocks(env, s, h, now);
            && s'.tables == s.tables && (r.ShowsBlocks? || r.Fail?)
            && (r.ShowsBlocks? <==> Authorized(env, s, "GET", "/api/block", h, None, now))
            && (r.ShowsBlocks? ==>
                  forall t, at :: (t, at) in r.blocks <==>
                    (h.username, t) in s.tables.blocks && s.tables.blocks[(h.username, t)] == at)
  {
    AuthenticatedExact(env, s, "GET", "/api/block", h, None, now);
    hide Authenticate, Authorized;
    forall t, at
      ensures (t, at) in Store.BlocksListed(s.tables.blocks, h.username) <==>
              (h.username, t) in s.tables.blocks && s.tables.blocks[(h.username, t)] == at
    {
      if (h.username, t) in s.tables.blocks {
        assert (h.username, t).0 == h.username;
      }
    }
  }

  /** Anybody is shown a local account's keys as they are, and a remote one's as the cache
      knows them from the last minute or its instance tells them; what was told is kept. */
  lemma KeysShown(cfg: Config, s: Instance, name: string, remote: Remote, now: nat)
    ensures var (s', r) := LookedUp(cfg, s, name, remote, now);
            var parsed := ParseAddress(name, cfg.domain);
            var local := if '@' in name && parsed.Ok? then parsed.address.local else name;
            && s' == s.(cache := s'.cache)
            && if '@' in name && parsed.Err? then r == Fail(404, "User not found")
               else if '@' !in name || parsed.address.own then
                 && s' == s
                 && r == if local in s.tables.users then ShowsKeys(s.tables.users[local].kem, s.tables.users[local].sig)
                         else Fail(404, "User not found")
               else if !cfg.federationEnabled then r == Fail(403, "Federation disabled")
               else
                 var id, asked := Stored(parsed.address), remote.fetch(parsed.address, false);
                 if id in s.cache && now - s.cache[id].at < 60_000_000_000 then
                   r == ShowsKeys(s.cache[id].keys.kem, s.cache[id].keys.sig) && s' == s
                 else
                   match asked
                   case Found(k) =>
                     r == ShowsKeys(k.kem, k.sig) && id in s'.cache && s'.cache[id] == KeyCache.Cached(k, now)
                   case RemoteNotFound => r == Fail(404, "External user not found") && s' == s
                   case Unreachable => r == Fail(502, "Failed to connect") && s' == s
  {
    hide ParseAddress, Stored;
  }

  /** Request `i` was answered 201 with the identifier of row `g`. */
  ghost predicate TakenAt(env: Env, cfg: Config, run: Run, i: nat, g: string, id: string)
    requires i < |run|
  {
    && run[i].request.SendMail? && env.sha256(run[i].request.submission.signature) == g
    && Step(env, cfg, Before(env, cfg, run, i), run[i]).1 == Created(id)
  }

  lemma TakenIsThere(env: Env, cfg: Config, run: Run, i: nat, g: string, id: string)
    requires i < |run| && TakenAt(env, cfg, run, i, g, id)
    ensures var s := Before(env, cfg, run, i + 1); g in s.tables.mail && s.tables.mail[g].id == id
  {
    var e := run[i];
    AfterNext(env, cfg, run, i);
    hide After, Send;
    Lifecycle.SentIsStored(env, cfg, Before(env, cfg, run, i), e.request.submission, e.remote, e.now, e.ids);
  }

  /** A mail answered 201 can be read under the identifier answered, at any later point of
      any run, by its parties and nobody else, unless one of them burned it, rotated or was
      destroyed since. */
  lemma TakenCanBeRead(env: Env, cfg: Config, run: Run, i: nat, n: nat, g: string, id: string, h: Header, now: nat)
    requires i < n <= |run| && TakenAt(env, cfg, run, i, g, id)
    requires g in Before(env, cfg, run, i + 1).tables.mail
             ==> Undisturbed(env, cfg, run, i + 1, n, Before(env, cfg, run, i + 1).tables.mail[g])
    ensures g in Before(env, cfg, run, i + 1).tables.mail
    ensures var s, row := Before(env, cfg, run, n), Before(env, cfg, run, i + 1).tables.mail[g];
            var r := GottenMail(env, s, id, h, now).1;
            && (r == ShowsMail({g}) <==> Authorized(env, s, "GET", "/api/mail/" + id, h, None, now) && Store.PartyTo(row, h.username))
            && (r.ShowsMail? ==> r == ShowsMail({g}))
  {
    hide Before, TakenAt, Undisturbed, GottenMail, Authorized, Store.PartyTo;
    TakenIsThere(env, cfg, run, i, g, id);
    MailKept(env, cfg, run, i + 1, n, g);
    IdsStayDistinct(env, cfg, run, n);
    GottenExactly(env, Before(env, cfg, run, n), id, h, now);
  }

  lemma IdsStayDistinct(env: Env, cfg: Config, run: Run, n: nat)
    requires n <= |run|
    ensures IdsDistinct(Before(env, cfg, run, n).tables.mail)
  {
    RunKeeps(env, cfg, run[..n]);
    hide After, IdsDistinct, MailOk, UsersOk, BlocksOk;
  }
}
