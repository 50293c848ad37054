/**
 The blocklist as its users mean it: a set of parsed targets per user. The table
 holds strings and is updated by string comparison; over every run, in any
 spelling of the targets, it stays the image of that set.
 */
module Blocklist {
  import opened Text
  import opened Addresses
  import opened Handlers
  import opened Invariants
  import Store

  /** Who blocks whom, by parsed address. */
  type Targets = set<(string, Address)>

  function ParsedRow(cfg: Config, k: (string, string)): (string, Address)
    requires ParseBlockTarget(k.1, cfg.domain).Ok?
  {
    (k.0, ParseBlockTarget(k.1, cfg.domain).address)
  }

  /** The meaning of a table. */
  function TargetsOf(cfg: Config, blocks: Store.Blocks): Targets {
    set k | k in blocks && ParseBlockTarget(k.1, cfg.domain).Ok? :: ParsedRow(cfg, k)
  }

  function LocalUser(cfg: Config, name: string): Address { Address(name, Lower(cfg.domain), true) }

  function BareDomain(cfg: Config, domain: string): Address { Address("", domain, domain == Lower(cfg.domain)) }

  /** The list as a user reads the documentation: block adds the target named,
      unblock removes it, and a destroyed account leaves no trace. */
  function TargetsStep(cfg: Config, targets: Targets, e: Event, response: Response): Targets {
    match e.request
    case BlockTarget(h, _, Some(t)) =>
      if response == Done(201) && ParseBlockTarget(t, cfg.domain).Ok? then
        targets + {(h.username, ParseBlockTarget(t, cfg.domain).address)}
      else targets
    case UnblockTarget(h, _, Some(t)) =>
      if response == Done(200) && ParseBlockTarget(t, cfg.domain).Ok? then
        targets - {(h.username, ParseBlockTarget(t, cfg.domain).address)}
      else targets
    case DestroyAccount(h) =>
      if response == Done(200) then
        set x | x in targets && x.0 != h.username && x.1 != LocalUser(cfg, h.username)
      else targets
    case _ => targets
  }

  function TargetsAfter(env: Env, cfg: Config, run: Run): Targets {
    if run == [] then {}
    else
      var n := |run| - 1;
      TargetsStep(cfg, TargetsAfter(env, cfg, run[..n]), run[n],
                  Step(env, cfg, After(env, cfg, run[..n]), run[n]).1)
  }

  /******* Table and set, operation by operation *******/

  /** In a table in normal form, a pair stands for exactly one row. */
  lemma RowOfTarget(cfg: Config, t: Store.Tables, name: string, a: Address)
    requires BlocksOk(cfg, t) && ParseBlockTarget(Stored(a), cfg.domain) == Ok(a)
    ensures (name, a) in TargetsOf(cfg, t.blocks) <==> (name, Stored(a)) in t.blocks
  {
    hide ParseBlockTarget, Stored;
    if (name, Stored(a)) in t.blocks {
      assert ParsedRow(cfg, (name, Stored(a))) == (name, a);
    }
    if (name, a) in TargetsOf(cfg, t.blocks) {
      var k :| k in t.blocks && ParseBlockTarget(k.1, cfg.domain).Ok? && ParsedRow(cfg, k) == (name, a);
      assert k == (name, Stored(a));
    }
  }

  lemma AddedTarget(cfg: Config, blocks: Store.Blocks, name: string, a: Address, at: int)
    requires ParseBlockTarget(Stored(a), cfg.domain) == Ok(a)
    ensures TargetsOf(cfg, blocks[(name, Stored(a)) := at]) == TargetsOf(cfg, blocks) + {(name, a)}
  {
    hide ParseBlockTarget, Stored;
    var blocks' := blocks[(name, Stored(a)) := at];
    assert ParsedRow(cfg, (name, Stored(a))) == (name, a);
    forall x | x in TargetsOf(cfg, blocks) + {(name, a)} ensures x in TargetsOf(cfg, blocks') {
      if x in TargetsOf(cfg, blocks) {
        var k :| k in blocks && ParseBlockTarget(k.1, cfg.domain).Ok? && ParsedRow(cfg, k) == x;
        assert k in blocks';
      } else {
        assert (name, Stored(a)) in blocks';
      }
    }
  }

  /** The raw form passed along with the stored one removes no other target. */
  lemma RawFormIsHarmless(cfg: Config, t: Store.Tables, name: string, raw: string)
    requires BlocksOk(cfg, t) && ParseBlockTarget(raw, cfg.domain).Ok?
    ensures var stored := Stored(ParseBlockTarget(raw, cfg.domain).address);
            WithoutBlocks(t.blocks, name, [stored, raw]) == WithoutBlocks(t.blocks, name, [stored])
  {
    hide ParseBlockTarget, Stored;
  }

  lemma RemovedTarget(cfg: Config, t: Store.Tables, name: string, a: Address)
    requires BlocksOk(cfg, t) && ParseBlockTarget(Stored(a), cfg.domain) == Ok(a)
    ensures TargetsOf(cfg, WithoutBlocks(t.blocks, name, [Stored(a)])) == TargetsOf(cfg, t.blocks) - {(name, a)}
  {
    hide ParseBlockTarget, Stored;
    var blocks' := WithoutBlocks(t.blocks, name, [Stored(a)]);
    forall x | x in TargetsOf(cfg, t.blocks) - {(name, a)} ensures x in TargetsOf(cfg, blocks') {
      var k :| k in t.blocks && ParseBlockTarget(k.1, cfg.domain).Ok? && ParsedRow(cfg, k) == x;
      assert k in blocks';
    }
    forall x | x in TargetsOf(cfg, blocks') ensures x in TargetsOf(cfg, t.blocks) && x != (name, a) {
      var k :| k in blocks' && ParseBlockTarget(k.1, cfg.domain).Ok? && ParsedRow(cfg, k) == x;
      assert k in t.blocks;
    }
  }

  lemma DroppedUser(cfg: Config, t: Store.Tables, name: string)
    requires BlocksOk(cfg, t) && ValidUsername(name)
    ensures TargetsOf(cfg, map k | k in t.blocks && k.0 != name && k.1 != name :: t.blocks[k])
         == set x | x in TargetsOf(cfg, t.blocks) && x.0 != name && x.1 != LocalUser(cfg, name)
  {
    var blocks' := map k | k in t.blocks && k.0 != name && k.1 != name :: t.blocks[k];
    forall k | k in t.blocks
      ensures k.1 == name <==> ParseBlockTarget(k.1, cfg.domain).address == LocalUser(cfg, name)
    {
      ParsedIsCanonical(k.1, cfg.domain);
      StoredIsBareName(ParseBlockTarget(k.1, cfg.domain).address, name, cfg.domain);
    }
    hide ParseBlockTarget, Stored, LocalUser, ValidUsername;
    forall x | x in TargetsOf(cfg, t.blocks) && x.0 != name && x.1 != LocalUser(cfg, name)
      ensures x in TargetsOf(cfg, blocks')
    {
      var k :| k in t.blocks && ParseBlockTarget(k.1, cfg.domain).Ok? && ParsedRow(cfg, k) == x;
      assert k in blocks';
    }
    forall x | x in TargetsOf(cfg, blocks')
      ensures x in TargetsOf(cfg, t.blocks) && x.0 != name && x.1 != LocalUser(cfg, name)
    {
      var k :| k in blocks' && ParseBlockTarget(k.1, cfg.domain).Ok? && ParsedRow(cfg, k) == x;
      assert k in t.blocks;
    }
  }

  /******* Every run *******/

  lemma BlockStep(env: Env, cfg: Config, s: Instance, h: Header, body: string, target: Option<string>, now: nat)
    requires Inv(env, cfg, s)
    ensures var (s', r) := Block(env, cfg, s, h, body, target, now);
            var targets := TargetsOf(cfg, s.tables.blocks);
            if r == Done(201) then
              && target.Some? && ParseBlockTarget(target.value, cfg.domain).Ok?
              && TargetsOf(cfg, s'.tables.blocks)
                 == targets + {(h.username, ParseBlockTarget(target.value, cfg.domain).address)}
            else s'.tables.blocks == s.tables.blocks
  {
    hide Authenticate, ParseBlockTarget, Stored, TargetsOf, Inv;
    AuthenticateFrame(env, s, "POST", "/api/block", h, Some(body), now);
    var (s1, auth) := Authenticate(env, s, "POST", "/api/block", h, Some(body), now);
    if target.Some? && ParseBlockTarget(target.value, cfg.domain).Ok? {
      StoredReparses(target.value, cfg.domain);
      AddedTarget(cfg, s.tables.blocks, h.username, ParseBlockTarget(target.value, cfg.domain).address, now / SECOND);
    }
  }

  lemma UnblockStep(env: Env, cfg: Config, s: Instance, h: Header, body: string, target: Option<string>, now: nat)
    requires Inv(env, cfg, s)
    ensures var (s', r) := Unblock(env, cfg, s, h, body, target, now);
            var targets := TargetsOf(cfg, s.tables.blocks);
            if r == Done(200) then
              && target.Some? && ParseBlockTarget(target.value, cfg.domain).Ok?
              && TargetsOf(cfg, s'.tables.blocks)
                 == targets - {(h.username, ParseBlockTarget(target.value, cfg.domain).address)}
            else s'.tables.blocks == s.tables.blocks
  {
    hide Authenticate, ParseBlockTarget, Stored, TargetsOf, WithoutBlocks, BlocksOk;
    AuthenticateFrame(env, s, "DELETE", "/api/block", h, Some(body), now);
    var (s1, auth) := Authenticate(env, s, "DELETE", "/api/block", h, Some(body), now);
    if target.Some? && ParseBlockTarget(target.value, cfg.domain).Ok? {
      StoredReparses(target.value, cfg.domain);
      RawFormIsHarmless(cfg, s.tables, h.username, target.value);
      RemovedTarget(cfg, s.tables, h.username, ParseBlockTarget(target.value, cfg.domain).address);
    }
  }

  lemma DestroyStep(env: Env, cfg: Config, s: Instance, h: Header, now: nat)
    requires Inv(env, cfg, s)
    ensures var (s', r) := Destroy(env, s, h, now);
            var targets := TargetsOf(cfg, s.tables.blocks);
            if r == Done(200) then
              TargetsOf(cfg, s'.tables.blocks)
              == set x | x in targets && x.0 != h.username && x.1 != LocalUser(cfg, h.username)
            else s'.tables.blocks == s.tables.blocks
  {
    AuthenticateFrame(env, s, "DELETE", "/api/destroy", h, None, now);
    var (s1, auth) := Authenticate(env, s, "DELETE", "/api/destroy", h, None, now);
    assert auth.Denied? ==> Destroy(env, s, h, now) == (s1, auth.response);
    hide Authenticate, TargetsOf, LocalUser;
    if auth.User? {
      DroppedUser(cfg, s.tables, h.username);
    }
  }

  lemma QuietStep(env: Env, cfg: Config, s: Instance, e: Event)
    requires !e.request.BlockTarget? && !e.request.UnblockTarget? && !e.request.DestroyAccount?
    ensures Step(env, cfg, s, e).0.tables.blocks == s.tables.blocks
  {
    match e.request
    case RegisterUser(b) =>
      MarkFreshFrame(env, s, b.signature, b.pow, e.now);
      hide MarkFresh, RegisterChecks, Lower;
    case SendMail(m) => SendFrame(env, cfg, s, m, e.remote, e.now, e.ids);
    case BurnMail(id, h) => BurnQuiet(env, s, id, h, e.now);
    case RotateKeys(h, body, keys) => RotateQuiet(env, s, h, body, keys, e.now);
    case _ =>
      ReadsFrame(env, cfg, s, e);
      hide Step;
  }

  lemma BurnQuiet(env: Env, s: Instance, id: string, h: Header, now: nat)
    ensures Burn(env, s, id, h, now).0.tables.blocks == s.tables.blocks
  {
    AuthenticateFrame(env, s, "DELETE", "/api/mail/" + id, h, None, now);
    hide Authenticate;
  }

  lemma RotateQuiet(env: Env, s: Instance, h: Header, body: string, keys: Option<(string, string)>, now: nat)
    ensures Rotate(env, s, h, body, keys, now).0.tables.blocks == s.tables.blocks
  {
    AuthenticateFrame(env, s, "POST", "/api/rotate", h, Some(body), now);
    hide Authenticate, ValidKEM;
  }

  lemma StepRefines(env: Env, cfg: Config, s: Instance, e: Event)
    requires Inv(env, cfg, s)
    ensures var (s', r) := Step(env, cfg, s, e);
            TargetsOf(cfg, s'.tables.blocks) == TargetsStep(cfg, TargetsOf(cfg, s.tables.blocks), e, r)
  {
    hide Block, Unblock, Destroy, TargetsOf, Inv, ParseBlockTarget;
    match e.request
    case BlockTarget(h, body, target) => BlockStep(env, cfg, s, h, body, target, e.now);
    case UnblockTarget(h, body, target) => UnblockStep(env, cfg, s, h, body, target, e.now);
    case DestroyAccount(h) => DestroyStep(env, cfg, s, h, e.now);
    case _ =>
      QuietStep(env, cfg, s, e);
      hide Step;
  }

  /** After every run the table means the set of targets its users built. */
  lemma {:induction false} RunRefines(env: Env, cfg: Config, run: Run)
    ensures TargetsOf(cfg, After(env, cfg, run).tables.blocks) == TargetsAfter(env, cfg, run)
  {
    if run != [] {
      var n := |run| - 1;
      RunRefines(env, cfg, run[..n]);
      RunKeeps(env, cfg, run[..n]);
      StepRefines(env, cfg, After(env, cfg, run[..n]), run[n]);
      hide Step, TargetsStep, TargetsOf, Inv;
    }
  }

  /******* Which mail is refused *******/

  /** What the documentation says: the sender is blocked, or its whole domain. */
  predicate ShouldRefuse(cfg: Config, targets: Targets, recipient: Address, sender: Address) {
    (recipient.local, sender) in targets || (recipient.local, BareDomain(cfg, sender.domain)) in targets
  }

  /** A sender on a dotless domain that is spelled like a local user the recipient
      blocks. */
  predicate Mistaken(cfg: Config, targets: Targets, recipient: Address, sender: Address) {
    '.' !in sender.domain && (recipient.local, LocalUser(cfg, sender.domain)) in targets
  }

  lemma DomainCandidate(cfg: Config, t: Store.Tables, name: string, domain: string)
    requires BlocksOk(cfg, t) && '@' !in domain && domain != ""
    ensures (name, domain) in t.blocks <==>
              (name, BareDomain(cfg, domain)) in TargetsOf(cfg, t.blocks)
              || ('.' !in domain && (name, LocalUser(cfg, domain)) in TargetsOf(cfg, t.blocks))
  {
    assert Stored(BareDomain(cfg, domain)) == domain == Stored(LocalUser(cfg, domain));
    assert (name, domain) in t.blocks ==>
      ParseBlockTarget(domain, cfg.domain).Ok? && Stored(ParseBlockTarget(domain, cfg.domain).address) == domain;
    hide ParseBlockTarget, Stored, BareDomain, LocalUser, TargetsOf, BlocksOk;
    if (name, domain) in t.blocks {
      BareTarget(cfg, domain);
      RowOfTarget(cfg, t, name, ParseBlockTarget(domain, cfg.domain).address);
    } else {
      if (name, BareDomain(cfg, domain)) in TargetsOf(cfg, t.blocks) {
        TargetRow(cfg, t, name, BareDomain(cfg, domain));
      }
      if (name, LocalUser(cfg, domain)) in TargetsOf(cfg, t.blocks) {
        TargetRow(cfg, t, name, LocalUser(cfg, domain));
      }
    }
  }

  /** What a target without "@" is, by its dots. */
  lemma BareTarget(cfg: Config, text: string)
    requires ParseBlockTarget(text, cfg.domain).Ok? && '@' !in text
    requires Stored(ParseBlockTarget(text, cfg.domain).address) == text
    ensures ParseBlockTarget(text, cfg.domain).address
         == if '.' in text then BareDomain(cfg, text) else LocalUser(cfg, text)
  {
    hide ValidUsername, ValidDomain;
  }

  /** Every target of a table is canonical and has its row. */
  lemma TargetRow(cfg: Config, t: Store.Tables, name: string, a: Address)
    requires BlocksOk(cfg, t) && (name, a) in TargetsOf(cfg, t.blocks)
    ensures Canonical(a, cfg.domain) && (name, Stored(a)) in t.blocks && ParseBlockTarget(Stored(a), cfg.domain) == Ok(a)
    ensures a.local == "" ==> '@' !in a.domain
    ensures a.local != "" ==> '@' !in a.local
  {
    var k :| k in t.blocks && ParseBlockTarget(k.1, cfg.domain).Ok? && ParsedRow(cfg, k) == (name, a);
    ParsedIsCanonical(k.1, cfg.domain);
    ReparseCanonical(a, cfg.domain);
    if a.local == "" {
      DomainChars(a.domain);
    } else {
      ValidUsernameChars(a.local);
    }
  }

  lemma RefusedByTable(cfg: Config, t: Store.Tables, recipient: Address, sender: Address)
    requires BlocksOk(cfg, t) && Canonical(recipient, cfg.domain) && Canonical(sender, cfg.domain)
    requires ValidDomain(Lower(cfg.domain)) && recipient.own && recipient.local != "" && sender.local != ""
    ensures BlockedBy(t, recipient, sender)
       <==> ShouldRefuse(cfg, TargetsOf(cfg, t.blocks), recipient, sender)
            || Mistaken(cfg, TargetsOf(cfg, t.blocks), recipient, sender)
  {
    ReparseCanonical(sender, cfg.domain);
    SenderDomain(cfg, sender);
    assert Stored(recipient) == recipient.local;
    hide ParseBlockTarget, Canonical, ValidDomain, Stored, TargetsOf, BareDomain, LocalUser, BlocksOk, Lower;
    RowOfTarget(cfg, t, recipient.local, sender);
    DomainCandidate(cfg, t, recipient.local, sender.domain);
    var candidates := [Stored(sender), sender.domain];
    assert candidates[0] in candidates && candidates[1] in candidates;
  }

  lemma SenderDomain(cfg: Config, sender: Address)
    requires Canonical(sender, cfg.domain) && ValidDomain(Lower(cfg.domain)) && sender.local != ""
    ensures '@' !in sender.domain && sender.domain != ""
  {
    hide ValidDomain, ValidUsername;
    DomainChars(sender.domain);
  }

  /** A mail between parsed addresses is refused as blocked exactly when it
      should be, or when the dotless domain of its sender is taken for a user. */
  lemma RefusedExact(env: Env, cfg: Config, run: Run, recipient: Address, sender: Address)
    requires Canonical(recipient, cfg.domain) && Canonical(sender, cfg.domain)
    requires ValidDomain(Lower(cfg.domain)) && recipient.own && recipient.local != "" && sender.local != ""
    ensures var targets := TargetsAfter(env, cfg, run);
            BlockedBy(After(env, cfg, run).tables, recipient, sender)
            <==> ShouldRefuse(cfg, targets, recipient, sender) || Mistaken(cfg, targets, recipient, sender)
  {
    RunRefines(env, cfg, run);
    RunKeeps(env, cfg, run);
    RefusedByTable(cfg, After(env, cfg, run).tables, recipient, sender);
    hide After, TargetsAfter, TargetsOf, ShouldRefuse, Mistaken, BlockedBy, BlocksOk;
  }

  /** So the list is exact for every sender whose domain holds a dot. */
  lemma RefusedForDotted(env: Env, cfg: Config, run: Run, recipient: Address, sender: Address)
    requires Canonical(recipient, cfg.domain) && Canonical(sender, cfg.domain)
    requires ValidDomain(Lower(cfg.domain)) && recipient.own && recipient.local != "" && sender.local != ""
    requires '.' in sender.domain
    ensures BlockedBy(After(env, cfg, run).tables, recipient, sender)
       <==> ShouldRefuse(cfg, TargetsAfter(env, cfg, run), recipient, sender)
  {
    RefusedExact(env, cfg, run, recipient, sender);
  }

  /** The exception is real, in an instance in order: bobby, who has an account, blocks
      his neighbour alice, and a mail from mallory on the instance called "alice" is
      refused. */
  lemma DotlessDomainMistaken(env: Env)
    ensures var cfg := Config("b.example", true, true, []);
            var t := LoneTables("bobby", "alice");
            var recipient, sender := LocalUser(cfg, "bobby"), Address("mallory", "alice", false);
            && Inv(env, cfg, FRESH.(tables := t))
            && ParseAddress("mallory@alice", cfg.domain) == Ok(sender)
            && BlockedBy(t, recipient, sender)
            && !ShouldRefuse(cfg, TargetsOf(cfg, t.blocks), recipient, sender)
  {
    var cfg := Config("b.example", true, true, []);
    DotlessParses();
    NeighbourParses();
    BobbyIsGood();
    assert "alice" != "mallory" by { assert |"alice"| == 5 && |"mallory"| == 7; }
    LoneBlock(cfg, "bobby", "alice", Address("mallory", "alice", false));
    LoneIsInOrder(env, cfg, "bobby", "alice");
    hide ParseAddress, BlockedBy, ShouldRefuse, TargetsOf, Lower, Inv, LoneTables;
  }

  lemma BobbyIsGood()
    ensures ValidUsername("bobby")
  {
    assert IsLetter("bobby"[0]);
  }

  /** One account, and one target it blocks. */
  function LoneTables(name: string, blocked: string): Store.Tables {
    Store.Tables(map[name := Store.User("k", "s", 0)], map[], map[(name, blocked) := 0])
  }

  lemma LoneIsInOrder(env: Env, cfg: Config, name: string, blocked: string)
    requires ParseBlockTarget(blocked, cfg.domain) == Ok(LocalUser(cfg, blocked)) && blocked != "" && ValidUsername(name)
    ensures Inv(env, cfg, FRESH.(tables := LoneTables(name, blocked)))
  {
    hide ParseBlockTarget, ValidUsername, Lower;
    assert "k" != "" && "s" != "";
  }

  /** One blocked neighbour, and a sender on a domain that bears his name. */
  lemma LoneBlock(cfg: Config, name: string, blocked: string, sender: Address)
    requires ParseBlockTarget(blocked, cfg.domain) == Ok(LocalUser(cfg, blocked)) && blocked != "" && name != ""
    requires sender.domain == blocked && sender.local != blocked && sender.local != ""
    ensures var t := LoneTables(name, blocked);
            && BlockedBy(t, LocalUser(cfg, name), sender)
            && !ShouldRefuse(cfg, TargetsOf(cfg, t.blocks), LocalUser(cfg, name), sender)
  {
    var blocks: Store.Blocks := map[(name, blocked) := 0];
    assert ParsedRow(cfg, (name, blocked)) == (name, LocalUser(cfg, blocked));
    hide ParseBlockTarget, Lower;
    assert TargetsOf(cfg, blocks) == {(name, LocalUser(cfg, blocked))};
    assert [Stored(sender), sender.domain][1] == blocked;
  }

  lemma NeighbourParses()
    ensures ParseBlockTarget("alice", "b.example") == Ok(Address("alice", Lower("b.example"), true))
  {
    assert IsLetter("alice"[0]);
    assert ValidUsername("alice");
    hide ValidUsername, Lower;
  }

  lemma DotlessParses()
    ensures ParseAddress("mallory@alice", "b.example") == Ok(Address("mallory", "alice", false))
  {
    assert "mallory@alice" == "mallory" + ['@'] + "alice";
    assert IsLetter("mallory"[0]);
    assert ValidUsername("mallory");
    hide ValidUsername, ValidDomain, ParseAddress;
    DotlessDomain();
    RemoteParses("mallory", "alice", "b.example");
  }

  lemma RemoteParses(name: string, domain: string, instanceDomain: string)
    requires ValidUsername(name) && ValidDomain(domain) && Lower(domain) == domain && |domain| != |instanceDomain|
    ensures ParseAddress(name + ['@'] + domain, instanceDomain) == Ok(Address(name, domain, false))
  {
    ValidUsernameChars(name);
    CutOf(name, '@', domain);
    assert |Lower(instanceDomain)| == |instanceDomain|;
    hide Cut, ValidUsername, ValidDomain, Lower;
  }

  lemma DotlessDomain()
    ensures Lower("alice") == "alice" && ValidDomain("alice")
  {
    assert Lower("alice") == "alice";
    assert ValidLabel("alice");
    SplitNone("alice", '.');
    hide ValidLabel, Split, Lower;
    assert ':' !in "alice";
  }

  /** The refusal a client sees, for a submission that passed the other checks. */
  lemma SendRefusal(env: Env, cfg: Config, s: Instance, m: Submission, remote: Remote, now: nat, ids: seq<string>)
    requires var form := CheckForm(env, cfg, m, now);
             && form.GoodForm? && form.recipient.own
             && CheckKeys(env, cfg, s.tables.users, s.cache, form.sender, form.recipient, form.fields,
                          m.signature, remote, now).1.Signer?
    ensures var form := CheckForm(env, cfg, m, now);
            Send(env, cfg, s, m, remote, now, ids).1 == Fail(403, "Recipient has blocked this sender")
            <==> BlockedBy(s.tables, form.recipient, form.sender)
  {
    hide CheckForm, CheckKeys, BlockedBy, StoredId, TtlSet.AddTo, Store.InsertFrom, MailRow;
    assert "Invalid Proof of Work"[0] != "Recipient has blocked this sender"[0];
  }
}
