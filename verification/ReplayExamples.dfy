/**
 Two runs that show the limits of replay protection: one signed request accepted
 twice in the last second of its window, and one accepted twice at once in two
 spellings. The environment is made up, but a proper one: its verifier reads
 signatures through `decodeB64`, no signature binds two messages, and digests have
 64 digits.
 */
module ReplayExamples {
  import opened Text
  import opened Handlers
  import opened Invariants
  import opened SignedRequests
  import opened Respelling
  import Addresses
  import Blocklist
  import Effects
  import KeyCache
  import Lifecycle
  import Pow
  import PowRuns
  import Replay
  import ReplayRuns
  import SetRuns
  import Signed
  import Store
  import TtlSet

  /******* The environment *******/

  /** A text's signature, under any key: its characters in two halves, none of which
      `decodeB64` drops or replaces. */
  function Sealed(text: string): string {
    seq(|text|, i requires 0 <= i < |text| => (256 + text[i] as int % 4096) as char)
    + seq(|text|, i requires 0 <= i < |text| => (256 + text[i] as int / 4096) as char)
  }

  lemma SealedOnce(m: string, n: string)
    requires Sealed(m) == Sealed(n)
    ensures m == n
  {
    assert |Sealed(m)| == 2 * |m| && |Sealed(n)| == 2 * |n|;
    forall i | 0 <= i < |m| ensures m[i] == n[i] {
      assert Sealed(m)[i] == Sealed(n)[i] && Sealed(m)[|m| + i] == Sealed(n)[|m| + i];
    }
  }

  lemma HighChar(c: char)
    requires c >= 256 as char
    ensures !Blank(c) && Standard(c) == c
  {
  }

  lemma {:induction false} MappedSame(s: string)
    requires forall i :: 0 <= i < |s| ==> s[i] >= 256 as char
    ensures Mapped(s) == s
  {
    hide Blank, Standard;
    if s != "" {
      HighChar(s[0]);
      MappedSame(s[1..]);
      assert s == [s[0]] + s[1..];
    }
  }

  lemma SealedReads(text: string)
    requires text != ""
    ensures Decoded64(Sealed(text)) == Sealed(text)
    ensures Opens(Sealed(text), 256 + text[0] as int % 4096)
  {
    MappedSame(Sealed(text));
  }

  /** 64 digits from the first character of a text and from its length. */
  function Digest(s: string): string {
    [Pow.HexDigit(if s == "" then 0 else s[0] as int % 16), Pow.HexDigit(|s| % 16)] + seq(62, _ => '0')
  }

  function ZeroHash(): Pow.Hash { seq(Pow.HASH_SIZE, _ => 0) }

  function Demo(): Env {
    Env((k, msg, sig) => Decoded64(sig) == Sealed(msg), k => true, k => Some(seq(KEM_PUBKEY_SIZE, _ => 'k')),
        s => Digest(s), Pow.Env(t => ZeroHash(), d => Some(0)))
  }

  lemma DemoIsProper()
    ensures Binding(Demo()) && HexDigests(Demo()) && Lenient(Demo())
  {
    var env := Demo();
    forall k, k', msg, msg', sig | Verifies(env, k, msg, sig) && Verifies(env, k', msg', sig) ensures msg == msg' {
      SealedOnce(msg, msg');
    }
    forall x ensures Signed.HexDigest(env.sha256(x)) {
      DigestIsHex(x);
    }
  }

  lemma DigestIsHex(s: string)
    ensures Signed.HexDigest(Digest(s))
  {
  }

  predicate Opens(s: string, c: nat) { s != "" && s[0] as int == c }

  lemma DigestsDiffer(s: string, t: string, c: nat, d: nat)
    requires Opens(s, c) && Opens(t, d) && (c % 16 != d % 16 || |s| % 16 != |t| % 16)
    ensures Digest(s) != Digest(t)
  {
    assert Digest(s)[0] == Pow.HexDigit(c % 16) && Digest(t)[0] == Pow.HexDigit(d % 16);
    assert Digest(s)[1] == Pow.HexDigit(|s| % 16) && Digest(t)[1] == Pow.HexDigit(|t| % 16);
  }

  /******* Tokens *******/

  const CFG := Config("b.example", true, true, [])
  const BODY := "b"
  const ALICE := "alice"
  const NOBODY := Remote((a: Addresses.Address, fresh_: bool) => KeyCache.Unreachable, None, None)

  /** Tokens of different lengths, as many as digests tell apart. */
  function Token(n: nat): string { Pow.FullToken(20, "260101", ALICE, Rand(n), 0) }

  function Rand(n: nat): string { seq(n, _ => 'a') }

  lemma TokenStarts(n: nat)
    ensures Opens(Token(n), 49) && |Token(n)| == 21 + n
  {
    assert Itoa(20) == "20" && Pow.Hex(0) == "0";
    hide Pow.TokenText, Opens, Itoa, Pow.Hex;
    TokenOpens("20", "260101", ALICE, "", Rand(n), "0");
    Pow.TokenLength("20", "260101", ALICE, "", Rand(n), "0");
  }

  lemma TokenOpens(bits: string, date: string, resource: string, ext: string, rand: string, counter: string)
    ensures Opens(Pow.TokenText(bits, date, resource, ext, rand, counter), 49)
  {
  }

  lemma TokenPays(n: nat, now: nat)
    requires now < 86_400_000_000_000 && n < 16
    ensures PowOk(Demo(), Token(n), ALICE, now)
  {
    TokenStarts(n);
    ZeroIsSmall();
    assert Today(now) == 0;
    hide Pow.FullToken, Pow.VerifyPoW, Pow.Small, Opens;
    Pow.MintedVerifies(Demo().pow, 20, "260101", 0, ALICE, Rand(n), 0, 0);
  }

  lemma TokenIsPaid(n: nat, now: nat)
    requires now < 86_400_000_000_000 && n < 16
    ensures Effects.PaidFor(Demo(), Token(n), ALICE, now)
  {
    hide Demo, Token, PowOk, Effects.PaidFor;
    TokenPays(n, now);
    Effects.PaidForExact(Demo(), Token(n), ALICE, now);
  }

  lemma ZeroIsSmall()
    ensures Pow.Small(ZeroHash(), 20)
  {
    Pow.SmallByBytes(ZeroHash(), 2, 4);
    assert Pow.Pow2(4) > 0;
  }

  lemma TokensDiffer(m: nat, n: nat)
    requires m < n < 16
    ensures Digest(Token(m)) != Digest(Token(n))
  {
    TokenStarts(m);
    TokenStarts(n);
    hide Token, Digest;
    DigestsDiffer(Token(m), Token(n), 49, 49);
  }

  /******* Requests *******/

  /** One request of Alice's: to block, or to list what she blocks. */
  datatype Move = Move(block: bool, at: nat, signature: string, now: nat)

  function MoveText(block: bool, at: nat): string {
    if block then Signed.HeaderBodyMessage("POST", "/api/block", ALICE, Itoa(at), Digest(BODY))
    else Signed.HeaderMessage("GET", "/api/block", ALICE, Itoa(at))
  }

  /** Signed by her, and in time. */
  predicate GoodMove(m: Move) {
    && Decoded64(m.signature) == Sealed(MoveText(m.block, m.at)) && m.signature != ""
    && 0 < m.now < 86_400_000_000_000 && -300 <= m.now / 1_000_000_000 - m.at <= 300 && m.at < 1_000_000
  }

  function Heading(m: Move, n: nat): Header { Header(ALICE, Itoa(m.at), m.signature, Token(n)) }

  function Asked(m: Move, n: nat): Request {
    if m.block then BlockTarget(Heading(m, n), BODY, Some(ALICE)) else ListBlocks(Heading(m, n))
  }

  function EventOf(m: Move, n: nat): Event { Event(Asked(m, n), m.now, NOBODY, []) }

  lemma AskedInTime(at: nat, now: nat)
    requires -300 <= now / 1_000_000_000 - at <= 300 && at < 1_000_000
    ensures Effects.InTime(Itoa(at), now) && Itoa(at) != ""
  {
    ParseIntItoa(at);
    assert |Digits(at)| >= 1;
    hide Digits, ParseInt;
  }

  lemma MoveIsSigned(users: Store.Users, m: Move, n: nat)
    requires GoodMove(m) && n < 16 && ALICE in users && users[ALICE].sig != ""
    ensures var rt := RouteOf(Asked(m, n));
            Effects.SignedBy(Demo(), users, rt.method_, rt.path, Heading(m, n), rt.body, m.now)
  {
    var rt := RouteOf(Asked(m, n));
    MoveVerifies(users[ALICE].sig, m, n);
    hide Effects.InTime, Effects.PaidFor, Token, Itoa, Decoded64, Sealed, Digest, Verifies, HeaderText, Demo, MoveText,
      Effects.Signs, Effects.Covered, RouteOf, Asked;
    TokenIsPaid(n, m.now);
    TokenStarts(n);
    AskedInTime(m.at, m.now);
    Effects.CoveredExact(Demo(), rt.method_, rt.path, Heading(m, n), rt.body);
    Effects.KeysAndSignatures(Demo(), users[ALICE].sig, Effects.Covered(Demo(), rt.method_, rt.path, Heading(m, n), rt.body),
                              m.signature);
  }

  lemma MoveVerifies(key: string, m: Move, n: nat)
    requires GoodMove(m)
    ensures var rt := RouteOf(Asked(m, n));
            Verifies(Demo(), key, HeaderText(Demo(), rt.method_, rt.path, Heading(m, n), rt.body), m.signature)
  {
    hide Token, Itoa, Decoded64, Sealed, Digest, Signed.HeaderBodyMessage, Signed.HeaderMessage;
  }

  /** Alice has an account, and tokens from `n` on were never used. */
  ghost predicate Stands(s: Instance, n: nat) {
    && ALICE in s.tables.users && s.tables.users[ALICE].sig != ""
    && forall m: nat | n <= m < 16 :: Unknown(s.spent, Digest(Token(m)))
  }

  lemma TokensLeft(env: Env, spent: TtlSet.State, paid: Option<string>, n: nat, now: nat)
    requires env.sha256(Token(n)) == Digest(Token(n)) && n < 16 && (paid == None || paid == Some(Token(n)))
    requires forall m: nat | n <= m < 16 :: Unknown(spent, Digest(Token(m)))
    ensures forall m: nat | n < m < 16 :: Unknown(PowRuns.SpentAfter(env, spent, paid, now), Digest(Token(m)))
  {
    forall m: nat | n < m < 16 ensures Unknown(PowRuns.SpentAfter(env, spent, paid, now), Digest(Token(m))) {
      TokensDiffer(n, m);
      UnknownIsNew(SPENT, spent, Digest(Token(m)), Digest(Token(n)), now);
      hide Token, Digest, TtlSet.AddTo, Unknown;
    }
  }

  lemma SignedShows(users: Store.Users, e: Event)
    requires HasHeader(e.request)
    requires var rt := RouteOf(e.request);
             Effects.SignedBy(Demo(), users, rt.method_, rt.path, e.request.header, rt.body, e.now)
    ensures ReplayRuns.Presented(Demo(), CFG, users, e) == Some((e.request.header.signature, e.request.header.timestamp))
  {
    var rt := RouteOf(e.request);
    hide Demo, CFG, RouteOf, AuthChecks, Effects.SignedBy;
    Effects.ChecksExact(Demo(), users, rt.method_, rt.path, e.request.header, rt.body, e.now);
  }

  /** A move shows its signature. */
  lemma MoveShows(users: Store.Users, m: Move, n: nat)
    requires GoodMove(m) && n < 16 && ALICE in users && users[ALICE].sig != ""
    ensures ReplayRuns.Presented(Demo(), CFG, users, EventOf(m, n)) == Some((m.signature, Itoa(m.at)))
  {
    hide Demo, CFG, Token, Itoa, GoodMove, RouteOf, Effects.SignedBy, ReplayRuns.Presented;
    MoveIsSigned(users, m, n);
    SignedShows(users, EventOf(m, n));
  }

  lemma MovePays(s: Instance, m: Move, n: nat)
    ensures var paid := PowRuns.Paid(Demo(), CFG, s, EventOf(m, n)); paid == None || paid == Some(Token(n))
  {
    hide Demo, Token, Itoa, AuthChecks, PowRuns.NewSignature;
  }

  lemma MoveKeepsUsers(s: Instance, m: Move, n: nat)
    ensures Step(Demo(), CFG, s, EventOf(m, n)).0.tables.users == s.tables.users
  {
    hide Demo, Heading, Step;
    Lifecycle.OtherUsers(Demo(), CFG, s, EventOf(m, n));
  }

  lemma DemoDigests(x: string)
    ensures Demo().sha256(x) == Digest(x)
  {
  }

  /** A move enters its signature, and leaves the accounts and the later tokens. */
  lemma MoveStep(s: Instance, m: Move, n: nat)
    requires GoodMove(m) && n < 16 && Stands(s, n)
    ensures var s' := Step(Demo(), CFG, s, EventOf(m, n)).0;
            Stands(s', n + 1) && s'.seen == TtlSet.AddTo(SEEN, s.seen, Digest(m.signature), m.now).0
  {
    var e := EventOf(m, n);
    DemoDigests(m.signature);
    DemoDigests(Token(n));
    hide Demo, Step, GoodMove, TtlSet.AddTo, Token, Digest, Itoa, PowRuns.Paid, PowRuns.SpentAfter, ReplayRuns.Presented, Asked;
    MoveShows(s.tables.users, m, n);
    MovePays(s, m, n);
    MoveKeepsUsers(s, m, n);
    ReplayRuns.StepSeen(Demo(), CFG, s, e);
    PowRuns.StepSpent(Demo(), CFG, s, e);
    TokensLeft(Demo(), s.spent, PowRuns.Paid(Demo(), CFG, s, e), n, m.now);
  }

  lemma NewTokenIsNew(env: Env, s: Instance, signature: string, token: string, now: nat)
    requires TtlSet.AddTo(SEEN, s.seen, env.sha256(signature), now).1 && Unknown(s.spent, env.sha256(token))
    ensures Effects.FirstUse(env, s, signature, token, now)
  {
  }

  lemma BlockStep(s: Instance, m: Move, n: nat)
    requires m.block
    ensures Step(Demo(), CFG, s, EventOf(m, n)) == Block(Demo(), CFG, s, Heading(m, n), BODY, Some(ALICE), m.now)
  {
    hide Demo, CFG, Heading, Block;
  }

  /** A request to block whose signature is new gets done. */
  lemma MoveIsDone(s: Instance, m: Move, n: nat)
    requires GoodMove(m) && n < 16 && Stands(s, n) && m.block
    requires TtlSet.AddTo(SEEN, s.seen, Digest(m.signature), m.now).1
    ensures Step(Demo(), CFG, s, EventOf(m, n)).1.Done?
  {
    MoveIsSigned(s.tables.users, m, n);
    AliceIsGood();
    DemoDigests(m.signature);
    DemoDigests(Token(n));
    BlockStep(s, m, n);
    hide Demo, GoodMove, Effects.SignedBy, Effects.FirstUse, Effects.GoodTarget, Block, Step, EventOf, Token, Digest, Itoa,
      TtlSet.AddTo, Unknown, CFG, SEEN, SPENT;
    NewTokenIsNew(Demo(), s, m.signature, Token(n), m.now);
    Effects.BlockedExactly(Demo(), CFG, s, Heading(m, n), BODY, Some(ALICE), m.now);
  }

  lemma AliceIsGood()
    ensures Addresses.ValidUsername(ALICE) && Effects.GoodTarget(CFG, Some(ALICE))
  {
    assert IsLetter(ALICE[0]);
    assert Addresses.ValidUsername(ALICE);
    Blocklist.NeighbourParses();
    hide Addresses.ValidUsername, Addresses.ParseBlockTarget;
  }

  /******* The first request: Alice registers *******/

  function Form(): Registration {
    Registration(ALICE, "k", "v", Itoa(0), Sealed(Signed.RegisterMessage(ALICE, "k", "v", Itoa(0))), Token(0))
  }

  function First(): Event { Event(RegisterUser(Form()), 1, NOBODY, []) }

  lemma OpensWithBrace(u: string, k: string, s: string, t: string)
    ensures Signed.RegisterMessage(u, k, s, t) != "" && Signed.RegisterMessage(u, k, s, t)[0] == '{'
  {
    hide Signed.FieldsText, Signed.RegisterFields;
  }

  lemma FormIsSigned()
    ensures var b := Form();
            && Effects.Signs(Demo(), b.sig, Signed.RegisterMessage(b.username, b.kem, b.sig, b.timestamp), b.signature)
            && Opens(b.signature, 379)
  {
    OpensWithBrace(ALICE, "k", "v", Itoa(0));
    hide Signed.RegisterMessage, Token, Sealed, Decoded64, Itoa, Opens;
    SealedReads(Signed.RegisterMessage(ALICE, "k", "v", Itoa(0)));
  }

  lemma FormIs()
    ensures var b := Form();
            && b.username == ALICE && b.kem == "k" && b.sig == "v" && b.pow == Token(0) && b.timestamp == Itoa(0)
            && b.pow != "" && b.signature != ""
  {
    TokenStarts(0);
    FormIsSigned();
    hide Token, Itoa, Sealed, Signed.RegisterMessage, Effects.Signs;
  }

  lemma AnyKeyIsGood(kem: string)
    ensures Effects.SealingKey(Demo(), kem)
  {
  }

  lemma MayRegisterOn(b: Registration)
    requires b.username == ALICE && b.kem == "k" && b.sig == "v" && b.timestamp != "" && b.signature != "" && b.pow != ""
    requires Effects.SealingKey(Demo(), b.kem) && Effects.InTime(b.timestamp, 1) && Effects.PaidFor(Demo(), b.pow, ALICE, 1)
    requires Effects.Signs(Demo(), b.sig, Signed.RegisterMessage(b.username, b.kem, b.sig, b.timestamp), b.signature)
    ensures Effects.MayRegister(Demo(), CFG, b, 1)
  {
    AliceIsGood();
    hide Demo, Signed.RegisterMessage, Addresses.ValidUsername, Effects.GoodTarget, Effects.InTime, Effects.PaidFor,
      Effects.SealingKey, Effects.Signs;
  }

  lemma AliceMayRegister()
    ensures Effects.MayRegister(Demo(), CFG, Form(), 1)
  {
    hide *;
    TokenIsPaid(0, 1);
    AskedInTime(0, 1);
    AnyKeyIsGood("k");
    FormIsSigned();
    FormIs();
    MayRegisterOn(Form());
  }

  lemma FreshIsFree(b: Registration)
    ensures Unknown(FRESH.seen, Demo().sha256(b.signature)) && Unknown(FRESH.spent, Demo().sha256(b.pow))
    ensures !Store.Taken(FRESH.tables.users, b.username) && Effects.FirstUse(Demo(), FRESH, b.signature, b.pow, 1)
    ensures forall n: nat | n < 16 :: Unknown(FRESH.spent, Digest(Token(n)))
  {
    hide Demo, Token, Digest;
  }

  lemma RegisterShows(b: Registration)
    requires Effects.MayRegister(Demo(), CFG, b, 1) && b.pow == Token(0)
    ensures var e := Event(RegisterUser(b), 1, NOBODY, []);
            && ReplayRuns.Presented(Demo(), CFG, FRESH.tables.users, e) == Some((b.signature, b.timestamp))
            && (PowRuns.Paid(Demo(), CFG, FRESH, e) == None || PowRuns.Paid(Demo(), CFG, FRESH, e) == Some(Token(0)))
  {
    hide Demo, Token, Effects.MayRegister, RegisterChecks, PowRuns.NewSignature, CFG, FRESH;
    Effects.RegistrationExact(Demo(), CFG, b, 1);
  }

  lemma RegisteredAlice(b: Registration)
    requires Effects.MayRegister(Demo(), CFG, b, 1) && b.username == ALICE
    ensures var users := Register(Demo(), CFG, FRESH, b, 1).0.tables.users;
            ALICE in users && users[ALICE].sig == b.sig
  {
    hide Demo, CFG, TtlSet.AddTo, Effects.MayRegister, Effects.FirstUse, Store.Taken, Register;
    FreshIsFree(b);
    Effects.RegisteredExactly(Demo(), CFG, FRESH, b, 1);
  }

  lemma RegisterStep(b: Registration)
    ensures Step(Demo(), CFG, FRESH, Event(RegisterUser(b), 1, NOBODY, [])) == Register(Demo(), CFG, FRESH, b, 1)
  {
    hide Demo, CFG, Register, FRESH;
  }

  lemma RegisteredSets(b: Registration)
    requires Effects.MayRegister(Demo(), CFG, b, 1) && b.pow == Token(0)
    ensures var s := Step(Demo(), CFG, FRESH, Event(RegisterUser(b), 1, NOBODY, [])).0;
            && s.seen == TtlSet.AddTo(SEEN, TtlSet.EMPTY, Digest(b.signature), 1).0
            && forall m: nat | 1 <= m < 16 :: Unknown(s.spent, Digest(Token(m)))
  {
    hide Demo, CFG, Token, Digest, TtlSet.AddTo, Effects.MayRegister, Step, PowRuns.Paid, PowRuns.SpentAfter,
      ReplayRuns.Presented, Unknown, Effects.FirstUse, Store.Taken;
    var e := Event(RegisterUser(b), 1, NOBODY, []);
    DemoDigests(b.signature);
    DemoDigests(Token(0));
    FreshIsFree(b);
    RegisterShows(b);
    ReplayRuns.StepSeen(Demo(), CFG, FRESH, e);
    PowRuns.StepSpent(Demo(), CFG, FRESH, e);
    TokensLeft(Demo(), FRESH.spent, PowRuns.Paid(Demo(), CFG, FRESH, e), 0, 1);
  }

  lemma RegisteredStands(b: Registration)
    requires Effects.MayRegister(Demo(), CFG, b, 1) && b.username == ALICE && b.sig != "" && b.pow == Token(0)
    ensures var s := Step(Demo(), CFG, FRESH, Event(RegisterUser(b), 1, NOBODY, [])).0;
            Stands(s, 1) && s.seen == TtlSet.AddTo(SEEN, TtlSet.EMPTY, Digest(b.signature), 1).0
  {
    hide Demo, CFG, FRESH, Token, Digest, TtlSet.AddTo, Effects.MayRegister, Step, Register, Unknown;
    RegisteredAlice(b);
    RegisterStep(b);
    RegisteredSets(b);
  }

  /** Alice has an account after this first request, which brought `x`. */
  ghost predicate Begins(first: Event, x: string) {
    var s := Step(Demo(), CFG, FRESH, first).0;
    Stands(s, 1) && s.seen == TtlSet.AddTo(SEEN, TtlSet.EMPTY, Digest(x), 1).0
  }

  lemma FirstBegins()
    ensures Begins(First(), Form().signature)
  {
    hide Step, Stands, Form, Digest, Demo, TtlSet.AddTo, CFG, Effects.MayRegister;
    AliceMayRegister();
    FormIs();
    RegisteredStands(Form());
  }

  /******* Runs of moves *******/

  function RunOf(first: Event, moves: seq<Move>): Run {
    [first] + seq(|moves|, i requires 0 <= i < |moves| => EventOf(moves[i], i + 1))
  }

  function CallOf(m: Move): TtlSet.Call { TtlSet.Call(Digest(m.signature), m.now) }

  /** The calls such a run makes to the set of seen signatures, the first with `x`. */
  function CallsOf(x: string, moves: seq<Move>): TtlSet.Run {
    [TtlSet.Call(Digest(x), 1)] + seq(|moves|, i requires 0 <= i < |moves| => CallOf(moves[i]))
  }

  lemma RunAt(first: Event, moves: seq<Move>)
    ensures var run := RunOf(first, moves);
            && |run| == |moves| + 1 && run[0] == first
            && forall i :: 0 < i <= |moves| ==> run[i] == EventOf(moves[i - 1], i) && run[i].now == moves[i - 1].now
  {
    hide Asked;
  }

  lemma CallsAt(x: string, moves: seq<Move>)
    ensures var calls := CallsOf(x, moves);
            && |calls| == |moves| + 1 && calls[0] == TtlSet.Call(Digest(x), 1)
            && forall i :: 0 < i <= |moves| ==> calls[i] == CallOf(moves[i - 1])
  {
    hide CallOf, Digest;
  }

  ghost predicate GoodMoves(moves: seq<Move>) { |moves| < 15 && forall i :: 0 <= i < |moves| ==> GoodMove(moves[i]) }

  lemma FirstStands(first: Event, x: string, moves: seq<Move>)
    requires Begins(first, x)
    ensures var s := After(Demo(), CFG, RunOf(first, moves)[..1]);
            Stands(s, 1) && s.seen == TtlSet.After(SEEN, CallsOf(x, moves)[..1])
  {
    var run, calls := RunOf(first, moves), CallsOf(x, moves);
    RunAt(first, moves);
    CallsAt(x, moves);
    hide Demo, CFG, EventOf, RunOf, CallsOf, CallOf, Step, Stands, Digest, TtlSet.AddTo;
    assert run[..1] == [first] && calls[..1] == [calls[0]];
    assert run[..1][..0] == [] && calls[..1][..0] == [];
  }

  lemma {:induction false} MovesStand(first: Event, x: string, moves: seq<Move>, n: nat)
    requires Begins(first, x) && GoodMoves(moves) && 0 < n <= |moves| + 1
    ensures var s := After(Demo(), CFG, RunOf(first, moves)[..n]);
            Stands(s, n) && s.seen == TtlSet.After(SEEN, CallsOf(x, moves)[..n])
  {
    hide Demo, CFG, Begins, RunOf, CallsOf, Step, Stands, Digest, TtlSet.AddTo, EventOf, GoodMove, After, TtlSet.After;
    RunAt(first, moves);
    CallsAt(x, moves);
    if n == 1 {
      FirstStands(first, x, moves);
    } else {
      MovesStand(first, x, moves, n - 1);
      TtlSet.AfterStep(SEEN, CallsOf(x, moves), n - 1);
      AfterNext(Demo(), CFG, RunOf(first, moves), n - 1);
      assert GoodMove(moves[n - 2]);
      MoveStep(After(Demo(), CFG, RunOf(first, moves)[..n - 1]), moves[n - 2], n - 1);
    }
  }

  /** Request `n` of a run is not refused, and passes with this signature and this claim. */
  ghost predicate Gets(run: Run, n: nat, signature: string, c: Claim)
    requires n < |run|
  {
    && !Step(Demo(), CFG, After(Demo(), CFG, run[..n]), run[n]).1.Fail?
    && Passes(Demo(), CFG, run, n, c) && ReplayRuns.Uses(Demo(), CFG, run, n, signature)
  }

  function BlockClaim(at: nat): Claim { Asks("POST", "/api/block", ALICE, Itoa(at), Some(Digest(BODY))) }

  /** A request to block whose signature the set takes gets through. */
  lemma MoveGets(first: Event, x: string, moves: seq<Move>, i: nat)
    requires Begins(first, x) && GoodMoves(moves) && i < |moves| && moves[i].block
    requires i + 1 < |RunOf(first, moves)| && i + 1 < |CallsOf(x, moves)| && TtlSet.Accepts(SEEN, CallsOf(x, moves), i + 1)
    ensures Gets(RunOf(first, moves), i + 1, moves[i].signature, BlockClaim(moves[i].at))
  {
    hide Demo, CFG, Begins, RunOf, CallsOf, Step, Stands, Digest, TtlSet.AddTo, EventOf, GoodMove, After, TtlSet.After,
      ClaimOf, BlockClaim, ReplayRuns.Presented, Itoa;
    var m, s := moves[i], After(Demo(), CFG, RunOf(first, moves)[..i + 1]);
    RunAt(first, moves);
    CallsAt(x, moves);
    MovesStand(first, x, moves, i + 1);
    ClaimIsBlock(m, i + 1);
    assert GoodMove(m);
    MoveIsDone(s, m, i + 1);
    AliceIn(s, i + 1);
    MoveShows(s.tables.users, m, i + 1);
    ReplayRuns.ServedUses(Demo(), CFG, RunOf(first, moves), i + 1);
  }

  lemma AliceIn(s: Instance, n: nat)
    requires Stands(s, n)
    ensures ALICE in s.tables.users && s.tables.users[ALICE].sig != ""
  {
  }

  lemma ClaimIsBlock(m: Move, n: nat)
    requires m.block
    ensures ClaimOf(Demo(), EventOf(m, n).request) == Some(BlockClaim(m.at)) && HasHeader(EventOf(m, n).request)
  {
    hide Itoa, Token, Digest;
  }

  /******* What the runs show *******/

  const LATER: nat := 600 * SECOND

  /** A signature of the request to block, and of the request for the list. */
  predicate SignsBlock(k: string) { Opens(k, 336) && Decoded64(k) == Sealed(MoveText(true, 900)) }

  predicate SignsList(y: string) { Opens(y, 327) && Decoded64(y) == Sealed(MoveText(false, 600)) }

  lemma SignaturesExist()
    ensures SignsBlock(Sealed(MoveText(true, 900))) && SignsList(Sealed(MoveText(false, 600)))
  {
    hide *;
    TextsOpen();
    SealedSigns(MoveText(true, 900), MoveText(false, 600));
  }

  lemma SealedSigns(t: string, u: string)
    requires t == MoveText(true, 900) && u == MoveText(false, 600)
    requires t != "" && t[0] == 'P' && u != "" && u[0] == 'G'
    ensures SignsBlock(Sealed(t)) && SignsList(Sealed(u))
  {
    hide MoveText, Sealed, Decoded64, Opens;
    SealedReads(t);
    SealedReads(u);
  }

  lemma TextsOpen()
    ensures MoveText(true, 900) != "" && MoveText(true, 900)[0] == 'P'
    ensures MoveText(false, 600) != "" && MoveText(false, 600)[0] == 'G'
  {
    hide Itoa, Digest;
  }

  /** The keys of the signatures are all different. */
  lemma KeysDiffer(x: string, k: string)
    requires Opens(x, 379) && Opens(k, 336)
    ensures Digest(x) != Digest(k) && Digest(k + "=") != Digest(k) && Digest(k + "=") != Digest(x)
  {
    hide Digest;
    assert (k + "=")[0] == k[0] && |k + "="| == |k| + 1;
    DigestsDiffer(x, k, 379, 336);
    DigestsDiffer(k + "=", k, 336, 336);
    DigestsDiffer(k + "=", x, 336, 379);
  }

  function Respelled(k: string): seq<Move> { [Move(true, 900, k, LATER), Move(true, 900, k + "=", LATER)] }

  function Late(k: string, y: string): seq<Move> {
    [Move(true, 900, k, LATER), Move(false, 600, y, LATER + 1), Move(true, 900, k, 2 * LATER + 1)]
  }

  lemma RespelledIsGood(k: string)
    requires SignsBlock(k)
    ensures GoodMoves(Respelled(k))
  {
    PaddedIsSame(k);
    hide MoveText, Decoded64, Sealed;
  }

  lemma LateIsGood(k: string, y: string)
    requires SignsBlock(k) && SignsList(y)
    ensures GoodMoves(Late(k, y))
  {
    hide MoveText, Decoded64, Sealed;
  }

  lemma RespelledAccepts(x: string, k: string)
    requires Opens(x, 379) && Opens(k, 336)
    ensures |CallsOf(x, Respelled(k))| == 3
    ensures TtlSet.Accepts(SEEN, CallsOf(x, Respelled(k)), 1) && TtlSet.Accepts(SEEN, CallsOf(x, Respelled(k)), 2)
  {
    CallsAt(x, Respelled(k));
    KeysDiffer(x, k);
    hide Digest, TtlSet.Accepts, CallsOf, Opens, SEEN, LATER;
    TtlSet.NeverBroughtIsNew(SEEN, CallsOf(x, Respelled(k)), 1);
    TtlSet.NeverBroughtIsNew(SEEN, CallsOf(x, Respelled(k)), 2);
  }

  lemma LateAccepts(x: string, k: string, y: string)
    requires Opens(x, 379) && Opens(k, 336) && Opens(y, 327)
    ensures |CallsOf(x, Late(k, y))| == 4
    ensures TtlSet.Accepts(SEEN, CallsOf(x, Late(k, y)), 1) && TtlSet.Accepts(SEEN, CallsOf(x, Late(k, y)), 3)
  {
    LateCalls(x, k, y);
    DigestsDiffer(x, k, 379, 336);
    DigestsDiffer(k, y, 336, 327);
    DigestsDiffer(x, y, 379, 327);
    hide Digest, TtlSet.Accepts, CallsOf, Late, Opens, TtlSet.NoFill;
    Replay.LateRunAccepts(SEEN, Digest(k), Digest(x), Digest(y));
  }

  lemma LateCalls(x: string, k: string, y: string)
    ensures CallsOf(x, Late(k, y)) == Replay.LateRun(Digest(k), Digest(x), Digest(y), SEEN.ttl)
  {
    CallsAt(x, Late(k, y));
    hide Digest, CallsOf;
  }

  lemma RespelledGets(first: Event, x: string, k: string)
    requires Begins(first, x) && Opens(x, 379) && SignsBlock(k)
    ensures var run := RunOf(first, Respelled(k));
            && |run| == 3 && run[1].now == run[2].now && k != k + "="
            && Gets(run, 1, k, BlockClaim(900)) && Gets(run, 2, k + "=", BlockClaim(900))
  {
    hide Begins, EventOf, Digest, RunOf, CallsOf, TtlSet.Accepts, Decoded64, GoodMoves, Gets, BlockClaim, Opens, Sealed;
    RespelledIsGood(k);
    RespelledAccepts(x, k);
    RunAt(first, Respelled(k));
    MoveGets(first, x, Respelled(k), 0);
    MoveGets(first, x, Respelled(k), 1);
    assert |k + "="| > |k|;
  }

  lemma LateGets(first: Event, x: string, k: string, y: string)
    requires Begins(first, x) && Opens(x, 379) && SignsBlock(k) && SignsList(y)
    ensures var run := RunOf(first, Late(k, y));
            && |run| == 4 && run[3].now - run[1].now == 600 * SECOND + 1
            && Gets(run, 1, k, BlockClaim(900)) && Gets(run, 3, k, BlockClaim(900))
  {
    hide Begins, EventOf, Digest, RunOf, CallsOf, TtlSet.Accepts, Decoded64, GoodMoves, Gets, BlockClaim, Opens, Sealed;
    LateIsGood(k, y);
    LateAccepts(x, k, y);
    RunAt(first, Late(k, y));
    MoveGets(first, x, Late(k, y), 0);
    MoveGets(first, x, Late(k, y), 2);
  }

  /** One claim passes twice at the same time, in two spellings, although the verifier
      is a proper one. */
  lemma RespelledTwice()
    ensures Lenient(Demo()) && Binding(Demo()) && HexDigests(Demo())
    ensures exists run: Run, sig: string, sig': string, c: Claim ::
              |run| == 3 && run[1].now == run[2].now && sig != sig' && Gets(run, 1, sig, c) && Gets(run, 2, sig', c)
  {
    hide *;
    DemoIsProper();
    SignaturesExist();
    FormIsSigned();
    FirstBegins();
    RespelledGets(First(), Form().signature, Sealed(MoveText(true, 900)));
  }

  /** One signature string passes twice, ten minutes and a tick apart: Alice registers,
      blocks ten minutes later and asks for her list one tick after; ten minutes later
      the very request to block comes in again. */
  lemma SameStringTwice()
    ensures Lenient(Demo()) && Binding(Demo()) && HexDigests(Demo())
    ensures exists run: Run, sig: string, c: Claim ::
              && |run| == 4 && run[3].now - run[1].now == 600 * SECOND + 1 && Gets(run, 1, sig, c) && Gets(run, 3, sig, c)
              && TtlSet.NoFill(SEEN, ReplayRuns.SeenCalls(Demo(), CFG, run, 4))
  {
    hide *;
    DemoIsProper();
    SignaturesExist();
    FormIsSigned();
    FirstBegins();
    LateGets(First(), Form().signature, Sealed(MoveText(true, 900)), Sealed(MoveText(false, 600)));
    FourDoNotFill(RunOf(First(), Late(Sealed(MoveText(true, 900)), Sealed(MoveText(false, 600)))));
  }

  lemma FourDoNotFill(run: Run)
    requires |run| == 4
    ensures TtlSet.NoFill(SEEN, ReplayRuns.SeenCalls(Demo(), CFG, run, 4))
  {
    SetRuns.FewCalls(ReplayRuns.SeenKeys(Demo(), CFG, run), run, 4);
    hide SetRuns.Calls, TtlSet.NoFill, Demo, ReplayRuns.SeenKeys;
    TtlSet.ShortRunsDoNotFill(SEEN, ReplayRuns.SeenCalls(Demo(), CFG, run, 4));
  }
}
