/**
 The rate limiter (`limiter` in server/go/internal/api/server.go): a token
 bucket per client, and a sweep that forgets buckets unused for ten minutes.
 Times are seconds and tokens are counted over the reals; the bucket itself is
 the one of golang.org/x/time/rate.
 */
module Limiter {

  /** A client address; the second half of an IPv6 address is its host part. */
  datatype Addr = Unknown | V4(bits: nat) | V6(network: nat, host: nat)

  /** IPv6 clients are keyed by their /64. */
  function BucketOf(ip: Addr): Addr {
    if ip.V6? then V6(ip.network, 0) else ip
  }

  /** Two addresses share a bucket exactly when they are the same, or hosts of the
      same IPv6 /64. */
  lemma OneClient(a: Addr, b: Addr)
    ensures BucketOf(a) == BucketOf(b) <==> a == b || (a.V6? && b.V6? && a.network == b.network)
  {
  }

  /** The parameters: tokens per second, and the size of a bucket. */
  datatype Rate = Rate(perSecond: real, burst: nat)

  datatype Tokens = Tokens(tokens: real, last: real)

  function Min(a: real, b: real): real { if a <= b then a else b }

  /** Tokens the rate yields between two times. */
  function Earned(r: Rate, from: real, to: real): real { r.perSecond * (to - from) }

  /** Tokens a bucket holds at `now`, before it spends any. */
  function Available(r: Rate, b: Tokens, now: real): real {
    var earned := if now < b.last then 0.0 else Earned(r, b.last, now);
    Min(b.tokens + earned, r.burst as real)
  }

  /** `AllowN(now, 1)`: a refusal leaves the bucket as it was. */
  function AllowOne(r: Rate, b: Tokens, now: real): (Tokens, bool) {
    var available := Available(r, b, now);
    if available >= 1.0 then (Tokens(available - 1.0, now), true) else (b, false)
  }

  function NewTokens(r: Rate, now: real): Tokens { Tokens(r.burst as real, now) }

  datatype Bucket = Bucket(l: Tokens, used: real)

  type Buckets = map<Addr, Bucket>

  datatype State = State(buckets: Buckets, lastSweep: real)

  /** Buckets a sweep at `now` keeps. */
  function Swept(buckets: Buckets, now: real): Buckets {
    map k | k in buckets && !(now - buckets[k].used > 600.0) :: buckets[k]
  }

  function SweepIfDue(s: State, now: real): State {
    if now - s.lastSweep > 60.0 then State(Swept(s.buckets, now), now) else s
  }

  /** One request against the table, without a sweep. */
  function Ask(r: Rate, buckets: Buckets, key: Addr, now: real): (Buckets, bool) {
    var l := if key in buckets then buckets[key].l else NewTokens(r, now);
    var (l', ok) := AllowOne(r, l, now);
    (buckets[key := Bucket(l', now)], ok)
  }

  function AllowStep(r: Rate, s: State, ip: Addr, now: real): (State, bool) {
    var s := SweepIfDue(s, now);
    var (buckets, ok) := Ask(r, s.buckets, BucketOf(ip), now);
    (s.(buckets := buckets), ok)
  }

  class Limiter {
    const r: Rate
    var buckets: Buckets
    var lastSweep: real

    ghost function Abs(): State
      reads this
    {
      State(buckets, lastSweep)
    }

    constructor (r: Rate)
      ensures this.r == r && Abs() == State(map[], 0.0)
    {
      this.r := r;
      buckets, lastSweep := map[], 0.0;
    }

    method Allow(ip: Addr, now: real) returns (ok: bool)
      modifies this
      ensures (Abs(), ok) == AllowStep(r, old(Abs()), ip, now)
    {
      var key := ip;
      if ip.V6? {
        key := V6(ip.network, 0);
      }
      if now - lastSweep > 60.0 {
        Sweep(now);
        lastSweep := now;
      }
      if key !in buckets {
        buckets := buckets[key := Bucket(NewTokens(r, now), now)];
      }
      var (l, allowed) := AllowOne(r, buckets[key].l, now);
      buckets := buckets[key := Bucket(l, now)];
      assert buckets == Ask(r, SweepIfDue(old(Abs()), now).buckets, key, now).0;
      return allowed;
    }

    /** Deletes while it ranges over the table, as the Go loop does. */
    method Sweep(now: real)
      modifies this`buckets
      ensures buckets == Swept(old(buckets), now)
    {
      ghost var before := buckets;
      var todo := buckets.Keys;
      while todo != {}
        invariant todo <= buckets.Keys <= before.Keys
        invariant forall k :: k in buckets ==> buckets[k] == before[k]
        invariant forall k :: k in before && k !in todo ==>
                    (k in buckets <==> !(now - before[k].used > 600.0))
        invariant forall k :: k in todo ==> k in buckets
      {
        var k :| k in todo;
        if now - buckets[k].used > 600.0 {
          buckets := buckets - {k};
        }
        todo := todo - {k};
      }
      assert buckets == Swept(before, now);
    }
  }

  /******* Runs *******/

  datatype Request = Request(ip: Addr, now: real)

  type Run = seq<Request>

  ghost predicate Clocked(run: Run) {
    forall i, j :: 0 <= i < j < |run| ==> run[i].now <= run[j].now
  }

  /** The limiter's state after a run from state `s`. */
  function After(r: Rate, s: State, run: Run): State {
    if run == [] then s
    else AllowStep(r, After(r, s, run[..|run| - 1]), run[|run| - 1].ip, run[|run| - 1].now).0
  }

  predicate Allowed(r: Rate, s: State, run: Run, i: nat)
    requires i < |run|
  {
    AllowStep(r, After(r, s, run[..i]), run[i].ip, run[i].now).1
  }

  /** The simple table the limiter stands for: it never forgets a client. */
  function PlainAfter(r: Rate, run: Run): Buckets {
    if run == [] then map[]
    else Ask(r, PlainAfter(r, run[..|run| - 1]), BucketOf(run[|run| - 1].ip), run[|run| - 1].now).0
  }

  predicate PlainAllowed(r: Rate, run: Run, i: nat)
    requires i < |run|
  {
    Ask(r, PlainAfter(r, run[..i]), BucketOf(run[i].ip), run[i].now).1
  }

  const START := State(map[], 0.0)

  /******* Sweeping is invisible *******/

  /** The settings `config.Load` accepts. */
  predicate Positive(r: Rate) { r.perSecond > 0.0 && r.burst > 0 }

  /** Ten minutes refill a bucket. */
  predicate RefillsInTime(r: Rate) { r.burst as real <= 600.0 * r.perSecond }

  /** A bucket as a run leaves it: no debt, never over-full, last spent from no
      later than its last use. */
  predicate Sound(r: Rate, b: Bucket) {
    0.0 <= b.l.tokens <= r.burst as real && b.l.last <= b.used
  }

  /** The swept table holds plain buckets; the ones it lacks had ten minutes to
      refill. */
  ghost predicate Matches(r: Rate, swept: Buckets, plain: Buckets, now: real) {
    && (forall k :: k in plain ==> Sound(r, plain[k]) && plain[k].used <= now)
    && (forall k :: k in swept ==> k in plain && swept[k] == plain[k])
    && (forall k :: k in plain && k !in swept ==> now - plain[k].used > 600.0)
  }

  lemma SoundStep(r: Rate, b: Bucket, now: real)
    requires Positive(r) && Sound(r, b) && b.used <= now
    ensures Sound(r, Bucket(AllowOne(r, b.l, now).0, now))
  {
    EarnedAtLeast(r, b.l.last, now, 0.0);
  }

  lemma EarnedAtLeast(r: Rate, from: real, to: real, seconds: real)
    requires Positive(r) && to - from >= seconds
    ensures Earned(r, from, to) >= r.perSecond * seconds
  {
    var extra := to - from - seconds;
    assert r.perSecond * (seconds + extra) == r.perSecond * seconds + r.perSecond * extra;
  }

  /** A client that was idle for ten minutes is answered like a new one. */
  lemma IdleIsNew(r: Rate, b: Bucket, now: real)
    requires Positive(r) && RefillsInTime(r) && Sound(r, b) && now - b.used > 600.0
    ensures AllowOne(r, b.l, now) == AllowOne(r, NewTokens(r, now), now)
  {
    EarnedAtLeast(r, b.l.last, now, 600.0);
    assert Available(r, b.l, now) == r.burst as real;
    assert Available(r, NewTokens(r, now), now) == r.burst as real;
  }

  lemma AskSame(r: Rate, swept: Buckets, plain: Buckets, key: Addr, now: real)
    requires Positive(r) && RefillsInTime(r) && Matches(r, swept, plain, now)
    ensures Ask(r, swept, key, now).1 == Ask(r, plain, key, now).1
    ensures Matches(r, Ask(r, swept, key, now).0, Ask(r, plain, key, now).0, now)
  {
    if key in plain {
      SoundStep(r, plain[key], now);
      if key !in swept {
        IdleIsNew(r, plain[key], now);
      }
    } else {
      SoundStep(r, Bucket(NewTokens(r, now), now), now);
    }
  }

  lemma SweepMatches(r: Rate, s: State, plain: Buckets, before: real, now: real)
    requires Matches(r, s.buckets, plain, before) && before <= now
    ensures Matches(r, SweepIfDue(s, now).buckets, plain, now)
  {
  }

  /** The clock before call `i` of a run. */
  function Time(run: Run, i: nat): real
    requires i <= |run| && run != []
  {
    if i == 0 then run[0].now else run[i - 1].now
  }

  lemma AfterNext(r: Rate, run: Run, i: nat)
    requires i < |run|
    ensures After(r, START, run[..i + 1]) == AllowStep(r, After(r, START, run[..i]), run[i].ip, run[i].now).0
    ensures PlainAfter(r, run[..i + 1]) == Ask(r, PlainAfter(r, run[..i]), BucketOf(run[i].ip), run[i].now).0
  {
    assert run[..i + 1][..i] == run[..i];
  }

  lemma TimeNext(run: Run, i: nat)
    requires Clocked(run) && i < |run|
    ensures Time(run, i) <= run[i].now == Time(run, i + 1)
  {
  }

  lemma MatchesNext(r: Rate, run: Run, i: nat)
    requires Positive(r) && RefillsInTime(r) && Clocked(run) && i < |run|
    requires Matches(r, After(r, START, run[..i]).buckets, PlainAfter(r, run[..i]), Time(run, i))
    ensures Matches(r, After(r, START, run[..i + 1]).buckets, PlainAfter(r, run[..i + 1]), Time(run, i + 1))
    ensures Matches(r, SweepIfDue(After(r, START, run[..i]), run[i].now).buckets, PlainAfter(r, run[..i]), run[i].now)
    ensures Allowed(r, START, run, i) <==> PlainAllowed(r, run, i)
  {
    var s, plain, now := After(r, START, run[..i]), PlainAfter(r, run[..i]), run[i].now;
    AfterNext(r, run, i);
    TimeNext(run, i);
    hide After, PlainAfter, Matches, Ask, SweepIfDue, Clocked, Time;
    SweepMatches(r, s, plain, Time(run, i), now);
    AskSame(r, SweepIfDue(s, now).buckets, plain, BucketOf(run[i].ip), now);
  }

  lemma MatchesStart(r: Rate, run: Run)
    requires run != []
    ensures Matches(r, After(r, START, run[..0]).buckets, PlainAfter(r, run[..0]), Time(run, 0))
  {
  }

  lemma {:induction false} SweptMatchesPlain(r: Rate, run: Run, i: nat)
    requires Positive(r) && RefillsInTime(r) && Clocked(run) && run != [] && i <= |run|
    ensures Matches(r, After(r, START, run[..i]).buckets, PlainAfter(r, run[..i]), Time(run, i))
  {
    hide After, PlainAfter, Matches, Clocked, Time;
    if i == 0 {
      MatchesStart(r, run);
    } else {
      SweptMatchesPlain(r, run, i - 1);
      MatchesNext(r, run, i - 1);
      assert run[..i - 1 + 1] == run[..i];
    }
  }

  /** No run can tell the limiter from one that never sweeps. */
  ghost predicate SweepInvisible(r: Rate) {
    forall run: Run, i: nat | Clocked(run) && i < |run| ::
      Allowed(r, START, run, i) <==> PlainAllowed(r, run, i)
  }

  /** `burst` requests at once, and as many again at `later`. */
  function TwoBursts(ip: Addr, burst: nat, later: real, n: nat): (run: Run)
    ensures |run| == n
    ensures forall i :: 0 <= i < n ==> run[i] == Request(ip, if i < burst then 1000.0 else later)
  {
    seq(n, i => Request(ip, if i < burst then 1000.0 else later))
  }

  /** The swept table along two bursts more than ten minutes apart. */
  function BurstsSwept(r: Rate, ip: Addr, later: real, n: nat): State {
    if n == 0 then START
    else if n <= r.burst then
      State(map[ip := Bucket(Tokens((r.burst - n) as real, 1000.0), 1000.0)], 1000.0)
    else
      State(map[ip := Bucket(Tokens((2 * r.burst - n) as real, later), later)], later)
  }

  lemma {:induction false} BurstsAfter(r: Rate, ip: Addr, later: real, n: nat)
    requires Positive(r) && later > 1600.0 && BucketOf(ip) == ip && n <= 2 * r.burst
    ensures After(r, START, TwoBursts(ip, r.burst, later, n)) == BurstsSwept(r, ip, later, n)
  {
    if n > 0 {
      var run := TwoBursts(ip, r.burst, later, n);
      BurstsAfter(r, ip, later, n - 1);
      assert run[..n - 1] == TwoBursts(ip, r.burst, later, n - 1);
      BurstsStep(r, ip, later, n - 1);
    }
  }

  lemma BurstsStep(r: Rate, ip: Addr, later: real, n: nat)
    requires Positive(r) && later > 1600.0 && BucketOf(ip) == ip && n < 2 * r.burst
    ensures AllowStep(r, BurstsSwept(r, ip, later, n), ip, if n < r.burst then 1000.0 else later)
         == (BurstsSwept(r, ip, later, n + 1), true)
  {
    var s, now := BurstsSwept(r, ip, later, n), if n < r.burst then 1000.0 else later;
    var swept := SweepIfDue(s, now);
    if n == 0 {
      assert swept.buckets == map[];
    } else if n == r.burst {
      assert swept.buckets == map[];
    } else {
      assert swept == s;
    }
    assert swept.lastSweep == now;
    assert AllowStep(r, s, ip, now).0.buckets == BurstsSwept(r, ip, later, n + 1).buckets;
  }

  /** What the table that never forgets has left for the second burst. */
  predicate PlainShort(r: Rate, ip: Addr, later: real, buckets: Buckets, n: nat) {
    && ip in buckets
    && (n <= r.burst ==> buckets[ip].l == Tokens((r.burst - n) as real, 1000.0))
    && (n >= r.burst ==> Available(r, buckets[ip].l, later) < (2 * r.burst - n) as real)
  }

  lemma PlainShortStep(r: Rate, ip: Addr, later: real, buckets: Buckets, n: nat)
    requires Positive(r) && later > 1000.0 && r.perSecond * (later - 1000.0) < r.burst as real
    requires BucketOf(ip) == ip && n + 1 < 2 * r.burst
    requires if n == 0 then buckets == map[] else PlainShort(r, ip, later, buckets, n)
    ensures PlainShort(r, ip, later, Ask(r, buckets, ip, if n < r.burst then 1000.0 else later).0, n + 1)
  {
  }

  lemma {:induction false} BurstsPlain(r: Rate, ip: Addr, later: real, n: nat)
    requires Positive(r) && later > 1000.0 && r.perSecond * (later - 1000.0) < r.burst as real
    requires BucketOf(ip) == ip && 0 < n < 2 * r.burst
    ensures PlainShort(r, ip, later, PlainAfter(r, TwoBursts(ip, r.burst, later, n)), n)
  {
    var run := TwoBursts(ip, r.burst, later, n);
    assert run[..n - 1] == TwoBursts(ip, r.burst, later, n - 1);
    if n > 1 {
      BurstsPlain(r, ip, later, n - 1);
    } else {
      assert PlainAfter(r, run[..0]) == map[];
    }
    PlainShortStep(r, ip, later, PlainAfter(r, run[..n - 1]), n - 1);
  }

  lemma LastOfBursts(r: Rate, ip: Addr, later: real)
    requires Positive(r) && later > 1600.0 && r.perSecond * (later - 1000.0) < r.burst as real
    requires BucketOf(ip) == ip
    ensures var run, last := TwoBursts(ip, r.burst, later, 2 * r.burst), 2 * r.burst - 1;
            Clocked(run) && Allowed(r, START, run, last) && !PlainAllowed(r, run, last)
  {
    var run, last := TwoBursts(ip, r.burst, later, 2 * r.burst), 2 * r.burst - 1;
    assert run[..last] == TwoBursts(ip, r.burst, later, last);
    BurstsAfter(r, ip, later, last);
    BurstsStep(r, ip, later, last);
    BurstsPlain(r, ip, later, last);
    hide After, PlainAfter, AllowStep, BurstsSwept;
    assert run[last] == Request(ip, later);
  }

  lemma SweepForgives(r: Rate, ip: Addr)
    requires Positive(r) && !RefillsInTime(r) && BucketOf(ip) == ip
    ensures !SweepInvisible(r)
  {
    var later := 1600.0 + (r.burst as real / r.perSecond - 600.0) / 2.0;
    SpareTime(r);
    LastOfBursts(r, ip, later);
    hide Allowed, PlainAllowed, Clocked;
  }

  lemma SpareTime(r: Rate)
    requires Positive(r) && !RefillsInTime(r)
    ensures var spare := (r.burst as real / r.perSecond - 600.0) / 2.0;
            spare > 0.0 && r.perSecond * (600.0 + spare) < r.burst as real
  {
    var full := r.burst as real / r.perSecond;
    assert full * r.perSecond == r.burst as real;
    Halfway(r.perSecond, full, r.burst as real);
  }

  lemma Halfway(c: real, full: real, b: real)
    requires c > 0.0 && full * c == b && b > 600.0 * c
    ensures full > 600.0 && c * (600.0 + (full - 600.0) / 2.0) < b
  {
    assert c * full == b;
    ScaleBack(c, 600.0, full);
    Scale(c, 600.0 + (full - 600.0) / 2.0, full);
  }

  lemma Scale(c: real, a: real, b: real)
    requires c > 0.0 && a < b
    ensures c * a < c * b
  {
  }

  lemma ScaleBack(c: real, a: real, b: real)
    requires c > 0.0 && c * a < c * b
    ensures a < b
  {
  }

  /** Sweeping is invisible exactly when a bucket refills in ten minutes. */
  lemma SweepInvisibleExact(r: Rate)
    requires Positive(r)
    ensures SweepInvisible(r) <==> RefillsInTime(r)
  {
    if RefillsInTime(r) {
      forall run: Run, i: nat | Clocked(run) && i < |run|
        ensures Allowed(r, START, run, i) <==> PlainAllowed(r, run, i)
      {
        SweptMatchesPlain(r, run, i);
        MatchesNext(r, run, i);
      }
    } else {
      SweepForgives(r, Unknown);
    }
  }

  /******* The rate bound *******/

  /** Requests of the client `key` that calls `i` to `j - 1` let through. */
  function Count(r: Rate, run: Run, key: Addr, i: nat, j: nat): nat
    requires i <= j <= |run|
  {
    if i == j then 0
    else Count(r, run, key, i, j - 1)
         + if BucketOf(run[j - 1].ip) == key && Allowed(r, START, run, j - 1) then 1 else 0
  }

  /** Tokens the client can spend at `now`. */
  function Left(r: Rate, buckets: Buckets, key: Addr, now: real): real {
    if key in buckets then Available(r, buckets[key].l, now) else r.burst as real
  }

  lemma LeftGrows(r: Rate, buckets: Buckets, key: Addr, before: real, now: real)
    requires Positive(r) && before <= now
    requires key in buckets ==> buckets[key].l.last <= before
    ensures Left(r, buckets, key, now) <= Left(r, buckets, key, before) + Earned(r, before, now)
  {
    EarnedAtLeast(r, before, now, 0.0);
    if key in buckets {
      var last := buckets[key].l.last;
      EarnedAdds(r, last, before, now);
      hide Earned;
    }
  }

  lemma LeftSpent(r: Rate, buckets: Buckets, key: Addr, asked: Addr, now: real)
    requires Positive(r) && (asked in buckets ==> buckets[asked].l.last <= now)
    ensures var (b', ok) := Ask(r, buckets, asked, now);
            Left(r, b', key, now) + (if asked == key && ok then 1.0 else 0.0) == Left(r, buckets, key, now)
  {
  }

  /** Buckets in a table were last spent from no later than `now`, and owe
      nothing. */
  ghost predicate Settled(buckets: Buckets, now: real) {
    forall k :: k in buckets ==> buckets[k].l.last <= now && buckets[k].l.tokens >= 0.0
  }

  lemma PlainSettled(r: Rate, run: Run, i: nat)
    requires Positive(r) && RefillsInTime(r) && Clocked(run) && run != [] && i <= |run|
    ensures Settled(PlainAfter(r, run[..i]), Time(run, i))
  {
    hide After, PlainAfter, Clocked;
    SweptMatchesPlain(r, run, i);
  }

  /** One request moves the count and the allowance together. */
  lemma CountStep(r: Rate, run: Run, key: Addr, m: nat)
    requires Positive(r) && RefillsInTime(r) && Clocked(run) && m < |run|
    ensures (if BucketOf(run[m].ip) == key && Allowed(r, START, run, m) then 1.0 else 0.0)
            + Left(r, PlainAfter(r, run[..m + 1]), key, run[m].now)
         == Left(r, PlainAfter(r, run[..m]), key, run[m].now)
  {
    var plain, now := PlainAfter(r, run[..m]), run[m].now;
    hide After, PlainAfter, Matches, Clocked, Left, Ask, Allowed;
    AfterNext(r, run, m);
    TimeNext(run, m);
    PlainSettled(r, run, m);
    SweptMatchesPlain(r, run, m);
    MatchesNext(r, run, m);
    LeftSpent(r, plain, key, BucketOf(run[m].ip), now);
  }

  lemma CountGrows(r: Rate, run: Run, key: Addr, m: nat)
    requires Positive(r) && RefillsInTime(r) && Clocked(run) && 0 < m < |run|
    ensures Left(r, PlainAfter(r, run[..m]), key, run[m].now)
         <= Left(r, PlainAfter(r, run[..m]), key, run[m - 1].now) + Earned(r, run[m - 1].now, run[m].now)
  {
    hide After, PlainAfter, Matches, Clocked, Left, Earned;
    TimeNext(run, m);
    PlainSettled(r, run, m);
    LeftGrows(r, PlainAfter(r, run[..m]), key, run[m - 1].now, run[m].now);
  }

  lemma {:induction false} CountBelow(r: Rate, run: Run, key: Addr, i: nat, m: nat)
    requires Positive(r) && RefillsInTime(r) && Clocked(run) && i <= m < |run|
    ensures Count(r, run, key, i, m + 1) as real + Left(r, PlainAfter(r, run[..m + 1]), key, run[m].now)
         <= r.burst as real + Earned(r, run[i].now, run[m].now)
    decreases m
  {
    CountStep(r, run, key, m);
    LeftAtMostBurst(r, PlainAfter(r, run[..m]), key, run[m].now);
    assert Count(r, run, key, i, i) == 0;
    hide After, PlainAfter, Clocked, Allowed, Left, Earned;
    EarnedAdds(r, run[i].now, if m == i then run[i].now else run[m - 1].now, run[m].now);
    if m > i {
      CountBelow(r, run, key, i, m - 1);
      assert run[..m - 1 + 1] == run[..m];
      CountGrows(r, run, key, m);
    }
  }

  lemma LeftAtMostBurst(r: Rate, buckets: Buckets, key: Addr, now: real)
    ensures Left(r, buckets, key, now) <= r.burst as real
  {
  }

  lemma EarnedAdds(r: Rate, t0: real, t1: real, t2: real)
    ensures Earned(r, t0, t2) == Earned(r, t0, t1) + Earned(r, t1, t2)
    ensures Earned(r, t0, t0) == 0.0
  {
  }

  /** In any stretch of a run a client gets at most a full bucket plus what the
      rate refills meanwhile; all hosts of one IPv6 /64 share that allowance. */
  lemma RateBound(r: Rate, run: Run, key: Addr, i: nat, j: nat)
    requires Positive(r) && RefillsInTime(r) && Clocked(run) && i < j <= |run|
    ensures Count(r, run, key, i, j) as real
         <= r.burst as real + r.perSecond * (run[j - 1].now - run[i].now)
  {
    assert Earned(r, run[i].now, run[j - 1].now) == r.perSecond * (run[j - 1].now - run[i].now);
    hide PlainAfter, Count, Clocked, Left, Earned;
    CountBelow(r, run, key, i, j - 1);
    PlainSettled(r, run, j);
    LeftNotNegative(r, PlainAfter(r, run[..j]), key, run[j - 1].now);
  }

  /** Does the bound hold of every run, client and stretch? */
  ghost predicate BoundHolds(r: Rate) {
    forall run: Run, key: Addr, i: nat, j: nat | Clocked(run) && i < j <= |run| ::
      Count(r, run, key, i, j) as real <= r.burst as real + r.perSecond * (run[j - 1].now - run[i].now)
  }

  /** With both bursts let through, the count is twice the burst. */
  lemma {:induction false} BurstsCount(r: Rate, ip: Addr, later: real, n: nat)
    requires Positive(r) && later > 1600.0 && BucketOf(ip) == ip && n <= 2 * r.burst
    ensures Count(r, TwoBursts(ip, r.burst, later, 2 * r.burst), ip, 0, n) == n
  {
    if n > 0 {
      var run := TwoBursts(ip, r.burst, later, 2 * r.burst);
      BurstsCount(r, ip, later, n - 1);
      assert run[..n - 1] == TwoBursts(ip, r.burst, later, n - 1);
      BurstsAfter(r, ip, later, n - 1);
      BurstsStep(r, ip, later, n - 1);
      hide After, AllowStep, BurstsSwept;
      assert run[n - 1] == Request(ip, if n - 1 < r.burst then 1000.0 else later);
    }
  }

  /** Two bursts of a client, the first at 1000 and the second at `later`. */
  lemma TwiceTheBurst(r: Rate, run: Run, ip: Addr, later: real)
    requires Positive(r) && later > 1600.0 && BucketOf(ip) == ip && Earned(r, 1000.0, later) < r.burst as real
    requires run == TwoBursts(ip, r.burst, later, 2 * r.burst)
    ensures !BoundHolds(r)
  {
    BurstsCount(r, ip, later, 2 * r.burst);
    assert Clocked(run) && run[0].now == 1000.0 && run[2 * r.burst - 1].now == later;
    hide Count, TwoBursts, Clocked;
    assert Count(r, run, ip, 0, 2 * r.burst) as real == r.burst as real + r.burst as real;
    hide Earned;
    if BoundHolds(r) {
      BoundAt(r, run, ip, 2 * r.burst);
    }
  }

  lemma BoundAt(r: Rate, run: Run, key: Addr, j: nat)
    requires BoundHolds(r) && Clocked(run) && 0 < j <= |run|
    ensures Count(r, run, key, 0, j) as real <= r.burst as real + Earned(r, run[0].now, run[j - 1].now)
  {
    hide Count, Clocked;
  }

  lemma BoundIsRateBound(r: Rate)
    requires Positive(r) && RefillsInTime(r)
    ensures BoundHolds(r)
  {
    forall run: Run, key: Addr, i: nat, j: nat | Clocked(run) && i < j <= |run|
      ensures Count(r, run, key, i, j) as real <= r.burst as real + r.perSecond * (run[j - 1].now - run[i].now)
    {
      RateBound(r, run, key, i, j);
    }
  }

  /** The bound holds exactly when a bucket refills in ten minutes: else two bursts just
      over ten minutes apart get through. */
  lemma RateBoundExact(r: Rate)
    requires Positive(r)
    ensures BoundHolds(r) <==> RefillsInTime(r)
  {
    if RefillsInTime(r) {
      BoundIsRateBound(r);
    } else {
      SpareTime(r);
      hide BoundHolds;
      var later := 1600.0 + (r.burst as real / r.perSecond - 600.0) / 2.0;
      TwiceTheBurst(r, TwoBursts(Unknown, r.burst, later, 2 * r.burst), Unknown, later);
    }
  }

  lemma LeftNotNegative(r: Rate, buckets: Buckets, key: Addr, now: real)
    requires Positive(r) && Settled(buckets, now)
    ensures Left(r, buckets, key, now) >= 0.0
  {
    if key in buckets {
      EarnedAtLeast(r, buckets[key].l.last, now, 0.0);
    }
  }

  /******* Every client is served *******/

  /** Request `i` was let through, and came from this client. */
  ghost predicate Spent(r: Rate, run: Run, i: nat, key: Addr)
    requires i < |run|
  {
    BucketOf(run[i].ip) == key && Allowed(r, START, run, i)
  }

  /** A bucket was last spent from by a request of its client that was let through. */
  ghost predicate LastSpent(r: Rate, run: Run, m: nat, key: Addr, l: Tokens)
    requires m <= |run|
  {
    l.tokens >= 0.0 && exists i :: 0 <= i < m && Spent(r, run, i, key) && run[i].now == l.last
  }

  ghost predicate Traced(r: Rate, run: Run, m: nat, buckets: Buckets)
    requires m <= |run|
  {
    forall k :: k in buckets ==> LastSpent(r, run, m, k, buckets[k].l)
  }

  lemma {:induction false} TracedInRun(r: Rate, run: Run, m: nat)
    requires Positive(r) && m <= |run|
    ensures Traced(r, run, m, After(r, START, run[..m]).buckets)
  {
    if m > 0 {
      TracedInRun(r, run, m - 1);
      AfterNext(r, run, m - 1);
      TracedNext(r, run, m - 1, After(r, START, run[..m - 1]), After(r, START, run[..m]));
    }
  }

  lemma TracedNext(r: Rate, run: Run, m: nat, s: State, s': State)
    requires Positive(r) && m < |run| && Traced(r, run, m, s.buckets) && s == After(r, START, run[..m])
    requires s' == AllowStep(r, s, run[m].ip, run[m].now).0
    ensures Traced(r, run, m + 1, s'.buckets)
  {
    var key, now := BucketOf(run[m].ip), run[m].now;
    var swept := SweepIfDue(s, now).buckets;
    assert Spent(r, run, m, key) <==> Ask(r, swept, key, now).1;
    forall k | k in s'.buckets ensures LastSpent(r, run, m + 1, k, s'.buckets[k].l) {
      if k != key || (k in swept && !Ask(r, swept, key, now).1) {
        assert LastSpent(r, run, m, k, s.buckets[k].l);
      } else {
        NewIsFull(r, now);
      }
    }
  }

  lemma NewIsFull(r: Rate, now: real)
    requires Positive(r)
    ensures AllowOne(r, NewTokens(r, now), now) == (Tokens(r.burst as real - 1.0, now), true)
  {
  }

  /** At least `1 / rate` seconds apart. */
  predicate Spaced(r: Rate, from: real, to: real) { r.perSecond * (to - from) >= 1.0 }

  /** Whoever was let through by no request of the last `1 / rate` seconds is let through
      now, whatever was refused meanwhile. */
  lemma Served(r: Rate, run: Run, j: nat)
    requires Positive(r) && Clocked(run) && j < |run|
    requires forall i :: 0 <= i < j && Spent(r, run, i, BucketOf(run[j].ip)) ==> Spaced(r, run[i].now, run[j].now)
    ensures Allowed(r, START, run, j)
  {
    var key, now := BucketOf(run[j].ip), run[j].now;
    var s := After(r, START, run[..j]);
    TracedInRun(r, run, j);
    hide After, Spent, Spaced, AllowOne, Allowed;
    assert key in s.buckets ==> LastSpent(r, run, j, key, s.buckets[key].l);
    ServedFrom(r, s, run[j].ip, now);
    assert Allowed(r, START, run, j) == AllowStep(r, s, run[j].ip, now).1 by { AllowedIs(r, run, j); }
  }

  lemma AllowedIs(r: Rate, run: Run, j: nat)
    requires j < |run|
    ensures Allowed(r, START, run, j) == AllowStep(r, After(r, START, run[..j]), run[j].ip, run[j].now).1
  {
    hide After, AllowStep;
  }

  lemma ServedFrom(r: Rate, s: State, ip: Addr, now: real)
    requires Positive(r)
    requires BucketOf(ip) in s.buckets ==>
               var l := s.buckets[BucketOf(ip)].l; l.tokens >= 0.0 && l.last <= now && Spaced(r, l.last, now)
    ensures AllowStep(r, s, ip, now).1
  {
    NewIsFull(r, now);
    if BucketOf(ip) in s.buckets {
      Refilled(r, s.buckets[BucketOf(ip)].l, now);
    }
    hide AllowOne, Spaced;
  }

  lemma Refilled(r: Rate, l: Tokens, now: real)
    requires Positive(r) && l.tokens >= 0.0 && l.last <= now && Spaced(r, l.last, now)
    ensures AllowOne(r, l, now).1
  {
    assert Earned(r, l.last, now) >= 1.0;
    hide Earned, Spaced;
  }

  /******* What the sweep leaves *******/

  /** The clock starts past its zero, where the last sweep is first set, and does not run back. */
  ghost predicate Started(run: Run) { Clocked(run) && run != [] && run[0].now >= 0.0 }

  /** No bucket is kept that was used longer ago than this. */
  ghost predicate IdleAtMost(r: Rate, limit: real) {
    forall run: Run, k: Addr | Started(run) && k in After(r, START, run).buckets ::
      run[|run| - 1].now - After(r, START, run).buckets[k].used <= limit
  }

  ghost predicate SweptLately(s: State, now: real) {
    0.0 <= now - s.lastSweep <= 60.0 && forall k :: k in s.buckets ==> s.buckets[k].used >= s.lastSweep - 600.0
  }

  lemma {:induction false} LatelyInRun(r: Rate, run: Run)
    requires Started(run)
    ensures SweptLately(After(r, START, run), run[|run| - 1].now)
  {
    var run0, last := run[..|run| - 1], run[|run| - 1];
    if run0 != [] {
      LatelyInRun(r, run0);
      assert run0[|run0| - 1].now <= last.now;
    } else {
      assert After(r, START, run0) == START;
    }
    hide Clocked;
    assert After(r, START, run) == AllowStep(r, After(r, START, run0), last.ip, last.now).0;
    LatelyNext(r, After(r, START, run0), last);
  }

  lemma LatelyNext(r: Rate, s: State, q: Request)
    requires q.now >= s.lastSweep && forall k :: k in s.buckets ==> s.buckets[k].used >= s.lastSweep - 600.0
    ensures SweptLately(AllowStep(r, s, q.ip, q.now).0, q.now)
  {
    hide AllowOne;
  }

  /** Eleven minutes after its last request a client is forgotten, and no bound is
      tighter. */
  lemma ForgottenAfter(r: Rate, limit: real)
    requires Positive(r)
    ensures IdleAtMost(r, limit) <==> limit >= 660.0
  {
    if limit >= 660.0 {
      forall run: Run, k: Addr | Started(run) && k in After(r, START, run).buckets
        ensures run[|run| - 1].now - After(r, START, run).buckets[k].used <= limit
      {
        LatelyInRun(r, run);
        hide After;
      }
    } else {
      LateRun(r);
    }
  }

  lemma LateRun(r: Rate)
    requires Positive(r)
    ensures var run := [Request(V4(1), 1000.0), Request(V4(2), 1600.0), Request(V4(2), 1660.0)];
            && Started(run) && V4(1) in After(r, START, run).buckets
            && After(r, START, run).buckets[V4(1)].used == 1000.0
  {
    var run := [Request(V4(1), 1000.0), Request(V4(2), 1600.0), Request(V4(2), 1660.0)];
    AfterNext(r, run, 0);
    AfterNext(r, run, 1);
    AfterNext(r, run, 2);
    assert run[..0] == [] && run[..3] == run;
    assert After(r, START, []) == START;
    hide After, AllowOne;
    var s1 := AllowStep(r, START, V4(1), 1000.0).0;
    assert s1.lastSweep == 1000.0 && V4(1) in s1.buckets && s1.buckets[V4(1)].used == 1000.0;
    var s2 := AllowStep(r, s1, V4(2), 1600.0).0;
    assert s2.lastSweep == 1600.0 && V4(1) in s2.buckets && s2.buckets[V4(1)].used == 1000.0;
  }
}
