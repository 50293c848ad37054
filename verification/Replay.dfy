/**
 Replay protection (server/go/internal/api/auth.go, and the parameters of the
 two sets in server/go/internal/api/server.go). A signature or a token is
 checked against a validity window first and recorded in its set a little
 later; the question is whether the set remembers it for the whole window.
 */
module Replay {
  import opened TtlSet

  /** When each key is valid: from `from(k)` for `span` ticks. */
  type Opening = Key -> nat

  /** Every call of the run was checked inside its key's window and recorded at
      most `delay` ticks after the check. */
  ghost predicate Windowed(r: Run, checks: seq<nat>, from: Opening, span: nat, delay: nat) {
    && |checks| == |r|
    && forall i :: 0 <= i < |r| ==>
         && from(r[i].key) <= checks[i] <= from(r[i].key) + span
         && checks[i] <= r[i].now <= checks[i] + delay
  }

  /** No key is ever accepted twice, in any run without a fill rotation. */
  ghost predicate OnceOnly(c: Config, span: nat, delay: nat) {
    forall r: Run, checks: seq<nat>, from: Opening, i: nat, j: nat
      | Clocked(r) && NoFill(c, r) && Windowed(r, checks, from, span, delay)
        && i < j < |r| && r[i].key == r[j].key && Accepts(c, r, i)
      :: !Accepts(c, r, j)
  }

  lemma LongEnough(c: Config, span: nat, delay: nat)
    requires c.ttl > 0 && c.ttl >= span + delay
    ensures OnceOnly(c, span, delay)
  {
    forall r: Run, checks: seq<nat>, from: Opening, i: nat, j: nat
      | Clocked(r) && NoFill(c, r) && Windowed(r, checks, from, span, delay)
        && i < j < |r| && r[i].key == r[j].key && Accepts(c, r, i)
      ensures !Accepts(c, r, j)
    {
      hide Accepts, Clocked, NoFill;
      if Accepts(c, r, j) {
        AcceptedAgainByTime(c, r, i, j);
        assert false;
      }
    }
  }

  /** The first call that brings a key. */
  lemma {:induction false} FirstCall(r: Run, k: Key, j: nat)
    requires j < |r| && r[j].key == k
    ensures exists i :: 0 <= i <= j && r[i].key == k && forall h :: 0 <= h < i ==> r[h].key != k
  {
    if h :| 0 <= h < j && r[h].key == k {
      FirstCall(r, k, h);
    }
  }

  /** Then the set is the unbounded set it stands for: a call is accepted exactly when
      no earlier call brought its key. */
  lemma AgreesWithUnbounded(c: Config, r: Run, checks: seq<nat>, from: Opening, span: nat, delay: nat, j: nat)
    requires c.ttl > 0 && c.ttl >= span + delay && Clocked(r) && NoFill(c, r) && j < |r|
    requires Windowed(r, checks, from, span, delay)
    ensures Accepts(c, r, j) <==> forall i :: 0 <= i < j ==> r[i].key != r[j].key
  {
    if i :| 0 <= i < j && r[i].key == r[j].key {
      FirstCall(r, r[j].key, i);
      var first :| 0 <= first <= i && r[first].key == r[j].key && forall h :: 0 <= h < first ==> r[h].key != r[j].key;
      NeverBroughtIsNew(c, r, first);
      LongEnough(c, span, delay);
      hide Accepts, Clocked, NoFill, Windowed;
    } else {
      NeverBroughtIsNew(c, r, j);
    }
  }

  /** A first key starts a generation; `k` arrives one tick before it rotates
      out, a third key right after, and `k` again one ttl later. */
  function LateRun(k: Key, x: Key, y: Key, ttl: nat): Run
    requires ttl > 0
  {
    [Call(x, 1), Call(k, ttl), Call(y, ttl + 1), Call(k, 2 * ttl + 1)]
  }

  lemma LateStates(c: Config, k: Key, x: Key, y: Key)
    requires c.ttl > 0 && c.max >= 2 && k != x && k != y && x != y
    ensures var r := LateRun(k, x, y, c.ttl);
            && After(c, r[..0]) == EMPTY
            && After(c, r[..1]) == State({x}, {}, 1)
            && After(c, r[..2]) == State({x, k}, {}, 1)
            && After(c, r[..3]) == State({y}, {x, k}, c.ttl + 1)
  {
    var r := LateRun(k, x, y, c.ttl);
    assert After(c, r[..0]) == EMPTY;
    AfterStep(c, r, 0);
    AfterStep(c, r, 1);
    AfterStep(c, r, 2);
    hide After;
    assert After(c, r[..1]) == State({x}, {}, 1);
    assert {x} + {k} == {x, k};
    assert After(c, r[..2]) == State({x, k}, {}, 1);
  }

  lemma LateRunAccepts(c: Config, k: Key, x: Key, y: Key)
    requires c.ttl > 0 && c.max >= 2 && k != x && k != y && x != y
    ensures var r := LateRun(k, x, y, c.ttl);
            Clocked(r) && NoFill(c, r) && Accepts(c, r, 1) && Accepts(c, r, 3)
  {
    var r := LateRun(k, x, y, c.ttl);
    LateStates(c, k, x, y);
    assert Clocked(r);
    hide After, Clocked;
    forall i | 0 <= i < |r| ensures !FillRotation(c, After(c, r[..i]), r[i].now) {
      assert i == 0 || i == 1 || i == 2 || i == 3;
    }
  }

  function LateFrom(k: Key, x: Key, ttl: nat): Opening {
    q => if q == x then 1 else if q == k then ttl else ttl + 1
  }

  function LateChecks(ttl: nat, span: nat): seq<nat> {
    [1, ttl, ttl + 1, if ttl + 1 <= span then 2 * ttl + 1 else ttl + span]
  }

  lemma LateRunWindowed(k: Key, x: Key, y: Key, ttl: nat, span: nat, delay: nat)
    requires 0 < ttl < span + delay && k != x && k != y && x != y
    ensures Windowed(LateRun(k, x, y, ttl), LateChecks(ttl, span), LateFrom(k, x, ttl), span, delay)
  {
    var r := LateRun(k, x, y, ttl);
    forall i | 0 <= i < |r|
      ensures var from, check := LateFrom(k, x, ttl)(r[i].key), LateChecks(ttl, span)[i];
              from <= check <= from + span && check <= r[i].now <= check + delay
    {
      assert i == 0 || i == 1 || i == 2 || i == 3;
    }
  }

  lemma TooShort(c: Config, span: nat, delay: nat)
    requires 0 < c.ttl < span + delay && c.max >= 2
    ensures !OnceOnly(c, span, delay)
  {
    var r := LateRun("k", "x", "y", c.ttl);
    assert r[1].key == r[3].key;
    LateRunAccepts(c, "k", "x", "y");
    LateRunWindowed("k", "x", "y", c.ttl, span, delay);
    hide Clocked, NoFill, Accepts, Windowed, LateFrom, LateChecks;
  }

  /** One pass per key, in every run, exactly when the ttl covers the validity
      window and the delay between check and record. */
  lemma OnceOnlyExact(c: Config, span: nat, delay: nat)
    requires c.ttl > 0 && c.max >= 2
    ensures OnceOnly(c, span, delay) <==> c.ttl >= span + delay
  {
    if c.ttl >= span + delay {
      LongEnough(c, span, delay);
    } else {
      TooShort(c, span, delay);
    }
  }

  /******* The server's two sets *******/

  const WINDOW := 300

  /** `inWindow`, on a clock of `tps` ticks per second: `Unix()` drops the
      fraction of a second. */
  predicate InWindow(tps: nat, now: nat, ts: int)
    requires tps > 0
  {
    -WINDOW <= now / tps - ts <= WINDOW
  }

  lemma FloorBounds(n: nat, d: nat, lo: int, hi: int)
    requires d > 0
    ensures lo <= n / d <= hi <==> lo * d <= n && n < (hi + 1) * d
  {
    var q := n / d;
    assert q * d <= n < q * d + d;
    if lo <= q { assert lo * d <= q * d; } else { assert (q + 1) * d <= lo * d; }
    if q <= hi { assert (q + 1) * d <= (hi + 1) * d; } else { assert (hi + 1) * d <= q * d; }
  }

  /** A timestamp is valid for 601 whole seconds, less one tick. */
  lemma InWindowSpan(tps: nat, now: nat, ts: int)
    requires tps > 0
    ensures InWindow(tps, now, ts)
       <==> (ts - WINDOW) * tps <= now <= (ts - WINDOW) * tps + (601 * tps - 1)
  {
    FloorBounds(now, tps, ts - WINDOW, ts + WINDOW);
    assert (ts + WINDOW + 1) * tps == (ts - WINDOW) * tps + 601 * tps;
  }

  /** The set of seen signatures, 10 minutes long: it takes each signature string once
      only on a clock of whole seconds with nothing between check and record. */
  lemma SignatureOnce(tps: nat, delay: nat)
    requires tps > 0
    ensures OnceOnly(Config(600 * tps, 250_000), 601 * tps - 1, delay) <==> tps == 1 && delay == 0
  {
    hide OnceOnly;
    OnceOnlyExact(Config(600 * tps, 250_000), 601 * tps - 1, delay);
  }

  /** One second more would do for that, with any delay up to one tick. */
  lemma SignatureOnceWithMargin(tps: nat, delay: nat)
    requires tps > 0
    ensures OnceOnly(Config(601 * tps, 250_000), 601 * tps - 1, delay) <==> delay <= 1
  {
    hide OnceOnly;
    OnceOnlyExact(Config(601 * tps, 250_000), 601 * tps - 1, delay);
  }

  const DAY := 86_400

  /** A token of day `d` is fresh yesterday, today and tomorrow. */
  predicate FreshDay(tps: nat, now: nat, d: int)
    requires tps > 0
  {
    -1 <= d - now / (DAY * tps) <= 1
  }

  lemma FreshDaySpan(tps: nat, now: nat, d: int)
    requires tps > 0
    ensures FreshDay(tps, now, d)
       <==> (d - 1) * (DAY * tps) <= now <= (d - 1) * (DAY * tps) + (3 * DAY * tps - 1)
  {
    FloorBounds(now, DAY * tps, d - 1, d + 1);
    assert (d + 2) * (DAY * tps) == (d - 1) * (DAY * tps) + 3 * (DAY * tps);
  }

  /** The set of spent tokens, 72 hours long: a token pays once as long as it is
      recorded at most one tick after its check. */
  lemma TokenOnce(tps: nat, delay: nat)
    requires tps > 0
    ensures OnceOnly(Config(72 * 3600 * tps, 250_000), 3 * DAY * tps - 1, delay) <==> delay <= 1
  {
    hide OnceOnly;
    OnceOnlyExact(Config(72 * 3600 * tps, 250_000), 3 * DAY * tps - 1, delay);
  }
}
