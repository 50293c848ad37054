/**
 The two-generation set that remembers signatures and proof-of-work tokens
 (server/go/internal/ttlset/ttlset.go). Times are ticks of the server clock; 0
 is Go's zero time, which no clock reading is.
 */
module TtlSet {

  type Key = string

  datatype Config = Config(ttl: nat, max: nat)

  datatype State = State(cur: set<Key>, prev: set<Key>, rotatedAt: nat)

  const EMPTY := State({}, {}, 0)

  /** The generations as the rotation at the head of `Add` leaves them. */
  function Rotated(c: Config, s: State, now: nat): State {
    var s := if s.rotatedAt == 0 then s.(rotatedAt := now) else s;
    var elapsed := now as int - s.rotatedAt;
    if elapsed >= 2 * c.ttl then State({}, {}, now)
    else if elapsed >= c.ttl || |s.cur| >= c.max then State({}, s.cur, now)
    else s
  }

  function AddTo(c: Config, s: State, k: Key, now: nat): (State, bool) {
    var s := Rotated(c, s, now);
    if k in s.cur || k in s.prev then (s, false)
    else (s.(cur := s.cur + {k}), true)
  }

  class Set {
    const ttl: nat
    const max: nat
    var cur: set<Key>
    var prev: set<Key>
    var rotatedAt: nat

    ghost function Params(): Config { Config(ttl, max) }

    ghost function Abs(): State
      reads this
    {
      State(cur, prev, rotatedAt)
    }

    constructor (ttl: nat, maxPerGeneration: nat)
      ensures this.ttl == ttl && max == maxPerGeneration && Abs() == EMPTY
    {
      this.ttl, max := ttl, maxPerGeneration;
      cur, prev, rotatedAt := {}, {}, 0;
    }

    /** Records `k` and reports whether it was new. */
    method Add(k: Key, now: nat) returns (isNew: bool)
      modifies this
      ensures (Abs(), isNew) == AddTo(Params(), old(Abs()), k, now)
    {
      if rotatedAt == 0 {
        rotatedAt := now;
      }
      var elapsed := now as int - rotatedAt;
      if elapsed >= 2 * ttl {
        prev, cur := {}, {};
        rotatedAt := now;
      } else if elapsed >= ttl || |cur| >= max {
        prev, cur := cur, {};
        rotatedAt := now;
      }
      if k in cur {
        return false;
      }
      if k in prev {
        return false;
      }
      cur := cur + {k};
      return true;
    }
  }

  /******* Runs *******/

  datatype Call = Call(key: Key, now: nat)

  type Run = seq<Call>

  /** The clock is past its zero and never runs back. */
  ghost predicate Clocked(r: Run) {
    && (forall i :: 0 <= i < |r| ==> 0 < r[i].now)
    && (forall i, j :: 0 <= i < j < |r| ==> r[i].now <= r[j].now)
  }

  lemma ClockedAt(r: Run, i: nat, j: nat)
    requires Clocked(r) && i <= j < |r|
    ensures 0 < r[i].now <= r[j].now
  {
  }

  function After(c: Config, r: Run): State {
    if r == [] then EMPTY
    else
      var last := r[|r| - 1];
      AddTo(c, After(c, r[..|r| - 1]), last.key, last.now).0
  }

  /** Does call `i` of the run report a new key? */
  predicate Accepts(c: Config, r: Run, i: nat)
    requires i < |r|
  {
    AddTo(c, After(c, r[..i]), r[i].key, r[i].now).1
  }

  lemma AfterStep(c: Config, r: Run, i: nat)
    requires i < |r|
    ensures After(c, r[..i + 1]) == AddTo(c, After(c, r[..i]), r[i].key, r[i].now).0
  {
    assert r[..i + 1][..i] == r[..i];
  }

  /** Was this key brought by the run? */
  ghost predicate Brought(r: Run, k: Key) { exists i :: 0 <= i < |r| && r[i].key == k }

  lemma {:induction false} OnlyBrought(c: Config, r: Run, k: Key)
    requires k in After(c, r).cur || k in After(c, r).prev
    ensures Brought(r, k)
  {
    if r != [] {
      var r0, last := r[..|r| - 1], r[|r| - 1];
      if k == last.key {
        assert r[|r| - 1].key == k;
      } else {
        OnlyBrought(c, r0, k);
        var i :| 0 <= i < |r0| && r0[i].key == k;
        assert r[i].key == k;
      }
    }
  }

  /** A key that no earlier call brought is new. */
  lemma NeverBroughtIsNew(c: Config, r: Run, j: nat)
    requires j < |r| && forall i :: 0 <= i < j ==> r[i].key != r[j].key
    ensures Accepts(c, r, j)
  {
    var k, s := r[j].key, After(c, r[..j]);
    if k in s.cur || k in s.prev {
      OnlyBrought(c, r[..j], k);
    }
    hide After;
  }

  /******* Bounded memory *******/

  function Cap(c: Config): nat { if c.max == 0 then 1 else c.max }

  predicate Bounded(c: Config, s: State) {
    |s.cur| <= Cap(c) && |s.prev| <= Cap(c) && s.cur !! s.prev
  }

  lemma BoundedStep(c: Config, s: State, k: Key, now: nat)
    requires Bounded(c, s)
    ensures Bounded(c, AddTo(c, s, k, now).0)
  {
  }

  /** Two disjoint generations of at most `max` keys each, at every moment. */
  lemma {:induction false} AlwaysBounded(c: Config, r: Run)
    ensures Bounded(c, After(c, r))
    ensures c.max > 0 ==> |After(c, r).cur + After(c, r).prev| <= 2 * c.max
  {
    if r != [] {
      AlwaysBounded(c, r[..|r| - 1]);
      BoundedStep(c, After(c, r[..|r| - 1]), r[|r| - 1].key, r[|r| - 1].now);
    }
    var s := After(c, r);
    assert |s.cur + s.prev| == |s.cur| + |s.prev| - |s.cur * s.prev|;
  }

  /******* What is remembered *******/

  lemma SubsetSize(a: set<Key>, b: set<Key>)
    requires a <= b
    ensures |a| <= |b|
  {
    assert b == a + (b - a);
  }

  /** Where a key accepted at `at` can be, when `others` were accepted since and
      the clock stands at `now`. */
  predicate Kept(c: Config, s: State, k: Key, at: nat, others: set<Key>, now: nat) {
    || (k in s.cur && s.rotatedAt <= at < s.rotatedAt + c.ttl)
    || (k in s.prev && at <= s.rotatedAt && s.cur <= others)
    || |others| >= c.max
    || now as int - at >= c.ttl
  }

  function Others(c: Config, s: State, k: Key, others: set<Key>, k': Key, now: nat): set<Key> {
    if k' != k && AddTo(c, s, k', now).1 then others + {k'} else others
  }

  lemma KeptStep(c: Config, s: State, k: Key, at: nat, others: set<Key>, before: nat, k': Key, now: nat)
    requires Kept(c, s, k, at, others, before) && before <= now
    requires 0 < s.rotatedAt <= before && at <= before
    ensures Kept(c, AddTo(c, s, k', now).0, k, at, Others(c, s, k, others, k', now), now)
    ensures k' == k && AddTo(c, s, k', now).1 ==> |others| >= c.max || now - at >= c.ttl
  {
    var others' := Others(c, s, k, others, k', now);
    SubsetSize(others, others');
    if k in s.prev && s.cur <= others {
      SubsetSize(s.cur, others);
    }
  }

  lemma KeptStart(c: Config, s: State, k: Key, now: nat)
    requires AddTo(c, s, k, now).1 && 0 < now && s.rotatedAt <= now
    ensures Kept(c, AddTo(c, s, k, now).0, k, now, {}, now)
    ensures 0 < AddTo(c, s, k, now).0.rotatedAt <= now
  {
  }

  /** Keys other than call `i`'s that calls `i + 1` to `j - 1` accepted. */
  function OthersSince(c: Config, r: Run, i: nat, j: nat): set<Key>
    requires i < j <= |r|
  {
    if j == i + 1 then {}
    else Others(c, After(c, r[..j - 1]), r[i].key, OthersSince(c, r, i, j - 1), r[j - 1].key, r[j - 1].now)
  }

  lemma {:induction false} RotatedInPast(c: Config, r: Run)
    requires Clocked(r)
    ensures r != [] ==> 0 < After(c, r).rotatedAt <= r[|r| - 1].now
    ensures r == [] ==> After(c, r).rotatedAt == 0
  {
    if r != [] {
      RotatedInPast(c, r[..|r| - 1]);
    }
  }

  lemma RotatedBefore(c: Config, r: Run, j: nat)
    requires Clocked(r) && j <= |r|
    ensures j > 0 ==> 0 < After(c, r[..j]).rotatedAt <= r[j - 1].now
    ensures j == 0 ==> After(c, r[..j]).rotatedAt == 0
  {
    assert Clocked(r[..j]);
    RotatedInPast(c, r[..j]);
  }

  lemma NoOthersYet(c: Config, r: Run, i: nat)
    requires i < |r|
    ensures OthersSince(c, r, i, i + 1) == {}
  {
  }

  lemma KeptAtFirst(c: Config, r: Run, i: nat)
    requires Clocked(r) && i < |r| && Accepts(c, r, i)
    ensures Kept(c, After(c, r[..i + 1]), r[i].key, r[i].now, {}, r[i].now)
  {
    AfterStep(c, r, i);
    RotatedBefore(c, r, i);
    assert 0 < r[i].now && After(c, r[..i]).rotatedAt <= r[i].now;
    hide After, Kept, Clocked;
    KeptStart(c, After(c, r[..i]), r[i].key, r[i].now);
  }

  lemma KeptNext(c: Config, r: Run, i: nat, m: nat)
    requires Clocked(r) && i < m < |r|
    requires Kept(c, After(c, r[..m]), r[i].key, r[i].now, OthersSince(c, r, i, m), r[m - 1].now)
    ensures Kept(c, After(c, r[..m + 1]), r[i].key, r[i].now, OthersSince(c, r, i, m + 1), r[m].now)
    ensures r[m].key == r[i].key && Accepts(c, r, m) ==>
              |OthersSince(c, r, i, m)| >= c.max || r[m].now - r[i].now >= c.ttl
  {
    var s, o, call := After(c, r[..m]), OthersSince(c, r, i, m), r[m];
    assert OthersSince(c, r, i, m + 1) == Others(c, s, r[i].key, o, call.key, call.now);
    AfterStep(c, r, m);
    RotatedBefore(c, r, m);
    ClockedAt(r, i, m - 1);
    ClockedAt(r, m - 1, m);
    hide After, Clocked, Kept, AddTo, Others, OthersSince;
    KeptStep(c, s, r[i].key, r[i].now, o, r[m - 1].now, call.key, call.now);
  }

  lemma {:induction false} KeptInRun(c: Config, r: Run, i: nat, m: nat)
    requires Clocked(r) && i <= m < |r| && Accepts(c, r, i)
    ensures Kept(c, After(c, r[..m + 1]), r[i].key, r[i].now, OthersSince(c, r, i, m + 1), r[m].now)
  {
    hide After, Accepts, Clocked, Kept, OthersSince;
    if m == i {
      KeptAtFirst(c, r, i);
      NoOthersYet(c, r, i);
    } else {
      KeptInRun(c, r, i, m - 1);
      assert r[..m - 1 + 1] == r[..m];
      KeptNext(c, r, i, m);
    }
  }

  /** Whole-run memory: a key accepted twice was forgotten in between, and that
      takes either the full ttl or `max` other keys. */
  lemma AcceptedAgain(c: Config, r: Run, i: nat, j: nat)
    requires Clocked(r) && i < j < |r| && r[i].key == r[j].key
    requires Accepts(c, r, i) && Accepts(c, r, j)
    ensures r[j].now - r[i].now >= c.ttl || |OthersSince(c, r, i, j)| >= c.max
  {
    hide After, Accepts, Clocked, Kept, OthersSince;
    KeptInRun(c, r, i, j - 1);
    assert r[..j - 1 + 1] == r[..j];
    KeptNext(c, r, i, j);
  }

  /** Does a call at `now` rotate only because the generation is full? */
  predicate FillRotation(c: Config, s: State, now: nat) {
    s.rotatedAt != 0 && now as int - s.rotatedAt < c.ttl && |s.cur| >= c.max
  }

  ghost predicate NoFill(c: Config, r: Run) {
    forall i :: 0 <= i < |r| ==> !FillRotation(c, After(c, r[..i]), r[i].now)
  }

  lemma {:induction false} FewKeys(c: Config, r: Run)
    ensures |After(c, r).cur| <= |r|
  {
    if r != [] {
      FewKeys(c, r[..|r| - 1]);
    }
  }

  /** A run too short to fill a generation. */
  lemma ShortRunsDoNotFill(c: Config, r: Run)
    requires |r| <= c.max
    ensures NoFill(c, r)
  {
    forall i | 0 <= i < |r| ensures !FillRotation(c, After(c, r[..i]), r[i].now) {
      FewKeys(c, r[..i]);
    }
  }

  predicate KeptByTime(c: Config, s: State, k: Key, at: nat, now: nat) {
    || (k in s.cur && s.rotatedAt <= at < s.rotatedAt + c.ttl)
    || (k in s.prev && at < s.rotatedAt)
    || now as int - at > c.ttl
  }

  lemma KeptByTimeStep(c: Config, s: State, k: Key, at: nat, before: nat, k': Key, now: nat)
    requires KeptByTime(c, s, k, at, before) && before <= now && c.ttl > 0
    requires 0 < s.rotatedAt <= before && at <= before && !FillRotation(c, s, now)
    ensures KeptByTime(c, AddTo(c, s, k', now).0, k, at, now)
    ensures k' == k && AddTo(c, s, k', now).1 ==> now - at > c.ttl
  {
  }

  lemma KeptByTimeStart(c: Config, s: State, k: Key, now: nat)
    requires AddTo(c, s, k, now).1 && 0 < now && s.rotatedAt <= now && c.ttl > 0
    ensures KeptByTime(c, AddTo(c, s, k, now).0, k, now, now)
  {
  }

  lemma KeptByTimeAtFirst(c: Config, r: Run, i: nat)
    requires Clocked(r) && c.ttl > 0 && i < |r| && Accepts(c, r, i)
    ensures KeptByTime(c, After(c, r[..i + 1]), r[i].key, r[i].now, r[i].now)
  {
    AfterStep(c, r, i);
    RotatedBefore(c, r, i);
    assert 0 < r[i].now && After(c, r[..i]).rotatedAt <= r[i].now;
    hide After, KeptByTime, Clocked;
    KeptByTimeStart(c, After(c, r[..i]), r[i].key, r[i].now);
  }

  lemma NoFillAt(c: Config, r: Run, i: nat)
    requires NoFill(c, r) && i < |r|
    ensures !FillRotation(c, After(c, r[..i]), r[i].now)
  {
  }

  lemma KeptByTimeNext(c: Config, r: Run, i: nat, m: nat)
    requires Clocked(r) && NoFill(c, r) && c.ttl > 0 && i < m < |r|
    requires KeptByTime(c, After(c, r[..m]), r[i].key, r[i].now, r[m - 1].now)
    ensures KeptByTime(c, After(c, r[..m + 1]), r[i].key, r[i].now, r[m].now)
    ensures r[m].key == r[i].key && Accepts(c, r, m) ==> r[m].now - r[i].now > c.ttl
  {
    var s, call := After(c, r[..m]), r[m];
    AfterStep(c, r, m);
    RotatedBefore(c, r, m);
    NoFillAt(c, r, m);
    ClockedAt(r, i, m - 1);
    ClockedAt(r, m - 1, m);
    hide After, Clocked, NoFill, FillRotation, KeptByTime, AddTo;
    KeptByTimeStep(c, s, r[i].key, r[i].now, r[m - 1].now, call.key, call.now);
  }

  lemma {:induction false} KeptByTimeInRun(c: Config, r: Run, i: nat, m: nat)
    requires Clocked(r) && NoFill(c, r) && c.ttl > 0
    requires i <= m < |r| && Accepts(c, r, i)
    ensures KeptByTime(c, After(c, r[..m + 1]), r[i].key, r[i].now, r[m].now)
  {
    hide After, Accepts, Clocked, NoFill, KeptByTime;
    if m == i {
      KeptByTimeAtFirst(c, r, i);
    } else {
      KeptByTimeInRun(c, r, i, m - 1);
      assert r[..m - 1 + 1] == r[..m];
      KeptByTimeNext(c, r, i, m);
    }
  }

  /** With no generation filling up, a key is still known at exactly ttl. */
  lemma AcceptedAgainByTime(c: Config, r: Run, i: nat, j: nat)
    requires Clocked(r) && NoFill(c, r) && c.ttl > 0
    requires i < j < |r| && r[i].key == r[j].key && Accepts(c, r, i) && Accepts(c, r, j)
    ensures r[j].now - r[i].now > c.ttl
  {
    hide After, Accepts, Clocked, NoFill, KeptByTime;
    KeptByTimeInRun(c, r, i, j - 1);
    assert r[..j - 1 + 1] == r[..j];
    KeptByTimeNext(c, r, i, j);
  }

  /******* How long a key can be remembered *******/

  /** Successive calls come at most `gap` ticks apart. */
  ghost predicate Gaps(r: Run, gap: nat) {
    forall i :: 0 < i < |r| ==> r[i].now - r[i - 1].now <= gap
  }

  function Min(a: int, b: int): int { if a <= b then a else b }

  /** Ticks a generation can be current before time rotates it out. */
  function Lifetime(c: Config, gap: nat): int {
    Min(2 * c.ttl, c.ttl + gap) - 1
  }

  /** Some earlier call accepted `k`, not before `since`. */
  ghost predicate AcceptedSince(c: Config, r: Run, k: Key, since: int) {
    exists i :: 0 <= i < |r| && r[i].key == k && Accepts(c, r, i) && r[i].now >= since
  }

  lemma AcceptedSinceExtends(c: Config, r: Run, k: Key, since: int, call: Call)
    requires AcceptedSince(c, r, k, since)
    ensures AcceptedSince(c, r + [call], k, since)
  {
    var i :| 0 <= i < |r| && r[i].key == k && Accepts(c, r, i) && r[i].now >= since;
    assert (r + [call])[..i] == r[..i];
    assert Accepts(c, r + [call], i);
  }

  ghost predicate Aged(c: Config, r: Run, s: State, gap: nat) {
    && (forall k :: k in s.cur ==> AcceptedSince(c, r, k, s.rotatedAt))
    && (forall k :: k in s.prev ==> AcceptedSince(c, r, k, s.rotatedAt - Lifetime(c, gap)))
    && (r != [] ==> r[|r| - 1].now - s.rotatedAt < c.ttl)
  }

  lemma AcceptedSinceWeakens(c: Config, r: Run, k: Key, since: int, since': int)
    requires AcceptedSince(c, r, k, since) && since' <= since
    ensures AcceptedSince(c, r, k, since')
  {
  }

  /** A rotation drops the older generation or turns the newer one into it,
      within the lifetime of a generation. */
  lemma RotationShape(c: Config, s0: State, last: nat, gap: nat, now: nat)
    requires c.ttl > 0 && s0.rotatedAt <= last <= now <= last + gap && last - s0.rotatedAt < c.ttl
    requires 0 < s0.rotatedAt
    ensures var s := Rotated(c, s0, now);
            && now - s.rotatedAt < c.ttl
            && (s == s0 || (s.cur == {} && (s.prev == {} ||
                 (s.prev == s0.cur && s0.rotatedAt >= s.rotatedAt - Lifetime(c, gap)))))
  {
  }

  lemma RotatedAged(c: Config, r: Run, gap: nat, now: nat)
    requires c.ttl > 0 && Aged(c, r, After(c, r), gap)
    requires r != [] ==> r[|r| - 1].now <= now <= r[|r| - 1].now + gap
    requires Clocked(r) && 0 < now
    ensures Aged'(c, r, Rotated(c, After(c, r), now), gap, now)
  {
    RotatedInPast(c, r);
    if r != [] {
      var s0, s := After(c, r), Rotated(c, After(c, r), now);
      RotationShape(c, s0, r[|r| - 1].now, gap, now);
      hide Rotated, After, Lifetime, AcceptedSince;
      forall k | k in s.prev ensures AcceptedSince(c, r, k, s.rotatedAt - Lifetime(c, gap)) {
        if s != s0 {
          AcceptedSinceWeakens(c, r, k, s0.rotatedAt, s.rotatedAt - Lifetime(c, gap));
        }
      }
    }
  }

  ghost predicate Aged'(c: Config, r: Run, s: State, gap: nat, now: nat) {
    && (forall k :: k in s.cur ==> AcceptedSince(c, r, k, s.rotatedAt))
    && (forall k :: k in s.prev ==> AcceptedSince(c, r, k, s.rotatedAt - Lifetime(c, gap)))
    && now - s.rotatedAt < c.ttl
  }

  lemma AcceptedNow(c: Config, r: Run, call: Call, since: int)
    requires AddTo(c, After(c, r), call.key, call.now).1 && call.now >= since
    ensures AcceptedSince(c, r + [call], call.key, since)
  {
    var r' := r + [call];
    assert r'[..|r|] == r;
    assert r'[|r|] == call && Accepts(c, r', |r|);
  }

  lemma AddAged(c: Config, r: Run, gap: nat, call: Call)
    requires c.ttl > 0 && Rotated(c, After(c, r), call.now).rotatedAt <= call.now
    requires Aged'(c, r, Rotated(c, After(c, r), call.now), gap, call.now)
    ensures Aged(c, r + [call], AddTo(c, After(c, r), call.key, call.now).0, gap)
  {
    var r' := r + [call];
    var s, s' := Rotated(c, After(c, r), call.now), AddTo(c, After(c, r), call.key, call.now).0;
    assert r'[|r'| - 1] == call;
    hide Rotated, After, Lifetime, AcceptedSince;
    forall k | k in s'.cur ensures AcceptedSince(c, r', k, s'.rotatedAt) {
      if k in s.cur {
        AcceptedSinceExtends(c, r, k, s.rotatedAt, call);
      } else {
        AcceptedNow(c, r, call, s'.rotatedAt);
      }
    }
    forall k | k in s'.prev ensures AcceptedSince(c, r', k, s'.rotatedAt - Lifetime(c, gap)) {
      AcceptedSinceExtends(c, r, k, s.rotatedAt - Lifetime(c, gap), call);
    }
  }

  lemma RotatedNotLater(c: Config, r: Run, now: nat)
    requires Clocked(r) && (r != [] ==> r[|r| - 1].now <= now)
    ensures Rotated(c, After(c, r), now).rotatedAt <= now
  {
    RotatedInPast(c, r);
  }

  lemma LastStep(c: Config, r: Run)
    requires r != []
    ensures var last := r[|r| - 1]; After(c, r) == AddTo(c, After(c, r[..|r| - 1]), last.key, last.now).0
  {
  }

  lemma PrefixGaps(r: Run, gap: nat)
    requires Clocked(r) && Gaps(r, gap) && r != []
    ensures var r0, now := r[..|r| - 1], r[|r| - 1].now;
            Clocked(r0) && Gaps(r0, gap) && 0 < now && (r0 != [] ==> r0[|r0| - 1].now <= now <= r0[|r0| - 1].now + gap)
  {
  }

  lemma NothingAged(c: Config, gap: nat)
    ensures Aged(c, [], After(c, []), gap)
  {
  }

  lemma {:induction false} AgedInRun(c: Config, r: Run, gap: nat)
    requires Clocked(r) && Gaps(r, gap) && c.ttl > 0
    ensures Aged(c, r, After(c, r), gap)
  {
    hide After, Aged, Aged', AddTo, Clocked, Gaps;
    if r == [] {
      NothingAged(c, gap);
    } else {
      var r0, last := r[..|r| - 1], r[|r| - 1];
      LastStep(c, r);
      PrefixGaps(r, gap);
      AgedInRun(c, r0, gap);
      RotatedAged(c, r0, gap, last.now);
      RotatedNotLater(c, r0, last.now);
      AddAged(c, r0, gap, last);
      assert r == r0 + [last];
    }
  }

  /** Was call `j`'s key accepted at most `limit` ticks before? */
  ghost predicate KnownFor(c: Config, r: Run, j: nat, limit: int)
    requires j < |r|
  {
    exists i :: 0 <= i < j && r[i].key == r[j].key && Accepts(c, r, i) && r[j].now - r[i].now <= limit
  }

  /** A key is rejected only for a bounded time after an acceptance: less than
      3 ttl whatever the traffic, and near 2 ttl when calls are frequent. */
  lemma RejectedAge(c: Config, r: Run, j: nat, gap: nat)
    requires Clocked(r) && Gaps(r, gap) && c.ttl > 0 && j < |r| && !Accepts(c, r, j)
    ensures KnownFor(c, r, j, Min(3 * c.ttl, 2 * c.ttl + gap) - 2)
  {
    var r0 := r[..j];
    var k, now := r[j].key, r[j].now;
    var s := Rotated(c, After(c, r0), now);
    assert k in s.cur || k in s.prev;
    assert Clocked(r0) && Gaps(r0, gap) && (r0 != [] ==> r[j].now - r[j - 1].now <= gap);
    hide After, Rotated;
    AgedInRun(c, r0, gap);
    RotatedAged(c, r0, gap, now);
    AcceptedSincePrefix(c, r, j, k, if k in s.cur then s.rotatedAt else s.rotatedAt - Lifetime(c, gap));
  }

  lemma AcceptedSincePrefix(c: Config, r: Run, j: nat, k: Key, since: int)
    requires j <= |r| && AcceptedSince(c, r[..j], k, since)
    ensures exists i :: 0 <= i < j && r[i].key == k && Accepts(c, r, i) && r[i].now >= since
  {
    var i :| 0 <= i < j && r[..j][i].key == k && Accepts(c, r[..j], i) && r[..j][i].now >= since;
    assert r[..j][..i] == r[..i];
    assert Accepts(c, r, i);
  }

  /** The promise of the package comment, for calls at most `gap` ticks apart:
      no key is remembered longer than 2 ttl. */
  ghost predicate PromisesTwice(c: Config, gap: nat) {
    forall r: Run, j: nat | Clocked(r) && Gaps(r, gap) && j < |r| && !Accepts(c, r, j) ::
      KnownFor(c, r, j, 2 * c.ttl)
  }

  /** One key asked for at every tick, but for one pause of `pause` ticks just
      before its generation is due to rotate. */
  function PausedRun(k: Key, ttl: nat, pause: nat, n: nat): (r: Run)
    ensures |r| == n
    ensures forall i :: 0 <= i < n ==> r[i] == Call(k, if i < ttl then i + 1 else i + pause)
  {
    seq(n, i requires 0 <= i => Call(k, if i < ttl then i + 1 else i + pause))
  }

  /** The set along that run, in closed form. */
  function PausedAfter(c: Config, k: Key, pause: nat, n: nat): State {
    if n == 0 then EMPTY
    else if n <= c.ttl then State({k}, {}, 1)
    else State({}, {k}, c.ttl + pause)
  }

  lemma {:induction false} PausedState(c: Config, k: Key, pause: nat, n: nat)
    requires c.max >= 2 && 3 <= pause <= c.ttl && n <= 2 * c.ttl
    ensures After(c, PausedRun(k, c.ttl, pause, n)) == PausedAfter(c, k, pause, n)
  {
    hide After, AddTo, PausedAfter, PausedRun;
    if n > 0 {
      var r := PausedRun(k, c.ttl, pause, n);
      PausedState(c, k, pause, n - 1);
      AfterStep(c, r, n - 1);
      assert r[..n - 1] == PausedRun(k, c.ttl, pause, n - 1);
      assert r[..n - 1 + 1] == r;
      PausedStep(c, k, pause, n);
    } else {
      NotPaused(c, k, pause);
    }
  }

  lemma NotPaused(c: Config, k: Key, pause: nat)
    ensures After(c, PausedRun(k, c.ttl, pause, 0)) == PausedAfter(c, k, pause, 0)
  {
  }

  lemma PausedStep(c: Config, k: Key, pause: nat, n: nat)
    requires c.max >= 2 && 3 <= pause <= c.ttl && 0 < n <= 2 * c.ttl
    ensures var now := if n <= c.ttl then n else n - 1 + pause;
            AddTo(c, PausedAfter(c, k, pause, n - 1), k, now).0 == PausedAfter(c, k, pause, n)
  {
  }

  lemma PausedRunBreaks(c: Config, k: Key, pause: nat)
    requires c.max >= 2 && 3 <= pause <= c.ttl
    ensures var r, j := PausedRun(k, c.ttl, pause, 2 * c.ttl), 2 * c.ttl - 1;
            Clocked(r) && Gaps(r, pause) && !Accepts(c, r, j) && !KnownFor(c, r, j, 2 * c.ttl)
  {
    var n := 2 * c.ttl;
    var r := PausedRun(k, c.ttl, pause, n);
    forall i | 0 <= i < n ensures Accepts(c, r, i) <==> i == 0 {
      assert r[..i] == PausedRun(k, c.ttl, pause, i);
      PausedState(c, k, pause, i);
    }
  }

  lemma KnownLonger(c: Config, r: Run, j: nat, limit: int, more: int)
    requires j < |r| && limit <= more && KnownFor(c, r, j, limit)
    ensures KnownFor(c, r, j, more)
  {
    hide Accepts;
  }

  lemma GapsWiden(r: Run, pause: nat, gap: nat)
    requires pause <= gap && Gaps(r, pause)
    ensures Gaps(r, gap)
  {
  }

  /** The comment's bound holds exactly when calls are at most two ticks apart,
      or the ttl is itself at most two ticks. */
  lemma PromiseExact(c: Config, gap: nat)
    requires c.ttl > 0 && c.max >= 2
    ensures PromisesTwice(c, gap) <==> gap <= 2 || c.ttl <= 2
  {
    hide KnownFor, Clocked, Gaps, Accepts, PausedRun;
    if gap <= 2 || c.ttl <= 2 {
      forall r: Run, j: nat | Clocked(r) && Gaps(r, gap) && j < |r| && !Accepts(c, r, j)
        ensures KnownFor(c, r, j, 2 * c.ttl)
      {
        RejectedAge(c, r, j, gap);
        KnownLonger(c, r, j, Min(3 * c.ttl, 2 * c.ttl + gap) - 2, 2 * c.ttl);
      }
    } else {
      var pause := Min(gap, c.ttl);
      PausedRunBreaks(c, "k", pause);
      GapsWiden(PausedRun("k", c.ttl, pause, 2 * c.ttl), pause, gap);
    }
  }
}
