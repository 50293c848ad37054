/**
 A run of requests as a run of calls to one of the instance's sets: some requests
 bring a key, the others do not touch the set.
 */
module SetRuns {
  import opened Text
  import opened Handlers
  import TtlSet

  /** The key request `i` brings to a set, if any. */
  type KeyAt = nat -> Option<string>

  ghost predicate Clocked(run: Run) {
    && (forall i :: 0 <= i < |run| ==> 0 < run[i].now)
    && (forall i, j :: 0 <= i < j < |run| ==> run[i].now <= run[j].now)
  }

  /** A set after a request that brought a key, or none. */
  function SetAfter(c: TtlSet.Config, s: TtlSet.State, key: Option<string>, now: nat): TtlSet.State {
    match key
    case None => s
    case Some(k) => TtlSet.AddTo(c, s, k, now).0
  }

  function CallOf(key: Option<string>, now: nat): TtlSet.Run {
    match key
    case None => []
    case Some(k) => [TtlSet.Call(k, now)]
  }

  /** The calls the first `n` requests make. */
  function Calls(keys: KeyAt, run: Run, n: nat): TtlSet.Run
    requires n <= |run|
  {
    if n == 0 then [] else Calls(keys, run, n - 1) + CallOf(keys(n - 1), run[n - 1].now)
  }

  lemma {:induction false} FewCalls(keys: KeyAt, run: Run, n: nat)
    requires n <= |run|
    ensures |Calls(keys, run, n)| <= n
  {
    if n > 0 {
      FewCalls(keys, run, n - 1);
    }
  }

  lemma LastCall(c: TtlSet.Config, calls: TtlSet.Run, key: Option<string>, now: nat)
    ensures TtlSet.After(c, calls + CallOf(key, now)) == SetAfter(c, TtlSet.After(c, calls), key, now)
  {
    var more := CallOf(key, now);
    if key.Some? {
      assert (calls + more)[..|calls|] == calls;
    } else {
      assert calls + more == calls;
    }
    hide TtlSet.AddTo;
  }

  lemma {:induction false} CallsExtend(keys: KeyAt, run: Run, m: nat, n: nat)
    requires m <= n <= |run|
    ensures |Calls(keys, run, m)| <= |Calls(keys, run, n)|
    ensures Calls(keys, run, n)[..|Calls(keys, run, m)|] == Calls(keys, run, m)
  {
    if m < n {
      CallsExtend(keys, run, m, n - 1);
      StillPrefix(Calls(keys, run, m), Calls(keys, run, n - 1), CallOf(keys(n - 1), run[n - 1].now));
    }
  }

  lemma CallsLonger(keys: KeyAt, run: Run, m: nat, n: nat)
    requires m <= n <= |run|
    ensures |Calls(keys, run, m)| <= |Calls(keys, run, n)|
  {
    CallsExtend(keys, run, m, n);
  }

  lemma StillPrefix(mine: TtlSet.Run, calls: TtlSet.Run, more: TtlSet.Run)
    requires |mine| <= |calls| && calls[..|mine|] == mine
    ensures (calls + more)[..|mine|] == mine
  {
  }

  lemma {:induction false} CallsClocked(keys: KeyAt, run: Run, n: nat)
    requires n <= |run| && Clocked(run)
    ensures TtlSet.Clocked(Calls(keys, run, n))
    ensures forall k :: 0 <= k < |Calls(keys, run, n)| ==> 0 < n && Calls(keys, run, n)[k].now <= run[n - 1].now
  {
    if n > 0 {
      hide CallOf, TtlSet.Clocked;
      CallsClocked(keys, run, n - 1);
      assert n >= 2 ==> run[n - 2].now <= run[n - 1].now;
      ClockedCall(Calls(keys, run, n - 1), keys(n - 1), run[n - 1].now);
    }
  }

  lemma AllClocked(keys: KeyAt, run: Run)
    requires Clocked(run)
    ensures TtlSet.Clocked(Calls(keys, run, |run|))
  {
    hide *;
    CallsClocked(keys, run, |run|);
  }

  lemma ClockedCall(calls: TtlSet.Run, key: Option<string>, now: nat)
    requires TtlSet.Clocked(calls) && now > 0 && forall k :: 0 <= k < |calls| ==> calls[k].now <= now
    ensures var all := calls + CallOf(key, now);
            TtlSet.Clocked(all) && forall k :: 0 <= k < |all| ==> all[k].now <= now
  {
  }

  /** Request `i` brought this key and the set took it. */
  ghost predicate Takes(c: TtlSet.Config, keys: KeyAt, run: Run, i: nat, key: string)
    requires i < |run|
  {
    keys(i) == Some(key) && TtlSet.AddTo(c, TtlSet.After(c, Calls(keys, run, i)), key, run[i].now).1
  }

  /** Where such a request's call stands among all calls, and that it was accepted. */
  lemma TakenIsCall(c: TtlSet.Config, keys: KeyAt, run: Run, i: nat, key: string)
    requires i < |run| && Takes(c, keys, run, i, key)
    ensures var calls, k := Calls(keys, run, |run|), |Calls(keys, run, i)|;
            && k < |Calls(keys, run, i + 1)| <= |calls|
            && calls[k] == TtlSet.Call(key, run[i].now)
            && TtlSet.Accepts(c, calls, k)
  {
    hide Calls, TtlSet.AddTo, TtlSet.After;
    CallAt(keys, run, i, key);
  }

  lemma CallAt(keys: KeyAt, run: Run, i: nat, key: string)
    requires i < |run| && keys(i) == Some(key)
    ensures var calls, mine := Calls(keys, run, |run|), Calls(keys, run, i);
            && |mine| < |Calls(keys, run, i + 1)| <= |calls|
            && calls[..|mine|] == mine && calls[|mine|] == TtlSet.Call(key, run[i].now)
  {
    var calls, mine := Calls(keys, run, |run|), Calls(keys, run, i);
    assert Calls(keys, run, i + 1) == mine + [TtlSet.Call(key, run[i].now)];
    hide Calls;
    CallsExtend(keys, run, i + 1, |run|);
    PrefixThen(calls, mine, TtlSet.Call(key, run[i].now));
  }

  lemma PrefixThen(calls: TtlSet.Run, mine: TtlSet.Run, call: TtlSet.Call)
    requires |mine| < |calls| && calls[..|mine| + 1] == mine + [call]
    ensures calls[..|mine|] == mine && calls[|mine|] == call
  {
    assert calls[..|mine|] == calls[..|mine| + 1][..|mine|];
    assert calls[|mine|] == calls[..|mine| + 1][|mine|];
  }

  /** Two calls a set may take the same key in, `gap` ticks apart. */
  ghost predicate Apart(c: TtlSet.Config, calls: TtlSet.Run, k: nat, l: nat, gap: int)
    requires k < l < |calls|
  {
    && (gap >= c.ttl || |TtlSet.OthersSince(c, calls, k, l)| >= c.max)
    && (TtlSet.NoFill(c, calls) ==> gap > c.ttl)
  }

  /** A set takes a key a second time only after its ttl, or after a full
      generation of other keys. */
  lemma TakenAgain(c: TtlSet.Config, keys: KeyAt, run: Run, i: nat, j: nat, key: string)
    requires Clocked(run) && i < j < |run| && c.ttl > 0
    requires Takes(c, keys, run, i, key) && Takes(c, keys, run, j, key)
    ensures |Calls(keys, run, i)| < |Calls(keys, run, j)| < |Calls(keys, run, |run|)|
    ensures Apart(c, Calls(keys, run, |run|), |Calls(keys, run, i)|, |Calls(keys, run, j)|, run[j].now - run[i].now)
  {
    hide *;
    TakenIsCall(c, keys, run, i, key);
    TakenIsCall(c, keys, run, j, key);
    CallsLonger(keys, run, i + 1, j);
    AllClocked(keys, run);
    AgainInSet(c, Calls(keys, run, |run|), |Calls(keys, run, i)|, |Calls(keys, run, j)|, key, run[i].now, run[j].now);
  }

  lemma AgainInSet(c: TtlSet.Config, calls: TtlSet.Run, k: nat, l: nat, key: string, first: nat, again: nat)
    requires TtlSet.Clocked(calls) && c.ttl > 0 && k < l < |calls|
    requires calls[k] == TtlSet.Call(key, first) && calls[l] == TtlSet.Call(key, again)
    requires TtlSet.Accepts(c, calls, k) && TtlSet.Accepts(c, calls, l)
    ensures Apart(c, calls, k, l, again - first)
  {
    hide TtlSet.Accepts, TtlSet.OthersSince, TtlSet.NoFill, TtlSet.Clocked;
    TtlSet.AcceptedAgain(c, calls, k, l);
    if TtlSet.NoFill(c, calls) {
      TtlSet.AcceptedAgainByTime(c, calls, k, l);
    }
  }
}
