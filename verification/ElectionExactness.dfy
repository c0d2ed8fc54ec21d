/**
  The lease duration that safety needs is exact: when it falls short by any amount, some run of
  two candidates has both leading. The validator alone (`renew < lease`) does not prevent it.
 */
module ElectionExactness {
  import opened Wrappers
  import opened Leases
  import opened Numbers
  import opened ElectionProtocol
  import opened ElectionLineage
  import opened ElectionSafety

  lemma Then(p: Params, ids: set<Identity>, s: State, a: Action)
    requires Reachable(p, ids, s) && Enabled(p, s, a)
    ensures Reachable(p, ids, Next(p, s, a))
  {
    var s0, actions :| Init(ids, s0) && Run(p, s0, actions, s);
    assert Run(p, Next(p, s, a), [], Next(p, s, a));
    assert [a][1..] == [];
    assert Run(p, s, [a], Next(p, s, a));
    RunConcat(p, s0, actions, s, [a], Next(p, s, a));
  }

  /** A reachable state in which only `a` and `b` have moved. */
  ghost predicate Scene(p: Params, ids: set<Identity>, a: Identity, b: Identity, s: State) {
    && Reachable(p, ids, s)
    && a != b && a in s.cands && b in s.cands
    && forall c | c in s.cands && c != a && c != b :: s.cands[c] == FRESH
  }

  lemma Play(p: Params, ids: set<Identity>, a: Identity, b: Identity, s: State, act: Action)
    requires Scene(p, ids, a, b, s) && Enabled(p, s, act)
    requires act.Tick? || Actor(act) == Some(a) || Actor(act) == Some(b)
    ensures Scene(p, ids, a, b, Next(p, s, act))
    ensures Actor(act) != Some(a) ==> Next(p, s, act).cands[a] == s.cands[a]
    ensures Actor(act) != Some(b) ==> Next(p, s, act).cands[b] == s.cands[b]
    ensures !act.Tick? ==> Next(p, s, act).now == s.now
  {
    var t := Next(p, s, act);
    Then(p, ids, s, act);
    NextExtends(p, s, act);
    forall c | c in s.cands && Actor(act) != Some(c) ensures t.cands[c] == s.cands[c] {
      OthersUntouched(p, s, act, c);
    }
    if !act.Tick? {
      ClockStands(p, s, act);
    }
  }

  lemma Wait(p: Params, ids: set<Identity>, a: Identity, b: Identity, s: State, to: real) returns (t: State)
    requires Scene(p, ids, a, b, s) && s.now <= to
    requires MayLast(p, s.cands[a], to) && MayLast(p, s.cands[b], to)
    ensures Scene(p, ids, a, b, t) && t == s.(now := to)
  {
    forall c | c in s.cands ensures MayLast(p, s.cands[c], to) {}
    Play(p, ids, a, b, s, Tick(to));
    t := Next(p, s, Tick(to));
  }

  /** `b` has seen the record of version 0, held by `a`, at local time 0. */
  ghost predicate Watching(p: Params, a: Identity, b: Identity, s: State) {
    && a in s.cands && b in s.cands
    && |s.log| == 1 && s.log[0].lease == Stored(CreateBody(a, p.lease, 0), 0)
    && !s.cands[b].stop && !s.cands[b].leading
    && s.cands[b].phase == Resting(p.attempt + p.retry)
    && s.cands[b].sight == Sight(Some(KeyOf(s.log[0].lease, p.lease)), 0.0)
  }

  ghost predicate Leading(a: Identity, s: State) {
    a in s.cands && s.cands[a].leading && !s.cands[a].stop
  }

  /** `b` begins an attempt; one attempt bound later `a` begins one and creates the Lease. */
  lemma Creating(p: Params, ids: set<Identity>, a: Identity, b: Identity) returns (s: State)
    requires WellFormed(p) && a in ids && b in ids && a != b && "" !in ids
    ensures Scene(p, ids, a, b, s) && s.now == p.attempt
    ensures s.log == [Commit(Stored(CreateBody(a, p.lease, 0), 0),
                             Some(Request(a, Creation, None, CreateBody(a, p.lease, 0), 0, s.now, s.now)), s.now)]
    ensures s.cands[b] == FRESH.(phase := Acquiring(Unread(0.0, 0)))
    ensures s.cands[a] == FRESH.(phase := Acquiring(Landed(s.log[0].via.value, 0)))
  {
    s := State(0.0, [], {}, map c | c in ids :: FRESH, {});
    assert Init(ids, s) && Run(p, s, [], s);
    Play(p, ids, a, b, s, BeginAcquire(b, 0));
    s := Next(p, s, BeginAcquire(b, 0));
    s := Wait(p, ids, a, b, s, p.attempt);
    Play(p, ids, a, b, s, BeginAcquire(a, 0));
    s := Next(p, s, BeginAcquire(a, 0));
    Play(p, ids, a, b, s, ReadLease(a));
    s := Next(p, s, ReadLease(a));
    Play(p, ids, a, b, s, Land(a));
    s := Next(p, s, Land(a));
  }

  /** `b` reads the new record in that attempt, so its observation is stamped 0. */
  lemma Opening(p: Params, ids: set<Identity>, a: Identity, b: Identity) returns (s: State)
    requires WellFormed(p) && a in ids && b in ids && a != b && "" !in ids
    ensures Scene(p, ids, a, b, s) && Watching(p, a, b, s) && s.now == p.attempt
    ensures var d := s.cands[a];
            !d.stop && !d.leading && d.phase.Acquiring? && d.phase.call.Landed?
            && d.phase.call.version == 0 && d.phase.call.Start() == p.attempt
  {
    var s1 := Creating(p, ids, a, b);
    assert a != "" && Foreign(Last(s1.log).lease, b);
    Play(p, ids, a, b, s1, ReadLease(b));
    s := Next(p, s1, ReadLease(b));
    assert s.cands[b] == ReadToAcquire(p, s1, b, s1.cands[b]);
  }

  /** `a` learns of its Lease as late as it may, and its callback lasts as long as it may. */
  lemma FirstTerm(p: Params, ids: set<Identity>, a: Identity, b: Identity) returns (s: State)
    requires WellFormed(p) && a in ids && b in ids && a != b && "" !in ids
    ensures Scene(p, ids, a, b, s) && Watching(p, a, b, s) && Leading(a, s)
    ensures s.now == 2.0 * p.attempt + p.callback
    ensures s.cands[a].phase == Pausing(s.now, s.now) && s.cands[a].deadline == s.now + p.renew
  {
    s := Opening(p, ids, a, b);
    s := Wait(p, ids, a, b, s, 2.0 * p.attempt);
    Play(p, ids, a, b, s, Learn(a, true));
    s := Next(p, s, Learn(a, true));
    s := Wait(p, ids, a, b, s, 2.0 * p.attempt + p.callback);
    Play(p, ids, a, b, s, CallbackReturns(a));
    s := Next(p, s, CallbackReturns(a));
  }

  /** A renew attempt of `a` that has begun and not read yet. */
  lemma Begin(p: Params, ids: set<Identity>, a: Identity, b: Identity, s: State) returns (t: State)
    requires Scene(p, ids, a, b, s) && Watching(p, a, b, s) && Leading(a, s)
    requires s.cands[a].phase.Pausing? && s.cands[a].phase.earliest <= s.now
    ensures Scene(p, ids, a, b, t) && Watching(p, a, b, t) && Leading(a, t) && t.now == s.now
    ensures t.cands[a] == s.cands[a].(phase := Renewing(Unread(s.now, 0)))
  {
    Play(p, ids, a, b, s, BeginRenew(a, 0));
    t := Next(p, s, BeginRenew(a, 0));
  }

  /** Its read fails before the deadline, so `a` waits and retries. */
  lemma Fail(p: Params, ids: set<Identity>, a: Identity, b: Identity, s: State) returns (t: State)
    requires Scene(p, ids, a, b, s) && Watching(p, a, b, s) && Leading(a, s)
    requires s.cands[a].phase.Renewing? && s.cands[a].phase.call.Unread? && s.now < s.cands[a].deadline
    ensures Scene(p, ids, a, b, t) && Watching(p, a, b, t) && Leading(a, t) && t.now == s.now
    ensures t.cands[a] == s.cands[a].(phase := Pausing(s.now + p.retry, s.now + p.pause))
  {
    Play(p, ids, a, b, s, ReadFails(a));
    t := Next(p, s, ReadFails(a));
  }

  /** The last of `k + 1` failing attempts, the first begun now, ends between these two times from now. */
  function Soonest(p: Params, k: nat): real { k as real * p.retry }

  function Latest(p: Params, k: nat): real { k as real * p.pause + (k + 1) as real * p.attempt }

  lemma OneAttemptLess(p: Params, k: nat)
    requires k > 0
    ensures Soonest(p, k) == Soonest(p, k - 1) + p.retry
    ensures Latest(p, k) == Latest(p, k - 1) + p.pause + p.attempt
    ensures WellFormed(p) ==> Soonest(p, k - 1) <= Latest(p, k - 1)
  {
    assert k as real == (k - 1) as real + 1.0;
    if WellFormed(p) {
      assert (k - 1) as real * (p.pause - p.retry) >= 0.0;
      assert k as real * p.attempt >= 0.0;
    }
  }

  /**
    Failing attempts can be spread so that the last of some number of them ends at any moment
    just before the renew deadline.
   */
  ghost predicate Fills(p: Params, k: nat) { Soonest(p, k) < p.renew <= Latest(p, k) }

  /** Attempts at least as long as the retry period do. */
  lemma LongAttemptsFill(p: Params, k: nat) returns (j: nat)
    requires WellFormed(p) && p.retry <= p.attempt && Soonest(p, k) < p.renew
    ensures Fills(p, j)
    decreases (p.renew - Soonest(p, k)).Floor
  {
    if p.renew <= Latest(p, k) {
      j := k;
    } else {
      OneAttemptLess(p, k + 1);
      var n := (k + 1) as real;
      Product(k as real, p.pause);
      Product(n, p.attempt - p.retry);
      assert n * (p.attempt - p.retry) == n * p.attempt - n * p.retry;
      assert Soonest(p, k + 1) <= Latest(p, k);
      j := LongAttemptsFill(p, k + 1);
    }
  }

  /** With every renewal failing, the last of `k + 1` attempts can end at any moment `x` in their range. */
  lemma {:induction false} FailAt(p: Params, ids: set<Identity>, a: Identity, b: Identity, s: State, k: nat, x: real)
    returns (t: State)
    requires WellFormed(p) && Scene(p, ids, a, b, s) && Watching(p, a, b, s) && Leading(a, s)
    requires s.cands[a].phase.Pausing? && s.cands[a].phase.earliest <= s.now <= s.cands[a].phase.latest
    requires s.now + Soonest(p, k) <= x <= s.now + Latest(p, k) && x < s.cands[a].deadline
    ensures Scene(p, ids, a, b, t) && Watching(p, a, b, t) && Leading(a, t) && t.now == x
    ensures t.cands[a].phase == Pausing(x + p.retry, x + p.pause)
    ensures t.cands[a].deadline == s.cands[a].deadline
    decreases k
  {
    t := Begin(p, ids, a, b, s);
    if k == 0 {
      t := Wait(p, ids, a, b, t, x);
      t := Fail(p, ids, a, b, t);
    } else {
      OneAttemptLess(p, k);
      var gap := Larger(p.retry, x - s.now - Latest(p, k - 1));
      var lasts := Larger(0.0, gap - p.pause);
      t := Wait(p, ids, a, b, t, s.now + lasts);
      t := Fail(p, ids, a, b, t);
      t := Wait(p, ids, a, b, t, s.now + gap);
      t := FailAt(p, ids, a, b, t, k - 1, x);
    }
  }

  /** So `a` can still lead at any later moment before its deadline plus one wait and one attempt. */
  lemma Linger(p: Params, ids: set<Identity>, a: Identity, b: Identity, s: State, k: nat, n: real) returns (t: State)
    requires WellFormed(p) && Fills(p, k)
    requires Scene(p, ids, a, b, s) && Watching(p, a, b, s) && Leading(a, s)
    requires s.cands[a].phase.Pausing? && s.cands[a].phase.earliest <= s.now <= s.cands[a].phase.latest
    requires s.cands[a].deadline == s.now + p.renew
    requires s.now + Soonest(p, k) <= n < s.cands[a].deadline + p.pause + p.attempt
    ensures Scene(p, ids, a, b, t) && Watching(p, a, b, t) && Leading(a, t) && t.now == n
  {
    var x := Larger(s.now + Soonest(p, k), n - p.pause - p.attempt);
    t := FailAt(p, ids, a, b, s, k, x);
    if n <= x + p.pause {
      t := Wait(p, ids, a, b, t, n);
    } else {
      t := Wait(p, ids, a, b, t, x + p.pause);
      t := Begin(p, ids, a, b, t);
      t := Wait(p, ids, a, b, t, n);
    }
  }

  /** Once its observation has run out, `b` takes the Lease in one stroke. */
  lemma Takeover(p: Params, ids: set<Identity>, a: Identity, b: Identity, s: State) returns (t: State)
    requires WellFormed(p) && Scene(p, ids, a, b, s) && Watching(p, a, b, s) && Leading(a, s)
    requires s.now >= p.lease && s.now >= p.attempt + p.retry
    ensures Scene(p, ids, a, b, t) && Leading(a, t) && Leading(b, t)
  {
    Play(p, ids, a, b, s, BeginAcquire(b, 0));
    t := Next(p, s, BeginAcquire(b, 0));
    Play(p, ids, a, b, t, ReadLease(b));
    t := Next(p, t, ReadLease(b));
    Play(p, ids, a, b, t, Land(b));
    t := Next(p, t, Land(b));
    Play(p, ids, a, b, t, Learn(b, true));
    t := Next(p, t, Learn(b, true));
  }

  /** A lease that is too short lets two candidates lead. */
  lemma TwoLeaders(p: Params, ids: set<Identity>, a: Identity, b: Identity, k: nat) returns (t: State)
    requires WellFormed(p) && Fills(p, k) && !Covers(p)
    requires a in ids && b in ids && a != b && "" !in ids
    ensures Reachable(p, ids, t) && !LeadsAlone(t)
  {
    var s := FirstTerm(p, ids, a, b);
    var n := Larger(s.now + Soonest(p, k), Larger(p.lease, p.attempt + p.retry));
    Product(k as real, p.retry);
    t := Linger(p, ids, a, b, s, k, n);
    t := Takeover(p, ids, a, b, t);
    assert Leading(a, t) && Leading(b, t);
  }

  /**
    The exact condition, for any two or more candidates: at most one leads without stopping in
    every reachable state if and only if the lease covers the renew deadline, one retry wait, the
    started callback and three attempts.
   */
  lemma MutualExclusionIffCovered(p: Params, ids: set<Identity>, a: Identity, b: Identity, k: nat)
    requires WellFormed(p) && Fills(p, k)
    requires a in ids && b in ids && a != b && "" !in ids
    ensures Covers(p) <==> forall s | Reachable(p, ids, s) :: LeadsAlone(s)
  {
    if Covers(p) {
      forall s | Reachable(p, ids, s) ensures LeadsAlone(s) {
        MutualExclusion(p, ids, s);
      }
    } else {
      var t := TwoLeaders(p, ids, a, b, k);
    }
  }
}
