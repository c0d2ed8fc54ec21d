/**
  Bounded failover: how long a foreign record that nobody writes can keep a live candidate with a
  working API from taking the Lease; and what a release leaves behind.
 */
module ElectionFailover {
  import opened Wrappers
  import opened Leases
  import opened ElectionProtocol
  import opened ElectionLineage
  import opened ElectionSafety
  import opened ElectionExactness

  /**
    A step of a standoff: nobody writes the Lease, the calls of `b` succeed, it is not stopped and
    its own retry waits last at most `pause`.
   */
  ghost predicate Calm(p: Params, b: Identity, s: State, a: Action) {
    && Enabled(p, s, a) && Written(p, s, a).None?
    && a != ReadFails(b) && a != ReadUnauthorized(b) && a != RequestStop(b) && a != Learn(b, false)
    && (a.Tick? && b in s.cands && s.cands[b].phase.Resting? ==>
          a.to <= s.cands[b].phase.until + p.pause - p.retry)
  }

  ghost predicate Standoff(p: Params, b: Identity, s: State, actions: seq<Action>, t: State)
    decreases |actions|
  {
    if actions == [] then s == t
    else Calm(p, b, s, actions[0]) && Standoff(p, b, Next(p, s, actions[0]), actions[1..], t)
  }

  /** `b` faces a foreign record that it first observed at `seen`. */
  ghost predicate Facing(p: Params, b: Identity, seen: real, s: State) {
    && b in s.cands && s.log != [] && Last(s.log).lease.version == |s.log| - 1
    && var d, lease := s.cands[b], Last(s.log).lease;
    var expiry := seen + Duration(lease, p.lease);
    && Foreign(lease, b) && d.sight == Sight(Some(KeyOf(lease, p.lease)), seen)
    && !d.stop && !d.releasing
    && match d.phase
       case Resting(until) => s.now <= until + p.pause - p.retry && until < expiry + p.attempt + p.retry
       case Acquiring(Unread(start, _)) =>
         s.now <= start + p.attempt && start < expiry + p.attempt + p.pause
       case Acquiring(Sent(req)) =>
         && expiry <= req.start < expiry + p.attempt + p.pause
         && s.now <= req.start + p.attempt
         && req.kind.Acquisition? && CanLand(s.log, req)
       case _ => false
  }

  lemma ReadWhileFacing(p: Params, b: Identity, seen: real, s: State)
    requires WellFormed(p) && Facing(p, b, seen, s) && Enabled(p, s, ReadLease(b))
    ensures Facing(p, b, seen, Read(p, s, b))
    ensures Read(p, s, b).cands[b].phase.Resting? <==>
            s.cands[b].phase.call.start < seen + Duration(Last(s.log).lease, p.lease)
  {}

  lemma FacingKept(p: Params, b: Identity, seen: real, s: State, a: Action)
    requires WellFormed(p) && Facing(p, b, seen, s) && Calm(p, b, s, a)
    ensures Facing(p, b, seen, Next(p, s, a)) && Next(p, s, a).log == s.log
  {
    LogAfter(p, s, a);
    if Actor(a) != Some(b) {
      OthersUntouched(p, s, a, b);
      if !a.Tick? { ClockStands(p, s, a); }
    } else if a == ReadLease(b) {
      ReadWhileFacing(p, b, seen, s);
    }
  }

  lemma {:induction false} FacingThroughout(p: Params, b: Identity, seen: real, s: State, actions: seq<Action>, t: State)
    requires WellFormed(p) && Facing(p, b, seen, s) && Standoff(p, b, s, actions, t)
    ensures Facing(p, b, seen, t) && t.log == s.log
    decreases |actions|
  {
    if actions == [] {
    } else {
      FacingKept(p, b, seen, s, actions[0]);
      FacingThroughout(p, b, seen, Next(p, s, actions[0]), actions[1..], t);
    }
  }

  /** A read that a foreign, still valid record refuses. */
  ghost predicate Refused(p: Params, b: Identity, s: State) {
    && Enabled(p, s, ReadLease(b)) && s.log != [] && s.cands[b].phase.Acquiring? && !s.cands[b].stop
    && Read(p, s, b).cands[b].phase.Resting?
  }

  lemma RefusalFaces(p: Params, ids: set<Identity>, b: Identity, s: State)
    requires WellFormed(p) && Reachable(p, ids, s) && Refused(p, b, s)
    ensures b in Read(p, s, b).cands
    ensures Facing(p, b, Read(p, s, b).cands[b].sight.at, Read(p, s, b))
  {
    ReachableTimed(p, ids, s);
    assert GoodCandidate(p, s, b) && TimelyCandidate(p, s, s.cands[b]);
    EntryTime(p, ids, s, |s.log| - 1);
    assert Read(p, s, b).cands[b] == ReadToAcquire(p, s, b, s.cands[b]);
  }

  /**
    After a refused attempt, with the record left alone: until the observation runs out every
    attempt is refused and the first one after it is sent, begins less than one wait and one
    attempt later and would land; so the standoff itself is over within one more attempt.
   */
  lemma FailoverBound(p: Params, ids: set<Identity>, b: Identity, s: State, actions: seq<Action>, t: State)
    requires WellFormed(p) && Reachable(p, ids, s) && Refused(p, b, s)
    requires Standoff(p, b, Read(p, s, b), actions, t)
    ensures b in t.cands && t.log == s.log
    ensures var expiry := Read(p, s, b).cands[b].sight.at + Duration(Last(s.log).lease, p.lease);
            && t.now < expiry + p.pause + 2.0 * p.attempt
            && (Enabled(p, t, ReadLease(b)) ==>
                  (Read(p, t, b).cands[b].phase.Resting? <==> t.cands[b].phase.call.Start() < expiry))
            && (t.cands[b].phase.Acquiring? && t.cands[b].phase.call.Sent? ==>
                  && expiry <= t.cands[b].phase.call.Start() < expiry + p.pause + p.attempt
                  && Enabled(p, t, Land(b)))
  {
    ReadTouches(p, s, b);
    RefusalFaces(p, ids, b, s);
    var seen := Read(p, s, b).cands[b].sight.at;
    FacingThroughout(p, b, seen, Read(p, s, b), actions, t);
    if Enabled(p, t, ReadLease(b)) {
      ReadWhileFacing(p, b, seen, t);
    }
  }

  /** Landing and being told so makes the candidate leader. */
  lemma WinningAttemptLeads(p: Params, s: State, b: Identity)
    requires Enabled(p, s, Land(b)) && s.cands[b].phase.Acquiring?
    ensures var t := Next(p, s, Land(b));
            Enabled(p, t, Learn(b, true)) && Next(p, t, Learn(b, true)).cands[b].leading
  {}

  // ---------------------------------------------------------------- after a release

  /**
    A stopped candidate that cannot put itself back: no attempt is still to read, and whatever it
    has in transit is a release or has been overtaken by another write.
   */
  ghost predicate Silenced(s: State, c: Identity) {
    && c in s.cands && s.cands[c].stop
    && (InCall(s.cands[c].phase) ==>
          !s.cands[c].phase.call.Unread?
          && (s.cands[c].phase.call.Sent? ==> !CanLand(s.log, s.cands[c].phase.call.req)))
    && forall req | req in s.flying && req.who == c :: req.kind.Release? || !CanLand(s.log, req)
  }

  lemma OvertakenForGood(p: Params, s: State, t: State, req: Request)
    requires Extends(s, t) && GoodRequest(p, s, req) && !CanLand(s.log, req)
    ensures !CanLand(t.log, req)
  {}

  /** The silenced candidate's own thread can at most give up what it sent, or finish. */
  lemma SilencedPhase(p: Params, s: State, a: Action, c: Identity)
    requires Enabled(p, s, a) && Silenced(s, c) && GoodCandidate(p, s, c)
    ensures c in Next(p, s, a).cands && Next(p, s, a).cands[c].stop
    ensures var d, e := s.cands[c], Next(p, s, a).cands[c];
            InCall(e.phase) ==> e.phase == d.phase
    ensures a != Land(c)
  {
    if Actor(a) != Some(c) {
      OthersUntouched(p, s, a, c);
    }
  }

  /** A request enters transit only when its sender gives up on it or releases. */
  lemma FlyingAfter(p: Params, s: State, a: Action, req: Request)
    requires Enabled(p, s, a) && req in Next(p, s, a).flying && req !in s.flying
    requires forall d | d in s.cands :: GoodCandidate(p, s, d)
    ensures req.kind.Release?
         || (req.who in s.cands && InCall(s.cands[req.who].phase)
             && s.cands[req.who].phase.call == Sent(req) && Next(p, s, a).log == s.log)
  {}

  lemma SilencedStep(p: Params, ids: set<Identity>, s: State, a: Action, c: Identity)
    requires Inv(p, ids, s) && Enabled(p, s, a) && Silenced(s, c) && c != ""
    ensures Silenced(Next(p, s, a), c)
    ensures Written(p, s, a).Some? ==> Written(p, s, a).value.body.holder != c
  {
    var t := Next(p, s, a);
    NextExtends(p, s, a);
    assert GoodCandidate(p, s, c);
    SilencedPhase(p, s, a, c);
    var phase := s.cands[c].phase;
    if InCall(phase) && phase.call.Sent? {
      OvertakenForGood(p, s, t, phase.call.req);
    }
    forall req | req in t.flying && req.who == c ensures req.kind.Release? || !CanLand(t.log, req) {
      if req !in s.flying {
        FlyingAfter(p, s, a, req);
      } else if !CanLand(s.log, req) {
        OvertakenForGood(p, s, t, req);
      }
    }
    if Written(p, s, a).Some? {
      WrittenIsGood(p, ids, s, a);
      SilencedWrite(p, ids, s, a, c);
    }
  }

  lemma SilencedWrite(p: Params, ids: set<Identity>, s: State, a: Action, c: Identity)
    requires Inv(p, ids, s) && Enabled(p, s, a) && Silenced(s, c) && c != "" && a != Land(c)
    requires Written(p, s, a).Some? && GoodRequest(p, s, Written(p, s, a).value)
    ensures Written(p, s, a).value.body.holder != c
  {}

  /** A silenced candidate never writes itself back as the holder, over any run. */
  lemma {:induction false} SilencedStaysOut(p: Params, ids: set<Identity>, s: State, actions: seq<Action>, t: State, c: Identity)
    requires Inv(p, ids, s) && Run(p, s, actions, t) && Silenced(s, c) && c != ""
    ensures s.log <= t.log
    ensures forall i: nat | |s.log| <= i < |t.log| :: t.log[i].lease.holder != Some(c)
    decreases |actions|
  {
    if actions == [] {
    } else {
      var a, m := actions[0], Next(p, s, actions[0]);
      Preserved(p, ids, s, a);
      NextExtends(p, s, a);
      SilencedStep(p, ids, s, a, c);
      LogAfter(p, s, a);
      SilencedStaysOut(p, ids, m, actions[1..], t, c);
    }
  }

  /** `c` becomes the holder again in some run from `s`. */
  ghost predicate CanReturn(p: Params, s: State, c: Identity) {
    exists actions, t, i: nat ::
      Run(p, s, actions, t) && |s.log| <= i < |t.log| && t.log[i].lease.holder == Some(c)
  }

  lemma OneStep(p: Params, s: State, a: Action)
    requires Enabled(p, s, a)
    ensures Run(p, s, [a], Next(p, s, a))
  {}

  lemma ReturnsByLanding(p: Params, ids: set<Identity>, s: State, a: Action, c: Identity)
    requires Inv(p, ids, s) && Enabled(p, s, a) && Written(p, s, a).Some?
    requires Written(p, s, a).value.who == c && !Written(p, s, a).value.kind.Release?
    ensures CanReturn(p, s, c)
  {
    WrittenIsGood(p, ids, s, a);
    LogAfter(p, s, a);
    OneStep(p, s, a);
    assert Next(p, s, a).log[|s.log|].lease.holder == Some(c);
  }

  /** An attempt that reads an empty holder sends its write, which can land. */
  lemma ReadsEmptyHolder(p: Params, s: State, c: Identity)
    requires c in s.cands && s.log != [] && Empty(Last(s.log).lease)
    requires Last(s.log).lease.version == |s.log| - 1
    requires InCall(s.cands[c].phase) && s.cands[c].phase.call.Unread?
    ensures var m := Read(p, s, c);
            m.log == s.log && Enabled(p, m, Land(c)) && m.cands[c].phase.call.req.who == c
            && !m.cands[c].phase.call.req.kind.Release?
  {}

  /**
    Exactly when a released Lease stays released by a stopping candidate: it never becomes the
    holder again, in any run, if and only if it is silenced. A renewal already past its loop test
    is not, and accepts the empty holder.
   */
  lemma ReleaseStandsIffSilenced(p: Params, ids: set<Identity>, s: State, c: Identity)
    requires Reachable(p, ids, s) && c in ids && s.cands.Keys == ids && s.cands[c].stop
    requires s.log != [] && Empty(Last(s.log).lease)
    ensures Silenced(s, c) <==> !CanReturn(p, s, c)
  {
    ReachableInv(p, ids, s);
    assert GoodCandidate(p, s, c) && Derived(p, s.log, |s.log| - 1);
    if Silenced(s, c) {
      forall actions, t, i: nat | Run(p, s, actions, t) && |s.log| <= i < |t.log|
        ensures t.log[i].lease.holder != Some(c)
      {
        SilencedStaysOut(p, ids, s, actions, t, c);
      }
    } else if InCall(s.cands[c].phase) && s.cands[c].phase.call.Unread? {
      ReadThenReturn(p, ids, s, c);
    } else if InCall(s.cands[c].phase) && s.cands[c].phase.call.Sent? && Enabled(p, s, Land(c)) {
      ReturnsByLanding(p, ids, s, Land(c), c);
    } else {
      var req :| req in s.flying && req.who == c && !req.kind.Release? && CanLand(s.log, req);
      ReturnsByLanding(p, ids, s, LandLate(req), c);
    }
  }

  lemma ReadThenReturn(p: Params, ids: set<Identity>, s: State, c: Identity)
    requires Inv(p, ids, s) && c in s.cands && s.log != [] && Empty(Last(s.log).lease)
    requires InCall(s.cands[c].phase) && s.cands[c].phase.call.Unread?
    ensures CanReturn(p, s, c)
  {
    var m := Read(p, s, c);
    assert Derived(p, s.log, |s.log| - 1);
    ReadsEmptyHolder(p, s, c);
    Preserved(p, ids, s, ReadLease(c));
    OneStep(p, s, ReadLease(c));
    ReturnsByLanding(p, ids, m, Land(c), c);
    var actions, t, i: nat :| Run(p, m, actions, t) && |m.log| <= i < |t.log| && t.log[i].lease.holder == Some(c);
    RunConcat(p, s, [ReadLease(c)], m, actions, t);
  }

  /** The state where `c` leads, and another thread of it has begun to release mid-renewal. */
  lemma ReleasingMidRenewal(p: Params, ids: set<Identity>, c: Identity, b: Identity) returns (s: State)
    requires WellFormed(p) && c in ids && b in ids && c != b && "" !in ids
    ensures Reachable(p, ids, s) && c in s.cands && s.cands[c].stop && s.cands[c].releasing
    ensures s.cands[c].phase == Renewing(Unread(s.now, 0))
    ensures s.log != [] && Last(s.log).lease == Stored(CreateBody(c, p.lease, 0), |s.log| - 1)
  {
    s := FirstTerm(p, ids, c, b);
    s := Begin(p, ids, c, b, s);
    Play(p, ids, c, b, s, RequestStop(c));
    s := Next(p, s, RequestStop(c));
    Play(p, ids, c, b, s, BeginRelease(c));
    s := Next(p, s, BeginRelease(c));
  }

  /** That happens: a reachable released Lease that its stopping candidate takes back. */
  lemma ReleaseCanBeUndone(p: Params, ids: set<Identity>, c: Identity, b: Identity) returns (s: State)
    requires WellFormed(p) && c in ids && b in ids && c != b && "" !in ids
    ensures Reachable(p, ids, s) && s.log != [] && Empty(Last(s.log).lease)
    ensures c in s.cands && s.cands[c].stop && CanReturn(p, s, c)
  {
    var s0 := ReleasingMidRenewal(p, ids, c, b);
    Then(p, ids, s0, SendRelease(c, 0));
    var s1 := Next(p, s0, SendRelease(c, 0));
    var lease := Last(s0.log).lease;
    var req := Request(c, Release, Some(lease.version), ReleaseBody(lease, 0), 0, s0.now, s0.now);
    Then(p, ids, s1, LandLate(req));
    s := Next(p, s1, LandLate(req));
    ReachableInv(p, ids, s);
    ReadThenReturn(p, ids, s, c);
  }
}
