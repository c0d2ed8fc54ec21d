/**
  Timed safety: with `lease >= renew + pause + callback + 3 * attempt` at most one candidate that
  is not stopping holds the leadership flag, over every interleaving; and the step-down bound.
 */
module ElectionSafety {
  import opened Wrappers
  import opened Leases
  import opened ElectionProtocol
  import opened ElectionLineage

  /** The relation between the lease duration and the environment bounds that safety needs. */
  predicate Covers(p: Params) {
    p.lease >= p.renew + p.pause + p.callback + 3.0 * p.attempt
  }

  /** An observation is stamped no earlier than one attempt before its record was written. */
  ghost predicate TimelySightings(p: Params, s: State) {
    forall g | g in s.sightings :: g.version < |s.log| && s.log[g.version].at - p.attempt <= g.at <= s.now
  }

  ghost predicate DeadlineBound(p: Params, d: Candidate) {
    d.deadline <= d.confirmed + p.renew + if d.firstTerm then p.callback else 0.0
  }

  /** How far past the deadline a renewal may begin. */
  ghost predicate TermBounds(p: Params, d: Candidate) {
    match d.phase
    case Starting(since) => since == d.confirmed && d.firstTerm
    case Pausing(_, latest) => latest < d.deadline + p.pause && DeadlineBound(p, d)
    case Renewing(call) => call.Start() < d.deadline + p.pause && DeadlineBound(p, d)
    case _ => true
  }

  ghost predicate TimelyCandidate(p: Params, s: State, d: Candidate) {
    MayLast(p, d, s.now) && (!d.stop ==> TermBounds(p, d))
  }

  /** Leading, or about to learn that it is, and not stopping. */
  predicate Claims(d: Candidate) {
    !d.stop && (d.leading || (d.phase.Acquiring? && d.phase.call.Landed?))
  }

  ghost predicate Owns(p: Params, log: seq<Commit>, c: Identity) {
    log != [] && Last(log).lease.holder == Some(c) && Last(log).lease.duration == Some(p.lease)
  }

  ghost predicate ClaimHolds(p: Params, s: State, c: Identity)
    requires c in s.cands
  {
    var d := s.cands[c];
    Claims(d) ==>
      && Owns(p, s.log, c)
      && (InTerm(d.phase) ==> d.confirmed <= Last(s.log).at + p.attempt)
  }

  ghost predicate Timed(p: Params, s: State) {
    && TimelySightings(p, s)
    && forall c | c in s.cands :: TimelyCandidate(p, s, s.cands[c])
  }

  ghost predicate Safe(p: Params, s: State) {
    forall c | c in s.cands :: ClaimHolds(p, s, c)
  }

  // ---------------------------------------------------------------- timing invariant

  lemma ReadTimed(p: Params, s: State, c: Identity)
    requires Enabled(p, s, ReadLease(c)) && (s.log != [] ==> Derived(p, s.log, |s.log| - 1))
    requires GoodSight(p, s, c, s.cands[c].sight) && TimelySightings(p, s)
    requires s.cands[c].phase.call.Start() <= s.now <= s.cands[c].phase.call.Start() + p.attempt
    requires s.log != [] ==> Last(s.log).at <= s.now
    ensures TimelySightings(p, Read(p, s, c))
  {}

  lemma LearnTimed(p: Params, s: State, c: Identity, success: bool)
    requires Enabled(p, s, Learn(c, success)) && p.attempt >= 0.0
    requires GoodSight(p, s, c, s.cands[c].sight) && TimelySightings(p, s)
    requires success ==> var v := s.cands[c].phase.call.version;
             Derived(p, s.log, v) && s.log[v].at <= s.now
    ensures TimelySightings(p, Learned(p, s, c, success))
  {}

  lemma LearnReleaseTimed(p: Params, s: State, c: Identity, v: nat)
    requires Enabled(p, s, LearnRelease(c, v)) && p.attempt >= 0.0
    requires GoodSight(p, s, c, s.cands[c].sight) && TimelySightings(p, s)
    requires Derived(p, s.log, v) && s.log[v].at <= s.now
    ensures TimelySightings(p, Next(p, s, LearnRelease(c, v)))
  {}

  lemma NoSightingTimed(p: Params, s: State, a: Action)
    requires Enabled(p, s, a) && TimelySightings(p, s)
    requires !a.ReadLease? && !a.Learn? && !a.LearnRelease?
    ensures TimelySightings(p, Next(p, s, a))
  {}

  lemma EntryTime(p: Params, ids: set<Identity>, s: State, v: nat)
    requires Inv(p, ids, s) && v < |s.log|
    ensures Derived(p, s.log, v) && s.log[v].at <= Last(s.log).at <= s.now
  {}

  lemma SightingsTimed(p: Params, ids: set<Identity>, s: State, a: Action)
    requires WellFormed(p) && Inv(p, ids, s) && Timed(p, s) && Enabled(p, s, a)
    ensures TimelySightings(p, Next(p, s, a))
  {
    match a {
      case ReadLease(c) =>
        assert GoodCandidate(p, s, c) && TimelyCandidate(p, s, s.cands[c]);
        if s.log != [] { EntryTime(p, ids, s, |s.log| - 1); }
        ReadTimed(p, s, c);
      case Learn(c, success) =>
        assert GoodCandidate(p, s, c);
        if success { EntryTime(p, ids, s, s.cands[c].phase.call.version); }
        LearnTimed(p, s, c, success);
      case LearnRelease(c, v) =>
        assert GoodCandidate(p, s, c);
        EntryTime(p, ids, s, v);
        LearnReleaseTimed(p, s, c, v);
      case _ => NoSightingTimed(p, s, a);
    }
  }

  lemma UnsuccessfulTimed(p: Params, s: State, d: Candidate)
    requires WellFormed(p) && InCall(d.phase) && TimelyCandidate(p, s, d)
    ensures TimelyCandidate(p, s, Unsuccessful(p, s, d))
  {}

  lemma ReaderTimed(p: Params, s: State, c: Identity)
    requires WellFormed(p) && Enabled(p, s, ReadLease(c)) && TimelyCandidate(p, s, s.cands[c])
    ensures TimelyCandidate(p, s, Read(p, s, c).cands[c])
  {
    if s.log == [] {
      UnsuccessfulTimed(p, s, s.cands[c]);
    }
  }

  lemma LearnerTimed(p: Params, s: State, c: Identity, success: bool)
    requires WellFormed(p) && Enabled(p, s, Learn(c, success)) && TimelyCandidate(p, s, s.cands[c])
    ensures TimelyCandidate(p, s, Learned(p, s, c, success).cands[c])
  {}

  lemma ActorTimed(p: Params, s: State, a: Action, c: Identity)
    requires WellFormed(p) && Enabled(p, s, a) && Actor(a) == Some(c) && c in s.cands
    requires TimelyCandidate(p, s, s.cands[c])
    ensures c in Next(p, s, a).cands && TimelyCandidate(p, Next(p, s, a), Next(p, s, a).cands[c])
  {
    ClockStands(p, s, a);
    match a {
      case ReadLease(_) => ReaderTimed(p, s, c);
      case Learn(_, success) => LearnerTimed(p, s, c, success);
      case ReadFails(_) => UnsuccessfulTimed(p, s, s.cands[c]);
      case _ =>
    }
  }

  lemma TimedPreserved(p: Params, ids: set<Identity>, s: State, a: Action)
    requires WellFormed(p) && Inv(p, ids, s) && Timed(p, s) && Enabled(p, s, a)
    ensures Timed(p, Next(p, s, a))
  {
    var t := Next(p, s, a);
    SightingsTimed(p, ids, s, a);
    NextExtends(p, s, a);
    forall c | c in t.cands ensures TimelyCandidate(p, t, t.cands[c]) {
      assert TimelyCandidate(p, s, s.cands[c]);
      if Actor(a) == Some(c) {
        ActorTimed(p, s, a, c);
      } else {
        OthersUntouched(p, s, a, c);
        if !a.Tick? {
          LogAfter(p, s, a);
          assert t.now == s.now by { ClockStands(p, s, a); }
        }
      }
    }
  }

  lemma ClockStands(p: Params, s: State, a: Action)
    requires Enabled(p, s, a) && !a.Tick?
    ensures Next(p, s, a).now == s.now
  {}

  // ---------------------------------------------------------------- safety invariant

  /** A claim is given up before anybody's observation of the claimed record can run out. */
  lemma ClaimEnds(p: Params, ids: set<Identity>, s: State, c: Identity)
    requires WellFormed(p) && Covers(p) && Inv(p, ids, s) && c in s.cands
    requires TimelyCandidate(p, s, s.cands[c]) && ClaimHolds(p, s, c) && Claims(s.cands[c])
    ensures s.log != [] && s.now < Last(s.log).at + p.lease - p.attempt
  {
    var d := s.cands[c];
    assert GoodCandidate(p, s, c);
    if !d.leading {
      var v := d.phase.call.version;
      assert Derived(p, s.log, v) && s.log[v].at <= Last(s.log).at;
    }
  }

  /** While a claim stands, no write can land but the claimant's own acquire or renewal. */
  lemma NoRivalLands(p: Params, s: State, c: Identity, req: Request)
    requires c in s.cands && !s.cands[c].stop && Owns(p, s.log, c) && p.lease > 0.0 && c != ""
    requires s.now < Last(s.log).at + p.lease - p.attempt
    requires CanLand(s.log, req) && GoodRequest(p, s, req) && TimelySightings(p, s)
    ensures req.who == c && req.body.holder == c && req.body.duration == p.lease
  {}

  lemma ClaimKeptByActor(p: Params, ids: set<Identity>, s: State, a: Action, c: Identity)
    requires WellFormed(p) && Inv(p, ids, s) && Enabled(p, s, a)
    requires Written(p, s, a).None? && Actor(a) == Some(c) && c in s.cands
    requires TimelyCandidate(p, s, s.cands[c]) && ClaimHolds(p, s, c)
    ensures c in Next(p, s, a).cands && ClaimHolds(p, Next(p, s, a), c)
  {
    assert GoodCandidate(p, s, c);
    LogAfter(p, s, a);
    NextExtends(p, s, a);
    match a {
      case Learn(_, success) =>
        if success {
          var v := s.cands[c].phase.call.version;
          assert Derived(p, s.log, v) && s.log[v].at <= Last(s.log).at;
          LearnerClaims(p, s, c);
        } else {
          QuietActor(p, s, a, c);
        }
      case _ => QuietActor(p, s, a, c);
    }
  }

  /** A confirmed write leaves the claim where it was, with the confirmation close to the record. */
  lemma LearnerClaims(p: Params, s: State, c: Identity)
    requires Enabled(p, s, Learn(c, true)) && FlagDiscipline(s.cands[c]) && ClaimHolds(p, s, c)
    requires var call := s.cands[c].phase.call;
             s.log != [] && s.now <= call.Start() + p.attempt && call.Start() <= Last(s.log).at
    ensures ClaimHolds(p, Learned(p, s, c, true), c)
  {}

  lemma QuietActor(p: Params, s: State, a: Action, c: Identity)
    requires Enabled(p, s, a) && Actor(a) == Some(c) && c in s.cands
    requires FlagDiscipline(s.cands[c]) && ClaimHolds(p, s, c)
    requires a != Learn(c, true) && Written(p, s, a).None? && Next(p, s, a).log == s.log
    ensures c in Next(p, s, a).cands && ClaimHolds(p, Next(p, s, a), c)
  {
    var d, t := s.cands[c], Next(p, s, a);
    var e := t.cands[c];
    assert Claims(e) ==> Claims(d) && (InTerm(e.phase) ==> InTerm(d.phase) && e.confirmed == d.confirmed);
  }

  /** After a write: the writer's claim has its record, and nobody else had a claim. */
  lemma ClaimKeptByWrite(p: Params, ids: set<Identity>, s: State, a: Action, c: Identity)
    requires WellFormed(p) && Covers(p) && Inv(p, ids, s) && Timed(p, s) && Enabled(p, s, a)
    requires Written(p, s, a).Some? && c in s.cands && ClaimHolds(p, s, c)
    ensures c in Next(p, s, a).cands && ClaimHolds(p, Next(p, s, a), c)
  {
    var req, t := Written(p, s, a).value, Next(p, s, a);
    LogAfter(p, s, a);
    WrittenIsGood(p, ids, s, a);
    assert GoodCandidate(p, s, c) && TimelyCandidate(p, s, s.cands[c]);
    assert Last(t.log).lease == Stored(req.body, |s.log|) && Last(t.log).at == s.now;
    if Claims(s.cands[c]) {
      ClaimEnds(p, ids, s, c);
      NoRivalLands(p, s, c, req);
    }
    if Actor(a) == Some(c) {
      assert req.who == c && (req.kind.Creation? || req.kind.Acquisition? || req.kind.Renewal?);
      assert req.body.holder == c && req.body.duration == p.lease;
    } else {
      OthersUntouched(p, s, a, c);
    }
  }

  lemma SafePreserved(p: Params, ids: set<Identity>, s: State, a: Action)
    requires WellFormed(p) && Covers(p) && Inv(p, ids, s) && Timed(p, s) && Safe(p, s) && Enabled(p, s, a)
    ensures Safe(p, Next(p, s, a))
  {
    var t := Next(p, s, a);
    NextExtends(p, s, a);
    forall c | c in t.cands ensures ClaimHolds(p, t, c) {
      assert ClaimHolds(p, s, c) && TimelyCandidate(p, s, s.cands[c]);
      if Written(p, s, a).Some? {
        ClaimKeptByWrite(p, ids, s, a, c);
      } else if Actor(a) == Some(c) {
        ClaimKeptByActor(p, ids, s, a, c);
      } else {
        LogAfter(p, s, a);
        OthersUntouched(p, s, a, c);
      }
    }
  }

  lemma {:induction false} RunTimed(p: Params, ids: set<Identity>, s: State, actions: seq<Action>, t: State)
    requires WellFormed(p) && Inv(p, ids, s) && Timed(p, s) && Run(p, s, actions, t)
    ensures Inv(p, ids, t) && Timed(p, t)
    ensures Covers(p) && Safe(p, s) ==> Safe(p, t)
    decreases |actions|
  {
    if actions == [] {
    } else {
      var a := actions[0];
      Preserved(p, ids, s, a);
      TimedPreserved(p, ids, s, a);
      if Covers(p) && Safe(p, s) {
        SafePreserved(p, ids, s, a);
      }
      RunTimed(p, ids, Next(p, s, a), actions[1..], t);
    }
  }

  // ---------------------------------------------------------------- main results

  lemma ReachableTimed(p: Params, ids: set<Identity>, t: State)
    requires WellFormed(p) && Reachable(p, ids, t)
    ensures Inv(p, ids, t) && Timed(p, t)
    ensures Covers(p) ==> Safe(p, t)
  {
    var s, actions :| Init(ids, s) && Run(p, s, actions, t);
    RunTimed(p, ids, s, actions, t);
  }

  /** A candidate that leads and is not stopping holds the stored Lease. */
  lemma LeaderHoldsLease(p: Params, ids: set<Identity>, s: State, c: Identity)
    requires WellFormed(p) && Covers(p) && Reachable(p, ids, s)
    requires c in s.cands && s.cands[c].leading && !s.cands[c].stop
    ensures s.log != [] && Last(s.log).lease.holder == Some(c)
  {
    ReachableTimed(p, ids, s);
    assert ClaimHolds(p, s, c);
  }

  predicate LeadsAlone(s: State) {
    forall c, d | c in s.cands && d in s.cands
      && s.cands[c].leading && !s.cands[c].stop && s.cands[d].leading && !s.cands[d].stop :: c == d
  }

  lemma MutualExclusion(p: Params, ids: set<Identity>, s: State)
    requires WellFormed(p) && Covers(p) && Reachable(p, ids, s)
    ensures LeadsAlone(s)
  {
    forall c, d | c in s.cands && d in s.cands
      && s.cands[c].leading && !s.cands[c].stop && s.cands[d].leading && !s.cands[d].stop
      ensures c == d
    {
      LeaderHoldsLease(p, ids, s, c);
      LeaderHoldsLease(p, ids, s, d);
    }
  }

  /**
    Step-down: whatever reads fail, conflict or commit unseen, a candidate that is not stopping
    leads only until its last confirmed success plus one deadline, one wait and one attempt, plus
    the started callback while the term has seen no renewal.
   */
  lemma StepsDown(p: Params, ids: set<Identity>, s: State, c: Identity)
    requires WellFormed(p) && Reachable(p, ids, s)
    requires c in s.cands && s.cands[c].leading && !s.cands[c].stop
    ensures s.now < s.cands[c].confirmed + p.renew + p.pause + p.attempt
                    + if s.cands[c].firstTerm then p.callback else 0.0
  {
    ReachableTimed(p, ids, s);
    assert GoodCandidate(p, s, c) && TimelyCandidate(p, s, s.cands[c]);
  }
}
