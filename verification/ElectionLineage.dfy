/**
  What every step of the election keeps, whatever the timing: every committed record is computed
  from its immediate predecessor, every write in transit was computed from a committed record,
  and the leadership flag agrees with the thread that owns it.
 */
module ElectionLineage {
  import opened Wrappers
  import opened Leases
  import opened ElectionProtocol

  /** The body of `req` is what its kind computes from its base record. */
  ghost predicate Computed(p: Params, log: seq<Commit>, req: Request) {
    match req.base
    case None => req.kind.Creation? && req.body == CreateBody(req.who, p.lease, req.utc)
    case Some(v) =>
      v < |log| && var lease := log[v].lease;
      match req.kind
      case Creation => false
      case Acquisition =>
        && req.body == AcquireBody(lease, req.who, p.lease, req.utc)
        && (Foreign(lease, req.who) ==> req.seen + Duration(lease, p.lease) <= req.start)
      case Renewal => req.body == RenewBody(lease, req.who, p.lease, req.utc) && !Foreign(lease, req.who)
      case Release => req.body == ReleaseBody(lease, req.utc) && lease.holder == Some(req.who)
  }

  /** Record `i` is the start of the log or a write computed from record `i - 1`. */
  ghost predicate Derived(p: Params, log: seq<Commit>, i: nat)
    requires i < |log|
  {
    && log[i].lease.version == i
    && match log[i].via
       case None => i == 0
       case Some(req) =>
         && log[i].lease == Stored(req.body, i)
         && req.base == (if i == 0 then None else Some(i - 1))
         && Computed(p, log, req)
         && req.start <= log[i].at
  }

  /** The writer is a candidate, stopping if it releases, and it did see what it takes over. */
  ghost predicate Vouched(s: State, req: Request) {
    && req.who in s.cands
    && (req.kind.Release? ==> s.cands[req.who].stop)
    && (req.kind.Acquisition? ==>
          req.base.Some? && Sighting(req.who, req.base.value, req.seen) in s.sightings)
  }

  ghost predicate GoodRequest(p: Params, s: State, req: Request) {
    Computed(p, s.log, req) && req.start <= s.now && Vouched(s, req)
  }

  ghost predicate GoodCall(p: Params, s: State, c: Identity, acquiring: bool, call: Call) {
    && call.Start() <= s.now
    && match call
       case Unread(_, _) => true
       case Sent(req) =>
         && req.who == c && GoodRequest(p, s, req)
         && (if acquiring then req.kind.Creation? || req.kind.Acquisition? else req.kind.Renewal?)
       case Landed(req, v) =>
         && req.who == c && v < |s.log| && s.log[v].via == Some(req)
         && (if acquiring then req.kind.Creation? || req.kind.Acquisition? else req.kind.Renewal?)
  }

  ghost predicate GoodPhase(p: Params, s: State, c: Identity, phase: Phase) {
    match phase
    case Acquiring(call) => GoodCall(p, s, c, true, call)
    case Renewing(call) => GoodCall(p, s, c, false, call)
    case _ => true
  }

  /** The local observation is of a committed record and was recorded. */
  ghost predicate GoodSight(p: Params, s: State, c: Identity, sight: Sight) {
    match sight.key
    case None => true
    case Some(key) =>
      && key.version < |s.log| && key == KeyOf(s.log[key.version].lease, p.lease)
      && Sighting(c, key.version, sight.at) in s.sightings
  }

  /** The phases between becoming leader and leaving the renew loop. */
  predicate InTerm(phase: Phase) { phase.Starting? || phase.Pausing? || phase.Renewing? }

  ghost predicate FlagDiscipline(d: Candidate) {
    && d.starts == d.clears + (if d.leading then 1 else 0)
    && d.notices <= d.clears
    && (!d.stop ==> d.notices == d.clears)
    && (d.leading ==> InTerm(d.phase))
    && (InTerm(d.phase) && !d.stop ==> d.leading)
    && (d.phase.Ended? ==> d.stop)
    && (d.releasing ==> d.stop)
  }

  ghost predicate GoodCandidate(p: Params, s: State, c: Identity)
    requires c in s.cands
  {
    var d := s.cands[c];
    && FlagDiscipline(d)
    && GoodPhase(p, s, c, d.phase)
    && GoodSight(p, s, c, d.sight)
  }

  ghost predicate Inv(p: Params, ids: set<Identity>, s: State) {
    && s.cands.Keys == ids && "" !in ids
    && (forall i: nat | i < |s.log| :: Derived(p, s.log, i) && VouchedCommit(s, s.log[i]))
    && (forall i: nat, j: nat | i <= j < |s.log| :: s.log[i].at <= s.log[j].at)
    && (s.log != [] ==> Last(s.log).at <= s.now)
    && (forall req | req in s.flying :: GoodRequest(p, s, req))
    && (forall c | c in s.cands :: GoodCandidate(p, s, c))
    && (forall g | g in s.sightings :: g.version < |s.log|)
  }

  ghost predicate VouchedCommit(s: State, commit: Commit) {
    commit.via.Some? ==> Vouched(s, commit.via.value)
  }

  /** What no step takes back. */
  ghost predicate Extends(s: State, t: State) {
    && s.now <= t.now
    && s.log <= t.log
    && s.sightings <= t.sightings
    && s.cands.Keys == t.cands.Keys
    && (forall c | c in s.cands && s.cands[c].stop :: t.cands[c].stop)
  }

  /** The parts of a step that act on one candidate leave the log alone. */
  ghost predicate TouchesOnly(s: State, t: State, c: Identity) {
    && t.now == s.now && t.log == s.log && s.sightings <= t.sightings
    && c in s.cands && c in t.cands && t.cands == s.cands[c := t.cands[c]]
    && t.cands[c].stop == s.cands[c].stop
  }

  lemma ReadTouches(p: Params, s: State, c: Identity)
    requires Enabled(p, s, ReadLease(c))
    ensures TouchesOnly(s, Read(p, s, c), c) && Read(p, s, c).flying == s.flying
  {}

  lemma LearnTouches(p: Params, s: State, c: Identity, success: bool)
    requires Enabled(p, s, Learn(c, success))
    ensures TouchesOnly(s, Learned(p, s, c, success), c)
  {}

  lemma NextExtends(p: Params, s: State, a: Action)
    requires Enabled(p, s, a)
    ensures Extends(s, Next(p, s, a))
  {
    match a {
      case ReadLease(c) => ReadTouches(p, s, c);
      case Learn(c, success) => LearnTouches(p, s, c, success);
      case _ =>
    }
  }

  lemma ComputedGrows(p: Params, log: seq<Commit>, grown: seq<Commit>, req: Request)
    requires log <= grown && Computed(p, log, req)
    ensures Computed(p, grown, req)
  {}

  lemma RequestKept(p: Params, s: State, t: State, req: Request)
    requires Extends(s, t) && GoodRequest(p, s, req)
    ensures GoodRequest(p, t, req)
  {}

  lemma CandidateKept(p: Params, s: State, t: State, c: Identity)
    requires Extends(s, t) && c in s.cands && s.cands[c] == t.cands[c] && GoodCandidate(p, s, c)
    ensures GoodCandidate(p, t, c)
  {}

  /** The candidate whose thread takes the step, if any. */
  function Actor(a: Action): Option<Identity> {
    match a
    case Tick(_) => None
    case LandLate(_) => None
    case SendRelease(_, _) => None
    case BeginAcquire(c, _) => Some(c)
    case BeginRenew(c, _) => Some(c)
    case ReadFails(c) => Some(c)
    case ReadUnauthorized(c) => Some(c)
    case ReadLease(c) => Some(c)
    case Land(c) => Some(c)
    case Learn(c, _) => Some(c)
    case CallbackReturns(c) => Some(c)
    case RequestStop(c) => Some(c)
    case BeginRelease(c) => Some(c)
    case LearnRelease(c, _) => Some(c)
    case EndRelease(c, _) => Some(c)
    case EndRun(c) => Some(c)
  }

  lemma OthersUntouched(p: Params, s: State, a: Action, c: Identity)
    requires Enabled(p, s, a) && c in s.cands && Actor(a) != Some(c)
    ensures Next(p, s, a).cands[c] == s.cands[c]
  {}

  lemma EntryKept(p: Params, s: State, t: State, i: nat)
    requires Extends(s, t) && i < |s.log| && Derived(p, s.log, i) && VouchedCommit(s, s.log[i])
    ensures Derived(p, t.log, i) && VouchedCommit(t, t.log[i])
  {}

  /** The write a step commits, if any. */
  function Written(p: Params, s: State, a: Action): Option<Request>
    requires Enabled(p, s, a)
  {
    match a
    case Land(c) => Some(s.cands[c].phase.call.req)
    case LandLate(req) => Some(req)
    case _ => None
  }

  lemma LogAfter(p: Params, s: State, a: Action)
    requires Enabled(p, s, a)
    ensures var t := Next(p, s, a);
            match Written(p, s, a)
            case None => t.log == s.log
            case Some(req) => CanLand(s.log, req) && t.log == Append(s, req).log && t.now == s.now
  {}

  lemma WrittenIsGood(p: Params, ids: set<Identity>, s: State, a: Action)
    requires Inv(p, ids, s) && Enabled(p, s, a) && Written(p, s, a).Some?
    ensures GoodRequest(p, s, Written(p, s, a).value)
  {}

  lemma EntriesKept(p: Params, ids: set<Identity>, s: State, a: Action)
    requires Inv(p, ids, s) && Enabled(p, s, a)
    ensures var t := Next(p, s, a); forall i: nat | i < |t.log| :: Derived(p, t.log, i) && VouchedCommit(t, t.log[i])
  {
    var t := Next(p, s, a);
    NextExtends(p, s, a);
    LogAfter(p, s, a);
    if Written(p, s, a).Some? {
      WrittenIsGood(p, ids, s, a);
      ComputedGrows(p, s.log, t.log, Written(p, s, a).value);
      RequestKept(p, s, t, Written(p, s, a).value);
    }
    forall i: nat | i < |t.log| ensures Derived(p, t.log, i) && VouchedCommit(t, t.log[i]) {
      if i < |s.log| {
        EntryKept(p, s, t, i);
      }
    }
  }

  lemma TimesKept(p: Params, s: State, a: Action)
    requires Enabled(p, s, a)
    requires forall i: nat, j: nat | i <= j < |s.log| :: s.log[i].at <= s.log[j].at
    requires s.log != [] ==> Last(s.log).at <= s.now
    ensures var t := Next(p, s, a);
            && (forall i: nat, j: nat | i <= j < |t.log| :: t.log[i].at <= t.log[j].at)
            && (t.log != [] ==> Last(t.log).at <= t.now)
  {}

  lemma LogKept(p: Params, ids: set<Identity>, s: State, a: Action)
    requires Inv(p, ids, s) && Enabled(p, s, a)
    ensures var t := Next(p, s, a);
            && (forall i: nat | i < |t.log| :: Derived(p, t.log, i) && VouchedCommit(t, t.log[i]))
            && (forall i: nat, j: nat | i <= j < |t.log| :: t.log[i].at <= t.log[j].at)
            && (t.log != [] ==> Last(t.log).at <= t.now)
  {
    EntriesKept(p, ids, s, a);
    TimesKept(p, s, a);
  }

  lemma UnsuccessfulKept(p: Params, s: State, c: Identity)
    requires c in s.cands && InCall(s.cands[c].phase) && GoodCandidate(p, s, c)
    ensures FlagDiscipline(Unsuccessful(p, s, s.cands[c]))
    ensures !InCall(Unsuccessful(p, s, s.cands[c]).phase)
    ensures Unsuccessful(p, s, s.cands[c]).sight == s.cands[c].sight
  {}

  lemma ReadToAcquireKept(p: Params, s: State, c: Identity)
    requires Enabled(p, s, ReadLease(c)) && GoodCandidate(p, s, c)
    requires s.cands[c].phase.Acquiring? && s.log != [] && Derived(p, s.log, |s.log| - 1)
    ensures GoodCandidate(p, Read(p, s, c), c)
  {
    var d, t := ReadToAcquire(p, s, c, s.cands[c]), Read(p, s, c);
    assert t.cands[c] == d && t.log == s.log && t.now == s.now;
    assert FlagDiscipline(d);
    assert GoodSight(p, t, c, d.sight);
    assert GoodPhase(p, t, c, d.phase);
  }

  lemma ReadToRenewKept(p: Params, s: State, c: Identity)
    requires Enabled(p, s, ReadLease(c)) && GoodCandidate(p, s, c)
    requires s.cands[c].phase.Renewing? && s.log != [] && Derived(p, s.log, |s.log| - 1)
    ensures GoodCandidate(p, Read(p, s, c), c)
  {
    var d, t := ReadToRenew(p, s, c, s.cands[c]), Read(p, s, c);
    assert t.cands[c] == d && t.log == s.log && t.now == s.now;
    assert FlagDiscipline(d);
    assert GoodSight(p, t, c, d.sight);
    assert GoodPhase(p, t, c, d.phase);
  }

  lemma ReadMissingKept(p: Params, s: State, c: Identity)
    requires Enabled(p, s, ReadLease(c)) && GoodCandidate(p, s, c) && s.log == []
    ensures GoodCandidate(p, Read(p, s, c), c)
  {
    UnsuccessfulKept(p, s, c);
  }

  lemma LearnerKept(p: Params, s: State, c: Identity, success: bool)
    requires Enabled(p, s, Learn(c, success)) && GoodCandidate(p, s, c)
    requires success ==> Derived(p, s.log, s.cands[c].phase.call.version)
    ensures GoodCandidate(p, Learned(p, s, c, success), c)
  {
    var d, t := s.cands[c], Learned(p, s, c, success);
    if success {
      var d1 := Confirmed(p, s, d, d.phase.call.version);
      assert t.cands[c] == d1 && t.log == s.log;
      assert FlagDiscipline(d1);
      assert GoodSight(p, t, c, d1.sight);
    } else {
      UnsuccessfulKept(p, s, c);
      assert t.cands[c] == Unsuccessful(p, s, d) && t.log == s.log;
      assert GoodSight(p, t, c, d.sight);
    }
  }

  lemma LanderKept(p: Params, s: State, c: Identity)
    requires Enabled(p, s, Land(c)) && GoodCandidate(p, s, c)
    ensures GoodCandidate(p, Next(p, s, Land(c)), c)
  {
    var t := Next(p, s, Land(c));
    assert Extends(s, t);
    assert GoodSight(p, t, c, t.cands[c].sight);
  }

  lemma ReleaseLearnerKept(p: Params, s: State, c: Identity, version: nat)
    requires Enabled(p, s, LearnRelease(c, version)) && GoodCandidate(p, s, c)
    requires Derived(p, s.log, version)
    ensures GoodCandidate(p, Next(p, s, LearnRelease(c, version)), c)
  {}

  /** Steps that change only the flags or start an attempt. */
  lemma LocalKept(p: Params, s: State, a: Action, c: Identity)
    requires Enabled(p, s, a) && Actor(a) == Some(c) && c in s.cands && GoodCandidate(p, s, c)
    requires !a.ReadLease? && !a.Land? && !a.Learn? && !a.LearnRelease?
    ensures GoodCandidate(p, Next(p, s, a), c)
  {
    var t := Next(p, s, a);
    NextExtends(p, s, a);
    assert t.log == s.log && t.sightings == s.sightings;
    assert FlagDiscipline(t.cands[c]);
    assert GoodSight(p, t, c, t.cands[c].sight);
    if t.cands[c].phase == s.cands[c].phase {
      SamePhase(p, s, t, c);
    }
  }

  lemma ActorKept(p: Params, ids: set<Identity>, s: State, a: Action, c: Identity)
    requires Inv(p, ids, s) && Enabled(p, s, a) && Actor(a) == Some(c)
    ensures c in s.cands && GoodCandidate(p, Next(p, s, a), c)
  {
    assert GoodCandidate(p, s, c);
    match a {
      case ReadLease(_) =>
        if s.log == [] {
          ReadMissingKept(p, s, c);
        } else {
          assert Derived(p, s.log, |s.log| - 1);
          if s.cands[c].phase.Acquiring? {
            ReadToAcquireKept(p, s, c);
          } else {
            ReadToRenewKept(p, s, c);
          }
        }
      case Learn(_, success) =>
        if success {
          assert Derived(p, s.log, s.cands[c].phase.call.version);
        }
        LearnerKept(p, s, c, success);
      case Land(_) => LanderKept(p, s, c);
      case LearnRelease(_, version) =>
        assert Derived(p, s.log, version);
        ReleaseLearnerKept(p, s, c, version);
      case _ => LocalKept(p, s, a, c);
    }
  }

  lemma SamePhase(p: Params, s: State, t: State, c: Identity)
    requires c in s.cands && GoodCandidate(p, s, c) && Extends(s, t)
    requires t.cands[c].phase == s.cands[c].phase
    ensures GoodPhase(p, t, c, t.cands[c].phase)
  {}

  lemma LearnFlying(p: Params, s: State, c: Identity, success: bool, req: Request)
    requires Enabled(p, s, Learn(c, success)) && GoodCandidate(p, s, c)
    requires req in Learned(p, s, c, success).flying && req !in s.flying
    ensures GoodRequest(p, Learned(p, s, c, success), req)
  {}

  lemma ReleaseFlying(p: Params, s: State, c: Identity, utc: int, req: Request)
    requires Enabled(p, s, SendRelease(c, utc)) && GoodCandidate(p, s, c)
    requires s.log != [] && Derived(p, s.log, |s.log| - 1)
    requires req in Next(p, s, SendRelease(c, utc)).flying && req !in s.flying
    ensures GoodRequest(p, Next(p, s, SendRelease(c, utc)), req)
  {}

  lemma FlyingKept(p: Params, ids: set<Identity>, s: State, a: Action)
    requires Inv(p, ids, s) && Enabled(p, s, a)
    ensures var t := Next(p, s, a); forall req | req in t.flying :: GoodRequest(p, t, req)
  {
    var t := Next(p, s, a);
    NextExtends(p, s, a);
    forall req | req in t.flying ensures GoodRequest(p, t, req) {
      if req in s.flying {
        RequestKept(p, s, t, req);
      } else {
        match a {
          case Learn(c, success) =>
            LearnFlying(p, s, c, success, req);
          case SendRelease(c, utc) =>
            assert Derived(p, s.log, |s.log| - 1);
            ReleaseFlying(p, s, c, utc, req);
        }
      }
    }
  }

  lemma SightingsKept(p: Params, ids: set<Identity>, s: State, a: Action)
    requires Inv(p, ids, s) && Enabled(p, s, a)
    ensures var t := Next(p, s, a); forall g | g in t.sightings :: g.version < |t.log|
  {}

  lemma Preserved(p: Params, ids: set<Identity>, s: State, a: Action)
    requires Inv(p, ids, s) && Enabled(p, s, a)
    ensures Inv(p, ids, Next(p, s, a))
  {
    var t := Next(p, s, a);
    NextExtends(p, s, a);
    LogKept(p, ids, s, a);
    FlyingKept(p, ids, s, a);
    SightingsKept(p, ids, s, a);
    forall c | c in t.cands ensures GoodCandidate(p, t, c) {
      if Actor(a) == Some(c) {
        ActorKept(p, ids, s, a, c);
      } else {
        OthersUntouched(p, s, a, c);
        CandidateKept(p, s, t, c);
      }
    }
  }

  lemma {:induction false} RunPreserves(p: Params, ids: set<Identity>, s: State, actions: seq<Action>, t: State)
    requires Inv(p, ids, s) && Run(p, s, actions, t)
    ensures Inv(p, ids, t)
    decreases |actions|
  {
    if actions == [] {
    } else {
      Preserved(p, ids, s, actions[0]);
      RunPreserves(p, ids, Next(p, s, actions[0]), actions[1..], t);
    }
  }

  lemma ReachableInv(p: Params, ids: set<Identity>, t: State)
    requires Reachable(p, ids, t)
    ensures Inv(p, ids, t)
  {
    var s, actions :| Init(ids, s) && Run(p, s, actions, t);
    RunPreserves(p, ids, s, actions, t);
  }

  // ---------------------------------------------------------------- main results

  lemma ReachableEntry(p: Params, ids: set<Identity>, s: State, i: nat)
    requires Reachable(p, ids, s) && i < |s.log|
    ensures Derived(p, s.log, i) && VouchedCommit(s, s.log[i])
    ensures "" !in ids && s.cands.Keys == ids
  {
    ReachableInv(p, ids, s);
  }

  /** Acquire writes among records 1..n whose predecessor was not held by the writer. */
  ghost function Handovers(log: seq<Commit>, n: nat): nat
    requires n < |log|
  {
    if n == 0 then 0
    else Handovers(log, n - 1) + if TakesOver(log, n) then 1 else 0
  }

  ghost predicate TakesOver(log: seq<Commit>, n: nat)
    requires 0 < n < |log|
  {
    && log[n].via.Some? && log[n].via.value.kind.Acquisition?
    && log[n - 1].lease.holder != Some(log[n].via.value.who)
  }

  /**
    leaseTransitions counts the handovers and nothing else: between any two records its growth is
    the number of acquire writes over somebody else's record, so it never decreases, and renewals,
    releases and re-acquisitions of one's own Lease add nothing, reported or not.
   */
  lemma {:induction false} TransitionsCountHandovers(p: Params, ids: set<Identity>, s: State, m: nat, n: nat)
    requires Reachable(p, ids, s) && m <= n < |s.log|
    ensures Transitions(s.log[n].lease) == Transitions(s.log[m].lease) + Handovers(s.log, n) - Handovers(s.log, m)
    ensures Transitions(s.log[m].lease) <= Transitions(s.log[n].lease)
  {
    if m < n {
      TransitionsCountHandovers(p, ids, s, m, n - 1);
      ReachableEntry(p, ids, s, n);
      OneStepOfTransitions(p, s.log, n);
    }
  }

  lemma OneStepOfTransitions(p: Params, log: seq<Commit>, n: nat)
    requires 0 < n < |log| && Derived(p, log, n)
    ensures Transitions(log[n].lease) == Transitions(log[n - 1].lease) + if TakesOver(log, n) then 1 else 0
  {}

  lemma ReplacedHolder(p: Params, log: seq<Commit>, i: nat)
    requires 0 < i < |log| && Derived(p, log, i)
    requires log[i].via.Some? && log[i].via.value.who != ""
    requires !Empty(log[i - 1].lease) && log[i].lease.holder != log[i - 1].lease.holder
    ensures var held, req := log[i - 1].lease, log[i].via.value;
            req.base == Some(i - 1) &&
            if Empty(log[i].lease) then req.kind.Release? && held.holder == Some(req.who)
            else
              req.kind.Acquisition? && log[i].lease.holder == Some(req.who)
              && req.seen + Duration(held, p.lease) <= req.start <= log[i].at
  {}

  /**
    A non-empty holder is replaced only by its own release, after it began stopping, or by an
    acquire of a candidate that had observed that very version, with no write in between, for at
    least the record's own duration on its clock when the winning attempt began.
   */
  lemma NoTheft(p: Params, ids: set<Identity>, s: State, i: nat)
    requires Reachable(p, ids, s) && 0 < i < |s.log|
    requires !Empty(s.log[i - 1].lease) && s.log[i].lease.holder != s.log[i - 1].lease.holder
    ensures s.log[i].via.Some?
    ensures var held, req := s.log[i - 1].lease, s.log[i].via.value;
            req.base == Some(i - 1) &&
            if Empty(s.log[i].lease) then
              req.kind.Release? && held.holder == Some(req.who)
              && req.who in s.cands && s.cands[req.who].stop
            else
              req.kind.Acquisition? && s.log[i].lease.holder == Some(req.who)
              && Sighting(req.who, i - 1, req.seen) in s.sightings
              && req.seen + Duration(held, p.lease) <= req.start <= s.log[i].at
  {
    ReachableEntry(p, ids, s, i);
    ReplacedHolder(p, s.log, i);
  }

  /**
    The flag falls at most once per term, its fall is counted once and notified at most once, always
    while the candidate is not stopping, and it rises only when it was down: so callbacks started
    minus falls is the flag, and no exit of run(), by stop or by a 401, leaves the flag up.
   */
  lemma FlagFollowsCallbacks(p: Params, ids: set<Identity>, s: State, a: Action, c: Identity)
    requires Reachable(p, ids, s) && c in ids && Enabled(p, s, a)
    ensures c in s.cands && c in Next(p, s, a).cands
    ensures s.cands[c].starts - s.cands[c].clears == if s.cands[c].leading then 1 else 0
    ensures s.cands[c].phase.Ended? ==> !s.cands[c].leading
    ensures a == ReadUnauthorized(c) || a == EndRun(c) ==> !Next(p, s, a).cands[c].leading
    ensures !s.cands[c].stop ==> s.cands[c].notices == s.cands[c].clears
    ensures var d, e := s.cands[c], Next(p, s, a).cands[c];
            && e.clears - d.clears == (if d.leading && !e.leading then 1 else 0)
            && e.starts - d.starts == (if !d.leading && e.leading then 1 else 0)
            && 0 <= e.notices - d.notices <= e.clears - d.clears
  {
    ReachableInv(p, ids, s);
    assert GoodCandidate(p, s, c);
    NextExtends(p, s, a);
    if Actor(a) == Some(c) {
      ActorFlag(p, s, a, c);
    } else {
      OthersUntouched(p, s, a, c);
    }
  }

  lemma ActorFlag(p: Params, s: State, a: Action, c: Identity)
    requires Enabled(p, s, a) && Actor(a) == Some(c) && c in s.cands && FlagDiscipline(s.cands[c])
    ensures c in Next(p, s, a).cands
    ensures var d, e := s.cands[c], Next(p, s, a).cands[c];
            && e.clears - d.clears == (if d.leading && !e.leading then 1 else 0)
            && e.starts - d.starts == (if !d.leading && e.leading then 1 else 0)
            && 0 <= e.notices - d.notices <= e.clears - d.clears
  {
  }
}
