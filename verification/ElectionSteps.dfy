/**
  What each step of the protocol does to the candidate that takes it, attribute by attribute: which
  reads lose, keep or take the Lease, what every write carries, and when a failed renewal gives up.
 */
module ElectionSteps {
  import opened Wrappers
  import opened Leases
  import opened ElectionProtocol
  import opened ElectionLineage

  /** The flag falls, counted once and notified once if it was up. */
  predicate StepsDownNotified(d: Candidate, e: Candidate) {
    && !e.leading && e.starts == d.starts
    && e.clears == d.clears + (if d.leading then 1 else 0)
    && e.notices == d.notices + (if d.leading then 1 else 0)
  }

  predicate KeepsFlag(d: Candidate, e: Candidate) {
    e.leading == d.leading && e.starts == d.starts && e.clears == d.clears && e.notices == d.notices
  }

  /** Nothing but the candidate and the observations recorded has changed. */
  ghost predicate OnlyCandidate(s: State, t: State, c: Identity)
    requires c in s.cands && c in t.cands
  {
    t.log == s.log && t.flying == s.flying && t.now == s.now && t.cands == s.cands[c := t.cands[c]]
  }

  /**
    A renewal that reads another non-empty holder loses: no write, the flag falls and the fall is
    notified. With an empty or its own holder it keeps its flag and sends its write.
   */
  lemma RenewReadDecides(p: Params, s: State, c: Identity)
    requires Enabled(p, s, ReadLease(c)) && s.cands[c].phase.Renewing? && s.log != []
    ensures c in Next(p, s, ReadLease(c)).cands && OnlyCandidate(s, Next(p, s, ReadLease(c)), c)
    ensures var lease, d, e := Last(s.log).lease, s.cands[c], Next(p, s, ReadLease(c)).cands[c];
            && Observed(d.sight, lease, p.lease, d.phase.call.start, e.sight)
            && (HeldByAnother(lease, c) ==> StepsDownNotified(d, e) && e.phase == Resting(s.now + p.retry))
            && (!HeldByAnother(lease, c) ==>
                  && KeepsFlag(d, e) && e.phase.Renewing? && e.phase.call.Sent?
                  && var req := e.phase.call.req;
                     && req.who == c && req.kind.Renewal? && req.base == Some(lease.version)
                     && req.body.holder == c && req.body.duration == p.lease
                     && IsCount(lease, req.body.transitions) && req.body.renewed == d.phase.call.utc
                     && req.body.acquired ==
                        (if lease.acquired.Some? then lease.acquired else Some(d.phase.call.utc)))
  {
    RecordReadings(Last(s.log).lease, c, p.lease);
  }

  /** An acquire attempt leaves a foreign record alone while observation plus duration is ahead, and takes any other. */
  lemma AcquireReadDecides(p: Params, s: State, c: Identity, duration: real)
    requires Enabled(p, s, ReadLease(c)) && s.cands[c].phase.Acquiring? && s.log != []
    requires IsDuration(Last(s.log).lease, p.lease, duration)
    ensures c in Next(p, s, ReadLease(c)).cands && OnlyCandidate(s, Next(p, s, ReadLease(c)), c)
    ensures var lease, d, e := Last(s.log).lease, s.cands[c], Next(p, s, ReadLease(c)).cands[c];
            var start, utc, own := d.phase.call.start, d.phase.call.utc, lease.holder == Some(c);
            && Observed(d.sight, lease, p.lease, start, e.sight) && KeepsFlag(d, e)
            && (HeldByAnother(lease, c) && e.sight.at + duration > start ==> e.phase == Resting(s.now + p.retry))
            && (!(HeldByAnother(lease, c) && e.sight.at + duration > start) ==>
                  && e.phase.Acquiring? && e.phase.call.Sent?
                  && var req := e.phase.call.req;
                     && req.who == c && req.kind.Acquisition? && req.base == Some(lease.version)
                     && req.start == start && req.seen == e.sight.at
                     && req.body.holder == c && req.body.duration == p.lease && req.body.renewed == utc
                     && IsCount(lease, req.body.transitions - if own then 0 else 1)
                     && req.body.acquired == (if own then lease.acquired else Some(utc)))
  {
    RecordReadings(Last(s.log).lease, c, p.lease);
  }

  /** Without a Lease an acquire attempt sends its creation. */
  lemma MissingReadCreates(p: Params, s: State, c: Identity)
    requires Enabled(p, s, ReadLease(c)) && s.cands[c].phase.Acquiring? && s.log == []
    ensures c in Next(p, s, ReadLease(c)).cands && OnlyCandidate(s, Next(p, s, ReadLease(c)), c)
    ensures var d, e := s.cands[c], Next(p, s, ReadLease(c)).cands[c];
            && KeepsFlag(d, e) && e.sight == d.sight && e.phase.Acquiring? && e.phase.call.Sent?
            && var req := e.phase.call.req;
               req.who == c && req.kind.Creation? && req.base == None
               && req.body == Body(c, p.lease, 0, Some(d.phase.call.utc), d.phase.call.utc)
  {}

  /** A step that ends an attempt without success: a failed or missing read, or a write reported as failed. */
  predicate FailsAttempt(s: State, a: Action, c: Identity)
    requires c in s.cands
  {
    a == ReadFails(c) || a == Learn(c, false) || (a == ReadLease(c) && s.log == [] && s.cands[c].phase.Renewing?)
  }

  /**
    A failed attempt: a write that has not landed may still land later. An acquire attempt rests; a
    renewal waits and keeps its flag before the deadline, and at the deadline or later gives up and
    notifies.
   */
  lemma FailureDecides(p: Params, s: State, a: Action, c: Identity)
    requires Enabled(p, s, a) && c in s.cands && FailsAttempt(s, a, c)
    ensures c in Next(p, s, a).cands && Next(p, s, a).log == s.log
    ensures Next(p, s, a).flying ==
            if a.Learn? && s.cands[c].phase.call.Sent? then s.flying + {s.cands[c].phase.call.req} else s.flying
    ensures var d, e := s.cands[c], Next(p, s, a).cands[c];
            && e.sight == d.sight && e.deadline == d.deadline
            && (d.phase.Acquiring? ==> KeepsFlag(d, e) && e.phase == Resting(s.now + p.retry))
            && (d.phase.Renewing? && s.now < d.deadline ==>
                  KeepsFlag(d, e) && e.phase == Pausing(s.now + p.retry, s.now + p.pause))
            && (d.phase.Renewing? && s.now >= d.deadline ==>
                  StepsDownNotified(d, e) && e.phase == Resting(s.now + p.retry))
  {}

  /** A 401 ends run(): the flag falls, notified, and an unstopped candidate starts afresh. */
  lemma UnauthorizedDecides(p: Params, s: State, c: Identity)
    requires Enabled(p, s, ReadUnauthorized(c))
    ensures c in Next(p, s, ReadUnauthorized(c)).cands && OnlyCandidate(s, Next(p, s, ReadUnauthorized(c)), c)
    ensures var d, e := s.cands[c], Next(p, s, ReadUnauthorized(c)).cands[c];
            && StepsDownNotified(d, e)
            && (d.stop ==> e.phase == Ended) && (!d.stop ==> e.phase == Resting(s.now) && e.sight == UNSEEN)
  {}

  /** A confirmed acquisition starts a term and its callback; a confirmed renewal sets the deadline anew. */
  lemma SuccessDecides(p: Params, s: State, c: Identity)
    requires Enabled(p, s, Learn(c, true))
    ensures c in Next(p, s, Learn(c, true)).cands && OnlyCandidate(s, Next(p, s, Learn(c, true)), c)
    ensures var d, e := s.cands[c], Next(p, s, Learn(c, true)).cands[c];
            && e.confirmed == s.now && e.clears == d.clears && e.notices == d.notices
            && Observed(d.sight, s.log[d.phase.call.version].lease, p.lease, s.now, e.sight)
            && (d.phase.Acquiring? ==>
                  e.leading && e.phase == Starting(s.now) && e.starts == d.starts + if d.leading then 0 else 1)
            && (d.phase.Renewing? ==>
                  && e.leading == d.leading && e.starts == d.starts && e.deadline == s.now + p.renew
                  && e.phase == Pausing(s.now + p.retry, s.now + p.pause))
  {}

  /** When the started callback returns, the renew loop begins at once with a fresh deadline. */
  lemma CallbackReturnDecides(p: Params, s: State, c: Identity)
    requires Enabled(p, s, CallbackReturns(c))
    ensures c in Next(p, s, CallbackReturns(c)).cands && OnlyCandidate(s, Next(p, s, CallbackReturns(c)), c)
    ensures var d, e := s.cands[c], Next(p, s, CallbackReturns(c)).cands[c];
            KeepsFlag(d, e) && e.phase == Pausing(s.now, s.now) && e.deadline == s.now + p.renew
  {}

  /** What a landing write stores: its body, under the next version; and only over the version it was computed from. */
  lemma WriteStores(p: Params, s: State, a: Action)
    requires Enabled(p, s, a) && Written(p, s, a).Some?
    ensures var req, t := Written(p, s, a).value, Next(p, s, a);
            && (req.base.Some? ==> req.base.value + 1 == |s.log|) && (req.base.None? ==> s.log == [])
            && |t.log| == |s.log| + 1 && t.log[..|s.log|] == s.log && t.log[|s.log|].at == s.now
            && t.log[|s.log|].lease == Lease(|s.log|, Some(req.body.holder), Some(req.body.duration),
                                            Some(req.body.transitions), req.body.acquired, Some(req.body.renewed))
  {}

  /** A release is sent only over a record the candidate holds, and empties its holder for one second. */
  lemma ReleaseSends(p: Params, s: State, c: Identity, utc: int)
    requires Enabled(p, s, SendRelease(c, utc))
    ensures s.cands[c].releasing && s.log != [] && Last(s.log).lease.holder == Some(c)
    ensures var t := Next(p, s, SendRelease(c, utc));
            && t.log == s.log && t.cands == s.cands
            && exists req | req in t.flying ::
                 && t.flying == s.flying + {req} && req.who == c && req.kind.Release?
                 && req.base == Some(Last(s.log).lease.version)
                 && req.body.holder == "" && req.body.duration == 1.0 && IsCount(Last(s.log).lease, req.body.transitions)
                 && req.body.acquired == Some(utc) && req.body.renewed == utc
  {}

  /** A release thread ends by clearing the flag, notifying only if asked. */
  lemma ReleaseEnds(p: Params, s: State, c: Identity, notify: bool)
    requires Enabled(p, s, EndRelease(c, notify))
    ensures c in Next(p, s, EndRelease(c, notify)).cands && OnlyCandidate(s, Next(p, s, EndRelease(c, notify)), c)
    ensures var d, e := s.cands[c], Next(p, s, EndRelease(c, notify)).cands[c];
            && !e.leading && e.clears == d.clears + (if d.leading then 1 else 0)
            && e.notices == d.notices + (if d.leading && notify then 1 else 0)
  {}

  // ---------------------------------------------------------------- when steps may happen

  /** A run begins with no Lease or with any record. */
  lemma AnyRecordBegins(ids: set<Identity>, lease: Lease)
    requires "" !in ids && lease.version == 0
    ensures var candidates := map c | c in ids :: FRESH;
            && Init(ids, State(0.0, [], {}, candidates, {}))
            && Init(ids, State(0.0, [Commit(lease, None, 0.0)], {}, candidates, {}))
  {}

  /** Attempts begin exactly when their wait is over and no stop is set; a release begins when a leader stops. */
  lemma BeginsIff(p: Params, s: State, c: Identity, utc: int)
    requires c in s.cands
    ensures var d := s.cands[c];
            && (Enabled(p, s, BeginAcquire(c, utc)) <==> d.phase.Resting? && d.phase.until <= s.now && !d.stop)
            && (Enabled(p, s, BeginRenew(c, utc)) <==> d.phase.Pausing? && d.phase.earliest <= s.now && !d.stop)
            && (Enabled(p, s, BeginRelease(c)) <==> d.stop && d.leading)
            && (Enabled(p, s, EndRun(c)) <==> d.stop && (d.phase.Resting? || d.phase.Pausing?))
            && Enabled(p, s, RequestStop(c))
  {}

  /** An attempt begins with the clock and the timestamp of that moment. */
  lemma BeginDecides(p: Params, s: State, c: Identity, utc: int)
    ensures Enabled(p, s, BeginAcquire(c, utc)) ==>
              Next(p, s, BeginAcquire(c, utc))
              == s.(cands := s.cands[c := s.cands[c].(phase := Acquiring(Unread(s.now, utc)))])
    ensures Enabled(p, s, BeginRenew(c, utc)) ==>
              Next(p, s, BeginRenew(c, utc))
              == s.(cands := s.cands[c := s.cands[c].(phase := Renewing(Unread(s.now, utc)))])
    ensures Enabled(p, s, BeginRelease(c)) ==>
              Next(p, s, BeginRelease(c)) == s.(cands := s.cands[c := s.cands[c].(releasing := true)])
  {}

  /** A release thread that learns of its write observes the record it wrote. */
  lemma ReleaseObserves(p: Params, s: State, c: Identity, version: nat)
    requires Enabled(p, s, LearnRelease(c, version))
    ensures c in Next(p, s, LearnRelease(c, version)).cands && OnlyCandidate(s, Next(p, s, LearnRelease(c, version)), c)
    ensures var d, e := s.cands[c], Next(p, s, LearnRelease(c, version)).cands[c];
            Observed(d.sight, s.log[version].lease, p.lease, s.now, e.sight) && e == d.(sight := e.sight)
  {}

  /** Time passes freely but for attempts, and for callbacks and waits of candidates that are not stopping. */
  lemma TimePassesIff(p: Params, s: State, to: real)
    ensures Enabled(p, s, Tick(to)) <==>
            && s.now <= to
            && (forall c | c in s.cands && InCall(s.cands[c].phase) :: to <= s.cands[c].phase.call.Start() + p.attempt)
            && (forall c | c in s.cands && s.cands[c].phase.Starting? && !s.cands[c].stop ::
                  to <= s.cands[c].phase.since + p.callback)
            && (forall c | c in s.cands && s.cands[c].phase.Pausing? && !s.cands[c].stop :: to <= s.cands[c].phase.latest)
  {}

  /** A sent write, or one given up on, lands exactly while the stored version is the one it names. */
  lemma LandsIff(p: Params, s: State, c: Identity, req: Request)
    requires c in s.cands && InCall(s.cands[c].phase) && s.cands[c].phase.call == Sent(req)
    ensures Enabled(p, s, Land(c)) <==> if req.base.Some? then req.base.value == |s.log| - 1 else s.log == []
    ensures Enabled(p, s, LandLate(req)) <==> req in s.flying && Enabled(p, s, Land(c))
    ensures Enabled(p, s, Land(c)) ==>
              var d, e := s.cands[c], Next(p, s, Land(c)).cands[c];
              && KeepsFlag(d, e) && InCall(e.phase) && e.phase.call == Landed(req, |s.log|)
              && e.phase.Acquiring? == d.phase.Acquiring?
  {}

  /** Answers come at any moment of a call: a success exactly when the write has landed, a failure also when not. */
  lemma AnswersIff(p: Params, s: State, c: Identity)
    requires c in s.cands
    ensures var d := s.cands[c];
            && (Enabled(p, s, ReadLease(c)) <==> InCall(d.phase) && d.phase.call.Unread?)
            && (Enabled(p, s, ReadFails(c)) <==> InCall(d.phase) && d.phase.call.Unread?)
            && (Enabled(p, s, ReadUnauthorized(c)) <==> InCall(d.phase) && d.phase.call.Unread?)
            && (Enabled(p, s, Learn(c, true)) <==>
                  InCall(d.phase) && d.phase.call.Landed? && d.phase.call.version < |s.log|)
            && (Enabled(p, s, Learn(c, false)) <==> InCall(d.phase) && !d.phase.call.Unread?)
            && (Enabled(p, s, CallbackReturns(c)) <==> d.phase.Starting?)
  {}

  /** A release is sent over a record the candidate holds, learns only of its own write, and ends at any moment. */
  lemma ReleaseStepsIff(p: Params, s: State, c: Identity, utc: int, version: nat, notify: bool)
    requires c in s.cands
    ensures var d := s.cands[c];
            && (Enabled(p, s, SendRelease(c, utc)) <==> d.releasing && s.log != [] && Last(s.log).lease.holder == Some(c))
            && (Enabled(p, s, LearnRelease(c, version)) <==>
                  && d.releasing && version < |s.log| && s.log[version].via.Some?
                  && s.log[version].via.value.who == c && s.log[version].via.value.kind.Release?)
            && (Enabled(p, s, EndRelease(c, notify)) <==> d.stop)
  {}

  /** Stopping sets a flag and nothing else; run() ends without its lead. */
  lemma StopDecides(p: Params, s: State, c: Identity)
    requires c in s.cands
    ensures Next(p, s, RequestStop(c)) == s.(cands := s.cands[c := s.cands[c].(stop := true)])
    ensures Enabled(p, s, EndRun(c)) ==>
              && c in Next(p, s, EndRun(c)).cands
              && StepsDownNotified(s.cands[c], Next(p, s, EndRun(c)).cands[c])
              && Next(p, s, EndRun(c)).cands[c].phase.Ended?
  {}
}
