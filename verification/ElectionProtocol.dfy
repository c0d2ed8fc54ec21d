/**
  The election as a timed transition system: any number of candidates share one Lease, replaced
  by compare-and-swap on its version. One attempt is split into taking the timestamp, the server
  read, the server write and learning the result; a write may be reported as failed although it
  landed, and a write the client gave up on may still land later.
 */
module ElectionProtocol {
  import opened Wrappers
  import opened Leases

  /**
    `lease`, `renew` and `retry` are the configured seconds. The others bound the environment:
    one acquire or renew attempt, the started callback, and one retry wait of the renew loop
    (at least `retry`, at most `pause`).
   */
  datatype Params = Params(
    lease: real, renew: real, retry: real,
    attempt: real, callback: real, pause: real)

  /** What the validated configuration gives, and bounds that are bounds. */
  predicate WellFormed(p: Params) {
    && p.lease >= 5.0 && p.renew < p.lease
    && p.retry >= 1.0 && p.renew > p.retry * 1.2
    && p.attempt >= 0.0 && p.callback >= 0.0 && p.pause >= p.retry
  }

  datatype Kind = Creation | Acquisition | Renewal | Release

  /** A write in transit. `seen` is the local clock at which `who` first observed the base record. */
  datatype Request = Request(
    who: Identity, kind: Kind, base: Option<nat>, body: Body, utc: int, start: real, seen: real)

  /** A committed record; `via` is None for the record found when the run begins. */
  datatype Commit = Commit(lease: Lease, via: Option<Request>, at: real)

  /** An attempt in progress: before the read, write sent, write landed but not yet reported. */
  datatype Call =
    | Unread(start: real, utc: int)
    | Sent(req: Request)
    | Landed(req: Request, version: nat)
  {
    function Start(): real {
      match this
      case Unread(start, _) => start
      case Sent(req) => req.start
      case Landed(req, _) => req.start
    }
  }

  /** Where the election thread is. */
  datatype Phase =
    | Resting(until: real)                     // outer loop, between acquire attempts
    | Acquiring(call: Call)
    | Starting(since: real)                    // on_started_leading is running
    | Pausing(earliest: real, latest: real)    // renew loop, between renew attempts
    | Renewing(call: Call)
    | Ended                                    // run() has returned

  /** `starts`, `clears` and `notices` count started callbacks, flag clears and stopped callbacks. */
  datatype Candidate = Candidate(
    phase: Phase, sight: Sight, leading: bool, stop: bool, releasing: bool,
    deadline: real, confirmed: real, firstTerm: bool,
    starts: nat, clears: nat, notices: nat)

  /** A candidate's election first observed a version at a local time. */
  datatype Sighting = Sighting(who: Identity, version: nat, at: real)

  datatype State = State(
    now: real,
    log: seq<Commit>,                          // log[v] is the record of version v; the last is stored
    flying: set<Request>,                      // given up on, may still land
    cands: map<Identity, Candidate>,
    sightings: set<Sighting>)

  datatype Action =
    | Tick(to: real)
    | BeginAcquire(c: Identity, utc: int)
    | BeginRenew(c: Identity, utc: int)
    | ReadFails(c: Identity)
    | ReadUnauthorized(c: Identity)
    | ReadLease(c: Identity)
    | Land(c: Identity)
    | LandLate(req: Request)
    | Learn(c: Identity, success: bool)
    | CallbackReturns(c: Identity)
    | RequestStop(c: Identity)
    | BeginRelease(c: Identity)
    | SendRelease(c: Identity, utc: int)
    | LearnRelease(c: Identity, version: nat)
    | EndRelease(c: Identity, notify: bool)
    | EndRun(c: Identity)

  const FRESH := Candidate(Resting(0.0), UNSEEN, false, false, false, 0.0, 0.0, false, 0, 0, 0)

  /** The run begins with no Lease or with any record left by earlier processes. */
  ghost predicate Init(ids: set<Identity>, s: State) {
    && "" !in ids
    && s.now == 0.0
    && (s.log == [] || (|s.log| == 1 && s.log[0].lease.version == 0
                        && s.log[0].via == None && s.log[0].at == 0.0))
    && s.flying == {} && s.sightings == {}
    && s.cands == map c | c in ids :: FRESH
  }

  /**
    How long a phase may last: the environment bounds. Once `stop` is set the waits end at once
    and run() goes on to release the Lease, for which no bound is assumed.
   */
  predicate MayLast(p: Params, d: Candidate, to: real) {
    match d.phase
    case Acquiring(call) => to <= call.Start() + p.attempt
    case Renewing(call) => to <= call.Start() + p.attempt
    case Starting(since) => d.stop || to <= since + p.callback
    case Pausing(_, latest) => d.stop || to <= latest
    case Resting(_) => true
    case Ended => true
  }

  predicate InCall(phase: Phase) { phase.Acquiring? || phase.Renewing? }

  /** The compare-and-swap: a replace names the stored version, a create finds nothing stored. */
  predicate CanLand(log: seq<Commit>, req: Request) {
    match req.base
    case Some(v) => v + 1 == |log|
    case None => log == []
  }

  predicate Enabled(p: Params, s: State, a: Action) {
    match a
    case Tick(to) => s.now <= to && forall c | c in s.cands :: MayLast(p, s.cands[c], to)
    case BeginAcquire(c, _) =>
      c in s.cands && s.cands[c].phase.Resting? && s.cands[c].phase.until <= s.now && !s.cands[c].stop
    case BeginRenew(c, _) =>
      c in s.cands && s.cands[c].phase.Pausing? && s.cands[c].phase.earliest <= s.now && !s.cands[c].stop
    case ReadFails(c) => c in s.cands && InCall(s.cands[c].phase) && s.cands[c].phase.call.Unread?
    case ReadUnauthorized(c) => c in s.cands && InCall(s.cands[c].phase) && s.cands[c].phase.call.Unread?
    case ReadLease(c) => c in s.cands && InCall(s.cands[c].phase) && s.cands[c].phase.call.Unread?
    case Land(c) =>
      c in s.cands && InCall(s.cands[c].phase) && s.cands[c].phase.call.Sent?
      && CanLand(s.log, s.cands[c].phase.call.req)
    case LandLate(req) => req in s.flying && CanLand(s.log, req)
    case Learn(c, success) =>
      c in s.cands && InCall(s.cands[c].phase) && !s.cands[c].phase.call.Unread?
      && (success ==> s.cands[c].phase.call.Landed? && s.cands[c].phase.call.version < |s.log|)
    case CallbackReturns(c) => c in s.cands && s.cands[c].phase.Starting?
    case RequestStop(c) => c in s.cands
    case BeginRelease(c) => c in s.cands && s.cands[c].stop && s.cands[c].leading
    case SendRelease(c, _) =>
      c in s.cands && s.cands[c].releasing && s.log != [] && Last(s.log).lease.holder == Some(c)
    case LearnRelease(c, version) =>
      c in s.cands && s.cands[c].releasing && version < |s.log| && s.log[version].via.Some?
      && s.log[version].via.value.who == c && s.log[version].via.value.kind.Release?
    case EndRelease(c, _) => c in s.cands && s.cands[c].stop
    case EndRun(c) => c in s.cands && s.cands[c].stop && (s.cands[c].phase.Resting? || s.cands[c].phase.Pausing?)
  }

  function Last(log: seq<Commit>): Commit
    requires log != []
  {
    log[|log| - 1]
  }

  function Append(s: State, req: Request): State {
    s.(log := s.log + [Commit(Stored(req.body, |s.log|), Some(req), s.now)])
  }

  function Put(s: State, c: Identity, d: Candidate): State {
    s.(cands := s.cands[c := d])
  }

  /** `_stop_leading`: the flag falls at most once, and only its fall may notify. */
  function StopLeading(d: Candidate, notify: bool): Candidate {
    if d.leading then
      d.(leading := false, clears := d.clears + 1, notices := d.notices + if notify then 1 else 0)
    else d
  }

  /** `_become_leader`. */
  function BecomeLeader(d: Candidate): Candidate {
    if d.leading then d else d.(leading := true, starts := d.starts + 1)
  }

  function Rest(p: Params, s: State, d: Candidate): Candidate {
    d.(phase := Resting(s.now + p.retry))
  }

  /** After a transient renewal: step down at the deadline, otherwise wait and retry. */
  function AfterTransient(p: Params, s: State, d: Candidate): Candidate {
    if s.now >= d.deadline then Rest(p, s, StopLeading(d, true))
    else d.(phase := Pausing(s.now + p.retry, s.now + p.pause))
  }

  /** An attempt that did not succeed. */
  function Unsuccessful(p: Params, s: State, d: Candidate): Candidate {
    if d.phase.Acquiring? then Rest(p, s, d) else AfterTransient(p, s, d)
  }

  /** The raise of a 401 leaves run(): the flag falls and the supervisor builds a new election. */
  function Raised(s: State, d: Candidate): Candidate {
    if d.stop then StopLeading(d, true).(phase := Ended)
    else StopLeading(d, true).(phase := Resting(s.now), sight := UNSEEN)
  }

  /** The observation an attempt makes of the record it read. */
  function SightOfRead(p: Params, s: State, d: Candidate): Sight
    requires s.log != [] && InCall(d.phase)
  {
    Observe(d.sight, KeyOf(Last(s.log).lease, p.lease), d.phase.call.Start())
  }

  /** `_try_acquire_once` on the record it read. */
  function ReadToAcquire(p: Params, s: State, c: Identity, d: Candidate): Candidate
    requires s.log != [] && d.phase.Acquiring? && d.phase.call.Unread?
  {
    var lease, sight := Last(s.log).lease, SightOfRead(p, s, d);
    var start, utc := d.phase.call.start, d.phase.call.utc;
    if Blocked(lease, c, sight, start, p.lease) then Rest(p, s, d.(sight := sight))
    else d.(sight := sight, phase := Acquiring(Sent(Request(
      c, Acquisition, Some(lease.version), AcquireBody(lease, c, p.lease, utc), utc, start, sight.at))))
  }

  /** `_renew_once` on the record it read. */
  function ReadToRenew(p: Params, s: State, c: Identity, d: Candidate): Candidate
    requires s.log != [] && d.phase.Renewing? && d.phase.call.Unread?
  {
    var lease, sight := Last(s.log).lease, SightOfRead(p, s, d);
    var start, utc := d.phase.call.start, d.phase.call.utc;
    if Foreign(lease, c) then Rest(p, s, StopLeading(d.(sight := sight), true))
    else d.(sight := sight, phase := Renewing(Sent(Request(
      c, Renewal, Some(lease.version), RenewBody(lease, c, p.lease, utc), utc, start, sight.at))))
  }

  /** A 404: an acquire attempt creates the Lease, a renew attempt is transient. */
  function ReadMissing(p: Params, s: State, c: Identity, d: Candidate): Candidate
    requires InCall(d.phase) && d.phase.call.Unread?
  {
    var start, utc := d.phase.call.start, d.phase.call.utc;
    if d.phase.Renewing? then AfterTransient(p, s, d)
    else d.(phase := Acquiring(Sent(Request(
      c, Creation, None, CreateBody(c, p.lease, utc), utc, start, start))))
  }

  /** The server read of an attempt and the decision taken on it. */
  function Read(p: Params, s: State, c: Identity): State
    requires c in s.cands && InCall(s.cands[c].phase) && s.cands[c].phase.call.Unread?
  {
    var d := s.cands[c];
    if s.log == [] then Put(s, c, ReadMissing(p, s, c, d))
    else
      Put(s, c, if d.phase.Acquiring? then ReadToAcquire(p, s, c, d) else ReadToRenew(p, s, c, d))
      .(sightings := s.sightings + {Sighting(c, Last(s.log).lease.version, SightOfRead(p, s, d).at)})
  }

  /** `_observe_lease` on the record of one's own write, at the current clock. */
  function SightOfWrite(p: Params, s: State, d: Candidate, version: nat): Sight
    requires version < |s.log|
  {
    Observe(d.sight, KeyOf(s.log[version].lease, p.lease), s.now)
  }

  /** A confirmed acquisition starts a term, a confirmed renewal moves the deadline. */
  function Confirmed(p: Params, s: State, d: Candidate, version: nat): Candidate
    requires InCall(d.phase) && version < |s.log|
  {
    var d1 := d.(sight := SightOfWrite(p, s, d, version), confirmed := s.now);
    if d.phase.Acquiring? then BecomeLeader(d1).(phase := Starting(s.now), firstTerm := true)
    else d1.(phase := Pausing(s.now + p.retry, s.now + p.pause),
             deadline := s.now + p.renew, firstTerm := false)
  }

  /** The client learns how its write ended. */
  function Learned(p: Params, s: State, c: Identity, success: bool): State
    requires Enabled(p, s, Learn(c, success))
  {
    var d := s.cands[c];
    if success then
      var version := d.phase.call.version;
      Put(s, c, Confirmed(p, s, d, version))
      .(sightings := s.sightings + {Sighting(c, version, SightOfWrite(p, s, d, version).at)})
    else
      Put(s, c, Unsuccessful(p, s, d))
      .(flying := s.flying + if d.phase.call.Sent? then {d.phase.call.req} else {})
  }

  function Next(p: Params, s: State, a: Action): State
    requires Enabled(p, s, a)
  {
    match a
    case Tick(to) => s.(now := to)
    case BeginAcquire(c, utc) => Put(s, c, s.cands[c].(phase := Acquiring(Unread(s.now, utc))))
    case BeginRenew(c, utc) => Put(s, c, s.cands[c].(phase := Renewing(Unread(s.now, utc))))
    case ReadFails(c) => Put(s, c, Unsuccessful(p, s, s.cands[c]))
    case ReadUnauthorized(c) => Put(s, c, Raised(s, s.cands[c]))
    case ReadLease(c) => Read(p, s, c)
    case Land(c) =>
      var d := s.cands[c];
      var call := Landed(d.phase.call.req, |s.log|);
      Put(Append(s, call.req), c,
          d.(phase := if d.phase.Acquiring? then Acquiring(call) else Renewing(call)))
    case LandLate(req) => Append(s, req).(flying := s.flying - {req})
    case Learn(c, success) => Learned(p, s, c, success)
    case CallbackReturns(c) =>
      Put(s, c, s.cands[c].(phase := Pausing(s.now, s.now), deadline := s.now + p.renew))
    case RequestStop(c) => Put(s, c, s.cands[c].(stop := true))
    case BeginRelease(c) => Put(s, c, s.cands[c].(releasing := true))
    case SendRelease(c, utc) =>
      var lease := Last(s.log).lease;
      s.(flying := s.flying + {Request(
        c, Release, Some(lease.version), ReleaseBody(lease, utc), utc, s.now, s.now)})
    case LearnRelease(c, version) =>
      var sight := SightOfWrite(p, s, s.cands[c], version);
      Put(s, c, s.cands[c].(sight := sight)).(sightings := s.sightings + {Sighting(c, version, sight.at)})
    case EndRelease(c, notify) => Put(s, c, StopLeading(s.cands[c], notify))
    case EndRun(c) => Put(s, c, StopLeading(s.cands[c], true).(phase := Ended))
  }

  /** `actions` leads from `s` to `t`. */
  ghost predicate Run(p: Params, s: State, actions: seq<Action>, t: State)
    decreases |actions|
  {
    if actions == [] then s == t
    else Enabled(p, s, actions[0]) && Run(p, Next(p, s, actions[0]), actions[1..], t)
  }

  ghost predicate Reachable(p: Params, ids: set<Identity>, t: State) {
    exists s, actions :: Init(ids, s) && Run(p, s, actions, t)
  }

  lemma {:induction false} RunConcat(p: Params, s: State, xs: seq<Action>, m: State, ys: seq<Action>, t: State)
    requires Run(p, s, xs, m) && Run(p, m, ys, t)
    ensures Run(p, s, xs + ys, t)
    decreases |xs|
  {
    if xs == [] {
      assert xs + ys == ys;
    } else {
      RunConcat(p, Next(p, s, xs[0]), xs[1..], m, ys, t);
      assert (xs + ys)[0] == xs[0] && (xs + ys)[1..] == xs[1..] + ys;
    }
  }
}
