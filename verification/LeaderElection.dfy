/**
  The election object of one process: the fields its locks protect and the loops that change
  them. What the API answers and when each step ends are parameters of the methods; the decisions
  are those of module Leases, which the protocol shares.
 */
module LeaderElection {
  import opened Wrappers
  import opened Leases
  import P = ElectionProtocol
  import S = ElectionSafety
  import E = ElectionExactness

  // ---------------------------------------------------------------- configuration

  datatype Config = Config(
    lockName: string, lockNamespace: string, identity: Identity,
    lease: int, renew: int, retry: int)

  datatype ConfigError =
    | LeaseTooShort
    | RenewNotBelowLease
    | RetryTooShort
    | RenewNotAboveRetry
    | NamesRequired

  function Validate(c: Config): Result<Config, ConfigError> {
    if c.lease < 5 then Err(LeaseTooShort)
    else if c.renew >= c.lease then Err(RenewNotBelowLease)
    else if c.retry < 1 then Err(RetryTooShort)
    else if c.renew as real <= c.retry as real * 1.2 then Err(RenewNotAboveRetry)
    else if c.lockName == "" || c.lockNamespace == "" || c.identity == "" then Err(NamesRequired)
    else Ok(c)
  }

  /** Which configurations are accepted, and which of the five errors a refused one gets. */
  lemma ValidateMeaning(c: Config)
    ensures Validate(c) == Ok(c)
       <==> && c.lease >= 5 && c.renew < c.lease && c.retry >= 1 && 5 * c.renew > 6 * c.retry
            && c.lockName != "" && c.lockNamespace != "" && c.identity != ""
    ensures Validate(c) == Err(LeaseTooShort) <==> c.lease < 5
    ensures Validate(c) == Err(RenewNotBelowLease) <==> c.lease >= 5 && c.renew >= c.lease
    ensures Validate(c) == Err(RetryTooShort) <==> c.lease >= 5 && c.renew < c.lease && c.retry < 1
    ensures Validate(c) == Err(RenewNotAboveRetry)
       <==> c.lease >= 5 && c.renew < c.lease && c.retry >= 1 && 5 * c.renew <= 6 * c.retry
    ensures Validate(c).Ok? ==> Validate(c) == Ok(c)
  {}

  function ParamsOf(c: Config, attempt: real, callback: real, pause: real): P.Params {
    P.Params(c.lease as real, c.renew as real, c.retry as real, attempt, callback, pause)
  }

  /** The connect and the read timeout of one Kubernetes API request. */
  function ApiRequestTimeout(c: Config): (t: real)
    ensures t >= 1.0 && 2.0 * t >= c.renew as real && (t == 1.0 || 2.0 * t == c.renew as real)
  {
    if c.renew as real / 2.0 > 1.0 then c.renew as real / 2.0 else 1.0
  }

  /** A configuration the validator accepts satisfies the protocol's assumptions. */
  lemma ValidatedIsWellFormed(c: Config, attempt: real, callback: real, pause: real)
    requires Validate(c).Ok? && attempt >= 0.0 && callback >= 0.0 && pause >= c.retry as real
    ensures P.WellFormed(ParamsOf(c, attempt, callback, pause))
  {}

  /**
    Validation does not give mutual exclusion: with the default seconds (15, 10, 2) and with the
    deployed ones (8, 5, 1), an attempt that lasts one request timeout already breaks the covering
    condition.
   */
  lemma DefaultsAreNotCovered(c: Config, attempt: real, callback: real, pause: real)
    requires (c.lease, c.renew, c.retry) == (15, 10, 2) || (c.lease, c.renew, c.retry) == (8, 5, 1)
    requires attempt >= ApiRequestTimeout(c) && callback >= 0.0 && pause >= c.retry as real
    ensures c.lockName != "" && c.lockNamespace != "" && c.identity != "" ==> Validate(c) == Ok(c)
    ensures !S.Covers(ParamsOf(c, attempt, callback, pause))
  {}

  /** One attempt as long as one request timeout is enough for failing attempts to reach up to the deadline. */
  lemma TimeoutFills(c: Config, attempt: real, callback: real, pause: real)
    requires Validate(c).Ok? && attempt >= ApiRequestTimeout(c) && pause >= c.retry as real
    ensures E.Fills(ParamsOf(c, attempt, callback, pause), 1)
  {}

  /**
    Mutual exclusion of a validated configuration, exactly: for attempts that may last at least one
    request timeout (an attempt makes two requests), two or more candidates never lead together
    without stopping if and only if the lease covers the bounds.
   */
  lemma ConfiguredExclusionIff(c: Config, attempt: real, callback: real, pause: real,
                               ids: set<Identity>, a: Identity, b: Identity)
    requires Validate(c).Ok? && attempt >= ApiRequestTimeout(c) && callback >= 0.0 && pause >= c.retry as real
    requires a in ids && b in ids && a != b && "" !in ids
    ensures var p := ParamsOf(c, attempt, callback, pause);
            c.lease as real >= c.renew as real + pause + callback + 3.0 * attempt
            <==> forall s | P.Reachable(p, ids, s) :: S.LeadsAlone(s)
  {
    TimeoutFills(c, attempt, callback, pause);
    E.MutualExclusionIffCovered(ParamsOf(c, attempt, callback, pause), ids, a, b, 1);
  }

  // ---------------------------------------------------------------- one API call

  /** The credential reload behind a 401 is part of the call: Unauthorized is a 401 that stays. */
  datatype ReadOutcome = Found(lease: Lease) | NotFound | Unauthorized | Failed

  /** Refused is any error, also one whose write was committed. */
  datatype WriteOutcome = Accepted(version: nat) | Refused

  datatype RenewResult = Renewed | Transient | Lost | Raised

  datatype Callback = Started | Stopped

  /** One turn of the renew loop, and whether the wait after it was cut short by `stop`. */
  datatype Turn = Turn(
    read: ReadOutcome, write: WriteOutcome, utc: int,
    began: real, ended: real, stopAfter: bool)

  /** One try of the best-effort release. */
  datatype Try = Try(read: ReadOutcome, write: WriteOutcome, utc: int, ended: real)

  /** How the renew loop ended; Running when the given turns did not end it. */
  datatype LoopEnd = LoopLost | Lapsed | Stopping | LoopRaised | Running

  /** What `_renew_once` answers. */
  function RenewOutcome(me: Identity, turn: Turn): RenewResult {
    match turn.read
    case Unauthorized => Raised
    case NotFound => Transient
    case Failed => Transient
    case Found(lease) =>
      if Foreign(lease, me) then Lost else if turn.write.Accepted? then Renewed else Transient
  }

  /** The turn reads a Lease with another non-empty holder. */
  predicate ShowsAnother(me: Identity, turn: Turn) {
    turn.read.Found? && HeldByAnother(turn.read.lease, me)
  }

  /** Which read and write give each answer. */
  lemma TurnMeaning(me: Identity, turn: Turn)
    ensures RenewOutcome(me, turn) == Raised <==> turn.read.Unauthorized?
    ensures RenewOutcome(me, turn) == Lost <==> ShowsAnother(me, turn)
    ensures RenewOutcome(me, turn) == Renewed <==>
            turn.read.Found? && !HeldByAnother(turn.read.lease, me) && turn.write.Accepted?
    ensures RenewOutcome(me, turn) == Transient <==>
            turn.read.NotFound? || turn.read.Failed?
            || (turn.read.Found? && !HeldByAnother(turn.read.lease, me) && turn.write.Refused?)
  {
    if turn.read.Found? {
      RecordReadings(turn.read.lease, me, 1.0);
    }
  }

  /** The local observation after one renew attempt: of what it read, then of its own write. */
  function TurnSight(me: Identity, lease: real, sight: Sight, turn: Turn): Sight {
    if !turn.read.Found? then sight
    else
      var seen := Observe(sight, KeyOf(turn.read.lease, lease), turn.began);
      if !RenewOutcome(me, turn).Renewed? then seen
      else
        var body := RenewBody(turn.read.lease, me, lease, turn.utc);
        Observe(seen, KeyOf(Stored(body, turn.write.version), lease), turn.ended)
  }

  function SightAfter(me: Identity, lease: real, sight: Sight, turns: seq<Turn>, k: nat): Sight
    requires k <= |turns|
  {
    if k == 0 then sight else TurnSight(me, lease, SightAfter(me, lease, sight, turns, k - 1), turns[k - 1])
  }

  /** When leadership was last confirmed, `start` or the end of a renewed turn, before turn `k`. */
  function LastConfirmed(me: Identity, start: real, turns: seq<Turn>, k: nat): real
    requires k <= |turns|
  {
    if k == 0 then start
    else if RenewOutcome(me, turns[k - 1]).Renewed? then turns[k - 1].ended
    else LastConfirmed(me, start, turns, k - 1)
  }

  /** A turn that renews: it reads a record nobody else holds and its write is accepted. */
  predicate Renews(me: Identity, turn: Turn) {
    turn.read.Found? && !HeldByAnother(turn.read.lease, me) && turn.write.Accepted?
  }

  ghost predicate NoneRenews(me: Identity, turns: seq<Turn>, from: nat, k: nat)
    requires from <= k <= |turns|
  {
    forall i | from <= i < k :: !Renews(me, turns[i])
  }

  /** Without a renewing turn the last confirmation is the start. */
  lemma {:induction false} NeverConfirmed(me: Identity, start: real, turns: seq<Turn>, k: nat)
    requires k <= |turns| && NoneRenews(me, turns, 0, k)
    ensures LastConfirmed(me, start, turns, k) == start
  {
    if k == 0 {
    } else {
      TurnMeaning(me, turns[k - 1]);
      NeverConfirmed(me, start, turns, k - 1);
    }
  }

  /** Otherwise it is the end of the last renewing turn. */
  lemma {:induction false} ConfirmedBy(me: Identity, start: real, turns: seq<Turn>, k: nat, i: nat)
    requires i < k <= |turns| && Renews(me, turns[i]) && NoneRenews(me, turns, i + 1, k)
    ensures LastConfirmed(me, start, turns, k) == turns[i].ended
  {
    TurnMeaning(me, turns[k - 1]);
    if k == i + 1 {
    } else {
      ConfirmedBy(me, start, turns, k - 1, i);
    }
  }

  /**
    The renew loop goes on after turn `k`: no stop, and the turn renews, or it shows no other holder, is
    not refused with a 401, and ends before the deadline.
   */
  predicate GoesOn(me: Identity, renew: real, start: real, turns: seq<Turn>, k: nat)
    requires k < |turns|
  {
    && !turns[k].stopAfter
    && (Renews(me, turns[k])
        || (!ShowsAnother(me, turns[k]) && !turns[k].read.Unauthorized?
            && turns[k].ended < LastConfirmed(me, start, turns, k) + renew))
  }

  /** The attempt lasts at most `attempt`, the wait before it at most `pause`; the first has no wait. */
  predicate PunctualTurn(turns: seq<Turn>, start: real, attempt: real, pause: real, i: nat)
    requires i < |turns|
  {
    && turns[i].began <= turns[i].ended <= turns[i].began + attempt
    && turns[i].began <= (if i == 0 then start else turns[i - 1].ended + pause)
  }

  predicate Punctual(turns: seq<Turn>, start: real, attempt: real, pause: real) {
    forall i: nat | i < |turns| :: PunctualTurn(turns, start, attempt, pause, i)
  }

  class LeaseElection {
    const identity: Identity
    const lease: real
    const renew: real
    const retry: real
    var sight: Sight
    var isLeader: bool
    var stop: bool
    var callbacks: seq<Callback>           // callbacks issued, oldest first

    constructor (config: Config)
      ensures identity == config.identity && lease == config.lease as real
      ensures renew == config.renew as real && retry == config.retry as real
      ensures sight == UNSEEN && !isLeader && !stop && callbacks == []
    {
      identity, lease := config.identity, config.lease as real;
      renew, retry := config.renew as real, config.retry as real;
      sight, isLeader, stop, callbacks := UNSEEN, false, false, [];
    }

    /** `_become_leader`: the started callback runs exactly when the flag rises. */
    method BecomeLeader()
      modifies this`isLeader, this`callbacks
      ensures isLeader
      ensures callbacks == old(callbacks) + if old(isLeader) then [] else [Started]
    {
      if isLeader {
        return;
      }
      isLeader := true;
      callbacks := callbacks + [Started];
    }

    /** `_stop_leading`: the stopped callback runs only when the flag falls, and only if asked. */
    method StopLeading(notify: bool)
      modifies this`isLeader, this`callbacks
      ensures !isLeader
      ensures callbacks == old(callbacks) + if old(isLeader) && notify then [Stopped] else []
    {
      if !isLeader {
        return;
      }
      isLeader := false;
      if notify {
        callbacks := callbacks + [Stopped];
      }
    }

    method ObserveLease(found: Lease, now: real)
      modifies this`sight
      ensures sight == Observe(old(sight), KeyOf(found, lease), now) && Observed(old(sight), found, lease, now, sight)
    {
      var key := KeyOf(found, lease);
      if sight.key != Some(key) {
        sight := Sight(Some(key), now);
      }
    }

    /**
      `_try_acquire_once`: what was sent, if anything, and whether the Lease was won. A record
      that is foreign and still valid on this clock is left alone; a missing one is created.
     */
    method TryAcquireOnce(read: ReadOutcome, write: WriteOutcome, utc: int, now: real, ended: real)
      returns (won: Result<bool, ()>, sent: Option<Body>)
      modifies this`sight
      ensures won.Err? <==> read.Unauthorized?
      ensures won == Ok(true) <==> sent.Some? && write.Accepted?
      ensures match read
              case Unauthorized => sent == None && sight == old(sight)
              case Failed => sent == None && sight == old(sight)
              case NotFound => sent == Some(CreateBody(identity, lease, utc))
              case Found(found) =>
                var seen := Observe(old(sight), KeyOf(found, lease), now);
                && (sent.None? <==> Blocked(found, identity, seen, now, lease))
                && (sent.Some? ==> sent.value == AcquireBody(found, identity, lease, utc))
                && (won != Ok(true) ==> sight == seen)
      ensures read.Found? ==>
                exists seen: Sight, d: real ::
                  && Observed(old(sight), read.lease, lease, now, seen) && IsDuration(read.lease, lease, d)
                  && (sent.None? <==> HeldByAnother(read.lease, identity) && seen.at + d > now)
      ensures read.Found? && sent.Some? ==>
                var own := read.lease.holder == Some(identity);
                && sent.value.holder == identity && sent.value.duration == lease && sent.value.renewed == utc
                && sent.value.acquired == (if own then read.lease.acquired else Some(utc))
                && IsCount(read.lease, sent.value.transitions - if own then 0 else 1)
      ensures read.NotFound? ==> sent == Some(Body(identity, lease, 0, Some(utc), utc))
      ensures read.NotFound? && write.Refused? ==> sight == old(sight)
      ensures won == Ok(true) ==>
                var seen := if read.Found? then Observe(old(sight), KeyOf(read.lease, lease), now) else old(sight);
                sight == Observe(seen, KeyOf(Stored(sent.value, write.version), lease), ended)
    {
      sent := None;
      match read {
        case Unauthorized => return Err(()), None;
        case Failed => return Ok(false), None;
        case NotFound => sent := Some(CreateBody(identity, lease, utc));
        case Found(found) =>
          ObserveLease(found, now);
          RecordReadings(found, identity, lease);
          if Foreign(found, identity) && sight.at + Duration(found, lease) > now {
            return Ok(false), None;
          }
          sent := Some(AcquireBody(found, identity, lease, utc));
      }
      if write.Accepted? {
        ObserveLease(Stored(sent.value, write.version), ended);
        return Ok(true), sent;
      }
      return Ok(false), sent;
    }

    /** `_renew_once`. */
    method RenewOnce(turn: Turn) returns (result: RenewResult, sent: Option<Body>)
      modifies this`sight
      ensures result == RenewOutcome(identity, turn)
      ensures result == Raised <==> turn.read.Unauthorized?
      ensures result == Lost <==> ShowsAnother(identity, turn)
      ensures result == Renewed <==>
              turn.read.Found? && !HeldByAnother(turn.read.lease, identity) && turn.write.Accepted?
      ensures result == Transient <==>
              turn.read.NotFound? || turn.read.Failed?
              || (turn.read.Found? && !HeldByAnother(turn.read.lease, identity) && turn.write.Refused?)
      ensures sent.Some? <==> turn.read.Found? && !HeldByAnother(turn.read.lease, identity)
      ensures sent.Some? ==>
                var found := turn.read.lease;
                && sent.value.holder == identity && sent.value.duration == lease && sent.value.renewed == turn.utc
                && sent.value.acquired == (if found.acquired.Some? then found.acquired else Some(turn.utc))
                && IsCount(found, sent.value.transitions)
      ensures sight == TurnSight(identity, lease, old(sight), turn)
      ensures !turn.read.Found? ==> sight == old(sight)
      ensures turn.read.Found? && result != Renewed ==> Observed(old(sight), turn.read.lease, lease, turn.began, sight)
      ensures result == Renewed ==>
                exists seen: Sight ::
                  && Observed(old(sight), turn.read.lease, lease, turn.began, seen)
                  && Observed(seen, Stored(sent.value, turn.write.version), lease, turn.ended, sight)
    {
      TurnMeaning(identity, turn);
      sent := None;
      match turn.read {
        case Unauthorized => return Raised, None;
        case NotFound => return Transient, None;
        case Failed => return Transient, None;
        case Found(found) =>
          RecordReadings(found, identity, lease);
          ObserveLease(found, turn.began);
          if Foreign(found, identity) {
            return Lost, None;
          }
          sent := Some(RenewBody(found, identity, lease, turn.utc));
          if turn.write.Accepted? {
            ObserveLease(Stored(sent.value, turn.write.version), turn.ended);
            return Renewed, sent;
          }
          return Transient, sent;
      }
    }

    /**
      `_renew_loop` from `start`: it ends at the first turn that loses the Lease, that is transient
      at or after one renew deadline past the last confirmation, that raises, or after which `stop`
      is set. Losing and lapsing clear the flag and notify; stopping and raising leave it.
     */
    method RenewLoop(start: real, turns: seq<Turn>) returns (how: LoopEnd, k: nat)
      modifies this
      ensures k <= |turns| && forall i: nat | i < k :: GoesOn(identity, renew, start, turns, i)
      ensures how == Running ==> k == |turns| && !stop
      ensures how == LoopLost ==> k < |turns| && ShowsAnother(identity, turns[k])
      ensures how == Lapsed ==>
                && k < |turns| && !Renews(identity, turns[k]) && !ShowsAnother(identity, turns[k])
                && !turns[k].read.Unauthorized? && turns[k].ended >= LastConfirmed(identity, start, turns, k) + renew
      ensures !old(stop) && k < |turns| && ShowsAnother(identity, turns[k]) ==>
                how == LoopLost && !isLeader && callbacks == old(callbacks) + if old(isLeader) then [Stopped] else []
      ensures how == LoopRaised <==> !old(stop) && k < |turns| && turns[k].read.Unauthorized?
      ensures how == Running <==> !old(stop) && k == |turns|
      ensures how == Stopping <==> stop
      ensures how == Stopping ==> (old(stop) && k == 0) || (k < |turns| && turns[k].stopAfter)
      ensures sight == SightAfter(identity, lease, old(sight), turns,
                                  if how == Running || old(stop) then k else k + 1)
      ensures how == LoopLost || how == Lapsed ==>
                !isLeader && callbacks == old(callbacks) + if old(isLeader) then [Stopped] else []
      ensures how == Stopping || how == LoopRaised || how == Running ==>
                isLeader == old(isLeader) && callbacks == old(callbacks)
    {
      var deadline := start + renew;
      k := 0;
      while !stop
        invariant k <= |turns| && stop == old(stop)
        invariant isLeader == old(isLeader) && callbacks == old(callbacks)
        invariant old(stop) ==> k == 0
        invariant sight == SightAfter(identity, lease, old(sight), turns, k)
        invariant deadline == LastConfirmed(identity, start, turns, k) + renew
        invariant forall i: nat | i < k :: GoesOn(identity, renew, start, turns, i)
        decreases |turns| - k
      {
        if k == |turns| {
          return Running, k;
        }
        var turn := turns[k];
        TurnMeaning(identity, turn);
        var result, _ := RenewOnce(turn);
        if result == Raised {
          return LoopRaised, k;
        } else if result == Renewed {
          deadline := turn.ended + renew;
        } else if result == Lost {
          StopLeading(true);
          return LoopLost, k;
        } else if turn.ended >= deadline {
          StopLeading(true);
          return Lapsed, k;
        }
        if turn.stopAfter {
          stop := true;
          return Stopping, k;
        }
        k := k + 1;
      }
      how := Stopping;
    }

    /**
      `_release_lease_best_effort` from `start`: it sends one release per try, each computed from
      a record this candidate holds, and stops at the first that is accepted, at the first failed
      read or foreign record, and at the first refusal once a renew deadline has passed.
     */
    method ReleaseLeaseBestEffort(start: real, tries: seq<Try>) returns (sent: seq<Body>)
      modifies this`sight
      ensures |sent| <= |tries|
      ensures forall i: nat | i < |sent| ::
                && tries[i].read.Found? && tries[i].read.lease.holder == Some(identity)
                && sent[i] == ReleaseBody(tries[i].read.lease, tries[i].utc)
      ensures forall i: nat | i < |sent| ::
                && sent[i].holder == "" && sent[i].duration == 1.0 && IsCount(tries[i].read.lease, sent[i].transitions)
                && sent[i].acquired == Some(tries[i].utc) && sent[i].renewed == tries[i].utc
      ensures forall i: nat | i + 1 < |sent| :: tries[i].write.Refused? && tries[i].ended < start + renew
      ensures |sent| < |tries| ==>
                || (sent != [] && (tries[|sent| - 1].write.Accepted?
                                   || tries[|sent| - 1].ended >= start + renew))
                || !tries[|sent|].read.Found? || tries[|sent|].read.lease.holder != Some(identity)
      ensures sight == if sent != [] && tries[|sent| - 1].write.Accepted? then
                         Observe(old(sight), KeyOf(Stored(sent[|sent| - 1], tries[|sent| - 1].write.version), lease),
                                 tries[|sent| - 1].ended)
                       else old(sight)
    {
      sent := [];
      var deadline := start + renew;
      for i := 0 to |tries|
        invariant |sent| == i && sight == old(sight)
        invariant forall j: nat | j < i ::
                    && tries[j].read.Found? && tries[j].read.lease.holder == Some(identity)
                    && sent[j] == ReleaseBody(tries[j].read.lease, tries[j].utc)
                    && tries[j].write.Refused? && tries[j].ended < deadline
      {
        if !tries[i].read.Found? || tries[i].read.lease.holder != Some(identity) {
          return;
        }
        sent := sent + [ReleaseBody(tries[i].read.lease, tries[i].utc)];
        if tries[i].write.Accepted? {
          ObserveLease(Stored(sent[i], tries[i].write.version), tries[i].ended);
          return;
        }
        if tries[i].ended >= deadline {
          return;
        }
      }
    }

    /** `release`: only a leader writes, and afterwards nobody leads here. */
    method Release(notify: bool, start: real, tries: seq<Try>) returns (sent: seq<Body>)
      modifies this
      ensures stop && !isLeader
      ensures !old(isLeader) ==> sent == []
      ensures forall body | body in sent :: body.holder == "" && body.duration == 1.0
      ensures callbacks == old(callbacks) + if old(isLeader) && notify then [Stopped] else []
    {
      stop := true;
      sent := [];
      if isLeader {
        sent := ReleaseLeaseBestEffort(start, tries);
      }
      StopLeading(notify);
    }
  }

  /**
    The step-down bound of the loop itself: when the turns are punctual, any turn the loop reaches
    ends within one deadline, one wait and one attempt of the last confirmation, so a lapse does.
   */
  lemma LapsesInTime(me: Identity, renew: real, start: real, turns: seq<Turn>, k: nat, attempt: real, pause: real)
    requires renew > 0.0 && pause >= 0.0 && k < |turns| && Punctual(turns, start, attempt, pause)
    requires forall i: nat | i < k :: GoesOn(me, renew, start, turns, i)
    ensures turns[k].ended < LastConfirmed(me, start, turns, k) + renew + pause + attempt
  {
    if k > 0 {
      TurnMeaning(me, turns[k - 1]);
      assert GoesOn(me, renew, start, turns, k - 1);
      assert turns[k - 1].ended < LastConfirmed(me, start, turns, k) + renew;
    }
    assert PunctualTurn(turns, start, attempt, pause, k);
  }

  // ---------------------------------------------------------------- supervisor

  /** How one election of the supervisor ended, and whether `stop` was set during the wait. */
  datatype Iteration = Iteration(raised: bool, stopAfter: bool)

  /** Iterations that raised in a row just before iteration `k`. */
  function FailuresBefore(script: seq<Iteration>, k: nat): nat
    requires k <= |script|
  {
    if k == 0 then 0 else if script[k - 1].raised then FailuresBefore(script, k - 1) + 1 else 0
  }

  function Doubled(seconds: real, times: nat): real {
    if times == 0 then seconds
    else var once := Doubled(seconds, times - 1) * 2.0; if once > 60.0 then 60.0 else once
  }

  /** The backoff with which iteration `k` begins: doubled once per earlier iteration since the last clean return. */
  function BackoffAt(retry: real, script: seq<Iteration>, k: nat): real
    requires k <= |script|
  {
    var failures := FailuresBefore(script, k);
    Doubled(retry, if failures == k then failures else failures + 1)
  }

  /** The wait after iteration `k`: the retry period after a clean return, the backoff after a raise. */
  function BackoffWait(retry: real, script: seq<Iteration>, k: nat): real
    requires k < |script|
  {
    if !script[k].raised then retry else BackoffAt(retry, script, k)
  }

  lemma {:induction false} FailuresWithin(script: seq<Iteration>, k: nat)
    requires k <= |script|
    ensures FailuresBefore(script, k) <= k
  {
    if k == 0 {
    } else {
      FailuresWithin(script, k - 1);
    }
  }

  lemma BackoffStep(retry: real, script: seq<Iteration>, k: nat)
    requires k < |script|
    ensures var once := BackoffWait(retry, script, k) * 2.0;
            BackoffAt(retry, script, k + 1) == if once > 60.0 then 60.0 else once
  {
    FailuresWithin(script, k);
    FailuresWithin(script, k + 1);
    assert Doubled(retry, 0) == retry;
  }

  /**
    The waits, without naming the backoff: the retry period after a clean return; after a raise, the
    retry period at first, and then twice the wait before, at most 60 seconds.
   */
  lemma WaitsMeaning(retry: real, script: seq<Iteration>, k: nat)
    requires k < |script|
    ensures !script[k].raised || k == 0 ==> BackoffWait(retry, script, k) == retry
    ensures script[k].raised && k > 0 ==>
              var twice := BackoffWait(retry, script, k - 1) * 2.0;
              BackoffWait(retry, script, k) == if twice > 60.0 then 60.0 else twice
  {
    if k > 0 {
      BackoffStep(retry, script, k - 1);
    }
  }

  class LeaderElectionRunner {
    const retry: real
    var stop: bool

    constructor (config: Config)
      ensures retry == config.retry as real && !stop
    {
      retry, stop := config.retry as real, false;
    }

    /** `run_forever`: the waits between elections, until `stop`. */
    method RunForever(script: seq<Iteration>) returns (waits: seq<real>)
      modifies this
      ensures |waits| <= |script|
      ensures forall i: nat | i < |waits| :: waits[i] == BackoffWait(retry, script, i)
      ensures forall i: nat | i + 1 < |waits| :: !script[i].stopAfter
      ensures |waits| < |script| ==> old(stop) || (waits != [] && script[|waits| - 1].stopAfter)
    {
      waits := [];
      var backoff := retry;
      while !stop && |waits| < |script|
        invariant |waits| <= |script| && (stop ==> old(stop))
        invariant forall i: nat | i < |waits| :: waits[i] == BackoffWait(retry, script, i) && !script[i].stopAfter
        invariant backoff == BackoffAt(retry, script, |waits|)
        decreases |script| - |waits|
      {
        var k := |waits|;
        if !script[k].raised {
          backoff := retry;
        }
        waits := waits + [backoff];
        if script[k].stopAfter {
          stop := true;
          return;
        }
        BackoffStep(retry, script, k);
        backoff := if backoff * 2.0 > 60.0 then 60.0 else backoff * 2.0;
      }
    }
  }

  lemma {:induction false} DoubledBounded(seconds: real, times: nat)
    requires seconds > 0.0
    ensures 0.0 < Doubled(seconds, times)
    ensures times > 0 || seconds <= 60.0 ==> Doubled(seconds, times) <= 60.0
  {
    if times == 0 {
    } else {
      DoubledBounded(seconds, times - 1);
    }
  }

  /**
    The documented 60-second cap on the waits after exceptions holds exactly for retry periods up to
    60 seconds: the cap is applied when doubling, not to the retry period itself.
   */
  lemma WaitsCappedIff(retry: real)
    requires retry > 0.0
    ensures retry <= 60.0 <==>
            forall script: seq<Iteration>, k: nat | k < |script| && script[k].raised :: BackoffWait(retry, script, k) <= 60.0
    ensures retry <= 60.0 ==>
              forall script: seq<Iteration>, k: nat | k < |script| :: BackoffWait(retry, script, k) <= 60.0
  {
    if retry <= 60.0 {
      forall script: seq<Iteration>, k: nat | k < |script| ensures BackoffWait(retry, script, k) <= 60.0 {
        DoubledBounded(retry, FailuresBefore(script, k));
        DoubledBounded(retry, FailuresBefore(script, k) + 1);
      }
    } else {
      var script := [Iteration(true, false)];
      assert BackoffWait(retry, script, 0) == retry && script[0].raised;
    }
  }
}
