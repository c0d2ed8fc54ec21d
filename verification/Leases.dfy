/**
  The `coordination.k8s.io/v1` Lease as the election reads and writes it: the accessors with
  their fallbacks, the local observation of a record, the verdict of an acquire or renew
  attempt on the record it read, and the body each kind of write sends.
 */
module Leases {
  import opened Wrappers

  type Identity = string

  /** A stored Lease. Wall-clock stamps are opaque integers; `version` is the resourceVersion. */
  datatype Lease = Lease(
    version: nat,
    holder: Option<Identity>,
    duration: Option<real>,
    transitions: Option<int>,
    acquired: Option<int>,
    renewed: Option<int>)

  /** What a create or replace call sends. */
  datatype Body = Body(
    holder: Identity,
    duration: real,
    transitions: nat,
    acquired: Option<int>,
    renewed: int)

  /** The tuple that decides whether a record differs from the one last observed. */
  datatype Key = Key(
    version: nat,
    holder: Option<Identity>,
    duration: real,
    transitions: nat,
    acquired: Option<int>,
    renewed: Option<int>)

  /** The last observed key and the local clock when it was first observed. */
  datatype Sight = Sight(key: Option<Key>, at: real)

  const UNSEEN := Sight(None, 0.0)

  predicate Empty(lease: Lease) {
    lease.holder == None || lease.holder == Some("")
  }

  /** Held by somebody else. */
  predicate Foreign(lease: Lease, me: Identity) {
    !Empty(lease) && lease.holder != Some(me)
  }

  /** A missing or non-positive duration falls back to the configured one. */
  function Duration(lease: Lease, configured: real): real {
    match lease.duration
    case Some(d) => if d > 0.0 then d else configured
    case None => configured
  }

  /** A missing or negative transition count reads as zero. */
  function Transitions(lease: Lease): nat {
    match lease.transitions
    case Some(t) => if t >= 0 then t else 0
    case None => 0
  }

  function KeyOf(lease: Lease, configured: real): Key {
    Key(lease.version, lease.holder, Duration(lease, configured), Transitions(lease),
        lease.acquired, lease.renewed)
  }

  /** The clock of an observation restarts only when the key changes. */
  function Observe(sight: Sight, key: Key, now: real): Sight {
    if sight.key == Some(key) then sight else Sight(Some(key), now)
  }

  /** Whether an acquire attempt that started at `now` must leave the Lease alone. */
  predicate Blocked(lease: Lease, me: Identity, sight: Sight, now: real, configured: real) {
    Foreign(lease, me) && sight.at + Duration(lease, configured) > now
  }

  /** The record the server keeps for a body. */
  function Stored(body: Body, version: nat): Lease {
    Lease(version, Some(body.holder), Some(body.duration), Some(body.transitions),
          body.acquired, Some(body.renewed))
  }

  function CreateBody(me: Identity, configured: real, utc: int): Body {
    Body(me, configured, 0, Some(utc), utc)
  }

  function AcquireBody(lease: Lease, me: Identity, configured: real, utc: int): Body {
    var isSelf := lease.holder == Some(me);
    Body(me, configured, Transitions(lease) + (if isSelf then 0 else 1),
         if isSelf then lease.acquired else Some(utc), utc)
  }

  function RenewBody(lease: Lease, me: Identity, configured: real, utc: int): Body {
    Body(me, configured, Transitions(lease), Some(lease.acquired.GetOr(utc)), utc)
  }

  /** A release empties the holder and leaves a one-second duration. */
  function ReleaseBody(lease: Lease, utc: int): Body {
    Body("", 1.0, Transitions(lease), Some(utc), utc)
  }

  // ---------------------------------------------------------------- what the decisions mean

  /** A non-empty holder other than `me`. */
  predicate HeldByAnother(lease: Lease, me: Identity) {
    lease.holder.Some? && lease.holder.value != "" && lease.holder.value != me
  }

  /** The stored duration where it is positive, else the configured one. */
  predicate IsDuration(lease: Lease, configured: real, d: real) {
    if lease.duration.Some? && lease.duration.value > 0.0 then lease.duration == Some(d) else d == configured
  }

  /** The stored count where it is not negative, else zero. */
  predicate IsCount(lease: Lease, n: int) {
    if lease.transitions.Some? && lease.transitions.value >= 0 then lease.transitions == Some(n) else n == 0
  }

  lemma RecordReadings(lease: Lease, me: Identity, configured: real)
    ensures Foreign(lease, me) <==> HeldByAnother(lease, me)
    ensures IsDuration(lease, configured, Duration(lease, configured)) && IsCount(lease, Transitions(lease))
  {}

  /** Two records are the same observation exactly when all six attributes agree, as read with their fallbacks. */
  lemma SameKeyIff(a: Lease, b: Lease, configured: real)
    ensures KeyOf(a, configured) == KeyOf(b, configured)
       <==> && a.version == b.version && a.holder == b.holder && a.acquired == b.acquired && a.renewed == b.renewed
            && Duration(a, configured) == Duration(b, configured) && Transitions(a) == Transitions(b)
  {}

  /** An observation keeps its time exactly when the record is the one last observed. */
  ghost predicate Observed(before: Sight, lease: Lease, configured: real, now: real, after: Sight) {
    && after.key == Some(KeyOf(lease, configured))
    && (before.key == Some(KeyOf(lease, configured)) ==> after.at == before.at)
    && (before.key != Some(KeyOf(lease, configured)) ==> after.at == now)
  }
}
