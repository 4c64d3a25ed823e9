/**
  One record per effect key, as `src/ctrlrun/effect.py` decides about it: who may reserve, what an
  expired lease becomes, and what a lease extension may change; with the record transitions that
  `src/ctrlrun/state.py` writes.
 */
module Effects {
  import opened Options

  datatype EffectState = New | Reserved | Executing | Committed | Failed | Ambiguous

  datatype EffectRecord = EffectRecord(
    effectKey: string,
    state: EffectState,
    actionId: string,
    attempt: nat,
    createdAt: int,
    updatedAt: int,
    leaseExpiresAt: Option<int>,
    result: Option<string>,
    error: Option<string>,
    resolvedBy: Option<string>)

  datatype Reservation = Reservation(effectKey: string, actionId: string, attempt: nat, leaseExpiresAt: int)

  datatype Taken = AlreadyCommitted | InProgress

  datatype Refusal = InvalidArgument | DuplicateEffect(taken: Taken) | AmbiguousEffect

  const LEASE_EXPIRED := "lease expired: the worker holding this effect never finished"

  /** An unfinished record with no lease at all counts as expired. */
  predicate LeaseIsLive(r: EffectRecord, now: int) {
    (r.state.Reserved? || r.state.Executing?) && r.leaseExpiresAt.Some? && now <= r.leaseExpiresAt.value
  }

  // --- reserving ------------------------------------------------------------------------------

  /** Exactly one of a reservation and a refusal; `ambiguate` keeps the lapse as evidence. */
  datatype ReservationPlan =
    | Grant(reservation: Reservation, renews: bool)
    | Refuse(refusal: Refusal, ambiguate: bool)

  function PlanReservation(record: Option<EffectRecord>, key: string, actionId: string, lease: int,
                           now: int): ReservationPlan
  {
    if key == [] || actionId == [] || lease <= 0 then Refuse(InvalidArgument, false)
    else if record.None? || record.value.state.New? then Grant(Reservation(key, actionId, 1, now + lease), false)
    else
      var r := record.value;
      if r.state.Committed? then Refuse(DuplicateEffect(AlreadyCommitted), false)
      else if r.state.Ambiguous? then Refuse(AmbiguousEffect, false)
      else if r.state.Failed? then Grant(Reservation(key, actionId, r.attempt + 1, now + lease), true)
      else if LeaseIsLive(r, now) then Refuse(DuplicateEffect(InProgress), false)
      else Refuse(AmbiguousEffect, true)
  }

  /** A second attempt gets through only where the last one proved that nothing happened. */
  lemma OnlyFailureIsRetried(record: Option<EffectRecord>, key: string, actionId: string, lease: int, now: int)
    requires key != [] && actionId != [] && lease > 0
    ensures var plan := PlanReservation(record, key, actionId, lease, now);
      && (plan.Grant? <==> record.None? || record.value.state.New? || record.value.state.Failed?)
      && (plan.Grant? ==> plan.reservation.attempt == (if plan.renews then record.value.attempt + 1 else 1)
                          && plan.reservation.actionId == actionId && now < plan.reservation.leaseExpiresAt)
      && (plan.Refuse? && plan.ambiguate <==>
            record.Some? && (record.value.state.Reserved? || record.value.state.Executing?)
              && !LeaseIsLive(record.value, now))
  {}

  // --- extending a lease ------------------------------------------------------------------------

  datatype Extension = Extended(record: EffectRecord) | NotExtended(refusal: Refusal)

  function PlanLeaseExtension(record: Option<EffectRecord>, key: string, actionId: string, until: int,
                              now: int): Extension
  {
    if actionId == [] || until <= now then NotExtended(InvalidArgument)
    else if record.None? then NotExtended(AmbiguousEffect)
    else
      var r := record.value;
      if r.state.Committed? then NotExtended(DuplicateEffect(AlreadyCommitted))
      else if LeaseIsLive(r, now) && (!r.state.Executing? || r.actionId != actionId)
        then NotExtended(DuplicateEffect(InProgress))
      else if !(r.state.Executing? && LeaseIsLive(r, now)) then NotExtended(AmbiguousEffect)
      else if until < r.leaseExpiresAt.value then NotExtended(InvalidArgument)
      else Extended(r.(leaseExpiresAt := Some(until), updatedAt := now))
  }

  /** An extension is accepted for its own executing attempt on a live lease, later, and never otherwise. */
  lemma ExtendedExactlyWhen(record: Option<EffectRecord>, key: string, actionId: string, until: int, now: int)
    ensures PlanLeaseExtension(record, key, actionId, until, now).Extended? <==>
      (&& actionId != [] && now < until && record.Some? && record.value.state.Executing?
       && record.value.actionId == actionId && LeaseIsLive(record.value, now)
       && record.value.leaseExpiresAt.value <= until)
    ensures var e := PlanLeaseExtension(record, key, actionId, until, now);
      e.Extended? ==>
        && e.record == record.value.(leaseExpiresAt := Some(until), updatedAt := now)
        && LeaseIsLive(e.record, now)
  {}

  // --- outcome transitions ---------------------------------------------------------------------

  /** `_checked`: none where this attempt may make the transition, else why not. */
  function CheckTransition(record: Option<EffectRecord>, actionId: string, expected: set<EffectState>,
                           now: int): Option<Refusal>
  {
    if record.None? then Some(InvalidArgument) else
    var r := record.value;
    if r.actionId == actionId && r.state in expected then None
    else if r.state.Ambiguous? then Some(AmbiguousEffect)
    else if r.state.Committed? then Some(DuplicateEffect(AlreadyCommitted))
    else if r.actionId != actionId && LeaseIsLive(r, now) then Some(DuplicateEffect(InProgress))
    else Some(InvalidArgument)
  }

  /** A lease survives only into `EXECUTING`. */
  function Transitioned(r: EffectRecord, state: EffectState, now: int, result: Option<string>,
                        error: Option<string>): EffectRecord
  {
    r.(state := state, updatedAt := now, leaseExpiresAt := if state.Executing? then r.leaseExpiresAt else None,
       result := result, error := error)
  }

  /** `_resolvable`: only an ambiguous record, and only to one of the two answers. */
  function CheckResolution(record: Option<EffectRecord>, state: EffectState): Option<Refusal> {
    if !state.Committed? && !state.Failed? then Some(InvalidArgument)
    else if record.None? then Some(InvalidArgument)
    else if !record.value.state.Ambiguous? then Some(InvalidArgument)
    else None
  }

  function Resolved(r: EffectRecord, state: EffectState, resolver: string, now: int): EffectRecord {
    var note := "resolved " + (if state.Committed? then "committed" else "failed") + " by " + resolver;
    Transitioned(r, state, now, r.result,
                 Some(if r.error.None? then note
                        else note + " (was: " + r.error.value + ")")).(resolvedBy := Some(resolver))
  }

  /** A resolution is a human's claim, so what made the record ambiguous stays on it. */
  lemma ResolutionKeepsTheUnknown(r: EffectRecord, state: EffectState, resolver: string, now: int)
    ensures var resolved := Resolved(r, state, resolver, now);
      && resolved == r.(state := state, updatedAt := now, leaseExpiresAt := resolved.leaseExpiresAt,
                        error := resolved.error, resolvedBy := Some(resolver))
      && resolved.error.Some?
      && (r.error.Some? ==> exists claim :: resolved.error.value == claim + (" (was: " + r.error.value + ")"))
  {
    var note := "resolved " + (if state.Committed? then "committed" else "failed") + " by " + resolver;
    if r.error.Some? {
      assert note + " (was: " + r.error.value + ")" == note + (" (was: " + r.error.value + ")");
    }
  }

  /** A retry keeps the effect's creation time. */
  function ReservedRecord(reservation: Reservation, previous: Option<EffectRecord>, now: int): EffectRecord {
    EffectRecord(reservation.effectKey, Reserved, reservation.actionId, reservation.attempt,
                 if previous.None? then now else previous.value.createdAt, now,
                 Some(reservation.leaseExpiresAt), None, None, None)
  }

  /** `_continuable`: a resumption needs an executing record on a live lease. */
  function CheckContinuable(record: Option<EffectRecord>, now: int): Option<Refusal> {
    if record.Some? && record.value.state.Executing? && LeaseIsLive(record.value, now) then None
      else Some(AmbiguousEffect)
  }

  /** A won reservation is a live lease for its own action, and a retry is the same effect one attempt on. */
  lemma WonReservationIsLive(record: Option<EffectRecord>, key: string, actionId: string, lease: int, now: int)
    requires PlanReservation(record, key, actionId, lease, now).Grant?
    ensures var plan := PlanReservation(record, key, actionId, lease, now);
      var won := ReservedRecord(plan.reservation, record, now);
      && LeaseIsLive(won, now) && LeaseIsLive(won, now + lease) && !LeaseIsLive(won, now + lease + 1)
      && won.effectKey == key && won.actionId == actionId
      && (plan.renews ==> won.createdAt == record.value.createdAt && won.attempt == record.value.attempt + 1)
      && PlanReservation(Some(won), key, actionId, lease, now).Refuse?
  {}
}
