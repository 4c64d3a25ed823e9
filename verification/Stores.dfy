/**
  The state store's rules for approvals, effects, continuations and charges, from
  `InMemoryStateStore` in `src/ctrlrun/state.py`: each call decides first and writes after, as one
  step. The functions say what a call does to the whole state; the class does it in place.
 */
module Stores {
  import opened Options
  import opened Actions
  import opened Approvals
  import opened Charges
  import opened Effects
  import opened Ledgers

  /** `token` is empty where the suspension was taken; `rounds` counts suspensions of the key. */
  datatype Held = Held(token: string, action: Action, rounds: nat)

  datatype Store = Store(
    approvals: map<string, ApprovalRecord>,
    effects: map<string, EffectRecord>,
    continuations: map<string, Held>,
    ledger: Ledger)

  datatype Error =
    | EffectError(effect: Effects.Refusal)
    | ApprovalError(approval: Approvals.Refusal)
    | BudgetError(budget: ChargeRefusal)
    | NoSuchContinuation
    | InvalidCall

  datatype Outcome<+T> = Ok(value: T) | Err(error: Error)

  datatype Claim = Claim(approval: Option<ApprovalRecord>, reservation: Option<Reservation>)

  datatype Answer = Answered(reached: bool) | NotAnswered(error: Error)

  function Get<T>(m: map<string, T>, key: string): Option<T> {
    if key in m then Some(m[key]) else None
  }

  // --- approvals ---------------------------------------------------------------------------

  function PutRequest(s: Store, request: ApprovalRequest): (Store, bool) {
    if request.requestId in s.approvals then (s, false)
    else (s.(approvals := s.approvals[request.requestId := ApprovalRecord(request, Pending, None, None, None, [])]),
          true)
  }

  function WithStatus(s: Store, id: string, status: Status): Store
    requires id in s.approvals
  {
    s.(approvals := s.approvals[id := s.approvals[id].(status := status)])
  }

  function GrantApproval(s: Store, id: string, approver: string, verified: Option<VerifiedApprover>,
                         now: int): (Store, Answer)
  {
    if approver == [] then (s, NotAnswered(InvalidCall)) else
    match CheckAnswerable(Get(s.approvals, id), now)
    case Refused(refusal, expire) =>
      (if expire then WithStatus(s, id, Expired) else s, NotAnswered(ApprovalError(refusal)))
    case Usable(record) =>
      var (approvers, reached) := CountGrant(record, verified, now);
      var granted := if reached
        then record.(status := Granted, approver := Some(approver), grantedAt := Some(now), approvers := approvers)
                     else record.(approvers := approvers);
      (s.(approvals := s.approvals[id := granted]), Answered(reached))
  }

  /** A denial ends the request whoever gives it; a verified denier joins the list as it stands. */
  function DenyApproval(s: Store, id: string, approver: string, verified: Option<VerifiedApprover>, now: int)
    : (Store, Answer)
  {
    if approver == [] then (s, NotAnswered(InvalidCall)) else
    match CheckAnswerable(Get(s.approvals, id), now)
    case Refused(refusal, expire) =>
      (if expire then WithStatus(s, id, Expired) else s, NotAnswered(ApprovalError(refusal)))
    case Usable(record) =>
      var approvers := if verified.Some? then record.approvers + [verified.value.(grantedAt := now)]
        else record.approvers;
      (s.(approvals := s.approvals[id := record.(status := Denied, approver := Some(approver),
                                                 approvers := approvers)]),
       Answered(false))
  }

  function ConsumedRecord(r: ApprovalRecord, now: int): ApprovalRecord {
    r.(status := Consumed, consumedAt := Some(now))
  }

  // --- claiming an approval, an effect, or both ------------------------------------------------

  /** Nothing is written before everything is decided, except the lapse of an approval or of a lease. */
  function Take(s: Store, approvalId: Option<string>, actionHash: string, effectKey: Option<string>, actionId: string,
                lease: int, charges: seq<Charge>, now: int): (Store, Outcome<Claim>)
  {
    var verdict := if approvalId.None? then None
      else Some(CheckConsumable(Get(s.approvals, approvalId.value), actionHash, now));
    if verdict.Some? && verdict.value.Refused? then
      (if verdict.value.expire then WithStatus(s, approvalId.value, Expired) else s,
       Err(ApprovalError(verdict.value.refusal)))
    else
      var plan := if effectKey.None? then None
                  else Some(PlanReservation(Get(s.effects, effectKey.value), effectKey.value, actionId, lease, now));
      if plan.Some? && plan.value.Refuse? then
        (if plan.value.ambiguate then Lapsed(s, effectKey.value, now) else s, Err(EffectError(plan.value.refusal)))
      else if charges != [] && ChargesRefused(s.ledger, charges, now).Some? then
        (s, Err(BudgetError(ChargesRefused(s.ledger, charges, now).value)))
      else
        var reserved := if plan.None? then s else Reserve(s, plan.value.reservation, charges, now);
        var approved := if verdict.None? then None else Some(verdict.value.record);
        (if approvalId.None? then reserved
         else reserved.(approvals := reserved.approvals[approvalId.value := ConsumedRecord(approved.value, now)]),
         Ok(Claim(approved, if plan.None? then None else Some(plan.value.reservation))))
  }

  function Lapsed(s: Store, key: string, now: int): Store
    requires key in s.effects
  {
    s.(effects := s.effects[key := Transitioned(s.effects[key], Ambiguous, now, None, Some(LEASE_EXPIRED))])
  }

  function Reserve(s: Store, reservation: Reservation, charges: seq<Charge>, now: int): Store {
    var key := reservation.effectKey;
    s.(effects := s.effects[key := ReservedRecord(reservation, Get(s.effects, key), now)],
       ledger := WithCharges(s.ledger, charges, key, reservation.attempt, now))
  }

  // --- outcomes ----------------------------------------------------------------------------

  const RESERVED_ONLY := {Reserved}
  const EXECUTING_ONLY := {Executing}
  const UNFINISHED := {Reserved, Executing, Ambiguous}

  /** A release rides the transition to `FAILED` and nothing else. */
  function WithRecord(s: Store, key: string, record: EffectRecord, now: int): Store {
    s.(effects := s.effects[key := record],
       ledger := if record.state.Failed? then Released(s.ledger, key, now) else s.ledger)
  }

  function Transition(s: Store, key: string, actionId: string, state: EffectState, expected: set<EffectState>,
                      result: Option<string>, error: Option<string>, now: int): (Store, Outcome<()>)
  {
    var refusal := CheckTransition(Get(s.effects, key), actionId, expected, now);
    if refusal.Some? then (s, Err(EffectError(refusal.value)))
    else (WithRecord(s, key, Transitioned(s.effects[key], state, now, result, error), now), Ok(()))
  }

  function Begin(s: Store, key: string, actionId: string, now: int): (Store, Outcome<()>) {
    Transition(s, key, actionId, Executing, RESERVED_ONLY, None, None, now)
  }

  function Commit(s: Store, key: string, actionId: string, result: string, now: int): (Store, Outcome<()>) {
    Transition(s, key, actionId, Committed, EXECUTING_ONLY, Some(result), None, now)
  }

  function Fail(s: Store, key: string, actionId: string, error: string, now: int): (Store, Outcome<()>) {
    Transition(s, key, actionId, Failed, EXECUTING_ONLY, None, Some(error), now)
  }

  function MarkAmbiguous(s: Store, key: string, actionId: string, error: string, now: int): (Store, Outcome<()>) {
    Transition(s, key, actionId, Ambiguous, UNFINISHED, None, Some(error), now)
  }

  function Resolve(s: Store, key: string, state: EffectState, resolver: string, now: int)
    : (Store, Outcome<EffectRecord>)
  {
    if resolver == [] then (s, Err(InvalidCall)) else
    var refusal := CheckResolution(Get(s.effects, key), state);
    if refusal.Some? then (s, Err(EffectError(refusal.value)))
    else
      var resolved := Resolved(s.effects[key], state, resolver, now);
      (WithRecord(s, key, resolved, now), Ok(resolved))
  }

  // --- leases and continuations ----------------------------------------------------------------

  function ExtendLease(s: Store, key: string, actionId: string, until: int, now: int): (Store, Outcome<()>) {
    match PlanLeaseExtension(Get(s.effects, key), key, actionId, until, now)
    case NotExtended(refusal) => (s, Err(EffectError(refusal)))
    case Extended(record) => (s.(effects := s.effects[key := record]), Ok(()))
  }

  predicate HeldElsewhere(s: Store, key: string, token: string) {
    token != [] && exists other | other in s.continuations :: other != key && s.continuations[other].token == token
  }

  function HoldContinuation(s: Store, action: Action, key: string, token: string, until: int, now: int)
    : (Store, Outcome<nat>)
  {
    match PlanLeaseExtension(Get(s.effects, key), key, action.actionId, until, now)
    case NotExtended(refusal) => (s, Err(EffectError(refusal)))
    case Extended(record) =>
      if HeldElsewhere(s, key, token) then (s, Err(InvalidCall))
      else
        var rounds := (if key in s.continuations then s.continuations[key].rounds else 0) + 1;
        var held := s.continuations[key := Held(token, action, rounds)];
        (s.(effects := s.effects[key := record], continuations := held), Ok(rounds))
  }

  /** No two keys hold one token, so a presented token names at most one suspension. */
  predicate TokensDistinct(s: Store) {
    forall a, b | a in s.continuations && b in s.continuations && a != b ::
      s.continuations[a].token == [] || s.continuations[a].token != s.continuations[b].token
  }

  predicate Holds(s: Store, key: string, token: string) {
    key in s.continuations && token != [] && s.continuations[key].token == token
  }

  datatype Resumed = Resumed(action: Action, effectKey: string, record: EffectRecord, rounds: nat)

  /** The suspension held under `key`, taken: the token is spent and the rounds are kept. */
  function TakeHeld(s: Store, key: string, now: int): (Store, Outcome<Resumed>)
    requires key in s.continuations
  {
    var held := s.continuations[key];
    var refusal := CheckContinuable(Get(s.effects, key), now);
    if refusal.Some? then (s, Err(EffectError(refusal.value)))
    else
      (s.(continuations := s.continuations[key := Held("", held.action, held.rounds)]),
       Ok(Resumed(held.action, key, s.effects[key], held.rounds)))
  }

  ghost function TakeContinuation(s: Store, token: string, now: int): (Store, Outcome<Resumed>) {
    if key :| Holds(s, key, token) then TakeHeld(s, key, now) else (s, Err(NoSuchContinuation))
  }

  lemma OneHolder(s: Store, a: string, b: string, token: string)
    requires TokensDistinct(s) && Holds(s, a, token) && Holds(s, b, token)
    ensures a == b
  {}

  // --- what a call does to one record ------------------------------------------------------------

  /** A claim that is refused writes no reservation; at most it declares a lapsed lease ambiguous. */
  lemma TakeOnEffects(s: Store, approvalId: Option<string>, actionHash: string, key: string, actionId: string,
                      lease: int, charges: seq<Charge>, now: int)
    ensures var (t, outcome) := Take(s, approvalId, actionHash, Some(key), actionId, lease, charges, now);
      && t.continuations == s.continuations
      && (outcome.Ok? ==>
           && outcome.value.reservation.Some? && key != [] && actionId != []
           && (key !in s.effects || s.effects[key].state.New? || s.effects[key].state.Failed?)
           && outcome.value.reservation.value == Reservation(key, actionId,
                if key in s.effects && s.effects[key].state.Failed? then s.effects[key].attempt + 1 else 1, now + lease)
           && t.effects == s.effects[key := ReservedRecord(outcome.value.reservation.value, Get(s.effects, key), now)])
      && (outcome.Err? ==>
           || t.effects == s.effects
           || (&& key in s.effects && (s.effects[key].state.Reserved? || s.effects[key].state.Executing?)
               && !LeaseIsLive(s.effects[key], now)
               && t.effects == s.effects[key := Transitioned(s.effects[key], Ambiguous, now, None,
                                                             Some(LEASE_EXPIRED))]))
  {}

  /** An outcome is written only by the attempt that holds the record, from the state it expects. */
  lemma TransitionOnEffects(s: Store, key: string, actionId: string, state: EffectState, expected: set<EffectState>,
                            result: Option<string>, error: Option<string>, now: int)
    ensures var (t, outcome) := Transition(s, key, actionId, state, expected, result, error, now);
      && (outcome.Ok? <==> key in s.effects && s.effects[key].actionId == actionId && s.effects[key].state in expected)
      && (outcome.Err? ==> t == s)
      && (outcome.Ok? ==> t.effects == s.effects[key := Transitioned(s.effects[key], state, now, result, error)])
      && t.continuations == s.continuations && t.approvals == s.approvals
  {}

  /** Only an ambiguous record is resolved, to the answer given; its holder and attempt stand. */
  lemma ResolveOnEffects(s: Store, key: string, state: EffectState, resolver: string, now: int)
    ensures var (t, outcome) := Resolve(s, key, state, resolver, now);
      && (outcome.Ok? <==>
            resolver != [] && key in s.effects && s.effects[key].state.Ambiguous?
              && (state.Committed? || state.Failed?))
      && (outcome.Err? ==> t == s)
      && (outcome.Ok? ==>
            && t.effects == s.effects[key := outcome.value]
            && outcome.value.state == state && outcome.value.leaseExpiresAt.None?
              && outcome.value.resolvedBy == Some(resolver)
            && outcome.value.actionId == s.effects[key].actionId && outcome.value.attempt == s.effects[key].attempt)
      && t.continuations == s.continuations && t.approvals == s.approvals
  {}

  /** A token that takes a continuation is held under one key, whose record is executing on a live lease. */
  lemma TakenContinuation(s: Store, token: string, now: int) returns (key: string)
    requires TakeContinuation(s, token, now).1.Ok?
    ensures Holds(s, key, token) && TakeContinuation(s, token, now) == TakeHeld(s, key, now)
    ensures var (t, outcome) := TakeContinuation(s, token, now);
      && key in s.effects && s.effects[key].state.Executing? && LeaseIsLive(s.effects[key], now)
      && outcome.value == Resumed(s.continuations[key].action, key, s.effects[key], s.continuations[key].rounds)
      && t == s.(continuations := s.continuations[key := Held("", s.continuations[key].action,
                                                              s.continuations[key].rounds)])
  {
    key :| Holds(s, key, token) && TakeContinuation(s, token, now) == TakeHeld(s, key, now);
  }

  lemma RefusedContinuation(s: Store, token: string, now: int)
    ensures TakeContinuation(s, token, now).1.Err? ==> TakeContinuation(s, token, now).0 == s
  {}

  // --- the same in place ---------------------------------------------------------------------

  class StateStore {
    var approvals: map<string, ApprovalRecord>
    var effects: map<string, EffectRecord>
    var continuations: map<string, Held>
    var ledger: Ledger

    function State(): Store
      reads this
    {
      Store(approvals, effects, continuations, ledger)
    }

    constructor ()
      ensures State() == Store(map[], map[], map[], [])
    {
      approvals, effects, continuations, ledger := map[], map[], map[], [];
    }

    method PutApprovalRequest(request: ApprovalRequest) returns (stored: bool)
      modifies this`approvals
      ensures (State(), stored) == PutRequest(old(State()), request)
    {
      if request.requestId in approvals { return false; }
      approvals := approvals[request.requestId := ApprovalRecord(request, Pending, None, None, None, [])];
      return true;
    }

    /** `_answerable`: the lapse of a request is written even though the answer is refused. */
    method Answerable(id: string, now: int) returns (verdict: Verdict)
      modifies this`approvals
      ensures verdict == CheckAnswerable(Get(old(approvals), id), now)
      ensures State() == if verdict.Refused? && verdict.expire then WithStatus(old(State()), id, Expired)
        else old(State())
    {
      verdict := CheckAnswerable(Get(approvals, id), now);
      if verdict.Refused? && verdict.expire {
        approvals := approvals[id := approvals[id].(status := Expired)];
      }
    }

    method Grant(id: string, approver: string, verified: Option<VerifiedApprover>, now: int) returns (answer: Answer)
      modifies this`approvals
      ensures (State(), answer) == GrantApproval(old(State()), id, approver, verified, now)
    {
      if approver == [] { return NotAnswered(InvalidCall); }
      var verdict := Answerable(id, now);
      if verdict.Refused? { return NotAnswered(ApprovalError(verdict.refusal)); }
      var record := verdict.record;
      var (approvers, reached) := CountGrant(record, verified, now);
      record := record.(approvers := approvers);
      if reached {
        record := record.(status := Granted, approver := Some(approver), grantedAt := Some(now));
      }
      approvals := approvals[id := record];
      answer := Answered(reached);
    }

    method Deny(id: string, approver: string, verified: Option<VerifiedApprover>, now: int) returns (answer: Answer)
      modifies this`approvals
      ensures (State(), answer) == DenyApproval(old(State()), id, approver, verified, now)
    {
      if approver == [] { return NotAnswered(InvalidCall); }
      var verdict := Answerable(id, now);
      if verdict.Refused? { return NotAnswered(ApprovalError(verdict.refusal)); }
      var record := verdict.record.(status := Denied, approver := Some(approver));
      if verified.Some? { record := record.(approvers := record.approvers + [verified.value.(grantedAt := now)]); }
      approvals := approvals[id := record];
      answer := Answered(false);
    }

    /** `_authorize_and_reserve`: the reservation is written before the consumption, the charges last. */
    method AuthorizeAndReserve(approvalId: Option<string>, actionHash: string, effectKey: Option<string>,
                               actionId: string, lease: int, charges: seq<Charge>, now: int)
      returns (r: Outcome<Claim>)
      modifies this`approvals, this`effects, this`ledger
      ensures (State(), r) == Take(old(State()), approvalId, actionHash, effectKey, actionId, lease, charges, now)
    {
      var approved: Option<ApprovalRecord> := None;
      if approvalId.Some? {
        var verdict := CheckConsumable(Get(approvals, approvalId.value), actionHash, now);
        if verdict.Refused? {
          if verdict.expire {
            approvals := approvals[approvalId.value := approvals[approvalId.value].(status := Expired)];
          }
          return Err(ApprovalError(verdict.refusal));
        }
        approved := Some(verdict.record);
      }
      var reservation: Option<Reservation> := None;
      if effectKey.Some? {
        var plan := PlanReservation(Get(effects, effectKey.value), effectKey.value, actionId, lease, now);
        if plan.Refuse? {
          if plan.ambiguate {
            effects := effects[effectKey.value :=
              Transitioned(effects[effectKey.value], Ambiguous, now, None, Some(LEASE_EXPIRED))];
          }
          return Err(EffectError(plan.refusal));
        }
        reservation := Some(plan.reservation);
      }
      if charges != [] {
        var refusal := CheckCharges(ledger, charges, now);
        if refusal.Some? { return Err(BudgetError(refusal.value)); }
      }
      if reservation.Some? {
        var won := reservation.value;
        effects := effects[won.effectKey := ReservedRecord(won, Get(effects, won.effectKey), now)];
      }
      if approved.Some? {
        approvals := approvals[approvalId.value := ConsumedRecord(approved.value, now)];
      }
      if reservation.Some? {
        ledger := ChargeAll(ledger, charges, reservation.value.effectKey, reservation.value.attempt, now);
      }
      r := Ok(Claim(approved, reservation));
    }

    /** `_transition`, with the release after the check: a refused transition releases nothing. */
    method Move(key: string, actionId: string, state: EffectState, expected: set<EffectState>, result: Option<string>,
                error: Option<string>, now: int)
      returns (r: Outcome<()>)
      modifies this`effects, this`ledger
      ensures (State(), r) == Transition(old(State()), key, actionId, state, expected, result, error, now)
    {
      var refusal := CheckTransition(Get(effects, key), actionId, expected, now);
      if refusal.Some? { return Err(EffectError(refusal.value)); }
      effects := effects[key := Transitioned(effects[key], state, now, result, error)];
      if state.Failed? { ledger := Released(ledger, key, now); }
      r := Ok(());
    }

    method ResolveEffect(key: string, state: EffectState, resolver: string, now: int) returns (r: Outcome<EffectRecord>)
      modifies this`effects, this`ledger
      ensures (State(), r) == Resolve(old(State()), key, state, resolver, now)
    {
      if resolver == [] { return Err(InvalidCall); }
      var refusal := CheckResolution(Get(effects, key), state);
      if refusal.Some? { return Err(EffectError(refusal.value)); }
      var resolved := Resolved(effects[key], state, resolver, now);
      effects := effects[key := resolved];
      if state.Failed? { ledger := Released(ledger, key, now); }
      r := Ok(resolved);
    }

    method Extend(key: string, actionId: string, until: int, now: int) returns (r: Outcome<()>)
      modifies this`effects
      ensures (State(), r) == ExtendLease(old(State()), key, actionId, until, now)
    {
      var plan := PlanLeaseExtension(Get(effects, key), key, actionId, until, now);
      if plan.NotExtended? { return Err(EffectError(plan.refusal)); }
      effects := effects[key := plan.record];
      r := Ok(());
    }

    method Hold(action: Action, key: string, token: string, until: int, now: int) returns (r: Outcome<nat>)
      requires TokensDistinct(State())
      modifies this`effects, this`continuations
      ensures TokensDistinct(State())
      ensures (State(), r) == HoldContinuation(old(State()), action, key, token, until, now)
    {
      var plan := PlanLeaseExtension(Get(effects, key), key, action.actionId, until, now);
      if plan.NotExtended? { return Err(EffectError(plan.refusal)); }
      if HeldElsewhere(State(), key, token) { return Err(InvalidCall); }
      var rounds := (if key in continuations then continuations[key].rounds else 0) + 1;
      effects := effects[key := plan.record];
      continuations := continuations[key := Held(token, action, rounds)];
      r := Ok(rounds);
    }

    /** `take_continuation`: the loop over held suspensions stops at the one that matches. */
    method TakeHeldContinuation(token: string, now: int) returns (r: Outcome<Resumed>)
      requires TokensDistinct(State())
      modifies this`continuations
      ensures TokensDistinct(State())
      ensures (State(), r) == TakeContinuation(old(State()), token, now)
    {
      var keys := continuations.Keys;
      while keys != {}
        invariant State() == old(State())
        invariant keys <= continuations.Keys
        invariant forall key | key in continuations && key !in keys :: !Holds(State(), key, token)
        decreases keys
      {
        var key :| key in keys;
        if Holds(State(), key, token) {
          forall other | Holds(State(), other, token) ensures other == key { OneHolder(State(), key, other, token); }
          var held := continuations[key];
          var refusal := CheckContinuable(Get(effects, key), now);
          if refusal.Some? { return Err(EffectError(refusal.value)); }
          continuations := continuations[key := Held("", held.action, held.rounds)];
          return Ok(Resumed(held.action, key, effects[key], held.rounds));
        }
        keys := keys - {key};
      }
      r := Err(NoSuchContinuation);
    }
  }
}
