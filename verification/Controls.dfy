/**
  The imperative path of one call through `src/ctrlrun/control.py` in enforce mode: `_secure` with
  its two passes, `_refuse_ceiling`, `_outcome`, `_suspend`, `resume` and the `_Reconciler` budget.
  Each method says what it leaves in the store, as the store's own functions, and in the evidence.
 */
module Controls {
  import opened Options
  import opened Actions
  import opened Approvals
  import opened Authorities
  import opened Charges
  import opened Effects
  import opened Ledgers
  import opened Stores

  datatype Result = CommittedReceipt | FailedReceipt | AmbiguousReceipt | BlockedReceipt | DeniedReceipt

  datatype Receipt = Receipt(actionId: string, key: Option<string>, attempt: nat, result: Result)

  datatype Event =
    | ExecutionStarted(attempt: nat)
    | ExecutionResumed(round: nat)
    | ExecutionSuspended(held: bool, round: nat)
    | ExecutionFailed
    | ExecutionAmbiguous
    | ExecutionCommitted
    | ApprovalConsumed
    | ApprovalInvalidated
    | EffectReserved(attempt: nat)
    | ReservationRefused
    | CeilingRefused(attempt: nat)
    | ActionDenied
    | ReconciliationStarted
    | ReconciliationResolved(answer: HookAnswer)
    | EffectResolved(state: EffectState)

  /** What an executor did: its answer, an assertion that nothing happened, anything else, or neither yet. */
  datatype Ran =
    | Returned(result: string)
    | NotExecuted(error: string)
    | Raised(error: string, interrupt: bool)
    | Suspended(token: string)

  // --- reconciliation ---------------------------------------------------------------------------

  /** Whatever a hook raises or returns beside the three literals is an answer that changes nothing. */
  datatype HookAnswer = SaysCommitted | SaysNotExecuted | SaysUnknown

  datatype Hook = NoHook | Hook(answer: string -> HookAnswer, eagerly: bool)

  class Reconciler {
    const hook: Hook
    var used: bool
    ghost var asked: nat

    ghost predicate Valid()
      reads this
    {
      asked == if used then 1 else 0
    }

    constructor (hook: Hook)
      ensures Valid() && this.hook == hook && !used
    {
      this.hook, used, asked := hook, false, 0;
    }

    predicate Available(key: Option<string>)
      reads this
    {
      hook.Hook? && !used && key.Some?
    }

    /** The right to ask is spent before the hook runs, so a second trigger in one call finds none. */
    method Ask(key: string) returns (answer: HookAnswer)
      requires Valid() && Available(Some(key))
      modifies this
      ensures Valid() && used && answer == hook.answer(key)
    {
      used := true;
      asked := asked + 1;
      answer := hook.answer(key);
    }
  }

  /** The resolver a hook's answer is recorded under names the action whose hook was asked. */
  function ResolverOf(action: Action): string {
    "reconcile:" + action.name
  }

  /** An answer moves an ambiguous record only where it points. */
  function Reconciling(s: Store, key: string, resolver: string, answer: HookAnswer, now: int): (Store, bool) {
    if answer.SaysUnknown? then (s, false) else
    var (t, outcome) := Resolve(s, key, if answer.SaysCommitted? then Committed else Failed, resolver, now);
    (t, outcome.Ok?)
  }

  // --- the outcome mapping ----------------------------------------------------------------------

  /** The one asymmetry: only `NotExecuted` is `FAILED`, and a refused outcome write is `ambiguous`. */
  function OutcomeOf(s: Store, key: Option<string>, actionId: string, ran: Ran, now: int): (Store, Result)
    requires !ran.Suspended?
  {
    match ran
    case Returned(result) =>
      if key.None? then (s, CommittedReceipt) else
      var (t, outcome) := Commit(s, key.value, actionId, result, now);
      (t, if outcome.Ok? then CommittedReceipt else AmbiguousReceipt)
    case NotExecuted(error) =>
      if key.None? then (s, FailedReceipt) else
      var (t, outcome) := Fail(s, key.value, actionId, error, now);
      (t, if outcome.Ok? then FailedReceipt else AmbiguousReceipt)
    case Raised(error, _) =>
      if key.None? then (s, AmbiguousReceipt)
        else (MarkAmbiguous(s, key.value, actionId, error, now).0, AmbiguousReceipt)
  }

  /** Whether an ambiguous outcome is asked about at once: recorded, eager, and nobody interrupting. */
  predicate AsksEagerly(s: Store, key: Option<string>, actionId: string, ran: Ran, hook: Hook, used: bool, now: int) {
    && ran.Raised? && !ran.interrupt && hook.Hook? && hook.eagerly && !used && key.Some?
    && MarkAmbiguous(s, key.value, actionId, ran.error, now).1.Ok?
  }

  function AfterOutcome(s: Store, key: Option<string>, action: Action, ran: Ran, hook: Hook, used: bool,
                        now: int): Store
    requires !ran.Suspended?
  {
    var t := OutcomeOf(s, key, action.actionId, ran, now).0;
    if AsksEagerly(s, key, action.actionId, ran, hook, used, now)
    then Reconciling(t, key.value, ResolverOf(action), hook.answer(key.value), now).0 else t
  }

  datatype Ended = Recorded(result: Result) | HeldOpen(round: nat) | NotHeld

  /** The reservation is held across the round trip only with a key, and while the authority still stands. */
  function AfterSuspend(s: Store, action: Action, key: Option<string>, token: string, mayHold: bool, until: int,
                        now: int): (Store, Ended)
  {
    if key.None? || !mayHold then (s, NotHeld) else
    var (t, outcome) := HoldContinuation(s, action, key.value, token, until, now);
    (t, if outcome.Ok? then HeldOpen(outcome.value) else NotHeld)
  }

  /** Everything an executor's answer does to the store, and how the call ends. */
  function Mapped(s: Store, action: Action, key: Option<string>, ran: Ran, hook: Hook, used: bool, mayHold: bool,
                  until: int, now: int): (Store, Ended)
  {
    if ran.Suspended? then AfterSuspend(s, action, key, ran.token, mayHold, until, now)
    else (AfterOutcome(s, key, action, ran, hook, used, now), Recorded(OutcomeOf(s, key, action.actionId, ran, now).1))
  }

  // --- securing ------------------------------------------------------------------------------------

  datatype Secured = Secured(claim: Claim) | Invalidated | Blocked | Barred | Broken

  /** What `_secure` needs of a call: the approval it presents, if policy asked for one, and what it reserves. */
  datatype Call = Call(
    action: Action,
    actionHash: string,
    approvalId: Option<string>,
    precondition: Precondition,
    effectKey: Option<string>,
    lease: int,
    charges: seq<Charge>)

  /** What the re-check refuses this call for, read from the record it would present. */
  function RecheckRefused(s: Store, configured: bool, call: Call, now: int): Option<Approvals.Refusal> {
    if call.approvalId.None? then None
    else RecheckRefusal(configured, Get(s.approvals, call.approvalId.value), call.actionHash, call.action.principal,
                        call.precondition, now)
  }

  function Taking(s: Store, call: Call, now: int): (Store, Outcome<Claim>) {
    Take(s, call.approvalId, call.actionHash, call.effectKey, call.action.actionId, call.lease, call.charges, now)
  }

  predicate IsAmbiguous(outcome: Outcome<Claim>) {
    outcome.Err? && outcome.error.EffectError? && outcome.error.effect.AmbiguousEffect?
  }

  /** One pass: the re-check's refusal, or what the claim came to. */
  function OnePass(s: Store, configured: bool, call: Call, now: int): (Store, Secured) {
    var refused := RecheckRefused(s, configured, call, now);
    if refused.Some? then (s, SecuredBy(Err(ApprovalError(refused.value)))) else
    var (t, outcome) := Taking(s, call, now);
    (t, SecuredBy(outcome))
  }

  /** Whether the first pass is refused as ambiguous while there is still a hook to ask. */
  predicate AsksWhileSecuring(s: Store, configured: bool, call: Call, hook: Hook, used: bool, now: int) {
    && RecheckRefused(s, configured, call, now).None? && IsAmbiguous(Taking(s, call, now).1)
    && hook.Hook? && !used && call.effectKey.Some?
  }

  /** A pass refused as ambiguous is asked about once; only a record the answer moved earns a second pass. */
  function Securing(s: Store, configured: bool, call: Call, hook: Hook, used: bool, now: int): (Store, Secured) {
    var (t, r) := OnePass(s, configured, call, now);
    if AsksWhileSecuring(s, configured, call, hook, used, now) then
      var (moved, again) := Reconciling(t, call.effectKey.value, ResolverOf(call.action),
                                        hook.answer(call.effectKey.value), now);
      if again then OnePass(moved, configured, call, now) else (moved, r)
    else (t, r)
  }

  function SecuredBy(outcome: Outcome<Claim>): Secured {
    match outcome
    case Ok(claim) => Secured(claim)
    case Err(EffectError(InvalidArgument)) => Broken
    case Err(EffectError(_)) => Blocked
    case Err(ApprovalError(ApprovalDenied)) => Barred
    case Err(ApprovalError(_)) => Invalidated
    case Err(BudgetError(MixedAmounts)) => Broken
    case Err(BudgetError(_)) => Barred
    case Err(_) => Broken
  }

  /** Evidence only grows, and nothing in what was added claims that an executor started. */
  ghost predicate Quiet(before: seq<Event>, after: seq<Event>) {
    before <= after && forall i | |before| <= i < |after| :: !after[i].ExecutionStarted?
  }

  predicate OverTheCeiling(ceiling: Option<nat>, attempt: nat) {
    ceiling.Some? && attempt > ceiling.value
  }

  /** How one `execute` ended: refused before, past the ceiling, its key lost before it began, or run. */
  datatype Executed =
    | Unsecured(verdict: Secured)
    | PastCeiling(attempt: nat)
    | Lost(attempt: nat)
    | Ran(attempt: nat, ended: Ended)

  /** A refused attempt is released as failed, by the two writes any attempt makes. */
  function AfterRelease(s: Store, key: string, actionId: string, now: int): Store {
    var (t, begun) := Begin(s, key, actionId, now);
    if begun.Err? then t else Fail(t, key, actionId, "max_attempts", now).0
  }

  function AttemptOf(claim: Claim): nat {
    if claim.reservation.None? then 1 else claim.reservation.value.attempt
  }

  /** What a secured call comes to: past the ceiling and released, its key lost, or run and mapped. */
  function RunningCall(s: Store, call: Call, claim: Claim, ceiling: Option<nat>, ran: Ran, hook: Hook, used: bool,
                       mayHold: bool, timeout: int, began: int, over: int): (Store, Executed)
  {
    var attempt := AttemptOf(claim);
    if call.effectKey.Some? && OverTheCeiling(ceiling, attempt) then
      (AfterRelease(s, call.effectKey.value, call.action.actionId, began), PastCeiling(attempt))
    else if call.effectKey.Some? && Begin(s, call.effectKey.value, call.action.actionId, began).1.Err?
      then (s, Lost(attempt))
    else
      var begun := if call.effectKey.Some? then Begin(s, call.effectKey.value, call.action.actionId, began).0 else s;
      var (t, ended) := Mapped(begun, call.action, call.effectKey, ran, hook, used, mayHold, over + timeout, over);
      (t, Ran(attempt, ended))
  }

  /** The whole path of one call, over the three instants it reads the clock. */
  function ExecutingCall(s: Store, configured: bool, call: Call, ceiling: Option<nat>, ran: Ran, hook: Hook,
                         used: bool, mayHold: bool, timeout: int, now: int, began: int, over: int): (Store, Executed)
  {
    var (t, secured) := Securing(s, configured, call, hook, used, now);
    if !secured.Secured? then (t, Unsecured(secured))
    else RunningCall(t, call, secured.claim, ceiling, ran, hook,
                 used || AsksWhileSecuring(s, configured, call, hook, used, now), mayHold, timeout, began, over)
  }

  class Control {
    const store: StateStore
    const configured: bool
    const suspendTimeout: int
    var receipts: seq<Receipt>
    var events: seq<Event>

    constructor (store: StateStore, configured: bool, suspendTimeout: int)
      ensures this.store == store && this.configured == configured && this.suspendTimeout == suspendTimeout
      ensures receipts == [] && events == []
    {
      this.store, this.configured, this.suspendTimeout, receipts, events := store, configured, suspendTimeout, [], [];
    }

    method Append(e: Event)
      modifies this`events
      ensures events == old(events) + [e]
    {
      events := events + [e];
    }

    method Record(action: Action, key: Option<string>, attempt: nat, result: Result)
      modifies this`receipts
      ensures receipts == old(receipts) + [Receipt(action.actionId, key, attempt, result)]
    {
      receipts := receipts + [Receipt(action.actionId, key, attempt, result)];
    }

    /** `_reconciled`: asks once, and moves the record only where the answer points. */
    method Reconcile(reconciler: Reconciler, action: Action, key: Option<string>, now: int) returns (moved: bool)
      requires reconciler.Valid()
      modifies this`events, store`effects, store`ledger, reconciler
      ensures reconciler.Valid() && reconciler.used == old(reconciler.used || reconciler.Available(key))
      ensures Quiet(old(events), events)
      ensures (store.State(), moved) ==
        if old(reconciler.Available(key))
          then Reconciling(old(store.State()), key.value, ResolverOf(action), reconciler.hook.answer(key.value), now)
        else (old(store.State()), false)
    {
      if !reconciler.Available(key) { return false; }
      Append(ReconciliationStarted);
      var answer := reconciler.Ask(key.value);
      Append(ReconciliationResolved(answer));
      if answer.SaysUnknown? { return false; }
      var state := if answer.SaysCommitted? then Committed else Failed;
      var outcome := store.ResolveEffect(key.value, state, ResolverOf(action), now);
      if outcome.Err? { return false; }
      Append(EffectResolved(state));
      return true;
    }

    /** The round of a suspension that may be held, and its event. */
    method HoldRound(action: Action, key: string, token: string, now: int) returns (ended: Ended)
      requires TokensDistinct(store.State())
      modifies this`events, store
      ensures TokensDistinct(store.State())
      ensures (store.State(), ended)
          == AfterSuspend(old(store.State()), action, Some(key), token, true, now + suspendTimeout, now)
      ensures !ended.Recorded? && Quiet(old(events), events)
    {
      var outcome := store.Hold(action, key, token, now + suspendTimeout, now);
      if outcome.Err? { return NotHeld; }
      Append(ExecutionSuspended(true, outcome.value));
      ended := HeldOpen(outcome.value);
    }

    /** `_suspend`: the reservation is held only while the credential and the authority still stand. */
    method Suspend(action: Action, key: Option<string>, token: string, authority: Authority, now: int)
      returns (ended: Ended)
      requires TokensDistinct(store.State())
      modifies this`events, store
      ensures TokensDistinct(store.State())
      ensures (store.State(), ended)
          == AfterSuspend(old(store.State()), action, key, token, MayHold(authority, action, now),
                                                     now + suspendTimeout, now)
      ensures !ended.Recorded? && Quiet(old(events), events)
    {
      if key.None? {
        Append(ExecutionSuspended(false, 1));
        return NotHeld;
      }
      var mayHold := Redecide(authority, action, now);
      if !mayHold {
        Append(ActionDenied);
        return NotHeld;
      }
      ended := HoldRound(action, key.value, token, now);
    }

    /**
      `_outcome`: exactly one terminal receipt unless the executor suspends, and none then. The
      receipt is `committed` or `failed` only where the store took that write.
     */
    method Outcome(action: Action, key: Option<string>, attempt: nat, ran: Ran, reconciler: Reconciler,
                   authority: Authority, now: int)
      returns (ended: Ended)
      requires reconciler.Valid() && TokensDistinct(store.State())
      modifies this, store, reconciler
      ensures reconciler.Valid() && TokensDistinct(store.State()) && Quiet(old(events), events)
      ensures (store.State(), ended)
          == Mapped(old(store.State()), action, key, ran, reconciler.hook, old(reconciler.used),
                                               MayHold(authority, action, now), now + suspendTimeout, now)
      ensures receipts == old(receipts) + if ran.Suspended? then []
        else [Receipt(action.actionId, key, attempt, ended.result)]
    {
      match ran {
        case Suspended(token) =>
          ended := Suspend(action, key, token, authority, now);
        case NotExecuted(error) =>
          if key.Some? {
            var outcome := store.Move(key.value, action.actionId, Failed, EXECUTING_ONLY, None, Some(error), now);
            if outcome.Err? {
              Append(ExecutionAmbiguous);
              Record(action, key, attempt, AmbiguousReceipt);
              return Recorded(AmbiguousReceipt);
            }
          }
          Append(ExecutionFailed);
          Record(action, key, attempt, FailedReceipt);
          ended := Recorded(FailedReceipt);
        case Raised(error, interrupt) =>
          var recorded := key.None?;
          if key.Some? {
            var outcome := store.Move(key.value, action.actionId, Ambiguous, UNFINISHED, None, Some(error), now);
            recorded := outcome.Ok?;
          }
          Append(ExecutionAmbiguous);
          if reconciler.hook.Hook? && reconciler.hook.eagerly && recorded && !interrupt {
            var _ := Reconcile(reconciler, action, key, now);
          }
          Record(action, key, attempt, AmbiguousReceipt);
          ended := Recorded(AmbiguousReceipt);
        case Returned(result) =>
          if key.Some? {
            var outcome := store.Move(key.value, action.actionId, Committed, EXECUTING_ONLY, Some(result), None, now);
            if outcome.Err? {
              Append(ExecutionAmbiguous);
              Record(action, key, attempt, AmbiguousReceipt);
              return Recorded(AmbiguousReceipt);
            }
          }
          Append(ExecutionCommitted);
          Record(action, key, attempt, CommittedReceipt);
          ended := Recorded(CommittedReceipt);
      }
    }

    /** The event and the receipt a refused claim leaves; a malformed call leaves neither. */
    method Refuse(call: Call, verdict: Secured)
      requires !verdict.Secured?
      modifies this
      ensures Quiet(old(events), events)
      ensures receipts == old(receipts) + match verdict
        case Blocked => [Receipt(call.action.actionId, call.effectKey, 0, BlockedReceipt)]
        case Invalidated => [Receipt(call.action.actionId, call.effectKey, 0, BlockedReceipt)]
        case Barred => [Receipt(call.action.actionId, call.effectKey, 0, DeniedReceipt)]
        case _ => []
    {
      if verdict.Blocked? || verdict.Invalidated? {
        Append(if verdict.Blocked? then ReservationRefused else ApprovalInvalidated);
        Record(call.action, call.effectKey, 0, BlockedReceipt);
      } else if verdict.Barred? {
        Append(ActionDenied);
        Record(call.action, call.effectKey, 0, DeniedReceipt);
      }
    }

    /** One pass of `_secure`'s loop: the re-check and then, with nothing between them, the claim. */
    method Pass(call: Call, now: int) returns (r: Secured, ambiguous: bool)
      modifies store`approvals, store`effects, store`ledger
      ensures (store.State(), r) == OnePass(old(store.State()), configured, call, now)
      ensures ambiguous <==>
        (old(RecheckRefused(store.State(), configured, call, now)).None?
         && IsAmbiguous(Taking(old(store.State()), call, now).1))
    {
      if call.approvalId.Some? {
        var refused := Recheck(configured, Get(store.approvals, call.approvalId.value), call.actionHash,
                               call.action.principal, call.precondition, now);
        if refused.Some? { return SecuredBy(Err(ApprovalError(refused.value))), false; }
      }
      var outcome := store.AuthorizeAndReserve(call.approvalId, call.actionHash, call.effectKey, call.action.actionId,
                                               call.lease, call.charges, now);
      r, ambiguous := SecuredBy(outcome), IsAmbiguous(outcome);
    }

    /**
      `_secure`: at most two passes. The second is earned only by a hook that moved an ambiguous
      record, is final, and re-checks the approval before it claims.
     */
    method Secure(call: Call, reconciler: Reconciler, now: int) returns (r: Secured)
      requires reconciler.Valid()
      modifies this, store`approvals, store`effects, store`ledger, reconciler
      ensures reconciler.Valid() && Quiet(old(events), events)
      ensures (store.State(), r)
          == Securing(old(store.State()), configured, call, reconciler.hook, old(reconciler.used), now)
      ensures reconciler.used
          == old(reconciler.used
                 || AsksWhileSecuring(store.State(), configured, call, reconciler.hook, reconciler.used, now))
      ensures r.Secured? ==> receipts == old(receipts)
      ensures r.Invalidated? || r.Blocked? || r.Barred? ==> |receipts| == |old(receipts)| + 1
    {
      var reconciled := false;
      while true
        invariant reconciler.Valid() && receipts == old(receipts) && Quiet(old(events), events)
        invariant !reconciled ==> store.State() == old(store.State()) && reconciler.used == old(reconciler.used)
        invariant reconciled ==>
          Securing(old(store.State()), configured, call, reconciler.hook, old(reconciler.used), now)
          == OnePass(store.State(), configured, call, now)
        invariant reconciled ==>
          reconciler.used
            && old(AsksWhileSecuring(store.State(), configured, call, reconciler.hook, reconciler.used, now))
        decreases !reconciled
      {
        var ambiguous;
        r, ambiguous := Pass(call, now);
        if ambiguous && !reconciled {
          reconciled := Reconcile(reconciler, call.action, call.effectKey, now);
          if reconciled { continue; }
        }
        if !r.Secured? {
          Refuse(call, r);
          return;
        }
        if r.claim.approval.Some? { Append(ApprovalConsumed); }
        if r.claim.reservation.Some? { Append(EffectReserved(r.claim.reservation.value.attempt)); }
        return;
      }
    }

    /** `_refuse_ceiling` after a reservation: the evidence first, then the release. */
    method RefuseCeiling(call: Call, attempt: nat, now: int)
      requires call.effectKey.Some?
      modifies this, store`effects, store`ledger
      ensures Quiet(old(events), events)
      ensures receipts == old(receipts) + [Receipt(call.action.actionId, call.effectKey, attempt, BlockedReceipt)]
      ensures store.State() == AfterRelease(old(store.State()), call.effectKey.value, call.action.actionId, now)
    {
      Append(CeilingRefused(attempt));
      Record(call.action, call.effectKey, attempt, BlockedReceipt);
      var begun := store.Move(call.effectKey.value, call.action.actionId, Executing, RESERVED_ONLY, None, None, now);
      if begun.Err? { return; }
      var released := store.Move(call.effectKey.value, call.action.actionId, Failed, EXECUTING_ONLY, None,
                                 Some("max_attempts"), now);
    }

    /** The rest of `execute` once the call is secured: the ceiling, the beginning, and the outcome mapping. */
    method Run(call: Call, claim: Claim, ceiling: Option<nat>, ran: Ran, reconciler: Reconciler, authority: Authority,
               began: int, over: int)
      returns (r: Executed)
      requires reconciler.Valid() && TokensDistinct(store.State())
      modifies this, store, reconciler
      ensures reconciler.Valid() && TokensDistinct(store.State())
      ensures (store.State(), r)
          == RunningCall(old(store.State()), call, claim, ceiling, ran, reconciler.hook, old(reconciler.used),
                                            MayHold(authority, call.action, over), suspendTimeout, began, over)
      ensures !r.Ran? ==> Quiet(old(events), events)
      ensures r.PastCeiling? ==>
        receipts == old(receipts) + [Receipt(call.action.actionId, call.effectKey, r.attempt, BlockedReceipt)]
      ensures r.Ran? ==>
        && (exists m :: Quiet(old(events), m) && Quiet(m + [ExecutionStarted(r.attempt)], events))
        && receipts == old(receipts) + if ran.Suspended? then []
          else [Receipt(call.action.actionId, call.effectKey, r.attempt, r.ended.result)]
    {
      var attempt := AttemptOf(claim);
      if call.effectKey.Some? {
        if OverTheCeiling(ceiling, attempt) {
          RefuseCeiling(call, attempt, began);
          return PastCeiling(attempt);
        }
        var begun := store.Move(call.effectKey.value, call.action.actionId, Executing, RESERVED_ONLY, None, None,
                                began);
        if begun.Err? {
          if !begun.error.effect.InvalidArgument? {
            Append(ReservationRefused);
            Record(call.action, call.effectKey, attempt, BlockedReceipt);
          }
          return Lost(attempt);
        }
      }
      ghost var quiet := events;
      Append(ExecutionStarted(attempt));
      var ended := Outcome(call.action, call.effectKey, attempt, ran, reconciler, authority, over);
      assert Quiet(old(events), quiet) && Quiet(quiet + [ExecutionStarted(attempt)], events);
      r := Ran(attempt, ended);
    }

    /**
      `execute`, from the decision on. An executor starts only where the call was secured, on a
      number within the ceiling and a reservation that became `EXECUTING`, and then the outcome
      mapping runs once.
     */
    method Execute(call: Call, ceiling: Option<nat>, ran: Ran, reconciler: Reconciler, authority: Authority, now: int,
                   began: int, over: int)
      returns (r: Executed)
      requires reconciler.Valid() && TokensDistinct(store.State())
      modifies this, store, reconciler
      ensures reconciler.Valid() && TokensDistinct(store.State())
      ensures (store.State(), r)
          == ExecutingCall(old(store.State()), configured, call, ceiling, ran, reconciler.hook, old(reconciler.used),
                                              MayHold(authority, call.action, over), suspendTimeout, now, began, over)
      ensures !r.Ran? ==> Quiet(old(events), events)
      ensures r.Ran? ==> exists m :: Quiet(old(events), m) && Quiet(m + [ExecutionStarted(r.attempt)], events)
      ensures r.Ran? && !ran.Suspended? ==>
        receipts == old(receipts) + [Receipt(call.action.actionId, call.effectKey, r.attempt, r.ended.result)]
    {
      var secured := Secure(call, reconciler, now);
      if !secured.Secured? { return Unsecured(secured); }
      ghost var quiet := events;
      r := Run(call, secured.claim, ceiling, ran, reconciler, authority, began, over);
      if r.Ran? {
        ghost var m :| Quiet(quiet, m) && Quiet(m + [ExecutionStarted(r.attempt)], events);
        assert Quiet(old(events), m);
      }
    }

    /**
      `resume`: one suspension admits one resumption. The held action runs through the same outcome
      mapping, under the number of the record it found and with no hook to ask.
     */
    method Resume(token: string, ran: Ran, authority: Authority, now: int, over: int) returns (r: Outcome<Ended>)
      requires TokensDistinct(store.State())
      modifies this, store
      ensures TokensDistinct(store.State())
      ensures r.Ok? <==> TakeContinuation(old(store.State()), token, now).1.Ok?
      ensures r.Err? ==>
        store.State() == TakeContinuation(old(store.State()), token, now).0 && receipts == old(receipts)
      ensures r.Ok? ==>
        var (taken, resumed) := TakeContinuation(old(store.State()), token, now);
        var held := resumed.value;
        && (store.State(), r.value)
            == Mapped(taken, held.action, Some(held.effectKey), ran, NoHook, false,
                      MayHold(authority, held.action, over),
                                             over + suspendTimeout, over)
        && receipts == old(receipts) + if ran.Suspended? then [] else
             [Receipt(held.action.actionId, Some(held.effectKey), held.record.attempt, r.value.result)]
    {
      var resumed := store.TakeHeldContinuation(token, now);
      if resumed.Err? { return Err(resumed.error); }
      var held := resumed.value;
      Append(ExecutionResumed(held.rounds));
      var nobody := new Reconciler(NoHook);
      var ended := Outcome(held.action, Some(held.effectKey), held.record.attempt, ran, nobody, authority, over);
      r := Ok(ended);
    }
  }

  // --- what the path keeps ------------------------------------------------------------------------

  /** A terminal receipt agrees with the record: `committed` and `failed` are written only where the store says so. */
  lemma ReceiptAgreesWithTheRecord(s: Store, key: string, actionId: string, ran: Ran, now: int)
    requires !ran.Suspended?
    ensures var (t, result) := OutcomeOf(s, Some(key), actionId, ran, now);
      && (result.CommittedReceipt? ==>
            key in t.effects && t.effects[key].state.Committed? && t.effects[key].actionId == actionId)
      && (result.FailedReceipt? ==>
            key in t.effects && t.effects[key].state.Failed? && t.effects[key].actionId == actionId)
      && (result.CommittedReceipt? <==>
            ran.Returned? && key in s.effects && s.effects[key].actionId == actionId && s.effects[key].state.Executing?)
      && (result.FailedReceipt? <==>
            ran.NotExecuted? && key in s.effects && s.effects[key].actionId == actionId
              && s.effects[key].state.Executing?)
      && (t != s && !result.AmbiguousReceipt? ==> t.effects.Keys == s.effects.Keys)
  {}

  /** A hook's answer moves only an ambiguous record, and an answer of `unknown` moves nothing. */
  lemma HookMovesOnlyAmbiguity(s: Store, key: string, resolver: string, answer: HookAnswer, now: int)
    requires resolver != []
    ensures var (t, moved) := Reconciling(s, key, resolver, answer, now);
      && (moved <==> !answer.SaysUnknown? && key in s.effects && s.effects[key].state.Ambiguous?)
      && (!moved ==> t == s)
      && (moved ==> t.effects == s.effects[key := t.effects[key]]
                    && t.effects[key].state == (if answer.SaysCommitted? then Committed else Failed))
      && t.approvals == s.approvals
  {
    ResolveOnEffects(s, key, Committed, resolver, now);
    ResolveOnEffects(s, key, Failed, resolver, now);
  }

  /** However a call is refused, an approval it presented that was live and granted stays granted. */
  lemma RefusedCallLeavesTheGrant(s: Store, configured: bool, call: Call, hook: Hook, used: bool, now: int)
    requires call.approvalId.Some? && call.approvalId.value in s.approvals
         && s.approvals[call.approvalId.value].status.Granted?
    requires now <= s.approvals[call.approvalId.value].request.expiresAt
    ensures var (t, r) := Securing(s, configured, call, hook, used, now); !r.Secured? ==> t.approvals == s.approvals
  {
    PassLeavesTheGrant(s, configured, call, now);
    var t := OnePass(s, configured, call, now).0;
    if call.effectKey.Some? && hook.Hook? {
      HookMovesOnlyAmbiguity(t, call.effectKey.value, ResolverOf(call.action), hook.answer(call.effectKey.value), now);
      var moved := Reconciling(t, call.effectKey.value, ResolverOf(call.action), hook.answer(call.effectKey.value),
                               now).0;
      if moved.approvals == s.approvals { PassLeavesTheGrant(moved, configured, call, now); }
    }
  }

  lemma PassLeavesTheGrant(s: Store, configured: bool, call: Call, now: int)
    requires call.approvalId.Some? && call.approvalId.value in s.approvals
         && s.approvals[call.approvalId.value].status.Granted?
    requires now <= s.approvals[call.approvalId.value].request.expiresAt
    ensures var (t, r) := OnePass(s, configured, call, now); !r.Secured? ==> t.approvals == s.approvals
  {}

  /** Only a call whose approval passed the re-check is ever secured with one. */
  lemma SecuredMeansRechecked(s: Store, configured: bool, call: Call, now: int)
    requires OnePass(s, configured, call, now).1.Secured?
    ensures RecheckRefused(s, configured, call, now).None?
    ensures call.approvalId.Some? ==>
      CheckConsumable(Get(s.approvals, call.approvalId.value), call.actionHash, now).Usable?
  {}
}
