/**
  What holds in every world any interleaving of the effect protocol reaches: at most one start
  beyond the proven failures, at most one attempt that acted, at most one committed receipt, no
  more starts than the ceiling, one resumption a suspension, and a live lease nobody else moves.
 */
module ProtocolLaws {
  import opened Options
  import opened Actions
  import opened Effects
  import opened Stores
  import opened Protocol

  lemma {:induction false} RunKeeps(ceilings: Ceilings, w: World, steps: seq<Step>, key: string)
    requires KeyInvariant(ceilings, w, key)
    ensures KeyInvariant(ceilings, After(ceilings, w, steps), key)
    decreases |steps|
  {
    if steps != [] {
      StepKeeps(ceilings, w, steps[0], key);
      RunKeeps(ceilings, Next(ceilings, w, steps[0]), steps[1..], key);
    }
  }

  /**
    At most once, over every interleaving: the attempts on a key whose execution starts are at most
    one more than the transitions of that key into `FAILED`.
   */
  lemma StartsAtMostOnceBeyondFailures(ceilings: Ceilings, steps: seq<Step>, key: string)
    ensures var log := After(ceilings, EMPTY, steps).log;
      Count(log, key, Starts) <= 1 + Count(log, key, Failures)
  {
    EmptyKeeps(ceilings, key);
    RunKeeps(ceilings, EMPTY, steps, key);
  }

  /** However callers race, no more attempts start than `max_attempts` allows. */
  lemma StartsWithinTheCeiling(ceilings: Ceilings, steps: seq<Step>, key: string)
    requires key in ceilings
    ensures Count(After(ceilings, EMPTY, steps).log, key, Starts) <= ceilings[key]
  {
    EmptyKeeps(ceilings, key);
    RunKeeps(ceilings, EMPTY, steps, key);
  }

  /** At most one `committed` receipt is ever written for a key, and only once the record says so. */
  lemma OneCommittedReceipt(ceilings: Ceilings, steps: seq<Step>, key: string)
    ensures var w := After(ceilings, EMPTY, steps);
      && Count(w.log, key, Commits) <= 1
      && (Count(w.log, key, Commits) == 1 ==> key in w.store.effects && w.store.effects[key].state.Committed?)
  {
    EmptyKeeps(ceilings, key);
    RunKeeps(ceilings, EMPTY, steps, key);
  }

  // --- one attempt acts ------------------------------------------------------------------------

  /** Calls on one key hold different attempts, and what acted was some call's own attempt. */
  ghost predicate CallsDiffer(w: World, key: string) {
    && (forall a, b | a in w.callers && b in w.callers && a != b && w.callers[a].key == key
        && w.callers[b].key == key ::
         w.callers[a].attempt != w.callers[b].attempt)
    && (forall i | 0 <= i < |w.log| && w.log[i].Acted? && w.log[i].key == key ::
         && w.log[i].actionId in w.callers && w.callers[w.log[i].actionId].key == key
         && w.callers[w.log[i].actionId].attempt == w.log[i].attempt)
    && (forall i, j | 0 <= i < j < |w.log| && w.log[i].ReservedKey? && w.log[j].ReservedKey?
         && w.log[i].key == key && w.log[j].key == key :: w.log[i].attempt < w.log[j].attempt)
  }

  lemma SameCallsKeepDifferent(w: World, v: World, key: string)
    requires CallsDiffer(w, key) && SameCalls(w, v) && w.log <= v.log
    requires forall i | |w.log| <= i < |v.log| :: !v.log[i].Acted? && !v.log[i].ReservedKey?
    ensures CallsDiffer(v, key)
  {}

  lemma TakingKeepsDifferent(ceilings: Ceilings, w: World, step: Step, key: string)
    requires KeyInvariant(ceilings, w, key) && CallsDiffer(w, key) && step.TakeKey?
    ensures CallsDiffer(TakingKey(w, step), key)
  {
    var v := TakingKey(w, step);
    var id := step.action.actionId;
    if id !in w.callers {
      TakeOnEffects(w.store, step.approvalId, step.actionHash, step.key, id, step.lease, step.charges, w.now);
      var outcome := Take(w.store, step.approvalId, step.actionHash, Some(step.key), id, step.lease, step.charges,
                          w.now).1;
      if outcome.Ok? {
        var e := ReservedKey(step.key, id, outcome.value.reservation.value.attempt, step.charges, w.now);
        assert v.log == w.log + [e];
        forall a | a in w.callers && w.callers[a].key == key && step.key == key
          ensures w.callers[a].attempt < e.attempt
        {}
        forall i | 0 <= i < |w.log| && w.log[i].ReservedKey? && w.log[i].key == key && step.key == key
          ensures w.log[i].attempt < e.attempt
        {}
      }
    }
  }

  lemma ActingKeepsDifferent(w: World, id: string, key: string)
    requires CallsDiffer(w, key) && id in w.callers
    ensures CallsDiffer(Logged(w, Acted(w.callers[id].key, id, w.callers[id].attempt)), key)
  {}

  lemma StepKeepsDifferent(ceilings: Ceilings, w: World, step: Step, key: string)
    requires KeyInvariant(ceilings, w, key) && CallsDiffer(w, key)
    ensures CallsDiffer(Next(ceilings, w, step), key)
  {
    var v := Next(ceilings, w, step);
    match step
    case TakeKey(_, _, _, _, _, _) => TakingKeepsDifferent(ceilings, w, step, key);
    case RemoteActs(id) => if id in w.callers { ActingKeepsDifferent(w, id, key); }
    case _ => StepShape(ceilings, w, step); SameCallsKeepDifferent(w, v, key);
  }

  lemma {:induction false} RunKeepsDifferent(ceilings: Ceilings, w: World, steps: seq<Step>, key: string)
    requires KeyInvariant(ceilings, w, key) && CallsDiffer(w, key)
    ensures CallsDiffer(After(ceilings, w, steps), key)
    decreases |steps|
  {
    if steps != [] {
      StepKeeps(ceilings, w, steps[0], key);
      StepKeepsDifferent(ceilings, w, steps[0], key);
      RunKeepsDifferent(ceilings, Next(ceilings, w, steps[0]), steps[1..], key);
    }
  }

  /** The store numbers the reservations of a key in strictly increasing order, refused ones included. */
  lemma AttemptNumbersIncrease(ceilings: Ceilings, steps: seq<Step>, key: string, i: nat, j: nat)
    requires var log := After(ceilings, EMPTY, steps).log;
      i < j < |log| && log[i].ReservedKey? && log[j].ReservedKey? && log[i].key == log[j].key == key
    ensures After(ceilings, EMPTY, steps).log[i].attempt < After(ceilings, EMPTY, steps).log[j].attempt
  {
    EmptyKeeps(ceilings, key);
    RunKeepsDifferent(ceilings, EMPTY, steps, key);
  }

  /** No attempt declared not to have acted acted: `NotExecuted` and every resolution to `FAILED` were true. */
  ghost predicate Truthful(log: seq<Event>, key: string) {
    forall i, j | 0 <= i < |log| && 0 <= j < |log| && log[i].Acted? && log[j].WentFailed?
      && log[i].key == key && log[j].key == key :: log[i].attempt != log[j].attempt
  }

  /** With truthful declarations, everything the remote ever did for a key was done by one attempt of one action. */
  lemma OneAttemptActs(ceilings: Ceilings, steps: seq<Step>, key: string, i: nat, j: nat)
    requires var log := After(ceilings, EMPTY, steps).log;
      && Truthful(log, key) && i < |log| && j < |log|
      && log[i].Acted? && log[j].Acted? && log[i].key == log[j].key == key
    ensures var log := After(ceilings, EMPTY, steps).log;
      log[i].attempt == log[j].attempt && log[i].actionId == log[j].actionId
  {
    EmptyKeeps(ceilings, key);
    RunKeeps(ceilings, EMPTY, steps, key);
    RunKeepsDifferent(ceilings, EMPTY, steps, key);
    var w := After(ceilings, EMPTY, steps);
    LastAttemptActs(ceilings, w, key, i);
    LastAttemptActs(ceilings, w, key, j);
  }

  /** Every attempt before the last was declared not to have acted, so what acted is the last. */
  lemma LastAttemptActs(ceilings: Ceilings, w: World, key: string, i: nat)
    requires KeyInvariant(ceilings, w, key) && Truthful(w.log, key)
    requires i < |w.log| && w.log[i].Acted? && w.log[i].key == key
    ensures key in w.store.effects && w.log[i].attempt == w.store.effects[key].attempt
  {
    FailedNeverActed(w.log, key, i);
  }

  lemma FailedNeverActed(log: seq<Event>, key: string, i: nat)
    requires Truthful(log, key) && i < |log| && log[i].Acted? && log[i].key == key
    ensures !FailedAt(log, key, log[i].attempt)
  {}

  // --- the record and the lease -----------------------------------------------------------------

  /** The action id a step writes outcomes as, where it names one. */
  function Actor(w: World, step: Step): Option<string> {
    match step
    case TakeKey(action, _, _, _, _, _) => Some(action.actionId)
    case BeginRun(id) => Some(id)
    case ReleaseRun(id) => Some(id)
    case Finish(id, _) => Some(id)
    case Suspend(id, _, _) => if id in w.callers then Some(w.callers[id].action.actionId) else None
    case Extend(_, id, _) => Some(id)
    case _ => None
  }

  lemma TakeLeaves(ceilings: Ceilings, w: World, step: Step, key: string)
    requires step.TakeKey? && key in w.store.effects && !w.store.effects[key].state.Failed?
         && !w.store.effects[key].state.New?
    ensures var v := TakingKey(w, step);
      && key in v.store.effects
      && (v.store.effects[key] == w.store.effects[key]
          || (&& (w.store.effects[key].state.Reserved? || w.store.effects[key].state.Executing?)
              && !LeaseIsLive(w.store.effects[key], w.now) && v.store.effects[key].state.Ambiguous?))
  {
    TakeOnEffects(w.store, step.approvalId, step.actionHash, step.key, step.action.actionId, step.lease, step.charges,
                  w.now);
  }

  /**
    What a step other than a claim may do to a record: nothing, or a move by its own holder out of
    an unfinished state, or the one resolution of an ambiguous record.
   */
  ghost predicate MayMove(w: World, step: Step, key: string, r: EffectRecord, moved: EffectRecord) {
    || moved == r
    || (&& Actor(w, step) == Some(r.actionId) && (r.state.Reserved? || r.state.Executing? || r.state.Ambiguous?)
        && moved.actionId == r.actionId && moved.attempt == r.attempt
        && (r.state.Ambiguous? ==> moved.state.Ambiguous?)
        && (moved.state.Ambiguous? ==> moved.leaseExpiresAt.None?))
    || (&& step.ResolveKey? && step.key == key && r.state.Ambiguous?
        && moved.state == step.state && (step.state.Committed? || step.state.Failed?)
        && moved.actionId == r.actionId && moved.attempt == r.attempt && moved.leaseExpiresAt.None?)
  }

  lemma FinishingMayMove(w: World, id: string, ending: Ending, key: string)
    requires At(w, id, Running) && key in w.store.effects
    ensures var v := Finishing(w, id, ending);
      key in v.store.effects && MayMove(w, Finish(id, ending), key, w.store.effects[key], v.store.effects[key])
  {
    var c := w.callers[id];
    match ending
    case Returned(result) => TransitionOnEffects(w.store, c.key, id, Committed, EXECUTING_ONLY, Some(result), None,
                                                 w.now);
    case NotExecuted(error) => TransitionOnEffects(w.store, c.key, id, Failed, EXECUTING_ONLY, None, Some(error),
                                                   w.now);
    case Raised(error) => TransitionOnEffects(w.store, c.key, id, Ambiguous, UNFINISHED, None, Some(error), w.now);
  }

  lemma BeginningMayMove(ceilings: Ceilings, w: World, id: string, key: string)
    requires At(w, id, Holding) && key in w.store.effects
    ensures var v := Beginning(ceilings, w, id);
      key in v.store.effects && MayMove(w, BeginRun(id), key, w.store.effects[key], v.store.effects[key])
  {
    TransitionOnEffects(w.store, w.callers[id].key, id, Executing, RESERVED_ONLY, None, None, w.now);
  }

  lemma ReleasingMayMove(w: World, id: string, key: string)
    requires At(w, id, Releasing) && key in w.store.effects
    ensures var v := ReleasingRun(w, id);
      key in v.store.effects && MayMove(w, ReleaseRun(id), key, w.store.effects[key], v.store.effects[key])
  {
    TransitionOnEffects(w.store, w.callers[id].key, id, Failed, EXECUTING_ONLY, None, Some("max_attempts"), w.now);
  }

  lemma StepMayMove(ceilings: Ceilings, w: World, step: Step, key: string)
    requires !step.TakeKey? && key in w.store.effects
    ensures var v := Next(ceilings, w, step);
      key in v.store.effects && MayMove(w, step, key, w.store.effects[key], v.store.effects[key])
  {
    match step
    case BeginRun(id) => if At(w, id, Holding) { BeginningMayMove(ceilings, w, id, key); }
    case ReleaseRun(id) => if At(w, id, Releasing) { ReleasingMayMove(w, id, key); }
    case Finish(id, ending) => if At(w, id, Running) { FinishingMayMove(w, id, ending, key); }
    case ResolveKey(at, state, resolver) => ResolveOnEffects(w.store, at, state, resolver, w.now);
    case Suspend(id, token, until) => if At(w, id, Running) { SuspendingMayMove(w, id, token, until, key); }
    case Extend(at, id, until) => ExtendedExactlyWhen(Get(w.store.effects, at), at, id, until, w.now);
    case Resume(token) => ResumingMovesNothing(w, token);
    case _ =>
  }

  lemma SuspendingMayMove(w: World, id: string, token: string, until: int, key: string)
    requires At(w, id, Running) && key in w.store.effects
    ensures var v := Suspending(w, id, token, until);
      key in v.store.effects && MayMove(w, Suspend(id, token, until), key, w.store.effects[key], v.store.effects[key])
  {
    var c := w.callers[id];
    ExtendedExactlyWhen(Get(w.store.effects, c.key), c.key, c.action.actionId, until, w.now);
  }

  lemma ResumingMovesNothing(w: World, token: string)
    ensures Resuming(w, token).store.effects == w.store.effects
  {}

  /** A step by anyone but the holder leaves a record on a live lease exactly as it was. */
  lemma LiveLeaseIsTheHolders(ceilings: Ceilings, w: World, step: Step, key: string)
    requires key in w.store.effects && LeaseIsLive(w.store.effects[key], w.now)
    requires Actor(w, step) != Some(w.store.effects[key].actionId)
    ensures var v := Next(ceilings, w, step);
      key in v.store.effects && v.store.effects[key] == w.store.effects[key]
  {
    if step.TakeKey? { TakeLeaves(ceilings, w, step, key); } else { StepMayMove(ceilings, w, step, key); }
  }

  /** `COMMITTED` is absorbing: no step of any kind changes a committed record. */
  lemma CommittedIsFinal(ceilings: Ceilings, w: World, step: Step, key: string)
    requires key in w.store.effects && w.store.effects[key].state.Committed?
    ensures var v := Next(ceilings, w, step);
      key in v.store.effects && v.store.effects[key] == w.store.effects[key]
  {
    if step.TakeKey? { TakeLeaves(ceilings, w, step, key); } else { StepMayMove(ceilings, w, step, key); }
  }

  lemma {:induction false} CommittedStaysCommitted(ceilings: Ceilings, w: World, steps: seq<Step>, key: string)
    requires key in w.store.effects && w.store.effects[key].state.Committed?
    ensures var v := After(ceilings, w, steps);
      key in v.store.effects && v.store.effects[key] == w.store.effects[key]
    decreases |steps|
  {
    if steps != [] {
      CommittedIsFinal(ceilings, w, steps[0], key);
      CommittedStaysCommitted(ceilings, Next(ceilings, w, steps[0]), steps[1..], key);
    }
  }

  /** Only a claim makes a record. */
  lemma NoRecordAppears(ceilings: Ceilings, w: World, step: Step, key: string)
    requires !step.TakeKey? && key !in w.store.effects
    ensures key !in Next(ceilings, w, step).store.effects
  {
    match step
    case BeginRun(id) =>
      if At(w, id, Holding) {
        TransitionOnEffects(w.store, w.callers[id].key, id, Executing, RESERVED_ONLY, None, None, w.now);
      }
    case ReleaseRun(id) =>
      if At(w, id, Releasing) {
        TransitionOnEffects(w.store, w.callers[id].key, id, Failed, EXECUTING_ONLY, None, Some("max_attempts"), w.now);
      }
    case Finish(id, ending) => if At(w, id, Running) { NoRecordFinishes(w, id, ending, key); }
    case ResolveKey(at, state, resolver) => ResolveOnEffects(w.store, at, state, resolver, w.now);
    case _ =>
  }

  lemma NoRecordFinishes(w: World, id: string, ending: Ending, key: string)
    requires At(w, id, Running) && key !in w.store.effects
    ensures key !in Finishing(w, id, ending).store.effects
  {
    var c := w.callers[id];
    match ending
    case Returned(result) => TransitionOnEffects(w.store, c.key, id, Committed, EXECUTING_ONLY, Some(result), None,
                                                 w.now);
    case NotExecuted(error) => TransitionOnEffects(w.store, c.key, id, Failed, EXECUTING_ONLY, None, Some(error),
                                                   w.now);
    case Raised(error) => TransitionOnEffects(w.store, c.key, id, Ambiguous, UNFINISHED, None, Some(error), w.now);
  }

  ghost predicate Leaseless(w: World, key: string) {
    key in w.store.effects && w.store.effects[key].state.Ambiguous? ==> w.store.effects[key].leaseExpiresAt.None?
  }

  /** No run ever leaves an ambiguous record holding a lease that could be extended. */
  lemma {:induction false} AmbiguousRecordsHoldNoLease(ceilings: Ceilings, w: World, steps: seq<Step>, key: string)
    requires Leaseless(w, key)
    ensures Leaseless(After(ceilings, w, steps), key)
    decreases |steps|
  {
    if steps != [] {
      var step := steps[0];
      if step.TakeKey? {
        TakeOnEffects(w.store, step.approvalId, step.actionHash, step.key, step.action.actionId, step.lease,
                      step.charges, w.now);
      } else if key in w.store.effects {
        StepMayMove(ceilings, w, step, key);
      } else {
        NoRecordAppears(ceilings, w, step, key);
      }
      AmbiguousRecordsHoldNoLease(ceilings, Next(ceilings, w, step), steps[1..], key);
    }
  }

  /**
    An ambiguous record leaves `AMBIGUOUS` only by a resolution of that key, to one of its two
    answers; every other step leaves its state, holder and attempt, and gives it no lease.
   */
  lemma AmbiguityIsResolvedOnly(ceilings: Ceilings, w: World, step: Step, key: string)
    requires key in w.store.effects && w.store.effects[key].state.Ambiguous? && Leaseless(w, key)
    ensures var v := Next(ceilings, w, step);
      && key in v.store.effects
      && (v.store.effects[key].state != Ambiguous ==>
            step.ResolveKey? && step.key == key && v.store.effects[key].state == step.state
            && (step.state.Committed? || step.state.Failed?))
      && v.store.effects[key].leaseExpiresAt.None?
      && v.store.effects[key].actionId == w.store.effects[key].actionId
      && v.store.effects[key].attempt == w.store.effects[key].attempt
  {
    if step.TakeKey? { TakeLeaves(ceilings, w, step, key); } else { StepMayMove(ceilings, w, step, key); }
  }

  // --- continuations --------------------------------------------------------------------------

  function HeldNow(w: World, key: string): nat {
    if key in w.store.continuations && w.store.continuations[key].token != [] then 1 else 0
  }

  ghost predicate ResumptionsPaid(w: World, key: string) {
    && TokensDistinct(w.store)
    && Count(w.log, key, Resumptions) + HeldNow(w, key) <= Count(w.log, key, Suspensions)
  }

  lemma OtherStepsKeepPaid(w: World, v: World, key: string)
    requires ResumptionsPaid(w, key) && v.store.continuations == w.store.continuations && w.log <= v.log
    requires forall i | |w.log| <= i < |v.log| :: !v.log[i].SuspendedRun? && !v.log[i].ResumedRun?
    ensures ResumptionsPaid(v, key)
  {
    UncountedGrow(w.log, v.log, key);
  }

  lemma {:induction false} UncountedGrow(log: seq<Event>, more: seq<Event>, key: string)
    requires log <= more && forall i | |log| <= i < |more| :: !more[i].SuspendedRun? && !more[i].ResumedRun?
    ensures Count(more, key, Suspensions) == Count(log, key, Suspensions)
    ensures Count(more, key, Resumptions) == Count(log, key, Resumptions)
    decreases |more|
  {
    if |more| > |log| { UncountedGrow(log, more[..|more| - 1], key); } else { assert log == more; }
  }

  lemma SuspendingKeepsPaid(w: World, id: string, token: string, until: int, key: string)
    requires ResumptionsPaid(w, key) && At(w, id, Running)
    ensures ResumptionsPaid(Suspending(w, id, token, until), key)
  {
    var c := w.callers[id];
    CountNext(w.log, SuspendedRun(c.key, id, c.attempt), key, Suspensions);
    CountNext(w.log, SuspendedRun(c.key, id, c.attempt), key, Resumptions);
  }

  lemma ResumingKeepsPaid(w: World, token: string, key: string)
    requires ResumptionsPaid(w, key)
    ensures ResumptionsPaid(Resuming(w, token), key)
  {
    var outcome := TakeContinuation(w.store, token, w.now).1;
    RefusedContinuation(w.store, token, w.now);
    if outcome.Ok? {
      var at := TakenContinuation(w.store, token, w.now);
      var id := outcome.value.action.actionId;
      if id in w.callers {
        var e := ResumedRun(at, id, outcome.value.record.attempt);
        CountNext(w.log, e, key, Suspensions);
        CountNext(w.log, e, key, Resumptions);
      }
    }
  }

  lemma StepKeepsPaid(ceilings: Ceilings, w: World, step: Step, key: string)
    requires ResumptionsPaid(w, key)
    ensures ResumptionsPaid(Next(ceilings, w, step), key)
  {
    var v := Next(ceilings, w, step);
    match step
    case Suspend(id, token, until) => if At(w, id, Running) { SuspendingKeepsPaid(w, id, token, until, key); }
    case Resume(token) => ResumingKeepsPaid(w, token, key);
    case TakeKey(action, at, approvalId, hash, lease, charges) =>
      TakeOnEffects(w.store, approvalId, hash, at, action.actionId, lease, charges, w.now);
      OtherStepsKeepPaid(w, v, key);
    case _ => StepShape(ceilings, w, step); OtherStepsKeepPaid(w, v, key);
  }

  lemma {:induction false} RunKeepsPaid(ceilings: Ceilings, w: World, steps: seq<Step>, key: string)
    requires ResumptionsPaid(w, key)
    ensures ResumptionsPaid(After(ceilings, w, steps), key)
    decreases |steps|
  {
    if steps != [] {
      StepKeepsPaid(ceilings, w, steps[0], key);
      RunKeepsPaid(ceilings, Next(ceilings, w, steps[0]), steps[1..], key);
    }
  }

  /** Each suspension admits at most one resumption, whoever presents its token and how often. */
  lemma OneResumptionASuspension(ceilings: Ceilings, steps: seq<Step>, key: string)
    ensures var log := After(ceilings, EMPTY, steps).log; Count(log, key, Resumptions) <= Count(log, key, Suspensions)
  {
    RunKeepsPaid(ceilings, EMPTY, steps, key);
  }

  // --- a continuation outlives its attempt ----------------------------------------------------------

  /**
    `take_continuation` reads the record's state and lease and not its holder. A resumed leg is
    admitted whoever holds the record, and its outcome is accepted exactly when that is itself.
   */
  lemma ResumedOutcomeIsAcceptedExactlyWhen(s: Store, key: string, result: string, now: int)
    requires key in s.continuations
    ensures var (t, outcome) := TakeHeld(s, key, now);
      && (outcome.Ok? <==> key in s.effects && s.effects[key].state.Executing? && LeaseIsLive(s.effects[key], now))
      && (outcome.Ok? ==>
            (Commit(t, key, s.continuations[key].action.actionId, result, now).1.Ok? <==>
             s.effects[key].actionId == s.continuations[key].action.actionId))
  {}

  function SampleAction(id: string): Action {
    Action("refund", [], Principal("agent", None, None), None, "prod", id)
  }

  /** First suspended, its lease let lapse, resolved as failed, and the key taken and begun by second. */
  function Overtaken(): seq<Step> {
    [TakeKey(SampleAction("first"), "key", None, "", 10, []), BeginRun("first"), Suspend("first", "token", 20),
     Tick(30),
     TakeKey(SampleAction("second"), "key", None, "", 10, []), ResolveKey("key", Failed, "operator"),
     TakeKey(SampleAction("second"), "key", None, "", 10, []), BeginRun("second")]
  }

  ghost predicate Lapsing(w: World) {
    && "key" in w.store.effects && w.store.effects["key"].state.Executing?
      && w.store.effects["key"].leaseExpiresAt == Some(20)
    && w.store.effects["key"].attempt == 1 && w.now == 30
    && w.store.continuations == map["key" := Held("token", SampleAction("first"), 1)]
    && w.callers == map["first" := Caller(SampleAction("first"), "key", 1, 1, Waiting)]
  }

  ghost predicate FirstRuns(w: World) {
    && "key" in w.store.effects && w.store.effects["key"].state.Executing?
      && w.store.effects["key"].leaseExpiresAt == Some(10)
    && w.store.effects["key"].attempt == 1 && w.store.effects["key"].actionId == "first" && w.now == 0
    && w.store.continuations == map[]
    && w.callers == map["first" := Caller(SampleAction("first"), "key", 1, 1, Running)]
  }

  lemma FirstStarts(ceilings: Ceilings) returns (w1: World, w2: World)
    requires "key" !in ceilings
    ensures w1 == Next(ceilings, EMPTY, Overtaken()[0]) && w2 == Next(ceilings, w1, Overtaken()[1])
    ensures FirstRuns(w2)
  {
    w1 := Next(ceilings, EMPTY, Overtaken()[0]);
    TakeOnEffects(EMPTY.store, None, "", "key", "first", 10, [], 0);
    assert w1.callers == map["first" := Caller(SampleAction("first"), "key", 1, 1, Holding)];
    w2 := Next(ceilings, w1, Overtaken()[1]);
  }

  lemma FirstSuspendsAndLapses(ceilings: Ceilings, w2: World) returns (w3: World, w4: World)
    requires FirstRuns(w2)
    ensures w3 == Next(ceilings, w2, Overtaken()[2]) && w4 == Next(ceilings, w3, Overtaken()[3])
    ensures Lapsing(w4)
  {
    w3 := Next(ceilings, w2, Overtaken()[2]);
    w4 := Next(ceilings, w3, Overtaken()[3]);
  }

  ghost predicate SecondRuns(w: World) {
    && "key" in w.store.effects && w.store.effects["key"].state.Executing?
      && w.store.effects["key"].actionId == "second"
    && LeaseIsLive(w.store.effects["key"], w.now)
    && w.store.continuations == map["key" := Held("token", SampleAction("first"), 1)]
    && "first" in w.callers && w.callers["first"].key == "key"
    && At(w, "second", Running) && w.callers["second"].key == "key"
  }

  ghost predicate FirstFailed(w: World) {
    && "key" in w.store.effects && w.store.effects["key"].state.Failed? && w.store.effects["key"].attempt == 1
      && w.now == 30
    && w.store.continuations == map["key" := Held("token", SampleAction("first"), 1)]
    && w.callers == map["first" := Caller(SampleAction("first"), "key", 1, 1, Waiting)]
  }

  lemma OperatorSettles(ceilings: Ceilings, w4: World) returns (w5: World, w6: World)
    requires Lapsing(w4)
    ensures w5 == Next(ceilings, w4, Overtaken()[4]) && w6 == Next(ceilings, w5, Overtaken()[5])
    ensures FirstFailed(w6)
  {
    w5 := Next(ceilings, w4, Overtaken()[4]);
    TakeOnEffects(w4.store, None, "", "key", "second", 10, [], 30);
    assert w5.store.effects["key"].state.Ambiguous? && w5.callers == w4.callers
       && w5.store.continuations == w4.store.continuations;
    w6 := Next(ceilings, w5, Overtaken()[5]);
    ResolveOnEffects(w5.store, "key", Failed, "operator", w5.now);
  }

  lemma SecondOvertakes(ceilings: Ceilings, w6: World) returns (w7: World, w8: World)
    requires "key" !in ceilings && FirstFailed(w6)
    ensures w7 == Next(ceilings, w6, Overtaken()[6]) && w8 == Next(ceilings, w7, Overtaken()[7])
    ensures SecondRuns(w8)
  {
    w7 := Next(ceilings, w6, Overtaken()[6]);
    TakeOnEffects(w6.store, None, "", "key", "second", 10, [], w6.now);
    assert w7.store.effects["key"].state.Reserved?
       && w7.callers["second"] == Caller(SampleAction("second"), "key", 2, 2, Holding);
    w8 := Next(ceilings, w7, Overtaken()[7]);
  }

  lemma FirstResumesToo(ceilings: Ceilings, w: World)
    requires SecondRuns(w)
    ensures var v := Next(ceilings, w, Resume("token"));
      && At(v, "first", Running) && At(v, "second", Running)
      && v.callers["first"].key == v.callers["second"].key == "key"
      && v.store.effects == w.store.effects
  {
    assert Holds(w.store, "key", "token");
    assert "first"[0] != "second"[0];
  }

  /** The run `Overtaken` then lets the first call resume beside the second: two executors on one key. */
  lemma StaleContinuationRunsBesideItsSuccessor(ceilings: Ceilings)
    requires "key" !in ceilings
    ensures var w := After(ceilings, EMPTY, Overtaken() + [Resume("token")]);
      && At(w, "first", Running) && At(w, "second", Running)
      && w.callers["first"].key == w.callers["second"].key == "key"
      && "key" in w.store.effects && w.store.effects["key"].actionId == "second"
  {
    var w1, w2 := FirstStarts(ceilings);
    var w3, w4 := FirstSuspendsAndLapses(ceilings, w2);
    var w5, w6 := OperatorSettles(ceilings, w4);
    var w7, w8 := SecondOvertakes(ceilings, w6);
    EightSteps(ceilings, Overtaken(), w1, w2, w3, w4, w5, w6, w7, w8);
    AfterConcat(ceilings, EMPTY, Overtaken(), [Resume("token")]);
    assert [Resume("token")][1..] == [];
    FirstResumesToo(ceilings, w8);
  }

  lemma EightSteps(ceilings: Ceilings, steps: seq<Step>, w1: World, w2: World, w3: World, w4: World, w5: World,
                   w6: World, w7: World, w8: World)
    requires |steps| == 8
    requires w1 == Next(ceilings, EMPTY, steps[0]) && w2 == Next(ceilings, w1, steps[1])
         && w3 == Next(ceilings, w2, steps[2])
    requires w4 == Next(ceilings, w3, steps[3]) && w5 == Next(ceilings, w4, steps[4])
         && w6 == Next(ceilings, w5, steps[5])
    requires w7 == Next(ceilings, w6, steps[6]) && w8 == Next(ceilings, w7, steps[7])
    ensures After(ceilings, EMPTY, steps) == w8
  {
    assert After(ceilings, EMPTY, steps) == After(ceilings, w1, steps[1..]);
    assert After(ceilings, w1, steps[1..]) == After(ceilings, w2, steps[2..]) by {
      assert steps[1..][1..] == steps[2..];
    }
    assert After(ceilings, w2, steps[2..]) == After(ceilings, w3, steps[3..]) by {
      assert steps[2..][1..] == steps[3..];
    }
    assert After(ceilings, w3, steps[3..]) == After(ceilings, w4, steps[4..]) by {
      assert steps[3..][1..] == steps[4..];
    }
    assert After(ceilings, w4, steps[4..]) == After(ceilings, w5, steps[5..]) by {
      assert steps[4..][1..] == steps[5..];
    }
    assert After(ceilings, w5, steps[5..]) == After(ceilings, w6, steps[6..]) by {
      assert steps[5..][1..] == steps[6..];
    }
    assert After(ceilings, w6, steps[6..]) == After(ceilings, w7, steps[7..]) by {
      assert steps[6..][1..] == steps[7..];
    }
    assert After(ceilings, w7, steps[7..]) == After(ceilings, w8, steps[8..]) by {
      assert steps[7..][1..] == steps[8..];
    }
  }
}
