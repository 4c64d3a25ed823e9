/**
  When a held continuation is still its own attempt's to finish, over every reachable world. The
  store admits a resumption on any live executing record, so a suspension can outlive its attempt;
  these laws say exactly when it has.
 */
module ResumptionLaws {
  import opened Options
  import opened Actions
  import opened Effects
  import opened Stores
  import opened Protocol
  import ProtocolLaws

  // --- who holds a continuation ------------------------------------------------------------------

  /** Calls are filed under their own action, and what is held under a key is the action of a call on it. */
  ghost predicate HeldByCallers(w: World) {
    && (forall id | id in w.callers :: w.callers[id].action.actionId == id)
    && (forall key | key in w.store.continuations ::
         && w.store.continuations[key].action.actionId in w.callers
         && w.callers[w.store.continuations[key].action.actionId].key == key
         && w.callers[w.store.continuations[key].action.actionId].action == w.store.continuations[key].action)
  }

  lemma SameCallsKeepHolders(w: World, v: World)
    requires HeldByCallers(w) && SameCalls(w, v) && v.store.continuations == w.store.continuations
    ensures HeldByCallers(v)
  {
    forall key | key in v.store.continuations
      ensures v.store.continuations[key].action.actionId in v.callers
      ensures var c := v.callers[v.store.continuations[key].action.actionId];
        c.key == key && c.action == v.store.continuations[key].action
    {
      assert w.callers[w.store.continuations[key].action.actionId].key == key;
    }
  }

  lemma TakingKeepsHolders(w: World, step: Step)
    requires HeldByCallers(w) && step.TakeKey?
    ensures HeldByCallers(TakingKey(w, step))
  {
    TakeOnEffects(w.store, step.approvalId, step.actionHash, step.key, step.action.actionId, step.lease, step.charges,
                  w.now);
  }

  lemma SuspendingKeepsHolders(w: World, id: string, token: string, until: int)
    requires HeldByCallers(w) && At(w, id, Running)
    ensures HeldByCallers(Suspending(w, id, token, until))
  {
    assert w.callers[id].action.actionId == id;
  }

  lemma ResumingKeepsHolders(w: World, token: string)
    requires HeldByCallers(w)
    ensures HeldByCallers(Resuming(w, token))
  {
    RefusedContinuation(w.store, token, w.now);
    if TakeContinuation(w.store, token, w.now).1.Ok? {
      var key := TakenContinuation(w.store, token, w.now);
      assert w.store.continuations[key].action.actionId in w.callers;
    }
  }

  lemma StepKeepsHolders(ceilings: Ceilings, w: World, step: Step)
    requires HeldByCallers(w)
    ensures HeldByCallers(Next(ceilings, w, step))
  {
    match step
    case TakeKey(_, _, _, _, _, _) => TakingKeepsHolders(w, step);
    case Suspend(id, token, until) => if At(w, id, Running) { SuspendingKeepsHolders(w, id, token, until); }
    case Resume(token) => ResumingKeepsHolders(w, token);
    case _ =>
      StepShape(ceilings, w, step);
      SameCallsKeepHolders(w, Next(ceilings, w, step));
  }

  lemma {:induction false} RunKeepsHolders(ceilings: Ceilings, w: World, steps: seq<Step>)
    requires HeldByCallers(w)
    ensures HeldByCallers(After(ceilings, w, steps))
    decreases |steps|
  {
    if steps != [] {
      StepKeepsHolders(ceilings, w, steps[0]);
      RunKeepsHolders(ceilings, Next(ceilings, w, steps[0]), steps[1..]);
    }
  }

  // --- when it is still its attempt's to finish ---------------------------------------------------

  /** Another call has reserved the key since. */
  ghost predicate HasSuccessor(w: World, id: string)
    requires id in w.callers
  {
    exists other ::
      other in w.callers && w.callers[other].key == w.callers[id].key
        && w.callers[other].attempt > w.callers[id].attempt
  }

  ghost predicate Reachable(ceilings: Ceilings, w: World, key: string) {
    KeyInvariant(ceilings, w, key) && ProtocolLaws.CallsDiffer(w, key) && HeldByCallers(w)
  }

  /** A call that reserved a key holds its record exactly while nobody has reserved it since. */
  lemma HoldsTheRecordExactlyWhen(ceilings: Ceilings, w: World, key: string, id: string)
    requires Reachable(ceilings, w, key) && id in w.callers && w.callers[id].key == key
    ensures key in w.store.effects
    ensures w.store.effects[key].actionId == id <==> w.callers[id].attempt == Count(w.log, key, Reservations)
    ensures w.store.effects[key].actionId == id <==> !HasSuccessor(w, id)
    ensures w.store.effects[key].actionId != id ==>
      w.callers[id].attempt < w.store.effects[key].attempt && FailedAt(w.log, key, w.callers[id].attempt)
  {
    var holder := w.store.effects[key].actionId;
    assert HolderAgrees(w, key, w.store.effects[key]);
    if holder != id {
      assert w.callers[holder].attempt > w.callers[id].attempt;
    }
  }

  lemma RunsAreReachable(ceilings: Ceilings, steps: seq<Step>, key: string)
    ensures Reachable(ceilings, After(ceilings, EMPTY, steps), key)
  {
    EmptyKeeps(ceilings, key);
    ProtocolLaws.RunKeeps(ceilings, EMPTY, steps, key);
    ProtocolLaws.RunKeepsDifferent(ceilings, EMPTY, steps, key);
    RunKeepsHolders(ceilings, EMPTY, steps);
  }

  /**
    In every reachable world, where a presented token is admitted: the resumed call runs beside a
    successor exactly when it no longer holds the record. Then its own attempt had been declared
    failed; otherwise it is the last the store numbered.
   */
  lemma ResumesBesideASuccessorExactlyWhen(ceilings: Ceilings, steps: seq<Step>, token: string)
    requires TakeContinuation(After(ceilings, EMPTY, steps).store, token, After(ceilings, EMPTY, steps).now).1.Ok?
    ensures var w := After(ceilings, EMPTY, steps);
      var resumed := TakeContinuation(w.store, token, w.now).1.value;
      var id, key := resumed.action.actionId, resumed.effectKey;
      var v := Next(ceilings, w, Resume(token));
      && key in w.store.effects && resumed.record == w.store.effects[key]
      && id in v.callers && v.callers[id].key == key && At(v, id, Running)
        && v.callers[id].reports == resumed.record.attempt
      && (HasSuccessor(v, id) <==> resumed.record.actionId != id)
      && (HasSuccessor(v, id) ==>
            v.callers[id].attempt < resumed.record.attempt && FailedAt(v.log, key, v.callers[id].attempt))
      && (!HasSuccessor(v, id) ==> v.callers[id].attempt == resumed.record.attempt == Count(v.log, key, Reservations))
  {
    var w := After(ceilings, EMPTY, steps);
    var key := TakenContinuation(w.store, token, w.now);
    RunsAreReachable(ceilings, steps, key);
    ResumedBesideExactlyWhen(ceilings, w, token, key);
  }

  lemma ResumedBesideExactlyWhen(ceilings: Ceilings, w: World, token: string, key: string)
    requires Reachable(ceilings, w, key) && TakeContinuation(w.store, token, w.now).1.Ok?
    requires Holds(w.store, key, token) && TakeContinuation(w.store, token, w.now) == TakeHeld(w.store, key, w.now)
    ensures var v := Resuming(w, token);
      var id := w.store.continuations[key].action.actionId;
      && key in w.store.effects && id in v.callers && v.callers[id].key == key && At(v, id, Running)
      && v.callers[id].reports == w.store.effects[key].attempt
      && (HasSuccessor(v, id) <==> w.store.effects[key].actionId != id)
      && (HasSuccessor(v, id) ==>
            v.callers[id].attempt < w.store.effects[key].attempt && FailedAt(v.log, key, v.callers[id].attempt))
      && (!HasSuccessor(v, id) ==>
            v.callers[id].attempt == w.store.effects[key].attempt == Count(v.log, key, Reservations))
  {
    ResumptionIs(w, token, key);
    var id := w.store.continuations[key].action.actionId;
    HoldsTheRecordExactlyWhen(ceilings, w, key, id);
    SameSuccessors(w, Resuming(w, token), id);
    CountNext(w.log, ResumedRun(key, id, w.store.effects[key].attempt), key, Reservations);
    FailedAtGrows(w.log, ResumedRun(key, id, w.store.effects[key].attempt), key);
  }

  /** The step itself: the call the token names runs again, and nothing of the records changes. */
  lemma ResumptionIs(w: World, token: string, key: string)
    requires HeldByCallers(w) && TakeContinuation(w.store, token, w.now).1.Ok?
    requires Holds(w.store, key, token) && TakeContinuation(w.store, token, w.now) == TakeHeld(w.store, key, w.now)
    ensures var id := w.store.continuations[key].action.actionId;
      var v := Resuming(w, token);
      && id in w.callers && w.callers[id].key == key && key in w.store.effects
      && SameCalls(w, v) && At(v, id, Running) && v.callers[id].reports == w.store.effects[key].attempt
      && v.store.effects == w.store.effects && v.log == w.log + [ResumedRun(key, id, w.store.effects[key].attempt)]
  {
    assert w.store.continuations[key].action.actionId in w.callers;
  }

  lemma SameSuccessors(w: World, v: World, id: string)
    requires SameCalls(w, v) && id in w.callers
    ensures HasSuccessor(v, id) <==> HasSuccessor(w, id)
  {
    if other :|
        other in w.callers && w.callers[other].key == w.callers[id].key
        && w.callers[other].attempt > w.callers[id].attempt {
      assert v.callers[other].attempt > v.callers[id].attempt;
    }
    if other :|
        other in v.callers && v.callers[other].key == v.callers[id].key
        && v.callers[other].attempt > v.callers[id].attempt {
      assert w.callers[other].attempt > w.callers[id].attempt;
    }
  }

  /** And so for every reachable world: what the resumed call returns is committed exactly when nobody succeeded it. */
  lemma ResumedReturnIsCommittedExactlyWhen(ceilings: Ceilings, steps: seq<Step>, token: string, result: string)
    requires TakeContinuation(After(ceilings, EMPTY, steps).store, token, After(ceilings, EMPTY, steps).now).1.Ok?
    ensures var w := After(ceilings, EMPTY, steps);
      var resumed := TakeContinuation(w.store, token, w.now).1.value;
      var id, key := resumed.action.actionId, resumed.effectKey;
      var v := Next(ceilings, w, Resume(token));
      && At(v, id, Running)
      && var u := Finishing(v, id, Returned(result));
         key in u.store.effects && (u.store.effects[key].state.Committed? <==> !HasSuccessor(v, id))
  {
    var w := After(ceilings, EMPTY, steps);
    var key := TakenContinuation(w.store, token, w.now);
    var id := w.store.continuations[key].action.actionId;
    ResumesBesideASuccessorExactlyWhen(ceilings, steps, token);
    var v := Resuming(w, token);
    ProtocolLaws.ResumedOutcomeIsAcceptedExactlyWhen(w.store, key, result, w.now);
    CommitIsTheReturn(v, id, result);
  }

  lemma CommitIsTheReturn(v: World, id: string, result: string)
    requires At(v, id, Running)
    ensures var key := v.callers[id].key;
      var accepted := Commit(v.store, key, id, result, v.now).1.Ok?;
      var u := Finishing(v, id, Returned(result));
      if accepted then key in u.store.effects && u.store.effects[key].state.Committed?
        else u.store.effects == v.store.effects
  {
    TransitionOnEffects(v.store, v.callers[id].key, id, Committed, EXECUTING_ONLY, Some(result), None, v.now);
  }

  /**
    What a superseded call then reports is never its own: its outcome is refused while the successor
    holds the record, so the leg is evidenced as ambiguous, under the successor's number.
   */
  lemma SupersededOutcomeIsRefused(ceilings: Ceilings, w: World, key: string, id: string, ending: Ending)
    requires Reachable(ceilings, w, key) && At(w, id, Running) && w.callers[id].key == key && HasSuccessor(w, id)
    ensures var v := Next(ceilings, w, Finish(id, ending));
      && v.store.effects == w.store.effects && v.store.ledger == w.store.ledger
      && v.log == w.log + [Receipt(key, id, w.callers[id].reports, AmbiguousReceipt)]
  {
    HoldsTheRecordExactlyWhen(ceilings, w, key, id);
    match ending
    case Returned(result) => TransitionOnEffects(w.store, key, id, Committed, EXECUTING_ONLY, Some(result), None,
                                                 w.now);
    case NotExecuted(error) => TransitionOnEffects(w.store, key, id, Failed, EXECUTING_ONLY, None, Some(error), w.now);
    case Raised(error) => TransitionOnEffects(w.store, key, id, Ambiguous, UNFINISHED, None, Some(error), w.now);
  }
}
