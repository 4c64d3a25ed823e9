/**
  The imperative path of `execute` and `resume` is a run of the protocol: the store it leaves, the
  start it records and the terminal receipt it writes are those of a sequence of the protocol's own
  steps. Every law over all runs therefore holds of every such call, whatever ran before it.
 */
module PathRuns {
  import opened Options
  import opened Actions
  import opened Effects
  import opened Stores
  import opened Controls
  import P = Protocol
  import ResumptionLaws

  // --- the evidence both sides write ---------------------------------------------------------------

  predicate IsEvidence(e: P.Event) {
    e.Started? || e.Receipt?
  }

  /** The starts and the terminal receipts of a history, in order. */
  function Evidence(log: seq<P.Event>): seq<P.Event> {
    if log == [] then [] else
    Evidence(log[..|log| - 1]) + if IsEvidence(log[|log| - 1]) then [log[|log| - 1]] else []
  }

  lemma EvidenceNext(log: seq<P.Event>, e: P.Event)
    ensures Evidence(log + [e]) == Evidence(log) + if IsEvidence(e) then [e] else []
  {
    assert (log + [e])[..|log|] == log;
  }

  function Ending(ran: Ran): P.Ending
    requires !ran.Suspended?
  {
    match ran
    case Returned(result) => P.Returned(result)
    case NotExecuted(error) => P.NotExecuted(error)
    case Raised(error, _) => P.Raised(error)
  }

  function ReceiptOf(result: Result): P.Result {
    match result
    case CommittedReceipt => P.CommittedReceipt
    case FailedReceipt => P.FailedReceipt
    case _ => P.AmbiguousReceipt
  }

  /** The ceiling the protocol reads for a key. */
  function CeilingOf(ceilings: P.Ceilings, key: string): Option<nat> {
    if key in ceilings then Some(ceilings[key]) else None
  }

  /** The start of a call that ran, and its one terminal receipt unless the executor suspended. */
  function EvidenceOf(call: Call, r: Executed, ran: Ran): seq<P.Event>
    requires call.effectKey.Some? && (r.Ran? && !ran.Suspended? ==> r.ended.Recorded?)
  {
    var key, id := call.effectKey.value, call.action.actionId;
    if !r.Ran? then [] else
    [P.Started(key, id, r.attempt)] + if ran.Suspended? then []
      else [P.Receipt(key, id, r.attempt, ReceiptOf(r.ended.result))]
  }

  // --- securing ------------------------------------------------------------------------------------

  function Claiming(call: Call): P.Step
    requires call.effectKey.Some?
  {
    P.TakeKey(call.action, call.effectKey.value, call.approvalId, call.actionHash, call.lease, call.charges)
  }

  /** A call as the protocol holds it once its claim was won. */
  function Holder(call: Call, claim: Claim): P.Caller
    requires call.effectKey.Some?
  {
    P.Caller(call.action, call.effectKey.value, AttemptOf(claim), AttemptOf(claim), P.Holding)
  }

  /** A refused re-check touches nothing; any other pass is one claim. */
  function PassSteps(s: Store, configured: bool, call: Call, now: int): seq<P.Step>
    requires call.effectKey.Some?
  {
    if RecheckRefused(s, configured, call, now).Some? then [] else [Claiming(call)]
  }

  function ReconcileSteps(key: string, resolver: string, answer: HookAnswer): seq<P.Step> {
    if answer.SaysUnknown? then []
      else [P.ResolveKey(key, if answer.SaysCommitted? then Committed else Failed, resolver)]
  }

  function SecuringSteps(s: Store, configured: bool, call: Call, hook: Hook, used: bool, now: int): seq<P.Step>
    requires call.effectKey.Some?
  {
    PassSteps(s, configured, call, now) +
    if !AsksWhileSecuring(s, configured, call, hook, used, now) then [] else
    var key := call.effectKey.value;
    var (moved, again) := Reconciling(OnePass(s, configured, call, now).0, key, ResolverOf(call.action),
                                      hook.answer(key), now);
    ReconcileSteps(key, ResolverOf(call.action), hook.answer(key)) + if again
      then PassSteps(moved, configured, call, now) else []
  }

  lemma OneStep(ceilings: P.Ceilings, w: P.World, step: P.Step)
    ensures P.After(ceilings, w, [step]) == P.Next(ceilings, w, step)
  {
    assert [step][1..] == [];
  }

  /** What securing leaves: the store, the instant, no evidence yet, and the call filed where its claim was won. */
  ghost predicate Secures(w: P.World, v: P.World, call: Call, store: Store, secured: Secured)
    requires call.effectKey.Some?
  {
    && v.store == store && v.now == w.now && Evidence(v.log) == Evidence(w.log)
    && v.callers == if secured.Secured? then w.callers[call.action.actionId := Holder(call, secured.claim)]
      else w.callers
  }

  lemma ClaimIsTheStep(w: P.World, call: Call)
    requires call.effectKey.Some? && call.action.actionId !in w.callers
    ensures var (t, outcome) := Taking(w.store, call, w.now);
      Secures(w, P.TakingKey(w, Claiming(call)), call, t, SecuredBy(outcome))
  {
    var key, id := call.effectKey.value, call.action.actionId;
    TakeOnEffects(w.store, call.approvalId, call.actionHash, key, id, call.lease, call.charges, w.now);
    var outcome := Taking(w.store, call, w.now).1;
    if outcome.Ok? {
      EvidenceNext(w.log, P.ReservedKey(key, id, AttemptOf(outcome.value), call.charges, w.now));
    }
  }

  lemma PassRuns(ceilings: P.Ceilings, w: P.World, configured: bool, call: Call)
    requires call.effectKey.Some? && call.action.actionId !in w.callers
    ensures var (s, r) := OnePass(w.store, configured, call, w.now);
      Secures(w, P.After(ceilings, w, PassSteps(w.store, configured, call, w.now)), call, s, r)
  {
    if RecheckRefused(w.store, configured, call, w.now).None? {
      OneStep(ceilings, w, Claiming(call));
      ClaimIsTheStep(w, call);
    }
  }

  lemma ReconcileRuns(ceilings: P.Ceilings, w: P.World, key: string, resolver: string, answer: HookAnswer)
    ensures var v := P.After(ceilings, w, ReconcileSteps(key, resolver, answer));
      && v.store == Reconciling(w.store, key, resolver, answer, w.now).0 && v.now == w.now
      && v.callers == w.callers && Evidence(v.log) == Evidence(w.log)
  {
    if !answer.SaysUnknown? {
      var state := if answer.SaysCommitted? then Committed else Failed;
      OneStep(ceilings, w, P.ResolveKey(key, state, resolver));
      ResolveOnEffects(w.store, key, state, resolver, w.now);
      var outcome := Resolve(w.store, key, state, resolver, w.now).1;
      if outcome.Ok? { EvidenceNext(w.log, P.WentFailed(key, outcome.value.actionId, outcome.value.attempt)); }
    }
  }

  /** `_secure` with its hook: one claim, or a claim, an answer, and the claim that answer earned. */
  lemma SecuringRuns(ceilings: P.Ceilings, w: P.World, configured: bool, call: Call, hook: Hook, used: bool)
    requires call.effectKey.Some? && call.action.actionId !in w.callers
    ensures var (s, r) := Securing(w.store, configured, call, hook, used, w.now);
      Secures(w, P.After(ceilings, w, SecuringSteps(w.store, configured, call, hook, used, w.now)), call, s, r)
  {
    var first := PassSteps(w.store, configured, call, w.now);
    PassRuns(ceilings, w, configured, call);
    if AsksWhileSecuring(w.store, configured, call, hook, used, w.now) {
      var v := P.After(ceilings, w, first);
      var key, resolver := call.effectKey.value, ResolverOf(call.action);
      var answer := hook.answer(key);
      ReconcileRuns(ceilings, v, key, resolver, answer);
      var u := P.After(ceilings, v, ReconcileSteps(key, resolver, answer));
      PassRuns(ceilings, u, configured, call);
      P.AfterConcat(ceilings, v, ReconcileSteps(key, resolver, answer), PassSteps(u.store, configured, call, w.now));
      P.AfterConcat(ceilings, w, first, ReconcileSteps(key, resolver, answer));
      P.AfterConcat(ceilings, w, first, ReconcileSteps(key, resolver, answer) + PassSteps(u.store, configured, call,
                                                                                          w.now));
      AskedSteps(w.store, configured, call, hook, used, w.now);
    } else {
      assert SecuringSteps(w.store, configured, call, hook, used, w.now) == first;
    }
  }

  lemma AskedSteps(s: Store, configured: bool, call: Call, hook: Hook, used: bool, now: int)
    requires call.effectKey.Some? && AsksWhileSecuring(s, configured, call, hook, used, now)
    ensures var key := call.effectKey.value;
      var (moved, again) := Reconciling(OnePass(s, configured, call, now).0, key, ResolverOf(call.action),
                                        hook.answer(key), now);
      var asked := ReconcileSteps(key, ResolverOf(call.action), hook.answer(key));
      && !OnePass(s, configured, call, now).1.Secured?
      && Securing(s, configured, call, hook, used, now)
         == (if again then OnePass(moved, configured, call, now) else (moved, OnePass(s, configured, call, now).1))
      && SecuringSteps(s, configured, call, hook, used, now)
         == PassSteps(s, configured, call, now) + if again then asked + PassSteps(moved, configured, call, now)
           else asked
  {
    var asked := ReconcileSteps(call.effectKey.value, ResolverOf(call.action), hook.answer(call.effectKey.value));
    assert asked + [] == asked;
  }

  // --- the outcome mapping --------------------------------------------------------------------------

  /**
    What an executor's answer does: the finishing write and an eager hook's answer, or the holding
    of its suspension.
   */
  function EndingSteps(s: Store, action: Action, key: string, ran: Ran, hook: Hook, used: bool, mayHold: bool,
                       until: int, now: int): seq<P.Step>
  {
    var id := action.actionId;
    if ran.Suspended? then [if mayHold then P.Suspend(id, ran.token, until) else P.Abandon(id)] else
    var asked := AsksEagerly(s, Some(key), id, ran, hook, used, now);
    [P.Finish(id, Ending(ran))] + if asked then ReconcileSteps(key, ResolverOf(action), hook.answer(key)) else []
  }

  /** `_outcome` is the protocol's finishing step: the same write, and the same terminal receipt last. */
  lemma FinishingWrites(w: P.World, id: string, ran: Ran) returns (failure: seq<P.Event>)
    requires !ran.Suspended? && P.At(w, id, P.Running)
    ensures failure == [] || (|failure| == 1 && failure[0].WentFailed?)
    ensures var c := w.callers[id];
      var (store, result) := OutcomeOf(w.store, Some(c.key), id, ran, w.now);
      var v := P.Finishing(w, id, Ending(ran));
      && v.store == store && v.now == w.now
      && v.log == w.log + failure + [P.Receipt(c.key, id, c.reports, ReceiptOf(result))]
  {
    var c := w.callers[id];
    failure := if OutcomeOf(w.store, Some(c.key), id, ran, w.now).1.FailedReceipt?
      then [P.WentFailed(c.key, id, c.attempt)] else [];
    assert w.log + [] == w.log;
  }

  lemma OutcomeIsTheStep(w: P.World, id: string, ran: Ran)
    requires !ran.Suspended? && P.At(w, id, P.Running)
    ensures var c := w.callers[id];
      var (store, result) := OutcomeOf(w.store, Some(c.key), id, ran, w.now);
      var v := P.Finishing(w, id, Ending(ran));
      && v.store == store && v.now == w.now
      && Evidence(v.log) == Evidence(w.log) + [P.Receipt(c.key, id, c.reports, ReceiptOf(result))]
  {
    var c := w.callers[id];
    var failure := FinishingWrites(w, id, ran);
    var result := OutcomeOf(w.store, Some(c.key), id, ran, w.now).1;
    assert w.log + [] == w.log;
    if failure != [] { EvidenceNext(w.log, failure[0]); }
    EvidenceNext(w.log + failure, P.Receipt(c.key, id, c.reports, ReceiptOf(result)));
  }

  lemma SuspensionIsTheStep(ceilings: P.Ceilings, w: P.World, id: string, token: string, mayHold: bool, until: int)
    requires P.At(w, id, P.Running) && w.callers[id].action.actionId == id
    ensures var c := w.callers[id];
      var v := P.Next(ceilings, w, if mayHold then P.Suspend(id, token, until) else P.Abandon(id));
      && v.store == AfterSuspend(w.store, c.action, Some(c.key), token, mayHold, until, w.now).0
      && Evidence(v.log) == Evidence(w.log)
  {
    EvidenceNext(w.log, P.SuspendedRun(w.callers[id].key, id, w.callers[id].attempt));
  }

  /** This call is running this action on this key. */
  ghost predicate Runs(w: P.World, action: Action, key: string, reports: nat) {
    var id := action.actionId;
    P.At(w, id, P.Running) && w.callers[id].action == action && w.callers[id].key == key
      && w.callers[id].reports == reports
  }

  /** What an ending leaves: the store it maps to, and one terminal receipt unless the executor suspended. */
  ghost predicate Ends(w: P.World, v: P.World, action: Action, key: string, reports: nat, ran: Ran, s: Store,
                       ended: Ended)
  {
    && v.store == s && (!ran.Suspended? ==> ended.Recorded?)
    && Evidence(v.log) == Evidence(w.log)
         + if ran.Suspended? then [] else [P.Receipt(key, action.actionId, reports, ReceiptOf(ended.result))]
  }

  lemma SuspensionEnds(ceilings: P.Ceilings, w: P.World, action: Action, key: string, reports: nat, ran: Ran,
                       mayHold: bool, until: int)
    requires Runs(w, action, key, reports) && ran.Suspended?
    ensures var (s, ended) := AfterSuspend(w.store, action, Some(key), ran.token, mayHold, until, w.now);
      var step := if mayHold then P.Suspend(action.actionId, ran.token, until) else P.Abandon(action.actionId);
      Ends(w, P.After(ceilings, w, [step]), action, key, reports, ran, s, ended)
  {
    var step := if mayHold then P.Suspend(action.actionId, ran.token, until) else P.Abandon(action.actionId);
    OneStep(ceilings, w, step);
    SuspensionIsTheStep(ceilings, w, action.actionId, ran.token, mayHold, until);
  }

  lemma AnswerEnds(ceilings: P.Ceilings, w: P.World, action: Action, key: string, reports: nat, ran: Ran, hook: Hook,
                   used: bool)
    requires Runs(w, action, key, reports) && !ran.Suspended?
    ensures var s := AfterOutcome(w.store, Some(key), action, ran, hook, used, w.now);
      var ended := Recorded(OutcomeOf(w.store, Some(key), action.actionId, ran, w.now).1);
      Ends(w, P.After(ceilings, w, EndingSteps(w.store, action, key, ran, hook, used, false, 0, w.now)), action, key,
           reports, ran, s, ended)
  {
    var id := action.actionId;
    OneStep(ceilings, w, P.Finish(id, Ending(ran)));
    OutcomeIsTheStep(w, id, ran);
    if AsksEagerly(w.store, Some(key), id, ran, hook, used, w.now) {
      var asked := ReconcileSteps(key, ResolverOf(action), hook.answer(key));
      P.AfterConcat(ceilings, w, [P.Finish(id, Ending(ran))], asked);
      ReconcileRuns(ceilings, P.Finishing(w, id, Ending(ran)), key, ResolverOf(action), hook.answer(key));
    }
  }

  /** From a running call: the whole of the outcome mapping, an eager hook included. */
  lemma EndingRuns(ceilings: P.Ceilings, w: P.World, action: Action, key: string, reports: nat, ran: Ran, hook: Hook,
                   used: bool, mayHold: bool, until: int)
    requires Runs(w, action, key, reports)
    ensures var (s, ended) := Mapped(w.store, action, Some(key), ran, hook, used, mayHold, until, w.now);
      var steps := EndingSteps(w.store, action, key, ran, hook, used, mayHold, until, w.now);
      Ends(w, P.After(ceilings, w, steps), action, key, reports, ran, s, ended)
  {
    if ran.Suspended? { SuspensionEnds(ceilings, w, action, key, reports, ran, mayHold, until); }
    else { AnswerEnds(ceilings, w, action, key, reports, ran, hook, used); }
  }

  // --- the rest of the path -------------------------------------------------------------------------

  lemma BeginIsTheStep(ceilings: P.Ceilings, w: P.World, id: string)
    requires P.At(w, id, P.Holding)
    ensures var c := w.callers[id];
      var (t, outcome) := Begin(w.store, c.key, id, w.now);
      var v := P.Next(ceilings, w, P.BeginRun(id));
      var past := P.OverCeiling(ceilings, c.key, c.attempt);
      var phase := if outcome.Err? then P.Over else if past then P.Releasing else P.Running;
      && v.store == t && v.now == w.now && (outcome.Err? ==> t == w.store)
      && v.callers == w.callers[id := c.(phase := phase)]
      && Evidence(v.log) == Evidence(w.log) + if outcome.Ok? && !past then [P.Started(c.key, id, c.attempt)] else []
  {
    TransitionOnEffects(w.store, w.callers[id].key, id, Executing, RESERVED_ONLY, None, None, w.now);
    EvidenceNext(w.log, P.Started(w.callers[id].key, id, w.callers[id].attempt));
  }

  /** The ceiling's release is the protocol's two steps, and the key ends `FAILED` unless it was taken. */
  lemma ReleaseIsTwoSteps(ceilings: P.Ceilings, w: P.World, id: string)
    requires P.At(w, id, P.Holding) && P.OverCeiling(ceilings, w.callers[id].key, w.callers[id].attempt)
    ensures var v := P.Next(ceilings, P.Next(ceilings, w, P.BeginRun(id)), P.ReleaseRun(id));
      && v.store == AfterRelease(w.store, w.callers[id].key, id, w.now)
      && Evidence(v.log) == Evidence(w.log)
  {
    BeginIsTheStep(ceilings, w, id);
    var v := P.Next(ceilings, w, P.BeginRun(id));
    EvidenceNext(v.log, P.WentFailed(w.callers[id].key, id, w.callers[id].attempt));
  }

  /** What a secured call does: begins, and is released, or ends as its executor answers. */
  function RunningSteps(s: Store, call: Call, claim: Claim, ceiling: Option<nat>, ran: Ran, hook: Hook, used: bool,
                        mayHold: bool, timeout: int, began: int, over: int): seq<P.Step>
    requires call.effectKey.Some?
  {
    var key, id := call.effectKey.value, call.action.actionId;
    var (begun, outcome) := Begin(s, key, id, began);
    [P.Tick(began), P.BeginRun(id)] +
    if OverTheCeiling(ceiling, AttemptOf(claim)) then [P.ReleaseRun(id)]
    else if outcome.Err? then []
    else [P.Tick(over)] + EndingSteps(begun, call.action, key, ran, hook, used, mayHold, over + timeout, over)
  }

  lemma TickAndBegin(ceilings: P.Ceilings, w: P.World, id: string, to: int, rest: seq<P.Step>)
    requires w.now <= to
    ensures P.After(ceilings, w, [P.Tick(to), P.BeginRun(id)] + rest)
         == P.After(ceilings, P.Next(ceilings, w.(now := to), P.BeginRun(id)), rest)
  {
    var steps := [P.Tick(to), P.BeginRun(id)] + rest;
    assert steps[1..] == [P.BeginRun(id)] + rest && steps[1..][1..] == rest;
    assert P.Next(ceilings, w, P.Tick(to)) == w.(now := to);
    assert P.After(ceilings, w, steps) == P.After(ceilings, w.(now := to), steps[1..]);
  }

  lemma TickFirst(ceilings: P.Ceilings, w: P.World, to: int, rest: seq<P.Step>)
    requires w.now <= to
    ensures P.After(ceilings, w, [P.Tick(to)] + rest) == P.After(ceilings, w.(now := to), rest)
  {
    P.AfterConcat(ceilings, w, [P.Tick(to)], rest);
    OneStep(ceilings, w, P.Tick(to));
  }

  /** What running a secured call leaves: the same store, and its evidence after what was there. */
  ghost predicate Leaves(w: P.World, v: P.World, call: Call, ran: Ran, s: Store, r: Executed)
    requires call.effectKey.Some?
  {
    && v.store == s && (r.Ran? && !ran.Suspended? ==> r.ended.Recorded?)
    && Evidence(v.log) == Evidence(w.log) + EvidenceOf(call, r, ran)
  }

  lemma EndedCallLeaves(w: P.World, begun: P.World, v: P.World, call: Call, attempt: nat, ran: Ran, s: Store,
                        ended: Ended)
    requires call.effectKey.Some? && Ends(begun, v, call.action, call.effectKey.value, attempt, ran, s, ended)
    requires Evidence(begun.log) == Evidence(w.log) + [P.Started(call.effectKey.value, call.action.actionId, attempt)]
    ensures Leaves(w, v, call, ran, s, Controls.Executed.Ran(attempt, ended))
  {
    var started := [P.Started(call.effectKey.value, call.action.actionId, attempt)];
    var told := EvidenceOf(call, Controls.Executed.Ran(attempt, ended), ran);
    assert told == started + told[1..];
    assert Evidence(begun.log) + told[1..] == Evidence(w.log) + told;
  }

  lemma BegunRuns(ceilings: P.Ceilings, w: P.World, v: P.World, call: Call, claim: Claim, ran: Ran, hook: Hook,
                  used: bool, mayHold: bool, timeout: int)
    requires call.effectKey.Some? && Runs(v, call.action, call.effectKey.value, AttemptOf(claim))
    requires Evidence(v.log)
        == Evidence(w.log) + [P.Started(call.effectKey.value, call.action.actionId, AttemptOf(claim))]
    ensures var (s, ended) := Mapped(v.store, call.action, call.effectKey, ran, hook, used, mayHold, v.now + timeout,
                                     v.now);
      Leaves(w, P.After(ceilings, v, EndingSteps(v.store, call.action, call.effectKey.value, ran, hook, used, mayHold,
                                                 v.now + timeout, v.now)),
           call, ran, s, Controls.Executed.Ran(AttemptOf(claim), ended))
  {
    var key, attempt := call.effectKey.value, AttemptOf(claim);
    EndingRuns(ceilings, v, call.action, key, attempt, ran, hook, used, mayHold, v.now + timeout);
    var (s, ended) := Mapped(v.store, call.action, Some(key), ran, hook, used, mayHold, v.now + timeout, v.now);
    var steps := EndingSteps(v.store, call.action, key, ran, hook, used, mayHold, v.now + timeout, v.now);
    EndedCallLeaves(w, v, P.After(ceilings, v, steps), call, attempt, ran, s, ended);
  }

  /** Running a secured call from this world is a run of the protocol. */
  ghost predicate RunningIsARun(ceilings: P.Ceilings, w: P.World, call: Call, claim: Claim, ran: Ran, hook: Hook,
                                used: bool, mayHold: bool, timeout: int, began: int, over: int)
    requires call.effectKey.Some?
  {
    var ceiling := CeilingOf(ceilings, call.effectKey.value);
    var (s, r) := RunningCall(w.store, call, claim, ceiling, ran, hook, used, mayHold, timeout, began, over);
    var steps := RunningSteps(w.store, call, claim, ceiling, ran, hook, used, mayHold, timeout, began, over);
    Leaves(w, P.After(ceilings, w, steps), call, ran, s, r)
  }

  lemma PastCeilingRuns(ceilings: P.Ceilings, w: P.World, call: Call, claim: Claim, ran: Ran, hook: Hook, used: bool,
                        mayHold: bool, timeout: int, began: int, over: int)
    requires call.effectKey.Some? && call.action.actionId in w.callers
    requires w.callers[call.action.actionId] == Holder(call, claim) && w.now <= began <= over
    requires OverTheCeiling(CeilingOf(ceilings, call.effectKey.value), AttemptOf(claim))
    ensures RunningIsARun(ceilings, w, call, claim, ran, hook, used, mayHold, timeout, began, over)
  {
    var id, at := call.action.actionId, w.(now := began);
    TickAndBegin(ceilings, w, id, began, [P.ReleaseRun(id)]);
    OneStep(ceilings, P.Next(ceilings, at, P.BeginRun(id)), P.ReleaseRun(id));
    ReleaseIsTwoSteps(ceilings, at, id);
  }

  lemma LostRuns(ceilings: P.Ceilings, w: P.World, call: Call, claim: Claim, ran: Ran, hook: Hook, used: bool,
                 mayHold: bool, timeout: int, began: int, over: int)
    requires call.effectKey.Some? && call.action.actionId in w.callers
    requires w.callers[call.action.actionId] == Holder(call, claim) && w.now <= began <= over
    requires !OverTheCeiling(CeilingOf(ceilings, call.effectKey.value), AttemptOf(claim))
    requires Begin(w.store, call.effectKey.value, call.action.actionId, began).1.Err?
    ensures RunningIsARun(ceilings, w, call, claim, ran, hook, used, mayHold, timeout, began, over)
  {
    var id, at := call.action.actionId, w.(now := began);
    var v := P.Next(ceilings, at, P.BeginRun(id));
    BeginIsTheStep(ceilings, at, id);
    TickAndBegin(ceilings, w, id, began, []);
    assert [P.Tick(began), P.BeginRun(id)] + [] == [P.Tick(began), P.BeginRun(id)];
    assert P.After(ceilings, v, []) == v;
  }

  lemma StartedSteps(ceilings: P.Ceilings, w: P.World, call: Call, claim: Claim, began: int, over: int,
                     ending: seq<P.Step>)
    returns (v: P.World)
    requires call.effectKey.Some? && call.action.actionId in w.callers
    requires w.callers[call.action.actionId] == Holder(call, claim) && w.now <= began <= over
    requires !OverTheCeiling(CeilingOf(ceilings, call.effectKey.value), AttemptOf(claim))
    requires Begin(w.store, call.effectKey.value, call.action.actionId, began).1.Ok?
    ensures var id := call.action.actionId;
      && v.store == Begin(w.store, call.effectKey.value, id, began).0 && v.now == over
      && Runs(v, call.action, call.effectKey.value, AttemptOf(claim))
      && Evidence(v.log) == Evidence(w.log) + [P.Started(call.effectKey.value, id, AttemptOf(claim))]
      && P.After(ceilings, w, [P.Tick(began), P.BeginRun(id)] + ([P.Tick(over)] + ending))
          == P.After(ceilings, v, ending)
  {
    var id, at := call.action.actionId, w.(now := began);
    var begun := P.Next(ceilings, at, P.BeginRun(id));
    v := begun.(now := over);
    BeginIsTheStep(ceilings, at, id);
    TickAndBegin(ceilings, w, id, began, [P.Tick(over)] + ending);
    TickFirst(ceilings, begun, over, ending);
  }

  lemma StartedCall(s: Store, call: Call, claim: Claim, ceiling: Option<nat>, ran: Ran, hook: Hook, used: bool,
                    mayHold: bool, timeout: int, began: int, over: int)
    requires call.effectKey.Some? && !OverTheCeiling(ceiling, AttemptOf(claim))
    requires Begin(s, call.effectKey.value, call.action.actionId, began).1.Ok?
    ensures var key, id := call.effectKey.value, call.action.actionId;
      var begun := Begin(s, key, id, began).0;
      var (t, ended) := Mapped(begun, call.action, call.effectKey, ran, hook, used, mayHold, over + timeout, over);
      && RunningCall(s, call, claim, ceiling, ran, hook, used, mayHold, timeout, began, over)
         == (t, Controls.Executed.Ran(AttemptOf(claim), ended))
      && RunningSteps(s, call, claim, ceiling, ran, hook, used, mayHold, timeout, began, over)
         == [P.Tick(began), P.BeginRun(id)]
            + ([P.Tick(over)] + EndingSteps(begun, call.action, key, ran, hook, used, mayHold, over + timeout, over))
  {}

  lemma StartedRuns(ceilings: P.Ceilings, w: P.World, call: Call, claim: Claim, ran: Ran, hook: Hook, used: bool,
                    mayHold: bool, timeout: int, began: int, over: int)
    requires call.effectKey.Some? && call.action.actionId in w.callers
    requires w.callers[call.action.actionId] == Holder(call, claim) && w.now <= began <= over
    requires !OverTheCeiling(CeilingOf(ceilings, call.effectKey.value), AttemptOf(claim))
    requires Begin(w.store, call.effectKey.value, call.action.actionId, began).1.Ok?
    ensures RunningIsARun(ceilings, w, call, claim, ran, hook, used, mayHold, timeout, began, over)
  {
    var key, id := call.effectKey.value, call.action.actionId;
    var begun := Begin(w.store, key, id, began).0;
    var ending := EndingSteps(begun, call.action, key, ran, hook, used, mayHold, over + timeout, over);
    var v := StartedSteps(ceilings, w, call, claim, began, over, ending);
    BegunRuns(ceilings, w, v, call, claim, ran, hook, used, mayHold, timeout);
    StartedCall(w.store, call, claim, CeilingOf(ceilings, key), ran, hook, used, mayHold, timeout, began, over);
  }

  lemma RunningRuns(ceilings: P.Ceilings, w: P.World, call: Call, claim: Claim, ran: Ran, hook: Hook, used: bool,
                    mayHold: bool, timeout: int, began: int, over: int)
    requires call.effectKey.Some? && call.action.actionId in w.callers
    requires w.callers[call.action.actionId] == Holder(call, claim) && w.now <= began <= over
    ensures RunningIsARun(ceilings, w, call, claim, ran, hook, used, mayHold, timeout, began, over)
  {
    if OverTheCeiling(CeilingOf(ceilings, call.effectKey.value), AttemptOf(claim)) {
      PastCeilingRuns(ceilings, w, call, claim, ran, hook, used, mayHold, timeout, began, over);
    } else if Begin(w.store, call.effectKey.value, call.action.actionId, began).1.Err? {
      LostRuns(ceilings, w, call, claim, ran, hook, used, mayHold, timeout, began, over);
    } else {
      StartedRuns(ceilings, w, call, claim, ran, hook, used, mayHold, timeout, began, over);
    }
  }

  // --- the whole path -------------------------------------------------------------------------------

  function ExecuteSteps(s: Store, configured: bool, call: Call, ceiling: Option<nat>, ran: Ran, hook: Hook,
                        used: bool, mayHold: bool, timeout: int, now: int, began: int, over: int): seq<P.Step>
    requires call.effectKey.Some?
  {
    var (t, secured) := Securing(s, configured, call, hook, used, now);
    SecuringSteps(s, configured, call, hook, used, now) +
    if !secured.Secured? then [] else
    RunningSteps(t, call, secured.claim, ceiling, ran, hook, used
                 || AsksWhileSecuring(s, configured, call, hook, used, now),
                 mayHold, timeout, began, over)
  }

  /**
    One `execute` on a key is a run of the protocol, from any world and whatever its re-check, its
    hook, its clock readings, its ceiling and its executor do: the same store, and in the same order
    the same start and the same terminal receipt, or neither.
   */
  lemma ExecuteIsARun(ceilings: P.Ceilings, w: P.World, configured: bool, call: Call, ran: Ran, hook: Hook,
                      used: bool, mayHold: bool, timeout: int, began: int, over: int)
    requires call.effectKey.Some? && call.action.actionId !in w.callers && w.now <= began <= over
    ensures var ceiling := CeilingOf(ceilings, call.effectKey.value);
      var (s, r) := ExecutingCall(w.store, configured, call, ceiling, ran, hook, used, mayHold, timeout, w.now, began,
                                  over);
      var v := P.After(ceilings, w, ExecuteSteps(w.store, configured, call, ceiling, ran, hook, used, mayHold,
                                                 timeout, w.now, began, over));
      Leaves(w, v, call, ran, s, r)
  {
    var ceiling := CeilingOf(ceilings, call.effectKey.value);
    var securing := SecuringSteps(w.store, configured, call, hook, used, w.now);
    var (t, secured) := Securing(w.store, configured, call, hook, used, w.now);
    var v := P.After(ceilings, w, securing);
    SecuringRuns(ceilings, w, configured, call, hook, used);
    if secured.Secured? {
      var asked := used || AsksWhileSecuring(w.store, configured, call, hook, used, w.now);
      RunningRuns(ceilings, v, call, secured.claim, ran, hook, asked, mayHold, timeout, began, over);
      P.AfterConcat(ceilings, w, securing,
                    RunningSteps(t, call, secured.claim, ceiling, ran, hook, asked, mayHold, timeout, began, over));
    } else {
      assert securing + [] == securing;
    }
  }

  // --- resuming -------------------------------------------------------------------------------------

  /** The steps of one `resume`: the token is taken, and where it was the held action ends again. */
  ghost function ResumeSteps(s: Store, token: string, ran: Ran, mayHold: bool, timeout: int, now: int,
                             over: int): seq<P.Step>
  {
    var (t, resumed) := TakeContinuation(s, token, now);
    [P.Resume(token)] +
    if resumed.Err? then [] else
    [P.Tick(over)] + EndingSteps(t, resumed.value.action, resumed.value.effectKey, ran, NoHook, false, mayHold,
                                 over + timeout, over)
  }

  lemma TakenRuns(ceilings: P.Ceilings, w: P.World, token: string, over: int, ending: seq<P.Step>) returns (v: P.World)
    requires ResumptionLaws.HeldByCallers(w) && TakeContinuation(w.store, token, w.now).1.Ok? && w.now <= over
    ensures var (t, resumed) := TakeContinuation(w.store, token, w.now);
      var held := resumed.value;
      && v.store == t && v.now == over && Evidence(v.log) == Evidence(w.log)
      && Runs(v, held.action, held.effectKey, held.record.attempt)
      && P.After(ceilings, w, [P.Resume(token)] + ([P.Tick(over)] + ending)) == P.After(ceilings, v, ending)
  {
    var key := TakenContinuation(w.store, token, w.now);
    var id := w.store.continuations[key].action.actionId;
    assert id in w.callers && w.callers[id].key == key;
    EvidenceNext(w.log, P.ResumedRun(key, id, w.store.effects[key].attempt));
    var resumed := P.Resuming(w, token);
    v := resumed.(now := over);
    OneStep(ceilings, w, P.Resume(token));
    P.AfterConcat(ceilings, w, [P.Resume(token)], [P.Tick(over)] + ending);
    TickFirst(ceilings, resumed, over, ending);
  }

  lemma EndsFrom(w: P.World, v: P.World, u: P.World, action: Action, key: string, reports: nat, ran: Ran, s: Store,
                 ended: Ended)
    requires Evidence(v.log) == Evidence(w.log) && Ends(v, u, action, key, reports, ran, s, ended)
    ensures Ends(w, u, action, key, reports, ran, s, ended)
  {}

  lemma TakenIsARun(ceilings: P.Ceilings, w: P.World, token: string, ran: Ran, mayHold: bool, timeout: int, over: int)
    requires ResumptionLaws.HeldByCallers(w) && w.now <= over && TakeContinuation(w.store, token, w.now).1.Ok?
    ensures var (t, resumed) := TakeContinuation(w.store, token, w.now);
      var held := resumed.value;
      var (s, ended) := Mapped(t, held.action, Some(held.effectKey), ran, NoHook, false, mayHold, over + timeout, over);
      Ends(w, P.After(ceilings, w, ResumeSteps(w.store, token, ran, mayHold, timeout, w.now, over)), held.action,
           held.effectKey,
           held.record.attempt, ran, s, ended)
  {
    var (t, resumed) := TakeContinuation(w.store, token, w.now);
    var held := resumed.value;
    var ending := EndingSteps(t, held.action, held.effectKey, ran, NoHook, false, mayHold, over + timeout, over);
    var v := TakenRuns(ceilings, w, token, over, ending);
    EndingRuns(ceilings, v, held.action, held.effectKey, held.record.attempt, ran, NoHook, false, mayHold,
               over + timeout);
    var (s, ended) := Mapped(t, held.action, Some(held.effectKey), ran, NoHook, false, mayHold, over + timeout, over);
    EndsFrom(w, v, P.After(ceilings, v, ending), held.action, held.effectKey, held.record.attempt, ran, s, ended);
    assert ResumeSteps(w.store, token, ran, mayHold, timeout, w.now, over)
        == [P.Resume(token)] + ([P.Tick(over)] + ending);
  }

  /**
    One `resume` is a run of the protocol too, from any world whose suspensions are held by calls on
    their keys, as every reachable world's are.
   */
  lemma ResumeIsARun(ceilings: P.Ceilings, w: P.World, token: string, ran: Ran, mayHold: bool, timeout: int, over: int)
    requires ResumptionLaws.HeldByCallers(w) && w.now <= over
    ensures var (t, resumed) := TakeContinuation(w.store, token, w.now);
      var v := P.After(ceilings, w, ResumeSteps(w.store, token, ran, mayHold, timeout, w.now, over));
      && (resumed.Err? ==> v.store == t && Evidence(v.log) == Evidence(w.log))
      && (resumed.Ok? ==>
           var held := resumed.value;
           var (s, ended) := Mapped(t, held.action, Some(held.effectKey), ran, NoHook, false, mayHold, over + timeout,
                                    over);
           Ends(w, v, held.action, held.effectKey, held.record.attempt, ran, s, ended))
  {
    if TakeContinuation(w.store, token, w.now).1.Err? {
      OneStep(ceilings, w, P.Resume(token));
      assert [P.Resume(token)] + [] == [P.Resume(token)];
    } else {
      TakenIsARun(ceilings, w, token, ran, mayHold, timeout, over);
    }
  }
}
