/**
  The effect protocol of `src/ctrlrun/control.py` as a step system: any number of `execute` and
  `resume` calls over one store, interleaved at every store call, with operators resolving records,
  humans answering approvals and the clock moving. `World.log` is the ghost history the theorems
  are about.
 */
module Protocol {
  import opened Options
  import opened Actions
  import opened Approvals
  import opened Charges
  import opened Effects
  import opened Stores

  /** Where one call stands with the key it reserved. */
  datatype Phase =
    | Holding    // reserved, not begun
    | Releasing  // begun only to be failed: refused by the ceiling
    | Running    // the executor has been called
    | Waiting    // suspended, the reservation held across the round trip
    | Over

  /**
    `attempt` is the number the call reserved. `reports` is the number its evidence and its token
    bear: the same, until a resumption takes the number of the record it finds.
   */
  datatype Caller = Caller(action: Action, key: string, attempt: nat, reports: nat, phase: Phase)

  datatype Result = CommittedReceipt | FailedReceipt | AmbiguousReceipt

  datatype Event =
    | ReservedKey(key: string, actionId: string, attempt: nat, charges: seq<Charge>, at: int)
    | Started(key: string, actionId: string, attempt: nat)
    | Acted(key: string, actionId: string, attempt: nat)
    | WentFailed(key: string, actionId: string, attempt: nat)
    | Receipt(key: string, actionId: string, attempt: nat, result: Result)
    | SuspendedRun(key: string, actionId: string, attempt: nat)
    | ResumedRun(key: string, actionId: string, attempt: nat)

  datatype World = World(store: Store, now: int, callers: map<string, Caller>, log: seq<Event>)

  datatype Ending = Returned(result: string) | NotExecuted(error: string) | Raised(error: string)

  datatype Step =
    | Tick(to: int)
    | TakeKey(action: Action, key: string, approvalId: Option<string>, actionHash: string, lease: int,
              charges: seq<Charge>)
    | TakeApproval(presented: string, actionHash: string)
    | BeginRun(actionId: string)
    | ReleaseRun(actionId: string)
    | RemoteActs(actionId: string)
    | Finish(actionId: string, ending: Ending)
    | Suspend(actionId: string, token: string, until: int)
    | Abandon(actionId: string)
    | Resume(token: string)
    | Extend(key: string, actionId: string, until: int)
    | ResolveKey(key: string, state: EffectState, resolver: string)
    | Ask(request: ApprovalRequest)
    | Answer(id: string, approver: string, verified: Option<VerifiedApprover>, grant: bool)

  /** `max_attempts` for the keys that have one, the same for every caller. */
  type Ceilings = map<string, nat>

  predicate OverCeiling(ceilings: Ceilings, key: string, attempt: nat) {
    key in ceilings && attempt > ceilings[key]
  }

  // --- the steps ------------------------------------------------------------------------------

  function Phased(w: World, id: string, phase: Phase): World
    requires id in w.callers
  {
    w.(callers := w.callers[id := w.callers[id].(phase := phase)])
  }

  function Logged(w: World, e: Event): World {
    w.(log := w.log + [e])
  }

  predicate At(w: World, id: string, phase: Phase) {
    id in w.callers && w.callers[id].phase == phase
  }

  /** An action id is minted by each `execute`, so a call that already reserved does not reserve again. */
  function TakingKey(w: World, step: Step): World
    requires step.TakeKey?
  {
    var id := step.action.actionId;
    if id in w.callers then w else
    var (store, outcome) := Take(w.store, step.approvalId, step.actionHash, Some(step.key), id, step.lease,
                                 step.charges, w.now);
    if outcome.Err? then w.(store := store)
    else
      var attempt := outcome.value.reservation.value.attempt;
      Logged(w.(store := store, callers := w.callers[id := Caller(step.action, step.key, attempt, attempt, Holding)]),
             ReservedKey(step.key, id, attempt, step.charges, w.now))
  }

  /** The ceiling is read on the number the store assigned, before the executor and after the reservation. */
  function Beginning(ceilings: Ceilings, w: World, id: string): World
    requires At(w, id, Holding)
  {
    var c := w.callers[id];
    var (store, outcome) := Begin(w.store, c.key, id, w.now);
    if outcome.Err? then Phased(w.(store := store), id, Over)
    else if OverCeiling(ceilings, c.key, c.attempt) then Phased(w.(store := store), id, Releasing)
    else Logged(Phased(w.(store := store), id, Running), Started(c.key, id, c.attempt))
  }

  function ReleasingRun(w: World, id: string): World
    requires At(w, id, Releasing)
  {
    var c := w.callers[id];
    var (store, outcome) := Fail(w.store, c.key, id, "max_attempts", w.now);
    var over := Phased(w.(store := store), id, Over);
    if outcome.Err? then over else Logged(over, WentFailed(c.key, id, c.attempt))
  }

  /** `_outcome`: a refused outcome write falls back to an ambiguous receipt. */
  function Finishing(w: World, id: string, ending: Ending): World
    requires At(w, id, Running)
  {
    var c := w.callers[id];
    match ending
    case Returned(result) =>
      var (store, outcome) := Commit(w.store, c.key, id, result, w.now);
      Logged(Phased(w.(store := store), id, Over),
             Receipt(c.key, id, c.reports, if outcome.Ok? then CommittedReceipt else AmbiguousReceipt))
    case NotExecuted(error) =>
      var (store, outcome) := Fail(w.store, c.key, id, error, w.now);
      var over := Phased(w.(store := store), id, Over);
      if outcome.Ok?
        then Logged(Logged(over, WentFailed(c.key, id, c.attempt)), Receipt(c.key, id, c.reports, FailedReceipt))
      else Logged(over, Receipt(c.key, id, c.reports, AmbiguousReceipt))
    case Raised(error) =>
      var (store, _) := MarkAmbiguous(w.store, c.key, id, error, w.now);
      Logged(Phased(w.(store := store), id, Over), Receipt(c.key, id, c.reports, AmbiguousReceipt))
  }

  function Suspending(w: World, id: string, token: string, until: int): World
    requires At(w, id, Running)
  {
    var c := w.callers[id];
    var (store, outcome) := HoldContinuation(w.store, c.action, c.key, token, until, w.now);
    if outcome.Err? then Phased(w.(store := store), id, Over)
    else Logged(Phased(w.(store := store), id, Waiting), SuspendedRun(c.key, id, c.attempt))
  }

  /** The held action runs again, whoever presents its token, under the number of the record as it stands. */
  ghost function Resuming(w: World, token: string): World {
    var (store, outcome) := TakeContinuation(w.store, token, w.now);
    if outcome.Err? || outcome.value.action.actionId !in w.callers then w.(store := store)
    else
      var id := outcome.value.action.actionId;
      var c := w.callers[id].(reports := outcome.value.record.attempt, phase := Running);
      Logged(w.(store := store, callers := w.callers[id := c]), ResumedRun(outcome.value.effectKey, id, c.reports))
  }

  function Resolving(w: World, key: string, state: EffectState, resolver: string): World {
    var (store, outcome) := Resolve(w.store, key, state, resolver, w.now);
    if outcome.Ok? && state.Failed?
      then Logged(w.(store := store), WentFailed(key, outcome.value.actionId, outcome.value.attempt))
    else w.(store := store)
  }

  ghost function Next(ceilings: Ceilings, w: World, step: Step): World {
    match step
    case Tick(to) => w.(now := if to > w.now then to else w.now)
    case TakeKey(_, _, _, _, _, _) => TakingKey(w, step)
    case TakeApproval(id, hash) => w.(store := Take(w.store, Some(id), hash, None, "", 0, [], w.now).0)
    case BeginRun(id) => if At(w, id, Holding) then Beginning(ceilings, w, id) else w
    case ReleaseRun(id) => if At(w, id, Releasing) then ReleasingRun(w, id) else w
    case RemoteActs(id) =>
      if id in w.callers && Started(w.callers[id].key, id, w.callers[id].attempt) in w.log
      then Logged(w, Acted(w.callers[id].key, id, w.callers[id].attempt)) else w
    case Finish(id, ending) => if At(w, id, Running) then Finishing(w, id, ending) else w
    case Suspend(id, token, until) => if At(w, id, Running) then Suspending(w, id, token, until) else w
    case Abandon(id) => if id in w.callers then Phased(w, id, Over) else w
    case Resume(token) => Resuming(w, token)
    case Extend(key, id, until) => w.(store := ExtendLease(w.store, key, id, until, w.now).0)
    case ResolveKey(key, state, resolver) => Resolving(w, key, state, resolver)
    case Ask(request) => w.(store := PutRequest(w.store, request).0)
    case Answer(id, approver, verified, grant) =>
      w.(store := if grant then GrantApproval(w.store, id, approver, verified, w.now).0
                  else DenyApproval(w.store, id, approver, verified, w.now).0)
  }

  ghost function After(ceilings: Ceilings, w: World, steps: seq<Step>): World
    decreases |steps|
  {
    if steps == [] then w else After(ceilings, Next(ceilings, w, steps[0]), steps[1..])
  }

  lemma {:induction false} AfterConcat(ceilings: Ceilings, w: World, before: seq<Step>, after: seq<Step>)
    ensures After(ceilings, w, before + after) == After(ceilings, After(ceilings, w, before), after)
    decreases |before|
  {
    if before == [] {
      assert before + after == after;
    } else {
      AfterConcat(ceilings, Next(ceilings, w, before[0]), before[1..], after);
      assert (before + after)[1..] == before[1..] + after;
    }
  }

  const EMPTY := World(Store(map[], map[], map[], []), 0, map[], [])

  // --- counting the history of one key ----------------------------------------------------------

  datatype Kind = Reservations | Starts | Failures | Commits | Suspensions | Resumptions

  predicate IsKind(e: Event, kind: Kind) {
    match kind
    case Reservations => e.ReservedKey?
    case Starts => e.Started?
    case Failures => e.WentFailed?
    case Commits => e.Receipt? && e.result.CommittedReceipt?
    case Suspensions => e.SuspendedRun?
    case Resumptions => e.ResumedRun?
  }

  function Count(log: seq<Event>, key: string, kind: Kind): nat {
    if log == [] then 0 else
    var last := log[|log| - 1];
    Count(log[..|log| - 1], key, kind) + if last.key == key && IsKind(last, kind) then 1 else 0
  }

  lemma CountNext(log: seq<Event>, e: Event, key: string, kind: Kind)
    ensures Count(log + [e], key, kind) == Count(log, key, kind) + if e.key == key && IsKind(e, kind) then 1 else 0
  {
    assert (log + [e])[..|log|] == log;
  }

  lemma CountsNext(log: seq<Event>, e: Event, key: string)
    ensures forall kind ::
      Count(log + [e], key, kind) == Count(log, key, kind) + if e.key == key && IsKind(e, kind) then 1 else 0
  {
    forall kind
      ensures Count(log + [e], key, kind) == Count(log, key, kind) + if e.key == key && IsKind(e, kind) then 1 else 0
    {
      CountNext(log, e, key, kind);
    }
  }

  // --- what every reachable world keeps for one key ----------------------------------------------

  predicate FailedAt(log: seq<Event>, key: string, attempt: nat) {
    exists i | 0 <= i < |log| :: log[i].WentFailed? && log[i].key == key && log[i].attempt == attempt
  }

  /** Attempts that are over because nothing happened: every one before the last, and the last where it failed. */
  function Settled(r: EffectRecord): nat {
    if r.state.Failed? then r.attempt else if r.attempt > 0 then r.attempt - 1 else 0
  }

  /** Attempts that may have started: all of them, but for the last while it is only reserved. */
  function Startable(r: EffectRecord): nat {
    if r.state.Reserved? && r.attempt > 0 then r.attempt - 1 else r.attempt
  }

  ghost predicate CountsAgree(ceilings: Ceilings, log: seq<Event>, key: string, r: EffectRecord) {
    && 1 <= r.attempt == Count(log, key, Reservations)
    && Count(log, key, Failures) == Settled(r)
    && Count(log, key, Starts) <= Startable(r)
    && (key in ceilings ==> Count(log, key, Starts) <= ceilings[key])
    && Count(log, key, Commits) <= (if r.state.Committed? then 1 else 0)
    && forall a | 1 <= a <= Settled(r) :: FailedAt(log, key, a)
  }

  /** The record's holder is a call that reserved exactly the record's attempt. */
  ghost predicate HolderAgrees(w: World, key: string, r: EffectRecord) {
    && !r.state.New?
    && r.actionId in w.callers && w.callers[r.actionId].key == key && w.callers[r.actionId].attempt == r.attempt
  }

  /** Events that bear the number the store assigned their own action. */
  predicate IsNumbered(e: Event) {
    !e.ResumedRun? && !e.Receipt?
  }

  ghost predicate KeyInvariant(ceilings: Ceilings, w: World, key: string) {
    && (forall id | id in w.callers && w.callers[id].key == key ::
         key in w.store.effects && 1 <= w.callers[id].attempt <= w.store.effects[key].attempt)
    && (forall i | 0 <= i < |w.log| && w.log[i].key == key && IsNumbered(w.log[i]) ::
         key in w.store.effects && 1 <= w.log[i].attempt <= w.store.effects[key].attempt)
    && (if key in w.store.effects then
          CountsAgree(ceilings, w.log, key, w.store.effects[key]) && HolderAgrees(w, key, w.store.effects[key])
        else forall kind :: Count(w.log, key, kind) == 0)
  }

  lemma EmptyKeeps(ceilings: Ceilings, key: string)
    ensures KeyInvariant(ceilings, EMPTY, key)
  {}

  // --- how a step may change what the invariant reads ------------------------------------------------

  /** The same calls with the same reservations; only their phases and what they report may differ. */
  predicate SameCalls(w: World, v: World) {
    && v.callers.Keys == w.callers.Keys
    && forall id | id in w.callers ::
         && v.callers[id].key == w.callers[id].key && v.callers[id].attempt == w.callers[id].attempt
         && v.callers[id].action == w.callers[id].action
  }

  lemma UntouchedKeeps(ceilings: Ceilings, w: World, v: World, key: string)
    requires KeyInvariant(ceilings, w, key)
    requires Get(v.store.effects, key) == Get(w.store.effects, key) && v.log == w.log && SameCalls(w, v)
    ensures KeyInvariant(ceilings, v, key)
  {}

  lemma FailedAtGrows(log: seq<Event>, e: Event, key: string)
    ensures forall a | FailedAt(log, key, a) :: FailedAt(log + [e], key, a)
    ensures e.WentFailed? && e.key == key ==> FailedAt(log + [e], key, e.attempt)
  {
    forall a | FailedAt(log, key, a) ensures FailedAt(log + [e], key, a) {
      var i :| 0 <= i < |log| && log[i].WentFailed? && log[i].key == key && log[i].attempt == a;
      assert (log + [e])[i] == log[i];
    }
    if e.WentFailed? && e.key == key { assert (log + [e])[|log|] == e; }
  }

  /** An event of another key, or one that is not counted, changes nothing the invariant reads. */
  lemma NotedKeeps(ceilings: Ceilings, w: World, e: Event, key: string)
    requires KeyInvariant(ceilings, w, key)
    requires e.key != key || (forall kind :: IsKind(e, kind) ==> kind == Suspensions || kind == Resumptions)
    requires e.key == key ==>
      key in w.store.effects && (!IsNumbered(e) || 1 <= e.attempt <= w.store.effects[key].attempt)
    ensures KeyInvariant(ceilings, Logged(w, e), key)
  {
    CountsNext(w.log, e, key);
    FailedAtGrows(w.log, e, key);
  }

  /** The record moves on under the same holder and attempt, with the event that goes with the move. */
  lemma MovedKeeps(ceilings: Ceilings, w: World, v: World, key: string, r: EffectRecord)
    requires KeyInvariant(ceilings, w, key) && key in w.store.effects && SameCalls(w, v)
    requires key in v.store.effects && v.store.effects[key] == r && !r.state.New?
    requires r.attempt == w.store.effects[key].attempt && r.actionId == w.store.effects[key].actionId
    requires v.log == w.log || (|v.log| > 0 && v.log == w.log + [v.log[|v.log| - 1]]
                                && (!IsNumbered(v.log[|v.log| - 1]) || 1 <= v.log[|v.log| - 1].attempt <= r.attempt))
    requires CountsAgree(ceilings, v.log, key, r)
    ensures KeyInvariant(ceilings, v, key)
  {}

  // --- one lemma a step ---------------------------------------------------------------------------

  lemma LapseKeeps(ceilings: Ceilings, w: World, v: World, key: string)
    requires KeyInvariant(ceilings, w, key) && key in w.store.effects && SameCalls(w, v) && v.log == w.log
    requires w.store.effects[key].state.Reserved? || w.store.effects[key].state.Executing?
    requires key in v.store.effects && v.store.effects[key].state.Ambiguous?
    requires v.store.effects[key].attempt == w.store.effects[key].attempt
    requires v.store.effects[key].actionId == w.store.effects[key].actionId
    ensures KeyInvariant(ceilings, v, key)
  {
    MovedKeeps(ceilings, w, v, key, v.store.effects[key]);
  }

  lemma WonKeeps(ceilings: Ceilings, w: World, v: World, key: string, id: string, e: Event)
    requires KeyInvariant(ceilings, w, key) && id !in w.callers
    requires key in w.store.effects ==> w.store.effects[key].state.Failed?
    requires key in v.store.effects && v.store.effects[key].state.Reserved? && v.store.effects[key].actionId == id
    requires v.store.effects[key].attempt == if key in w.store.effects then w.store.effects[key].attempt + 1 else 1
    requires v.callers.Keys == w.callers.Keys + {id} && v.callers[id].key == key
    requires v.callers[id].attempt == v.store.effects[key].attempt
    requires forall k | k in w.callers :: v.callers[k] == w.callers[k]
    requires v.log == w.log + [e] && e.ReservedKey? && e.key == key && e.attempt == v.store.effects[key].attempt
    ensures KeyInvariant(ceilings, v, key)
  {
    CountsNext(w.log, e, key);
    FailedAtGrows(w.log, e, key);
  }

  lemma TakingKeyKeeps(ceilings: Ceilings, w: World, step: Step, key: string)
    requires KeyInvariant(ceilings, w, key) && step.TakeKey?
    ensures KeyInvariant(ceilings, TakingKey(w, step), key)
  {
    var v := TakingKey(w, step);
    var id := step.action.actionId;
    if id !in w.callers {
      TakeOnEffects(w.store, step.approvalId, step.actionHash, step.key, id, step.lease, step.charges, w.now);
      var outcome := Take(w.store, step.approvalId, step.actionHash, Some(step.key), id, step.lease, step.charges,
                          w.now).1;
      if outcome.Err? {
        if v.store.effects == w.store.effects || step.key != key { UntouchedKeeps(ceilings, w, v, key); }
        else { LapseKeeps(ceilings, w, v, key); }
      } else {
        var e := ReservedKey(step.key, id, outcome.value.reservation.value.attempt, step.charges, w.now);
        if step.key == key { WonKeeps(ceilings, w, v, key, id, e); } else { NotedKeeps(ceilings, w, e, key); }
      }
    }
  }

  lemma BeginningKeeps(ceilings: Ceilings, w: World, id: string, key: string)
    requires KeyInvariant(ceilings, w, key) && At(w, id, Holding)
    ensures KeyInvariant(ceilings, Beginning(ceilings, w, id), key)
  {
    var c, v := w.callers[id], Beginning(ceilings, w, id);
    TransitionOnEffects(w.store, c.key, id, Executing, RESERVED_ONLY, None, None, w.now);
    if Begin(w.store, c.key, id, w.now).1.Ok? && c.key == key {
      BegunKeeps(ceilings, w, v, key, id);
    } else {
      var moved := v.(log := w.log);
      UntouchedKeeps(ceilings, w, moved, key);
      if v.log != w.log { NotedKeeps(ceilings, moved, Started(c.key, id, c.attempt), key); }
    }
  }

  lemma BegunKeeps(ceilings: Ceilings, w: World, v: World, key: string, id: string)
    requires KeyInvariant(ceilings, w, key) && key in w.store.effects && SameCalls(w, v)
    requires w.store.effects[key].state.Reserved? && w.store.effects[key].actionId == id
    requires key in v.store.effects && v.store.effects[key].state.Executing?
    requires v.store.effects[key].attempt == w.store.effects[key].attempt && v.store.effects[key].actionId == id
    requires v.log == w.log
          || (!OverCeiling(ceilings, key, w.store.effects[key].attempt)
              && v.log == w.log + [Started(key, id, w.store.effects[key].attempt)])
    ensures KeyInvariant(ceilings, v, key)
  {
    var e := Started(key, id, w.store.effects[key].attempt);
    CountsNext(w.log, e, key);
    FailedAtGrows(w.log, e, key);
    MovedKeeps(ceilings, w, v, key, v.store.effects[key]);
  }

  lemma FailingKeeps(ceilings: Ceilings, w: World, v: World, id: string, key: string, error: string)
    requires KeyInvariant(ceilings, w, key) && id in w.callers && SameCalls(w, v)
    requires Fail(w.store, w.callers[id].key, id, error, w.now) == (v.store, Ok(()))
    requires v.log == w.log + [WentFailed(w.callers[id].key, id, w.callers[id].attempt)]
    ensures KeyInvariant(ceilings, v, key)
  {
    var c := w.callers[id];
    var e := WentFailed(c.key, id, c.attempt);
    TransitionOnEffects(w.store, c.key, id, Failed, EXECUTING_ONLY, None, Some(error), w.now);
    if c.key != key {
      NotedKeeps(ceilings, w, e, key);
      UntouchedKeeps(ceilings, Logged(w, e), v, key);
    } else {
      CountsNext(w.log, e, key);
      FailedAtGrows(w.log, e, key);
      MovedKeeps(ceilings, w, v, key, v.store.effects[key]);
    }
  }

  lemma ReleasingKeeps(ceilings: Ceilings, w: World, id: string, key: string)
    requires KeyInvariant(ceilings, w, key) && At(w, id, Releasing)
    ensures KeyInvariant(ceilings, ReleasingRun(w, id), key)
  {
    var c, v := w.callers[id], ReleasingRun(w, id);
    TransitionOnEffects(w.store, c.key, id, Failed, EXECUTING_ONLY, None, Some("max_attempts"), w.now);
    if Fail(w.store, c.key, id, "max_attempts", w.now).1.Ok? { FailingKeeps(ceilings, w, v, id, key, "max_attempts"); }
    else { UntouchedKeeps(ceilings, w, v, key); }
  }

  /** A receipt that is not `committed` is not counted, so noting it keeps the invariant. */
  lemma ReceiptKeeps(ceilings: Ceilings, w: World, v: World, id: string, result: Result, key: string)
    requires KeyInvariant(ceilings, w, key) && id in w.callers && !result.CommittedReceipt? && SameCalls(w, v)
    requires v.store == w.store && v.log == w.log + [Receipt(w.callers[id].key, id, w.callers[id].reports, result)]
    ensures KeyInvariant(ceilings, v, key)
  {
    var e := Receipt(w.callers[id].key, id, w.callers[id].reports, result);
    if e.key == key { CallerAttempts(ceilings, w, id, key); }
    NotedKeeps(ceilings, w, e, key);
    UntouchedKeeps(ceilings, Logged(w, e), v, key);
  }

  /** A call's attempt was one the store assigned. */
  lemma CallerAttempts(ceilings: Ceilings, w: World, id: string, key: string)
    requires KeyInvariant(ceilings, w, key) && id in w.callers && w.callers[id].key == key
    ensures key in w.store.effects && 1 <= w.callers[id].attempt <= w.store.effects[key].attempt
  {}

  lemma ReturnedKeeps(ceilings: Ceilings, w: World, id: string, result: string, key: string)
    requires KeyInvariant(ceilings, w, key) && At(w, id, Running)
    ensures KeyInvariant(ceilings, Finishing(w, id, Returned(result)), key)
  {
    var c, v := w.callers[id], Finishing(w, id, Returned(result));
    TransitionOnEffects(w.store, c.key, id, Committed, EXECUTING_ONLY, Some(result), None, w.now);
    var e := Receipt(c.key, id, c.reports, CommittedReceipt);
    if Commit(w.store, c.key, id, result, w.now).1.Err? {
      ReceiptKeeps(ceilings, w, v, id, AmbiguousReceipt, key);
    } else if c.key != key {
      NotedKeeps(ceilings, w, e, key);
      UntouchedKeeps(ceilings, Logged(w, e), v, key);
    } else {
      CountsNext(w.log, e, key);
      FailedAtGrows(w.log, e, key);
      MovedKeeps(ceilings, w, v, key, v.store.effects[key]);
    }
  }

  lemma NotExecutedKeeps(ceilings: Ceilings, w: World, id: string, error: string, key: string)
    requires KeyInvariant(ceilings, w, key) && At(w, id, Running)
    ensures KeyInvariant(ceilings, Finishing(w, id, NotExecuted(error)), key)
  {
    var c, v := w.callers[id], Finishing(w, id, NotExecuted(error));
    var (store, outcome) := Fail(w.store, c.key, id, error, w.now);
    TransitionOnEffects(w.store, c.key, id, Failed, EXECUTING_ONLY, None, Some(error), w.now);
    if outcome.Ok? {
      var failed := Logged(Phased(w.(store := store), id, Over), WentFailed(c.key, id, c.attempt));
      FailingKeeps(ceilings, w, failed, id, key, error);
      ReceiptKeeps(ceilings, failed, v, id, FailedReceipt, key);
    } else {
      ReceiptKeeps(ceilings, w, v, id, AmbiguousReceipt, key);
    }
  }

  lemma RaisedKeeps(ceilings: Ceilings, w: World, id: string, error: string, key: string)
    requires KeyInvariant(ceilings, w, key) && At(w, id, Running)
    ensures KeyInvariant(ceilings, Finishing(w, id, Raised(error)), key)
  {
    var c, v := w.callers[id], Finishing(w, id, Raised(error));
    TransitionOnEffects(w.store, c.key, id, Ambiguous, UNFINISHED, None, Some(error), w.now);
    var (store, outcome) := MarkAmbiguous(w.store, c.key, id, error, w.now);
    var moved := Phased(w.(store := store), id, Over);
    if outcome.Err? || c.key != key { UntouchedKeeps(ceilings, w, moved, key); }
    else { MovedKeeps(ceilings, w, moved, key, moved.store.effects[key]); }
    ReceiptKeeps(ceilings, moved, v, id, AmbiguousReceipt, key);
  }

  lemma ExtensionKeeps(ceilings: Ceilings, w: World, v: World, at: string, id: string, until: int, key: string)
    requires KeyInvariant(ceilings, w, key) && SameCalls(w, v) && v.log == w.log
    requires v.store.effects == w.store.effects
          || (&& PlanLeaseExtension(Get(w.store.effects, at), at, id, until, w.now).Extended?
              && v.store.effects
                  == w.store.effects[at := PlanLeaseExtension(Get(w.store.effects, at), at, id, until, w.now).record])
    ensures KeyInvariant(ceilings, v, key)
  {
    ExtendedExactlyWhen(Get(w.store.effects, at), at, id, until, w.now);
    if v.store.effects == w.store.effects || at != key { UntouchedKeeps(ceilings, w, v, key); }
    else { MovedKeeps(ceilings, w, v, key, v.store.effects[key]); }
  }

  lemma SuspendingKeeps(ceilings: Ceilings, w: World, id: string, token: string, until: int, key: string)
    requires KeyInvariant(ceilings, w, key) && At(w, id, Running)
    ensures KeyInvariant(ceilings, Suspending(w, id, token, until), key)
  {
    var c, v := w.callers[id], Suspending(w, id, token, until);
    var held := v.(log := w.log);
    ExtensionKeeps(ceilings, w, held, c.key, c.action.actionId, until, key);
    if v.log != w.log {
      if c.key == key { CallerAttempts(ceilings, w, id, key); }
      NotedKeeps(ceilings, held, SuspendedRun(c.key, id, c.attempt), key);
    }
  }

  lemma ResumingKeeps(ceilings: Ceilings, w: World, token: string, key: string)
    requires KeyInvariant(ceilings, w, key)
    ensures KeyInvariant(ceilings, Resuming(w, token), key)
  {
    var v := Resuming(w, token);
    var outcome := TakeContinuation(w.store, token, w.now).1;
    UntouchedKeeps(ceilings, w, v.(log := w.log), key);
    if outcome.Ok? && outcome.value.action.actionId in w.callers {
      NotedKeeps(ceilings, v.(log := w.log), v.log[|w.log|], key);
    }
  }

  lemma ResolvingKeeps(ceilings: Ceilings, w: World, at: string, state: EffectState, resolver: string, key: string)
    requires KeyInvariant(ceilings, w, key)
    ensures KeyInvariant(ceilings, Resolving(w, at, state, resolver), key)
  {
    var v := Resolving(w, at, state, resolver);
    var (store, outcome) := Resolve(w.store, at, state, resolver, w.now);
    ResolveOnEffects(w.store, at, state, resolver, w.now);
    if outcome.Err? || (state.Failed? && at != key) {
      var moved := w.(store := store);
      UntouchedKeeps(ceilings, w, moved, key);
      if outcome.Ok? {
        NotedKeeps(ceilings, moved, WentFailed(at, outcome.value.actionId, outcome.value.attempt), key);
      }
    } else if at != key {
      UntouchedKeeps(ceilings, w, v, key);
    } else {
      ResolvedKeeps(ceilings, w, v, key, outcome.value);
    }
  }

  lemma ResolvedKeeps(ceilings: Ceilings, w: World, v: World, key: string, r: EffectRecord)
    requires KeyInvariant(ceilings, w, key) && key in w.store.effects && w.store.effects[key].state.Ambiguous?
    requires v.callers == w.callers && key in v.store.effects && v.store.effects[key] == r
    requires r.actionId == w.store.effects[key].actionId && r.attempt == w.store.effects[key].attempt
    requires (r.state.Committed? && v.log == w.log)
         || (r.state.Failed? && v.log == w.log + [WentFailed(key, r.actionId, r.attempt)])
    ensures KeyInvariant(ceilings, v, key)
  {
    var e := WentFailed(key, r.actionId, r.attempt);
    CountsNext(w.log, e, key);
    FailedAtGrows(w.log, e, key);
    MovedKeeps(ceilings, w, v, key, r);
  }

  lemma ActingKeeps(ceilings: Ceilings, w: World, id: string, key: string)
    requires KeyInvariant(ceilings, w, key) && id in w.callers
    ensures KeyInvariant(ceilings, Logged(w, Acted(w.callers[id].key, id, w.callers[id].attempt)), key)
  {
    if w.callers[id].key == key { CallerAttempts(ceilings, w, id, key); }
    NotedKeeps(ceilings, w, Acted(w.callers[id].key, id, w.callers[id].attempt), key);
  }

  lemma FinishingKeeps(ceilings: Ceilings, w: World, id: string, ending: Ending, key: string)
    requires KeyInvariant(ceilings, w, key) && At(w, id, Running)
    ensures KeyInvariant(ceilings, Finishing(w, id, ending), key)
  {
    match ending
    case Returned(result) => ReturnedKeeps(ceilings, w, id, result, key);
    case NotExecuted(error) => NotExecutedKeeps(ceilings, w, id, error, key);
    case Raised(error) => RaisedKeeps(ceilings, w, id, error, key);
  }

  /** The clock, the approvals and a call that is given up leave every record and the history alone. */
  lemma OthersLeaveEffects(ceilings: Ceilings, w: World, step: Step)
    requires step.Tick? || step.TakeApproval? || step.Abandon? || step.Ask? || step.Answer?
    ensures var v := Next(ceilings, w, step);
      v.store.effects == w.store.effects && v.log == w.log && SameCalls(w, v)
  {}

  /** Every step of every interleaving keeps the invariant of every key. */
  lemma StepKeeps(ceilings: Ceilings, w: World, step: Step, key: string)
    requires KeyInvariant(ceilings, w, key)
    ensures KeyInvariant(ceilings, Next(ceilings, w, step), key)
  {
    var v := Next(ceilings, w, step);
    match step
    case TakeKey(_, _, _, _, _, _) => TakingKeyKeeps(ceilings, w, step, key);
    case BeginRun(id) => if At(w, id, Holding) { BeginningKeeps(ceilings, w, id, key); }
    case ReleaseRun(id) => if At(w, id, Releasing) { ReleasingKeeps(ceilings, w, id, key); }
    case RemoteActs(id) => if v != w { ActingKeeps(ceilings, w, id, key); }
    case Finish(id, ending) => if At(w, id, Running) { FinishingKeeps(ceilings, w, id, ending, key); }
    case Suspend(id, token, until) => if At(w, id, Running) { SuspendingKeeps(ceilings, w, id, token, until, key); }
    case Resume(token) => ResumingKeeps(ceilings, w, token, key);
    case Extend(at, id, until) => ExtensionKeeps(ceilings, w, v, at, id, until, key);
    case ResolveKey(at, state, resolver) => ResolvingKeeps(ceilings, w, at, state, resolver, key);
    case _ =>
      OthersLeaveEffects(ceilings, w, step);
      UntouchedKeeps(ceilings, w, v, key);
  }

  // --- the shape of a step ---------------------------------------------------------------------

  /** Steps only add to the history; but for taking a key they make no call and number no attempt. */
  ghost predicate Shape(w: World, v: World, step: Step) {
    && SameCalls(w, v) && w.log <= v.log
    && (forall i | |w.log| <= i < |v.log| :: !v.log[i].ReservedKey? && (v.log[i].Acted? ==> step.RemoteActs?))
    && (!step.Suspend? && !step.Resume? ==>
          && v.store.continuations == w.store.continuations
          && forall i | |w.log| <= i < |v.log| :: !v.log[i].SuspendedRun? && !v.log[i].ResumedRun?)
  }

  lemma FinishShape(w: World, id: string, ending: Ending)
    requires At(w, id, Running)
    ensures Shape(w, Finishing(w, id, ending), Finish(id, ending))
  {
    var c := w.callers[id];
    match ending
    case Returned(result) => TransitionOnEffects(w.store, c.key, id, Committed, EXECUTING_ONLY, Some(result), None,
                                                 w.now);
    case NotExecuted(error) => TransitionOnEffects(w.store, c.key, id, Failed, EXECUTING_ONLY, None, Some(error),
                                                   w.now);
    case Raised(error) => TransitionOnEffects(w.store, c.key, id, Ambiguous, UNFINISHED, None, Some(error), w.now);
  }

  lemma BeginShape(ceilings: Ceilings, w: World, id: string)
    requires At(w, id, Holding)
    ensures Shape(w, Beginning(ceilings, w, id), BeginRun(id))
  {
    TransitionOnEffects(w.store, w.callers[id].key, id, Executing, RESERVED_ONLY, None, None, w.now);
  }

  lemma ReleaseShape(w: World, id: string)
    requires At(w, id, Releasing)
    ensures Shape(w, ReleasingRun(w, id), ReleaseRun(id))
  {
    TransitionOnEffects(w.store, w.callers[id].key, id, Failed, EXECUTING_ONLY, None, Some("max_attempts"), w.now);
  }

  lemma ResolveShape(w: World, key: string, state: EffectState, resolver: string)
    ensures Shape(w, Resolving(w, key, state, resolver), ResolveKey(key, state, resolver))
  {
    ResolveOnEffects(w.store, key, state, resolver, w.now);
  }

  lemma SuspendShape(w: World, id: string, token: string, until: int)
    requires At(w, id, Running)
    ensures Shape(w, Suspending(w, id, token, until), Suspend(id, token, until))
  {}

  lemma ResumeShape(w: World, token: string)
    ensures Shape(w, Resuming(w, token), Resume(token))
  {}

  lemma StepShape(ceilings: Ceilings, w: World, step: Step)
    requires !step.TakeKey?
    ensures Shape(w, Next(ceilings, w, step), step)
  {
    match step
    case BeginRun(id) => if At(w, id, Holding) { BeginShape(ceilings, w, id); }
    case ReleaseRun(id) => if At(w, id, Releasing) { ReleaseShape(w, id); }
    case Finish(id, ending) => if At(w, id, Running) { FinishShape(w, id, ending); }
    case Suspend(id, token, until) => if At(w, id, Running) { SuspendShape(w, id, token, until); }
    case Resume(token) => ResumeShape(w, token);
    case ResolveKey(at, state, resolver) => ResolveShape(w, at, state, resolver);
    case _ =>
  }
}
