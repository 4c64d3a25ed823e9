/**
  What every run of the protocol keeps of an approval: it is consumed at most once and only for the
  action it was granted for, a refused reservation leaves it granted, and those who granted it are
  fixed from the grant on.
 */
module ApprovalLaws {
  import opened Options
  import opened Actions
  import opened Approvals
  import opened Charges
  import opened Effects
  import opened Protocol
  import opened Stores

  // --- one record, one step -------------------------------------------------------------------

  /** The approval a step presents, and the hash it presents it for. */
  function Presented(step: Step): Option<(string, string)> {
    match step
    case TakeKey(_, _, approvalId, hash, _, _) => if approvalId.Some? then Some((approvalId.value, hash)) else None
    case TakeApproval(id, hash) => Some((id, hash))
    case _ => None
  }

  /** Only a pending record is answered, and what it was asked for never changes. */
  ghost predicate Answers(r: ApprovalRecord, moved: ApprovalRecord) {
    && r.status.Pending? && moved.request == r.request
    && ((exists verified, now :: moved.approvers == CountGrant(r, verified, now).0
           && moved.status == (if CountGrant(r, verified, now).1 then Granted else Pending))
        || moved.status.Denied?)
  }

  /** A record lapses or is spent with nothing else of it changed but the instant it was spent. */
  ghost predicate MayBecome(w: World, step: Step, id: string, r: ApprovalRecord, moved: ApprovalRecord) {
    || moved == r
    || Answers(r, moved)
    || ((r.status.Pending? || r.status.Granted?) && w.now > r.request.expiresAt && moved == r.(status := Expired))
    || (&& r.status.Granted? && w.now <= r.request.expiresAt && Presented(step) == Some((id, r.request.actionHash))
        && moved == ConsumedRecord(r, w.now))
  }

  lemma TakeOnApprovals(s: Store, approvalId: Option<string>, actionHash: string, effectKey: Option<string>,
                        actionId: string, lease: int, charges: seq<Charge>, now: int, id: string)
    requires id in s.approvals
    ensures var r := s.approvals[id];
      var (t, outcome) := Take(s, approvalId, actionHash, effectKey, actionId, lease, charges, now);
      && id in t.approvals
      && (t.approvals[id] == r
          || (approvalId == Some(id) && r.request.actionHash == actionHash && r.status.Granted?
              && if now > r.request.expiresAt then outcome.Err? && t.approvals[id] == r.(status := Expired)
                 else outcome.Ok? && t.approvals[id] == ConsumedRecord(r, now)))
      && (outcome.Err? && r.status.Granted? && now <= r.request.expiresAt ==> t.approvals[id] == r)
      && (outcome.Ok? && approvalId == Some(id) ==>
            outcome.value.approval == Some(r) && t.approvals[id] == ConsumedRecord(r, now))
  {}

  lemma GrantOnApprovals(s: Store, at: string, approver: string, verified: Option<VerifiedApprover>, now: int,
                         id: string)
    requires id in s.approvals
    ensures var r := s.approvals[id];
      var t := GrantApproval(s, at, approver, verified, now).0;
      && id in t.approvals
      && (t.approvals[id] == r || Answers(r, t.approvals[id])
          || (r.status.Pending? && now > r.request.expiresAt && t.approvals[id] == r.(status := Expired)))
  {}

  lemma DenyOnApprovals(s: Store, at: string, approver: string, verified: Option<VerifiedApprover>, now: int,
                        id: string)
    requires id in s.approvals
    ensures var r := s.approvals[id];
      var t := DenyApproval(s, at, approver, verified, now).0;
      && id in t.approvals
      && (t.approvals[id] == r || Answers(r, t.approvals[id])
          || (r.status.Pending? && now > r.request.expiresAt && t.approvals[id] == r.(status := Expired)))
  {}

  /** Steps that neither present nor answer leave every approval as it is. */
  lemma OutcomesLeaveApprovals(ceilings: Ceilings, w: World, step: Step)
    requires !step.TakeKey? && !step.TakeApproval? && !step.Ask? && !step.Answer?
    ensures Next(ceilings, w, step).store.approvals == w.store.approvals
  {
    match step
    case BeginRun(id) =>
      if At(w, id, Holding) {
        TransitionOnEffects(w.store, w.callers[id].key, id, Executing, RESERVED_ONLY, None, None, w.now);
      }
    case ReleaseRun(id) =>
      if At(w, id, Releasing) {
        TransitionOnEffects(w.store, w.callers[id].key, id, Failed, EXECUTING_ONLY, None, Some("max_attempts"), w.now);
      }
    case Finish(id, ending) => if At(w, id, Running) { FinishingLeavesApprovals(w, id, ending); }
    case ResolveKey(at, state, resolver) => ResolveOnEffects(w.store, at, state, resolver, w.now);
    case _ =>
  }

  lemma FinishingLeavesApprovals(w: World, id: string, ending: Ending)
    requires At(w, id, Running)
    ensures Finishing(w, id, ending).store.approvals == w.store.approvals
  {
    var c := w.callers[id];
    match ending
    case Returned(result) => TransitionOnEffects(w.store, c.key, id, Committed, EXECUTING_ONLY, Some(result), None,
                                                 w.now);
    case NotExecuted(error) => TransitionOnEffects(w.store, c.key, id, Failed, EXECUTING_ONLY, None, Some(error),
                                                   w.now);
    case Raised(error) => TransitionOnEffects(w.store, c.key, id, Ambiguous, UNFINISHED, None, Some(error), w.now);
  }

  lemma StepOnApproval(ceilings: Ceilings, w: World, step: Step, id: string)
    requires id in w.store.approvals
    ensures var v := Next(ceilings, w, step);
      id in v.store.approvals && MayBecome(w, step, id, w.store.approvals[id], v.store.approvals[id])
  {
    match step
    case TakeKey(action, key, approvalId, hash, lease, charges) =>
      TakeOnApprovals(w.store, approvalId, hash, Some(key), action.actionId, lease, charges, w.now, id);
    case TakeApproval(presented, hash) => TakeOnApprovals(w.store, Some(presented), hash, None, "", 0, [], w.now, id);
    case Ask(_) =>
    case Answer(at, approver, verified, grant) =>
      if grant { GrantOnApprovals(w.store, at, approver, verified, w.now, id); }
      else { DenyOnApprovals(w.store, at, approver, verified, w.now, id); }
    case _ => OutcomesLeaveApprovals(ceilings, w, step);
  }

  // --- consumed once -----------------------------------------------------------------------------

  predicate IsConsumed(w: World, id: string) {
    id in w.store.approvals && w.store.approvals[id].status.Consumed?
  }

  /** How many steps of a run spend the approval. */
  ghost function Consumptions(ceilings: Ceilings, w: World, steps: seq<Step>, id: string): nat
    decreases |steps|
  {
    if steps == [] then 0 else
    var v := Next(ceilings, w, steps[0]);
    (if !IsConsumed(w, id) && IsConsumed(v, id) then 1 else 0) + Consumptions(ceilings, v, steps[1..], id)
  }

  lemma StepAsksUnspent(ceilings: Ceilings, w: World, step: Step, id: string)
    requires id !in w.store.approvals
    ensures var v := Next(ceilings, w, step);
      id in v.store.approvals ==> v.store.approvals[id].status.Pending? && v.store.approvals[id].approvers == []
  {
    match step
    case TakeKey(_, _, _, _, _, _) =>
    case TakeApproval(_, _) =>
    case Ask(_) =>
    case Answer(_, _, _, _) =>
    case _ => OutcomesLeaveApprovals(ceilings, w, step);
  }

  /** An approval is consumed at most once in any run, and never again once it is spent. */
  lemma {:induction false} ConsumedAtMostOnce(ceilings: Ceilings, w: World, steps: seq<Step>, id: string)
    ensures Consumptions(ceilings, w, steps, id) <= if IsConsumed(w, id) then 0 else 1
    decreases |steps|
  {
    if steps != [] {
      if id in w.store.approvals { StepOnApproval(ceilings, w, steps[0], id); }
      ConsumedAtMostOnce(ceilings, Next(ceilings, w, steps[0]), steps[1..], id);
    }
  }

  /** The step that spends an approval presents it, unexpired and granted, for its own action hash. */
  lemma ConsumedForItsOwnAction(ceilings: Ceilings, w: World, step: Step, id: string)
    requires !IsConsumed(w, id) && IsConsumed(Next(ceilings, w, step), id)
    ensures id in w.store.approvals && w.store.approvals[id].status.Granted?
    ensures Presented(step) == Some((id, w.store.approvals[id].request.actionHash))
    ensures w.now <= w.store.approvals[id].request.expiresAt
  {
    if id in w.store.approvals {
      StepOnApproval(ceilings, w, step, id);
    } else {
      StepAsksUnspent(ceilings, w, step, id);
    }
  }

  /** A claim that is refused, for its key, its budget or its hash, leaves a live grant granted. */
  lemma RefusedClaimLeavesTheGrant(s: Store, approvalId: string, actionHash: string, key: string, actionId: string,
                                   lease: int, charges: seq<Charge>, now: int)
    requires approvalId in s.approvals && s.approvals[approvalId].status.Granted?
    requires now <= s.approvals[approvalId].request.expiresAt
    ensures var (t, outcome) := Take(s, Some(approvalId), actionHash, Some(key), actionId, lease, charges, now);
      outcome.Err? ==> t.approvals == s.approvals
  {}

  // --- who granted it ----------------------------------------------------------------------------

  /** Approvers are distinct unless the record was denied, and a grant above one was given by that many. */
  ghost predicate ApproversHold(r: ApprovalRecord) {
    && (!r.status.Denied? ==> Distinct(r.approvers))
    && (r.status.Pending? ==> |r.approvers| < Threshold(r) || r.approvers == [])
    && ((r.status.Granted? || r.status.Consumed?) && Threshold(r) > 1 ==> |Principals(r.approvers)| >= Threshold(r))
  }

  lemma MoveKeepsApprovers(w: World, step: Step, id: string, r: ApprovalRecord, moved: ApprovalRecord)
    requires ApproversHold(r) && MayBecome(w, step, id, r, moved)
    ensures ApproversHold(moved)
  {
    if Answers(r, moved) && !moved.status.Denied? {
      var verified, now :| moved.approvers == CountGrant(r, verified, now).0
        && moved.status == (if CountGrant(r, verified, now).1 then Granted else Pending);
      GrantCountsPrincipals(r, verified, now);
    }
  }

  /**
    In every run: the approvers of a record not denied are pairwise distinct, and a record granted
    at a threshold above one was granted by at least that many distinct verified principals.
   */
  lemma {:induction false} GrantsAreByDistinctPrincipals(ceilings: Ceilings, w: World, steps: seq<Step>, id: string)
    requires id in w.store.approvals ==> ApproversHold(w.store.approvals[id])
    ensures var v := After(ceilings, w, steps); id in v.store.approvals ==> ApproversHold(v.store.approvals[id])
    decreases |steps|
  {
    if steps != [] {
      var v := Next(ceilings, w, steps[0]);
      if id in w.store.approvals {
        StepOnApproval(ceilings, w, steps[0], id);
        MoveKeepsApprovers(w, steps[0], id, w.store.approvals[id], v.store.approvals[id]);
      } else {
        StepAsksUnspent(ceilings, w, steps[0], id);
      }
      GrantsAreByDistinctPrincipals(ceilings, v, steps[1..], id);
    }
  }

  /** A denial appends its verified denier unchecked: the list stays distinct exactly when they had not answered. */
  lemma DenialKeepsDistinctExactlyWhen(s: Store, id: string, approver: string, verified: VerifiedApprover, now: int)
    requires id in s.approvals && s.approvals[id].status.Pending? && now <= s.approvals[id].request.expiresAt
    requires Distinct(s.approvals[id].approvers) && approver != []
    ensures Distinct(DenyApproval(s, id, approver, Some(verified), now).0.approvals[id].approvers)
       <==> verified.Who() !in Principals(s.approvals[id].approvers)
  {
    var before := s.approvals[id].approvers;
    var after := DenyApproval(s, id, approver, Some(verified), now).0.approvals[id].approvers;
    assert after == before + [verified.(grantedAt := now)];
    if i :| 0 <= i < |before| && before[i].Who() == verified.Who() {
      assert after[i].Who() == after[|before|].Who();
    }
  }

  /** One principal grants the first of two required approvals and then denies: they are listed twice. */
  lemma DenialRepeatsAnApprover() returns (s: Store, denied: Store)
    ensures s == GrantApproval(PutRequest(Store(map[], map[], map[], []),
                   ApprovalRequest("r", "h", Principal("agent", None, None), 0, 9, None, [], 2)).0, "r", "a",
                   Some(VerifiedApprover("a", None, None, [], 0)), 1).0
    ensures denied == DenyApproval(s, "r", "a", Some(VerifiedApprover("a", None, None, [], 0)), 2).0
    ensures "r" in denied.approvals && !Distinct(denied.approvals["r"].approvers)
  {
    var asked := PutRequest(Store(map[], map[], map[], []),
                            ApprovalRequest("r", "h", Principal("agent", None, None), 0, 9, None, [], 2)).0;
    var who := VerifiedApprover("a", None, None, [], 0);
    assert "r" in asked.approvals && asked.approvals["r"].approvers == [];
    s := GrantApproval(asked, "r", "a", Some(who), 1).0;
    assert s.approvals["r"].approvers == [who.(grantedAt := 1)];
    denied := DenyApproval(s, "r", "a", Some(who), 2).0;
    var twice := denied.approvals["r"].approvers;
    assert twice[0].Who() == twice[1].Who();
  }

  // --- frozen at the grant ------------------------------------------------------------------------

  predicate IsSettled(r: ApprovalRecord) {
    !r.status.Pending? && !r.status.Denied?
  }

  /** From the grant on, the request and its approvers are the same in every later state. */
  lemma {:induction false} GrantedApproversAreFrozen(ceilings: Ceilings, w: World, steps: seq<Step>, id: string)
    requires id in w.store.approvals && IsSettled(w.store.approvals[id])
    ensures var v := After(ceilings, w, steps);
      && id in v.store.approvals && IsSettled(v.store.approvals[id])
      && v.store.approvals[id].approvers == w.store.approvals[id].approvers
      && v.store.approvals[id].request == w.store.approvals[id].request
    decreases |steps|
  {
    if steps != [] {
      StepOnApproval(ceilings, w, steps[0], id);
      GrantedApproversAreFrozen(ceilings, Next(ceilings, w, steps[0]), steps[1..], id);
    }
  }

  /** What `_recheck` asks of a record it read granted, where an approver identity is configured. */
  ghost predicate Rechecked(read: ApprovalRecord, actionHash: string, requester: Principal, p: Precondition, at: int) {
    && read.status.Granted? && RecheckRefusal(true, Some(read), actionHash, requester, p, at).None?
  }

  /**
    Where the record was granted at the re-check's read and an approver identity is configured,
    whatever happens between that read and the claim, an approval that is then spent was granted by
    exactly the approvers the re-check passed: each entitled to every required role, and none of
    them the requester. Its fingerprint is the one compared.
   */
  lemma SpentApproversWereRechecked(ceilings: Ceilings, w: World, steps: seq<Step>, id: string, actionHash: string,
                                    requester: Principal, p: Precondition, effectKey: Option<string>, actionId: string,
                                    lease: int, charges: seq<Charge>)
    requires id in w.store.approvals && Rechecked(w.store.approvals[id], actionHash, requester, p, w.now)
    ensures var v := After(ceilings, w, steps);
      var outcome := Take(v.store, Some(id), actionHash, effectKey, actionId, lease, charges, v.now).1;
      outcome.Ok? ==>
        && outcome.value.approval.Some?
        && outcome.value.approval.value.approvers == w.store.approvals[id].approvers
        && ApproversStand(outcome.value.approval.value.approvers, requester,
                          outcome.value.approval.value.request.requiredRoles)
        && Compared(outcome.value.approval.value.request.fingerprint, p).None?
  {
    GrantedApproversAreFrozen(ceilings, w, steps, id);
    var read := w.store.approvals[id];
    ApproversStandExactlyWhen(read.approvers, requester, read.request.requiredRoles);
    var v := After(ceilings, w, steps);
    TakeOnApprovals(v.store, Some(id), actionHash, effectKey, actionId, lease, charges, v.now, id);
  }
}
