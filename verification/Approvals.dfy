/**
  Single-use approvals bound to one action hash: `count_grant`, `check_consumable`,
  `check_answerable`, `entitled_controls` and `unsatisfied` of `src/ctrlrun/approval.py`, and
  what `Control._recheck` of `src/ctrlrun/control.py` asks of a record before it is presented.
 */
module Approvals {
  import opened Options
  import opened Actions

  datatype Status = Pending | Granted | Denied | Expired | Consumed

  datatype RequiredRole = RequiredRole(control: string, role: string)

  datatype VerifiedApprover = VerifiedApprover(
    agent: string,
    user: Option<string>,
    issuer: Option<string>,
    entitled: seq<string>,
    grantedAt: int)
  {
    /** What approvers are compared by: agent and user, never the issuer. */
    function Who(): (string, Option<string>) { (agent, user) }
  }

  datatype ApprovalRequest = ApprovalRequest(
    requestId: string,
    actionHash: string,
    requester: Principal,
    createdAt: int,
    expiresAt: int,
    fingerprint: Option<string>,
    requiredRoles: seq<RequiredRole>,
    approvalsRequired: int)

  datatype ApprovalRecord = ApprovalRecord(
    request: ApprovalRequest,
    status: Status,
    approver: Option<string>,
    grantedAt: Option<int>,
    consumedAt: Option<int>,
    approvers: seq<VerifiedApprover>)

  datatype Refusal =
    | UnknownApproval
    | HashMismatch
    | ApprovalDenied
    | NotInStatus(status: Status)
    | ApproverUnverified
    | ApproverUnentitled(role: RequiredRole)
    | ApproverIsRequester
    | PreconditionUnavailable
    | PreconditionMissing
    | PreconditionChanged

  /** Exactly one of a record and a refusal; `expire` asks the store to write the lapse. */
  datatype Verdict = Usable(record: ApprovalRecord) | Refused(refusal: Refusal, expire: bool)

  // --- counting grants ------------------------------------------------------------------------

  function Threshold(record: ApprovalRecord): int {
    if record.request.approvalsRequired > 1 then record.request.approvalsRequired else 1
  }

  /** Everyone but the answering principal, in order. */
  function Others(approvers: seq<VerifiedApprover>, who: (string, Option<string>)): seq<VerifiedApprover> {
    if approvers == [] then []
    else (if approvers[0].Who() == who then [] else [approvers[0]]) + Others(approvers[1..], who)
  }

  /** A second grant from one principal replaces its entry and counts once. */
  function CountGrant(record: ApprovalRecord, verified: Option<VerifiedApprover>, now: int)
    : (seq<VerifiedApprover>, bool)
  {
    if verified.None? then (record.approvers, Threshold(record) == 1)
    else
      var approvers := Others(record.approvers, verified.value.Who()) + [verified.value.(grantedAt := now)];
      (approvers, |approvers| >= Threshold(record))
  }

  ghost predicate Distinct(approvers: seq<VerifiedApprover>) {
    forall i, j | 0 <= i < j < |approvers| :: approvers[i].Who() != approvers[j].Who()
  }

  ghost function Principals(approvers: seq<VerifiedApprover>): set<(string, Option<string>)> {
    set i | 0 <= i < |approvers| :: approvers[i].Who()
  }

  lemma {:induction false} OthersAre(approvers: seq<VerifiedApprover>, who: (string, Option<string>))
    ensures forall a | a in Others(approvers, who) :: a in approvers && a.Who() != who
  {
    if approvers != [] { OthersAre(approvers[1..], who); }
  }

  lemma {:induction false} OthersPrincipals(approvers: seq<VerifiedApprover>, who: (string, Option<string>))
    ensures Principals(Others(approvers, who)) == Principals(approvers) - {who}
  {
    if approvers != [] {
      var first, rest := [approvers[0]], approvers[1..];
      OthersPrincipals(rest, who);
      assert approvers == first + rest;
      PrincipalsOfConcat(first, rest);
      OnePrincipal(approvers[0]);
      PrincipalsOfConcat(if approvers[0].Who() == who then [] else first, Others(rest, who));
    }
  }

  lemma OnePrincipal(a: VerifiedApprover)
    ensures Principals([a]) == {a.Who()} && Principals([]) == {}
  {
    assert [a][0].Who() in Principals([a]);
  }

  lemma {:induction false} OthersDistinct(approvers: seq<VerifiedApprover>, who: (string, Option<string>))
    requires Distinct(approvers)
    ensures Distinct(Others(approvers, who))
  {
    if approvers != [] {
      var rest := approvers[1..];
      assert forall i | 0 <= i < |rest| :: rest[i] == approvers[i + 1];
      OthersDistinct(rest, who);
      OthersAre(rest, who);
      forall a | a in Others(rest, who) ensures a.Who() != approvers[0].Who() {
        var i :| 0 <= i < |rest| && rest[i] == a;
      }
    }
  }

  /** Leaving one principal out keeps everyone else, each once. */
  lemma OthersKeep(approvers: seq<VerifiedApprover>, who: (string, Option<string>))
    requires Distinct(approvers)
    ensures Distinct(Others(approvers, who))
    ensures Principals(Others(approvers, who)) == Principals(approvers) - {who}
    ensures forall a | a in Others(approvers, who) :: a in approvers && a.Who() != who
  {
    OthersAre(approvers, who);
    OthersPrincipals(approvers, who);
    OthersDistinct(approvers, who);
  }

  lemma PrincipalsOfConcat(a: seq<VerifiedApprover>, b: seq<VerifiedApprover>)
    ensures Principals(a + b) == Principals(a) + Principals(b)
  {
    forall i | 0 <= i < |a| ensures a[i].Who() in Principals(a + b) { assert (a + b)[i] == a[i]; }
    forall i | 0 <= i < |b| ensures b[i].Who() in Principals(a + b) { assert (a + b)[|a| + i] == b[i]; }
  }

  lemma {:induction false} DistinctCount(approvers: seq<VerifiedApprover>)
    requires Distinct(approvers)
    ensures |Principals(approvers)| == |approvers|
  {
    if approvers != [] {
      var front, last := approvers[..|approvers| - 1], approvers[|approvers| - 1];
      assert forall i | 0 <= i < |front| :: front[i] == approvers[i];
      DistinctCount(front);
      assert approvers == front + [last];
      PrincipalsOfConcat(front, [last]);
      OnePrincipal(last);
      assert last.Who() !in Principals(front);
    }
  }

  /**
    What a grant makes of a record: one entry a principal, everyone already there kept, and the
    threshold reached exactly when that many distinct verified principals have answered.
   */
  lemma GrantCountsPrincipals(record: ApprovalRecord, verified: Option<VerifiedApprover>, now: int)
    requires Distinct(record.approvers)
    ensures var (approvers, reached) := CountGrant(record, verified, now);
      && Distinct(approvers)
      && Principals(approvers) == Principals(record.approvers) + (if verified.Some? then {verified.value.Who()} else {})
      && |Principals(approvers)| == |approvers|
      && (verified.Some? ==> (reached <==> |Principals(approvers)| >= Threshold(record)))
      && (verified.None? ==> approvers == record.approvers && (reached <==> Threshold(record) == 1))
  {
    DistinctCount(record.approvers);
    if verified.Some? {
      var who, stamped := verified.value.Who(), verified.value.(grantedAt := now);
      var kept := Others(record.approvers, who);
      OthersKeep(record.approvers, who);
      PrincipalsOfConcat(kept, [stamped]);
      OnePrincipal(stamped);
      assert Distinct(kept + [stamped]);
      DistinctCount(kept + [stamped]);
    }
  }

  // --- presenting and answering -------------------------------------------------------------

  /** The hash is read before the status, so a mutated action leaves the approval grantable. */
  function CheckConsumable(record: Option<ApprovalRecord>, actionHash: string, now: int): Verdict {
    if record.None? then Refused(UnknownApproval, false) else
    var r := record.value;
    if r.request.actionHash != actionHash then Refused(HashMismatch, false)
    else if r.status.Denied? then Refused(ApprovalDenied, false)
    else if !r.status.Granted? then Refused(NotInStatus(r.status), false)
    else if now > r.request.expiresAt then Refused(NotInStatus(Expired), true)
    else Usable(r)
  }

  function CheckAnswerable(record: Option<ApprovalRecord>, now: int): Verdict {
    if record.None? then Refused(UnknownApproval, false) else
    var r := record.value;
    if !r.status.Pending? then Refused(NotInStatus(r.status), false)
    else if now > r.request.expiresAt then Refused(NotInStatus(Expired), true)
    else Usable(r)
  }

  // --- roles ----------------------------------------------------------------------------------

  function EntitledControls(required: seq<RequiredRole>, held: set<string>): seq<string> {
    if required == [] then []
    else (if required[0].role in held then [required[0].control] else []) + EntitledControls(required[1..], held)
  }

  /** The first required role whose control this entitlement does not cover. */
  function Unsatisfied(required: seq<RequiredRole>, entitled: seq<string>): Option<RequiredRole> {
    if required == [] then None
    else if required[0].control !in entitled then Some(required[0])
    else Unsatisfied(required[1..], entitled)
  }

  ghost predicate EntitledToAll(required: seq<RequiredRole>, entitled: seq<string>) {
    forall r | r in required :: r.control in entitled
  }

  lemma {:induction false} UnsatisfiedFinds(required: seq<RequiredRole>, entitled: seq<string>)
    ensures Unsatisfied(required, entitled).None? <==> EntitledToAll(required, entitled)
    ensures Unsatisfied(required, entitled).Some? ==>
      Unsatisfied(required, entitled).value in required && Unsatisfied(required, entitled).value.control !in entitled
  {
    if required != [] {
      UnsatisfiedFinds(required[1..], entitled);
      assert forall r :: r in required <==> r == required[0] || r in required[1..];
    }
  }

  lemma {:induction false} EntitledHolds(required: seq<RequiredRole>, held: set<string>, control: string)
    ensures control in EntitledControls(required, held)
       <==> exists r :: r in required && r.control == control && r.role in held
  {
    if required != [] {
      EntitledHolds(required[1..], held, control);
      assert forall r :: r in required <==> r == required[0] || r in required[1..];
    }
  }

  predicate Satisfied(required: seq<RequiredRole>, held: set<string>) {
    Unsatisfied(required, EntitledControls(required, held)).None?
  }

  ghost predicate HoldsEveryRole(required: seq<RequiredRole>, held: set<string>) {
    forall r | r in required :: r.role in held
  }

  /** Some role of this control is held. */
  ghost predicate Covered(required: seq<RequiredRole>, held: set<string>, control: string) {
    exists r :: r in required && r.control == control && r.role in held
  }

  ghost predicate EveryControlCovered(required: seq<RequiredRole>, held: set<string>) {
    forall r | r in required :: Covered(required, held, r.control)
  }

  /**
    Entitlement is by control and not by role: the required roles count as satisfied exactly when
    each required control has some role of its own held.
   */
  lemma SatisfiedExactlyWhen(required: seq<RequiredRole>, held: set<string>)
    ensures Satisfied(required, held) <==> EveryControlCovered(required, held)
  {
    UnsatisfiedFinds(required, EntitledControls(required, held));
    forall r | r in required
      ensures r.control in EntitledControls(required, held) <==> Covered(required, held, r.control)
    {
      EntitledHolds(required, held, r.control);
    }
  }

  /** Its control demands this role and no other. */
  ghost predicate Alone(required: seq<RequiredRole>, r: RequiredRole) {
    forall s | s in required && s.control == r.control :: s.role == r.role
  }

  /** Some control of the list demands this role and no other. */
  ghost predicate Insisted(required: seq<RequiredRole>, role: string) {
    exists r :: r in required && r.role == role && Alone(required, r)
  }

  lemma InsistedRoleIsHeld(required: seq<RequiredRole>, held: set<string>, role: string)
    requires Satisfied(required, held) && Insisted(required, role)
    ensures role in held
  {
    SatisfiedExactlyWhen(required, held);
    var r :| r in required && r.role == role && Alone(required, r);
    assert Covered(required, held, r.control);
  }

  /** Everyone holding all the other roles of the list satisfies it without this one. */
  lemma UninsistedRoleIsSpared(required: seq<RequiredRole>, role: string) returns (held: set<string>)
    requires !Insisted(required, role)
    ensures role !in held && Satisfied(required, held)
  {
    held := (set r | r in required :: r.role) - {role};
    forall r | r in required ensures Covered(required, held, r.control) {
      assert r.role == role ==> !Alone(required, r);
    }
    SatisfiedExactlyWhen(required, held);
  }

  /**
    Being satisfied means holding every required role, whatever is held, exactly when each required
    role is the only role of some control on the list.
   */
  lemma SatisfactionMeansEveryRoleExactlyWhen(required: seq<RequiredRole>)
    ensures (forall held :: Satisfied(required, held) ==> HoldsEveryRole(required, held)) <==>
      forall q | q in required :: Insisted(required, q.role)
  {
    if forall q | q in required :: Insisted(required, q.role) {
      forall held, q | Satisfied(required, held) && q in required ensures q.role in held {
        InsistedRoleIsHeld(required, held, q.role);
      }
    } else {
      var q :| q in required && !Insisted(required, q.role);
      var held := UninsistedRoleIsSpared(required, q.role);
      assert Satisfied(required, held) && !HoldsEveryRole(required, held);
    }
  }

  /**
    Holding every role always satisfies, and one role a control, as `Control` lists them, suffices
    for the converse.
   */
  lemma OneRoleAControlIsExact(required: seq<RequiredRole>, held: set<string>)
    ensures HoldsEveryRole(required, held) ==> Satisfied(required, held)
    ensures (forall r | r in required :: Alone(required, r)) ==>
      (Satisfied(required, held) <==> HoldsEveryRole(required, held))
  {
    SatisfiedExactlyWhen(required, held);
    if HoldsEveryRole(required, held) {
      forall r | r in required ensures Covered(required, held, r.control) {}
    }
    if Satisfied(required, held) && forall r | r in required :: Alone(required, r) {
      forall r | r in required ensures r.role in held {
        assert Insisted(required, r.role);
        InsistedRoleIsHeld(required, held, r.role);
      }
    }
  }

  /** A list on which a control demands two roles and satisfaction still means holding every one. */
  lemma TwoRolesMayStillBeInsisted() returns (required: seq<RequiredRole>)
    ensures exists r :: r in required && !Alone(required, r)
    ensures forall held :: Satisfied(required, held) ==> HoldsEveryRole(required, held)
  {
    var ca, cb := RequiredRole("c", "a"), RequiredRole("c", "b");
    var da, eb := RequiredRole("d", "a"), RequiredRole("e", "b");
    required := [ca, cb, da, eb];
    assert ca in required && cb in required && da in required && eb in required;
    assert "c"[0] != "d"[0] && "d"[0] != "e"[0] && "c"[0] != "e"[0] && "a"[0] != "b"[0];
    assert Alone(required, da) && Alone(required, eb) && !Alone(required, ca);
    forall q | q in required ensures Insisted(required, q.role) {}
    SatisfactionMeansEveryRoleExactlyWhen(required);
  }

  /** A control demanding two roles is covered by an approver holding one of them. */
  lemma OneRoleCoversItsControl() returns (required: seq<RequiredRole>, held: set<string>)
    ensures Satisfied(required, held) && !HoldsEveryRole(required, held)
  {
    var first, second := RequiredRole("c", "a"), RequiredRole("c", "b");
    required, held := [first, second], {"a"};
    assert first in required && second in required;
    assert Covered(required, held, "c");
    SatisfiedExactlyWhen(required, held);
    assert second.role[0] != "a"[0];
  }

  // --- who may have answered ------------------------------------------------------------------

  ghost predicate ApproversStand(approvers: seq<VerifiedApprover>, requester: Principal, required: seq<RequiredRole>) {
    && approvers != []
    && (forall i | 0 <= i < |approvers| :: EntitledToAll(required, approvers[i].entitled))
    && (forall i | 0 <= i < |approvers| :: approvers[i].Who() != (requester.agent, requester.user))
  }

  /** The first approver not entitled to every role, by the role they lack. */
  function FirstUnentitled(approvers: seq<VerifiedApprover>, required: seq<RequiredRole>): Option<RequiredRole> {
    if approvers == [] then None
    else if Unsatisfied(required, approvers[0].entitled).Some? then Unsatisfied(required, approvers[0].entitled)
    else FirstUnentitled(approvers[1..], required)
  }

  /** Nobody verified, then an unentitled approver, then the requester's own yes. */
  function ApproverRefusal(approvers: seq<VerifiedApprover>, requester: Principal,
                           required: seq<RequiredRole>): Option<Refusal>
  {
    if approvers == [] then Some(ApproverUnverified)
    else if FirstUnentitled(approvers, required).Some?
      then Some(ApproverUnentitled(FirstUnentitled(approvers, required).value))
    else if exists i | 0 <= i < |approvers| ::
      approvers[i].Who() == (requester.agent, requester.user) then Some(ApproverIsRequester)
    else None
  }

  lemma {:induction false} FirstUnentitledFinds(approvers: seq<VerifiedApprover>, required: seq<RequiredRole>)
    ensures FirstUnentitled(approvers, required).None? <==>
      forall i | 0 <= i < |approvers| :: EntitledToAll(required, approvers[i].entitled)
    ensures FirstUnentitled(approvers, required).Some? ==>
      var role := FirstUnentitled(approvers, required).value;
      role in required && exists i | 0 <= i < |approvers| :: role.control !in approvers[i].entitled
  {
    if approvers != [] {
      UnsatisfiedFinds(required, approvers[0].entitled);
      FirstUnentitledFinds(approvers[1..], required);
      assert approvers == [approvers[0]] + approvers[1..];
    }
  }

  lemma {:induction false} FirstUnentitledAt(approvers: seq<VerifiedApprover>, required: seq<RequiredRole>, i: nat)
    requires i < |approvers| && Unsatisfied(required, approvers[i].entitled).Some?
    requires forall k | 0 <= k < i :: Unsatisfied(required, approvers[k].entitled).None?
    ensures FirstUnentitled(approvers, required) == Unsatisfied(required, approvers[i].entitled)
  {
    if i > 0 {
      assert forall k | 0 <= k < i - 1 :: approvers[1..][k] == approvers[k + 1];
      FirstUnentitledAt(approvers[1..], required, i - 1);
    }
  }

  /** Approvers are not refused exactly when there is one, each is entitled to every role, and none is the requester. */
  lemma ApproversStandExactlyWhen(approvers: seq<VerifiedApprover>, requester: Principal, required: seq<RequiredRole>)
    ensures ApproverRefusal(approvers, requester, required).None? <==> ApproversStand(approvers, requester, required)
  {
    FirstUnentitledFinds(approvers, required);
  }

  /** `_refuse_approver`. */
  method RefuseApprover(approvers: seq<VerifiedApprover>, requester: Principal, required: seq<RequiredRole>)
    returns (refusal: Option<Refusal>)
    ensures refusal == ApproverRefusal(approvers, requester, required)
  {
    if approvers == [] { return Some(ApproverUnverified); }
    for i := 0 to |approvers|
      invariant forall k | 0 <= k < i :: Unsatisfied(required, approvers[k].entitled).None?
    {
      var missing := Unsatisfied(required, approvers[i].entitled);
      if missing.Some? {
        FirstUnentitledAt(approvers, required, i);
        return Some(ApproverUnentitled(missing.value));
      }
    }
    FirstUnentitledFinds(approvers, required);
    forall i | 0 <= i < |approvers| ensures EntitledToAll(required, approvers[i].entitled) {
      UnsatisfiedFinds(required, approvers[i].entitled);
    }
    for i := 0 to |approvers|
      invariant forall k | 0 <= k < i :: approvers[k].Who() != (requester.agent, requester.user)
    {
      if approvers[i].Who() == (requester.agent, requester.user) { return Some(ApproverIsRequester); }
    }
    return None;
  }

  // --- the precondition ---------------------------------------------------------------------------

  /** What the presenting call's provider reports: none named, no answer, or a fresh fingerprint. */
  datatype Precondition = NotNamed | NoAnswer | Fresh(fingerprint: string)

  /** `_compare`: a fingerprint on one side only is a refusal and never a skip. */
  function Compared(stored: Option<string>, p: Precondition): Option<Refusal> {
    if p.NotNamed? && stored.None? then None
    else if p.NoAnswer? then Some(PreconditionUnavailable)
    else if stored.None? || p.NotNamed? then Some(PreconditionMissing)
    else if stored.value != p.fingerprint then Some(PreconditionChanged)
    else None
  }

  // --- the re-check before a claim ----------------------------------------------------------------

  /** The approver rules read a granted record for this hash, lapsed or not; elsewhere the store's reason wins. */
  predicate ApproversRead(record: Option<ApprovalRecord>, actionHash: string) {
    record.Some? && record.value.status.Granted? && record.value.request.actionHash == actionHash
  }

  function StoredFingerprint(record: Option<ApprovalRecord>): Option<string> {
    if record.None? then None else record.value.request.fingerprint
  }

  function RecheckRefusal(configured: bool, record: Option<ApprovalRecord>, actionHash: string, requester: Principal,
                          p: Precondition, now: int): Option<Refusal>
  {
    var verdict := CheckConsumable(record, actionHash, now);
    var approvers := if configured && ApproversRead(record, actionHash)
                     then ApproverRefusal(record.value.approvers, requester, record.value.request.requiredRoles)
                       else None;
    if approvers.Some? then approvers
    else if p.NotNamed? && StoredFingerprint(record).None? then None
    else if verdict.Refused? then Some(verdict.refusal)
    else Compared(record.value.request.fingerprint, p)
  }

  /** `_recheck`: one read, one verdict, and nothing written. */
  method Recheck(configured: bool, record: Option<ApprovalRecord>, actionHash: string, requester: Principal,
                 p: Precondition, now: int)
    returns (refusal: Option<Refusal>)
    ensures refusal == RecheckRefusal(configured, record, actionHash, requester, p, now)
  {
    var verdict := CheckConsumable(record, actionHash, now);
    if configured && (verdict.Usable? || verdict.expire) {
      refusal := RefuseApprover(record.value.approvers, requester, record.value.request.requiredRoles);
      if refusal.Some? { return; }
    }
    if p.NotNamed? && StoredFingerprint(record).None? { return None; }
    if verdict.Refused? { return Some(verdict.refusal); }
    refusal := Compared(record.value.request.fingerprint, p);
  }

  /**
    A live grant for this action passes the re-check exactly when its approvers stand, where an
    approver identity is configured, and both fingerprints are absent or both are the same.
   */
  lemma RecheckPassesExactlyWhen(configured: bool, record: ApprovalRecord, actionHash: string, requester: Principal,
                                 p: Precondition, now: int)
    requires CheckConsumable(Some(record), actionHash, now).Usable?
    ensures RecheckRefusal(configured, Some(record), actionHash, requester, p, now).None? <==>
      (&& (configured ==> ApproversStand(record.approvers, requester, record.request.requiredRoles))
       && (if p.Fresh? then record.request.fingerprint == Some(p.fingerprint)
             else p.NotNamed? && record.request.fingerprint.None?))
  {
    ApproversStandExactlyWhen(record.approvers, requester, record.request.requiredRoles);
  }

  /** Refusing on approver grounds never stands in for a denial, a replay, a moved hash or a pending request. */
  lemma OtherRefusalsKeepTheirReason(configured: bool, record: Option<ApprovalRecord>, actionHash: string,
                                     requester: Principal, p: Precondition, now: int)
    requires !ApproversRead(record, actionHash)
    ensures var refusal := RecheckRefusal(configured, record, actionHash, requester, p, now);
      refusal.Some? ==> CheckConsumable(record, actionHash, now) == Refused(refusal.value, false)
  {}
}
