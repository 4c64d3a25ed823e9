/**
  Creating and revoking delegated authority: `plan_delegation`, `plan_break_glass` and
  `_parent_for_creation` of `src/ctrlrun/authority.py`, and the writes `Control._delegate`,
  `_break_glass`, `_opener_for` and `revoke` of `src/ctrlrun/control.py` make with them.
 */
module Delegations {
  import opened Options
  import opened Actions
  import opened Approvals
  import opened BuiltGrants
  import opened Grants
  import opened Chains

  datatype Rejection =
    | PrincipalExpired
    | IdChosen
    | UnknownParent
    | ParentNotDelegable
    | ParentNotValid
    | NotTheSubject
    | MaxDepth
    | NotContained(dimension: Dimension)
    | NotComparable
    | NoApproverIdentity
    | NoOpener
    | UnresolvedControls
    | OpenerUnentitled(role: RequiredRole)

  datatype Plan = Planned(row: Row) | Rejected(rejection: Rejection)

  datatype Parent = UsableParent(grant: Grant, depth: nat) | UnusableParent(rejection: Rejection)

  predicate CredentialExpired(creator: Principal, now: int) {
    creator.expiresAt.Some? && now > creator.expiresAt.value
  }

  /** `_parent_for_creation`: a root grant wins any collision, and an envelope is never a parent here. */
  function ParentForCreation(d: Document, rows: Rows, parentId: string, now: int): Parent
    requires ValidDocument(d) && ValidRows(rows)
  {
    if parentId in d.envelopes then UnusableParent(UnknownParent)
    else if parentId in d.grants then
      var root := d.grants[parentId];
      if !root.delegable then UnusableParent(ParentNotDelegable)
      else if IsExpired(root, now) then UnusableParent(ParentNotValid)
      else UsableParent(root, 0)
    else if parentId !in rows || rows[parentId].revokedAt.Some? then UnusableParent(UnknownParent)
    else if rows[parentId].grant.None? then UnusableParent(ParentNotValid)
    else
      var parent := rows[parentId];
      if !parent.grant.value.delegable then UnusableParent(ParentNotDelegable)
      else if IsExpired(parent.grant.value, now) then UnusableParent(ParentNotValid)
      else
        WalkKeepsReadable(d, rows, [parent]);
        var w := WalkFrom(d, rows, [parent]);
        if w.end.Unreadable? || w.end.Missing? || w.end.Cycle? || AnyRevoked(w.nodes[1..])
           || FirstExpired(Ancestors(w), now).Some? || UndelegableAncestor(w)
        then UnusableParent(ParentNotValid)
        else UsableParent(parent.grant.value, if w.end.TooDeep? then w.end.depth else |w.nodes|)
  }

  /** The row a contained grant is stored as. What the store keeps is read back from here on. */
  function PlanUnder(parent: Grant, grant: BuiltGrant, parentId: string, depth: int, creator: Principal, via: Via,
                     now: int, newId: string): Plan
    requires ValidGrant(parent) && Constructed(grant)
  {
    match FitUnder(parent, grant)
    case Raises => Rejected(NotComparable)
    case Violates(dimension) => Rejected(NotContained(dimension))
    case Fits => Planned(Row(newId, parentId, depth, ReadBack(grant, newId), creator, via, now, None))
  }

  /** `plan_delegation`: the first rule that fails, in the order the rules are listed. */
  function PlanDelegation(d: Document, rows: Rows, parentId: string, grant: BuiltGrant, creator: Principal, via: Via,
                          now: int, newId: string): Plan
    requires ValidDocument(d) && ValidRows(rows) && Constructed(grant)
  {
    if CredentialExpired(creator, now) then Rejected(PrincipalExpired)
    else if grant.id != [] then Rejected(IdChosen)
    else
      match ParentForCreation(d, rows, parentId, now)
      case UnusableParent(rejection) => Rejected(rejection)
      case UsableParent(parent, above) =>
        ParentIsValid(d, rows, parentId, now);
        if !SubjectMatches(parent.subject, creator) then Rejected(NotTheSubject)
        else if above + 1 > d.maxDepth then Rejected(MaxDepth)
        else PlanUnder(parent, grant, parentId, above + 1, creator, via, now, newId)
  }

  lemma ParentIsValid(d: Document, rows: Rows, parentId: string, now: int)
    requires ValidDocument(d) && ValidRows(rows)
    ensures var p := ParentForCreation(d, rows, parentId, now); p.UsableParent? ==> ValidGrant(p.grant)
  {}

  /** `plan_break_glass`: only an envelope opens, with an expiry inside its `max_ttl`. */
  function PlanBreakGlass(d: Document, envelopeId: string, grant: BuiltGrant, creator: Principal, now: int,
                          newId: string): Plan
    requires ValidDocument(d) && Constructed(grant)
  {
    if envelopeId !in d.envelopes then Rejected(UnknownParent)
    else if CredentialExpired(creator, now) then Rejected(PrincipalExpired)
    else if grant.id != [] then Rejected(IdChosen)
    else if grant.expiresAt.None? || grant.expiresAt.value > now + d.envelopes[envelopeId].maxTtl then
      Rejected(NotContained(ExpiresAtRow))
    else if 1 > d.maxDepth then Rejected(MaxDepth)
    else PlanUnder(d.envelopes[envelopeId].grant, grant, envelopeId, 1, creator, ViaBreakGlass, now, newId)
  }

  // --- who may open an envelope --------------------------------------------------------------

  datatype Opener = NoIdentity | Nobody | Somebody(principal: Principal, held: set<string>)

  /** Control ids to the role each declares, or to none. */
  type Registry = map<string, Option<string>>

  predicate Resolves(registry: Registry, control: string) {
    control in registry && registry[control].Some? && registry[control].value != []
  }

  function RoleOf(registry: Registry, control: string): string
    requires Resolves(registry, control)
  {
    registry[control].value
  }

  function RolesFor(registry: Registry, controls: seq<string>): (roles: seq<RequiredRole>)
    requires forall i | 0 <= i < |controls| :: Resolves(registry, controls[i])
    ensures |roles| == |controls|
    ensures forall i | 0 <= i < |roles| :: roles[i] == RequiredRole(controls[i], RoleOf(registry, controls[i]))
  {
    seq(|controls|, i requires 0 <= i < |controls| => RequiredRole(controls[i], RoleOf(registry, controls[i])))
  }

  /** `_opener_for`: an unknown envelope is left for the plan to refuse. */
  function OpenerRefusal(d: Document, registry: Registry, envelopeId: string, opener: Opener): Option<Rejection> {
    if opener.NoIdentity? then Some(NoApproverIdentity)
    else if opener.Nobody? then Some(NoOpener)
    else if envelopeId !in d.envelopes then None
    else if exists i | 0 <= i < |d.envelopes[envelopeId].controls| ::
      !Resolves(registry, d.envelopes[envelopeId].controls[i])
    then Some(UnresolvedControls)
    else
      var required := RolesFor(registry, d.envelopes[envelopeId].controls);
      var missing := Unsatisfied(required, EntitledControls(required, opener.held));
      if missing.Some? then Some(OpenerUnentitled(missing.value)) else None
  }

  /** An envelope opens only for a resolved principal holding the role of every control it cites. */
  lemma OpenerHoldsEveryRole(d: Document, registry: Registry, envelopeId: string, opener: Opener)
    requires envelopeId in d.envelopes
    ensures OpenerRefusal(d, registry, envelopeId, opener).None?
       <==> (opener.Somebody? && HoldsEvery(registry, d.envelopes[envelopeId].controls, opener.held))
  {
    var controls := d.envelopes[envelopeId].controls;
    if forall i | 0 <= i < |controls| :: Resolves(registry, controls[i]) {
      if opener.Somebody? { RolesAreHeld(registry, controls, opener.held); }
    }
  }

  /** `_break_glass`: the opener is refused before the envelope is read for its bounds. */
  function PlanOpening(d: Document, registry: Registry, envelopeId: string, grant: BuiltGrant, opener: Opener, now: int,
                       newId: string): Plan
    requires ValidDocument(d) && Constructed(grant)
  {
    var refusal := OpenerRefusal(d, registry, envelopeId, opener);
    if refusal.Some? then Rejected(refusal.value)
    else PlanBreakGlass(d, envelopeId, grant, opener.principal, now, newId)
  }

  ghost predicate HoldsEvery(registry: Registry, controls: seq<string>, held: set<string>) {
    forall i | 0 <= i < |controls| :: Resolves(registry, controls[i]) && RoleOf(registry, controls[i]) in held
  }

  lemma RolesAreHeld(registry: Registry, controls: seq<string>, held: set<string>)
    requires forall i | 0 <= i < |controls| :: Resolves(registry, controls[i])
    ensures var required := RolesFor(registry, controls);
      Satisfied(required, held) <==> HoldsEvery(registry, controls, held)
  {
    var required := RolesFor(registry, controls);
    OneRoleAControlIsExact(required, held);
    assert (forall r | r in required :: r.role in held) ==> HoldsEvery(registry, controls, held) by {
      forall i | 0 <= i < |controls| ensures required[i] in required {}
    }
  }

  // --- what a plan stores --------------------------------------------------------------------

  /** The row of a plan: its parent, its id, and the grant as the store reads it back. */
  ghost predicate Stores(plan: Plan, parentId: string, grant: BuiltGrant, newId: string) {
    plan.Planned? ==>
      && plan.row.id == newId && plan.row.parentId == parentId && plan.row.revokedAt.None?
      && plan.row.grant == ReadBack(grant, newId)
      && (ReadsBack(grant) ==> ValidGrant(ReadBack(grant, newId).value))
  }

  lemma PlannedIsReadable(d: Document, rows: Rows, parentId: string, grant: BuiltGrant, creator: Principal, via: Via,
                          now: int, newId: string)
    requires ValidDocument(d) && ValidRows(rows) && Constructed(grant)
    ensures Stores(PlanDelegation(d, rows, parentId, grant, creator, via, now, newId), parentId, grant, newId)
  {
    if ReadsBack(grant) { ReadBackIsValid(grant, newId); }
  }

  lemma OpenedIsReadable(d: Document, registry: Registry, envelopeId: string, grant: BuiltGrant, opener: Opener,
                         now: int, newId: string)
    requires ValidDocument(d) && Constructed(grant)
    ensures Stores(PlanOpening(d, registry, envelopeId, grant, opener, now, newId), envelopeId, grant, newId)
  {
    if ReadsBack(grant) { ReadBackIsValid(grant, newId); }
  }

  // --- the writes ----------------------------------------------------------------------------

  datatype Event =
    | Created(id: string, parentId: string, depth: int, creator: Principal, via: Via)
    | RejectedBecause(rejection: Rejection, parentId: string)
    | Revoked(id: string)

  datatype Delegated = Done(row: Row) | Refused(rejection: Rejection) | AlreadyExists

  /** Refusals for a malformed call, and an error of Python's, leave no event; every other one leaves its reason. */
  predicate Recorded(rejection: Rejection) {
    && !rejection.IdChosen? && !rejection.NotComparable?
    && !rejection.NoApproverIdentity? && !rejection.NoOpener? && !rejection.UnresolvedControls?
  }

  class DelegationControl {
    const document: Document
    const registry: Registry
    var rows: Rows
    var order: seq<string>
    var events: seq<Event>

    ghost predicate Valid()
      reads this
    {
      && ValidDocument(document) && ValidRows(rows)
      && (forall id :: id in order <==> id in rows)
      && (forall i, j | 0 <= i < j < |order| :: order[i] != order[j])
    }

    constructor (document: Document, registry: Registry)
      requires ValidDocument(document)
      ensures Valid() && this.document == document && this.registry == registry
      ensures rows == map[] && events == []
    {
      this.document, this.registry, rows, order, events := document, registry, map[], [], [];
    }

    /** `put_delegation`: an id already stored is refused. */
    method Write(plan: Plan, parentId: string) returns (r: Delegated)
      requires Valid() && (plan.Planned? && plan.row.grant.Some? ==> ValidGrant(plan.row.grant.value))
      modifies this
      ensures Valid()
      ensures match plan
        case Rejected(rejection) =>
          && r == Delegated.Refused(rejection) && rows == old(rows) && order == old(order)
          && events == old(events) + if Recorded(rejection) then [RejectedBecause(rejection, parentId)] else []
        case Planned(row) =>
          if row.id in old(rows)
            then r == AlreadyExists && rows == old(rows) && order == old(order) && events == old(events)
          else && r == Done(row) && rows == old(rows)[row.id := row] && order == old(order) + [row.id]
               && events == old(events) + [Created(row.id, row.parentId, row.depth, row.createdBy, row.via)]
    {
      match plan {
        case Rejected(rejection) =>
          if Recorded(rejection) { events := events + [RejectedBecause(rejection, parentId)]; }
          r := Delegated.Refused(rejection);
        case Planned(row) =>
          if row.id in rows { return AlreadyExists; }
          rows := rows[row.id := row];
          order := order + [row.id];
          events := events + [Created(row.id, row.parentId, row.depth, row.createdBy, row.via)];
          r := Done(row);
      }
    }

    method Delegate(parentId: string, grant: BuiltGrant, creator: Principal, via: Via, now: int, newId: string)
      returns (r: Delegated)
      requires Valid() && Constructed(grant) && newId !in rows
      modifies this
      ensures Valid()
      ensures rows == Delegating(document, old(rows), parentId, grant, creator, via, now, newId)
      ensures match PlanDelegation(document, old(rows), parentId, grant, creator, via, now, newId)
        case Planned(row) => r == Done(row)
          && events == old(events) + [Created(newId, parentId, row.depth, creator, via)]
        case Rejected(rejection) =>
          && r == Delegated.Refused(rejection)
          && events == old(events) + if Recorded(rejection) then [RejectedBecause(rejection, parentId)] else []
    {
      PlannedIsReadable(document, rows, parentId, grant, creator, via, now, newId);
      r := Write(PlanDelegation(document, rows, parentId, grant, creator, via, now, newId), parentId);
    }

    method BreakGlass(envelopeId: string, grant: BuiltGrant, opener: Opener, now: int, newId: string)
      returns (r: Delegated)
      requires Valid() && Constructed(grant) && newId !in rows
      modifies this
      ensures Valid()
      ensures rows == Opening(document, registry, old(rows), envelopeId, grant, opener, now, newId)
      ensures match PlanOpening(document, registry, envelopeId, grant, opener, now, newId)
        case Planned(row) =>
          && opener.Somebody? && r == Done(row) && row.parentId == envelopeId && row.depth == 1
          && events == old(events) + [Created(newId, envelopeId, 1, opener.principal, ViaBreakGlass)]
        case Rejected(rejection) =>
          && r == Delegated.Refused(rejection) && rows == old(rows)
          && events == old(events) + if Recorded(rejection) then [RejectedBecause(rejection, envelopeId)] else []
    {
      OpenedIsReadable(document, registry, envelopeId, grant, opener, now, newId);
      r := Write(PlanOpening(document, registry, envelopeId, grant, opener, now, newId), envelopeId);
    }

    /** One write cuts the chain; a second revocation writes and records nothing. */
    method Revoke(id: string, now: int) returns (found: bool)
      requires Valid()
      modifies this
      ensures Valid() && order == old(order)
      ensures rows == Revoking(old(rows), id, now)
      ensures found <==> id in rows && rows[id].grant.Some?
      ensures events == old(events) + if rows != old(rows) then [Revoked(id)] else []
    {
      if id !in rows || rows[id].grant.None? { return false; }
      found := true;
      if rows[id].revokedAt.None? {
        var revoked := rows[id].(revokedAt := Some(now));
        rows := rows[id := revoked];
        events := events + [Revoked(id)];
      }
    }
  }

  // --- the same writes on values ---------------------------------------------------------------

  function Stored(rows: Rows, plan: Plan): Rows {
    if plan.Planned? then rows[plan.row.id := plan.row] else rows
  }

  function Delegating(d: Document, rows: Rows, parentId: string, grant: BuiltGrant, creator: Principal, via: Via,
                      now: int, newId: string): Rows
    requires ValidDocument(d) && ValidRows(rows) && Constructed(grant)
  {
    Stored(rows, PlanDelegation(d, rows, parentId, grant, creator, via, now, newId))
  }

  function Opening(d: Document, registry: Registry, rows: Rows, envelopeId: string, grant: BuiltGrant, opener: Opener,
                   now: int, newId: string): Rows
    requires ValidDocument(d) && Constructed(grant)
  {
    Stored(rows, PlanOpening(d, registry, envelopeId, grant, opener, now, newId))
  }

  function Revoking(rows: Rows, id: string, now: int): Rows {
    if id in rows && rows[id].grant.Some? && rows[id].revokedAt.None? then rows[id := rows[id].(revokedAt := Some(now))]
    else rows
  }
}
