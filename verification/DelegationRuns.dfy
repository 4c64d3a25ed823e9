/**
  Every run of delegate, break-glass, revoke and clock steps under one document: the stored rows
  form a forest rooted in the document, a new delegation that reads back passes the re-check at the
  instant it is made, and a revocation holds for ever and for everything beneath it.
 */
module DelegationRuns {
  import opened Options
  import opened Actions
  import opened BuiltGrants
  import opened Grants
  import opened Chains
  import opened Delegations
  import opened Patterns
  import Evaluation
  import EvaluationLaws
  import Conditions
  import Values

  datatype State = State(rows: Rows, now: int)

  datatype Step =
    | Tick(to: int)
    | Delegate(parentId: string, grant: BuiltGrant, creator: Principal, via: Via, newId: string)
    | BreakGlass(envelopeId: string, grant: BuiltGrant, opener: Opener, newId: string)
    | Revoke(id: string)

  /** A minted id names nothing yet. */
  predicate Fresh(d: Document, rows: Rows, id: string) {
    id !in rows && id !in d.grants && id !in d.envelopes
  }

  ghost predicate Allowed(d: Document, s: State, step: Step) {
    match step
    case Tick(to) => s.now <= to
    case Delegate(_, grant, _, _, newId) => Constructed(grant) && Fresh(d, s.rows, newId)
    case BreakGlass(_, grant, _, newId) => Constructed(grant) && Fresh(d, s.rows, newId)
    case Revoke(_) => true
  }

  ghost function Next(d: Document, registry: Registry, s: State, step: Step): State
    requires ValidDocument(d) && ValidRows(s.rows) && Allowed(d, s, step)
  {
    match step
    case Tick(to) => s.(now := to)
    case Delegate(parentId, grant, creator, via, newId) =>
      s.(rows := Delegating(d, s.rows, parentId, grant, creator, via, s.now, newId))
    case BreakGlass(envelopeId, grant, opener, newId) =>
      s.(rows := Opening(d, registry, s.rows, envelopeId, grant, opener, s.now, newId))
    case Revoke(id) => s.(rows := Revoking(s.rows, id, s.now))
  }

  // --- what every reachable store keeps -----------------------------------------------------

  /** One row and the parent it names: the recorded depth is one more than the parent's, which can be read. */
  predicate Placed(d: Document, rows: Rows, id: string)
    requires id in rows
  {
    var row := rows[id];
    && row.id == id && row.id !in d.grants && row.id !in d.envelopes
    && 1 <= row.depth <= d.maxDepth
    && if row.parentId in d.grants || row.parentId in d.envelopes then row.depth == 1
       else row.parentId in rows && rows[row.parentId].grant.Some? && rows[row.parentId].depth == row.depth - 1
  }

  /** The parent may be delegated beneath, and the edge is an attenuation where the row can be read. */
  ghost predicate Attenuated(d: Document, rows: Rows, id: string)
    requires id in rows && Placed(d, rows, id)
  {
    var row := rows[id];
    if row.parentId in d.grants then
      d.grants[row.parentId].delegable && Narrows(d.grants[row.parentId], row)
    else if row.parentId in d.envelopes then
      && Narrows(d.envelopes[row.parentId].grant, row)
      && (row.grant.Some? ==>
           && row.grant.value.expiresAt.Some?
           && row.grant.value.expiresAt.value <= row.createdAt + d.envelopes[row.parentId].maxTtl)
    else
      rows[row.parentId].grant.value.delegable && Narrows(rows[row.parentId].grant.value, row)
  }

  ghost predicate Narrows(parent: Grant, row: Row) {
    row.grant.Some? ==> Contained(parent, row.grant.value)
  }

  predicate AllPlaced(d: Document, rows: Rows) {
    forall id {:trigger Placed(d, rows, id)} | id in rows :: Placed(d, rows, id)
  }

  ghost predicate Forest(d: Document, rows: Rows) {
    && AllPlaced(d, rows) && ValidRows(rows)
    && forall id {:trigger Attenuated(d, rows, id)} | id in rows :: Attenuated(d, rows, id)
  }

  // --- the walk in a forest -------------------------------------------------------------------

  /** A path up the forest: stored rows, each the child of the next, depth falling by one. */
  ghost predicate Path(d: Document, rows: Rows, nodes: seq<Row>) {
    && |nodes| >= 1
    && (forall i {:trigger Stands(rows, nodes, i)} | 0 <= i < |nodes| :: Stands(rows, nodes, i))
    && (forall i {:trigger Linked(d, nodes, i)} | 0 <= i < |nodes| - 1 :: Linked(d, nodes, i))
  }

  ghost predicate Stands(rows: Rows, nodes: seq<Row>, i: int)
    requires 0 <= i < |nodes|
  {
    && nodes[i].id in rows && nodes[i] == rows[nodes[i].id]
    && nodes[i].depth == nodes[|nodes| - 1].depth + |nodes| - 1 - i
  }

  ghost predicate Linked(d: Document, nodes: seq<Row>, i: int)
    requires 0 <= i < |nodes| - 1
  {
    nodes[i].parentId == nodes[i + 1].id && nodes[i].parentId !in d.grants && nodes[i].parentId !in d.envelopes
  }

  lemma PathExtends(d: Document, rows: Rows, nodes: seq<Row>)
    requires AllPlaced(d, rows) && Path(d, rows, nodes)
    requires var p := nodes[|nodes| - 1].parentId; p !in d.grants && p !in d.envelopes
    ensures var p := nodes[|nodes| - 1].parentId;
      && p in rows && Path(d, rows, nodes + [rows[p]])
      && (forall i | 0 <= i < |nodes| :: nodes[i].id != p) && |nodes| < d.maxDepth
  {
    var n := |nodes|;
    var last := nodes[n - 1];
    assert Stands(rows, nodes, n - 1) && Stands(rows, nodes, 0);
    assert Placed(d, rows, last.id) && Placed(d, rows, nodes[0].id);
    var above := rows[last.parentId];
    assert Placed(d, rows, last.parentId);
    var more := nodes + [above];
    forall i | 0 <= i < n ensures nodes[i].id != last.parentId { assert Stands(rows, nodes, i); }
    forall i | 0 <= i < |more| ensures Stands(rows, more, i) {
      if i < n { assert Stands(rows, nodes, i); }
    }
    forall i | 0 <= i < |more| - 1 ensures Linked(d, more, i) {
      if i < n - 1 { assert Linked(d, nodes, i); }
    }
  }

  /** The walk from any path reaches the document in as many steps as the recorded depth says. */
  lemma {:induction false} WalkReachesTheDocument(d: Document, rows: Rows, nodes: seq<Row>)
    requires AllPlaced(d, rows) && Path(d, rows, nodes)
    ensures var w := WalkFrom(d, rows, nodes);
      w.end.Rooted? && Path(d, rows, w.nodes) && w.nodes[|w.nodes| - 1].depth == 1
      && w.end.rootId == w.nodes[|w.nodes| - 1].parentId
      && |w.nodes| == |nodes| + nodes[|nodes| - 1].depth - 1
    decreases if d.maxDepth > |nodes| then d.maxDepth - |nodes| else 0
  {
    var last := nodes[|nodes| - 1];
    assert Stands(rows, nodes, |nodes| - 1);
    assert Placed(d, rows, last.id);
    if last.parentId !in d.grants && last.parentId !in d.envelopes {
      PathExtends(d, rows, nodes);
      assert Placed(d, rows, last.parentId);
      WalkReachesTheDocument(d, rows, nodes + [rows[last.parentId]]);
    }
  }

  /**
    Parent links form a forest rooted in the document: from every stored delegation the walk ends
    at a document root, and the depth it counts is the depth recorded, within the bound.
   */
  lemma EveryRowIsRooted(d: Document, rows: Rows, id: string)
    requires AllPlaced(d, rows) && id in rows
    ensures var w := WalkFrom(d, rows, [rows[id]]);
      w.end.Rooted? && |w.nodes| == rows[id].depth <= d.maxDepth && Path(d, rows, w.nodes)
      && w.end.rootId == w.nodes[|w.nodes| - 1].parentId
  {
    assert Placed(d, rows, id);
    assert Stands(rows, [rows[id]], 0);
    WalkReachesTheDocument(d, rows, [rows[id]]);
  }

  /** Every edge of the chain a walk from a readable row finds is contained, from a parent that may be delegated. */
  lemma EveryChainAttenuates(d: Document, rows: Rows, id: string)
    requires ValidDocument(d) && Forest(d, rows) && id in rows && rows[id].grant.Some?
    ensures var w := WalkFrom(d, rows, [rows[id]]);
      GoodWalk(w) && LinksContained(Chain(w)) && AncestorsDelegable(w) && !ExceedsTtl(d, w)
  {
    var w := WalkFrom(d, rows, [rows[id]]);
    EveryRowIsRooted(d, rows, id);
    assert Placed(d, rows, id);
    WalkKeepsReadable(d, rows, [rows[id]]);
    RootIsDocuments(d, rows, [rows[id]]);
    var links := Chain(w);
    forall i | 0 <= i < |links| - 1
      ensures Contained(links[i].grant, links[i + 1].grant)
      ensures (i == 0 && w.end.isEnvelope) || links[i].grant.delegable
    {
      if i == 0 { RootEdge(d, rows, w); } else { InnerEdge(d, rows, w, i); }
    }
    RootEdge(d, rows, w);
  }

  lemma RootEdge(d: Document, rows: Rows, w: Walk)
    requires ValidDocument(d) && Forest(d, rows) && GoodWalk(w) && Path(d, rows, w.nodes)
    requires w.end.Rooted? && w.end.rootId == w.nodes[|w.nodes| - 1].parentId
    requires (w.end.rootId in d.grants && w.end.root == d.grants[w.end.rootId] && !w.end.isEnvelope)
          || (w.end.rootId in d.envelopes && w.end.root == d.envelopes[w.end.rootId].grant && w.end.isEnvelope)
    ensures Contained(Chain(w)[0].grant, Chain(w)[1].grant) && !ExceedsTtl(d, w)
    ensures w.end.isEnvelope || Chain(w)[0].grant.delegable
  {
    var opening := w.nodes[|w.nodes| - 1];
    assert Stands(rows, w.nodes, |w.nodes| - 1);
    assert Attenuated(d, rows, opening.id);
    assert Chain(w)[0].grant == w.end.root && Chain(w)[1].grant == opening.grant.value;
  }

  lemma InnerEdge(d: Document, rows: Rows, w: Walk, i: nat)
    requires ValidDocument(d) && Forest(d, rows) && GoodWalk(w) && Path(d, rows, w.nodes)
    requires w.end.Rooted? && 0 < i < |Chain(w)| - 1
    ensures Contained(Chain(w)[i].grant, Chain(w)[i + 1].grant) && Chain(w)[i].grant.delegable
  {
    var n := |w.nodes|;
    var child, parent := w.nodes[n - 1 - i], w.nodes[n - i];
    assert Linked(d, w.nodes, n - 1 - i) && Stands(rows, w.nodes, n - 1 - i) && Stands(rows, w.nodes, n - i);
    assert Attenuated(d, rows, child.id);
    assert Chain(w)[i].grant == parent.grant.value && Chain(w)[i + 1].grant == child.grant.value;
  }

  // --- every step keeps the forest ------------------------------------------------------------

  /** What fits under a parent is, where it reads back, contained in it. */
  lemma FitIsContained(parent: Grant, grant: BuiltGrant, id: string)
    requires ValidGrant(parent) && Constructed(grant) && FitUnder(parent, grant).Fits? && ReadsBack(grant)
    ensures Contained(parent, ReadBack(grant, id).value) && ReadBack(grant, id).value.expiresAt == grant.expiresAt
  {
    CreationDecidesContainment(parent, grant, id);
  }

  /** The row fits the store it was planned against. */
  ghost predicate FitsIn(d: Document, rows: Rows, row: Row, grant: BuiltGrant, newId: string) {
    && row.id == newId && row.grant == ReadBack(grant, newId) && row.revokedAt.None?
    && (row.grant.Some? ==> ValidGrant(row.grant.value))
    && Placed(d, rows[newId := row], newId) && Attenuated(d, rows[newId := row], newId)
  }

  /** A planned delegation fits the store it was planned against. */
  lemma PlannedFits(d: Document, rows: Rows, parentId: string, grant: BuiltGrant, creator: Principal, via: Via,
                    now: int, newId: string)
    requires ValidDocument(d) && Forest(d, rows) && Constructed(grant) && Fresh(d, rows, newId)
    requires PlanDelegation(d, rows, parentId, grant, creator, via, now, newId).Planned?
    ensures FitsIn(d, rows, PlanDelegation(d, rows, parentId, grant, creator, via, now, newId).row, grant, newId)
  {
    var parent := ParentForCreation(d, rows, parentId, now);
    ParentIsValid(d, rows, parentId, now);
    if ReadsBack(grant) { FitIsContained(parent.grant, grant, newId); }
    if parentId !in d.grants { EveryRowIsRooted(d, rows, parentId); }
  }

  lemma OpenedFits(d: Document, rows: Rows, envelopeId: string, grant: BuiltGrant, creator: Principal, now: int,
                   newId: string)
    requires ValidDocument(d) && Forest(d, rows) && Constructed(grant) && Fresh(d, rows, newId)
    requires PlanBreakGlass(d, envelopeId, grant, creator, now, newId).Planned?
    ensures FitsIn(d, rows, PlanBreakGlass(d, envelopeId, grant, creator, now, newId).row, grant, newId)
  {
    if ReadsBack(grant) { FitIsContained(d.envelopes[envelopeId].grant, grant, newId); }
  }

  lemma StoringKeepsTheEdge(d: Document, rows: Rows, row: Row, id: string)
    requires Fresh(d, rows, row.id) && id in rows && Placed(d, rows, id) && Attenuated(d, rows, id)
    ensures Placed(d, rows[row.id := row], id) && Attenuated(d, rows[row.id := row], id)
  {}

  lemma StoringKeepsTheForest(d: Document, rows: Rows, row: Row)
    requires ValidDocument(d) && Forest(d, rows) && Fresh(d, rows, row.id)
    requires row.grant.Some? ==> ValidGrant(row.grant.value)
    requires Placed(d, rows[row.id := row], row.id) && Attenuated(d, rows[row.id := row], row.id)
    ensures Forest(d, rows[row.id := row])
  {
    var more := rows[row.id := row];
    forall id | id in more ensures Placed(d, more, id) && Attenuated(d, more, id) {
      if id != row.id { StoringKeepsTheEdge(d, rows, row, id); }
    }
  }

  lemma RevokingKeepsTheEdge(d: Document, rows: Rows, id: string, now: int, k: string)
    requires k in rows && Placed(d, rows, k) && Attenuated(d, rows, k)
    ensures Placed(d, Revoking(rows, id, now), k) && Attenuated(d, Revoking(rows, id, now), k)
  {}

  lemma RevokingKeepsTheForest(d: Document, rows: Rows, id: string, now: int)
    requires ValidDocument(d) && Forest(d, rows)
    ensures Forest(d, Revoking(rows, id, now))
  {
    var after := Revoking(rows, id, now);
    forall k | k in after ensures Placed(d, after, k) && Attenuated(d, after, k) {
      RevokingKeepsTheEdge(d, rows, id, now, k);
    }
  }

  lemma StepKeepsTheForest(d: Document, registry: Registry, s: State, step: Step)
    requires ValidDocument(d) && Forest(d, s.rows) && Allowed(d, s, step)
    ensures Forest(d, Next(d, registry, s, step).rows)
  {
    match step
    case Tick(_) =>
    case Delegate(parentId, grant, creator, via, newId) =>
      var plan := PlanDelegation(d, s.rows, parentId, grant, creator, via, s.now, newId);
      if plan.Planned? {
        PlannedFits(d, s.rows, parentId, grant, creator, via, s.now, newId);
        StoringKeepsTheForest(d, s.rows, plan.row);
      }
    case BreakGlass(envelopeId, grant, opener, newId) =>
      if OpenerRefusal(d, registry, envelopeId, opener).None? {
        var plan := PlanBreakGlass(d, envelopeId, grant, opener.principal, s.now, newId);
        if plan.Planned? {
          OpenedFits(d, s.rows, envelopeId, grant, opener.principal, s.now, newId);
          StoringKeepsTheForest(d, s.rows, plan.row);
        }
      }
    case Revoke(id) => RevokingKeepsTheForest(d, s.rows, id, s.now);
  }

  // --- runs -----------------------------------------------------------------------------------

  ghost predicate Run(d: Document, registry: Registry, s: State, steps: seq<Step>)
    requires ValidDocument(d) && Forest(d, s.rows)
    decreases steps
  {
    steps == [] || (Allowed(d, s, steps[0]) && (
      StepKeepsTheForest(d, registry, s, steps[0]);
      Run(d, registry, Next(d, registry, s, steps[0]), steps[1..])))
  }

  ghost function After(d: Document, registry: Registry, s: State, steps: seq<Step>): State
    requires ValidDocument(d) && Forest(d, s.rows) && Run(d, registry, s, steps)
    decreases steps
  {
    if steps == [] then s else
    StepKeepsTheForest(d, registry, s, steps[0]);
    After(d, registry, Next(d, registry, s, steps[0]), steps[1..])
  }

  /** Whatever forest a run starts from, it ends in one. */
  lemma {:induction false} RunKeepsTheForest(d: Document, registry: Registry, s: State, steps: seq<Step>)
    requires ValidDocument(d) && Forest(d, s.rows) && Run(d, registry, s, steps)
    ensures Forest(d, After(d, registry, s, steps).rows)
    decreases steps
  {
    if steps != [] {
      StepKeepsTheForest(d, registry, s, steps[0]);
      RunKeepsTheForest(d, registry, Next(d, registry, s, steps[0]), steps[1..]);
    }
  }

  /**
    Every store any run reaches from the empty one is a forest rooted in the document: from each row
    the walk ends at a document root, at the depth recorded, and where the row can be read each edge
    of its chain is contained, from a parent that may be delegated.
   */
  lemma ReachableStoresAreForests(d: Document, registry: Registry, start: int, steps: seq<Step>)
    requires ValidDocument(d) && Run(d, registry, State(map[], start), steps)
    ensures var rows := After(d, registry, State(map[], start), steps).rows;
      Forest(d, rows) && forall id | id in rows :: Descends(d, rows, id)
  {
    RunKeepsTheForest(d, registry, State(map[], start), steps);
    var rows := After(d, registry, State(map[], start), steps).rows;
    forall id | id in rows ensures Descends(d, rows, id) {
      EveryRowIsRooted(d, rows, id);
      if rows[id].grant.Some? { EveryChainAttenuates(d, rows, id); }
    }
  }

  ghost predicate Descends(d: Document, rows: Rows, id: string)
    requires id in rows
  {
    var w := WalkFrom(d, rows, [rows[id]]);
    && w.end.Rooted? && |w.nodes| == rows[id].depth <= d.maxDepth
    && (rows[id].grant.Some? ==> GoodWalk(w) && LinksContained(Chain(w)) && AncestorsDelegable(w) && !ExceedsTtl(d, w))
  }

  // --- a new delegation passes at once ---------------------------------------------------------

  /** The walk from a new child is the child and then its parent's own walk. */
  lemma {:induction false} WalkOfAChild(d: Document, rows: Rows, row: Row, nodes: seq<Row>)
    requires AllPlaced(d, rows) && Path(d, rows, nodes) && row.id !in rows
    requires |nodes| + nodes[|nodes| - 1].depth <= d.maxDepth
    ensures var w := WalkFrom(d, rows, nodes);
      WalkFrom(d, rows[row.id := row], [row] + nodes) == Walk([row] + w.nodes, w.end)
    decreases if d.maxDepth > |nodes| then d.maxDepth - |nodes| else 0
  {
    var last := nodes[|nodes| - 1];
    var p := last.parentId;
    assert Stands(rows, nodes, |nodes| - 1);
    assert Placed(d, rows, last.id);
    assert ([row] + nodes)[|nodes|] == last;
    if p !in d.grants && p !in d.envelopes {
      PathExtends(d, rows, nodes);
      assert Placed(d, rows, p);
      WalkOfAChild(d, rows, row, nodes + [rows[p]]);
      assert [row] + (nodes + [rows[p]]) == ([row] + nodes) + [rows[p]];
    }
  }

  /** What creation read of a parent delegation and of the chain above it. */
  lemma ParentWasRead(d: Document, rows: Rows, parentId: string, now: int)
    requires ValidDocument(d) && ValidRows(rows) && parentId !in d.grants
    requires ParentForCreation(d, rows, parentId, now).UsableParent?
    ensures parentId !in d.envelopes && parentId in rows && rows[parentId].revokedAt.None? && rows[parentId].grant.Some?
    ensures !IsExpired(rows[parentId].grant.value, now)
    ensures var w := WalkFrom(d, rows, [rows[parentId]]);
      GoodWalk(w) && !AnyRevoked(w.nodes[1..]) && FirstExpired(Ancestors(w), now).None? && w.nodes[0] == rows[parentId]
  {
    WalkKeepsReadable(d, rows, [rows[parentId]]);
    var w := WalkFrom(d, rows, [rows[parentId]]);
    assert w.nodes[0] == w.nodes[..1][0];
  }

  /**
    In a reachable store a delegation may be delegated beneath exactly when it can be read, is
    delegable, has not expired, and its own chain passes the re-check at that instant.
   */
  lemma ParentIsUsableExactlyWhen(d: Document, rows: Rows, parentId: string, now: int)
    requires ValidDocument(d) && Forest(d, rows) && parentId in rows
    ensures rows[parentId].grant.Some? ==> ValidGrant(rows[parentId].grant.value)
    ensures ParentForCreation(d, rows, parentId, now).UsableParent? <==>
      (rows[parentId].grant.Some? && rows[parentId].grant.value.delegable && !IsExpired(rows[parentId].grant.value, now)
       && CheckPasses(CheckChain(d, rows, rows[parentId], now)))
  {
    assert Placed(d, rows, parentId);
    if rows[parentId].grant.Some? { ReadableParentIsUsableExactlyWhen(d, rows, parentId, now); }
  }

  lemma ReadableParentIsUsableExactlyWhen(d: Document, rows: Rows, parentId: string, now: int)
    requires ValidDocument(d) && Forest(d, rows) && parentId in rows && rows[parentId].grant.Some?
    ensures ParentForCreation(d, rows, parentId, now).UsableParent? <==>
      (rows[parentId].grant.value.delegable && !IsExpired(rows[parentId].grant.value, now)
       && CheckPasses(CheckChain(d, rows, rows[parentId], now)))
  {
    assert Placed(d, rows, parentId);
    EveryRowIsRooted(d, rows, parentId);
    EveryChainAttenuates(d, rows, parentId);
    var w := WalkFrom(d, rows, [rows[parentId]]);
    assert w.nodes[0] == w.nodes[..1][0] == rows[parentId];
    ChecksExactlyStanding(d, w, now);
    ExpiryRuleFinds(w, now);
    DelegableRuleFinds(w);
    RevokedAbove(w.nodes);
  }

  lemma RevokedAbove(nodes: seq<Row>)
    requires |nodes| >= 1
    ensures (forall i | 0 <= i < |nodes| :: nodes[i].revokedAt.None?) <==>
      nodes[0].revokedAt.None? && !AnyRevoked(nodes[1..])
  {
    if !AnyRevoked(nodes[1..]) && nodes[0].revokedAt.None? {
      forall i | 0 <= i < |nodes| ensures nodes[i].revokedAt.None? {
        if i > 0 { assert nodes[1..][i - 1] == nodes[i]; }
      }
    }
  }

  /**
    A delegation is planned exactly when every creation rule holds, and then beneath that parent. For
    a grant that reads back the last of them is containment.
   */
  lemma DelegationIsPlannedExactlyWhen(d: Document, rows: Rows, parentId: string, grant: BuiltGrant, creator: Principal,
                                       via: Via, now: int, newId: string)
    requires ValidDocument(d) && ValidRows(rows) && Constructed(grant)
    ensures var parent := ParentForCreation(d, rows, parentId, now);
      && (parent.UsableParent? ==> ValidGrant(parent.grant))
      && (PlanDelegation(d, rows, parentId, grant, creator, via, now, newId).Planned? <==>
           (&& !CredentialExpired(creator, now) && grant.id == [] && parent.UsableParent?
            && SubjectMatches(parent.grant.subject, creator) && parent.depth < d.maxDepth
              && FitUnder(parent.grant, grant).Fits?))
      && (parent.UsableParent? && ReadsBack(grant) ==>
           (FitUnder(parent.grant, grant).Fits? <==> Contained(parent.grant, ReadBack(grant, newId).value)))
  {
    ParentIsValid(d, rows, parentId, now);
    var parent := ParentForCreation(d, rows, parentId, now);
    if parent.UsableParent? && ReadsBack(grant) { CreationDecidesContainment(parent.grant, grant, newId); }
  }

  /** Beneath a delegation: the parent's chain was read at creation, so the child's chain stands. */
  lemma ChildOfARowStands(d: Document, rows: Rows, row: Row, now: int)
    requires ValidDocument(d) && Forest(d, rows) && row.id !in rows && Forest(d, rows[row.id := row])
    requires row.grant.Some? && row.revokedAt.None? && row.parentId !in d.grants
    requires ParentForCreation(d, rows, row.parentId, now).UsableParent?
    ensures ValidGrant(row.grant.value)
    ensures CheckPasses(CheckChain(d, rows[row.id := row], row, now))
  {
    var more := rows[row.id := row];
    ParentWasRead(d, rows, row.parentId, now);
    EveryRowIsRooted(d, more, row.id);
    EveryChainAttenuates(d, more, row.id);
    assert Placed(d, more, row.id);
    ChildWalk(d, rows, row);
    EveryRowIsRooted(d, rows, row.parentId);
    ExtendedWalkStands(WalkFrom(d, rows, [rows[row.parentId]]), WalkFrom(d, more, [row]), row, now);
    ChecksExactlyStanding(d, WalkFrom(d, more, [row]), now);
  }

  lemma ChildWalk(d: Document, rows: Rows, row: Row)
    requires AllPlaced(d, rows) && row.id !in rows && AllPlaced(d, rows[row.id := row])
    requires row.parentId !in d.grants && row.parentId !in d.envelopes && row.parentId in rows
    ensures var w := WalkFrom(d, rows, [rows[row.parentId]]);
      WalkFrom(d, rows[row.id := row], [row]) == Walk([row] + w.nodes, w.end)
  {
    var more, parent := rows[row.id := row], rows[row.parentId];
    assert Placed(d, more, row.id) && Placed(d, rows, row.parentId);
    assert Stands(rows, [parent], 0);
    WalkOfAChild(d, rows, row, [parent]);
    assert [row] + [parent] == [row, parent];
  }

  lemma ExtendedWalkStands(w: Walk, above: Walk, row: Row, now: int)
    requires GoodWalk(w) && GoodWalk(above) && w.end.Rooted? && above == Walk([row] + w.nodes, w.end)
    requires row.revokedAt.None? && w.nodes[0].revokedAt.None? && !AnyRevoked(w.nodes[1..])
    requires FirstExpired(Ancestors(w), now).None? && !IsExpired(w.nodes[0].grant.value, now)
    ensures AncestorsUnexpired(above, now)
    ensures forall i | 0 <= i < |above.nodes| :: above.nodes[i].revokedAt.None?
  {
    FirstExpiredFinds(Ancestors(w), now);
    var links, more := Chain(w), Chain(above);
    assert forall i | 0 <= i < |links| :: more[i] == links[i];
    forall i | 0 <= i < |more| - 1 ensures !IsExpired(more[i].grant, now) {
      if i < |links| - 1 { assert Ancestors(w)[i] == links[i]; }
    }
    forall i | 0 <= i < |above.nodes| ensures above.nodes[i].revokedAt.None? {
      if i > 1 { assert w.nodes[1..][i - 2] == above.nodes[i]; }
    }
  }

  /** Beneath a root: the chain is the root and the child, so it stands exactly while the root does. */
  lemma ChildOfARootStands(d: Document, rows: Rows, row: Row, now: int)
    requires ValidDocument(d) && row.id in rows && rows[row.id] == row && Forest(d, rows) && row.revokedAt.None?
    requires row.grant.Some? && (row.parentId in d.grants || row.parentId in d.envelopes)
    ensures ValidGrant(row.grant.value)
    ensures var root := if row.parentId in d.grants then d.grants[row.parentId] else d.envelopes[row.parentId].grant;
      CheckPasses(CheckChain(d, rows, row, now)) <==> !IsExpired(root, now)
  {
    assert Placed(d, rows, row.id);
    EveryRowIsRooted(d, rows, row.id);
    EveryChainAttenuates(d, rows, row.id);
    var w := WalkFrom(d, rows, [row]);
    assert w.nodes == [row];
    assert Chain(w)[0] == Link(w.end.rootId, w.end.root);
    ChecksExactlyStanding(d, w, now);
  }

  /** The stored row can be read, and its chain passes the re-check at this instant. */
  ghost predicate ReadAndPasses(d: Document, rows: Rows, id: string, now: int)
    requires ValidDocument(d) && ValidRows(rows)
  {
    id in rows && rows[id].grant.Some? && CheckPasses(CheckChain(d, rows, rows[id], now))
  }

  /**
    Whatever `delegate` creates can be read and passes the re-check at the instant of creation exactly
    when the grant it was given reads back.
   */
  lemma DelegatingPassesTheRecheck(d: Document, rows: Rows, parentId: string, grant: BuiltGrant, creator: Principal,
                                   via: Via, now: int, newId: string)
    requires ValidDocument(d) && Forest(d, rows) && Constructed(grant) && Fresh(d, rows, newId)
    requires PlanDelegation(d, rows, parentId, grant, creator, via, now, newId).Planned?
    ensures var after := Delegating(d, rows, parentId, grant, creator, via, now, newId);
      && newId in after && Forest(d, after)
      && (ReadAndPasses(d, after, newId, now) <==> ReadsBack(grant))
  {
    var row := PlanDelegation(d, rows, parentId, grant, creator, via, now, newId).row;
    PlannedFits(d, rows, parentId, grant, creator, via, now, newId);
    PlannedUnder(d, rows, parentId, grant, creator, via, now, newId);
    StoringKeepsTheForest(d, rows, row);
    if ReadsBack(grant) { NewRowStands(d, rows, row, now); }
  }

  lemma PlannedUnder(d: Document, rows: Rows, parentId: string, grant: BuiltGrant, creator: Principal, via: Via,
                     now: int, newId: string)
    requires ValidDocument(d) && ValidRows(rows) && Constructed(grant)
    requires PlanDelegation(d, rows, parentId, grant, creator, via, now, newId).Planned?
    ensures PlanDelegation(d, rows, parentId, grant, creator, via, now, newId).row.parentId == parentId
    ensures ParentForCreation(d, rows, parentId, now).UsableParent?
  {}

  lemma NewRowStands(d: Document, rows: Rows, row: Row, now: int)
    requires ValidDocument(d) && Forest(d, rows) && row.id !in rows && Forest(d, rows[row.id := row])
    requires row.grant.Some? && row.revokedAt.None? && ParentForCreation(d, rows, row.parentId, now).UsableParent?
    ensures ValidGrant(row.grant.value)
    ensures CheckPasses(CheckChain(d, rows[row.id := row], row, now))
  {
    if row.parentId in d.grants { ChildOfARootStands(d, rows[row.id := row], row, now); }
    else { ChildOfARowStands(d, rows, row, now); }
  }

  /**
    Whatever `break_glass` opens can be read and passes the re-check at that instant exactly when the
    grant reads back and the envelope itself has not expired: opening reads neither.
   */
  lemma OpeningPassesTheRecheck(d: Document, rows: Rows, envelopeId: string, grant: BuiltGrant, creator: Principal,
                                now: int, newId: string)
    requires ValidDocument(d) && Forest(d, rows) && Constructed(grant) && Fresh(d, rows, newId)
    requires PlanBreakGlass(d, envelopeId, grant, creator, now, newId).Planned?
    ensures var after := rows[newId := PlanBreakGlass(d, envelopeId, grant, creator, now, newId).row];
      && Forest(d, after)
      && (ReadAndPasses(d, after, newId, now) <==> ReadsBack(grant) && !IsExpired(d.envelopes[envelopeId].grant, now))
  {
    var row := PlanBreakGlass(d, envelopeId, grant, creator, now, newId).row;
    OpenedFits(d, rows, envelopeId, grant, creator, now, newId);
    StoringKeepsTheForest(d, rows, row);
    if ReadsBack(grant) { ChildOfARootStands(d, rows[newId := row], row, now); }
  }

  // --- a row that cannot be read ------------------------------------------------------------------

  /** Every evaluation that presents no hop is refused as unreadable, whatever it asks and however the store is read. */
  ghost predicate NobodyPasses(d: Document, rows: Rows)
    requires ValidDocument(d) && ValidRows(rows)
  {
    forall order, a, now, task | Evaluation.Enumerates(order, rows) ::
      var r := Evaluation.Decision(d, rows, order, a, now, task, None);
      !r.passed && r.reason.AuthorityUnreadable?
  }

  lemma UnreadableRefusesEveryone(d: Document, rows: Rows, id: string)
    requires ValidDocument(d) && ValidRows(rows) && id in rows && rows[id].grant.None?
    ensures NobodyPasses(d, rows)
  {
    forall order, a, now, task | Evaluation.Enumerates(order, rows)
      ensures var r := Evaluation.Decision(d, rows, order, a, now, task, None);
        !r.passed && r.reason.AuthorityUnreadable?
    {
      EvaluationLaws.UnreadableRowRefusesEveryone(d, rows, order, a, now, task);
    }
  }

  lemma StepKeepsTheUnreadable(d: Document, registry: Registry, s: State, step: Step, id: string)
    requires ValidDocument(d) && ValidRows(s.rows) && Allowed(d, s, step) && id in s.rows && s.rows[id].grant.None?
    ensures var t := Next(d, registry, s, step); id in t.rows && t.rows[id] == s.rows[id]
  {
    match step
    case Delegate(parentId, grant, creator, via, newId) =>
      PlannedIsReadable(d, s.rows, parentId, grant, creator, via, s.now, newId);
    case BreakGlass(envelopeId, grant, opener, newId) =>
      OpenedIsReadable(d, registry, envelopeId, grant, opener, s.now, newId);
    case _ =>
  }

  /**
    A row that cannot be read stays so for ever: no step changes it, revocation included, so in every
    later state of every run nobody who presents no hop passes on anything.
   */
  lemma {:induction false} UnreadableIsForEver(d: Document, registry: Registry, s: State, steps: seq<Step>, id: string)
    requires ValidDocument(d) && Forest(d, s.rows) && Run(d, registry, s, steps)
    requires id in s.rows && s.rows[id].grant.None?
    ensures var t := After(d, registry, s, steps);
      id in t.rows && t.rows[id] == s.rows[id] && ValidRows(t.rows) && NobodyPasses(d, t.rows)
    decreases steps
  {
    if steps == [] {
      UnreadableRefusesEveryone(d, s.rows, id);
    } else {
      StepKeepsTheForest(d, registry, s, steps[0]);
      StepKeepsTheUnreadable(d, registry, s, steps[0], id);
      UnreadableIsForEver(d, registry, Next(d, registry, s, steps[0]), steps[1..], id);
    }
  }

  // --- two grants that fail ---------------------------------------------------------------------

  /** A grant over one action for one agent, ending at `expiresAt`. */
  function Narrow(expiresAt: int): Grant {
    Grant("", Subject(Some("x"), None), ["a"], None, map[], None, Some(expiresAt), false, None, None)
  }

  lemma NarrowIsValid(expiresAt: int)
    ensures ValidGrant(Narrow(expiresAt))
  {
    SegmentsAssemble(["a"], ACTION_SEPARATOR);
    assert Segments("a", ACTION_SEPARATOR) == ["a"];
    assert ValidPattern("a", ACTION_SEPARATOR);
    assert ValidPattern("x", None);
  }

  /** The same built in code, with these constraints. */
  function Built(expiresAt: int, constraints: map<string, Operand>): BuiltGrant {
    BuiltGrant("", Subject(Some("x"), None), ["a"], None, constraints, None, Some(expiresAt), false, None, None)
  }

  /** A parent without constraints takes any a child adds. */
  lemma BuiltFits(near: int, far: int, delegable: bool, constraints: map<string, Operand>)
    requires near <= far && forall key | key in constraints ::
      constraints[key].Plain? && Values.WellFormed(constraints[key].value)
    ensures Constructed(Built(near, constraints)) && ValidGrant(Narrow(far).(delegable := delegable))
    ensures FitUnder(Narrow(far).(delegable := delegable), Built(near, constraints)).Fits?
  {
    NarrowIsValid(near);
    NarrowIsValid(far);
    assert Unconstrained(Built(near, constraints), "") == Narrow(near);
    ContainsReflexive(Narrow(near).actions[0], ACTION_SEPARATOR);
    assert ContainedInSome(Narrow(far).actions, Narrow(near).actions[0], ACTION_SEPARATOR);
    assert Narrow(far).(delegable := delegable).(constraints := map[]) == Narrow(far).(delegable := delegable);
  }

  /** An envelope that ended at 5, opened at 10: what is stored reads back, and the re-check refuses it at once. */
  lemma AnExpiredEnvelopeOpens() returns (d: Document, creator: Principal, row: Row)
    ensures ValidDocument(d) && "e" in d.envelopes && d.envelopes["e"].grant.expiresAt == Some(5)
    ensures Constructed(Built(3, map[])) && ReadsBack(Built(3, map[])) && Fresh(d, map[], "new")
    ensures PlanBreakGlass(d, "e", Built(3, map[]), creator, 10, "new") == Planned(row)
    ensures ValidRows(map["new" := row]) && !ReadAndPasses(d, map["new" := row], "new", 10)
  {
    BuiltFits(3, 5, false, map[]);
    creator := Principal("opener", None, None);
    d := Document([], map[], map["e" := Envelope(Narrow(5), 60, [])], 4);
    row := Row("new", "e", 1, ReadBack(Built(3, map[]), "new"), creator, ViaBreakGlass, 10, None);
    assert "new"[0] != "e"[0];
    OpeningPassesTheRecheck(d, map[], "e", Built(3, map[]), creator, 10, "new");
  }

  const RESERVED := map["agent_eq" := Plain(Values.Str("x"))]

  lemma ReservedDoesNotReadBack(expiresAt: int)
    ensures !ReadsBack(Built(expiresAt, RESERVED))
  {
    ConditionReadsBackExactlyWhen("agent", Conditions.Eq, RESERVED["agent_eq"]);
    assert Conditions.KeyOf("agent", Conditions.Eq) == "agent_eq";
  }

  /**
    A constraint on the agent, beneath a grant that is delegable and an envelope that is open. The
    constructor accepts it and both calls plan it, and what either stores cannot be read: nobody who
    presents no hop passes on anything, and revoking the row changes nothing.
   */
  lemma AReservedNameRefusesEveryone() returns (d: Document, creator: Principal, child: Row, opening: Row)
    ensures ValidDocument(d) && Constructed(Built(3, RESERVED)) && Fresh(d, map[], "new")
    ensures "e" in d.envelopes && !IsExpired(d.envelopes["e"].grant, 1)
    ensures PlanDelegation(d, map[], "root", Built(3, RESERVED), creator, ViaApi, 1, "new") == Planned(child)
    ensures PlanBreakGlass(d, "e", Built(3, RESERVED), creator, 1, "new") == Planned(opening)
    ensures ValidRows(map["new" := child]) && NobodyPasses(d, map["new" := child])
    ensures ValidRows(map["new" := opening]) && NobodyPasses(d, map["new" := opening])
    ensures forall now :: Revoking(map["new" := child], "new", now) == map["new" := child]
    ensures forall now :: Revoking(map["new" := opening], "new", now) == map["new" := opening]
  {
    BuiltFits(3, 50, true, RESERVED);
    BuiltFits(3, 50, false, RESERVED);
    ReservedDoesNotReadBack(3);
    creator := Principal("x", None, None);
    d := Document(["root"], map["root" := Narrow(50).(delegable := true)], map["e" := Envelope(Narrow(50), 60, [])], 4);
    child := Row("new", "root", 1, None, creator, ViaApi, 1, None);
    opening := child.(parentId := "e", via := ViaBreakGlass);
    assert "new"[0] != "e"[0] && "new"[0] != "root"[0] && "root"[0] != "e"[0];
    LiteralSubject("x", "x");
    UnreadableRefusesEveryone(d, map["new" := child], "new");
    UnreadableRefusesEveryone(d, map["new" := opening], "new");
  }

  // --- revocation is permanent and transitive ---------------------------------------------------

  lemma StepKeepsRevocations(d: Document, registry: Registry, s: State, step: Step, id: string)
    requires ValidDocument(d) && ValidRows(s.rows) && Allowed(d, s, step)
    requires id in s.rows && s.rows[id].revokedAt.Some?
    ensures var t := Next(d, registry, s, step); id in t.rows && t.rows[id] == s.rows[id]
  {
    match step
    case Delegate(parentId, grant, creator, via, newId) =>
      PlannedIsReadable(d, s.rows, parentId, grant, creator, via, s.now, newId);
    case BreakGlass(envelopeId, grant, opener, newId) =>
      OpenedIsReadable(d, registry, envelopeId, grant, opener, s.now, newId);
    case _ =>
  }

  lemma {:induction false} RevocationIsPermanent(d: Document, registry: Registry, s: State, steps: seq<Step>,
                                                 id: string)
    requires ValidDocument(d) && Forest(d, s.rows) && Run(d, registry, s, steps)
    requires id in s.rows && s.rows[id].revokedAt.Some?
    ensures var t := After(d, registry, s, steps); id in t.rows && t.rows[id] == s.rows[id]
    decreases steps
  {
    if steps != [] {
      StepKeepsTheForest(d, registry, s, steps[0]);
      StepKeepsRevocations(d, registry, s, steps[0], id);
      RevocationIsPermanent(d, registry, Next(d, registry, s, steps[0]), steps[1..], id);
    }
  }

  /**
    After one revocation, in every later state of every run, no evaluation passes on the revoked
    delegation or on any delegation whose chain goes through it, though one row at most was written.
   */
  lemma RevocationIsPermanentAndTransitive(d: Document, registry: Registry, s: State, steps: seq<Step>, id: string,
                                           order: seq<string>, a: Action, now: int, task: TaskQuery,
                                           hop: Option<string>)
    requires ValidDocument(d) && Forest(d, s.rows) && id in s.rows
    requires Allowed(d, s, Revoke(id)) && Run(d, registry, s, [Revoke(id)] + steps)
    requires Evaluation.Enumerates(order, After(d, registry, s, [Revoke(id)] + steps).rows)
    requires Values.WellFormed(Values.Dict(a.arguments))
    ensures var rows := After(d, registry, s, [Revoke(id)] + steps).rows;
      && ValidRows(rows)
      && var r := Evaluation.Decision(d, rows, order, a, now, task, hop);
         r.passed && r.delegationId.Some? ==>
           && r.delegationId.value in rows
           && forall i | 0 <= i < |WalkFrom(d, rows, [rows[r.delegationId.value]]).nodes| ::
                WalkFrom(d, rows, [rows[r.delegationId.value]]).nodes[i].id != id
  {
    var all := [Revoke(id)] + steps;
    assert all[0] == Revoke(id) && all[1..] == steps;
    StepKeepsTheForest(d, registry, s, Revoke(id));
    var t := Next(d, registry, s, Revoke(id));
    assert Placed(d, s.rows, id);
    if s.rows[id].grant.None? {
      UnreadableIsForEver(d, registry, t, steps, id);
    } else {
      RevocationIsPermanent(d, registry, t, steps, id);
    }
    RunKeepsTheForest(d, registry, t, steps);
    EvaluationLaws.RevokedNeverDecides(d, After(d, registry, s, all).rows, order, a, now, task, hop, id);
  }
}
