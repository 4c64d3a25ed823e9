/**
  Budget conservation for a grant and everything beneath it. `BudgetLaws` conserves what claims book
  on a grant; here the claims are those authority assembles, one document is fixed, and what is
  summed is the metric value of every action whose deciding chain goes through the grant.
 */
module Conservation {
  import opened Options
  import opened Actions
  import opened BudgetLaws
  import opened Chains
  import opened Charges
  import opened Grants
  import opened Protocol
  import opened Stores
  import BuiltGrants
  import DelegationRuns
  import Delegations
  import Evaluation
  import EvaluationLaws
  import Values

  /** The chain each action was decided on, the deciding grant and every grant above it, by action id. */
  type Deciding = map<string, seq<Link>>

  /** A claim presents the charges of its action's whole chain. */
  ghost predicate Presented(limits: map<string, seq<Budget>>, deciding: Deciding, step: Step) {
    step.TakeKey? ==>
      && step.action.actionId in deciding
      && Budgeted(limits, deciding[step.action.actionId])
      && ChargedWholly(deciding[step.action.actionId], step.action, step.charges)
  }

  lemma PresentedIsComplete(limits: map<string, seq<Budget>>, deciding: Deciding, step: Step)
    requires Presented(limits, deciding, step)
    ensures ChargesComplete(limits, step)
  {
    if step.TakeKey? { WholeChainsAreComplete(limits, deciding[step.action.actionId], step.action, step.charges); }
  }

  // --- every reservation of a run was charged wholly ---------------------------------------------

  ghost predicate ReservationCharged(limits: map<string, seq<Budget>>, deciding: Deciding, w: World, e: Event) {
    e.ReservedKey? ==>
      && e.actionId in deciding && e.actionId in w.callers
      && Budgeted(limits, deciding[e.actionId])
      && ChargedWholly(deciding[e.actionId], w.callers[e.actionId].action, e.charges)
  }

  ghost predicate AllCharged(limits: map<string, seq<Budget>>, deciding: Deciding, w: World) {
    forall i | 0 <= i < |w.log| :: ReservationCharged(limits, deciding, w, w.log[i])
  }

  lemma OtherStepsKeepCharged(limits: map<string, seq<Budget>>, deciding: Deciding, w: World, v: World, step: Step)
    requires AllCharged(limits, deciding, w) && Shape(w, v, step)
    ensures AllCharged(limits, deciding, v)
  {
    forall i | 0 <= i < |v.log| ensures ReservationCharged(limits, deciding, v, v.log[i]) {
      if i < |w.log| { assert ReservationCharged(limits, deciding, w, w.log[i]) && v.log[i] == w.log[i]; }
    }
  }

  lemma TakingKeepsCharged(limits: map<string, seq<Budget>>, deciding: Deciding, w: World, step: Step)
    requires AllCharged(limits, deciding, w) && step.TakeKey? && Presented(limits, deciding, step)
    ensures AllCharged(limits, deciding, TakingKey(w, step))
  {
    var v := TakingKey(w, step);
    forall i | 0 <= i < |v.log| ensures ReservationCharged(limits, deciding, v, v.log[i]) {
      if i < |w.log| { assert ReservationCharged(limits, deciding, w, w.log[i]) && v.log[i] == w.log[i]; }
    }
  }

  lemma {:induction false} RunKeepsCharged(ceilings: Ceilings, limits: map<string, seq<Budget>>, deciding: Deciding,
                                           w: World, steps: seq<Step>)
    requires AllCharged(limits, deciding, w) && forall i | 0 <= i < |steps| :: Presented(limits, deciding, steps[i])
    ensures AllCharged(limits, deciding, After(ceilings, w, steps))
    decreases |steps|
  {
    if steps != [] {
      if steps[0].TakeKey? { TakingKeepsCharged(limits, deciding, w, steps[0]); }
      else {
        StepShape(ceilings, w, steps[0]);
        OtherStepsKeepCharged(limits, deciding, w, Next(ceilings, w, steps[0]), steps[0]);
      }
      RunKeepsCharged(ceilings, limits, deciding, Next(ceilings, w, steps[0]), steps[1..]);
    }
  }

  // --- what a grant and everything beneath it spend ------------------------------------------------

  /** The chain goes through the grant: it decided, or it stands above what decided. */
  predicate GoesThrough(links: seq<Link>, grantId: string) {
    exists i | 0 <= i < |links| :: links[i].id == grantId
  }

  function ValueOf(a: Action, metric: string): nat {
    if MetricValue(a, metric).None? then 0 else MetricValue(a, metric).value
  }

  /**
    The metric values, in the closed interval `[from, from + span]`, of the reservations that have not
    failed and whose action was decided on the grant or on anything delegated beneath it.
   */
  function SpentBeneath(log: seq<Event>, w: World, deciding: Deciding, grantId: string, metric: string, from: int,
                        span: int): nat
    requires forall i | 0 <= i < |log| && log[i].ReservedKey? ::
      log[i].actionId in deciding && log[i].actionId in w.callers
  {
    if log == [] then 0 else
    var e := log[|log| - 1];
    SpentBeneath(log[..|log| - 1], w, deciding, grantId, metric, from, span)
    + if e.ReservedKey? && from <= e.at <= from + span && !FailedAt(w.log, e.key, e.attempt)
         && GoesThrough(deciding[e.actionId], grantId)
      then ValueOf(w.callers[e.actionId].action, metric) else 0
  }

  /** One reservation books on a budgeted grant exactly its value where its chain goes through it, else nothing. */
  lemma BookedIsSpent(limits: map<string, seq<Budget>>, links: seq<Link>, a: Action, charges: seq<Charge>,
                      grantId: string, b: Budget)
    requires Budgeted(limits, links) && ChargedWholly(links, a, charges)
    requires grantId in limits && b in limits[grantId]
    ensures AmountOn(charges, grantId, b.metric) == if GoesThrough(links, grantId) then ValueOf(a, b.metric) else 0
  {
    if GoesThrough(links, grantId) {
      var i :| 0 <= i < |links| && links[i].id == grantId;
      WholeChainsAreComplete(limits, links, a, charges);
      assert b in BudgetsOf(links[i].grant.budgets);
    } else {
      forall k | 0 <= k < |charges| ensures charges[k].grantId != grantId {
        assert charges[k] in charges;
        var i, c :| 0 <= i < |links| && c in BudgetsOf(links[i].grant.budgets)
          && charges[k] == ChargeFor(Due(links[i].id, c), charges[k].amount);
      }
      AmountIsZeroUncharged(charges, grantId, b.metric);
    }
  }

  lemma {:induction false} SpentBeneathIsBooked(limits: map<string, seq<Budget>>, deciding: Deciding, log: seq<Event>,
                                                w: World, grantId: string, b: Budget, from: int)
    requires forall i | 0 <= i < |log| :: ReservationCharged(limits, deciding, w, log[i])
    requires forall i | 0 <= i < |log| && log[i].ReservedKey? ::
      log[i].actionId in deciding && log[i].actionId in w.callers
    requires grantId in limits && b in limits[grantId]
    ensures SpentBeneath(log, w, deciding, grantId, b.metric, from, b.window)
         == SpendWithin(log, w.log, grantId, b.metric, from, b.window)
  {
    if log != [] {
      var front, e := log[..|log| - 1], log[|log| - 1];
      assert ReservationCharged(limits, deciding, w, e);
      SpentBeneathIsBooked(limits, deciding, front, w, grantId, b, from);
      if e.ReservedKey? {
        BookedIsSpent(limits, deciding[e.actionId], w.callers[e.actionId].action, e.charges, grantId, b);
      }
    }
  }

  /**
    Budget conservation. Over every run in which claims present whole chains, for every grant, every
    budget on it and every interval of that budget's window: what the grant and everything beneath it
    spend together, failed attempts aside, never exceeds the limit.
   */
  lemma SpendBeneathIsConserved(ceilings: Ceilings, limits: map<string, seq<Budget>>, deciding: Deciding,
                                steps: seq<Step>, grantId: string, b: Budget, from: int)
    requires forall g, c | g in limits && c in limits[g] :: c.limit >= 0
    requires forall i | 0 <= i < |steps| :: Presented(limits, deciding, steps[i])
    requires grantId in limits && b in limits[grantId]
    ensures var w := After(ceilings, EMPTY, steps);
      && AllCharged(limits, deciding, w)
      && SpentBeneath(w.log, w, deciding, grantId, b.metric, from, b.window) <= b.limit
  {
    forall i | 0 <= i < |steps| ensures ChargesComplete(limits, steps[i]) {
      PresentedIsComplete(limits, deciding, steps[i]);
    }
    RunKeepsCharged(ceilings, limits, deciding, EMPTY, steps);
    var w := After(ceilings, EMPTY, steps);
    BudgetsAreConserved(ceilings, limits, steps, grantId, b, from);
    forall i | 0 <= i < |w.log| && w.log[i].ReservedKey?
      ensures w.log[i].actionId in deciding && w.log[i].actionId in w.callers
    {
      assert ReservationCharged(limits, deciding, w, w.log[i]);
    }
    SpentBeneathIsBooked(limits, deciding, w.log, w, grantId, b, from);
  }

  // --- one document, and rows reached from it -------------------------------------------------------

  /** The budgets of every grant there is: the document's, its envelopes' and the stored delegations'. */
  function LimitsOf(d: Document, rows: Rows): map<string, seq<Budget>> {
    map id | id in d.grants.Keys + d.envelopes.Keys + rows.Keys ::
      if id in d.grants then BudgetsOf(d.grants[id].budgets)
      else if id in d.envelopes then BudgetsOf(d.envelopes[id].grant.budgets)
      else if rows[id].grant.Some? then BudgetsOf(rows[id].grant.value.budgets)
      else []
  }

  lemma LimitsAreNotNegative(d: Document, rows: Rows)
    requires ValidDocument(d) && ValidRows(rows)
    ensures forall g, b | g in LimitsOf(d, rows) && b in LimitsOf(d, rows)[g] :: b.limit >= 0
  {
    forall g, b | g in LimitsOf(d, rows) && b in LimitsOf(d, rows)[g] ensures b.limit >= 0 {
      if g in d.grants { BudgetsAreValid(d.grants[g], b); }
      else if g in d.envelopes { BudgetsAreValid(d.envelopes[g].grant, b); }
      else { BudgetsAreValid(rows[g].grant.value, b); }
    }
  }

  lemma BudgetsAreValid(g: Grant, b: Budget)
    requires ValidGrant(g) && b in BudgetsOf(g.budgets)
    ensures b.limit >= 0
  {
    var i :| 0 <= i < |g.budgets.value| && g.budgets.value[i] == b;
    assert ValidBudget(g.budgets.value[i]);
  }

  /** Rows stored at one time are there later, with the grants they had. */
  ghost predicate KeptRows(rows: Rows, later: Rows) {
    forall id | id in rows :: id in later && later[id].grant == rows[id].grant
  }

  lemma StoringKeepsRows(rows: Rows, plan: Delegations.Plan, newId: string)
    requires newId !in rows && (plan.Planned? ==> plan.row.id == newId)
    ensures KeptRows(rows, Delegations.Stored(rows, plan))
  {}

  lemma OpeningKeepsRows(d: Document, registry: Delegations.Registry, rows: Rows, envelopeId: string,
                         grant: BuiltGrants.BuiltGrant, opener: Delegations.Opener, now: int, newId: string)
    requires ValidDocument(d) && BuiltGrants.Constructed(grant) && newId !in rows
    ensures KeptRows(rows, Delegations.Opening(d, registry, rows, envelopeId, grant, opener, now, newId))
  {
    Delegations.OpenedIsReadable(d, registry, envelopeId, grant, opener, now, newId);
    StoringKeepsRows(rows, Delegations.PlanOpening(d, registry, envelopeId, grant, opener, now, newId), newId);
  }

  lemma DelegatingKeepsRows(d: Document, rows: Rows, parentId: string, grant: BuiltGrants.BuiltGrant,
                            creator: Principal, via: Via, now: int, newId: string)
    requires ValidDocument(d) && ValidRows(rows) && BuiltGrants.Constructed(grant) && newId !in rows
    ensures KeptRows(rows, Delegations.Delegating(d, rows, parentId, grant, creator, via, now, newId))
  {
    Delegations.PlannedIsReadable(d, rows, parentId, grant, creator, via, now, newId);
    StoringKeepsRows(rows, Delegations.PlanDelegation(d, rows, parentId, grant, creator, via, now, newId), newId);
  }

  lemma StepKeepsRows(d: Document, registry: Delegations.Registry, s: DelegationRuns.State, step: DelegationRuns.Step)
    requires ValidDocument(d) && ValidRows(s.rows) && DelegationRuns.Allowed(d, s, step)
    ensures KeptRows(s.rows, DelegationRuns.Next(d, registry, s, step).rows)
  {
    match step
    case Delegate(parentId, grant, creator, via, newId) =>
      DelegatingKeepsRows(d, s.rows, parentId, grant, creator, via, s.now, newId);
    case BreakGlass(envelopeId, grant, opener, newId) =>
      OpeningKeepsRows(d, registry, s.rows, envelopeId, grant, opener, s.now, newId);
    case _ =>
  }

  /** Every run of delegations keeps the rows it has: their budgets are fixed from the moment they are stored. */
  lemma {:induction false} RunKeepsRows(d: Document, registry: Delegations.Registry, s: DelegationRuns.State,
                                        steps: seq<DelegationRuns.Step>)
    requires ValidDocument(d) && DelegationRuns.Forest(d, s.rows) && DelegationRuns.Run(d, registry, s, steps)
    ensures KeptRows(s.rows, DelegationRuns.After(d, registry, s, steps).rows)
    decreases |steps|
  {
    if steps != [] {
      DelegationRuns.StepKeepsTheForest(d, registry, s, steps[0]);
      StepKeepsRows(d, registry, s, steps[0]);
      RunKeepsRows(d, registry, DelegationRuns.Next(d, registry, s, steps[0]), steps[1..]);
    }
  }

  /** What one action was decided by: the rows stored then, the instant, the task and the hop. */
  datatype Proposal = Proposal(action: Action, rows: Rows, order: seq<string>, now: int, task: TaskQuery,
                               hop: Option<string>)

  /** The proposal was authorised under the document, against rows a run reached and later rows keep. */
  ghost predicate Authorised(d: Document, ends: Rows, p: Proposal)
    requires ValidDocument(d)
  {
    && DelegationRuns.Forest(d, p.rows) && KeptRows(p.rows, ends) && Evaluation.Enumerates(p.order, p.rows)
    && Values.WellFormed(Values.Dict(p.action.arguments))
    && Evaluation.Decision(d, p.rows, p.order, p.action, p.now, p.task, p.hop).passed
  }

  /** The grants `_charges_for` charges an authorised proposal to. */
  ghost function DecidedOn(d: Document, ends: Rows, p: Proposal): seq<Link>
    requires ValidDocument(d) && Authorised(d, ends, p)
  {
    AuthorisedNames(d, ends, p);
    ChargedLinks(d, p.rows, Evaluation.Decision(d, p.rows, p.order, p.action, p.now, p.task, p.hop)).value
  }

  lemma AuthorisedNames(d: Document, ends: Rows, p: Proposal)
    requires ValidDocument(d) && Authorised(d, ends, p)
    ensures var r := Evaluation.Decision(d, p.rows, p.order, p.action, p.now, p.task, p.hop);
      && r.grantId.Some?
      && (if r.delegationId.None? then r.grantId.value in d.grants
          else r.grantId == r.delegationId && r.delegationId.value in p.rows && p.rows[r.delegationId.value].grant.Some?
               && WalkFrom(d, p.rows, [p.rows[r.delegationId.value]]).end.Rooted?)
      && ChargedLinks(d, p.rows, r).Some?
  {
    EvaluationLaws.EvaluationNeverEscalates(d, p.rows, p.order, p.action, p.now, p.task, p.hop);
  }

  /** Every grant an authorised proposal is charged to is one of the grants there are, under its own budgets. */
  lemma DecidedOnIsBudgeted(d: Document, ends: Rows, p: Proposal)
    requires ValidDocument(d) && Authorised(d, ends, p)
    ensures Budgeted(LimitsOf(d, ends), DecidedOn(d, ends, p))
  {
    AuthorisedNames(d, ends, p);
    var r := Evaluation.Decision(d, p.rows, p.order, p.action, p.now, p.task, p.hop);
    if r.delegationId.Some? { ChainIsBudgeted(d, p.rows, ends, p.rows[r.delegationId.value]); }
  }

  /** The links of a stored delegation's chain, as they are charged. */
  lemma ChainIsBudgeted(d: Document, rows: Rows, ends: Rows, leaf: Row)
    requires ValidDocument(d) && DelegationRuns.Forest(d, rows) && KeptRows(rows, ends)
    requires leaf.id in rows && rows[leaf.id] == leaf && leaf.grant.Some?
    ensures var w := WalkFrom(d, rows, [leaf]);
      GoodWalk(w) && Budgeted(LimitsOf(d, ends), [Link(leaf.id, leaf.grant.value)] + Ancestors(w))
  {
    var w := WalkFrom(d, rows, [leaf]);
    DelegationRuns.EveryRowIsRooted(d, rows, leaf.id);
    DelegationRuns.EveryChainAttenuates(d, rows, leaf.id);
    RootIsDocuments(d, rows, [leaf]);
    var links := [Link(leaf.id, leaf.grant.value)] + Ancestors(w);
    RowIsBudgeted(d, rows, ends, leaf);
    forall i | 0 <= i < |links|
      ensures links[i].id in LimitsOf(d, ends) && LimitsOf(d, ends)[links[i].id] == BudgetsOf(links[i].grant.budgets)
    {
      if i > 0 { AncestorIsBudgeted(d, rows, ends, w, i - 1); }
    }
  }

  lemma AncestorIsBudgeted(d: Document, rows: Rows, ends: Rows, w: Walk, i: nat)
    requires DelegationRuns.AllPlaced(d, rows) && KeptRows(rows, ends) && GoodWalk(w) && w.end.Rooted?
    requires DelegationRuns.Path(d, rows, w.nodes) && i < |Ancestors(w)|
    requires (w.end.rootId in d.grants && w.end.root == d.grants[w.end.rootId])
          || (w.end.rootId !in d.grants && w.end.rootId in d.envelopes && w.end.root == d.envelopes[w.end.rootId].grant)
    ensures var link := Ancestors(w)[i];
      link.id in LimitsOf(d, ends) && LimitsOf(d, ends)[link.id] == BudgetsOf(link.grant.budgets)
  {
    assert Ancestors(w)[i] == Chain(w)[i];
    if i == 0 {
      assert Chain(w)[0] == Link(w.end.rootId, w.end.root);
    } else {
      var n := |w.nodes| - i;
      assert DelegationRuns.Stands(rows, w.nodes, n);
      assert Chain(w)[i] == Link(w.nodes[n].id, w.nodes[n].grant.value);
      RowIsBudgeted(d, rows, ends, w.nodes[n]);
    }
  }

  lemma RowIsBudgeted(d: Document, rows: Rows, ends: Rows, row: Row)
    requires DelegationRuns.AllPlaced(d, rows) && KeptRows(rows, ends)
    requires row.id in rows && rows[row.id] == row && row.grant.Some?
    ensures row.id in LimitsOf(d, ends) && LimitsOf(d, ends)[row.id] == BudgetsOf(row.grant.value.budgets)
  {
    assert DelegationRuns.Placed(d, rows, row.id);
  }

  /** Being beneath a grant is what the walk says: the grant decided, or the walk from what decided meets it. */
  lemma BeneathMeansOnTheWalk(d: Document, ends: Rows, p: Proposal, grantId: string)
    requires ValidDocument(d) && Authorised(d, ends, p)
    requires Evaluation.Decision(d, p.rows, p.order, p.action, p.now, p.task, p.hop).delegationId.Some?
    ensures var id := Evaluation.Decision(d, p.rows, p.order, p.action, p.now, p.task, p.hop).delegationId.value;
      && id in p.rows
      && var w := WalkFrom(d, p.rows, [p.rows[id]]);
         && w.end.Rooted?
         && (GoesThrough(DecidedOn(d, ends, p), grantId) <==>
             (grantId == w.end.rootId || exists i | 0 <= i < |w.nodes| :: w.nodes[i].id == grantId))
  {
    AuthorisedNames(d, ends, p);
    var id := Evaluation.Decision(d, p.rows, p.order, p.action, p.now, p.task, p.hop).delegationId.value;
    WalkKeepsReadable(d, p.rows, [p.rows[id]]);
    ChargedMeansOnTheWalk(WalkFrom(d, p.rows, [p.rows[id]]), p.rows[id], grantId);
  }

  lemma ChargedMeansOnTheWalk(w: Walk, leaf: Row, grantId: string)
    requires GoodWalk(w) && w.end.Rooted? && w.nodes[0] == leaf
    ensures GoesThrough([Link(leaf.id, leaf.grant.value)] + Ancestors(w), grantId) <==>
      (grantId == w.end.rootId || exists i | 0 <= i < |w.nodes| :: w.nodes[i].id == grantId)
  {
    var links, n := [Link(leaf.id, leaf.grant.value)] + Ancestors(w), |w.nodes|;
    assert links[1] == Chain(w)[0] == Link(w.end.rootId, w.end.root);
    assert forall i | 2 <= i < |links| :: links[i] == Chain(w)[i - 1] && links[i].id == w.nodes[n - i + 1].id;
    if i :| 0 <= i < n && w.nodes[i].id == grantId {
      if i > 0 { assert links[n - i + 1].id == w.nodes[i].id; } else { assert links[0].id == grantId; }
    }
  }

  /** Every claim of the run is of an authorised proposal, and presents the charges assembled for it. */
  ghost predicate ClaimsAuthority(d: Document, ends: Rows, proposals: map<string, Proposal>, step: Step)
    requires ValidDocument(d)
  {
    step.TakeKey? ==>
      && step.action.actionId in proposals
      && var p := proposals[step.action.actionId];
         && p.action == step.action && Authorised(d, ends, p)
         && Priced(Dues(DecidedOn(d, ends, p)), p.action) == Charged(step.charges)
  }

  ghost function DecidingOf(d: Document, ends: Rows, proposals: map<string, Proposal>): Deciding
    requires ValidDocument(d)
  {
    map id | id in proposals && Authorised(d, ends, proposals[id]) :: DecidedOn(d, ends, proposals[id])
  }

  lemma AuthorityPresents(d: Document, ends: Rows, proposals: map<string, Proposal>, step: Step)
    requires ValidDocument(d) && ClaimsAuthority(d, ends, proposals, step)
    ensures Presented(LimitsOf(d, ends), DecidingOf(d, ends, proposals), step)
  {
    if step.TakeKey? {
      var p := proposals[step.action.actionId];
      DecidedOnIsBudgeted(d, ends, p);
      PricingIsWhole(DecidedOn(d, ends, p), p.action);
    }
  }

  /**
    Budget conservation under one document. `ends` are the rows at the end, and every action was
    authorised against rows kept until then. For every grant of the document, envelope or stored
    delegation, every budget on it and every interval of its window, the actions decided on that grant
    or beneath it spend together no more than the limit.
   */
  lemma GrantsAndDescendantsKeepTheirBudgets(ceilings: Ceilings, d: Document, ends: Rows,
                                             proposals: map<string, Proposal>, steps: seq<Step>, grantId: string,
                                             b: Budget, from: int)
    requires ValidDocument(d) && ValidRows(ends)
    requires forall i | 0 <= i < |steps| :: ClaimsAuthority(d, ends, proposals, steps[i])
    requires grantId in LimitsOf(d, ends) && b in LimitsOf(d, ends)[grantId]
    ensures var w := After(ceilings, EMPTY, steps);
      && AllCharged(LimitsOf(d, ends), DecidingOf(d, ends, proposals), w)
      && SpentBeneath(w.log, w, DecidingOf(d, ends, proposals), grantId, b.metric, from, b.window) <= b.limit
  {
    var limits, deciding := LimitsOf(d, ends), DecidingOf(d, ends, proposals);
    LimitsAreNotNegative(d, ends);
    forall i | 0 <= i < |steps| ensures Presented(limits, deciding, steps[i]) {
      AuthorityPresents(d, ends, proposals, steps[i]);
    }
    SpendBeneathIsConserved(ceilings, limits, deciding, steps, grantId, b, from);
  }
}
