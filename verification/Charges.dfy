/**
  What an authorised action spends: `Authority._charges_for` and `_metric_value` of
  `src/ctrlrun/authority.py`, and the refusal of a budgeted action that resolved no effect key in
  `Control._charges_for` of `src/ctrlrun/control.py`.
 */
module Charges {
  import opened Options
  import opened Actions
  import opened Grants
  import opened Chains
  import opened Evaluation
  import EvaluationLaws
  import Values

  const COUNT_METRIC := "count"

  datatype Charge = Charge(grantId: string, metric: string, amount: nat, limit: int, window: int)

  datatype Charging =
    | Charged(charges: seq<Charge>)
    | Unmeasurable(grantId: string, metric: string)
    | Unkeyed(grantId: string)
    | ChainLost(id: string)

  /** `_metric_value`: a missing, negative or non-integer argument is refused, never zero. */
  function MetricValue(a: Action, metric: string): Option<nat> {
    if metric == COUNT_METRIC then Some(1) else
    var arguments := Values.AsMap(a.arguments);
    if metric !in arguments then None else
    match arguments[metric]
    case Int(n) => if n < 0 then None else Some(n)
    case _ => None
  }

  /** One budget of one grant on the chain. */
  datatype Due = Due(grantId: string, budget: Budget)

  function DuesOf(link: Link): (dues: seq<Due>)
    ensures |dues| == |BudgetsOf(link.grant.budgets)|
    ensures forall i | 0 <= i < |dues| :: dues[i] == Due(link.id, BudgetsOf(link.grant.budgets)[i])
  {
    var budgets := BudgetsOf(link.grant.budgets);
    seq(|budgets|, i requires 0 <= i < |budgets| => Due(link.id, budgets[i]))
  }

  /** Every budget of every link, in order. */
  function Dues(links: seq<Link>): seq<Due> {
    if links == [] then [] else Dues(links[..|links| - 1]) + DuesOf(links[|links| - 1])
  }

  function ChargeFor(due: Due, amount: nat): Charge {
    Charge(due.grantId, due.budget.metric, amount, due.budget.limit, due.budget.window)
  }

  /** Charges for the dues in order, or the first of them that cannot be measured. */
  function Priced(dues: seq<Due>, a: Action): Charging {
    if dues == [] then Charged([]) else
    var front, last := Priced(dues[..|dues| - 1], a), dues[|dues| - 1];
    if !front.Charged? then front
    else if MetricValue(a, last.budget.metric).None? then Unmeasurable(last.grantId, last.budget.metric)
    else Charged(front.charges + [ChargeFor(last, MetricValue(a, last.budget.metric).value)])
  }

  lemma PricedNext(dues: seq<Due>, due: Due, a: Action)
    ensures Priced(dues + [due], a) ==
      var front := Priced(dues, a);
      if !front.Charged? then front
      else if MetricValue(a, due.budget.metric).None? then Unmeasurable(due.grantId, due.budget.metric)
      else Charged(front.charges + [ChargeFor(due, MetricValue(a, due.budget.metric).value)])
  {
    assert (dues + [due])[..|dues|] == dues;
  }

  /** A refusal is final: dues after the first unmeasurable one change nothing. */
  lemma {:induction false} PricedStaysRefused(dues: seq<Due>, more: seq<Due>, a: Action)
    requires !Priced(dues, a).Charged?
    ensures Priced(dues + more, a) == Priced(dues, a)
  {
    if more == [] {
      assert dues + more == dues;
    } else {
      var front := more[..|more| - 1];
      PricedStaysRefused(dues, front, a);
      assert dues + more == (dues + front) + [more[|more| - 1]];
      PricedNext(dues + front, more[|more| - 1], a);
    }
  }

  lemma {:induction false} DuesSplit(links: seq<Link>, i: nat)
    requires i < |links|
    ensures exists rest :: Dues(links) == Dues(links[..i]) + DuesOf(links[i]) + rest
  {
    if i == |links| - 1 {
      assert Dues(links) == Dues(links[..i]) + DuesOf(links[i]) + [];
    } else {
      var front := links[..|links| - 1];
      DuesSplit(front, i);
      var rest :| Dues(front) == Dues(front[..i]) + DuesOf(front[i]) + rest;
      assert front[..i] == links[..i] && front[i] == links[i];
      assert Dues(links) == Dues(links[..i]) + DuesOf(links[i]) + (rest + DuesOf(links[|links| - 1]));
    }
  }

  /** The inner loop of `_charges_for`: one grant's budgets, onto what was made before. */
  method PriceDues(due: seq<Due>, a: Action, made: seq<Charge>, ghost before: seq<Due>) returns (c: Charging)
    requires Priced(before, a) == Charged(made)
    ensures c == Priced(before + due, a)
  {
    var more := made;
    var j := 0;
    assert before + due[..0] == before;
    while j < |due|
      invariant 0 <= j <= |due|
      invariant Priced(before + due[..j], a) == Charged(more)
    {
      var amount := MetricValue(a, due[j].budget.metric);
      assert before + due[..j + 1] == (before + due[..j]) + [due[j]];
      PricedNext(before + due[..j], due[j], a);
      if amount.None? {
        assert before + due == (before + due[..j + 1]) + due[j + 1..];
        PricedStaysRefused(before + due[..j + 1], due[j + 1..], a);
        return Unmeasurable(due[j].grantId, due[j].budget.metric);
      }
      more := more + [ChargeFor(due[j], amount.value)];
      j := j + 1;
    }
    assert due[..j] == due;
    c := Charged(more);
  }

  lemma RefusalIsFinal(links: seq<Link>, i: nat, a: Action)
    requires i < |links| && !Priced(Dues(links[..i]) + DuesOf(links[i]), a).Charged?
    ensures Priced(Dues(links), a) == Priced(Dues(links[..i]) + DuesOf(links[i]), a)
  {
    DuesSplit(links, i);
    var rest :| Dues(links) == Dues(links[..i]) + DuesOf(links[i]) + rest;
    PricedStaysRefused(Dues(links[..i]) + DuesOf(links[i]), rest, a);
  }

  /** The outer loop of `_charges_for`, over the grant that decided and those above it. */
  method PriceLinks(links: seq<Link>, a: Action) returns (c: Charging)
    ensures c == Priced(Dues(links), a)
  {
    c := Charged([]);
    var i := 0;
    while i < |links|
      invariant 0 <= i <= |links|
      invariant c.Charged? && Priced(Dues(links[..i]), a) == c
    {
      assert links[..i + 1][..i] == links[..i];
      c := PriceDues(DuesOf(links[i]), a, c.charges, Dues(links[..i]));
      if !c.Charged? {
        RefusalIsFinal(links, i, a);
        return;
      }
      i := i + 1;
    }
    assert links[..i] == links;
  }

  /** The grants charged: the deciding one first, then its ancestors from the root down. */
  function ChargedLinks(d: Document, rows: Rows, r: Result): Option<seq<Link>>
    requires ValidDocument(d) && ValidRows(rows) && r.grantId.Some?
    requires r.delegationId.Some? && r.delegationId.value in rows ==> rows[r.delegationId.value].grant.Some?
  {
    if r.delegationId.Some? && r.delegationId.value in rows then
      var leaf := rows[r.delegationId.value];
      WalkKeepsReadable(d, rows, [leaf]);
      var w := WalkFrom(d, rows, [leaf]);
      if w.end.Unreadable? then None else Some([Link(leaf.id, leaf.grant.value)] + Ancestors(w))
    else if r.grantId.value in d.grants then Some([Link(r.grantId.value, d.grants[r.grantId.value])])
    else Some([])
  }

  /** `_charges_for`, with the refusal of an action that carries a budget and no effect key. */
  method ChargesFor(d: Document, rows: Rows, a: Action, r: Result, effectKey: Option<string>) returns (c: Charging)
    requires ValidDocument(d) && ValidRows(rows)
    ensures !r.passed || r.grantId.None? ==> c == Charged([])
    ensures r.passed && r.grantId.Some? ==>
      if r.delegationId.Some? && r.delegationId.value in rows && rows[r.delegationId.value].grant.None? then
        c == ChainLost(r.delegationId.value)
      else match ChargedLinks(d, rows, r)
        case None => c.ChainLost?
        case Some(links) =>
          match Priced(Dues(links), a)
          case Charged(charges) => c == if charges != [] && effectKey.None? then Unkeyed(charges[0].grantId)
            else Charged(charges)
          case refusal => c == refusal
  {
    if !r.passed || r.grantId.None? { return Charged([]); }
    var links: seq<Link>;
    if r.delegationId.Some? && r.delegationId.value in rows {
      var leaf := rows[r.delegationId.value];
      if leaf.grant.None? { return ChainLost(leaf.id); }
      var w := WalkToRoot(d, rows, leaf);
      WalkKeepsReadable(d, rows, [leaf]);
      if w.end.Unreadable? { return ChainLost(w.end.id); }
      links := [Link(leaf.id, leaf.grant.value)] + Ancestors(w);
    } else if r.grantId.value in d.grants {
      links := [Link(r.grantId.value, d.grants[r.grantId.value])];
    } else {
      links := [];
    }
    c := PriceLinks(links, a);
    if c.Charged? && c.charges != [] && effectKey.None? { c := Unkeyed(c.charges[0].grantId); }
  }

  // --- the whole chain pays ------------------------------------------------------------------

  lemma {:induction false} DuesHold(links: seq<Link>, due: Due)
    ensures due in Dues(links) <==> exists i :: 0 <= i < |links| && due in DuesOf(links[i])
  {
    if links != [] {
      var front, last := links[..|links| - 1], links[|links| - 1];
      DuesHold(front, due);
      assert forall i | 0 <= i < |front| :: front[i] == links[i];
      if i :| 0 <= i < |links| && due in DuesOf(links[i]) {
        if i < |front| { assert due in DuesOf(front[i]); }
      }
    }
  }

  lemma {:induction false} PricedHolds(dues: seq<Due>, a: Action)
    requires Priced(dues, a).Charged?
    ensures |Priced(dues, a).charges| == |dues|
    ensures forall i | 0 <= i < |dues| :: (
      && MetricValue(a, dues[i].budget.metric).Some?
      && Priced(dues, a).charges[i] == ChargeFor(dues[i], MetricValue(a, dues[i].budget.metric).value))
  {
    if dues != [] { PricedHolds(dues[..|dues| - 1], a); }
  }

  /** Every budget on the chain is charged what its metric reads off the action, and nothing else is. */
  ghost predicate ChargedWholly(links: seq<Link>, a: Action, charges: seq<Charge>) {
    && |charges| == |Dues(links)|
    && (forall i, b | 0 <= i < |links| && b in BudgetsOf(links[i].grant.budgets) ::
         MetricValue(a, b.metric).Some?
         && ChargeFor(Due(links[i].id, b), MetricValue(a, b.metric).value) in charges)
    && (forall c | c in charges ::
         MetricValue(a, c.metric) == Some(c.amount)
         && exists i, b ::
           0 <= i < |links| && b in BudgetsOf(links[i].grant.budgets) && c == ChargeFor(Due(links[i].id, b), c.amount))
  }

  lemma PricingIsWhole(links: seq<Link>, a: Action)
    requires Priced(Dues(links), a).Charged?
    ensures ChargedWholly(links, a, Priced(Dues(links), a).charges)
  {
    var dues := Dues(links);
    var charges := Priced(dues, a).charges;
    PricedHolds(dues, a);
    forall i, b | 0 <= i < |links| && b in BudgetsOf(links[i].grant.budgets)
      ensures MetricValue(a, b.metric).Some?
      ensures ChargeFor(Due(links[i].id, b), MetricValue(a, b.metric).value) in charges
    {
      var k :| 0 <= k < |BudgetsOf(links[i].grant.budgets)| && BudgetsOf(links[i].grant.budgets)[k] == b;
      assert DuesOf(links[i])[k] == Due(links[i].id, b);
      DuesHold(links, Due(links[i].id, b));
      var n :| 0 <= n < |dues| && dues[n] == Due(links[i].id, b);
      assert charges[n] == ChargeFor(dues[n], MetricValue(a, b.metric).value);
    }
    forall c | c in charges
      ensures MetricValue(a, c.metric) == Some(c.amount)
      ensures exists i, b ::
        0 <= i < |links| && b in BudgetsOf(links[i].grant.budgets) && c == ChargeFor(Due(links[i].id, b), c.amount)
    {
      var n :| 0 <= n < |charges| && charges[n] == c;
      DuesHold(links, dues[n]);
      var i :| 0 <= i < |links| && dues[n] in DuesOf(links[i]);
      assert dues[n].budget in BudgetsOf(links[i].grant.budgets);
    }
  }

  lemma ChargedLinksAreTheChain(d: Document, rows: Rows, leaf: Row, r: Result)
    requires ValidDocument(d) && ValidRows(rows) && leaf.id in rows && rows[leaf.id] == leaf && leaf.grant.Some?
    requires r.grantId == r.delegationId == Some(leaf.id)
    requires WalkFrom(d, rows, [leaf]).end.Rooted?
    ensures var w := WalkFrom(d, rows, [leaf]);
      && GoodWalk(w) && ChargedLinks(d, rows, r).Some?
      && Chain(w)[0] == Link(w.end.rootId, w.end.root)
      && multiset(ChargedLinks(d, rows, r).value) == multiset(Chain(w))
  {
    WalkKeepsReadable(d, rows, [leaf]);
    var w := WalkFrom(d, rows, [leaf]);
    var chain := Chain(w);
    assert w.nodes[0] == w.nodes[..1][0] == leaf;
    assert chain[|chain| - 1] == Link(leaf.id, leaf.grant.value);
    assert chain == Ancestors(w) + [chain[|chain| - 1]];
  }

  /**
    An action that passed on a delegation and could be charged charges every budget of every grant
    on that delegation's chain, the document root's included: no link spends for free.
   */
  lemma WholeChainPays(d: Document, rows: Rows, order: seq<string>, a: Action, now: int, task: TaskQuery,
                       hop: Option<string>)
    requires ValidDocument(d) && ValidRows(rows) && Enumerates(order, rows)
    requires Values.WellFormed(Values.Dict(a.arguments))
    ensures var r := Decision(d, rows, order, a, now, task, hop);
      r.passed && r.delegationId.Some? ==>
        && r.grantId == r.delegationId && r.delegationId.value in rows && rows[r.delegationId.value].grant.Some?
        && var w := WalkFrom(d, rows, [rows[r.delegationId.value]]);
           && GoodWalk(w) && w.end.Rooted? && Chain(w)[0] == Link(w.end.rootId, w.end.root)
           && ChargedLinks(d, rows, r).Some?
           && var links := ChargedLinks(d, rows, r).value;
              && multiset(links) == multiset(Chain(w))
              && (Priced(Dues(links), a).Charged? ==> ChargedWholly(links, a, Priced(Dues(links), a).charges))
  {
    var r := Decision(d, rows, order, a, now, task, hop);
    if r.passed && r.delegationId.Some? {
      EvaluationLaws.EvaluationNeverEscalates(d, rows, order, a, now, task, hop);
      ChargedLinksAreTheChain(d, rows, rows[r.delegationId.value], r);
      var links := ChargedLinks(d, rows, r).value;
      if Priced(Dues(links), a).Charged? { PricingIsWhole(links, a); }
    }
  }
}
