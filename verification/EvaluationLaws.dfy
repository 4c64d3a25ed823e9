/**
  What evaluating an action guarantees, for every document, every stored set of rows and every
  action: a pass is earned, no delegation escalates, and the answer depends on the set of grants
  and not on how it is written down.
 */
module EvaluationLaws {
  import opened Options
  import opened Actions
  import opened Grants
  import opened Patterns
  import opened Chains
  import opened Evaluation
  import Values

  // --- one candidate ----------------------------------------------------------------------

  /** The candidate admits the action: all of it, its agent included, under a standing chain. */
  ghost predicate Admits(d: Document, rows: Rows, c: Candidate, a: Action, now: int, task: TaskQuery)
    requires ValidDocument(d) && ValidRows(rows) && ValidCandidate(c)
  {
    && SubjectMatches(c.grant.subject, a.principal)
    && CoversBeyondAgent(c.grant, a, now, task)
    && (c.row.Some? ==> CheckPasses(CheckChain(d, rows, c.row.value, now)))
  }

  lemma OwnFailuresNone(g: Grant, a: Action, now: int, task: TaskQuery)
    requires ValidGrant(g)
    ensures OwnFailures(g, a, now, task) == [] <==> !IsExpired(g, now) && ConstraintsHold(g, a) && TaskCovered(g, task)
  {}

  lemma ShapeMatched(g: Grant, a: Action)
    ensures UnmatchedShape(g, a).None? <==>
      (SubjectMatches(g.subject, a.principal) && AnyMatches(g.actions, a.name, ACTION_SEPARATOR)
       && ResourceCovered(g, a.resource) && EnvironmentCovered(g, a.environment))
  {}

  lemma JudgePasses(d: Document, rows: Rows, c: Candidate, a: Action, now: int, task: TaskQuery)
    requires ValidDocument(d) && ValidRows(rows) && ValidCandidate(c)
    ensures Passes(Judge(d, rows, c, a, now, task)) <==>
      (UnmatchedShape(c.grant, a).None? && (c.row.Some? ==> CheckPasses(CheckChain(d, rows, c.row.value, now)))
       && OwnFailures(c.grant, a, now, task) == [])
  {}

  lemma JudgePassesWhenAdmitted(d: Document, rows: Rows, c: Candidate, a: Action, now: int, task: TaskQuery)
    requires ValidDocument(d) && ValidRows(rows) && ValidCandidate(c)
    ensures Passes(Judge(d, rows, c, a, now, task)) <==> Admits(d, rows, c, a, now, task)
  {
    JudgePasses(d, rows, c, a, now, task);
    OwnFailuresNone(c.grant, a, now, task);
    ShapeMatched(c.grant, a);
  }

  // --- readable stores --------------------------------------------------------------------

  ghost predicate Readable(rows: Rows) {
    forall id | id in rows :: rows[id].grant.Some?
  }

  lemma {:induction false} ReadableWalk(d: Document, rows: Rows, nodes: seq<Row>)
    requires |nodes| >= 1 && Readable(rows)
    ensures !WalkFrom(d, rows, nodes).end.Unreadable?
    decreases if d.maxDepth > |nodes| then d.maxDepth - |nodes| else 0
  {
    var parentId := nodes[|nodes| - 1].parentId;
    if parentId in rows && |nodes| < d.maxDepth {
      ReadableWalk(d, rows, nodes + [rows[parentId]]);
    }
  }

  lemma ReadableJudge(d: Document, rows: Rows, c: Candidate, a: Action, now: int, task: TaskQuery)
    requires ValidDocument(d) && ValidRows(rows) && ValidCandidate(c) && Readable(rows)
    ensures !Judge(d, rows, c, a, now, task).judgement.Aborts?
  {
    if c.row.Some? { ReadableWalk(d, rows, [c.row.value]); }
  }

  lemma ReadableVerdicts(d: Document, rows: Rows, cs: seq<Candidate>, a: Action, now: int, task: TaskQuery)
    requires ValidDocument(d) && ValidRows(rows) && Readable(rows)
    requires forall i | 0 <= i < |cs| :: ValidCandidate(cs[i])
    ensures NoAbort(JudgeAll(d, rows, cs, a, now, task))
  {
    forall i | 0 <= i < |cs| ensures !JudgeAll(d, rows, cs, a, now, task)[i].judgement.Aborts? {
      ReadableJudge(d, rows, cs[i], a, now, task);
    }
  }

  lemma ReadableCandidates(d: Document, rows: Rows, order: seq<string>, a: Action)
    requires ValidDocument(d) && ValidRows(rows) && Enumerates(order, rows) && Readable(rows)
    ensures CandidatesFor(d, rows, order, a, None)
         == Candidates(DocumentCandidates(d, d.listed) + RowCandidates(rows, order))
  {
    FirstUnreadableFinds(rows, order);
  }

  /** Every grant of the document and every stored delegation is a candidate, and nothing else is. */
  ghost predicate IsCandidate(d: Document, rows: Rows, c: Candidate) {
    || (c.row.None? && c.id in d.grants && c.grant == d.grants[c.id])
    || (c.row.Some? && c.id in rows && c.row.value == rows[c.id] && rows[c.id].grant == Some(c.grant))
  }

  lemma CandidatesAreTheSet(d: Document, rows: Rows, order: seq<string>, a: Action, c: Candidate)
    requires ValidDocument(d) && ValidRows(rows) && Enumerates(order, rows) && Readable(rows)
    ensures var found := CandidatesFor(d, rows, order, a, None);
      found.Candidates? && (c in found.list <==> IsCandidate(d, rows, c))
  {
    ReadableCandidates(d, rows, order, a);
    var own, stored := DocumentCandidates(d, d.listed), RowCandidates(rows, order);
    if c.row.None? && c.id in d.grants && c.grant == d.grants[c.id] {
      var i :| 0 <= i < |d.listed| && d.listed[i] == c.id;
      assert own[i] == c;
    }
    if c.row.Some? && c.id in rows && c.row.value == rows[c.id] && rows[c.id].grant == Some(c.grant) {
      var i :| 0 <= i < |order| && order[i] == c.id;
      assert stored[i] == c;
    }
  }

  /** One row that cannot be read refuses every evaluation of every action that presents no hop. */
  lemma UnreadableRowRefusesEveryone(d: Document, rows: Rows, order: seq<string>, a: Action, now: int, task: TaskQuery)
    requires ValidDocument(d) && ValidRows(rows) && Enumerates(order, rows) && !Readable(rows)
    ensures var r := Decision(d, rows, order, a, now, task, None);
      && !r.passed && r.reason.AuthorityUnreadable? && r.grantId.None?
      && r.delegationId.Some? && r.delegationId.value in rows && rows[r.delegationId.value].grant.None?
  {
    FirstUnreadableFinds(rows, order);
    FirstUnreadableIsOne(rows, order);
  }

  lemma {:induction false} FirstUnreadableIsOne(rows: Rows, order: seq<string>)
    requires forall id | id in order :: id in rows
    ensures var first := FirstUnreadable(rows, order);
      first.Some? ==> first.value in rows && rows[first.value].grant.None?
  {
    if order != [] && rows[order[0]].grant.Some? { FirstUnreadableIsOne(rows, order[1..]); }
  }

  // --- a pass is earned --------------------------------------------------------------------

  lemma VerdictOfCandidate(d: Document, rows: Rows, cs: seq<Candidate>, a: Action, now: int, task: TaskQuery,
                           v: Verdict)
    returns (c: Candidate)
    requires ValidDocument(d) && ValidRows(rows) && forall i | 0 <= i < |cs| :: ValidCandidate(cs[i])
    requires v in JudgeAll(d, rows, cs, a, now, task)
    ensures c in cs && ValidCandidate(c) && v == Judge(d, rows, c, a, now, task)
  {
    var i :| 0 <= i < |cs| && v == JudgeAll(d, rows, cs, a, now, task)[i];
    c := cs[i];
  }

  /** Whatever rows are stored, a pass names a candidate that admits the action. */
  lemma PassNamesAnAdmittingCandidate(d: Document, rows: Rows, order: seq<string>, a: Action, now: int,
                                      task: TaskQuery, hop: Option<string>)
    returns (c: Candidate)
    requires ValidDocument(d) && ValidRows(rows) && Enumerates(order, rows)
    requires Decision(d, rows, order, a, now, task, hop).passed
    ensures var r := Decision(d, rows, order, a, now, task, hop);
      && ValidCandidate(c) && IsCandidate(d, rows, c) && Admits(d, rows, c, a, now, task)
      && r.grantId == Some(c.id) && r.delegationId == (if c.row.Some? then Some(c.id) else None)
      && (hop.Some? ==> c.row.Some? && c.id == hop.value)
  {
    CandidatesAreValid(d, rows, order, a, hop);
    FirstUnreadableFinds(rows, order);
    var cs := CandidatesFor(d, rows, order, a, hop).list;
    var vs := JudgeAll(d, rows, cs, a, now, task);
    var v := SelectedVerdict(vs, hop);
    c := VerdictOfCandidate(d, rows, cs, a, now, task, v);
    JudgePassesWhenAdmitted(d, rows, c, a, now, task);
    if hop.None? { CandidatesAreTheSet(d, rows, order, a, c); }
  }

  /** The root a standing walk reached, which the document holds, covers the action; only the agent differs. */
  ghost predicate CoveredByRoot(d: Document, w: Walk, a: Action, now: int, task: TaskQuery)
    requires ValidDocument(d) && GoodWalk(w)
  {
    && w.end.Rooted?
    && ((w.end.rootId in d.grants && w.end.root == d.grants[w.end.rootId])
        || (w.end.rootId in d.envelopes && w.end.root == d.envelopes[w.end.rootId].grant
            && now <= w.nodes[|w.nodes| - 1].createdAt + d.envelopes[w.end.rootId].maxTtl))
    && CoversBeyondAgent(w.end.root, a, now, task)
  }

  lemma LeafNamesItsAgent(w: Walk, agent: string)
    requires GoodWalk(w) && w.end.Rooted? && LinksContained(Chain(w))
    requires w.nodes[0].grant.value.subject.agent.Some? ==>
      Matches(w.nodes[0].grant.value.subject.agent.value, agent, None)
    ensures w.nodes[0].grant.value.subject.agent == Some(agent)
  {
    var links := Chain(w);
    var n := |links|;
    assert links[n - 1].grant == w.nodes[0].grant.value;
    assert Contained(links[n - 2].grant, links[n - 2 + 1].grant);
    LiteralSubject(links[n - 1].grant.subject.agent.value, agent);
  }

  lemma DelegationNeverEscalates(d: Document, rows: Rows, leaf: Row, a: Action, now: int, task: TaskQuery)
    requires ValidDocument(d) && ValidRows(rows) && leaf.grant.Some? && ValidGrant(leaf.grant.value)
    requires Values.WellFormed(Values.Dict(a.arguments))
    requires CheckPasses(CheckChain(d, rows, leaf, now))
    requires SubjectMatches(leaf.grant.value.subject, a.principal) && CoversBeyondAgent(leaf.grant.value, a, now, task)
    ensures leaf.grant.value.subject.agent == Some(a.principal.agent)
    ensures var w := WalkFrom(d, rows, [leaf]);
      GoodWalk(w) && Standing(d, w, now) && CoveredByRoot(d, w, a, now, task)
  {
    NoEscalation(d, rows, leaf, a, now, task);
    var w := WalkFrom(d, rows, [leaf]);
    WalkKeepsReadable(d, rows, [leaf]);
    ChecksExactlyStanding(d, w, now);
    assert w.nodes[0] == w.nodes[..1][0] == leaf;
    LeafNamesItsAgent(w, a.principal.agent);
  }

  /**
    No escalation. A pass on a document grant is covered by it, subject included. A pass on a
    delegation names a row addressed to exactly the acting agent, whose walk stands: unrevoked
    throughout, contained at every link, within depth, and rooted in a document grant or envelope
    that covers the action too.
   */
  lemma EvaluationNeverEscalates(d: Document, rows: Rows, order: seq<string>, a: Action, now: int,
                                 task: TaskQuery, hop: Option<string>)
    requires ValidDocument(d) && ValidRows(rows) && Enumerates(order, rows)
    requires Values.WellFormed(Values.Dict(a.arguments))
    requires Decision(d, rows, order, a, now, task, hop).passed
    ensures var r := Decision(d, rows, order, a, now, task, hop);
      if r.delegationId.None? then
        && r.grantId.Some? && r.grantId.value in d.grants
        && SubjectMatches(d.grants[r.grantId.value].subject, a.principal)
        && CoversBeyondAgent(d.grants[r.grantId.value], a, now, task)
      else
        var id := r.delegationId.value;
        && r.grantId == Some(id) && id in rows && rows[id].grant.Some?
        && rows[id].grant.value.subject.agent == Some(a.principal.agent)
        && var w := WalkFrom(d, rows, [rows[id]]);
           GoodWalk(w) && Standing(d, w, now) && CoveredByRoot(d, w, a, now, task)
  {
    var c := PassNamesAnAdmittingCandidate(d, rows, order, a, now, task, hop);
    if c.row.Some? { DelegationNeverEscalates(d, rows, c.row.value, a, now, task); }
  }

  // --- the answer is a function of the set --------------------------------------------------

  lemma {:induction false} WalkIgnoresListing(d: Document, e: Document, rows: Rows, nodes: seq<Row>)
    requires |nodes| >= 1 && e == d.(listed := e.listed)
    ensures WalkFrom(d, rows, nodes) == WalkFrom(e, rows, nodes)
    decreases if d.maxDepth > |nodes| then d.maxDepth - |nodes| else 0
  {
    var parentId := nodes[|nodes| - 1].parentId;
    if parentId in rows && |nodes| < d.maxDepth {
      WalkIgnoresListing(d, e, rows, nodes + [rows[parentId]]);
    }
  }

  lemma CheckChainIgnoresListing(d: Document, e: Document, rows: Rows, leaf: Row, now: int)
    requires ValidDocument(d) && ValidDocument(e) && e == d.(listed := e.listed)
    requires ValidRows(rows) && leaf.grant.Some? && ValidGrant(leaf.grant.value)
    ensures CheckChain(d, rows, leaf, now) == CheckChain(e, rows, leaf, now)
  {
    WalkIgnoresListing(d, e, rows, [leaf]);
    WalkKeepsReadable(d, rows, [leaf]);
    CheckIgnoresListing(d, e, WalkFrom(d, rows, [leaf]), now);
  }

  lemma JudgeIgnoresListing(d: Document, e: Document, rows: Rows, c: Candidate, a: Action, now: int, task: TaskQuery)
    requires ValidDocument(d) && ValidDocument(e) && e == d.(listed := e.listed)
    requires ValidRows(rows) && ValidCandidate(c)
    ensures Judge(d, rows, c, a, now, task) == Judge(e, rows, c, a, now, task)
  {
    if c.row.Some? { CheckChainIgnoresListing(d, e, rows, c.row.value, now); }
    JudgeFollowsTheChain(d, rows, e, rows, c, a, now, task);
  }

  lemma CheckIgnoresListing(d: Document, e: Document, w: Walk, now: int)
    requires GoodWalk(w) && e == d.(listed := e.listed)
    ensures CheckWalk(d, w, now) == CheckWalk(e, w, now)
  {}

  lemma VerdictsOfTheSet(d: Document, e: Document, rows: Rows, order: seq<string>, other: seq<string>,
                         a: Action, now: int, task: TaskQuery, v: Verdict)
    requires ValidDocument(d) && ValidDocument(e) && e == d.(listed := e.listed)
    requires ValidRows(rows) && Readable(rows) && Enumerates(order, rows) && Enumerates(other, rows)
    requires ValidList(d, rows, order, a) && ValidList(e, rows, other, a)
    requires v in JudgeAll(d, rows, CandidatesFor(d, rows, order, a, None).list, a, now, task)
    ensures v in JudgeAll(e, rows, CandidatesFor(e, rows, other, a, None).list, a, now, task)
  {
    var cs, ds := CandidatesFor(d, rows, order, a, None).list, CandidatesFor(e, rows, other, a, None).list;
    var c := VerdictOfCandidate(d, rows, cs, a, now, task, v);
    CandidatesAreTheSet(d, rows, order, a, c);
    CandidatesAreTheSet(e, rows, other, a, c);
    var i :| 0 <= i < |ds| && ds[i] == c;
    JudgeIgnoresListing(d, e, rows, c, a, now, task);
    assert JudgeAll(e, rows, ds, a, now, task)[i] == v;
  }

  ghost predicate ValidList(d: Document, rows: Rows, order: seq<string>, a: Action)
    requires ValidDocument(d) && ValidRows(rows) && Enumerates(order, rows)
  {
    var found := CandidatesFor(d, rows, order, a, None);
    found.Candidates? && forall i | 0 <= i < |found.list| :: ValidCandidate(found.list[i])
  }

  /**
    Rewriting the document's list of grants in another order, or reading the store in another order,
    changes neither the decision, nor its reason, nor the grant it names.
   */
  lemma EvaluationIsOrderFree(d: Document, e: Document, rows: Rows, order: seq<string>, other: seq<string>,
                              a: Action, now: int, task: TaskQuery, hop: Option<string>)
    requires ValidDocument(d) && ValidDocument(e) && e == d.(listed := e.listed)
    requires ValidRows(rows) && Enumerates(order, rows) && Enumerates(other, rows)
    ensures var r, q := Decision(d, rows, order, a, now, task, hop), Decision(e, rows, other, a, now, task, hop);
      r.passed == q.passed && r.reason == q.reason && r.grantId == q.grantId
  {
    if hop.None? && Readable(rows) {
      WholeStoreIsOrderFree(d, e, rows, order, other, a, now, task);
    } else if hop.None? {
      UnreadableRowRefusesEveryone(d, rows, order, a, now, task);
      UnreadableRowRefusesEveryone(e, rows, other, a, now, task);
    } else {
      OneHopIsOrderFree(d, e, rows, order, other, a, now, task, hop);
    }
  }

  lemma OneHopIsOrderFree(d: Document, e: Document, rows: Rows, order: seq<string>, other: seq<string>,
                          a: Action, now: int, task: TaskQuery, hop: Option<string>)
    requires ValidDocument(d) && ValidDocument(e) && e == d.(listed := e.listed) && hop.Some?
    requires ValidRows(rows) && Enumerates(order, rows) && Enumerates(other, rows)
    ensures Decision(d, rows, order, a, now, task, hop) == Decision(e, rows, other, a, now, task, hop)
  {
    CandidatesAreValid(d, rows, order, a, hop);
    assert CandidatesFor(d, rows, order, a, hop) == CandidatesFor(e, rows, other, a, hop);
    if CandidatesFor(d, rows, order, a, hop).Candidates? {
      var cs := CandidatesFor(d, rows, order, a, hop).list;
      JudgeIgnoresListing(d, e, rows, cs[0], a, now, task);
      assert JudgeAll(d, rows, cs, a, now, task) == JudgeAll(e, rows, cs, a, now, task);
    }
  }

  lemma WholeStoreIsOrderFree(d: Document, e: Document, rows: Rows, order: seq<string>, other: seq<string>,
                              a: Action, now: int, task: TaskQuery)
    requires ValidDocument(d) && ValidDocument(e) && e == d.(listed := e.listed)
    requires ValidRows(rows) && Readable(rows) && Enumerates(order, rows) && Enumerates(other, rows)
    ensures var r, q := Decision(d, rows, order, a, now, task, None), Decision(e, rows, other, a, now, task, None);
      r.passed == q.passed && r.reason == q.reason && r.grantId == q.grantId
  {
    CandidatesAreValid(d, rows, order, a, None);
    CandidatesAreValid(e, rows, other, a, None);
    ReadableCandidates(d, rows, order, a);
    ReadableCandidates(e, rows, other, a);
    var cs, ds := CandidatesFor(d, rows, order, a, None).list, CandidatesFor(e, rows, other, a, None).list;
    var vs, ws := JudgeAll(d, rows, cs, a, now, task), JudgeAll(e, rows, ds, a, now, task);
    forall v ensures v in vs <==> v in ws {
      if v in vs { VerdictsOfTheSet(d, e, rows, order, other, a, now, task, v); }
      if v in ws { VerdictsOfTheSet(e, d, rows, other, order, a, now, task, v); }
    }
    ReadableVerdicts(d, rows, cs, a, now, task);
    SelectIsOfTheSet(vs, ws, None);
  }

  lemma AdmittedPasses(d: Document, rows: Rows, order: seq<string>, a: Action, now: int, task: TaskQuery, c: Candidate)
    requires ValidDocument(d) && ValidRows(rows) && Enumerates(order, rows) && Readable(rows)
    requires ValidCandidate(c) && IsCandidate(d, rows, c) && Admits(d, rows, c, a, now, task)
    ensures Decision(d, rows, order, a, now, task, None).passed
  {
    CandidatesAreValid(d, rows, order, a, None);
    CandidatesAreTheSet(d, rows, order, a, c);
    var cs := CandidatesFor(d, rows, order, a, None).list;
    var vs := JudgeAll(d, rows, cs, a, now, task);
    JudgePassesWhenAdmitted(d, rows, c, a, now, task);
    assert Judge(d, rows, c, a, now, task) in vs by {
      var i :| 0 <= i < |cs| && cs[i] == c;
      assert vs[i] == Judge(d, rows, c, a, now, task);
    }
    ReadableVerdicts(d, rows, cs, a, now, task);
    SelectPassesWhenOneDoes(vs, None);
  }

  /** Over any store, evaluation passes exactly when every row can be read and some candidate admits the action. */
  lemma PassesExactlyWhenAdmitted(d: Document, rows: Rows, order: seq<string>, a: Action, now: int, task: TaskQuery)
    requires ValidDocument(d) && ValidRows(rows) && Enumerates(order, rows)
    ensures Decision(d, rows, order, a, now, task, None).passed
       <==> (Readable(rows) && exists c ::
               ValidCandidate(c) && IsCandidate(d, rows, c) && Admits(d, rows, c, a, now, task))
  {
    if !Readable(rows) { UnreadableRowRefusesEveryone(d, rows, order, a, now, task); }
    if Decision(d, rows, order, a, now, task, None).passed {
      var c := PassNamesAnAdmittingCandidate(d, rows, order, a, now, task, None);
    }
    if Readable(rows) {
      if c :| ValidCandidate(c) && IsCandidate(d, rows, c) && Admits(d, rows, c, a, now, task) {
        AdmittedPasses(d, rows, order, a, now, task, c);
      }
    }
  }

  // --- more authority is never less ---------------------------------------------------------

  /** A rooted walk met only ids the document or the store held, so a fresh root grant is never on it. */
  lemma {:induction false} RootedWalkKeepsItsRoot(d: Document, id: string, g: Grant, rows: Rows, nodes: seq<Row>)
    requires |nodes| >= 1 && WalkFrom(d, rows, nodes).end.Rooted?
    requires id !in d.grants && id !in d.envelopes && id !in rows
    ensures WalkFrom(d.(listed := d.listed + [id], grants := d.grants[id := g]), rows, nodes)
        == WalkFrom(d, rows, nodes)
    decreases if d.maxDepth > |nodes| then d.maxDepth - |nodes| else 0
  {
    var parentId := nodes[|nodes| - 1].parentId;
    if parentId !in d.grants && parentId !in d.envelopes {
      RootedWalkKeepsItsRoot(d, id, g, rows, nodes + [rows[parentId]]);
    }
  }

  lemma GrowingKeepsTheDocument(d: Document, id: string, g: Grant)
    requires ValidDocument(d) && ValidGrant(g) && id !in d.grants && id !in d.envelopes
    ensures ValidDocument(d.(listed := d.listed + [id], grants := d.grants[id := g]))
  {}

  lemma StandingChainStillStands(d: Document, id: string, g: Grant, rows: Rows, leaf: Row, now: int)
    requires ValidDocument(d) && ValidGrant(g) && id !in d.grants && id !in d.envelopes && id !in rows
    requires ValidRows(rows) && leaf.grant.Some? && ValidGrant(leaf.grant.value)
    requires ValidDocument(d.(listed := d.listed + [id], grants := d.grants[id := g]))
    requires CheckPasses(CheckChain(d, rows, leaf, now))
    ensures CheckPasses(CheckChain(d.(listed := d.listed + [id], grants := d.grants[id := g]), rows, leaf, now))
  {
    var e := d.(listed := d.listed + [id], grants := d.grants[id := g]);
    WalkKeepsReadable(d, rows, [leaf]);
    var w := WalkFrom(d, rows, [leaf]);
    ChecksExactlyStanding(d, w, now);
    RootedWalkKeepsItsRoot(d, id, g, rows, [leaf]);
    ChecksExactlyStanding(e, w, now);
  }

  lemma AdmitsStillAdmits(d: Document, id: string, g: Grant, rows: Rows, c: Candidate, a: Action, now: int,
                          task: TaskQuery)
    requires ValidDocument(d) && ValidGrant(g) && id !in d.grants && id !in d.envelopes && id !in rows
    requires ValidRows(rows) && ValidCandidate(c) && IsCandidate(d, rows, c) && Admits(d, rows, c, a, now, task)
    ensures var e := d.(listed := d.listed + [id], grants := d.grants[id := g]);
      ValidDocument(e) && IsCandidate(e, rows, c) && Admits(e, rows, c, a, now, task)
  {
    GrowingKeepsTheDocument(d, id, g);
    if c.row.Some? { StandingChainStillStands(d, id, g, rows, c.row.value, now); }
  }

  /** Writing one more grant into the document never turns a pass into a refusal. */
  lemma MoreGrantsNeverRefuse(d: Document, id: string, g: Grant, rows: Rows, order: seq<string>, a: Action,
                              now: int, task: TaskQuery)
    requires ValidDocument(d) && ValidRows(rows) && Enumerates(order, rows)
    requires ValidGrant(g) && id !in d.grants && id !in d.envelopes && id !in rows
    requires Decision(d, rows, order, a, now, task, None).passed
    ensures var e := d.(listed := d.listed + [id], grants := d.grants[id := g]);
      ValidDocument(e) && Decision(e, rows, order, a, now, task, None).passed
  {
    var e := d.(listed := d.listed + [id], grants := d.grants[id := g]);
    var c := PassNamesAnAdmittingCandidate(d, rows, order, a, now, task, None);
    PassesExactlyWhenAdmitted(d, rows, order, a, now, task);
    AdmitsStillAdmits(d, id, g, rows, c, a, now, task);
    PassesExactlyWhenAdmitted(e, rows, order, a, now, task);
  }

  // --- a hop is decided by its own chain -------------------------------------------------------

  /** Both documents and both stores say the same of one id. */
  ghost predicate AgreeAt(d: Document, rows: Rows, e: Document, others: Rows, id: string) {
    && (id in d.grants <==> id in e.grants) && (id in d.grants ==> d.grants[id] == e.grants[id])
    && (id in d.envelopes <==> id in e.envelopes) && (id in d.envelopes ==> d.envelopes[id] == e.envelopes[id])
    && (id in rows <==> id in others) && (id in rows ==> rows[id] == others[id])
  }

  /** They agree at every id the walk from the hop asks for. */
  ghost predicate AgreeAlong(d: Document, rows: Rows, e: Document, others: Rows, w: Walk) {
    forall i | 0 <= i < |w.nodes| :: AgreeAt(d, rows, e, others, w.nodes[i].parentId)
  }

  lemma {:induction false} WalkIsLocal(d: Document, rows: Rows, e: Document, others: Rows, nodes: seq<Row>)
    requires |nodes| >= 1 && d.maxDepth == e.maxDepth
    requires AgreeAlong(d, rows, e, others, WalkFrom(d, rows, nodes))
    ensures WalkFrom(d, rows, nodes) == WalkFrom(e, others, nodes)
    decreases if d.maxDepth > |nodes| then d.maxDepth - |nodes| else 0
  {
    var w := WalkFrom(d, rows, nodes);
    var last := |nodes| - 1;
    assert w.nodes[last] == w.nodes[..|nodes|][last] == nodes[last];
    var parentId := nodes[last].parentId;
    assert AgreeAt(d, rows, e, others, w.nodes[last].parentId);
    if parentId !in d.grants && parentId !in d.envelopes && parentId in rows && |nodes| < d.maxDepth
       && rows[parentId].grant.Some? && !(exists i | 0 <= i < |nodes| :: nodes[i].id == parentId) {
      WalkIsLocal(d, rows, e, others, nodes + [rows[parentId]]);
    }
  }

  lemma CheckIsLocal(d: Document, e: Document, w: Walk, now: int)
    requires GoodWalk(w) && d.maxDepth == e.maxDepth
    requires w.end.Rooted? ==> (w.end.rootId in d.envelopes <==> w.end.rootId in e.envelopes)
    requires w.end.Rooted? && w.end.rootId in d.envelopes ==> d.envelopes[w.end.rootId] == e.envelopes[w.end.rootId]
    ensures CheckWalk(d, w, now) == CheckWalk(e, w, now)
  {}

  lemma {:induction false} WalkEndsAtAParent(d: Document, rows: Rows, nodes: seq<Row>)
    requires |nodes| >= 1
    ensures var w := WalkFrom(d, rows, nodes); w.end.Rooted? ==> w.end.rootId == w.nodes[|w.nodes| - 1].parentId
    decreases if d.maxDepth > |nodes| then d.maxDepth - |nodes| else 0
  {
    var parentId := nodes[|nodes| - 1].parentId;
    if parentId in rows && |nodes| < d.maxDepth {
      WalkEndsAtAParent(d, rows, nodes + [rows[parentId]]);
    }
  }

  lemma CheckChainIsLocal(d: Document, rows: Rows, e: Document, others: Rows, leaf: Row, now: int)
    requires ValidDocument(d) && ValidRows(rows) && ValidDocument(e) && ValidRows(others) && d.maxDepth == e.maxDepth
    requires leaf.grant.Some? && ValidGrant(leaf.grant.value)
    requires AgreeAlong(d, rows, e, others, WalkFrom(d, rows, [leaf]))
    ensures CheckChain(d, rows, leaf, now) == CheckChain(e, others, leaf, now)
  {
    var w := WalkFrom(d, rows, [leaf]);
    WalkIsLocal(d, rows, e, others, [leaf]);
    WalkKeepsReadable(d, rows, [leaf]);
    WalkEndsAtAParent(d, rows, [leaf]);
    assert AgreeAt(d, rows, e, others, w.nodes[|w.nodes| - 1].parentId);
    CheckIsLocal(d, e, w, now);
  }

  lemma JudgeFollowsTheChain(d: Document, rows: Rows, e: Document, others: Rows, c: Candidate, a: Action, now: int,
                             task: TaskQuery)
    requires ValidDocument(d) && ValidRows(rows) && ValidDocument(e) && ValidRows(others) && ValidCandidate(c)
    requires c.row.Some? ==> CheckChain(d, rows, c.row.value, now) == CheckChain(e, others, c.row.value, now)
    ensures Judge(d, rows, c, a, now, task) == Judge(e, others, c, a, now, task)
  {}

  /**
    Under a hop nothing but the hop's own chain is read: two documents and two stores that agree
    there decide alike, whatever other grants either holds and whatever order they are read in.
   */
  lemma HopIsDecidedByItsChain(d: Document, rows: Rows, order: seq<string>, e: Document, others: Rows,
                               other: seq<string>, a: Action, now: int, task: TaskQuery, hop: string)
    requires ValidDocument(d) && ValidRows(rows) && Enumerates(order, rows)
    requires ValidDocument(e) && ValidRows(others) && Enumerates(other, others)
    requires d.maxDepth == e.maxDepth
    requires hop in rows <==> hop in others
    requires hop in rows ==> rows[hop] == others[hop] && AgreeAlong(d, rows, e, others, WalkFrom(d, rows, [rows[hop]]))
    ensures Decision(d, rows, order, a, now, task, Some(hop)) == Decision(e, others, other, a, now, task, Some(hop))
  {
    CandidatesAreValid(d, rows, order, a, Some(hop));
    CandidatesAreValid(e, others, other, a, Some(hop));
    var found := CandidatesFor(d, rows, order, a, Some(hop));
    assert found == CandidatesFor(e, others, other, a, Some(hop));
    if found.Candidates? {
      CheckChainIsLocal(d, rows, e, others, rows[hop], now);
      JudgeFollowsTheChain(d, rows, e, others, found.list[0], a, now, task);
      assert JudgeAll(d, rows, found.list, a, now, task) == JudgeAll(e, others, found.list, a, now, task);
    }
  }

  // --- revocation ----------------------------------------------------------------------------

  /** No pass is ever on a delegation whose chain goes through one revoked or unreadable, however it is reached. */
  lemma RevokedNeverDecides(d: Document, rows: Rows, order: seq<string>, a: Action, now: int,
                            task: TaskQuery, hop: Option<string>, revoked: string)
    requires ValidDocument(d) && ValidRows(rows) && Enumerates(order, rows)
    requires Values.WellFormed(Values.Dict(a.arguments))
    requires revoked in rows && (rows[revoked].revokedAt.Some? || rows[revoked].grant.None?)
    ensures var r := Decision(d, rows, order, a, now, task, hop);
      r.passed && r.delegationId.Some? ==>
        && r.delegationId.value in rows
        && forall i | 0 <= i < |WalkFrom(d, rows, [rows[r.delegationId.value]]).nodes| ::
             WalkFrom(d, rows, [rows[r.delegationId.value]]).nodes[i].id != revoked
  {
    var r := Decision(d, rows, order, a, now, task, hop);
    if r.passed && r.delegationId.Some? {
      EvaluationNeverEscalates(d, rows, order, a, now, task, hop);
      NodesAreRows(d, rows, [rows[r.delegationId.value]]);
    }
  }

  ghost predicate AllStored(rows: Rows, nodes: seq<Row>) {
    forall i | 0 <= i < |nodes| :: nodes[i].id in rows && nodes[i] == rows[nodes[i].id]
  }

  lemma {:induction false} NodesAreRows(d: Document, rows: Rows, nodes: seq<Row>)
    requires ValidRows(rows) && |nodes| >= 1 && AllStored(rows, nodes)
    ensures AllStored(rows, WalkFrom(d, rows, nodes).nodes)
    decreases if d.maxDepth > |nodes| then d.maxDepth - |nodes| else 0
  {
    var parentId := nodes[|nodes| - 1].parentId;
    if parentId in rows && |nodes| < d.maxDepth {
      NodesAreRows(d, rows, nodes + [rows[parentId]]);
    }
  }
}
