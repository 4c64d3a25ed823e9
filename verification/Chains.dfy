/**
  Walking a stored delegation to its root and re-checking the chain, as `_walk` and `_check_chain`
  of `src/ctrlrun/authority.py` do, over an arbitrary store: cyclic, orphaned or edited rows
  included.
 */
module Chains {
  import opened Options
  import opened Actions
  import opened Grants
  import Values

  datatype Envelope = Envelope(grant: Grant, maxTtl: int, controls: seq<string>)

  /** The `authority:` section. `listed` is the order its grants are written in. */
  datatype Document = Document(
    listed: seq<string>,
    grants: map<string, Grant>,
    envelopes: map<string, Envelope>,
    maxDepth: nat)

  datatype Via = ViaApi | ViaCli | ViaBreakGlass | ViaHop

  /** A stored row. `grant` is `None` where the row cannot be parsed back, for whatever reason. */
  datatype Row = Row(
    id: string,
    parentId: string,
    depth: int,
    grant: Option<Grant>,
    createdBy: Principal,
    via: Via,
    createdAt: int,
    revokedAt: Option<int>)

  type Rows = map<string, Row>

  ghost predicate ValidDocument(d: Document) {
    && (forall id | id in d.grants :: ValidGrant(d.grants[id]))
    && (forall id | id in d.envelopes :: ValidGrant(d.envelopes[id].grant) && d.envelopes[id].maxTtl > 0)
    && (forall id | id in d.grants :: id !in d.envelopes)
    && (forall id :: id in d.listed <==> id in d.grants)
    && (forall i, j | 0 <= i < j < |d.listed| :: d.listed[i] != d.listed[j])
  }

  /** Rows are keyed by their id, and a grant that reads back was parsed as the loader parses one. */
  ghost predicate ValidRows(rows: Rows) {
    forall id | id in rows :: rows[id].id == id && (rows[id].grant.Some? ==> ValidGrant(rows[id].grant.value))
  }

  // --- the walk ---------------------------------------------------------------------------

  datatype End =
    | Rooted(rootId: string, root: Grant, isEnvelope: bool)
    | Cycle(at: string)
    | Missing(parentId: string)
    | TooDeep(depth: nat)
    | Unreadable(id: string)

  /** The nodes are leaf first. */
  datatype Walk = Walk(nodes: seq<Row>, end: End)

  function WalkFrom(d: Document, rows: Rows, nodes: seq<Row>): (w: Walk)
    requires |nodes| >= 1
    ensures |w.nodes| >= |nodes| && w.nodes[..|nodes|] == nodes
    ensures w.end.TooDeep? ==> w.end.depth == |w.nodes| + 1 > d.maxDepth
    decreases if d.maxDepth > |nodes| then d.maxDepth - |nodes| else 0
  {
    var parentId := nodes[|nodes| - 1].parentId;
    if parentId in d.grants then Walk(nodes, Rooted(parentId, d.grants[parentId], false))
    else if parentId in d.envelopes then Walk(nodes, Rooted(parentId, d.envelopes[parentId].grant, true))
    else if exists i | 0 <= i < |nodes| :: nodes[i].id == parentId then Walk(nodes, Cycle(parentId))
    else if parentId !in rows then Walk(nodes, Missing(parentId))
    else if |nodes| >= d.maxDepth then Walk(nodes, TooDeep(|nodes| + 1))
    else if rows[parentId].grant.None? then Walk(nodes, Unreadable(parentId))
    else WalkFrom(d, rows, nodes + [rows[parentId]])
  }

  /** `_walk`: bounded, and refusing to revisit an id, so an edited store cannot hang it. */
  method WalkToRoot(d: Document, rows: Rows, leaf: Row) returns (w: Walk)
    requires ValidRows(rows)
    ensures w == WalkFrom(d, rows, [leaf])
  {
    var nodes := [leaf];
    var seen := {leaf.id};
    while true
      invariant |nodes| >= 1 && WalkFrom(d, rows, nodes) == WalkFrom(d, rows, [leaf])
      invariant seen == set i | 0 <= i < |nodes| :: nodes[i].id
      decreases if d.maxDepth > |nodes| then d.maxDepth - |nodes| else 0
    {
      var parentId := nodes[|nodes| - 1].parentId;
      if parentId in d.grants { return Walk(nodes, Rooted(parentId, d.grants[parentId], false)); }
      if parentId in d.envelopes { return Walk(nodes, Rooted(parentId, d.envelopes[parentId].grant, true)); }
      if parentId in seen { return Walk(nodes, Cycle(parentId)); }
      if parentId !in rows { return Walk(nodes, Missing(parentId)); }
      if |nodes| >= d.maxDepth { return Walk(nodes, TooDeep(|nodes| + 1)); }
      if rows[parentId].grant.None? { return Walk(nodes, Unreadable(parentId)); }
      seen := seen + {parentId};
      nodes := nodes + [rows[parentId]];
    }
  }

  // --- the chain the walk found ------------------------------------------------------------

  datatype Link = Link(id: string, grant: Grant)

  /** Rows the walk keeps were parsed. */
  ghost predicate ReadableNodes(nodes: seq<Row>) {
    forall i | 0 <= i < |nodes| :: nodes[i].grant.Some? && ValidGrant(nodes[i].grant.value)
  }

  lemma {:induction false} WalkKeepsReadable(d: Document, rows: Rows, nodes: seq<Row>)
    requires ValidDocument(d) && ValidRows(rows) && |nodes| >= 1 && ReadableNodes(nodes)
    ensures var w := WalkFrom(d, rows, nodes);
      ReadableNodes(w.nodes) && (w.end.Rooted? ==> ValidGrant(w.end.root))
    decreases if d.maxDepth > |nodes| then d.maxDepth - |nodes| else 0
  {
    var parentId := nodes[|nodes| - 1].parentId;
    if parentId !in d.grants && parentId !in d.envelopes && parentId in rows
       && |nodes| < d.maxDepth && rows[parentId].grant.Some? {
      if !(exists i | 0 <= i < |nodes| :: nodes[i].id == parentId) {
        WalkKeepsReadable(d, rows, nodes + [rows[parentId]]);
      }
    }
  }

  ghost predicate GoodWalk(w: Walk) {
    |w.nodes| >= 1 && ReadableNodes(w.nodes) && (w.end.Rooted? ==> ValidGrant(w.end.root))
  }

  /** Root first, the leaf last; the root is there only when the walk reached one. */
  function Chain(w: Walk): (links: seq<Link>)
    requires GoodWalk(w)
    ensures |links| >= 1
    ensures forall i | 0 <= i < |links| :: ValidGrant(links[i].grant)
  {
    var n := |w.nodes|;
    (if w.end.Rooted? then [Link(w.end.rootId, w.end.root)] else [])
    + seq(n, i requires 0 <= i < n => Link(w.nodes[n - 1 - i].id, w.nodes[n - 1 - i].grant.value))
  }

  function Ancestors(w: Walk): seq<Link>
    requires GoodWalk(w)
  {
    Chain(w)[..|Chain(w)| - 1]
  }

  function FirstExpired(links: seq<Link>, now: int): Option<string> {
    if links == [] then None
    else if IsExpired(links[0].grant, now) then Some(links[0].id)
    else FirstExpired(links[1..], now)
  }

  function FirstViolation(links: seq<Link>): Option<Dimension>
    requires forall i | 0 <= i < |links| :: ValidGrant(links[i].grant)
  {
    if |links| < 2 then None else
    var row := ContainedDimension(links[0].grant, links[1].grant);
    if row.Some? then row else FirstViolation(links[1..])
  }

  ghost predicate LinksContained(links: seq<Link>) {
    forall i | 0 <= i < |links| - 1 :: Contained(links[i].grant, links[i + 1].grant)
  }

  predicate AnyRevoked(nodes: seq<Row>) {
    exists i | 0 <= i < |nodes| :: nodes[i].revokedAt.Some?
  }

  /** An envelope counts as delegable; every other ancestor is read as written. */
  predicate UndelegableAncestor(w: Walk)
    requires GoodWalk(w)
  {
    var first := if w.end.Rooted? && w.end.isEnvelope then 1 else 0;
    exists i | first <= i < |Ancestors(w)| :: !Ancestors(w)[i].grant.delegable
  }

  // --- the re-check -----------------------------------------------------------------------

  datatype Reason =
    | AuthorityGrant | AuthorityUnreadable | AuthorityEscalation | AuthorityRevoked | AuthorityExpired
    | AuthorityTask | AuthorityConstraint | AuthorityHop | NoAuthority

  datatype Detail =
    | NoDetail
    | AtDimension(dimension: Dimension)
    | MissingParent(parentId: string)
    | ExpiredParent(parentId: string)
    | DepthExceeded(depth: nat)
    | CycleAt(id: string)

  datatype Failure = Failure(reason: Reason, detail: Detail)

  datatype ChainCheck = ChainUnreadable(id: string) | ChainChecked(depth: nat, failure: Option<Failure>)

  predicate CheckPasses(check: ChainCheck) {
    check.ChainChecked? && check.failure.None?
  }

  predicate ExceedsTtl(d: Document, w: Walk)
    requires GoodWalk(w)
  {
    w.end.Rooted? && w.end.rootId in d.envelopes &&
    var opening := w.nodes[|w.nodes| - 1];
    opening.grant.value.expiresAt.None?
    || opening.grant.value.expiresAt.value > opening.createdAt + d.envelopes[w.end.rootId].maxTtl
  }

  /** The six rules and the envelope's, in their fixed order; the first failure names the refusal. */
  function FirstFailure(w: Walk, depth: nat, maxDepth: nat, expired: Option<string>, violation: Option<Dimension>,
                        exceedsTtl: bool, undelegable: bool): Option<Failure>
  {
    if w.end.Missing? then Some(Failure(AuthorityEscalation, MissingParent(w.end.parentId)))
    else if AnyRevoked(w.nodes) then Some(Failure(AuthorityRevoked, NoDetail))
    else if expired.Some? then Some(Failure(AuthorityEscalation, ExpiredParent(expired.value)))
    else if violation.Some? then Some(Failure(AuthorityEscalation, AtDimension(violation.value)))
    else if exceedsTtl then Some(Failure(AuthorityEscalation, AtDimension(MaxTtlRow)))
    else if w.end.Cycle? then Some(Failure(AuthorityUnreadable, CycleAt(w.end.at)))
    else if depth > maxDepth then Some(Failure(AuthorityEscalation, DepthExceeded(depth)))
    else if undelegable then Some(Failure(AuthorityEscalation, NoDetail))
    else None
  }

  function CheckWalk(d: Document, w: Walk, now: int): ChainCheck
    requires GoodWalk(w)
  {
    if w.end.Unreadable? then ChainUnreadable(w.end.id) else
    var depth := if w.end.TooDeep? then w.end.depth else |w.nodes|;
    ChainChecked(depth,
      FirstFailure(w, depth, d.maxDepth, FirstExpired(Ancestors(w), now), FirstViolation(Chain(w)),
                   ExceedsTtl(d, w), UndelegableAncestor(w)))
  }

  function CheckChain(d: Document, rows: Rows, leaf: Row, now: int): ChainCheck
    requires ValidDocument(d) && ValidRows(rows) && leaf.grant.Some? && ValidGrant(leaf.grant.value)
  {
    WalkKeepsReadable(d, rows, [leaf]);
    CheckWalk(d, WalkFrom(d, rows, [leaf]), now)
  }

  // --- what a passing chain is -------------------------------------------------------------

  ghost predicate AncestorsUnexpired(w: Walk, now: int)
    requires GoodWalk(w)
  {
    forall i | 0 <= i < |Chain(w)| - 1 :: !IsExpired(Chain(w)[i].grant, now)
  }

  ghost predicate AncestorsDelegable(w: Walk)
    requires GoodWalk(w)
  {
    forall i | 0 <= i < |Chain(w)| - 1 ::
      (i == 0 && w.end.Rooted? && w.end.isEnvelope) || Chain(w)[i].grant.delegable
  }

  /** A chain that stands: rooted in the document, unrevoked, unexpired, and contained at each link. */
  ghost predicate Standing(d: Document, w: Walk, now: int)
    requires GoodWalk(w)
  {
    && w.end.Rooted?
    && |w.nodes| <= d.maxDepth
    && (forall i | 0 <= i < |w.nodes| :: w.nodes[i].revokedAt.None?)
    && AncestorsUnexpired(w, now)
    && LinksContained(Chain(w))
    && AncestorsDelegable(w)
    && !ExceedsTtl(d, w)
  }

  lemma {:induction false} FirstExpiredFinds(links: seq<Link>, now: int)
    ensures FirstExpired(links, now).None? <==> forall i | 0 <= i < |links| :: !IsExpired(links[i].grant, now)
  {
    if links != [] {
      FirstExpiredFinds(links[1..], now);
      assert links == [links[0]] + links[1..];
    }
  }

  lemma {:induction false} FirstViolationFinds(links: seq<Link>)
    requires forall i | 0 <= i < |links| :: ValidGrant(links[i].grant)
    ensures FirstViolation(links).None? <==> LinksContained(links)
  {
    if |links| >= 2 {
      var rest := links[1..];
      FirstViolationFinds(rest);
      ContainedFromSecond(links);
    }
  }

  /** Splitting off the root: a chain is contained when its first link and the rest of it are. */
  lemma ContainedFromSecond(links: seq<Link>)
    requires |links| >= 2 && forall i | 0 <= i < |links| :: ValidGrant(links[i].grant)
    ensures LinksContained(links)
       <==> (Contained(links[0].grant, links[1].grant) && LinksContained(links[1..]))
  {
    var rest := links[1..];
    assert forall i | 0 <= i < |rest| :: rest[i] == links[i + 1];
    if LinksContained(links) {
      forall i | 0 <= i < |rest| - 1 ensures Contained(rest[i].grant, rest[i + 1].grant) {
        assert rest[i] == links[i + 1] && rest[i + 1] == links[i + 2];
      }
    }
    if Contained(links[0].grant, links[1].grant) && LinksContained(rest) {
      forall i | 0 <= i < |links| - 1 ensures Contained(links[i].grant, links[i + 1].grant) {
        if i > 0 { assert rest[i - 1] == links[i] && rest[i] == links[i + 1]; }
      }
    }
  }

  lemma ExpiryRuleFinds(w: Walk, now: int)
    requires GoodWalk(w)
    ensures FirstExpired(Ancestors(w), now).None? <==> AncestorsUnexpired(w, now)
  {
    FirstExpiredFinds(Ancestors(w), now);
  }

  lemma DelegableRuleFinds(w: Walk)
    requires GoodWalk(w)
    ensures !UndelegableAncestor(w) <==> AncestorsDelegable(w)
  {
    var above, links := Ancestors(w), Chain(w);
    assert forall i | 0 <= i < |above| :: above[i] == links[i];
    if UndelegableAncestor(w) {
      var first := if w.end.Rooted? && w.end.isEnvelope then 1 else 0;
      var i :| first <= i < |above| && !above[i].grant.delegable;
      assert links[i] == above[i];
    }
  }

  lemma FirstFailureFinds(w: Walk, depth: nat, maxDepth: nat, expired: Option<string>, violation: Option<Dimension>,
                          exceedsTtl: bool, undelegable: bool)
    ensures FirstFailure(w, depth, maxDepth, expired, violation, exceedsTtl, undelegable).None?
       <==> (&& !w.end.Missing? && !w.end.Cycle? && depth <= maxDepth && !AnyRevoked(w.nodes)
             && expired.None? && violation.None? && !exceedsTtl && !undelegable)
  {}

  /** The re-check passes exactly the chains that stand. */
  lemma ChecksExactlyStanding(d: Document, w: Walk, now: int)
    requires GoodWalk(w) && (w.end.TooDeep? ==> w.end.depth > d.maxDepth)
    ensures CheckPasses(CheckWalk(d, w, now)) <==> Standing(d, w, now)
  {
    ExpiryRuleFinds(w, now);
    FirstViolationFinds(Chain(w));
    DelegableRuleFinds(w);
    if !w.end.Unreadable? {
      var depth := if w.end.TooDeep? then w.end.depth else |w.nodes|;
      FirstFailureFinds(w, depth, d.maxDepth, FirstExpired(Ancestors(w), now), FirstViolation(Chain(w)),
                        ExceedsTtl(d, w), UndelegableAncestor(w));
    }
  }

  // --- no escalation ------------------------------------------------------------------------

  /** What the leaf of a contained chain covers, every grant above it covers, the root included. */
  lemma {:induction false} ChainCovers(links: seq<Link>, a: Action, now: int, task: TaskQuery)
    requires |links| >= 1 && Values.WellFormed(Values.Dict(a.arguments))
    requires forall i | 0 <= i < |links| :: ValidGrant(links[i].grant)
    requires LinksContained(links)
    requires CoversBeyondAgent(links[|links| - 1].grant, a, now, task)
    ensures forall i | 0 <= i < |links| :: CoversBeyondAgent(links[i].grant, a, now, task)
  {
    if |links| > 1 {
      var rest := links[1..];
      assert forall i | 0 <= i < |rest| :: rest[i] == links[i + 1];
      ContainedFromSecond(links);
      ChainCovers(rest, a, now, task);
      ContainmentAttenuates(links[0].grant, links[1].grant, a, now, task);
      assert links[1] == rest[0];
    }
  }

  lemma {:induction false} ChainContained(links: seq<Link>)
    requires |links| >= 2
    requires forall i | 0 <= i < |links| :: ValidGrant(links[i].grant)
    requires LinksContained(links)
    ensures Contained(links[0].grant, links[|links| - 1].grant)
  {
    if |links| > 2 {
      var rest := links[1..];
      assert forall i | 0 <= i < |rest| :: rest[i] == links[i + 1];
      ContainedFromSecond(links);
      ChainContained(rest);
      ContainmentComposes(links[0].grant, links[1].grant, links[|links| - 1].grant);
    }
  }

  /**
    No escalation: where a chain stands and its leaf covers the action, the document root it
    reaches covers the action too, the agent aside; and beneath an envelope the action is no later
    than the opening delegation's creation plus the envelope's `max_ttl`.
   */
  lemma NoEscalation(d: Document, rows: Rows, leaf: Row, a: Action, now: int, task: TaskQuery)
    requires ValidDocument(d) && ValidRows(rows) && leaf.grant.Some? && ValidGrant(leaf.grant.value)
    requires Values.WellFormed(Values.Dict(a.arguments))
    requires CheckPasses(CheckChain(d, rows, leaf, now))
    requires CoversBeyondAgent(leaf.grant.value, a, now, task)
    ensures var w := WalkFrom(d, rows, [leaf]);
      && w.end.Rooted? && ValidGrant(w.end.root)
      && ((w.end.rootId in d.grants && w.end.root == d.grants[w.end.rootId])
          || (w.end.rootId in d.envelopes && w.end.root == d.envelopes[w.end.rootId].grant))
      && CoversBeyondAgent(w.end.root, a, now, task)
      && Contained(w.end.root, leaf.grant.value)
      && (w.end.rootId in d.envelopes ==>
           now <= w.nodes[|w.nodes| - 1].createdAt + d.envelopes[w.end.rootId].maxTtl)
  {
    WalkKeepsReadable(d, rows, [leaf]);
    var w := WalkFrom(d, rows, [leaf]);
    ChecksExactlyStanding(d, w, now);
    var links := Chain(w);
    var n := |w.nodes|;
    assert links[0] == Link(w.end.rootId, w.end.root);
    assert links[|links| - 1].grant == w.nodes[0].grant.value == leaf.grant.value;
    ChainCovers(links, a, now, task);
    ChainContained(links);
    RootIsDocuments(d, rows, [leaf]);
    if w.end.rootId in d.envelopes {
      assert links[1].grant == w.nodes[n - 1].grant.value;
    }
  }

  lemma {:induction false} RootIsDocuments(d: Document, rows: Rows, nodes: seq<Row>)
    requires |nodes| >= 1
    ensures var end := WalkFrom(d, rows, nodes).end;
      end.Rooted? ==>
        (end.rootId in d.grants && end.root == d.grants[end.rootId] && !end.isEnvelope)
        || (end.rootId in d.envelopes && end.root == d.envelopes[end.rootId].grant && end.isEnvelope)
    decreases if d.maxDepth > |nodes| then d.maxDepth - |nodes| else 0
  {
    var parentId := nodes[|nodes| - 1].parentId;
    if parentId !in d.grants && parentId !in d.envelopes && parentId in rows && |nodes| < d.maxDepth {
      RootIsDocuments(d, rows, nodes + [rows[parentId]]);
    }
  }

  // --- revocation -------------------------------------------------------------------------

  /** A chain through a revoked delegation never stands, however deep the leaf is below it. */
  lemma RevocationCutsTheChain(d: Document, rows: Rows, leaf: Row, now: int, i: nat)
    requires ValidDocument(d) && ValidRows(rows) && leaf.grant.Some? && ValidGrant(leaf.grant.value)
    requires i < |WalkFrom(d, rows, [leaf]).nodes| && WalkFrom(d, rows, [leaf]).nodes[i].revokedAt.Some?
    ensures !CheckPasses(CheckChain(d, rows, leaf, now))
  {
    WalkKeepsReadable(d, rows, [leaf]);
    ChecksExactlyStanding(d, WalkFrom(d, rows, [leaf]), now);
  }
}
