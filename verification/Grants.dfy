/**
  Grants and the containment relation of `src/ctrlrun/authority.py`, read row by row, with what
  containment means: whatever a contained grant covers, its parent covers, the agent aside.
 */
module Grants {
  import opened Options
  import opened Values
  import opened Actions
  import opened Patterns
  import Conditions

  const ACTION_SEPARATOR: Separator := Some('.')
  const RESOURCE_SEPARATOR: Separator := Some(':')
  const TASK_SEPARATOR: Separator := Some(':')
  const MAX_WINDOW_SECONDS := 100 * 365 * 24 * 60 * 60

  datatype Subject = Subject(agent: Option<string>, user: Option<string>)

  datatype Budget = Budget(metric: string, limit: int, window: int)

  datatype Grant = Grant(
    id: string,
    subject: Subject,
    actions: seq<string>,
    resources: Option<seq<string>>,
    constraints: map<string, Conditions.Condition>,
    environments: Option<seq<string>>,
    expiresAt: Option<int>,
    delegable: bool,
    tasks: Option<seq<string>>,
    budgets: Option<seq<Budget>>)

  /** The rows of containment, and the one bound an envelope adds. */
  datatype Dimension =
    | SubjectRow | ActionsRow | ResourcesRow | ConstraintsRow
    | EnvironmentsRow | ExpiresAtRow | TasksRow | BudgetsRow | MaxTtlRow

  /** Whether the task dimension is read, and the task the caller named if it is. */
  datatype TaskQuery = NotEvaluated | Evaluated(task: Option<string>)

  // --- what the loader refuses -------------------------------------------------------

  ghost predicate ValidSubject(s: Subject) {
    && (s.agent.Some? || s.user.Some?)
    && (s.agent.Some? ==> ValidPattern(s.agent.value, None))
    && (s.user.Some? ==> ValidPattern(s.user.value, None))
  }

  ghost predicate ValidPatterns(patterns: seq<string>, sep: Separator) {
    patterns != [] && forall i | 0 <= i < |patterns| :: ValidPattern(patterns[i], sep)
  }

  ghost predicate ValidBudget(b: Budget) {
    b.metric != [] && 0 <= b.limit && 0 < b.window <= MAX_WINDOW_SECONDS
  }

  /**
    What the laws need of a grant that was read, by the loader or back from the store: its patterns
    are in the grammar, and each constraint has its own key and an operand its operator can read. A
    grant built in code is read before any of them applies to it, as `BuiltGrants` has it.
   */
  ghost predicate ValidGrant(g: Grant) {
    && ValidSubject(g.subject)
    && ValidPatterns(g.actions, ACTION_SEPARATOR)
    && (g.resources.Some? ==> ValidPatterns(g.resources.value, RESOURCE_SEPARATOR))
    && (g.environments.Some? ==> g.environments.value != [])
    && (g.tasks.Some? ==> ValidPatterns(g.tasks.value, TASK_SEPARATOR))
    && (g.budgets.Some? ==>
         g.budgets.value != [] && forall i | 0 <= i < |g.budgets.value| :: ValidBudget(g.budgets.value[i]))
    && (forall key | key in g.constraints ::
         g.constraints[key].key == key && Conditions.ValidCondition(g.constraints[key]))
    && (g.delegable ==> g.expiresAt.Some?)
  }

  // --- what a grant covers ----------------------------------------------------------------

  predicate UserMatches(s: Subject, user: Option<string>) {
    s.user.Some? ==> user.Some? && Matches(s.user.value, user.value, None)
  }

  predicate SubjectMatches(s: Subject, p: Principal) {
    (s.agent.Some? ==> Matches(s.agent.value, p.agent, None)) && UserMatches(s, p.user)
  }

  predicate AnyMatches(patterns: seq<string>, value: string, sep: Separator) {
    exists i | 0 <= i < |patterns| :: Matches(patterns[i], value, sep)
  }

  predicate ResourceCovered(g: Grant, resource: Option<string>) {
    g.resources.Some? ==>
      resource.Some? && AnyMatches(g.resources.value, resource.value, RESOURCE_SEPARATOR)
  }

  predicate EnvironmentCovered(g: Grant, environment: string) {
    g.environments.Some? ==> environment in g.environments.value
  }

  /** `unmatched_shape`: the first of the four shape rows the action fails. */
  function UnmatchedShape(g: Grant, a: Action): Option<Dimension> {
    if !SubjectMatches(g.subject, a.principal) then Some(SubjectRow)
    else if !AnyMatches(g.actions, a.name, ACTION_SEPARATOR) then Some(ActionsRow)
    else if !ResourceCovered(g, a.resource) then Some(ResourcesRow)
    else if !EnvironmentCovered(g, a.environment) then Some(EnvironmentsRow)
    else None
  }

  predicate IsExpired(g: Grant, now: int) {
    g.expiresAt.Some? && now > g.expiresAt.value
  }

  /** A grant naming tasks refuses a caller who named none. */
  predicate TaskHolds(g: Grant, task: Option<string>) {
    g.tasks.Some? ==> task.Some? && AnyMatches(g.tasks.value, task.value, TASK_SEPARATOR)
  }

  predicate TaskCovered(g: Grant, task: TaskQuery) {
    task.Evaluated? ==> TaskHolds(g, task.task)
  }

  predicate ConstraintsHold(g: Grant, a: Action)
    requires forall key | key in g.constraints ::
      Conditions.OperandFits(g.constraints[key].op, g.constraints[key].operand)
  {
    forall key | key in g.constraints :: Conditions.Matches(g.constraints[key], AsMap(a.arguments))
  }

  /** Everything a grant says of an action except which agent proposes it. */
  ghost predicate CoversBeyondAgent(g: Grant, a: Action, now: int, task: TaskQuery)
    requires ValidGrant(g)
  {
    && UserMatches(g.subject, a.principal.user)
    && AnyMatches(g.actions, a.name, ACTION_SEPARATOR)
    && ResourceCovered(g, a.resource)
    && EnvironmentCovered(g, a.environment)
    && ConstraintsHold(g, a)
    && !IsExpired(g, now)
    && TaskCovered(g, task)
  }

  // --- containment ------------------------------------------------------------------------

  /** `_subject_contained`: a child names one agent, and keeps its parent's user. */
  predicate SubjectContained(parent: Subject, child: Subject) {
    && child.agent.Some? && '*' !in child.agent.value
    && if parent.user.Some? then
         child.user.Some? && '*' !in child.user.value && Matches(parent.user.value, child.user.value, None)
       else child.user.None? || '*' !in child.user.value
  }

  predicate ContainedInSome(parent: seq<string>, pattern: string, sep: Separator) {
    exists j | 0 <= j < |parent| :: Contains(parent[j], pattern, sep)
  }

  predicate PatternsContained(parent: seq<string>, child: seq<string>, sep: Separator) {
    forall i | 0 <= i < |child| :: ContainedInSome(parent, child[i], sep)
  }

  predicate OptionalPatternsContained(parent: Option<seq<string>>, child: Option<seq<string>>, sep: Separator) {
    parent.Some? ==> child.Some? && PatternsContained(parent.value, child.value, sep)
  }

  predicate ConstraintsContained(parent: map<string, Conditions.Condition>, child: map<string, Conditions.Condition>)
    requires forall key | key in parent :: Conditions.ValidCondition(parent[key]) && parent[key].key == key
    requires forall key | key in child :: Conditions.ValidCondition(child[key]) && child[key].key == key
  {
    forall key | key in parent ::
      key in child && SameOp(parent[key], child[key]) && Conditions.AtLeastAsStrict(parent[key], child[key])
  }

  /** Equal keys carry equal operators, so the operand table may read the parent's. */
  predicate SameOp(parent: Conditions.Condition, child: Conditions.Condition)
    requires Conditions.ValidCondition(parent) && Conditions.ValidCondition(child) && parent.key == child.key
    ensures SameOp(parent, child)
  {
    Conditions.SameKeySameMeaning(parent, child);
    parent.op == child.op
  }

  predicate EnvironmentsContained(parent: Option<seq<string>>, child: Option<seq<string>>) {
    parent.Some? ==> child.Some? && forall e | e in child.value :: e in parent.value
  }

  predicate ExpiryContained(parent: Option<int>, child: Option<int>) {
    parent.Some? ==> child.Some? && child.value <= parent.value
  }

  /** A child budget discharges a parent's: same metric, no higher limit, no shorter window. */
  predicate Discharges(inner: Budget, outer: Budget) {
    inner.metric == outer.metric && inner.limit <= outer.limit && inner.window >= outer.window
  }

  function BudgetsOf(budgets: Option<seq<Budget>>): seq<Budget> {
    if budgets.None? then [] else budgets.value
  }

  predicate BudgetsContained(parent: Option<seq<Budget>>, child: Option<seq<Budget>>) {
    forall outer | outer in BudgetsOf(parent) :: exists inner | inner in BudgetsOf(child) :: Discharges(inner, outer)
  }

  /** `contained_dimension`: the first row the child violates, or none. */
  function ContainedDimension(parent: Grant, child: Grant): Option<Dimension>
    requires ValidGrant(parent) && ValidGrant(child)
  {
    if !SubjectContained(parent.subject, child.subject) then Some(SubjectRow)
    else if !PatternsContained(parent.actions, child.actions, ACTION_SEPARATOR) then Some(ActionsRow)
    else if !OptionalPatternsContained(parent.resources, child.resources, RESOURCE_SEPARATOR) then Some(ResourcesRow)
    else if !ConstraintsContained(parent.constraints, child.constraints) then Some(ConstraintsRow)
    else if !EnvironmentsContained(parent.environments, child.environments) then Some(EnvironmentsRow)
    else if !ExpiryContained(parent.expiresAt, child.expiresAt) then Some(ExpiresAtRow)
    else if !OptionalPatternsContained(parent.tasks, child.tasks, TASK_SEPARATOR) then Some(TasksRow)
    else if !BudgetsContained(parent.budgets, child.budgets) then Some(BudgetsRow)
    else None
  }

  ghost predicate Contained(parent: Grant, child: Grant) {
    ValidGrant(parent) && ValidGrant(child) && ContainedDimension(parent, child).None?
  }

  // --- containment is attenuation ---------------------------------------------------------

  /** A subject pattern without a wildcard names exactly one value. */
  lemma LiteralSubject(pattern: string, value: string)
    requires '*' !in pattern
    ensures Matches(pattern, value, None) <==> pattern == value
  {
    assert pattern != [] ==> pattern[|pattern| - 1] in pattern;
    assert DEEP_WILDCARD[0] == '*';
  }

  lemma PatternsCover(parent: seq<string>, child: seq<string>, value: string, sep: Separator)
    requires ValidPatterns(parent, sep) && ValidPatterns(child, sep)
    requires PatternsContained(parent, child, sep) && AnyMatches(child, value, sep)
    ensures AnyMatches(parent, value, sep)
  {
    var i :| 0 <= i < |child| && Matches(child[i], value, sep);
    var j :| 0 <= j < |parent| && Contains(parent[j], child[i], sep);
    ContainsDecidesInclusion(parent[j], child[i], sep);
  }

  lemma ConstraintsCover(parent: Grant, child: Grant, a: Action)
    requires ValidGrant(parent) && ValidGrant(child) && WellFormed(Dict(a.arguments))
    requires ConstraintsContained(parent.constraints, child.constraints) && ConstraintsHold(child, a)
    ensures ConstraintsHold(parent, a)
  {
    var arguments := AsMap(a.arguments);
    forall key | key in arguments ensures WellFormed(arguments[key]) {
      var i := FieldOf(a.arguments, key);
    }
    forall key | key in parent.constraints
      ensures Conditions.Matches(parent.constraints[key], arguments)
    {
      Conditions.StricterImplies(parent.constraints[key], child.constraints[key], arguments);
    }
  }

  lemma UserCovers(parent: Subject, child: Subject, user: Option<string>)
    requires SubjectContained(parent, child) && UserMatches(child, user)
    ensures UserMatches(parent, user)
  {
    if parent.user.Some? { LiteralSubject(child.user.value, user.value); }
  }

  lemma ScopeCovers(parent: Grant, child: Grant, resource: Option<string>, environment: string)
    requires ValidGrant(parent) && ValidGrant(child)
    requires OptionalPatternsContained(parent.resources, child.resources, RESOURCE_SEPARATOR)
    requires EnvironmentsContained(parent.environments, child.environments)
    requires ResourceCovered(child, resource) && EnvironmentCovered(child, environment)
    ensures ResourceCovered(parent, resource) && EnvironmentCovered(parent, environment)
  {
    if parent.resources.Some? {
      PatternsCover(parent.resources.value, child.resources.value, resource.value, RESOURCE_SEPARATOR);
    }
  }

  lemma TimeAndTaskCover(parent: Grant, child: Grant, now: int, task: TaskQuery)
    requires ValidGrant(parent) && ValidGrant(child)
    requires ExpiryContained(parent.expiresAt, child.expiresAt)
    requires OptionalPatternsContained(parent.tasks, child.tasks, TASK_SEPARATOR)
    requires !IsExpired(child, now) && TaskCovered(child, task)
    ensures !IsExpired(parent, now) && TaskCovered(parent, task)
  {
    if parent.tasks.Some? && task.Evaluated? {
      PatternsCover(parent.tasks.value, child.tasks.value, task.task.value, TASK_SEPARATOR);
    }
  }

  /** Whatever the child covers its parent covers, so only the agent may differ. */
  lemma ContainmentAttenuates(parent: Grant, child: Grant, a: Action, now: int, task: TaskQuery)
    requires Contained(parent, child) && WellFormed(Dict(a.arguments))
    requires CoversBeyondAgent(child, a, now, task)
    ensures CoversBeyondAgent(parent, a, now, task)
  {
    UserCovers(parent.subject, child.subject, a.principal.user);
    PatternsCover(parent.actions, child.actions, a.name, ACTION_SEPARATOR);
    ScopeCovers(parent, child, a.resource, a.environment);
    ConstraintsCover(parent, child, a);
    TimeAndTaskCover(parent, child, now, task);
  }

  lemma PatternsCompose(a: seq<string>, b: seq<string>, c: seq<string>, sep: Separator)
    requires ValidPatterns(a, sep) && ValidPatterns(b, sep) && ValidPatterns(c, sep)
    requires PatternsContained(a, b, sep) && PatternsContained(b, c, sep)
    ensures PatternsContained(a, c, sep)
  {
    forall i | 0 <= i < |c| ensures ContainedInSome(a, c[i], sep) {
      var k :| 0 <= k < |b| && Contains(b[k], c[i], sep);
      var j :| 0 <= j < |a| && Contains(a[j], b[k], sep);
      ContainsTransitive(a[j], b[k], c[i], sep);
    }
  }

  /** Containment composes: a grant at any depth is contained in the root of its chain. */
  lemma ContainmentComposes(a: Grant, b: Grant, c: Grant)
    requires Contained(a, b) && Contained(b, c)
    ensures Contained(a, c)
  {
    if a.subject.user.Some? { LiteralSubject(b.subject.user.value, c.subject.user.value); }
    PatternsCompose(a.actions, b.actions, c.actions, ACTION_SEPARATOR);
    if a.resources.Some? {
      PatternsCompose(a.resources.value, b.resources.value, c.resources.value, RESOURCE_SEPARATOR);
    }
    if a.tasks.Some? {
      PatternsCompose(a.tasks.value, b.tasks.value, c.tasks.value, TASK_SEPARATOR);
    }
    forall key | key in a.constraints
      ensures Conditions.AtLeastAsStrict(a.constraints[key], c.constraints[key])
    {
      Conditions.StrictnessComposes(a.constraints[key], b.constraints[key], c.constraints[key]);
    }
  }

  // --- rolling windows ------------------------------------------------------------------------

  datatype Spend = Spend(metric: string, amount: nat, at: int)

  /** What a history spends on one metric in the closed interval `[from, from + span]`. */
  function SpentWithin(history: seq<Spend>, metric: string, from: int, span: int): nat {
    if history == [] then 0 else
    var s := history[0];
    (if s.metric == metric && from <= s.at <= from + span then s.amount else 0)
    + SpentWithin(history[1..], metric, from, span)
  }

  ghost predicate Keeps(history: seq<Spend>, b: Budget) {
    forall from: int :: SpentWithin(history, b.metric, from, b.window) <= b.limit
  }

  lemma {:induction false} NarrowerSpendsLess(history: seq<Spend>, metric: string, from: int, near: int, far: int)
    requires near <= far
    ensures SpentWithin(history, metric, from, near) <= SpentWithin(history, metric, from, far)
  {
    if history != [] { NarrowerSpendsLess(history[1..], metric, from, near, far); }
  }

  /** Every spend history a child's budgets permit, its parent's budgets permit. */
  lemma BudgetsRefine(parent: Option<seq<Budget>>, child: Option<seq<Budget>>, history: seq<Spend>)
    requires BudgetsContained(parent, child)
    requires forall b | b in BudgetsOf(child) :: Keeps(history, b)
    ensures forall b | b in BudgetsOf(parent) :: Keeps(history, b)
  {
    forall outer | outer in BudgetsOf(parent) ensures Keeps(history, outer) {
      var inner :| inner in BudgetsOf(child) && Discharges(inner, outer);
      forall from: int ensures SpentWithin(history, outer.metric, from, outer.window) <= outer.limit {
        NarrowerSpendsLess(history, outer.metric, from, outer.window, inner.window);
      }
    }
  }
}
