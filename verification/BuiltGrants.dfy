/**
  A grant built in code, as `Control.delegate`, `Control.hop` and `_break_glass` are given one, and
  what becomes of it: the constructor reads a constraint's key and not its operand, creation
  compares the two as Python compares them, the store keeps key and operand, and `grant_from_json`
  of `src/ctrlrun/authority.py` parses them as the loader would.
 */
module BuiltGrants {
  import opened Options
  import opened Values
  import opened Grants
  import Conditions

  /**
    An operand is a value the grammar allows, or holds something the store can print and the grammar
    refuses, a float. How that compares with a parent's operand is whatever Python makes of it, an
    error included.
   */
  datatype Operand = Plain(value: Value) | Foreign(compared: Value -> Option<bool>)

  /** Creation and storage read a constraint's key and operand, and nothing else of its `Condition`. */
  datatype BuiltGrant = BuiltGrant(
    id: string,
    subject: Subject,
    actions: seq<string>,
    resources: Option<seq<string>>,
    constraints: map<string, Operand>,
    environments: Option<seq<string>>,
    expiresAt: Option<int>,
    delegable: bool,
    tasks: Option<seq<string>>,
    budgets: Option<seq<Budget>>)

  /** Everything but the constraints, under the id the store will give it. */
  function Unconstrained(g: BuiltGrant, id: string): Grant {
    Grant(id, g.subject, g.actions, g.resources, map[], g.environments, g.expiresAt, g.delegable, g.tasks, g.budgets)
  }

  /** What `Grant.__post_init__` accepts. */
  ghost predicate Constructed(g: BuiltGrant) {
    && ValidGrant(Unconstrained(g, g.id))
    && forall key | key in g.constraints :: g.constraints[key].Plain? ==> WellFormed(g.constraints[key].value)
  }

  // --- what the store reads back ------------------------------------------------------------------

  /** A stored constraint is parsed as a grant's is, derived subjects not admitted. */
  function ReadCondition(key: string, operand: Operand): Option<Conditions.Condition> {
    if operand.Foreign? then None else Conditions.ParseCondition(Field(key, operand.value), false)
  }

  predicate ReadsBack(g: BuiltGrant) {
    forall key | key in g.constraints :: ReadCondition(key, g.constraints[key]).Some?
  }

  /** `grant_from_json` of `grant_to_json`: the grant under its new id, or nothing that can be read. */
  function ReadBack(g: BuiltGrant, id: string): (read: Option<Grant>)
    ensures read.Some? <==> ReadsBack(g)
  {
    if !ReadsBack(g) then None else
    Some(Unconstrained(g, id).(constraints :=
      map key | key in g.constraints :: ReadCondition(key, g.constraints[key]).value))
  }

  /** What reads back is a grant as the loader builds one. */
  lemma ReadBackIsValid(g: BuiltGrant, id: string)
    requires Constructed(g) && ReadsBack(g)
    ensures ValidGrant(ReadBack(g, id).value)
  {
    var read := ReadBack(g, id).value;
    assert ValidGrant(Unconstrained(g, g.id));
    forall key | key in read.constraints
      ensures read.constraints[key].key == key && Conditions.ValidCondition(read.constraints[key])
    {
      Conditions.ParsedIsValid(Field(key, g.constraints[key].value), false);
    }
  }

  /**
    Which conditions read back, by what a caller can see of one: its argument is named and is not a
    name reserved for the action's own fields, and its operand is one the operator can read. Such a
    condition reads back as itself.
   */
  lemma ConditionReadsBackExactlyWhen(argument: string, op: Conditions.Op, operand: Operand)
    ensures var key := Conditions.KeyOf(argument, op);
      && (ReadCondition(key, operand).Some? <==>
            (&& argument != [] && argument !in Conditions.RESERVED_ARGUMENTS
             && operand.Plain? && Conditions.OperandFits(op, operand.value)))
      && (ReadCondition(key, operand).Some? ==>
            ReadCondition(key, operand) == Some(Conditions.Condition(key, argument, op, operand.value)))
  {
    if argument == [] { Conditions.NoArgumentNoKey(op); } else { Conditions.KeyIsReversible(argument, op, false); }
  }

  // --- what creation compares ---------------------------------------------------------------------

  /** What Python iterates over: a list's items, a string's characters, a mapping's keys. */
  function Iterated(v: Value): Option<seq<Value>> {
    match v
    case List(items) => Some(items)
    case Str(s) => Some(seq(|s|, i requires 0 <= i < |s| => Str([s[i]])))
    case Dict(fields) => Some(seq(|fields|, i requires 0 <= i < |fields| => Str(fields[i].key)))
    case _ => None
  }

  function Ordered(op: Conditions.Op, parent: int, child: Option<int>): Option<bool>
    requires op.IsNumeric()
  {
    if child.None? then None
    else if op.Lt? || op.Lte? then Some(child.value <= parent) else Some(child.value >= parent)
  }

  /** `_operand_at_least_as_strict` on an operand nobody checked; none where Python cannot compare. */
  function Compared(parent: Conditions.Condition, operand: Operand): Option<bool>
    requires Conditions.OperandFits(parent.op, parent.operand)
  {
    if operand.Foreign? then operand.compared(parent.operand)
    else if parent.op.IsNumeric() then Ordered(parent.op, parent.operand.n, Conditions.Numeric(operand.value))
    else if parent.op.In? then
      var items := Iterated(operand.value);
      if items.None? then None
      else Some(forall i | 0 <= i < |items.value| :: Conditions.AnyEqual(items.value[i], parent.operand.items))
    else Some(Equal(operand.value, parent.operand))
  }

  predicate Incomparable(parent: Grant, g: BuiltGrant)
    requires forall key | key in parent.constraints ::
      Conditions.OperandFits(parent.constraints[key].op, parent.constraints[key].operand)
  {
    exists key | key in parent.constraints ::
      key in g.constraints && Compared(parent.constraints[key], g.constraints[key]).None?
  }

  predicate StricterThroughout(parent: Grant, g: BuiltGrant)
    requires forall key | key in parent.constraints ::
      Conditions.OperandFits(parent.constraints[key].op, parent.constraints[key].operand)
  {
    forall key | key in parent.constraints ::
      key in g.constraints && Compared(parent.constraints[key], g.constraints[key]) == Some(true)
  }

  /** `contained_dimension` at creation: contained, the first row violated, or an error of Python's. */
  datatype Fit = Fits | Violates(dimension: Dimension) | Raises

  function FitOf(dimension: Option<Dimension>): Fit {
    if dimension.None? then Fits else Violates(dimension.value)
  }

  /** The constraints row comes after these three and before the rest. */
  function FitUnder(parent: Grant, g: BuiltGrant): Fit
    requires ValidGrant(parent) && Constructed(g)
  {
    var others := ContainedDimension(parent.(constraints := map[]), Unconstrained(g, g.id));
    if others.Some? && (others.value.SubjectRow? || others.value.ActionsRow? || others.value.ResourcesRow?)
      then FitOf(others)
    else if Incomparable(parent, g) then Raises
    else if !StricterThroughout(parent, g) then Violates(ConstraintsRow)
    else FitOf(others)
  }

  /** A constraint that reads back was compared as two parsed constraints are. */
  lemma ReadComparesAlike(parent: Conditions.Condition, key: string, operand: Operand)
    requires Conditions.ValidCondition(parent) && parent.key == key
    requires operand.Plain? && WellFormed(operand.value) && ReadCondition(key, operand).Some?
    ensures var child := ReadCondition(key, operand).value;
      && Conditions.ValidCondition(child) && child.key == key && child.op == parent.op
      && Compared(parent, operand) == Some(Conditions.AtLeastAsStrict(parent, child))
  {
    var child := ReadCondition(key, operand).value;
    Conditions.ParsedIsValid(Field(key, operand.value), false);
    Conditions.SameKeySameMeaning(parent, child);
  }

  lemma ConstraintsRead(parent: Grant, g: BuiltGrant, child: Grant)
    requires ValidGrant(parent) && ValidGrant(child) && child.constraints.Keys == g.constraints.Keys
    requires forall key | key in parent.constraints && key in g.constraints ::
      && child.constraints[key].op == parent.constraints[key].op
      && Compared(parent.constraints[key], g.constraints[key])
         == Some(Conditions.AtLeastAsStrict(parent.constraints[key], child.constraints[key]))
    ensures !Incomparable(parent, g)
    ensures StricterThroughout(parent, g) <==> ConstraintsContained(parent.constraints, child.constraints)
  {}

  /** The rows in their order: three, the constraints, and the rest. */
  lemma RowsInOrder(parent: Grant, child: Grant)
    requires ValidGrant(parent) && ValidGrant(child)
    ensures var others := ContainedDimension(parent.(constraints := map[]), child.(constraints := map[]));
      ContainedDimension(parent, child) ==
        if others.Some? && (others.value.SubjectRow? || others.value.ActionsRow? || others.value.ResourcesRow?)
          then others
        else if !ConstraintsContained(parent.constraints, child.constraints) then Some(ConstraintsRow) else others
  {}

  lemma IdIsNotCompared(parent: Grant, child: Grant, id: string)
    requires ValidGrant(parent) && ValidGrant(child)
    ensures ContainedDimension(parent, child.(id := id)) == ContainedDimension(parent, child)
  {}

  /** On a grant that reads back, creation and every later re-check decide one containment. */
  lemma CreationDecidesContainment(parent: Grant, g: BuiltGrant, id: string)
    requires ValidGrant(parent) && Constructed(g) && ReadsBack(g)
    ensures ValidGrant(ReadBack(g, id).value)
    ensures FitUnder(parent, g) == FitOf(ContainedDimension(parent, ReadBack(g, id).value))
  {
    ReadBackIsValid(g, id);
    var child := ReadBack(g, id).value;
    forall key | key in parent.constraints && key in g.constraints
      ensures child.constraints[key].op == parent.constraints[key].op
      ensures Compared(parent.constraints[key], g.constraints[key])
           == Some(Conditions.AtLeastAsStrict(parent.constraints[key], child.constraints[key]))
    {
      ReadComparesAlike(parent.constraints[key], key, g.constraints[key]);
    }
    ConstraintsRead(parent, g, child);
    RowsInOrder(parent, child);
    IdIsNotCompared(parent.(constraints := map[]), Unconstrained(g, g.id), id);
    assert child.(constraints := map[]) == Unconstrained(g, g.id).(id := id);
  }
}
