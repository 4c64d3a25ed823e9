/**
  The condition evaluator of `src/ctrlrun/grammar.py` that a grant's constraints share with a
  policy rule, its key grammar, and the strictness order of `src/ctrlrun/authority.py`.
 */
module Conditions {
  import opened Options
  import opened Values

  datatype Op = Eq | Neq | In | Lt | Lte | Gt | Gte {
    predicate IsNumeric() {
      Lt? || Lte? || Gt? || Gte?
    }

    function Name(): string {
      match this
      case Eq => "eq" case Neq => "neq" case In => "in"
      case Lt => "lt" case Lte => "lte" case Gt => "gt" case Gte => "gte"
    }
  }

  datatype Condition = Condition(key: string, argument: string, op: Op, operand: Value)

  type Arguments = map<string, Value>

  const RESERVED_ARGUMENTS := {
    "action_id", "agent", "claims", "data_scope", "environment",
    "expires_at", "issuer", "principal", "resource", "user"
  }
  const DERIVED_SUBJECTS := {"data_scope"}

  // --- keys -------------------------------------------------------------------------------

  function KeyOf(argument: string, op: Op): string {
    argument + "_" + op.Name()
  }

  /** Longest operator first, as the parser tries them. */
  const OPERATORS_BY_LENGTH: seq<Op> := [Neq, Lte, Gte, Eq, In, Lt, Gt]

  predicate HasSuffix(key: string, op: Op) {
    var n := |op.Name()| + 1;
    |key| > n && key[|key| - n..] == "_" + op.Name()
  }

  function SplitWith(key: string, ops: seq<Op>): Option<(string, Op)> {
    if ops == [] then None
    else if HasSuffix(key, ops[0]) then Some((key[..|key| - |ops[0].Name()| - 1], ops[0]))
    else SplitWith(key, ops[1..])
  }

  /** `_split_condition_key`: `None` for a key with no operator or a name no condition may use. */
  function SplitConditionKey(key: string, allowDerived: bool): Option<(string, Op)> {
    match SplitWith(key, OPERATORS_BY_LENGTH)
    case None => None
    case Some((argument, op)) =>
      if argument in DERIVED_SUBJECTS then (if allowDerived then Some((argument, op)) else None)
      else if argument in RESERVED_ARGUMENTS then None
      else Some((argument, op))
  }

  lemma NoUnderscoreInNames(op: Op)
    ensures forall i | 0 <= i < |op.Name()| :: op.Name()[i] != '_'
  {
  }

  lemma NamesDiffer(a: Op, b: Op)
    ensures a.Name() == b.Name() ==> a == b
  {
    assert a.Name()[0] == b.Name()[0] && |a.Name()| == |b.Name()| && a.Name()[1] == b.Name()[1] ==> a == b;
  }

  /** A key carries one operator: no two names are suffixes of one key behind an underscore. */
  lemma OneSuffix(key: string, a: Op, b: Op)
    requires HasSuffix(key, a) && HasSuffix(key, b)
    ensures a == b
  {
    NoUnderscoreInNames(a);
    NoUnderscoreInNames(b);
    var m, n := |a.Name()|, |b.Name()|;
    assert key[|key| - m - 1..][0] == '_' && key[|key| - n - 1..][0] == '_';
    if m != n {
      assert false;
    } else {
      assert a.Name() == ("_" + a.Name())[1..] == ("_" + b.Name())[1..] == b.Name();
      NamesDiffer(a, b);
    }
  }

  lemma {:induction false} SplitFinds(key: string, ops: seq<Op>, op: Op)
    requires HasSuffix(key, op) && op in ops
    ensures SplitWith(key, ops) == Some((key[..|key| - |op.Name()| - 1], op))
  {
    if HasSuffix(key, ops[0]) {
      OneSuffix(key, op, ops[0]);
    } else {
      SplitFinds(key, ops[1..], op);
    }
  }

  /** `(argument, op)` to key is uniquely reversible. */
  lemma KeyIsReversible(argument: string, op: Op, allowDerived: bool)
    requires argument != []
    ensures SplitConditionKey(KeyOf(argument, op), allowDerived)
         == if argument in RESERVED_ARGUMENTS && !(allowDerived && argument in DERIVED_SUBJECTS)
            then None else Some((argument, op))
  {
    var key := KeyOf(argument, op);
    assert key[|key| - |op.Name()| - 1..] == "_" + op.Name();
    assert key[..|key| - |op.Name()| - 1] == argument;
    SplitFinds(key, OPERATORS_BY_LENGTH, op);
  }

  /** A key with nothing before its operator's underscore is no key. */
  lemma NoArgumentNoKey(op: Op)
    ensures SplitWith(KeyOf([], op), OPERATORS_BY_LENGTH).None?
  {
    var key := KeyOf([], op);
    assert key == "_" + op.Name();
    NoUnderscoreInNames(op);
    forall other: Op ensures !HasSuffix(key, other) {
      var n := |other.Name()| + 1;
      if |key| > n { assert key[|key| - n..][0] == op.Name()[|key| - n - 1] != '_'; }
    }
    NoSuffixNoSplit(key, OPERATORS_BY_LENGTH);
  }

  lemma {:induction false} NoSuffixNoSplit(key: string, ops: seq<Op>)
    requires forall op | op in ops :: !HasSuffix(key, op)
    ensures SplitWith(key, ops).None?
  {
    if ops != [] { NoSuffixNoSplit(key, ops[1..]); }
  }

  lemma SameKeySameMeaning(a: Condition, b: Condition)
    requires a.argument != [] && b.argument != []
    requires KeyOf(a.argument, a.op) == KeyOf(b.argument, b.op)
    ensures a.argument == b.argument && a.op == b.op
  {
    var key := KeyOf(a.argument, a.op);
    assert key[|key| - |a.op.Name()| - 1..] == "_" + a.op.Name();
    assert key[|key| - |b.op.Name()| - 1..] == "_" + b.op.Name();
    OneSuffix(key, a.op, b.op);
    assert a.argument == key[..|key| - |a.op.Name()| - 1] == b.argument;
  }

  // --- parsing ----------------------------------------------------------------------------

  /** What an operator may be given; an `_eq` on a list holds scalars only. */
  predicate OperandFits(op: Op, operand: Value) {
    if op.IsNumeric() then operand.Int?
    else if op.In? then operand.List?
    else operand.List? ==> forall i | 0 <= i < |operand.items| :: !IsContainer(operand.items[i])
  }

  function ParseCondition(f: Field, allowDerived: bool): Option<Condition> {
    match SplitConditionKey(f.key, allowDerived)
    case None => None
    case Some((argument, op)) =>
      if OperandFits(op, f.value) then Some(Condition(f.key, argument, op, f.value)) else None
  }

  /** A condition as the parser leaves it. */
  ghost predicate ValidCondition(c: Condition) {
    c.argument != [] && c.key == KeyOf(c.argument, c.op)
    && OperandFits(c.op, c.operand) && WellFormed(c.operand)
  }

  lemma ParsedIsValid(f: Field, allowDerived: bool)
    requires WellFormed(f.value) && ParseCondition(f, allowDerived).Some?
    ensures ValidCondition(ParseCondition(f, allowDerived).value)
  {
    SplitRebuilds(f.key, OPERATORS_BY_LENGTH);
  }

  lemma {:induction false} SplitRebuilds(key: string, ops: seq<Op>)
    requires SplitWith(key, ops).Some?
    ensures var (argument, op) := SplitWith(key, ops).value;
      argument != [] && KeyOf(argument, op) == key
  {
    if HasSuffix(key, ops[0]) {
      assert key == key[..|key| - |ops[0].Name()| - 1] + ("_" + ops[0].Name());
    } else {
      SplitRebuilds(key, ops[1..]);
    }
  }

  /** The conditions of a mapping, each under its own key, each as its entry parses. */
  ghost predicate ParsedFrom(mapping: seq<Field>, allowDerived: bool, conditions: map<string, Condition>) {
    && (forall key :: key in conditions <==> exists i :: 0 <= i < |mapping| && mapping[i].key == key)
    && forall i | 0 <= i < |mapping| ::
         ParseCondition(mapping[i], allowDerived).Some?
         && mapping[i].key in conditions && conditions[mapping[i].key] == ParseCondition(mapping[i], allowDerived).value
  }

  /** Whatever is parsed may be evaluated: each operand fits its operator, under the key that says which. */
  lemma ParsedAreValid(mapping: seq<Field>, allowDerived: bool, conditions: map<string, Condition>)
    requires ParsedFrom(mapping, allowDerived, conditions)
    requires forall i | 0 <= i < |mapping| :: WellFormed(mapping[i].value)
    ensures forall key | key in conditions :: conditions[key].key == key && ValidCondition(conditions[key])
  {
    forall key | key in conditions ensures conditions[key].key == key && ValidCondition(conditions[key]) {
      var i :| 0 <= i < |mapping| && mapping[i].key == key;
      ParsedIsValid(mapping[i], allowDerived);
    }
  }

  /** `parse_conditions`: all of them, each under its own key, or a refusal of the document. */
  method ParseConditions(mapping: seq<Field>, allowDerived: bool)
    returns (r: Option<map<string, Condition>>)
    requires DistinctKeys(mapping)
    ensures r.Some? <==> forall i | 0 <= i < |mapping| :: ParseCondition(mapping[i], allowDerived).Some?
    ensures r.Some? ==> ParsedFrom(mapping, allowDerived, r.value)
  {
    var conditions: map<string, Condition> := map[];
    for i := 0 to |mapping|
      invariant forall j | 0 <= j < i :: ParseCondition(mapping[j], allowDerived).Some?
      invariant forall key :: key in conditions <==> exists j :: 0 <= j < i && mapping[j].key == key
      invariant forall j | 0 <= j < i ::
        conditions[mapping[j].key] == ParseCondition(mapping[j], allowDerived).value
    {
      var parsed := ParseCondition(mapping[i], allowDerived);
      if parsed.None? { return None; }
      conditions := conditions[parsed.value.key := parsed.value];
    }
    return Some(conditions);
  }

  // --- evaluation -------------------------------------------------------------------------

  /** Python's `==` on scalars, where `True == 1`: what building a `frozenset` compares with. */
  predicate LooseEqual(a: Value, b: Value) {
    a == b || Numeric(a) == Numeric(b) != None
  }

  function Numeric(v: Value): Option<int> {
    match v
    case Bool(b) => Some(if b then 1 else 0)
    case Int(n) => Some(n)
    case _ => None
  }

  /** Two lists as sets; a container in either cannot be hashed, and then nothing matches. */
  predicate Hashable(items: seq<Value>) {
    forall i | 0 <= i < |items| :: !IsContainer(items[i])
  }

  predicate SameSet(a: seq<Value>, b: seq<Value>) {
    && (forall i | 0 <= i < |a| :: exists j | 0 <= j < |b| :: LooseEqual(a[i], b[j]))
    && (forall j | 0 <= j < |b| :: exists i | 0 <= i < |a| :: LooseEqual(a[i], b[j]))
  }

  predicate AnyEqual(value: Value, items: seq<Value>) {
    exists i | 0 <= i < |items| :: Equal(value, items[i])
  }

  predicate Compare(op: Op, value: int, operand: int)
    requires op.IsNumeric()
  {
    match op
    case Lt => value < operand
    case Lte => value <= operand
    case Gt => value > operand
    case Gte => value >= operand
  }

  /** `Condition.matches`: an absent argument, or a number that is not one, is false. */
  predicate Matches(c: Condition, arguments: Arguments)
    requires OperandFits(c.op, c.operand)
  {
    c.argument in arguments &&
    var value := arguments[c.argument];
    if (c.op.Eq? || c.op.Neq?) && c.argument in DERIVED_SUBJECTS && value.List? && c.operand.List? then
      Hashable(value.items) && (SameSet(value.items, c.operand.items) <==> c.op.Eq?)
    else match c.op
      case Eq => Equal(value, c.operand)
      case Neq => !Equal(value, c.operand)
      case In =>
        if c.argument in DERIVED_SUBJECTS && value.List? then
          exists i | 0 <= i < |value.items| :: AnyEqual(value.items[i], c.operand.items)
        else AnyEqual(value, c.operand.items)
      case _ => value.Int? && Compare(c.op, value.n, c.operand.n)
  }

  // --- strictness -------------------------------------------------------------------------

  /** `_operand_at_least_as_strict`: read by the parent's operator, the keys being equal. */
  predicate AtLeastAsStrict(parent: Condition, child: Condition)
    requires OperandFits(parent.op, parent.operand) && OperandFits(child.op, child.operand)
    requires parent.op == child.op
  {
    match parent.op
    case Lt => child.operand.n <= parent.operand.n
    case Lte => child.operand.n <= parent.operand.n
    case Gt => child.operand.n >= parent.operand.n
    case Gte => child.operand.n >= parent.operand.n
    case In => forall i | 0 <= i < |child.operand.items| ::
      AnyEqual(child.operand.items[i], parent.operand.items)
    case _ => Equal(child.operand, parent.operand)
  }

  lemma EqualTransfers(value: Value, a: Value, b: Value)
    requires WellFormed(value) && WellFormed(a) && WellFormed(b) && Equal(a, b)
    ensures Equal(value, a) <==> Equal(value, b)
  {
    EqualIsNormalEquality(value, a);
    EqualIsNormalEquality(value, b);
    EqualIsNormalEquality(a, b);
  }

  lemma AnyEqualTransfers(value: Value, child: seq<Value>, parent: seq<Value>)
    requires WellFormed(value) && WellFormed(List(child)) && WellFormed(List(parent))
    requires forall i | 0 <= i < |child| :: AnyEqual(child[i], parent)
    requires AnyEqual(value, child)
    ensures AnyEqual(value, parent)
  {
    var i :| 0 <= i < |child| && Equal(value, child[i]);
    var j :| 0 <= j < |parent| && Equal(child[i], parent[j]);
    EqualTransfers(value, child[i], parent[j]);
  }

  /** Type-strictly equal lists of scalars are the same list. */
  lemma ScalarListsCoincide(a: Value, b: Value)
    requires Equal(a, b) && a.List? && b.List? && OperandFits(Eq, a) && OperandFits(Eq, b)
    ensures a == b
  {
    assert a.items == b.items;
  }

  /** Whatever satisfies a condition satisfies every condition it is at least as strict as. */
  lemma StricterImplies(parent: Condition, child: Condition, arguments: Arguments)
    requires ValidCondition(parent) && ValidCondition(child) && parent.key == child.key
    requires forall k | k in arguments :: WellFormed(arguments[k])
    requires parent.op == child.op ==> AtLeastAsStrict(parent, child)
    requires Matches(child, arguments)
    ensures Matches(parent, arguments)
  {
    SameKeySameMeaning(parent, child);
    var value := arguments[child.argument];
    match parent.op
    case In =>
      if child.argument in DERIVED_SUBJECTS && value.List? {
        var i :| 0 <= i < |value.items| && AnyEqual(value.items[i], child.operand.items);
        AnyEqualTransfers(value.items[i], child.operand.items, parent.operand.items);
      } else {
        AnyEqualTransfers(value, child.operand.items, parent.operand.items);
      }
    case Eq =>
      EqualTransfers(value, child.operand, parent.operand);
      if child.operand.List? { ScalarListsCoincide(child.operand, parent.operand); }
    case Neq =>
      EqualTransfers(value, child.operand, parent.operand);
      if child.operand.List? { ScalarListsCoincide(child.operand, parent.operand); }
    case _ =>
  }

  /** Strictness composes, so a chain of attenuations is an attenuation. */
  lemma StrictnessComposes(a: Condition, b: Condition, c: Condition)
    requires ValidCondition(a) && ValidCondition(b) && ValidCondition(c)
    requires a.op == b.op == c.op && AtLeastAsStrict(a, b) && AtLeastAsStrict(b, c)
    ensures AtLeastAsStrict(a, c)
  {
    match a.op
    case In =>
      forall i | 0 <= i < |c.operand.items|
        ensures AnyEqual(c.operand.items[i], a.operand.items)
      {
        AnyEqualTransfers(c.operand.items[i], b.operand.items, a.operand.items);
      }
    case Eq => EqualTransfers(c.operand, b.operand, a.operand);
    case Neq => EqualTransfers(c.operand, b.operand, a.operand);
    case _ =>
  }
}
