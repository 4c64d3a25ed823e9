/**
  The values an argument or an operand may hold, and the type-strict equality of
  `src/ctrlrun/grammar.py` on them. A `Dict` keeps Python's insertion order; `Normal` forgets it.
 */
module Values {
  import opened Strings

  datatype Field = Field(key: string, value: Value)

  datatype Value =
    | Null
    | Bool(b: bool)
    | Int(n: int)
    | Str(s: string)
    | List(items: seq<Value>)
    | Dict(fields: seq<Field>)

  // --- dictionaries -----------------------------------------------------------------------

  function AsMap(fields: seq<Field>): map<string, Value> {
    if fields == [] then map[] else AsMap(fields[1..])[fields[0].key := fields[0].value]
  }

  ghost predicate DistinctKeys(fields: seq<Field>) {
    forall i, j | 0 <= i < j < |fields| :: fields[i].key != fields[j].key
  }

  /** Every dictionary at every depth has distinct keys, as a Python mapping does. */
  ghost predicate WellFormed(v: Value) {
    match v
    case List(items) => forall i | 0 <= i < |items| :: WellFormed(items[i])
    case Dict(fields) =>
      DistinctKeys(fields) && forall i | 0 <= i < |fields| :: WellFormed(fields[i].value)
    case _ => true
  }

  predicate IsContainer(v: Value) {
    v.List? || v.Dict?
  }

  /** `_equal`: `True` never equals `1`, and a list never equals a scalar, at any depth. */
  predicate Equal(value: Value, operand: Value) {
    if value.Bool? || operand.Bool? then value == operand
    else if value.Dict? && operand.Dict? then
      var other := AsMap(operand.fields);
      AsMap(value.fields).Keys == other.Keys
      && forall i | 0 <= i < |value.fields| ::
           value.fields[i].key in other && Equal(value.fields[i].value, other[value.fields[i].key])
    else if value.List? && operand.List? then
      |value.items| == |operand.items|
      && forall i | 0 <= i < |value.items| :: Equal(value.items[i], operand.items[i])
    else if IsContainer(value) || IsContainer(operand) then false
    else value == operand
  }

  // --- the normal form: every dictionary sorted by key ----------------------------------------

  function Insert(f: Field, sorted: seq<Field>): seq<Field> {
    if sorted == [] || Before(f.key, sorted[0].key) then [f] + sorted
    else [sorted[0]] + Insert(f, sorted[1..])
  }

  function Sort(fields: seq<Field>): seq<Field> {
    if fields == [] then [] else Insert(fields[0], Sort(fields[1..]))
  }

  function Normal(v: Value): Value {
    match v
    case List(items) => List(seq(|items|, i requires 0 <= i < |items| => Normal(items[i])))
    case Dict(fields) => Dict(Sort(NormalFields(fields)))
    case _ => v
  }

  function NormalFields(fields: seq<Field>): (r: seq<Field>)
    ensures |r| == |fields|
    ensures forall i | 0 <= i < |r| :: r[i] == Field(fields[i].key, Normal(fields[i].value))
  {
    seq(|fields|, i requires 0 <= i < |fields| => Field(fields[i].key, Normal(fields[i].value)))
  }

  ghost predicate Least(key: string, fields: seq<Field>) {
    forall f | f in fields :: Before(key, f.key)
  }

  ghost predicate StrictlySorted(fields: seq<Field>) {
    fields == [] || (Least(fields[0].key, fields[1..]) && StrictlySorted(fields[1..]))
  }

  lemma {:induction false} InsertSorts(f: Field, sorted: seq<Field>)
    requires StrictlySorted(sorted) && forall g | g in sorted :: g.key != f.key
    ensures StrictlySorted(Insert(f, sorted))
    ensures AsMap(Insert(f, sorted)) == AsMap(sorted)[f.key := f.value]
    ensures forall g | g in Insert(f, sorted) :: g == f || g in sorted
  {
    if sorted == [] {
      assert [f][1..] == sorted;
    } else if Before(f.key, sorted[0].key) {
      assert ([f] + sorted)[1..] == sorted;
      forall g | g in sorted ensures Before(f.key, g.key) {
        if g in sorted[1..] { BeforeIsTransitive(f.key, sorted[0].key, g.key); }
      }
    } else {
      BeforeIsTotal(f.key, sorted[0].key);
      InsertSorts(f, sorted[1..]);
      assert Insert(f, sorted)[1..] == Insert(f, sorted[1..]);
    }
  }

  lemma {:induction false} SortSorts(fields: seq<Field>)
    requires DistinctKeys(fields)
    ensures StrictlySorted(Sort(fields)) && AsMap(Sort(fields)) == AsMap(fields)
    ensures forall f | f in Sort(fields) :: f in fields
  {
    if fields != [] {
      SortSorts(fields[1..]);
      InsertSorts(fields[0], Sort(fields[1..]));
    }
  }

  /** The field a key of the mapping came from. */
  lemma {:induction false} FieldOf(fields: seq<Field>, key: string) returns (i: nat)
    requires key in AsMap(fields)
    ensures i < |fields| && fields[i].key == key && fields[i].value == AsMap(fields)[key]
  {
    if fields[0].key == key {
      i := 0;
    } else {
      i := FieldOf(fields[1..], key);
      i := i + 1;
    }
  }

  /** With distinct keys, each field is what its key looks up. */
  lemma {:induction false} FieldLookup(fields: seq<Field>, i: nat)
    requires DistinctKeys(fields) && i < |fields|
    ensures fields[i].key in AsMap(fields) && AsMap(fields)[fields[i].key] == fields[i].value
  {
    if i > 0 { FieldLookup(fields[1..], i - 1); }
  }

  lemma {:induction false} LeastIsAbsent(key: string, fields: seq<Field>)
    requires Least(key, fields)
    ensures key !in AsMap(fields)
  {
    if key in AsMap(fields) {
      var i := FieldOf(fields, key);
      BeforeIsStrict(key, fields[i].key);
    }
  }

  /** A strictly sorted list of fields is determined by the mapping it stands for. */
  lemma {:induction false} SortedDetermined(a: seq<Field>, b: seq<Field>)
    requires StrictlySorted(a) && StrictlySorted(b) && AsMap(a) == AsMap(b)
    ensures a == b
  {
    assert a != [] ==> AsMap(a) != map[] by { assert a != [] ==> a[0].key in AsMap(a); }
    assert b != [] ==> AsMap(b) != map[] by { assert b != [] ==> b[0].key in AsMap(b); }
    if a != [] && b != [] {
      if a[0].key != b[0].key {
        assert a[0].key in AsMap(b) && b[0].key in AsMap(a);
        var i := FieldOf(b, a[0].key);
        var j := FieldOf(a, b[0].key);
        assert b[i] in b[1..] && a[j] in a[1..];
        BeforeIsStrict(b[0].key, a[0].key);
      }
      var k := a[0].key;
      LeastIsAbsent(k, a[1..]);
      LeastIsAbsent(k, b[1..]);
      assert AsMap(a[1..]) == AsMap(a) - {k} == AsMap(b) - {k} == AsMap(b[1..]);
      SortedDetermined(a[1..], b[1..]);
      assert AsMap(a)[k] == AsMap(b)[k];
      assert a == [a[0]] + a[1..] && b == [b[0]] + b[1..];
    }
  }

  // --- equality is equality of normal forms ---------------------------------------------------

  /** Two dictionaries sort alike exactly when they hold the same keys with like values. */
  lemma NormalDictionaries(a: seq<Field>, b: seq<Field>)
    requires DistinctKeys(a) && DistinctKeys(b)
    ensures Sort(NormalFields(a)) == Sort(NormalFields(b))
       <==> AsMap(a).Keys == AsMap(b).Keys && forall i | 0 <= i < |a| ::
              a[i].key in AsMap(b) && Normal(a[i].value) == Normal(AsMap(b)[a[i].key])
  {
    SortedFormsAgree(NormalFields(a), NormalFields(b));
    NormalMapsAgree(a, b);
    if AsMap(a).Keys == AsMap(b).Keys { LikeByIndex(a, b); }
  }

  lemma SortedFormsAgree(a: seq<Field>, b: seq<Field>)
    requires DistinctKeys(a) && DistinctKeys(b)
    ensures Sort(a) == Sort(b) <==> AsMap(a) == AsMap(b)
  {
    SortSorts(a);
    SortSorts(b);
    if AsMap(a) == AsMap(b) { SortedDetermined(Sort(a), Sort(b)); }
  }

  lemma NormalMapsAgree(a: seq<Field>, b: seq<Field>)
    requires DistinctKeys(a) && DistinctKeys(b)
    ensures AsMap(NormalFields(a)) == AsMap(NormalFields(b)) <==>
      (AsMap(a).Keys == AsMap(b).Keys
       && forall k | k in AsMap(a) && k in AsMap(b) :: Normal(AsMap(a)[k]) == Normal(AsMap(b)[k]))
  {
    var na, nb := AsMap(NormalFields(a)), AsMap(NormalFields(b));
    NormalMap(a);
    NormalMap(b);
    assert na == nb ==> na.Keys == nb.Keys && forall k | k in AsMap(a) && k in AsMap(b) :: na[k] == nb[k];
  }

  lemma LikeByIndex(a: seq<Field>, b: seq<Field>)
    requires DistinctKeys(a) && AsMap(a).Keys == AsMap(b).Keys
    ensures (forall k | k in AsMap(a) && k in AsMap(b) :: Normal(AsMap(a)[k]) == Normal(AsMap(b)[k]))
       <==> forall i | 0 <= i < |a| ::
              a[i].key in AsMap(b) && Normal(a[i].value) == Normal(AsMap(b)[a[i].key])
  {
    forall i | 0 <= i < |a| ensures a[i].key in AsMap(a) && AsMap(a)[a[i].key] == a[i].value {
      FieldLookup(a, i);
    }
    if k :| k in AsMap(a) && k in AsMap(b) && Normal(AsMap(a)[k]) != Normal(AsMap(b)[k]) {
      var i := FieldOf(a, k);
    }
  }

  lemma {:induction false} NormalMap(fields: seq<Field>)
    requires DistinctKeys(fields)
    ensures AsMap(NormalFields(fields)).Keys == AsMap(fields).Keys
    ensures forall k | k in AsMap(fields) ::
      AsMap(NormalFields(fields))[k] == Normal(AsMap(fields)[k])
  {
    if fields != [] {
      NormalMap(fields[1..]);
      assert NormalFields(fields)[1..] == NormalFields(fields[1..]);
    }
  }

  /** Type-strict equality holds exactly when the sorted forms are the same value. */
  lemma {:induction false} EqualIsNormalEquality(v: Value, w: Value)
    requires WellFormed(v) && WellFormed(w)
    ensures Equal(v, w) <==> Normal(v) == Normal(w)
  {
    if v.List? && w.List? {
      forall i | 0 <= i < |v.items| && i < |w.items|
        ensures Equal(v.items[i], w.items[i]) <==> Normal(v.items[i]) == Normal(w.items[i])
      {
        EqualIsNormalEquality(v.items[i], w.items[i]);
      }
      if Normal(v) == Normal(w) {
        forall i | 0 <= i < |v.items| ensures Normal(v.items[i]) == Normal(w.items[i]) {
          assert Normal(v).items[i] == Normal(w).items[i];
        }
      }
    } else if v.Dict? && w.Dict? {
      var other := AsMap(w.fields);
      forall i | 0 <= i < |v.fields| && v.fields[i].key in other
        ensures Equal(v.fields[i].value, other[v.fields[i].key])
           <==> Normal(v.fields[i].value) == Normal(other[v.fields[i].key])
      {
        var j := FieldOf(w.fields, v.fields[i].key);
        EqualIsNormalEquality(v.fields[i].value, other[v.fields[i].key]);
      }
      NormalDictionaries(v.fields, w.fields);
    }
  }

  /** `_equal` is an equivalence on nested values. */
  lemma EqualIsEquivalence(u: Value, v: Value, w: Value)
    requires WellFormed(u) && WellFormed(v) && WellFormed(w)
    ensures Equal(u, u)
    ensures Equal(u, v) ==> Equal(v, u)
    ensures Equal(u, v) && Equal(v, w) ==> Equal(u, w)
  {
    EqualIsNormalEquality(u, u);
    EqualIsNormalEquality(u, v);
    EqualIsNormalEquality(v, u);
    EqualIsNormalEquality(v, w);
    EqualIsNormalEquality(u, w);
  }
}
