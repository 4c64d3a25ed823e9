/**
  The canonical form of `src/ctrlrun/action.py`: what is accepted, how it is encoded, and that the
  bytes decide type-strict equality. Every approval binds to these bytes through a hash, which is
  left uninterpreted.
 */
module Canonical {
  import opened Options
  import opened Values
  import opened Json
  import opened Actions
  import Strings

  // --- what Python hands over ---------------------------------------------------------------

  type CodePoint = c: int | 0 <= c < 0x11_0000

  datatype PyKey = TextKey(text: seq<CodePoint>) | OtherKey

  datatype Entry = Entry(key: PyKey, item: PyValue)

  /** `PyOther` is any type that is neither JSON's nor a float; a tuple is not a list here. */
  datatype PyValue =
    | PyNone
    | PyBool(b: bool)
    | PyInt(n: int)
    | PyFloat
    | PyText(text: seq<CodePoint>)
    | PyList(items: seq<PyValue>)
    | PyTuple(elements: seq<PyValue>)
    | PyMapping(entries: seq<Entry>)
    | PyOther

  predicate IsSurrogate(c: CodePoint) {
    0xD800 <= c < 0xE000
  }

  /** A `str` UTF-8 can encode: none of its code points is a lone surrogate. */
  predicate Encodable(text: seq<CodePoint>) {
    forall i | 0 <= i < |text| :: !IsSurrogate(text[i])
  }

  function Characters(text: seq<CodePoint>): (s: string)
    requires Encodable(text)
    ensures |s| == |text| && forall i | 0 <= i < |s| :: s[i] as int == text[i]
  {
    seq(|text|, i requires 0 <= i < |text| => text[i] as char)
  }

  /** The JSON value behind an accepted one, tuples as arrays, or `None` for `InvalidArgument`. */
  function Plain(p: PyValue): Option<Value>
    decreases p, 1
  {
    match p
    case PyNone => Some(Null)
    case PyBool(b) => Some(Bool(b))
    case PyInt(n) => Some(Int(n))
    case PyText(text) => if Encodable(text) then Some(Str(Characters(text))) else None
    case PyList(items) =>
      (match PlainItems(items) case None => None case Some(vs) => Some(List(vs)))
    case PyTuple(items) =>
      (match PlainItems(items) case None => None case Some(vs) => Some(List(vs)))
    case PyMapping(entries) =>
      (match PlainEntries(entries) case None => None case Some(fs) => Some(Dict(fs)))
    case _ => None
  }

  function PlainItems(items: seq<PyValue>): Option<seq<Value>>
    decreases items, 0
  {
    if items == [] then Some([]) else
    match Plain(items[0])
    case None => None
    case Some(v) => Prepend([v], PlainItems(items[1..]))
  }

  function PlainEntry(e: Entry): Option<Field>
    decreases e, 2
  {
    if e.key.OtherKey? || !Encodable(e.key.text) then None else
    match Plain(e.item)
    case None => None
    case Some(v) => Some(Field(Characters(e.key.text), v))
  }

  function PlainEntries(entries: seq<Entry>): Option<seq<Field>>
    decreases entries, 0
  {
    if entries == [] then Some([]) else
    match PlainEntry(entries[0])
    case None => None
    case Some(f) => Prepend([f], PlainEntries(entries[1..]))
  }

  function Prepend<T>(front: seq<T>, rest: Option<seq<T>>): Option<seq<T>> {
    match rest case None => None case Some(s) => Some(front + s)
  }

  lemma PrependNothing<T>(rest: Option<seq<T>>)
    ensures Prepend([], rest) == rest
  {
    if rest.Some? { assert [] + rest.value == rest.value; }
  }

  lemma PrependOne<T>(front: seq<T>, x: T, rest: Option<seq<T>>)
    ensures Prepend(front, Prepend([x], rest)) == Prepend(front + [x], rest)
  {
    if rest.Some? { assert front + ([x] + rest.value) == (front + [x]) + rest.value; }
  }

  /** No float, no foreign type, only text keys, and no lone surrogate, at any depth. */
  ghost predicate Acceptable(p: PyValue) {
    match p
    case PyFloat => false
    case PyOther => false
    case PyText(text) => Encodable(text)
    case PyList(items) => forall i | 0 <= i < |items| :: Acceptable(items[i])
    case PyTuple(items) => forall i | 0 <= i < |items| :: Acceptable(items[i])
    case PyMapping(entries) => forall i | 0 <= i < |entries| ::
      entries[i].key.TextKey? && Encodable(entries[i].key.text) && Acceptable(entries[i].item)
    case _ => true
  }

  /** Python's own mappings: no two entries of one mapping share a key. */
  ghost predicate DistinctEntries(p: PyValue) {
    match p
    case PyList(items) => forall i | 0 <= i < |items| :: DistinctEntries(items[i])
    case PyTuple(items) => forall i | 0 <= i < |items| :: DistinctEntries(items[i])
    case PyMapping(entries) =>
      (forall i, j | 0 <= i < j < |entries| && entries[i].key.TextKey? :: entries[i].key != entries[j].key)
      && forall i | 0 <= i < |entries| :: DistinctEntries(entries[i].item)
    case _ => true
  }

  /** A value is refused exactly for the reasons the canonicalizer states. */
  lemma {:induction false} AcceptedExactly(p: PyValue)
    ensures Plain(p).Some? <==> Acceptable(p)
    ensures Plain(p).Some? && DistinctEntries(p) ==> WellFormed(Plain(p).value)
    decreases p, 1
  {
    match p
    case PyList(items) => AcceptedItems(items);
    case PyTuple(items) => AcceptedItems(items);
    case PyMapping(entries) =>
      AcceptedEntries(entries);
      if Plain(p).Some? && DistinctEntries(p) {
        var fields := PlainEntries(entries).value;
        forall i, j | 0 <= i < j < |fields| ensures fields[i].key != fields[j].key {
          SameCharacters(entries[i].key.text, entries[j].key.text);
        }
      }
    case _ =>
  }

  lemma SameCharacters(a: seq<CodePoint>, b: seq<CodePoint>)
    requires Encodable(a) && Encodable(b)
    ensures Characters(a) == Characters(b) ==> a == b
  {
    if Characters(a) == Characters(b) {
      forall i | 0 <= i < |a| ensures a[i] == b[i] {
        assert Characters(a)[i] == Characters(b)[i];
      }
    }
  }

  lemma {:induction false} AcceptedItems(items: seq<PyValue>)
    ensures PlainItems(items).Some? <==> forall i | 0 <= i < |items| :: Acceptable(items[i])
    ensures PlainItems(items).Some? ==> |PlainItems(items).value| == |items|
    ensures PlainItems(items).Some? ==> forall i | 0 <= i < |items| ::
      DistinctEntries(items[i]) ==> WellFormed(PlainItems(items).value[i])
    decreases items, 0
  {
    if items != [] {
      AcceptedExactly(items[0]);
      AcceptedItems(items[1..]);
      assert items == [items[0]] + items[1..];
    }
  }

  lemma {:induction false} AcceptedEntries(entries: seq<Entry>)
    ensures PlainEntries(entries).Some? <==> forall i | 0 <= i < |entries| ::
      entries[i].key.TextKey? && Encodable(entries[i].key.text) && Acceptable(entries[i].item)
    ensures PlainEntries(entries).Some? ==> |PlainEntries(entries).value| == |entries|
    ensures PlainEntries(entries).Some? ==> forall i | 0 <= i < |entries| ::
      PlainEntries(entries).value[i].key == Characters(entries[i].key.text)
      && (DistinctEntries(entries[i].item) ==> WellFormed(PlainEntries(entries).value[i].value))
    decreases entries, 0
  {
    if entries != [] {
      assert (entries decreases to entries[0]) && (entries[0] decreases to entries[0].item);
      AcceptedExactly(entries[0].item);
      AcceptedEntries(entries[1..]);
      assert entries == [entries[0]] + entries[1..];
    }
  }

  // --- freezing: the constructor's own walk -----------------------------------------------------

  /** `_frozen_value`: accepts what the canonicalizer accepts, so no `Action` is unhashable. */
  method FrozenValue(p: PyValue) returns (r: Option<Value>)
    ensures r == Plain(p)
    decreases p, 1
  {
    match p
    case PyFloat => r := None;
    case PyText(text) => r := if Encodable(text) then Some(Str(Characters(text))) else None;
    case PyNone => r := Some(Null);
    case PyBool(b) => r := Some(Bool(b));
    case PyInt(n) => r := Some(Int(n));
    case PyMapping(entries) =>
      var fields := FrozenMapping(entries);
      r := match fields case None => None case Some(fs) => Some(Dict(fs));
    case PyList(items) =>
      var frozen := FrozenItems(items);
      r := match frozen case None => None case Some(vs) => Some(List(vs));
    case PyTuple(items) =>
      var frozen := FrozenItems(items);
      r := match frozen case None => None case Some(vs) => Some(List(vs));
    case PyOther => r := None;
  }

  method FrozenItems(items: seq<PyValue>) returns (r: Option<seq<Value>>)
    ensures r == PlainItems(items)
    decreases items, 0
  {
    var result: seq<Value> := [];
    PrependNothing(PlainItems(items));
    assert items[0..] == items;
    for i := 0 to |items|
      invariant PlainItems(items) == Prepend(result, PlainItems(items[i..]))
    {
      var v := FrozenValue(items[i]);
      assert items[i..][1..] == items[i + 1..];
      if v.None? { return None; }
      PrependOne(result, v.value, PlainItems(items[i + 1..]));
      result := result + [v.value];
    }
    assert result + [] == result;
    return Some(result);
  }

  /** `_frozen_mapping`: one refusal for a key that is not text, one for a key UTF-8 cannot hold. */
  method FrozenMapping(entries: seq<Entry>) returns (r: Option<seq<Field>>)
    ensures r == PlainEntries(entries)
    decreases entries, 0
  {
    var result: seq<Field> := [];
    PrependNothing(PlainEntries(entries));
    assert entries[0..] == entries;
    for i := 0 to |entries|
      invariant PlainEntries(entries) == Prepend(result, PlainEntries(entries[i..]))
    {
      var key := entries[i].key;
      assert entries[i..][1..] == entries[i + 1..];
      if key.OtherKey? || !Encodable(key.text) { return None; }
      assert (entries decreases to entries[i]) && (entries[i] decreases to entries[i].item);
      var v := FrozenValue(entries[i].item);
      if v.None? { return None; }
      PrependOne(result, Field(Characters(key.text), v.value), PlainEntries(entries[i + 1..]));
      result := result + [Field(Characters(key.text), v.value)];
    }
    assert result + [] == result;
    return Some(result);
  }

  // --- the bytes --------------------------------------------------------------------------

  /** Sorted keys at every depth, no whitespace, UTF-8. */
  function Form(v: Value): seq<Byte> {
    EncodeUtf8(Print(Normal(v)))
  }

  function CanonicalBytes(payload: PyValue): Option<seq<Byte>> {
    match Plain(payload) case None => None case Some(v) => Some(Form(v))
  }

  function Loads(bytes: seq<Byte>): Option<Value> {
    match DecodeUtf8(bytes)
    case None => None
    case Some(text) =>
      match ParseValue(text)
      case Fail => None
      case Done(v, rest) => if rest == [] then Some(v) else None
  }

  lemma LoadsForm(v: Value)
    ensures Loads(Form(v)) == Some(Normal(v))
  {
    Utf8RoundTrip(Print(Normal(v)));
    ValueRoundTrip(Normal(v), []);
    assert Print(Normal(v)) + [] == Print(Normal(v));
  }

  lemma {:induction false} NormalIsWellFormed(v: Value)
    requires WellFormed(v)
    ensures WellFormed(Normal(v)) && Normal(Normal(v)) == Normal(v)
  {
    match v
    case List(items) =>
      forall i | 0 <= i < |items|
        ensures WellFormed(Normal(items[i])) && Normal(Normal(items[i])) == Normal(items[i])
      {
        NormalIsWellFormed(items[i]);
      }
      assert Normal(Normal(v)).items == Normal(v).items;
    case Dict(fields) =>
      var once := Sort(NormalFields(fields));
      SortSorts(NormalFields(fields));
      forall f | f in once
        ensures WellFormed(f.value) && Normal(f.value) == f.value
      {
        var i :| 0 <= i < |fields| && f == NormalFields(fields)[i];
        NormalIsWellFormed(fields[i].value);
      }
      SortedIsDistinct(once);
      assert NormalFields(once) == once;
      SortSorts(once);
      SortedDetermined(Sort(once), once);
    case _ =>
  }

  lemma {:induction false} SortedIsDistinct(fields: seq<Field>)
    requires StrictlySorted(fields)
    ensures DistinctKeys(fields)
  {
    if fields != [] {
      SortedIsDistinct(fields[1..]);
      forall j | 0 < j < |fields| ensures fields[0].key != fields[j].key {
        assert fields[j] in fields[1..];
        Strings.BeforeIsStrict(fields[0].key, fields[j].key);
      }
    }
  }

  /** The bytes are equal exactly when the values are type-strictly equal. */
  lemma FormDecidesEquality(v: Value, w: Value)
    requires WellFormed(v) && WellFormed(w)
    ensures Form(v) == Form(w) <==> Equal(v, w)
  {
    EqualIsNormalEquality(v, w);
    LoadsForm(v);
    LoadsForm(w);
  }

  /** Reading the bytes back gives a value type-strictly equal to the one that was encoded. */
  lemma FormRoundTrips(v: Value)
    requires WellFormed(v)
    ensures Loads(Form(v)).Some? && Equal(v, Loads(Form(v)).value)
    ensures Form(Loads(Form(v)).value) == Form(v)
  {
    LoadsForm(v);
    NormalIsWellFormed(v);
    EqualIsNormalEquality(v, Normal(v));
  }

  /** Two accepted documents share a canonical form exactly when they are the same document. */
  lemma CanonicalBytesDecideEquality(p: PyValue, q: PyValue)
    requires DistinctEntries(p) && DistinctEntries(q) && Acceptable(p) && Acceptable(q)
    ensures CanonicalBytes(p).Some? && CanonicalBytes(q).Some?
    ensures Plain(p).Some? && Plain(q).Some?
    ensures CanonicalBytes(p) == CanonicalBytes(q) <==> Equal(Plain(p).value, Plain(q).value)
  {
    AcceptedExactly(p);
    AcceptedExactly(q);
    FormDecidesEquality(Plain(p).value, Plain(q).value);
  }

  // --- actions ----------------------------------------------------------------------------

  const ACTION_SCHEMA := "ctrlrun.action/v1"
  const IDEMPOTENCY_SCHEMA := "ctrlrun.idempotency/v1"

  function Nullable(s: Option<string>): Value {
    match s case None => Null case Some(text) => Str(text)
  }

  function PrincipalPayload(p: Principal): seq<Field> {
    [Field("agent", Str(p.agent)), Field("user", Nullable(p.user))]
  }

  function Payload(a: Action): seq<Field> {
    [Field("arguments", Dict(a.arguments)),
     Field("environment", Str(a.environment)),
     Field("name", Str(a.name)),
     Field("principal", Dict(PrincipalPayload(a.principal))),
     Field("resource", Nullable(a.resource)),
     Field("schema", Str(ACTION_SCHEMA))]
  }

  function Canonicalize(a: Action): seq<Byte> {
    Form(Dict(Payload(a)))
  }

  /** Dictionaries listing the same distinct keys compare field by field. */
  lemma EqualByField(a: seq<Field>, b: seq<Field>)
    requires DistinctKeys(a) && |a| == |b| && forall i | 0 <= i < |a| :: a[i].key == b[i].key
    ensures Equal(Dict(a), Dict(b)) <==> forall i | 0 <= i < |a| :: Equal(a[i].value, b[i].value)
  {
    SameKeys(a, b);
    forall i | 0 <= i < |b| ensures b[i].key in AsMap(b) && AsMap(b)[b[i].key] == b[i].value {
      FieldLookup(b, i);
    }
  }

  lemma {:induction false} SameKeys(a: seq<Field>, b: seq<Field>)
    requires |a| == |b| && forall i | 0 <= i < |a| :: a[i].key == b[i].key
    ensures AsMap(a).Keys == AsMap(b).Keys
  {
    if a != [] { SameKeys(a[1..], b[1..]); }
  }

  lemma PayloadIsWellFormed(a: Action)
    requires ValidAction(a)
    ensures WellFormed(Dict(Payload(a)))
  {
    var p, q := Payload(a), PrincipalPayload(a.principal);
    assert p[0].key[0] == 'a' && p[1].key[0] == 'e' && p[2].key[0] == 'n';
    assert p[3].key[0] == 'p' && p[4].key[0] == 'r' && p[5].key[0] == 's';
    assert q[0].key[0] == 'a' && q[1].key[0] == 'u';
    assert WellFormed(Dict(q));
  }

  /** The same proposal: everything an approval binds to, and nothing else. */
  ghost predicate SameProposal(a: Action, b: Action) {
    && a.name == b.name
    && Equal(Dict(a.arguments), Dict(b.arguments))
    && a.principal.agent == b.principal.agent
    && a.principal.user == b.principal.user
    && a.resource == b.resource
    && a.environment == b.environment
  }

  lemma SamePrincipalPayload(p: Principal, q: Principal)
    ensures Equal(Dict(PrincipalPayload(p)), Dict(PrincipalPayload(q)))
       <==> p.agent == q.agent && p.user == q.user
  {
    var a, b := PrincipalPayload(p), PrincipalPayload(q);
    assert a[0].key[0] == 'a' && a[1].key[0] == 'u';
    EqualByField(a, b);
    assert (forall i | 0 <= i < |a| :: Equal(a[i].value, b[i].value))
      <==> Equal(a[0].value, b[0].value) && Equal(a[1].value, b[1].value);
  }

  lemma SixFields(a: seq<Field>, b: seq<Field>)
    requires |a| == 6 == |b|
    ensures (forall i | 0 <= i < |a| :: Equal(a[i].value, b[i].value))
       <==> (&& Equal(a[0].value, b[0].value) && Equal(a[1].value, b[1].value)
             && Equal(a[2].value, b[2].value) && Equal(a[3].value, b[3].value)
             && Equal(a[4].value, b[4].value) && Equal(a[5].value, b[5].value))
  {
  }

  lemma TextsAreEqual(s: string, t: string)
    ensures Equal(Str(s), Str(t)) <==> s == t
  {
  }

  lemma NullablesAreEqual(s: Option<string>, t: Option<string>)
    ensures Equal(Nullable(s), Nullable(t)) <==> s == t
  {
  }

  /** Two actions share a canonical form exactly when they are the same proposal. */
  lemma SameFormIsSameProposal(a: Action, b: Action)
    requires ValidAction(a) && ValidAction(b)
    ensures Canonicalize(a) == Canonicalize(b) <==> SameProposal(a, b)
  {
    var pa, pb := Payload(a), Payload(b);
    PayloadIsWellFormed(a);
    PayloadIsWellFormed(b);
    FormDecidesEquality(Dict(pa), Dict(pb));
    EqualByField(pa, pb);
    SixFields(pa, pb);
    TextsAreEqual(a.environment, b.environment);
    TextsAreEqual(a.name, b.name);
    SamePrincipalPayload(a.principal, b.principal);
    NullablesAreEqual(a.resource, b.resource);
    TextsAreEqual(ACTION_SCHEMA, ACTION_SCHEMA);
  }

  /** What an executor is handed: the arguments parsed back out of the canonical form. */
  lemma ExecutorSeesTheArguments(a: Action)
    requires ValidAction(a)
    ensures var read := Loads(Canonicalize(a));
      read.Some? && read.value.Dict? && "arguments" in AsMap(read.value.fields)
      && Equal(Dict(a.arguments), AsMap(read.value.fields)["arguments"])
  {
    PayloadIsWellFormed(a);
    FormRoundTrips(Dict(Payload(a)));
    LoadsForm(Dict(Payload(a)));
    assert Payload(a)[0].key == "arguments";
    FieldLookup(Payload(a), 0);
  }

  // --- idempotency tokens -----------------------------------------------------------------

  /** The bytes an idempotency token is hashed from. */
  function TokenInput(effectKey: string, attempt: int): seq<Byte> {
    Form(Dict(TokenPayload(effectKey, attempt)))
  }

  function TokenPayload(effectKey: string, attempt: int): seq<Field> {
    [Field("schema", Str(IDEMPOTENCY_SCHEMA)), Field("effect_key", Str(effectKey)), Field("attempt", Int(attempt))]
  }

  lemma SameTokenPayload(k1: string, n1: int, k2: string, n2: int)
    ensures WellFormed(Dict(TokenPayload(k1, n1)))
    ensures Equal(Dict(TokenPayload(k1, n1)), Dict(TokenPayload(k2, n2))) <==> k1 == k2 && n1 == n2
  {
    var p, q := TokenPayload(k1, n1), TokenPayload(k2, n2);
    assert p[0].key[0] == 's' && p[1].key[0] == 'e' && p[2].key[0] == 'a';
    EqualByField(p, q);
    assert (forall i | 0 <= i < |p| :: Equal(p[i].value, q[i].value))
      <==> Equal(p[0].value, q[0].value) && Equal(p[1].value, q[1].value) && Equal(p[2].value, q[2].value);
  }

  /** A token's input names one attempt on one key, and is never an action's canonical form. */
  lemma TokenInputNamesTheAttempt(k1: string, n1: int, k2: string, n2: int, a: Action)
    requires ValidAction(a)
    ensures TokenInput(k1, n1) == TokenInput(k2, n2) <==> k1 == k2 && n1 == n2
    ensures TokenInput(k1, n1) != Canonicalize(a)
  {
    var p, q := TokenPayload(k1, n1), TokenPayload(k2, n2);
    SameTokenPayload(k1, n1, k2, n2);
    SameTokenPayload(k2, n2, k1, n1);
    FormDecidesEquality(Dict(p), Dict(q));
    PayloadIsWellFormed(a);
    FormDecidesEquality(Dict(p), Dict(Payload(a)));
    FieldLookup(Payload(a), 2);
    assert "name"[0] == 'n' && p[0].key[0] == 's' && p[1].key[0] == 'e' && p[2].key[0] == 'a';
    if "name" in AsMap(p) {
      var i := FieldOf(p, "name");
      assert false;
    }
  }
}
