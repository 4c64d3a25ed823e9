/**
  The pattern language of `src/ctrlrun/authority.py`: a literal, a trailing `*` inside one
  segment, or a final `**` behind literal segments, and the containment relation attenuation
  rests on. The main result is that `Contains` decides language inclusion.
 */
module Patterns {
  import opened Options

  const DEEP_WILDCARD := "**"

  /** `.` for action names, `:` for resources and tasks, none for a subject. */
  type Separator = s: Option<char> | s.None? || s.value in {'.', ':'} witness None

  // --- segments ---------------------------------------------------------------------------

  /** Python's `str.split`: one more part than there are separators. */
  function Split(s: string, sep: char): (parts: seq<string>)
    ensures |parts| >= 1
    ensures forall p | p in parts :: sep !in p
  {
    if s == [] then [[]] else
    var rest := Split(s[1..], sep);
    if s[0] == sep then [[]] + rest else [[s[0]] + rest[0]] + rest[1..]
  }

  function Join(parts: seq<string>, sep: char): string
    requires |parts| >= 1
  {
    if |parts| == 1 then parts[0] else parts[0] + [sep] + Join(parts[1..], sep)
  }

  /** Any list of separator-free parts is what its joined text splits back into. */
  lemma {:induction false} SplitJoin(parts: seq<string>, sep: char)
    requires |parts| >= 1 && forall p | p in parts :: sep !in p
    ensures Split(Join(parts, sep), sep) == parts
    decreases |parts|, |parts[0]|
  {
    var text := Join(parts, sep);
    if parts[0] != [] {
      var shorter := [parts[0][1..]] + parts[1..];
      assert parts[0] in parts && forall c | c in parts[0][1..] :: c in parts[0];
      SplitJoin(shorter, sep);
      assert text[1..] == Join(shorter, sep);
      assert text[0] == parts[0][0] && parts[0][0] in parts[0];
      assert [parts[0][0]] + shorter[0] == parts[0] && shorter[1..] == parts[1..];
    } else if |parts| > 1 {
      SplitJoin(parts[1..], sep);
      assert text[1..] == Join(parts[1..], sep) && [[]] + parts[1..] == parts;
    }
  }

  function Segments(text: string, sep: Separator): (parts: seq<string>)
    ensures |parts| >= 1
  {
    if sep.None? then [text] else Split(text, sep.value)
  }

  /** A separator appears in no segment; without a separator there is one segment. */
  ghost predicate SegmentList(parts: seq<string>, sep: Separator) {
    |parts| >= 1 &&
    if sep.None? then |parts| == 1 else forall p | p in parts :: sep.value !in p
  }

  function Assemble(parts: seq<string>, sep: Separator): string
    requires |parts| >= 1
  {
    if sep.None? then parts[0] else Join(parts, sep.value)
  }

  lemma SegmentsAssemble(parts: seq<string>, sep: Separator)
    requires SegmentList(parts, sep)
    ensures Segments(Assemble(parts, sep), sep) == parts
  {
    if sep.Some? { SplitJoin(parts, sep.value); }
  }

  // --- the grammar ------------------------------------------------------------------------

  predicate EndsInStar(segment: string) {
    segment != [] && segment[|segment| - 1] == '*'
  }

  /** A segment that is a literal or a literal followed by one trailing `*`. */
  predicate PlainSegment(segment: string) {
    segment != [] && '*' !in segment[..|segment| - 1]
    && '?' !in segment && '[' !in segment && ']' !in segment
  }

  predicate ValidPattern(pattern: string, sep: Separator) {
    var parts := Segments(pattern, sep);
    forall i | 0 <= i < |parts| ::
      if parts[i] == DEEP_WILDCARD then
        sep.Some? && i == |parts| - 1 && (forall j | 0 <= j < i :: '*' !in parts[j])
      else PlainSegment(parts[i])
  }

  predicate IsDeep(parts: seq<string>)
    requires |parts| >= 1
  {
    parts[|parts| - 1] == DEEP_WILDCARD
  }

  function Init<T>(s: seq<T>): seq<T>
    requires |s| >= 1
  {
    s[..|s| - 1]
  }

  // --- matching and containment -----------------------------------------------------------

  predicate SegmentMatches(pattern: string, value: string) {
    if EndsInStar(pattern) then Init(pattern) <= value else pattern == value
  }

  predicate SegmentsMatch(parts: seq<string>, actual: seq<string>)
    requires |parts| >= 1
  {
    if IsDeep(parts) then |actual| > |Init(parts)| && actual[..|Init(parts)|] == Init(parts)
    else |parts| == |actual| && forall i | 0 <= i < |parts| :: SegmentMatches(parts[i], actual[i])
  }

  predicate Matches(pattern: string, value: string, sep: Separator) {
    SegmentsMatch(Segments(pattern, sep), Segments(value, sep))
  }

  predicate SegmentContains(parent: string, child: string) {
    if !EndsInStar(parent) then !EndsInStar(child) && parent == child
    else Init(parent) <= (if EndsInStar(child) then Init(child) else child)
  }

  predicate SegmentsContain(outer: seq<string>, inner: seq<string>)
    requires |outer| >= 1 && |inner| >= 1
  {
    if outer == [DEEP_WILDCARD] then true
    else if IsDeep(outer) then
      |inner| > |Init(outer)| && inner[..|Init(outer)|] == Init(outer)
    else if IsDeep(inner) || |inner| != |outer| then false
    else forall i | 0 <= i < |outer| :: SegmentContains(outer[i], inner[i])
  }

  predicate Contains(parent: string, child: string, sep: Separator) {
    SegmentsContain(Segments(parent, sep), Segments(child, sep))
  }

  // --- one segment ------------------------------------------------------------------------

  lemma SegmentSound(parent: string, child: string, value: string)
    requires SegmentContains(parent, child) && SegmentMatches(child, value)
    ensures SegmentMatches(parent, value)
  {
  }

  /** A value `child` matches that `parent` matches only where it contains `child`. */
  function SegmentWitness(parent: string, child: string): (value: string)
    requires PlainSegment(child)
    ensures SegmentMatches(child, value) && value != []
    ensures SegmentContains(parent, child) || !SegmentMatches(parent, value)
    ensures forall c | c in value :: c in child || c in "xy"
  {
    if !EndsInStar(child) then child else
    var base := Init(child);
    if SegmentMatches(parent, base + "x") then
      assert (base + "x")[|base|] == 'x' && (base + "y")[|base|] == 'y';
      assert (base + "x")[..|base|] == base && (base + "y")[..|base|] == base;
      assert !EndsInStar(parent) || |Init(parent)| <= |base| ==>
        Init(parent) == (base + "x")[..|Init(parent)|] == base[..|Init(parent)|];
      base + "y"
    else base + "x"
  }

  // --- whole patterns ---------------------------------------------------------------------

  /** A valid pattern cut into segments: only the last may be `**`, then behind literals. */
  ghost predicate ValidSegments(parts: seq<string>, sep: Separator) {
    SegmentList(parts, sep) &&
    forall i | 0 <= i < |parts| ::
      if parts[i] == DEEP_WILDCARD then
        sep.Some? && i == |parts| - 1 && (forall j | 0 <= j < i :: '*' !in parts[j])
      else PlainSegment(parts[i])
  }

  lemma SegmentsSound(outer: seq<string>, inner: seq<string>, actual: seq<string>, sep: Separator)
    requires ValidSegments(outer, sep) && ValidSegments(inner, sep) && |actual| >= 1
    requires SegmentsContain(outer, inner) && SegmentsMatch(inner, actual)
    ensures SegmentsMatch(outer, actual)
  {
    if IsDeep(outer) {
      var k := |outer| - 1;
      forall i | 0 <= i < k ensures actual[i] == outer[i] {
        assert outer[i] == Init(outer)[i] == inner[..k][i] == inner[i];
        assert '*' !in outer[i];
        if IsDeep(inner) {
          assert inner[i] == Init(inner)[i] == actual[..|inner| - 1][i];
        } else {
          assert SegmentMatches(inner[i], actual[i]);
        }
      }
      assert actual[..k] == Init(outer);
    } else {
      forall i | 0 <= i < |outer| ensures SegmentMatches(outer[i], actual[i]) {
        SegmentSound(outer[i], inner[i], actual[i]);
      }
    }
  }

  /** The segment the separating value carries where `inner` has its `i`th. */
  function Instance(outer: seq<string>, inner: seq<string>, i: nat): string
    requires i < |inner| && (inner[i] == DEEP_WILDCARD || PlainSegment(inner[i]))
  {
    if inner[i] == DEEP_WILDCARD then "x"
    else SegmentWitness(if i < |outer| then outer[i] else inner[i], inner[i])
  }

  function Instances(outer: seq<string>, inner: seq<string>): (r: seq<string>)
    requires forall i | 0 <= i < |inner| :: inner[i] == DEEP_WILDCARD || PlainSegment(inner[i])
    ensures |r| == |inner| && forall i | 0 <= i < |r| :: r[i] == Instance(outer, inner, i) && r[i] != []
  {
    seq(|inner|, i requires 0 <= i < |inner| => Instance(outer, inner, i))
  }

  lemma InstancesMatch(outer: seq<string>, inner: seq<string>, sep: Separator)
    requires ValidSegments(outer, sep) && ValidSegments(inner, sep)
    ensures SegmentList(Instances(outer, inner), sep) && SegmentsMatch(inner, Instances(outer, inner))
  {
    var actual := Instances(outer, inner);
    if IsDeep(inner) {
      forall i | 0 <= i < |inner| - 1 ensures actual[i] == inner[i] { assert '*' !in inner[i]; }
      assert actual[..|inner| - 1] == Init(inner);
    }
  }

  /** Beneath a fixed number of segments, a `**` child of that length has a longer value too. */
  lemma LongerInstance(outer: seq<string>, inner: seq<string>, sep: Separator) returns (actual: seq<string>)
    requires ValidSegments(outer, sep) && ValidSegments(inner, sep) && IsDeep(inner) && !IsDeep(outer)
    ensures SegmentList(actual, sep) && SegmentsMatch(inner, actual) && |actual| != |outer|
    ensures forall part | part in actual :: part != []
  {
    actual := Instances(outer, inner);
    InstancesMatch(outer, inner, sep);
    if |outer| == |inner| {
      assert (actual + ["x"])[..|inner| - 1] == actual[..|inner| - 1];
      actual := actual + ["x"];
    }
  }

  lemma InstancesEscape(outer: seq<string>, inner: seq<string>, sep: Separator)
    requires ValidSegments(outer, sep) && ValidSegments(inner, sep) && !SegmentsContain(outer, inner)
    requires IsDeep(outer) || !IsDeep(inner)
    ensures !SegmentsMatch(outer, Instances(outer, inner))
  {
    var actual := Instances(outer, inner);
    if IsDeep(outer) {
      var k := |outer| - 1;
      if |inner| > k {
        assert inner[..k] != Init(outer);
        var i :| 0 <= i < k && inner[i] != outer[i];
        assert '*' !in outer[i];
        assert actual[i] != outer[i] by { LiteralEscapes(outer, inner, i); }
        assert actual[..k][i] == actual[i] && Init(outer)[i] == outer[i];
      }
    } else if |inner| == |outer| {
      var i :| 0 <= i < |outer| && !SegmentContains(outer[i], inner[i]);
      assert !SegmentMatches(outer[i], actual[i]);
    }
  }

  lemma LiteralEscapes(outer: seq<string>, inner: seq<string>, i: nat)
    requires i < |inner| && i < |outer| && inner[i] != outer[i] && '*' !in outer[i]
    requires inner[i] == DEEP_WILDCARD || PlainSegment(inner[i])
    requires inner[i] == DEEP_WILDCARD ==> outer[i] != "x"
    ensures Instance(outer, inner, i) != outer[i]
  {
    if inner[i] != DEEP_WILDCARD { assert !SegmentContains(outer[i], inner[i]); }
  }

  /** Where `outer` does not contain `inner`, a segment list `inner` matches and `outer` does not. */
  lemma SegmentsSeparated(outer: seq<string>, inner: seq<string>, sep: Separator)
    returns (actual: seq<string>)
    requires ValidSegments(outer, sep) && ValidSegments(inner, sep)
    ensures SegmentList(actual, sep) && SegmentsMatch(inner, actual)
    ensures SegmentsContain(outer, inner) || !SegmentsMatch(outer, actual)
    ensures forall part | part in actual :: part != []
  {
    if IsDeep(inner) && !IsDeep(outer) {
      actual := LongerInstance(outer, inner, sep);
    } else {
      actual := Instances(outer, inner);
      InstancesMatch(outer, inner, sep);
      if !SegmentsContain(outer, inner) { InstancesEscape(outer, inner, sep); }
    }
  }

  /** A value that tells the two patterns apart wherever `Contains` answers no. */
  lemma Separated(parent: string, child: string, sep: Separator) returns (value: string)
    requires ValidPattern(parent, sep) && ValidPattern(child, sep)
    ensures value != [] && Matches(child, value, sep)
    ensures Contains(parent, child, sep) || !Matches(parent, value, sep)
  {
    var outer, inner := Segments(parent, sep), Segments(child, sep);
    var actual := SegmentsSeparated(outer, inner, sep);
    value := Assemble(actual, sep);
    SegmentsAssemble(actual, sep);
    assert actual[0] in actual;
  }

  /** `Contains` decides language inclusion, both directions, over every value. */
  lemma ContainsDecidesInclusion(parent: string, child: string, sep: Separator)
    requires ValidPattern(parent, sep) && ValidPattern(child, sep)
    ensures Contains(parent, child, sep)
       <==> forall value :: Matches(child, value, sep) ==> Matches(parent, value, sep)
  {
    if Contains(parent, child, sep) {
      forall value | Matches(child, value, sep) ensures Matches(parent, value, sep) {
        SegmentsSound(Segments(parent, sep), Segments(child, sep), Segments(value, sep), sep);
      }
    } else {
      var value := Separated(parent, child, sep);
      assert Matches(child, value, sep) && !Matches(parent, value, sep);
    }
  }

  lemma ContainsReflexive(pattern: string, sep: Separator)
    requires ValidPattern(pattern, sep)
    ensures Contains(pattern, pattern, sep)
  {
    ContainsDecidesInclusion(pattern, pattern, sep);
  }

  lemma ContainsTransitive(a: string, b: string, c: string, sep: Separator)
    requires ValidPattern(a, sep) && ValidPattern(b, sep) && ValidPattern(c, sep)
    requires Contains(a, b, sep) && Contains(b, c, sep)
    ensures Contains(a, c, sep)
  {
    ContainsDecidesInclusion(a, b, sep);
    ContainsDecidesInclusion(b, c, sep);
    ContainsDecidesInclusion(a, c, sep);
  }
}
