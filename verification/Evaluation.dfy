/**
  Evaluating an action against the authority: `Authority.evaluate`, `_candidates` and
  `_hop_candidate` of `src/ctrlrun/authority.py`, over an arbitrary store.
 */
module Evaluation {
  import opened Options
  import opened Actions
  import opened Grants
  import opened Chains
  import Strings

  /** A grant that could decide the action; `row` is there where the store supplied it. */
  datatype Candidate = Candidate(id: string, grant: Grant, row: Option<Row>)

  datatype Result = Result(
    passed: bool,
    reason: Reason,
    grantId: Option<string>,
    delegationId: Option<string>,
    depth: nat,
    hop: Option<string>,
    detail: Detail)

  const PRECEDENCE: seq<Reason> := [
    AuthorityUnreadable, AuthorityEscalation, AuthorityRevoked, AuthorityExpired,
    AuthorityTask, AuthorityConstraint, AuthorityHop, NoAuthority]

  ghost predicate ValidCandidate(c: Candidate) {
    && ValidGrant(c.grant)
    && (c.row.Some? ==> c.row.value.grant == Some(c.grant) && c.row.value.id == c.id)
  }

  // --- judging one candidate ----------------------------------------------------------------

  /** What one candidate says: not its action, an unreadable chain, or every reason it fails for. */
  datatype Judgement = Elsewhere | Aborts(id: string) | Judged(depth: nat, failures: seq<Failure>)

  datatype Verdict = Verdict(id: string, delegated: bool, judgement: Judgement)

  function OwnFailures(g: Grant, a: Action, now: int, task: TaskQuery): seq<Failure>
    requires ValidGrant(g)
  {
    (if IsExpired(g, now) then [Failure(AuthorityExpired, NoDetail)] else [])
    + (if ConstraintsHold(g, a) then [] else [Failure(AuthorityConstraint, NoDetail)])
    + (if TaskCovered(g, task) then [] else [Failure(AuthorityTask, NoDetail)])
  }

  function Judge(d: Document, rows: Rows, c: Candidate, a: Action, now: int, task: TaskQuery): Verdict
    requires ValidDocument(d) && ValidRows(rows) && ValidCandidate(c)
  {
    Verdict(c.id, c.row.Some?,
            if UnmatchedShape(c.grant, a).Some? then Elsewhere else
            var check := if c.row.None? then ChainChecked(0, None) else CheckChain(d, rows, c.row.value, now);
            if check.ChainUnreadable? then Aborts(check.id) else
            Judged(check.depth,
                   (if check.failure.Some? then [check.failure.value] else []) + OwnFailures(c.grant, a, now, task)))
  }

  // --- choosing among verdicts ----------------------------------------------------------------

  function NamedDelegation(v: Verdict): Option<string> {
    if v.delegated then Some(v.id) else None
  }

  function PassResult(v: Verdict): Result
    requires v.judgement.Judged?
  {
    Result(true, AuthorityGrant, Some(v.id), NamedDelegation(v), v.judgement.depth, None, NoDetail)
  }

  function FailResult(v: Verdict, f: Failure): Result
    requires v.judgement.Judged?
  {
    Result(false, f.reason, Some(v.id), NamedDelegation(v), v.judgement.depth, None, f.detail)
  }

  predicate Passes(v: Verdict) {
    v.judgement.Judged? && v.judgement.failures == []
  }

  function FirstAbort(vs: seq<Verdict>): Option<string> {
    if vs == [] then None
    else if vs[0].judgement.Aborts? then Some(vs[0].judgement.id)
    else FirstAbort(vs[1..])
  }

  function Passed(vs: seq<Verdict>): seq<Result> {
    if vs == [] then [] else
    var last := vs[|vs| - 1];
    Passed(vs[..|vs| - 1]) + if Passes(last) then [PassResult(last)] else []
  }

  function Picked(v: Verdict, failures: seq<Failure>, reason: Reason): seq<Result>
    requires v.judgement.Judged?
  {
    if failures == [] then [] else
    var last := failures[|failures| - 1];
    Picked(v, failures[..|failures| - 1], reason) + if last.reason == reason then [FailResult(v, last)] else []
  }

  function FailuresOf(v: Verdict, reason: Reason): seq<Result> {
    if v.judgement.Judged? then Picked(v, v.judgement.failures, reason) else []
  }

  function Failed(vs: seq<Verdict>, reason: Reason): seq<Result> {
    if vs == [] then [] else Failed(vs[..|vs| - 1], reason) + FailuresOf(vs[|vs| - 1], reason)
  }

  function GrantKey(r: Result): string {
    if r.grantId.Some? then r.grantId.value else []
  }

  /** `min(..., key=_by_grant_id)`: the first of the results no other comes before. */
  function Least(rs: seq<Result>): Result
    requires rs != []
  {
    if |rs| == 1 then rs[0] else
    var best, last := Least(rs[..|rs| - 1]), rs[|rs| - 1];
    if Strings.Before(GrantKey(last), GrantKey(best)) then last else best
  }

  function FirstFailed(vs: seq<Verdict>, reasons: seq<Reason>, hop: Option<string>): Result {
    if reasons == [] then Result(false, NoAuthority, None, None, 0, hop, NoDetail)
    else if Failed(vs, reasons[0]) != [] then Least(Failed(vs, reasons[0])).(hop := hop)
    else FirstFailed(vs, reasons[1..], hop)
  }

  function UnreadableResult(id: string, hop: Option<string>): Result {
    Result(false, AuthorityUnreadable, None, Some(id), 0, hop, NoDetail)
  }

  function Select(vs: seq<Verdict>, hop: Option<string>): Result {
    if FirstAbort(vs).Some? then UnreadableResult(FirstAbort(vs).value, hop)
    else if Passed(vs) != [] then Least(Passed(vs)).(hop := hop)
    else FirstFailed(vs, PRECEDENCE, hop)
  }

  // --- the candidates ----------------------------------------------------------------------

  datatype Found =
    | Candidates(list: seq<Candidate>)
    | RowUnreadable(id: string)
    | HopRefused(grantId: Option<string>, detail: Detail)

  ghost predicate Enumerates(order: seq<string>, rows: Rows) {
    && (forall id :: id in order <==> id in rows)
    && (forall i, j | 0 <= i < j < |order| :: order[i] != order[j])
  }

  function DocumentCandidates(d: Document, listed: seq<string>): (cs: seq<Candidate>)
    requires forall id | id in listed :: id in d.grants
    ensures |cs| == |listed|
    ensures forall i | 0 <= i < |cs| :: cs[i] == Candidate(listed[i], d.grants[listed[i]], None)
  {
    seq(|listed|, i requires 0 <= i < |listed| => Candidate(listed[i], d.grants[listed[i]], None))
  }

  function FirstUnreadable(rows: Rows, order: seq<string>): Option<string>
    requires forall id | id in order :: id in rows
  {
    if order == [] then None
    else if rows[order[0]].grant.None? then Some(order[0])
    else FirstUnreadable(rows, order[1..])
  }

  lemma {:induction false} FirstUnreadableFinds(rows: Rows, order: seq<string>)
    requires forall id | id in order :: id in rows
    ensures FirstUnreadable(rows, order).None? <==> forall id | id in order :: rows[id].grant.Some?
  {
    if order != [] {
      FirstUnreadableFinds(rows, order[1..]);
      assert forall id :: id in order <==> id == order[0] || id in order[1..];
    }
  }

  function RowCandidates(rows: Rows, order: seq<string>): (cs: seq<Candidate>)
    requires forall id | id in order :: id in rows && rows[id].grant.Some?
    ensures |cs| == |order|
    ensures forall i | 0 <= i < |cs| :: cs[i] == Candidate(order[i], rows[order[i]].grant.value, Some(rows[order[i]]))
  {
    seq(|order|, i requires 0 <= i < |order| => Candidate(order[i], rows[order[i]].grant.value, Some(rows[order[i]])))
  }

  /** Without a hop, the document's grants and then the store's; with one, that delegation alone. */
  function CandidatesFor(d: Document, rows: Rows, order: seq<string>, a: Action, hop: Option<string>): Found
    requires ValidDocument(d) && ValidRows(rows) && Enumerates(order, rows)
  {
    FirstUnreadableFinds(rows, order);
    if hop.None? then
      if FirstUnreadable(rows, order).Some? then RowUnreadable(FirstUnreadable(rows, order).value)
      else Candidates(DocumentCandidates(d, d.listed) + RowCandidates(rows, order))
    else if hop.value !in rows then HopRefused(None, NoDetail)
    else
      var row := rows[hop.value];
      if row.grant.None? then RowUnreadable(row.id)
      else if UnmatchedShape(row.grant.value, a).Some? then
        HopRefused(hop, AtDimension(UnmatchedShape(row.grant.value, a).value))
      else Candidates([Candidate(row.id, row.grant.value, Some(row))])
  }

  lemma CandidatesAreValid(d: Document, rows: Rows, order: seq<string>, a: Action, hop: Option<string>)
    requires ValidDocument(d) && ValidRows(rows) && Enumerates(order, rows)
    ensures var found := CandidatesFor(d, rows, order, a, hop);
      found.Candidates? ==> forall i | 0 <= i < |found.list| :: ValidCandidate(found.list[i])
  {
    FirstUnreadableFinds(rows, order);
  }

  function JudgeAll(d: Document, rows: Rows, cs: seq<Candidate>, a: Action, now: int,
                    task: TaskQuery): (vs: seq<Verdict>)
    requires ValidDocument(d) && ValidRows(rows) && forall i | 0 <= i < |cs| :: ValidCandidate(cs[i])
    ensures |vs| == |cs|
    ensures forall i | 0 <= i < |vs| :: vs[i] == Judge(d, rows, cs[i], a, now, task)
  {
    seq(|cs|, i requires 0 <= i < |cs| => Judge(d, rows, cs[i], a, now, task))
  }

  /** What evaluation decides, as a function of its inputs. */
  function Decision(d: Document, rows: Rows, order: seq<string>, a: Action, now: int, task: TaskQuery,
                    hop: Option<string>): Result
    requires ValidDocument(d) && ValidRows(rows) && Enumerates(order, rows)
  {
    CandidatesAreValid(d, rows, order, a, hop);
    match CandidatesFor(d, rows, order, a, hop)
    case RowUnreadable(id) => UnreadableResult(id, hop)
    case HopRefused(grantId, detail) => Result(false, AuthorityHop, grantId, None, 0, hop, detail)
    case Candidates(cs) => Select(JudgeAll(d, rows, cs, a, now, task), hop)
  }

  // --- the loop of `evaluate` ----------------------------------------------------------------

  function Held(failed: map<Reason, seq<Result>>, reason: Reason): seq<Result> {
    if reason in failed then failed[reason] else []
  }

  ghost predicate NoAbort(vs: seq<Verdict>) {
    forall i | 0 <= i < |vs| :: !vs[i].judgement.Aborts?
  }

  lemma {:induction false} FirstAbortFinds(vs: seq<Verdict>, n: nat)
    requires n <= |vs| && NoAbort(vs[..n])
    ensures n < |vs| && vs[n].judgement.Aborts? ==> FirstAbort(vs) == Some(vs[n].judgement.id)
    ensures n == |vs| ==> FirstAbort(vs).None?
  {
    if n > 0 {
      assert vs[0] == vs[..n][0];
      assert vs[1..][..n - 1] == vs[..n][1..];
      FirstAbortFinds(vs[1..], n - 1);
    }
  }

  lemma FailedNext(vs: seq<Verdict>, v: Verdict, r: Reason)
    ensures Failed(vs + [v], r) == Failed(vs, r) + FailuresOf(v, r)
  {
    assert (vs + [v])[..|vs|] == vs;
  }

  lemma PassedNext(vs: seq<Verdict>, v: Verdict)
    ensures Passed(vs + [v]) == Passed(vs) + if Passes(v) then [PassResult(v)] else []
  {
    assert (vs + [v])[..|vs|] == vs;
  }

  ghost predicate Tallied(failed: map<Reason, seq<Result>>, vs: seq<Verdict>) {
    (forall r | r in failed :: failed[r] != []) && forall r: Reason :: Held(failed, r) == Failed(vs, r)
  }

  /** Part of one verdict's failures collected, onto those of the verdicts before. */
  ghost predicate PartTallied(failed: map<Reason, seq<Result>>, vs: seq<Verdict>, v: Verdict, part: seq<Failure>)
    requires v.judgement.Judged?
  {
    && (forall r | r in failed :: failed[r] != [])
    && forall r: Reason :: Held(failed, r) == Failed(vs, r) + Picked(v, part, r)
  }

  lemma PartNext(failed: map<Reason, seq<Result>>, vs: seq<Verdict>, v: Verdict, part: seq<Failure>, f: Failure)
    requires v.judgement.Judged? && PartTallied(failed, vs, v, part)
    ensures PartTallied(failed[f.reason := Held(failed, f.reason) + [FailResult(v, f)]], vs, v, part + [f])
  {
    var more := failed[f.reason := Held(failed, f.reason) + [FailResult(v, f)]];
    assert (part + [f])[..|part|] == part;
    forall r: Reason ensures Held(more, r) == Failed(vs, r) + Picked(v, part + [f], r) {
      assert Held(failed, r) == Failed(vs, r) + Picked(v, part, r);
      if r == f.reason {
        assert Held(more, r) == Failed(vs, r) + (Picked(v, part, r) + [FailResult(v, f)]);
      } else {
        assert Picked(v, part + [f], r) == Picked(v, part, r);
      }
    }
  }

  lemma PartEnds(failed: map<Reason, seq<Result>>, vs: seq<Verdict>, v: Verdict)
    requires v.judgement.Judged? && PartTallied(failed, vs, v, v.judgement.failures)
    ensures Tallied(failed, vs + [v])
  {
    forall r: Reason ensures Held(failed, r) == Failed(vs + [v], r) { FailedNext(vs, v, r); }
  }

  method Collect(v: Verdict, failed: map<Reason, seq<Result>>, ghost vs: seq<Verdict>)
    returns (more: map<Reason, seq<Result>>)
    requires v.judgement.Judged? && Tallied(failed, vs)
    ensures Tallied(more, vs + [v])
  {
    more := failed;
    var failures := v.judgement.failures;
    var j := 0;
    while j < |failures|
      invariant 0 <= j <= |failures|
      invariant PartTallied(more, vs, v, failures[..j])
    {
      var f := failures[j];
      PartNext(more, vs, v, failures[..j], f);
      assert failures[..j + 1] == failures[..j] + [f];
      more := more[f.reason := Held(more, f.reason) + [FailResult(v, f)]];
      j := j + 1;
    }
    assert failures[..j] == failures;
    PartEnds(more, vs, v);
  }

  method NamedRefusal(failed: map<Reason, seq<Result>>, hop: Option<string>, ghost vs: seq<Verdict>) returns (r: Result)
    requires Tallied(failed, vs)
    ensures r == FirstFailed(vs, PRECEDENCE, hop)
  {
    var k := 0;
    while k < |PRECEDENCE|
      invariant 0 <= k <= |PRECEDENCE|
      invariant FirstFailed(vs, PRECEDENCE, hop) == FirstFailed(vs, PRECEDENCE[k..], hop)
    {
      var reason := PRECEDENCE[k];
      assert Held(failed, reason) == Failed(vs, reason);
      assert PRECEDENCE[k..][0] == reason && PRECEDENCE[k..][1..] == PRECEDENCE[k + 1..];
      if reason in failed { return Least(failed[reason]).(hop := hop); }
      k := k + 1;
    }
    return Result(false, NoAuthority, None, None, 0, hop, NoDetail);
  }

  method Tally(v: Verdict, passed: seq<Result>, failed: map<Reason, seq<Result>>, ghost vs: seq<Verdict>)
    returns (passes: seq<Result>, fails: map<Reason, seq<Result>>)
    requires passed == Passed(vs) && Tallied(failed, vs)
    ensures passes == Passed(vs + [v]) && Tallied(fails, vs + [v])
  {
    passes, fails := passed, failed;
    PassedNext(vs, v);
    forall r: Reason ensures Failed(vs + [v], r) == Failed(vs, r) + FailuresOf(v, r) { FailedNext(vs, v, r); }
    if Passes(v) {
      passes := passed + [PassResult(v)];
    } else if v.judgement.Judged? {
      fails := Collect(v, failed, vs);
    }
  }

  /**
    The loop of `evaluate`: every reason a grant failed for is collected, then one is named.
    Judging a candidate reads and changes nothing, so it is the same judged beforehand.
   */
  method Choose(vs: seq<Verdict>, hop: Option<string>) returns (r: Result)
    ensures r == Select(vs, hop)
  {
    var passed: seq<Result> := [];
    var failed: map<Reason, seq<Result>> := map[];
    var i := 0;
    while i < |vs|
      invariant 0 <= i <= |vs|
      invariant NoAbort(vs[..i])
      invariant passed == Passed(vs[..i])
      invariant Tallied(failed, vs[..i])
    {
      var v := vs[i];
      assert vs[..i + 1] == vs[..i] + [v];
      if v.judgement.Aborts? {
        FirstAbortFinds(vs, i);
        return UnreadableResult(v.judgement.id, hop);
      }
      passed, failed := Tally(v, passed, failed, vs[..i]);
      i := i + 1;
    }
    assert vs[..i] == vs;
    FirstAbortFinds(vs, i);
    if passed != [] { return Least(passed).(hop := hop); }
    r := NamedRefusal(failed, hop, vs);
  }

  /** `evaluate`. */
  method Evaluate(d: Document, rows: Rows, order: seq<string>, a: Action, now: int, task: TaskQuery,
                  hop: Option<string>)
    returns (r: Result)
    requires ValidDocument(d) && ValidRows(rows) && Enumerates(order, rows)
    ensures r == Decision(d, rows, order, a, now, task, hop)
  {
    var found := CandidatesFor(d, rows, order, a, hop);
    CandidatesAreValid(d, rows, order, a, hop);
    match found {
      case RowUnreadable(id) => return UnreadableResult(id, hop);
      case HopRefused(grantId, detail) => return Result(false, AuthorityHop, grantId, None, 0, hop, detail);
      case Candidates(cs) => r := Choose(JudgeAll(d, rows, cs, a, now, task), hop);
    }
  }

  // --- the choice is a function of the set ---------------------------------------------------

  lemma {:induction false} LeastIsLeast(rs: seq<Result>)
    requires rs != []
    ensures Least(rs) in rs
    ensures forall r | r in rs :: !Strings.Before(GrantKey(r), GrantKey(Least(rs)))
  {
    if |rs| > 1 {
      var front, last := rs[..|rs| - 1], rs[|rs| - 1];
      LeastIsLeast(front);
      assert forall r :: r in rs <==> r in front || r == last;
      var best := Least(front);
      if Strings.Before(GrantKey(last), GrantKey(best)) {
        Strings.BeforeIsStrict(GrantKey(last), GrantKey(best));
        forall r | r in rs ensures !Strings.Before(GrantKey(r), GrantKey(last)) {
          if Strings.Before(GrantKey(r), GrantKey(last)) {
            Strings.BeforeIsTransitive(GrantKey(r), GrantKey(last), GrantKey(best));
            Strings.BeforeIsStrict(GrantKey(r), GrantKey(last));
            assert false;
          }
        }
      } else {
        assert rs[0] in front;
      }
    } else {
      if Strings.Before(GrantKey(rs[0]), GrantKey(rs[0])) {
        Strings.BeforeIsStrict(GrantKey(rs[0]), GrantKey(rs[0]));
        assert false;
      }
    }
  }

  ghost predicate SameElements<T(!new)>(xs: seq<T>, ys: seq<T>) {
    forall x :: x in xs <==> x in ys
  }

  lemma EmptyTogether<T(!new)>(xs: seq<T>, ys: seq<T>)
    requires SameElements(xs, ys)
    ensures xs == [] <==> ys == []
  {
    if xs != [] { assert xs[0] in ys; }
    if ys != [] { assert ys[0] in xs; }
  }

  lemma LeastOfSameElements(rs: seq<Result>, qs: seq<Result>)
    requires rs != [] && SameElements(rs, qs)
    ensures qs != [] && GrantKey(Least(rs)) == GrantKey(Least(qs))
  {
    assert rs[0] in qs;
    LeastIsLeast(rs);
    LeastIsLeast(qs);
    Strings.BeforeIsTotal(GrantKey(Least(rs)), GrantKey(Least(qs)));
  }

  lemma {:induction false} PassedHolds(vs: seq<Verdict>, r: Result)
    ensures r in Passed(vs) <==> exists v :: v in vs && Passes(v) && r == PassResult(v)
  {
    if vs != [] {
      var front, last := vs[..|vs| - 1], vs[|vs| - 1];
      PassedHolds(front, r);
      assert forall v :: v in vs <==> v in front || v == last;
    }
  }

  lemma {:induction false} PickedHolds(v: Verdict, failures: seq<Failure>, reason: Reason, r: Result)
    requires v.judgement.Judged?
    ensures r in Picked(v, failures, reason)
       <==> exists f :: f in failures && f.reason == reason && r == FailResult(v, f)
  {
    if failures != [] {
      var front, last := failures[..|failures| - 1], failures[|failures| - 1];
      PickedHolds(v, front, reason, r);
      assert forall f :: f in failures <==> f in front || f == last;
    }
  }

  lemma {:induction false} FailedHolds(vs: seq<Verdict>, reason: Reason, r: Result)
    ensures r in Failed(vs, reason) <==> exists v :: v in vs && r in FailuresOf(v, reason)
  {
    if vs != [] {
      var front, last := vs[..|vs| - 1], vs[|vs| - 1];
      FailedHolds(front, reason, r);
      assert forall v :: v in vs <==> v in front || v == last;
    }
  }

  lemma {:induction false} FirstFailedOfSameElements(vs: seq<Verdict>, ws: seq<Verdict>, reasons: seq<Reason>,
                                                     hop: Option<string>)
    requires SameElements(vs, ws)
    ensures var r, q := FirstFailed(vs, reasons, hop), FirstFailed(ws, reasons, hop);
      r.passed == q.passed && r.reason == q.reason && r.grantId == q.grantId
  {
    if reasons != [] {
      var reason := reasons[0];
      forall r ensures r in Failed(vs, reason) <==> r in Failed(ws, reason) {
        FailedHolds(vs, reason, r);
        FailedHolds(ws, reason, r);
      }
      EmptyTogether(Failed(vs, reason), Failed(ws, reason));
      if Failed(vs, reason) != [] {
        LeastOfSameElements(Failed(vs, reason), Failed(ws, reason));
        FailedResultIs(vs, reason);
        FailedResultIs(ws, reason);
      } else {
        FirstFailedOfSameElements(vs, ws, reasons[1..], hop);
      }
    }
  }

  lemma FailedResultIs(vs: seq<Verdict>, reason: Reason)
    requires Failed(vs, reason) != []
    ensures var r := Least(Failed(vs, reason)); !r.passed && r.reason == reason && r.grantId.Some?
  {
    var r := Least(Failed(vs, reason));
    LeastIsLeast(Failed(vs, reason));
    FailedHolds(vs, reason, r);
    var v :| v in vs && r in FailuresOf(v, reason);
    PickedHolds(v, v.judgement.failures, reason, r);
  }

  lemma PassedResultIs(vs: seq<Verdict>) returns (v: Verdict)
    requires Passed(vs) != []
    ensures v in vs && Passes(v) && Least(Passed(vs)) == PassResult(v)
  {
    LeastIsLeast(Passed(vs));
    PassedHolds(vs, Least(Passed(vs)));
    v :| v in vs && Passes(v) && Least(Passed(vs)) == PassResult(v);
  }

  /** A pass is some passing verdict's own. */
  lemma SelectedVerdict(vs: seq<Verdict>, hop: Option<string>) returns (v: Verdict)
    requires Select(vs, hop).passed
    ensures v in vs && Passes(v) && Select(vs, hop) == PassResult(v).(hop := hop)
  {
    if Passed(vs) == [] { FirstFailedRefuses(vs, PRECEDENCE, hop); }
    v := PassedResultIs(vs);
  }

  /** Whatever order the verdicts come in, the decision, its reason and the grant it names agree. */
  lemma SelectIsOfTheSet(vs: seq<Verdict>, ws: seq<Verdict>, hop: Option<string>)
    requires SameElements(vs, ws) && NoAbort(vs)
    ensures var r, q := Select(vs, hop), Select(ws, hop);
      r.passed == q.passed && r.reason == q.reason && r.grantId == q.grantId
  {
    forall i | 0 <= i < |ws| ensures !ws[i].judgement.Aborts? {
      assert ws[i] in vs;
    }
    assert vs[..|vs|] == vs && ws[..|ws|] == ws;
    FirstAbortFinds(vs, |vs|);
    FirstAbortFinds(ws, |ws|);
    forall r ensures r in Passed(vs) <==> r in Passed(ws) {
      PassedHolds(vs, r);
      PassedHolds(ws, r);
    }
    EmptyTogether(Passed(vs), Passed(ws));
    if Passed(vs) != [] {
      LeastOfSameElements(Passed(vs), Passed(ws));
      var v := PassedResultIs(vs);
      var w := PassedResultIs(ws);
    } else {
      FirstFailedOfSameElements(vs, ws, PRECEDENCE, hop);
    }
  }

  lemma {:induction false} FirstFailedFinds(vs: seq<Verdict>, reasons: seq<Reason>, hop: Option<string>)
    returns (k: nat)
    requires exists reason :: reason in reasons && Failed(vs, reason) != []
    ensures k < |reasons| && Failed(vs, reasons[k]) != [] && forall j | 0 <= j < k :: Failed(vs, reasons[j]) == []
    ensures FirstFailed(vs, reasons, hop) == Least(Failed(vs, reasons[k])).(hop := hop)
  {
    if Failed(vs, reasons[0]) != [] {
      k := 0;
    } else {
      var reason :| reason in reasons && Failed(vs, reason) != [];
      assert reason in reasons[1..];
      k := FirstFailedFinds(vs, reasons[1..], hop);
      k := k + 1;
    }
  }

  /**
    A refusal names the first reason in precedence that any grant failed for, and of the grants that
    failed for it the one whose id comes first.
   */
  lemma RefusalNamesTheFirstReason(vs: seq<Verdict>, hop: Option<string>) returns (k: nat)
    requires NoAbort(vs) && (forall v | v in vs :: !Passes(v))
    requires exists reason :: reason in PRECEDENCE && Failed(vs, reason) != []
    ensures var r := Select(vs, hop);
      && k < |PRECEDENCE| && !r.passed && r.reason == PRECEDENCE[k]
      && (forall j, v | 0 <= j < k && v in vs :: FailuresOf(v, PRECEDENCE[j]) == [])
      && (forall v, f | v in vs && f in FailuresOf(v, PRECEDENCE[k]) :: !Strings.Before(GrantKey(f), GrantKey(r)))
  {
    assert vs[..|vs|] == vs;
    FirstAbortFinds(vs, |vs|);
    if Passed(vs) != [] {
      var v := PassedResultIs(vs);
    }
    k := FirstFailedFinds(vs, PRECEDENCE, hop);
    FailedResultIs(vs, PRECEDENCE[k]);
    LeastIsLeast(Failed(vs, PRECEDENCE[k]));
    forall v, f | v in vs && f in FailuresOf(v, PRECEDENCE[k]) ensures f in Failed(vs, PRECEDENCE[k]) {
      FailedHolds(vs, PRECEDENCE[k], f);
    }
    forall j, v | 0 <= j < k && v in vs ensures FailuresOf(v, PRECEDENCE[j]) == [] {
      if FailuresOf(v, PRECEDENCE[j]) != [] {
        FailedHolds(vs, PRECEDENCE[j], FailuresOf(v, PRECEDENCE[j])[0]);
      }
    }
  }

  /** Among readable verdicts, one that passes decides, whatever else failed. */
  lemma SelectPassesWhenOneDoes(vs: seq<Verdict>, hop: Option<string>)
    requires NoAbort(vs)
    ensures Select(vs, hop).passed <==> exists v :: v in vs && Passes(v)
  {
    assert vs[..|vs|] == vs;
    FirstAbortFinds(vs, |vs|);
    if v :| v in vs && Passes(v) {
      PassedHolds(vs, PassResult(v));
      assert PassResult(v) in Passed(vs);
    }
    if Passed(vs) != [] {
      var v := PassedResultIs(vs);
    } else {
      FirstFailedRefuses(vs, PRECEDENCE, hop);
    }
  }

  lemma {:induction false} FirstFailedRefuses(vs: seq<Verdict>, reasons: seq<Reason>, hop: Option<string>)
    ensures !FirstFailed(vs, reasons, hop).passed
  {
    if reasons != [] {
      if Failed(vs, reasons[0]) != [] { FailedResultIs(vs, reasons[0]); }
      FirstFailedRefuses(vs, reasons[1..], hop);
    }
  }
}
