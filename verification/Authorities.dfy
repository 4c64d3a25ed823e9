/**
  The authority a call is decided under, and the re-decision `_suspend` of `src/ctrlrun/control.py`
  makes before it holds a reservation across a round trip: the credential first, and then the whole
  of the authority again, with the task dimension not evaluated.
 */
module Authorities {
  import opened Options
  import opened Actions
  import opened Grants
  import opened Chains
  import opened Evaluation
  import opened EvaluationLaws
  import Delegations

  /** No `authority:` section, or the document, the stored rows as they stand at the instant, and the hop. */
  datatype View = NoSection | Section(document: Document, rows: Rows, order: seq<string>, hop: Option<string>)

  ghost predicate ValidView(v: View) {
    v.Section? ==> ValidDocument(v.document) && ValidRows(v.rows) && Enumerates(v.order, v.rows)
  }

  type Authority = v: View | ValidView(v) witness NoSection

  function Redecided(authority: Authority, a: Action, now: int): Result
    requires authority.Section?
  {
    Decision(authority.document, authority.rows, authority.order, a, now, NotEvaluated, authority.hop)
  }

  predicate MayHold(authority: Authority, a: Action, now: int) {
    !Delegations.CredentialExpired(a.principal, now) && (authority.Section? ==> Redecided(authority, a, now).passed)
  }

  method Redecide(authority: Authority, a: Action, now: int) returns (mayHold: bool)
    ensures mayHold == MayHold(authority, a, now)
  {
    if Delegations.CredentialExpired(a.principal, now) { return false; }
    if authority.NoSection? { return true; }
    var r := Evaluate(authority.document, authority.rows, authority.order, a, now, NotEvaluated, authority.hop);
    return r.passed;
  }

  /** The delegation a hop names admits the action, its task aside, under a chain that stands. */
  ghost predicate HopAdmits(authority: Authority, a: Action, now: int)
    requires authority.Section? && authority.hop.Some?
  {
    var d, rows, hop := authority.document, authority.rows, authority.hop.value;
    && hop in rows && rows[hop].grant.Some?
    && Admits(d, rows, Candidate(hop, rows[hop].grant.value, Some(rows[hop])), a, now, NotEvaluated)
  }

  /**
    Under a hop a reservation is held exactly while the credential has not expired and that one
    delegation, its chain re-checked at this instant, still admits the action.
   */
  lemma HeldExactlyWhenTheHopAdmits(authority: Authority, a: Action, now: int)
    requires authority.Section? && authority.hop.Some?
    ensures MayHold(authority, a, now) <==>
      !Delegations.CredentialExpired(a.principal, now) && HopAdmits(authority, a, now)
  {
    if Redecided(authority, a, now).passed {
      var c := PassNamesAnAdmittingCandidate(authority.document, authority.rows, authority.order, a, now,
                                             NotEvaluated, authority.hop);
      assert c == Candidate(authority.hop.value, c.grant, c.row);
    }
    if HopAdmits(authority, a, now) { AdmittedHopPasses(authority, a, now); }
  }

  lemma AdmittedHopPasses(authority: Authority, a: Action, now: int)
    requires authority.Section? && authority.hop.Some? && HopAdmits(authority, a, now)
    ensures Redecided(authority, a, now).passed
  {
    var d, rows, hop := authority.document, authority.rows, authority.hop.value;
    var c := Candidate(hop, rows[hop].grant.value, Some(rows[hop]));
    CandidatesAreValid(d, rows, authority.order, a, Some(hop));
    ShapeMatched(c.grant, a);
    assert CandidatesFor(d, rows, authority.order, a, Some(hop)) == Candidates([c]);
    JudgePassesWhenAdmitted(d, rows, c, a, now, NotEvaluated);
    var vs := JudgeAll(d, rows, [c], a, now, NotEvaluated);
    assert vs[0] == Judge(d, rows, c, a, now, NotEvaluated);
    SelectPassesWhenOneDoes(vs, Some(hop));
  }

  /** One revocation anywhere on the hop's chain stops the holding of every action in flight beneath it. */
  lemma CutHopIsNotHeld(authority: Authority, a: Action, now: int, i: nat)
    requires authority.Section? && authority.hop.Some? && authority.hop.value in authority.rows
    requires var w := WalkFrom(authority.document, authority.rows, [authority.rows[authority.hop.value]]);
      i < |w.nodes| && w.nodes[i].revokedAt.Some?
    ensures !MayHold(authority, a, now)
  {
    HeldExactlyWhenTheHopAdmits(authority, a, now);
    if HopAdmits(authority, a, now) {
      RevocationCutsTheChain(authority.document, authority.rows, authority.rows[authority.hop.value], now, i);
    }
  }

  /** Without a hop: held exactly while every row can be read and some grant still admits the action. */
  lemma HeldExactlyWhenSomeGrantAdmits(authority: Authority, a: Action, now: int)
    requires authority.Section? && authority.hop.None?
    ensures MayHold(authority, a, now) <==>
      (&& !Delegations.CredentialExpired(a.principal, now)
       && Readable(authority.rows)
       && exists c :: ValidCandidate(c) && IsCandidate(authority.document, authority.rows, c)
                      && Admits(authority.document, authority.rows, c, a, now, NotEvaluated))
  {
    PassesExactlyWhenAdmitted(authority.document, authority.rows, authority.order, a, now, NotEvaluated);
  }
}
