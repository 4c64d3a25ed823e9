/**
  The ledger over whole runs of the effect protocol: whatever is charged, held, released and retried,
  what claims book on a grant in any interval of a budget's window never exceeds that budget's limit.
 */
module BudgetLaws {
  import opened Options
  import opened Actions
  import opened Chains
  import opened Charges
  import opened Effects
  import opened Grants
  import opened Ledgers
  import opened Protocol
  import opened Stores

  // --- what a ledger holds in one window ------------------------------------------------------

  predicate CountsWithin(row: Consumption, grantId: string, metric: string, from: int, span: int) {
    row.grantId == grantId && row.metric == metric && row.releasedAt.None? && from <= row.consumedAt <= from + span
  }

  /** Unreleased spend in the closed interval `[from, from + span]`. */
  function HeldWithin(ledger: Ledger, grantId: string, metric: string, from: int, span: int): nat {
    if ledger == [] then 0 else
    var last := ledger[|ledger| - 1];
    HeldWithin(ledger[..|ledger| - 1], grantId, metric, from, span)
    + if CountsWithin(last, grantId, metric, from, span) then last.amount else 0
  }

  ghost predicate Kept(ledger: Ledger, grantId: string, b: Budget) {
    forall from: int :: HeldWithin(ledger, grantId, b.metric, from, b.window) <= b.limit
  }

  lemma HeldNext(ledger: Ledger, row: Consumption, grantId: string, metric: string, from: int, span: int)
    ensures HeldWithin(ledger + [row], grantId, metric, from, span)
         == HeldWithin(ledger, grantId, metric, from, span) + if CountsWithin(row, grantId, metric, from, span)
           then row.amount else 0
  {
    assert (ledger + [row])[..|ledger|] == ledger;
  }

  /** A window reaching `now` lies inside the window the store sums before it charges. */
  lemma {:induction false} WindowFitsTheFloor(ledger: Ledger, grantId: string, metric: string, from: int, span: int,
                                              now: int)
    requires from <= now <= from + span
    ensures HeldWithin(ledger, grantId, metric, from, span) <= Spent(ledger, grantId, metric, now - span)
  {
    if ledger != [] { WindowFitsTheFloor(ledger[..|ledger| - 1], grantId, metric, from, span, now); }
  }

  lemma {:induction false} ReleasingLowers(ledger: Ledger, key: string, now: int, grantId: string, metric: string,
                                           from: int, span: int)
    ensures HeldWithin(Released(ledger, key, now), grantId, metric, from, span) <= HeldWithin(ledger, grantId, metric,
                                                                                              from, span)
  {
    if ledger != [] {
      var n := |ledger| - 1;
      assert Released(ledger, key, now)[..n] == Released(ledger[..n], key, now);
      ReleasingLowers(ledger[..n], key, now, grantId, metric, from, span);
    }
  }

  // --- one reservation's rows ------------------------------------------------------------------

  /** Some earlier charge of the same reservation already wrote this grant and metric. */
  predicate Repeats(charges: seq<Charge>, c: Charge) {
    exists i | 0 <= i < |charges| :: charges[i].grantId == c.grantId && charges[i].metric == c.metric
  }

  /** The rows one reservation writes: one for each grant and metric, whatever windows it weighs. */
  function RowsFor(charges: seq<Charge>, key: string, attempt: nat, at: int): Ledger {
    if charges == [] then [] else
    var front, last := charges[..|charges| - 1], charges[|charges| - 1];
    RowsFor(front, key, attempt, at) + if Repeats(front, last) then [] else [RowFor(last, key, attempt, at)]
  }

  lemma RepeatsNext(charges: seq<Charge>, last: Charge, c: Charge)
    ensures Repeats(charges + [last], c) <==>
      Repeats(charges, c) || (last.grantId == c.grantId && last.metric == c.metric)
  {
    var more := charges + [last];
    assert more[|charges|] == last;
    if Repeats(charges, c) {
      var i :| 0 <= i < |charges| && charges[i].grantId == c.grantId && charges[i].metric == c.metric;
      assert more[i] == charges[i];
    }
  }

  lemma HasRowNext(ledger: Ledger, row: Consumption, c: Charge, key: string, attempt: nat)
    ensures HasRow(ledger + [row], c, key, attempt) <==>
      (HasRow(ledger, c, key, attempt)
       || (row.effectKey == key && row.attempt == attempt && row.grantId == c.grantId && row.metric == c.metric))
  {
    var more := ledger + [row];
    assert more[|ledger|] == row;
    if HasRow(ledger, c, key, attempt) {
      var i :| 0 <= i < |ledger| && ledger[i].effectKey == key && ledger[i].attempt == attempt
            && ledger[i].grantId == c.grantId && ledger[i].metric == c.metric;
      assert more[i] == ledger[i];
    }
  }

  lemma {:induction false} RowsForHold(charges: seq<Charge>, key: string, attempt: nat, at: int, c: Charge)
    ensures HasRow(RowsFor(charges, key, attempt, at), c, key, attempt) <==> Repeats(charges, c)
    ensures forall i | 0 <= i < |RowsFor(charges, key, attempt, at)| ::
      var row := RowsFor(charges, key, attempt, at)[i];
      row.effectKey == key && row.attempt == attempt && row.consumedAt == at && row.releasedAt.None?
  {
    if charges != [] {
      var front, last := charges[..|charges| - 1], charges[|charges| - 1];
      assert charges == front + [last];
      RowsForHold(front, key, attempt, at, c);
      RepeatsNext(front, last, c);
      HasRowNext(RowsFor(front, key, attempt, at), RowFor(last, key, attempt, at), c, key, attempt);
      if Repeats(front, last) {
        RepeatsTransfer(front, last, c);
        assert RowsFor(charges, key, attempt, at) == RowsFor(front, key, attempt, at);
      }
    }
  }

  lemma RepeatsTransfer(charges: seq<Charge>, a: Charge, b: Charge)
    requires Repeats(charges, a)
    ensures a.grantId == b.grantId && a.metric == b.metric ==> Repeats(charges, b)
  {}

  ghost predicate NoRowsOf(ledger: Ledger, key: string, attempt: nat) {
    forall i | 0 <= i < |ledger| :: ledger[i].effectKey != key || ledger[i].attempt != attempt
  }

  /** A fresh attempt's charges are all written: the key that stops a double charge drops none of them. */
  lemma {:induction false} FreshChargesAreWritten(ledger: Ledger, charges: seq<Charge>, key: string, attempt: nat,
                                                  at: int)
    requires NoRowsOf(ledger, key, attempt)
    ensures WithCharges(ledger, charges, key, attempt, at) == ledger + RowsFor(charges, key, attempt, at)
  {
    if charges != [] {
      var front, last := charges[..|charges| - 1], charges[|charges| - 1];
      var rows := RowsFor(front, key, attempt, at);
      FreshChargesAreWritten(ledger, front, key, attempt, at);
      RowsForHold(front, key, attempt, at, last);
      assert HasRow(ledger + rows, last, key, attempt) <==> HasRow(rows, last, key, attempt) by {
        assert forall i | 0 <= i < |rows| :: (ledger + rows)[|ledger| + i] == rows[i];
      }
    }
  }

  // --- a charge that fits keeps every window ----------------------------------------------------

  ghost predicate PastOnly(ledger: Ledger, now: int) {
    forall i | 0 <= i < |ledger| :: ledger[i].consumedAt <= now
  }

  /** What one reservation takes from a grant on a metric. */
  function AmountOn(charges: seq<Charge>, grantId: string, metric: string): nat {
    if charges == [] then 0
    else if charges[0].grantId == grantId && charges[0].metric == metric then charges[0].amount
    else AmountOn(charges[1..], grantId, metric)
  }

  lemma {:induction false} AmountIsAgreed(charges: seq<Charge>, grantId: string, metric: string, i: nat)
    requires AllAgree(charges) && i < |charges| && charges[i].grantId == grantId && charges[i].metric == metric
    ensures AmountOn(charges, grantId, metric) == charges[i].amount
  {
    if charges[0].grantId == grantId && charges[0].metric == metric {
      if i > 0 { assert Agrees(charges[0], charges[i]); }
    } else {
      assert forall a, b | 0 <= a < b < |charges[1..]| :: Agrees(charges[1..][a], charges[1..][b]) by {
        forall a, b | 0 <= a < b < |charges[1..]| ensures Agrees(charges[1..][a], charges[1..][b]) {
          assert Agrees(charges[a + 1], charges[b + 1]);
        }
      }
      AmountIsAgreed(charges[1..], grantId, metric, i - 1);
    }
  }

  lemma {:induction false} AmountIsZeroUncharged(charges: seq<Charge>, grantId: string, metric: string)
    requires forall i | 0 <= i < |charges| :: charges[i].grantId != grantId || charges[i].metric != metric
    ensures AmountOn(charges, grantId, metric) == 0
  {
    if charges != [] { AmountIsZeroUncharged(charges[1..], grantId, metric); }
  }

  /** In a window holding `at`, a reservation's rows weigh its amount once; in any other, nothing. */
  lemma {:induction false} RowsWeighOnce(charges: seq<Charge>, key: string, attempt: nat, at: int,
                                         grantId: string, metric: string, from: int, span: int)
    requires AllAgree(charges)
    ensures HeldWithin(RowsFor(charges, key, attempt, at), grantId, metric, from, span)
         == if from <= at <= from + span then AmountOn(charges, grantId, metric) else 0
  {
    if charges == [] {
    } else {
      var front, last := charges[..|charges| - 1], charges[|charges| - 1];
      assert forall a, b | 0 <= a < b < |front| :: Agrees(front[a], front[b]) by {
        forall a, b | 0 <= a < b < |front| ensures Agrees(front[a], front[b]) { assert Agrees(charges[a], charges[b]); }
      }
      RowsWeighOnce(front, key, attempt, at, grantId, metric, from, span);
      HeldNext(RowsFor(front, key, attempt, at), RowFor(last, key, attempt, at), grantId, metric, from, span);
      assert Repeats(front, last) ==> RowsFor(charges, key, attempt, at) == RowsFor(front, key, attempt, at);
      if last.grantId == grantId && last.metric == metric {
        AmountIsAgreed(charges, grantId, metric, |front|);
        if Repeats(front, last) {
          var i :| 0 <= i < |front| && front[i].grantId == last.grantId && front[i].metric == last.metric;
          AmountIsAgreed(front, grantId, metric, i);
          assert Agrees(charges[i], charges[|front|]);
        } else {
          AmountIsZeroUncharged(front, grantId, metric);
        }
      } else {
        AmountSkipsLast(charges, grantId, metric);
      }
    }
  }

  lemma {:induction false} AmountSkipsLast(charges: seq<Charge>, grantId: string, metric: string)
    requires charges != []
    requires var last := charges[|charges| - 1]; last.grantId != grantId || last.metric != metric
    ensures AmountOn(charges, grantId, metric) == AmountOn(charges[..|charges| - 1], grantId, metric)
  {
    if |charges| > 1 {
      AmountSkipsLast(charges[1..], grantId, metric);
      assert charges[1..][..|charges| - 2] == charges[..|charges| - 1][1..];
    }
  }

  lemma {:induction false} HeldOfConcat(a: Ledger, b: Ledger, grantId: string, metric: string, from: int, span: int)
    ensures HeldWithin(a + b, grantId, metric, from, span)
         == HeldWithin(a, grantId, metric, from, span) + HeldWithin(b, grantId, metric, from, span)
  {
    if b == [] {
      assert a + b == a;
    } else {
      var front, last := b[..|b| - 1], b[|b| - 1];
      HeldOfConcat(a, front, grantId, metric, from, span);
      assert a + b == (a + front) + [last] && b == front + [last];
      HeldNext(a + front, last, grantId, metric, from, span);
      HeldNext(front, last, grantId, metric, from, span);
    }
  }

  /** A charge on a grant comes with one for every budget that grant has on the metric. */
  ghost predicate Complete(limits: map<string, seq<Budget>>, charges: seq<Charge>) {
    forall i, b | 0 <= i < |charges| && charges[i].grantId in limits
      && b in limits[charges[i].grantId] && b.metric == charges[i].metric ::
        Weighed(charges, charges[i].grantId, b)
  }

  predicate Weighed(charges: seq<Charge>, grantId: string, b: Budget) {
    exists i | 0 <= i < |charges| ::
      charges[i].grantId == grantId && charges[i].metric == b.metric && charges[i].limit == b.limit
        && charges[i].window == b.window
  }

  lemma AdmittedChargesKeep(ledger: Ledger, charges: seq<Charge>, key: string, attempt: nat, now: int,
                            limits: map<string, seq<Budget>>, grantId: string, b: Budget)
    requires grantId in limits && b in limits[grantId] && Kept(ledger, grantId, b)
    requires Complete(limits, charges) && ChargesRefused(ledger, charges, now).None?
    requires NoRowsOf(ledger, key, attempt) && PastOnly(ledger, now)
    ensures Kept(WithCharges(ledger, charges, key, attempt, now), grantId, b)
  {
    FreshChargesAreWritten(ledger, charges, key, attempt, now);
    if AmountOn(charges, grantId, b.metric) > 0 { AdmittedAmountFits(ledger, charges, now, limits, grantId, b); }
    forall from: int
      ensures HeldWithin(ledger + RowsFor(charges, key, attempt, now), grantId, b.metric, from, b.window) <= b.limit
    {
      WindowKeeps(ledger, charges, key, attempt, now, grantId, b, from);
    }
  }

  lemma WindowKeeps(ledger: Ledger, charges: seq<Charge>, key: string, attempt: nat, now: int, grantId: string,
                    b: Budget, from: int)
    requires AllAgree(charges) && Kept(ledger, grantId, b)
    requires AmountOn(charges, grantId, b.metric) > 0 ==>
      Spent(ledger, grantId, b.metric, now - b.window) + AmountOn(charges, grantId, b.metric) <= b.limit
    ensures HeldWithin(ledger + RowsFor(charges, key, attempt, now), grantId, b.metric, from, b.window) <= b.limit
  {
    HeldOfConcat(ledger, RowsFor(charges, key, attempt, now), grantId, b.metric, from, b.window);
    RowsWeighOnce(charges, key, attempt, now, grantId, b.metric, from, b.window);
    assert HeldWithin(ledger, grantId, b.metric, from, b.window) <= b.limit;
    if from <= now <= from + b.window { WindowFitsTheFloor(ledger, grantId, b.metric, from, b.window, now); }
  }

  lemma AdmittedAmountFits(ledger: Ledger, charges: seq<Charge>, now: int, limits: map<string, seq<Budget>>,
                           grantId: string, b: Budget)
    requires grantId in limits && b in limits[grantId] && Complete(limits, charges)
    requires ChargesRefused(ledger, charges, now).None? && AmountOn(charges, grantId, b.metric) > 0
    ensures Spent(ledger, grantId, b.metric, now - b.window) + AmountOn(charges, grantId, b.metric) <= b.limit
  {
    FirstExhaustedFinds(ledger, charges, now);
    if forall i | 0 <= i < |charges| :: charges[i].grantId != grantId || charges[i].metric != b.metric {
      AmountIsZeroUncharged(charges, grantId, b.metric);
    } else {
      var i :| 0 <= i < |charges| && charges[i].grantId == grantId && charges[i].metric == b.metric;
      assert Weighed(charges, charges[i].grantId, b);
      var k :| 0 <= k < |charges| && charges[k].grantId == grantId && charges[k].metric == b.metric
            && charges[k].limit == b.limit && charges[k].window == b.window;
      AmountIsAgreed(charges, grantId, b.metric, k);
      assert Fits(ledger, charges[k], now);
    }
  }

  // --- the ledger and the history agree -----------------------------------------------------------

  function Stripped(ledger: Ledger): (r: Ledger)
    ensures |r| == |ledger| && forall i | 0 <= i < |r| :: r[i] == ledger[i].(releasedAt := None)
  {
    seq(|ledger|, i requires 0 <= i < |ledger| => ledger[i].(releasedAt := None))
  }

  /** The rows every reservation of a history wrote, in order. */
  function RowsOf(log: seq<Event>): Ledger {
    if log == [] then [] else
    var e := log[|log| - 1];
    RowsOf(log[..|log| - 1]) + if e.ReservedKey? then RowsFor(e.charges, e.key, e.attempt, e.at) else []
  }

  lemma RowsOfNext(log: seq<Event>, e: Event)
    ensures RowsOf(log + [e]) == RowsOf(log) + if e.ReservedKey? then RowsFor(e.charges, e.key, e.attempt, e.at) else []
  {
    assert (log + [e])[..|log|] == log;
  }

  lemma FailedAtNext(log: seq<Event>, e: Event, key: string, attempt: nat)
    ensures FailedAt(log + [e], key, attempt) <==>
      FailedAt(log, key, attempt) || (e.WentFailed? && e.key == key && e.attempt == attempt)
  {
    FailedAtGrows(log, e, key);
    if FailedAt(log + [e], key, attempt) && !(e.WentFailed? && e.key == key && e.attempt == attempt) {
      var i :| 0 <= i < |log + [e]| && (log + [e])[i].WentFailed? && (log + [e])[i].key == key
         && (log + [e])[i].attempt == attempt;
      assert log[i] == (log + [e])[i];
    }
  }

  /** One row: it belongs to an attempt the store numbered, and is released exactly when that attempt failed. */
  ghost predicate RowAgrees(w: World, row: Consumption) {
    && row.consumedAt <= w.now
    && row.effectKey in w.store.effects && 1 <= row.attempt <= w.store.effects[row.effectKey].attempt
    && (row.releasedAt.None? <==> !FailedAt(w.log, row.effectKey, row.attempt))
  }

  ghost predicate LedgerInvariant(w: World) {
    && (forall i | 0 <= i < |w.store.ledger| :: RowAgrees(w, w.store.ledger[i]))
    && Stripped(w.store.ledger) == RowsOf(w.log)
    && (forall i | 0 <= i < |w.log| && w.log[i].ReservedKey? :: AllAgree(w.log[i].charges))
  }

  // --- what the limits promise about a run ------------------------------------------------------------

  ghost predicate WithinLimits(limits: map<string, seq<Budget>>, ledger: Ledger) {
    forall g, b | g in limits && b in limits[g] :: Kept(ledger, g, b)
  }

  ghost predicate Sound(ceilings: Ceilings, limits: map<string, seq<Budget>>, w: World) {
    && (forall key :: KeyInvariant(ceilings, w, key))
    && LedgerInvariant(w) && WithinLimits(limits, w.store.ledger)
  }

  /** Every charge set a run presents is complete for the fixed budgets. */
  ghost predicate ChargesComplete(limits: map<string, seq<Budget>>, step: Step) {
    step.TakeKey? ==> Complete(limits, step.charges)
  }

  // --- the three ways a step touches the ledger ---------------------------------------------------

  /** The ledger stands, and nothing that bears on it was noted. */
  ghost predicate LedgerStands(w: World, v: World) {
    && v.store.ledger == w.store.ledger && w.now <= v.now && w.log <= v.log
    && (forall i | |w.log| <= i < |v.log| :: !v.log[i].ReservedKey? && !v.log[i].WentFailed?)
    && (forall key | key in w.store.effects ::
         key in v.store.effects && w.store.effects[key].attempt <= v.store.effects[key].attempt)
  }

  lemma {:induction false} UnmarkedGrowth(log: seq<Event>, more: seq<Event>)
    requires log <= more && forall i | |log| <= i < |more| :: !more[i].ReservedKey? && !more[i].WentFailed?
    ensures RowsOf(more) == RowsOf(log)
    ensures forall key, attempt :: FailedAt(more, key, attempt) <==> FailedAt(log, key, attempt)
    decreases |more|
  {
    if |more| > |log| {
      var front, e := more[..|more| - 1], more[|more| - 1];
      UnmarkedGrowth(log, front);
      assert more == front + [e];
      RowsOfNext(front, e);
      forall key, attempt ensures FailedAt(more, key, attempt) <==> FailedAt(log, key, attempt) {
        FailedAtNext(front, e, key, attempt);
      }
    } else { assert log == more; }
  }

  lemma StandingKeeps(w: World, v: World)
    requires LedgerInvariant(w) && LedgerStands(w, v)
    ensures LedgerInvariant(v)
  {
    UnmarkedGrowth(w.log, v.log);
    forall i | 0 <= i < |v.store.ledger| ensures RowAgrees(v, v.store.ledger[i]) {
      assert RowAgrees(w, w.store.ledger[i]);
    }
  }

  /** A key's last attempt failed: its rows are released, and the history says which attempt it was. */
  ghost predicate LedgerReleases(w: World, v: World, key: string) {
    && key in w.store.effects && v.store.ledger == Released(w.store.ledger, key, w.now) && v.now == w.now
    && (exists e :: v.log == w.log + [e] && e.WentFailed? && e.key == key && e.attempt == w.store.effects[key].attempt)
    && (forall k | k in w.store.effects ::
          k in v.store.effects && w.store.effects[k].attempt == v.store.effects[k].attempt)
  }

  /** The release rides the key, and still frees exactly the failed attempt's rows. */
  lemma ReleasingKeepsTheLedger(ceilings: Ceilings, w: World, v: World, key: string)
    requires LedgerInvariant(w) && KeyInvariant(ceilings, w, key) && LedgerReleases(w, v, key)
    ensures LedgerInvariant(v)
  {
    var e :| v.log == w.log + [e] && e.WentFailed? && e.key == key && e.attempt == w.store.effects[key].attempt;
    var ledger := w.store.ledger;
    RowsOfNext(w.log, e);
    assert Stripped(v.store.ledger) == Stripped(ledger);
    forall i | 0 <= i < |ledger| ensures RowAgrees(v, v.store.ledger[i]) {
      assert RowAgrees(w, ledger[i]);
      FailedAtNext(w.log, e, ledger[i].effectKey, ledger[i].attempt);
      if ledger[i].effectKey == key && ledger[i].attempt < e.attempt {
        EarlierFailed(ceilings, w, key, ledger[i].attempt);
      }
    }
  }

  lemma EarlierFailed(ceilings: Ceilings, w: World, key: string, attempt: nat)
    requires KeyInvariant(ceilings, w, key) && key in w.store.effects && 1 <= attempt < w.store.effects[key].attempt
    ensures FailedAt(w.log, key, attempt)
  {}

  // --- taking a key -------------------------------------------------------------------------------

  lemma TakeOnLedger(s: Store, approvalId: Option<string>, actionHash: string, key: string, actionId: string,
                     lease: int, charges: seq<Charge>, now: int)
    ensures var (t, outcome) := Take(s, approvalId, actionHash, Some(key), actionId, lease, charges, now);
      && (outcome.Err? ==> t.ledger == s.ledger)
      && (outcome.Ok? ==>
            && outcome.value.reservation.Some?
            && t.ledger == WithCharges(s.ledger, charges, key, outcome.value.reservation.value.attempt, now)
            && (charges == [] || ChargesRefused(s.ledger, charges, now).None?))
  {}

  /** A won reservation: its rows are new to the ledger, and its attempt has not failed. */
  lemma WonKeepsTheLedger(ceilings: Ceilings, w: World, v: World, e: Event)
    requires LedgerInvariant(w) && KeyInvariant(ceilings, w, e.key)
    requires e.ReservedKey? && e.at == w.now == v.now && v.log == w.log + [e] && AllAgree(e.charges)
    requires e.attempt == if e.key in w.store.effects then w.store.effects[e.key].attempt + 1 else 1
    requires e.key in v.store.effects && v.store.effects[e.key].attempt == e.attempt
    requires forall k | k in w.store.effects ::
      k in v.store.effects && (k != e.key ==> v.store.effects[k] == w.store.effects[k])
    requires v.store.ledger == WithCharges(w.store.ledger, e.charges, e.key, e.attempt, w.now)
    ensures LedgerInvariant(v) && NoRowsOf(w.store.ledger, e.key, e.attempt)
  {
    var ledger := w.store.ledger;
    var rows := RowsFor(e.charges, e.key, e.attempt, e.at);
    forall i | 0 <= i < |ledger| ensures ledger[i].effectKey != e.key || ledger[i].attempt != e.attempt {
      assert RowAgrees(w, ledger[i]);
    }
    FreshChargesAreWritten(ledger, e.charges, e.key, e.attempt, e.at);
    RowsOfNext(w.log, e);
    assert Stripped(ledger + rows) == Stripped(ledger) + Stripped(rows);
    NothingReleased(e.charges, e.key, e.attempt, e.at);
    NotYetFailed(ceilings, w, e.key, e.attempt);
    forall i | 0 <= i < |v.store.ledger| ensures RowAgrees(v, v.store.ledger[i]) {
      var row := v.store.ledger[i];
      FailedAtNext(w.log, e, row.effectKey, row.attempt);
      if i < |ledger| { assert row == ledger[i] && RowAgrees(w, ledger[i]); } else { assert row == rows[i - |ledger|]; }
    }
  }

  lemma NothingReleased(charges: seq<Charge>, key: string, attempt: nat, at: int)
    ensures var rows := RowsFor(charges, key, attempt, at);
      && Stripped(rows) == rows
      && forall i | 0 <= i < |rows| :: rows[i].effectKey == key && rows[i].attempt == attempt
                                       && rows[i].consumedAt == at && rows[i].releasedAt.None?
  {
    RowsForHold(charges, key, attempt, at, Charge("", "", 0, 0, 0));
  }

  lemma NotYetFailed(ceilings: Ceilings, w: World, key: string, attempt: nat)
    requires KeyInvariant(ceilings, w, key)
    requires attempt == if key in w.store.effects then w.store.effects[key].attempt + 1 else 1
    ensures !FailedAt(w.log, key, attempt)
  {}

  lemma WonStaysWithinLimits(limits: map<string, seq<Budget>>, w: World, v: World, e: Event)
    requires LedgerInvariant(w) && WithinLimits(limits, w.store.ledger)
    requires e.ReservedKey? && e.at == w.now && Complete(limits, e.charges)
         && NoRowsOf(w.store.ledger, e.key, e.attempt)
    requires e.charges == [] || ChargesRefused(w.store.ledger, e.charges, w.now).None?
    requires v.store.ledger == WithCharges(w.store.ledger, e.charges, e.key, e.attempt, w.now)
    ensures WithinLimits(limits, v.store.ledger)
  {
    if e.charges != [] {
      forall i | 0 <= i < |w.store.ledger| ensures w.store.ledger[i].consumedAt <= w.now {
        assert RowAgrees(w, w.store.ledger[i]);
      }
      forall g, b | g in limits && b in limits[g] ensures Kept(v.store.ledger, g, b) {
        AdmittedChargesKeep(w.store.ledger, e.charges, e.key, e.attempt, w.now, limits, g, b);
      }
    }
  }

  lemma ReleasedStaysWithinLimits(limits: map<string, seq<Budget>>, ledger: Ledger, key: string, now: int)
    requires WithinLimits(limits, ledger)
    ensures WithinLimits(limits, Released(ledger, key, now))
  {
    forall g, b | g in limits && b in limits[g] ensures Kept(Released(ledger, key, now), g, b) {
      forall from: int ensures HeldWithin(Released(ledger, key, now), g, b.metric, from, b.window) <= b.limit {
        ReleasingLowers(ledger, key, now, g, b.metric, from, b.window);
        assert HeldWithin(ledger, g, b.metric, from, b.window) <= b.limit;
      }
    }
  }

  // --- every step ---------------------------------------------------------------------------------

  lemma AllKeysKeep(ceilings: Ceilings, w: World, step: Step)
    requires forall key :: KeyInvariant(ceilings, w, key)
    ensures forall key :: KeyInvariant(ceilings, Next(ceilings, w, step), key)
  {
    forall key ensures KeyInvariant(ceilings, Next(ceilings, w, step), key) { StepKeeps(ceilings, w, step, key); }
  }

  lemma TakingIsSound(ceilings: Ceilings, limits: map<string, seq<Budget>>, w: World, step: Step)
    requires Sound(ceilings, limits, w) && step.TakeKey? && ChargesComplete(limits, step)
    ensures LedgerInvariant(TakingKey(w, step)) && WithinLimits(limits, TakingKey(w, step).store.ledger)
  {
    var v := TakingKey(w, step);
    var id := step.action.actionId;
    if id !in w.callers {
      var (store, outcome) := Take(w.store, step.approvalId, step.actionHash, Some(step.key), id, step.lease,
                                   step.charges, w.now);
      TakeOnEffects(w.store, step.approvalId, step.actionHash, step.key, id, step.lease, step.charges, w.now);
      TakeOnLedger(w.store, step.approvalId, step.actionHash, step.key, id, step.lease, step.charges, w.now);
      if outcome.Err? {
        StandingKeeps(w, v);
      } else {
        assert KeyInvariant(ceilings, w, step.key);
        var e := ReservedKey(step.key, id, outcome.value.reservation.value.attempt, step.charges, w.now);
        WonKeepsTheLedger(ceilings, w, v, e);
        WonStaysWithinLimits(limits, w, v, e);
      }
    }
  }

  lemma ReleaseIsSound(ceilings: Ceilings, limits: map<string, seq<Budget>>, w: World, v: World, key: string)
    requires Sound(ceilings, limits, w) && LedgerReleases(w, v, key)
    ensures LedgerInvariant(v) && WithinLimits(limits, v.store.ledger)
  {
    assert KeyInvariant(ceilings, w, key);
    ReleasingKeepsTheLedger(ceilings, w, v, key);
    ReleasedStaysWithinLimits(limits, w.store.ledger, key, w.now);
  }

  /** `fail_effect`, from a run that did not execute or from the ceiling's release. */
  lemma FailingIsSound(ceilings: Ceilings, limits: map<string, seq<Budget>>, w: World, v: World, id: string,
                       error: string)
    requires Sound(ceilings, limits, w) && id in w.callers && v.now == w.now
    requires Fail(w.store, w.callers[id].key, id, error, w.now) == (v.store, Ok(()))
    requires v.log == w.log + [WentFailed(w.callers[id].key, id, w.callers[id].attempt)]
    ensures LedgerInvariant(v) && WithinLimits(limits, v.store.ledger)
  {
    var key := w.callers[id].key;
    TransitionOnEffects(w.store, key, id, Failed, EXECUTING_ONLY, None, Some(error), w.now);
    assert KeyInvariant(ceilings, w, key);
    assert LedgerReleases(w, v, key) by {
      assert WentFailed(key, id, w.callers[id].attempt).WentFailed?;
    }
    ReleaseIsSound(ceilings, limits, w, v, key);
  }

  lemma FinishingIsSound(ceilings: Ceilings, limits: map<string, seq<Budget>>, w: World, id: string, ending: Ending)
    requires Sound(ceilings, limits, w) && At(w, id, Running)
    ensures var v := Finishing(w, id, ending); LedgerInvariant(v) && WithinLimits(limits, v.store.ledger)
  {
    var c, v := w.callers[id], Finishing(w, id, ending);
    match ending
    case Returned(result) =>
      TransitionOnEffects(w.store, c.key, id, Committed, EXECUTING_ONLY, Some(result), None, w.now);
      StandingKeeps(w, v);
    case Raised(error) =>
      TransitionOnEffects(w.store, c.key, id, Ambiguous, UNFINISHED, None, Some(error), w.now);
      StandingKeeps(w, v);
    case NotExecuted(error) =>
      TransitionOnEffects(w.store, c.key, id, Failed, EXECUTING_ONLY, None, Some(error), w.now);
      var (store, outcome) := Fail(w.store, c.key, id, error, w.now);
      if outcome.Ok? {
        var failed := Logged(Phased(w.(store := store), id, Over), WentFailed(c.key, id, c.attempt));
        FailingIsSound(ceilings, limits, w, failed, id, error);
        StandingKeeps(failed, v);
      } else {
        StandingKeeps(w, v);
      }
  }

  lemma ResolvingIsSound(ceilings: Ceilings, limits: map<string, seq<Budget>>, w: World, key: string,
                         state: EffectState, resolver: string)
    requires Sound(ceilings, limits, w)
    ensures var v := Resolving(w, key, state, resolver); LedgerInvariant(v) && WithinLimits(limits, v.store.ledger)
  {
    var v := Resolving(w, key, state, resolver);
    var (store, outcome) := Resolve(w.store, key, state, resolver, w.now);
    ResolveOnEffects(w.store, key, state, resolver, w.now);
    if outcome.Ok? && state.Failed? {
      var e := WentFailed(key, outcome.value.actionId, outcome.value.attempt);
      assert v.log == w.log + [e] && e.WentFailed?;
      ReleaseIsSound(ceilings, limits, w, v, key);
    } else {
      StandingKeeps(w, v);
    }
  }

  lemma BeginningIsSound(ceilings: Ceilings, limits: map<string, seq<Budget>>, w: World, id: string)
    requires Sound(ceilings, limits, w) && At(w, id, Holding)
    ensures var v := Beginning(ceilings, w, id); LedgerInvariant(v) && WithinLimits(limits, v.store.ledger)
  {
    TransitionOnEffects(w.store, w.callers[id].key, id, Executing, RESERVED_ONLY, None, None, w.now);
    StandingKeeps(w, Beginning(ceilings, w, id));
  }

  lemma ReleasingRunIsSound(ceilings: Ceilings, limits: map<string, seq<Budget>>, w: World, id: string)
    requires Sound(ceilings, limits, w) && At(w, id, Releasing)
    ensures var v := ReleasingRun(w, id); LedgerInvariant(v) && WithinLimits(limits, v.store.ledger)
  {
    var v := ReleasingRun(w, id);
    TransitionOnEffects(w.store, w.callers[id].key, id, Failed, EXECUTING_ONLY, None, Some("max_attempts"), w.now);
    if Fail(w.store, w.callers[id].key, id, "max_attempts", w.now).1.Ok? {
      FailingIsSound(ceilings, limits, w, v, id, "max_attempts");
    } else {
      StandingKeeps(w, v);
    }
  }

  lemma StepIsSound(ceilings: Ceilings, limits: map<string, seq<Budget>>, w: World, step: Step)
    requires Sound(ceilings, limits, w) && ChargesComplete(limits, step)
    ensures Sound(ceilings, limits, Next(ceilings, w, step))
  {
    AllKeysKeep(ceilings, w, step);
    var v := Next(ceilings, w, step);
    match step
    case TakeKey(_, _, _, _, _, _) => TakingIsSound(ceilings, limits, w, step);
    case BeginRun(id) => if At(w, id, Holding) { BeginningIsSound(ceilings, limits, w, id); }
    case ReleaseRun(id) => if At(w, id, Releasing) { ReleasingRunIsSound(ceilings, limits, w, id); }
    case Finish(id, ending) => if At(w, id, Running) { FinishingIsSound(ceilings, limits, w, id, ending); }
    case ResolveKey(key, state, resolver) => ResolvingIsSound(ceilings, limits, w, key, state, resolver);
    case _ =>
      OtherStepsStand(ceilings, w, step);
      StandingKeeps(w, v);
  }

  /** No other step reserves, fails or releases anything. */
  lemma OtherStepsStand(ceilings: Ceilings, w: World, step: Step)
    requires !step.TakeKey? && !step.BeginRun? && !step.ReleaseRun? && !step.Finish? && !step.ResolveKey?
    ensures LedgerStands(w, Next(ceilings, w, step))
  {
    match step
    case Suspend(id, token, until) => if At(w, id, Running) { SuspendingStands(w, id, token, until); }
    case Resume(token) => ResumingStands(w, token);
    case Extend(key, id, until) => ExtendedExactlyWhen(Get(w.store.effects, key), key, id, until, w.now);
    case _ =>
  }

  lemma SuspendingStands(w: World, id: string, token: string, until: int)
    requires At(w, id, Running)
    ensures LedgerStands(w, Suspending(w, id, token, until))
  {
    var c := w.callers[id];
    ExtendedExactlyWhen(Get(w.store.effects, c.key), c.key, c.action.actionId, until, w.now);
  }

  lemma ResumingStands(w: World, token: string)
    ensures LedgerStands(w, Resuming(w, token))
  {}

  lemma {:induction false} RunIsSound(ceilings: Ceilings, limits: map<string, seq<Budget>>, w: World, steps: seq<Step>)
    requires Sound(ceilings, limits, w) && forall i | 0 <= i < |steps| :: ChargesComplete(limits, steps[i])
    ensures Sound(ceilings, limits, After(ceilings, w, steps))
    decreases |steps|
  {
    if steps != [] {
      StepIsSound(ceilings, limits, w, steps[0]);
      RunIsSound(ceilings, limits, Next(ceilings, w, steps[0]), steps[1..]);
    }
  }

  // --- conservation -------------------------------------------------------------------------------

  /** What the reservations of a history spend on a grant and metric in a window, failed attempts aside. */
  function SpendWithin(log: seq<Event>, all: seq<Event>, grantId: string, metric: string, from: int, span: int): nat {
    if log == [] then 0 else
    var e := log[|log| - 1];
    SpendWithin(log[..|log| - 1], all, grantId, metric, from, span)
    + if e.ReservedKey? && from <= e.at <= from + span && !FailedAt(all, e.key, e.attempt)
      then AmountOn(e.charges, grantId, metric) else 0
  }

  function AliveWithin(rows: Ledger, all: seq<Event>, grantId: string, metric: string, from: int, span: int): nat {
    if rows == [] then 0 else
    var last := rows[|rows| - 1];
    AliveWithin(rows[..|rows| - 1], all, grantId, metric, from, span)
    + if last.grantId == grantId && last.metric == metric && from <= last.consumedAt <= from + span
         && !FailedAt(all, last.effectKey, last.attempt) then last.amount else 0
  }

  lemma {:induction false} AliveOfConcat(a: Ledger, b: Ledger, all: seq<Event>, grantId: string, metric: string,
                                         from: int, span: int)
    ensures AliveWithin(a + b, all, grantId, metric, from, span)
         == AliveWithin(a, all, grantId, metric, from, span) + AliveWithin(b, all, grantId, metric, from, span)
  {
    if b == [] {
      assert a + b == a;
    } else {
      AliveOfConcat(a, b[..|b| - 1], all, grantId, metric, from, span);
      assert (a + b)[..|a + b| - 1] == a + b[..|b| - 1];
    }
  }

  lemma {:induction false} HeldIsAlive(ledger: Ledger, all: seq<Event>, grantId: string, metric: string, from: int,
                                       span: int)
    requires forall i | 0 <= i < |ledger| ::
      ledger[i].releasedAt.None? <==> !FailedAt(all, ledger[i].effectKey, ledger[i].attempt)
    ensures HeldWithin(ledger, grantId, metric, from, span)
        == AliveWithin(Stripped(ledger), all, grantId, metric, from, span)
  {
    if ledger != [] {
      var front := ledger[..|ledger| - 1];
      HeldIsAlive(front, all, grantId, metric, from, span);
      assert Stripped(ledger)[..|ledger| - 1] == Stripped(front);
    }
  }

  lemma {:induction false} AliveOfOneAttempt(rows: Ledger, all: seq<Event>, key: string, attempt: nat,
                                             grantId: string, metric: string, from: int, span: int)
    requires forall i | 0 <= i < |rows| ::
      rows[i].effectKey == key && rows[i].attempt == attempt && rows[i].releasedAt.None?
    ensures AliveWithin(rows, all, grantId, metric, from, span)
         == if FailedAt(all, key, attempt) then 0 else HeldWithin(rows, grantId, metric, from, span)
  {
    if rows != [] { AliveOfOneAttempt(rows[..|rows| - 1], all, key, attempt, grantId, metric, from, span); }
  }

  lemma {:induction false} AliveIsSpend(log: seq<Event>, all: seq<Event>, grantId: string, metric: string, from: int,
                                        span: int)
    requires forall i | 0 <= i < |log| && log[i].ReservedKey? :: AllAgree(log[i].charges)
    ensures AliveWithin(RowsOf(log), all, grantId, metric, from, span)
        == SpendWithin(log, all, grantId, metric, from, span)
  {
    if log != [] {
      var front, e := log[..|log| - 1], log[|log| - 1];
      AliveIsSpend(front, all, grantId, metric, from, span);
      if e.ReservedKey? {
        var rows := RowsFor(e.charges, e.key, e.attempt, e.at);
        AliveOfConcat(RowsOf(front), rows, all, grantId, metric, from, span);
        NothingReleased(e.charges, e.key, e.attempt, e.at);
        AliveOfOneAttempt(rows, all, e.key, e.attempt, grantId, metric, from, span);
        RowsWeighOnce(e.charges, e.key, e.attempt, e.at, grantId, metric, from, span);
      } else {
        assert RowsOf(log) == RowsOf(front);
      }
    }
  }

  lemma EmptyIsSound(ceilings: Ceilings, limits: map<string, seq<Budget>>)
    requires forall g, b | g in limits && b in limits[g] :: b.limit >= 0
    ensures Sound(ceilings, limits, EMPTY)
  {
    forall key ensures KeyInvariant(ceilings, EMPTY, key) { EmptyKeeps(ceilings, key); }
  }

  /**
    Over every run, for every grant and every budget on it, what reservations booked on that grant,
    failed attempts aside, is what the ledger holds, and in any interval of the budget's window it
    never exceeds the limit.
   */
  lemma BudgetsAreConserved(ceilings: Ceilings, limits: map<string, seq<Budget>>, steps: seq<Step>, grantId: string,
                            b: Budget, from: int)
    requires forall g, c | g in limits && c in limits[g] :: c.limit >= 0
    requires forall i | 0 <= i < |steps| :: ChargesComplete(limits, steps[i])
    requires grantId in limits && b in limits[grantId]
    ensures var w := After(ceilings, EMPTY, steps);
      && SpendWithin(w.log, w.log, grantId, b.metric, from, b.window)
          == HeldWithin(w.store.ledger, grantId, b.metric, from, b.window)
      && SpendWithin(w.log, w.log, grantId, b.metric, from, b.window) <= b.limit
  {
    EmptyIsSound(ceilings, limits);
    RunIsSound(ceilings, limits, EMPTY, steps);
    var w := After(ceilings, EMPTY, steps);
    forall i | 0 <= i < |w.store.ledger|
      ensures w.store.ledger[i].releasedAt.None? <==>
        !FailedAt(w.log, w.store.ledger[i].effectKey, w.store.ledger[i].attempt)
    {
      assert RowAgrees(w, w.store.ledger[i]);
    }
    HeldIsAlive(w.store.ledger, w.log, grantId, b.metric, from, b.window);
    AliveIsSpend(w.log, w.log, grantId, b.metric, from, b.window);
    assert Kept(w.store.ledger, grantId, b);
  }

  // --- the charges authority assembles are complete -----------------------------------------------

  /** Under one document, an id on a chain names one grant and so one list of budgets. */
  ghost predicate Budgeted(limits: map<string, seq<Budget>>, links: seq<Link>) {
    forall i | 0 <= i < |links| :: links[i].id in limits && limits[links[i].id] == BudgetsOf(links[i].grant.budgets)
  }

  /**
    Charging the whole chain is charging completely, and books on every grant of the chain the
    action's metric value against each of its budgets.
   */
  lemma WholeChainsAreComplete(limits: map<string, seq<Budget>>, links: seq<Link>, a: Action, charges: seq<Charge>)
    requires Budgeted(limits, links) && ChargedWholly(links, a, charges)
    ensures Complete(limits, charges)
    ensures forall i, b | 0 <= i < |links| && b in BudgetsOf(links[i].grant.budgets) ::
      MetricValue(a, b.metric).Some? && AmountOn(charges, links[i].id, b.metric) == MetricValue(a, b.metric).value
  {
    forall x, y | 0 <= x < y < |charges| ensures Agrees(charges[x], charges[y]) {
      assert charges[x] in charges && charges[y] in charges;
    }
    forall i, b | 0 <= i < |charges| && charges[i].grantId in limits && b in limits[charges[i].grantId]
       && b.metric == charges[i].metric
      ensures Weighed(charges, charges[i].grantId, b)
    {
      assert charges[i] in charges;
      var k, c :| 0 <= k < |links| && c in BudgetsOf(links[k].grant.budgets)
         && charges[i] == ChargeFor(Due(links[k].id, c), charges[i].amount);
      ChargedWeighs(links, a, charges, k, b);
    }
    forall i, b | 0 <= i < |links| && b in BudgetsOf(links[i].grant.budgets)
      ensures MetricValue(a, b.metric).Some?
           && AmountOn(charges, links[i].id, b.metric) == MetricValue(a, b.metric).value
    {
      var charge := ChargeFor(Due(links[i].id, b), MetricValue(a, b.metric).value);
      assert charge in charges;
      var n :| 0 <= n < |charges| && charges[n] == charge;
      AmountIsAgreed(charges, links[i].id, b.metric, n);
    }
  }

  lemma ChargedWeighs(links: seq<Link>, a: Action, charges: seq<Charge>, k: nat, b: Budget)
    requires ChargedWholly(links, a, charges) && k < |links| && b in BudgetsOf(links[k].grant.budgets)
    ensures Weighed(charges, links[k].id, b)
  {
    var charge := ChargeFor(Due(links[k].id, b), MetricValue(a, b.metric).value);
    assert charge in charges;
    var n :| 0 <= n < |charges| && charges[n] == charge;
  }
}
