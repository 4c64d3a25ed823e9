/**
  The spend ledger of `src/ctrlrun/state.py`: one row a charge, kept until the effect it paid for
  fails, and the predicate that refuses a charge whose window is spent.
 */
module Ledgers {
  import opened Options
  import opened Charges

  datatype Consumption = Consumption(
    grantId: string,
    metric: string,
    amount: nat,
    effectKey: string,
    attempt: nat,
    consumedAt: int,
    releasedAt: Option<int>)

  type Ledger = seq<Consumption>

  predicate Counts(row: Consumption, grantId: string, metric: string, floor: int) {
    row.grantId == grantId && row.metric == metric && row.releasedAt.None? && row.consumedAt >= floor
  }

  /** `_spent`: what a grant still holds on a metric since `floor`, the floor included. */
  function Spent(ledger: Ledger, grantId: string, metric: string, floor: int): nat {
    if ledger == [] then 0 else
    var last := ledger[|ledger| - 1];
    Spent(ledger[..|ledger| - 1], grantId, metric, floor) + if Counts(last, grantId, metric, floor) then last.amount
      else 0
  }

  function SpentFor(ledger: Ledger, c: Charge, now: int): nat {
    Spent(ledger, c.grantId, c.metric, now - c.window)
  }

  // --- may these charges be made --------------------------------------------------------------

  datatype ChargeRefusal = MixedAmounts | Exhausted(grantId: string, metric: string, window: int)

  predicate Agrees(a: Charge, b: Charge) {
    a.grantId == b.grantId && a.metric == b.metric ==> a.amount == b.amount
  }

  predicate AllAgree(charges: seq<Charge>) {
    forall i, j | 0 <= i < j < |charges| :: Agrees(charges[i], charges[j])
  }

  predicate Fits(ledger: Ledger, c: Charge, now: int) {
    SpentFor(ledger, c, now) + c.amount <= c.limit
  }

  function FirstExhausted(ledger: Ledger, charges: seq<Charge>, now: int): Option<Charge> {
    if charges == [] then None
    else if !Fits(ledger, charges[0], now) then Some(charges[0])
    else FirstExhausted(ledger, charges[1..], now)
  }

  function ChargesRefused(ledger: Ledger, charges: seq<Charge>, now: int): Option<ChargeRefusal> {
    if !AllAgree(charges) then Some(MixedAmounts)
    else
      var c := FirstExhausted(ledger, charges, now);
      if c.None? then None else Some(Exhausted(c.value.grantId, c.value.metric, c.value.window))
  }

  lemma {:induction false} FirstExhaustedFinds(ledger: Ledger, charges: seq<Charge>, now: int)
    ensures FirstExhausted(ledger, charges, now).None? <==>
      forall i | 0 <= i < |charges| :: Fits(ledger, charges[i], now)
  {
    if charges != [] {
      FirstExhaustedFinds(ledger, charges[1..], now);
      assert charges == [charges[0]] + charges[1..];
    }
  }

  lemma {:induction false} FirstExhaustedAt(ledger: Ledger, charges: seq<Charge>, now: int, i: nat)
    requires i < |charges| && !Fits(ledger, charges[i], now)
    requires forall k | 0 <= k < i :: Fits(ledger, charges[k], now)
    ensures FirstExhausted(ledger, charges, now) == Some(charges[i])
  {
    if i > 0 {
      forall k | 0 <= k < i - 1 ensures Fits(ledger, charges[1..][k], now) { assert charges[1..][k] == charges[k + 1]; }
      FirstExhaustedAt(ledger, charges[1..], now, i - 1);
    }
  }

  /** `check_charges`: every charge is weighed, several on one grant and metric included. */
  method CheckCharges(ledger: Ledger, charges: seq<Charge>, now: int) returns (r: Option<ChargeRefusal>)
    ensures r == ChargesRefused(ledger, charges, now)
  {
    var amounts: map<(string, string), nat> := map[];
    for i := 0 to |charges|
      invariant AllAgree(charges[..i])
      invariant forall k | 0 <= k < i :: (charges[k].grantId, charges[k].metric) in amounts
      invariant forall k | 0 <= k < i :: amounts[(charges[k].grantId, charges[k].metric)] == charges[k].amount
      invariant forall key | key in amounts :: exists k | 0 <= k < i :: (charges[k].grantId, charges[k].metric) == key
    {
      var key := (charges[i].grantId, charges[i].metric);
      if key in amounts && amounts[key] != charges[i].amount {
        ghost var k :| 0 <= k < i && (charges[k].grantId, charges[k].metric) == key;
        assert !Agrees(charges[k], charges[i]);
        return Some(MixedAmounts);
      }
      amounts := amounts[key := charges[i].amount];
      forall a, b | 0 <= a < b < i + 1 ensures Agrees(charges[a], charges[b]) {
        if b < i { assert Agrees(charges[..i][a], charges[..i][b]); }
      }
    }
    assert charges[..|charges|] == charges;
    for i := 0 to |charges|
      invariant forall k | 0 <= k < i :: Fits(ledger, charges[k], now)
    {
      if !Fits(ledger, charges[i], now) {
        FirstExhaustedAt(ledger, charges, now, i);
        return Some(Exhausted(charges[i].grantId, charges[i].metric, charges[i].window));
      }
    }
    FirstExhaustedFinds(ledger, charges, now);
    return None;
  }

  // --- writing and releasing rows ---------------------------------------------------------------

  predicate HasRow(ledger: Ledger, c: Charge, key: string, attempt: nat) {
    exists i | 0 <= i < |ledger| ::
      ledger[i].effectKey == key && ledger[i].attempt == attempt
      && ledger[i].grantId == c.grantId && ledger[i].metric == c.metric
  }

  function RowFor(c: Charge, key: string, attempt: nat, now: int): Consumption {
    Consumption(c.grantId, c.metric, c.amount, key, attempt, now, None)
  }

  /** One row for each effect key, attempt, grant and metric: a repeated write adds nothing. */
  function WithCharge(ledger: Ledger, c: Charge, key: string, attempt: nat, now: int): Ledger {
    if HasRow(ledger, c, key, attempt) then ledger else ledger + [RowFor(c, key, attempt, now)]
  }

  function WithCharges(ledger: Ledger, charges: seq<Charge>, key: string, attempt: nat, now: int): Ledger {
    if charges == [] then ledger
    else WithCharge(WithCharges(ledger, charges[..|charges| - 1], key, attempt, now), charges[|charges| - 1], key,
                    attempt, now)
  }

  method ChargeAll(ledger: Ledger, charges: seq<Charge>, key: string, attempt: nat, now: int) returns (r: Ledger)
    ensures r == WithCharges(ledger, charges, key, attempt, now)
  {
    r := ledger;
    for i := 0 to |charges|
      invariant r == WithCharges(ledger, charges[..i], key, attempt, now)
    {
      assert charges[..i + 1][..i] == charges[..i];
      if !HasRow(r, charges[i], key, attempt) {
        r := r + [RowFor(charges[i], key, attempt, now)];
      }
    }
    assert charges[..|charges|] == charges;
  }

  /** `_release_locked`, reached only where the effect reached `FAILED`. */
  function Released(ledger: Ledger, key: string, now: int): (r: Ledger)
    ensures |r| == |ledger|
    ensures forall i | 0 <= i < |r| :: r[i] == ReleasedRow(ledger[i], key, now)
  {
    seq(|ledger|, i requires 0 <= i < |ledger| => ReleasedRow(ledger[i], key, now))
  }

  /** A compare-and-set, never a decrement: a row already released keeps its instant. */
  function ReleasedRow(row: Consumption, key: string, now: int): Consumption {
    if row.effectKey == key && row.releasedAt.None? then row.(releasedAt := Some(now)) else row
  }
}
