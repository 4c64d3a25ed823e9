/**
  External anchors: `verify_anchors`, `make_anchor` and their ordering rules in
  `src/ctrlrun/anchor.py`. The provider is the operator's own system; the local table is a cache
  that whoever rewrote the chain could have rewritten too.
 */
module Anchors {
  import opened Options

  datatype Kind = Checkpoint | Interval

  datatype Anchor = Anchor(seqNo: int, hash: string, token: string, kind: Kind, at: int)

  datatype Receipt = Receipt(seqNo: Option<int>, hash: Option<string>)

  datatype Vouch = Vouched | NotVouched | NoAnswer

  datatype Provider =
    | Unreachable
    | Reachable(held: seq<Anchor>, newest: Option<(int, string)>, check: (int, string, string) -> Vouch)

  /** A broken seq carries what the chain says of it now: another hash, or nothing. */
  datatype Break = Broken(at: int, found: Option<string>) | Missing(seqNo: Option<int>) | Repudiated(named: int)

  datatype Report = Report(ok: bool, unavailable: bool, checked: nat, superseded: nat, breaks: seq<Break>)

  // --- the chain ------------------------------------------------------------------------------

  type Hashes = map<int, string>

  function HashesOf(receipts: seq<Receipt>): Hashes {
    if receipts == [] then map[] else
    var last := receipts[|receipts| - 1];
    var before := HashesOf(receipts[..|receipts| - 1]);
    if last.seqNo.Some? && last.hash.Some? then before[last.seqNo.value := last.hash.value] else before
  }

  /** The receipt at `i` gives this seq its hash, and no receipt after it does. */
  ghost predicate LastFor(receipts: seq<Receipt>, seqNo: int, i: int) {
    && 0 <= i < |receipts|
    && receipts[i].seqNo == Some(seqNo) && receipts[i].hash.Some?
    && forall j | i < j < |receipts| :: receipts[j].seqNo == Some(seqNo) ==> receipts[j].hash.None?
  }

  lemma {:induction false} LastForAfter(receipts: seq<Receipt>, seqNo: int, i: nat)
    requires i < |receipts| && receipts[i].seqNo == Some(seqNo) && receipts[i].hash.Some?
    ensures exists j :: i <= j && LastFor(receipts, seqNo, j)
    decreases |receipts| - i
  {
    if j :| i < j < |receipts| && receipts[j].seqNo == Some(seqNo) && receipts[j].hash.Some? {
      LastForAfter(receipts, seqNo, j);
    } else {
      assert LastFor(receipts, seqNo, i);
    }
  }

  /**
    A seq is in the chain's map exactly when some receipt carries it with a hash, and the map has
    the hash of the last one that does, whatever else was stored for it before.
   */
  lemma {:induction false} TheLastHashStands(receipts: seq<Receipt>, seqNo: int)
    ensures seqNo in HashesOf(receipts) <==>
      exists i | 0 <= i < |receipts| :: receipts[i].seqNo == Some(seqNo) && receipts[i].hash.Some?
    ensures forall i | LastFor(receipts, seqNo, i) ::
      seqNo in HashesOf(receipts) && HashesOf(receipts)[seqNo] == receipts[i].hash.value
  {
    if receipts != [] {
      var front, last := receipts[..|receipts| - 1], receipts[|receipts| - 1];
      TheLastHashStands(front, seqNo);
      forall i | LastFor(receipts, seqNo, i)
        ensures seqNo in HashesOf(receipts) && HashesOf(receipts)[seqNo] == receipts[i].hash.value
      {
        if i < |front| {
          assert front[i] == receipts[i];
          assert LastFor(front, seqNo, i);
        }
      }
    }
  }

  /** `_chain_hashes`: the last hash stored for a seq stands, and a receipt without both parts is not in the map. */
  method ChainHashes(receipts: seq<Receipt>) returns (found: Hashes)
    ensures found == HashesOf(receipts)
    ensures forall seqNo | seqNo in found :: exists i :: LastFor(receipts, seqNo, i)
    ensures forall seqNo, i | LastFor(receipts, seqNo, i) :: seqNo in found && found[seqNo] == receipts[i].hash.value
  {
    found := map[];
    for i := 0 to |receipts|
      invariant found == HashesOf(receipts[..i])
    {
      assert receipts[..i + 1][..i] == receipts[..i];
      if receipts[i].seqNo.Some? && receipts[i].hash.Some? {
        found := found[receipts[i].seqNo.value := receipts[i].hash.value];
      }
    }
    assert receipts[..|receipts|] == receipts;
    forall seqNo | seqNo in found ensures exists i :: LastFor(receipts, seqNo, i) {
      TheLastHashStands(receipts, seqNo);
      var i :| 0 <= i < |receipts| && receipts[i].seqNo == Some(seqNo) && receipts[i].hash.Some?;
      LastForAfter(receipts, seqNo, i);
    }
    forall seqNo, i | LastFor(receipts, seqNo, i)
      ensures seqNo in found && found[seqNo] == receipts[i].hash.value
    {
      TheLastHashStands(receipts, seqNo);
    }
  }

  // --- one anchor ------------------------------------------------------------------------------

  /** Everything the walk reads beside the anchor: the chain, the cache and the one that may supersede. */
  datatype Scene = Scene(hashes: Hashes, tokens: set<string>, checkpoint: Option<(int, string)>, held: seq<Anchor>)

  /** The provider itself holds the very pair the store's checkpoint names. */
  predicate CheckpointAnchored(s: Scene) {
    s.checkpoint.Some?
    && exists i | 0 <= i < |s.held| ::
         s.held[i].kind.Checkpoint? && s.held[i].seqNo == s.checkpoint.value.0 && s.held[i].hash == s.checkpoint.value.1
  }

  predicate Superseded(s: Scene, seqNo: int) {
    CheckpointAnchored(s) && seqNo <= s.checkpoint.value.0
  }

  predicate Reproduced(s: Scene, a: Anchor) {
    a.seqNo in s.hashes && s.hashes[a.seqNo] == a.hash
  }

  /** The chain no longer says what the anchor froze, and no anchored checkpoint accounts for it. */
  predicate IsBroken(s: Scene, a: Anchor) {
    if a.seqNo in s.hashes then s.hashes[a.seqNo] != a.hash else !Superseded(s, a.seqNo)
  }

  function BreaksOf(s: Scene, a: Anchor, vouch: Vouch): seq<Break> {
    (if a.token !in s.tokens then [Missing(Some(a.seqNo))] else [])
    + (if IsBroken(s, a) then [Broken(a.seqNo, if a.seqNo in s.hashes then Some(s.hashes[a.seqNo]) else None)] else [])
    + (if Reproduced(s, a) && a.token in s.tokens && vouch.NotVouched? then [Repudiated(a.seqNo)] else [])
  }

  /** The provider is asked only about a pair that reproduces and whose token the cache still has. */
  predicate Asks(s: Scene, a: Anchor) {
    Reproduced(s, a) && a.token in s.tokens
  }

  // --- the walk over what the provider holds -----------------------------------------------------

  datatype Tally = Tally(checked: nat, superseded: nat, breaks: seq<Break>, down: bool)

  function Step(s: Scene, p: Provider, t: Tally, a: Anchor): Tally
    requires p.Reachable?
  {
    if t.down then t else
    var vouch := if Asks(s, a) then p.check(a.seqNo, a.hash, a.token) else Vouched;
    if vouch.NoAnswer? then t.(down := true)
    else Tally(t.checked + (if Asks(s, a) && vouch.Vouched? then 1 else 0),
               t.superseded + (if a.seqNo !in s.hashes && Superseded(s, a.seqNo) then 1 else 0),
               t.breaks + BreaksOf(s, a, vouch), false)
  }

  function Walked(s: Scene, p: Provider, anchors: seq<Anchor>): Tally
    requires p.Reachable?
  {
    if anchors == [] then Tally(0, 0, [], false)
    else Step(s, p, Walked(s, p, anchors[..|anchors| - 1]), anchors[|anchors| - 1])
  }

  predicate Earlier(a: Anchor, b: Anchor) {
    a.seqNo < b.seqNo || (a.seqNo == b.seqNo && a.kind.Checkpoint? && b.kind.Interval?)
  }

  function Insert(a: Anchor, sorted: seq<Anchor>): seq<Anchor> {
    if sorted == [] || !Earlier(a, sorted[|sorted| - 1]) then sorted + [a]
    else Insert(a, sorted[..|sorted| - 1]) + [sorted[|sorted| - 1]]
  }

  /** `sorted(held, key=(seq, kind))`, which keeps the order of equals. */
  function Sorted(anchors: seq<Anchor>): seq<Anchor> {
    if anchors == [] then [] else Insert(anchors[|anchors| - 1], Sorted(anchors[..|anchors| - 1]))
  }

  lemma {:induction false} InsertKeeps(a: Anchor, sorted: seq<Anchor>)
    ensures multiset(Insert(a, sorted)) == multiset(sorted) + multiset{a}
  {
    if sorted != [] {
      var front, last := sorted[..|sorted| - 1], sorted[|sorted| - 1];
      assert sorted == front + [last];
      InsertKeeps(a, front);
    }
  }

  lemma {:induction false} SortedKeeps(anchors: seq<Anchor>)
    ensures multiset(Sorted(anchors)) == multiset(anchors)
  {
    if anchors != [] {
      var front, last := anchors[..|anchors| - 1], anchors[|anchors| - 1];
      assert anchors == front + [last];
      SortedKeeps(front);
      InsertKeeps(last, Sorted(front));
    }
  }

  ghost predicate InOrder(anchors: seq<Anchor>) {
    forall i, j | 0 <= i < j < |anchors| :: !Earlier(anchors[j], anchors[i])
  }

  lemma {:induction false} InsertOrders(a: Anchor, sorted: seq<Anchor>)
    requires InOrder(sorted)
    ensures InOrder(Insert(a, sorted))
  {
    if sorted != [] && Earlier(a, sorted[|sorted| - 1]) {
      var front, last := sorted[..|sorted| - 1], sorted[|sorted| - 1];
      InsertOrders(a, front);
      InsertKeeps(a, front);
      forall x | x in Insert(a, front) ensures !Earlier(last, x) {
        assert x in multiset(Insert(a, front));
        if x != a {
          assert x in multiset(front);
          assert x in front;
        }
      }
    }
  }

  lemma {:induction false} SortedIsInOrder(anchors: seq<Anchor>)
    ensures InOrder(Sorted(anchors))
  {
    if anchors != [] {
      SortedIsInOrder(anchors[..|anchors| - 1]);
      InsertOrders(anchors[|anchors| - 1], Sorted(anchors[..|anchors| - 1]));
    }
  }

  lemma SortedHolds(anchors: seq<Anchor>, a: Anchor)
    ensures a in Sorted(anchors) <==> a in anchors
  {
    SortedKeeps(anchors);
    assert a in Sorted(anchors) <==> a in multiset(Sorted(anchors));
    assert a in anchors <==> a in multiset(anchors);
  }

  // --- the report ----------------------------------------------------------------------------

  function Only(breaks: seq<Break>, rank: int): seq<Break> {
    if breaks == [] then [] else
    var last := breaks[|breaks| - 1];
    Only(breaks[..|breaks| - 1], rank) + if Rank(last) == rank then [last] else []
  }

  /** `ANCHOR_BREAKS.index`: what means tamper comes before what means misconfiguration. */
  function Rank(b: Break): int {
    match b case Broken(_, _) => 0 case Missing(_) => 1 case Repudiated(_) => 2
  }

  /** `breaks.sort(key=ANCHOR_BREAKS.index)`, which keeps the order of equals. */
  function Ranked(breaks: seq<Break>): seq<Break> {
    Only(breaks, 0) + Only(breaks, 1) + Only(breaks, 2)
  }

  lemma {:induction false} OnlyHolds(breaks: seq<Break>, rank: int, b: Break)
    ensures b in Only(breaks, rank) <==> b in breaks && Rank(b) == rank
  {
    if breaks != [] {
      var front, last := breaks[..|breaks| - 1], breaks[|breaks| - 1];
      OnlyHolds(front, rank, b);
      assert b in breaks <==> b in front || b == last;
    }
  }

  lemma RankedHolds(breaks: seq<Break>, b: Break)
    ensures b in Ranked(breaks) <==> b in breaks
  {
    OnlyHolds(breaks, 0, b);
    OnlyHolds(breaks, 1, b);
    OnlyHolds(breaks, 2, b);
  }

  function LatestBreak(p: Provider): seq<Break>
    requires p.Reachable?
  {
    if p.newest.Some? && forall i | 0 <= i < |p.held| :: p.held[i].seqNo != p.newest.value.0
    then [Missing(Some(p.newest.value.0))] else []
  }

  function TokensOf(cached: seq<Anchor>): set<string> {
    set i | 0 <= i < |cached| :: cached[i].token
  }

  function SceneOf(receipts: seq<Receipt>, cached: seq<Anchor>, checkpoint: Option<(int, string)>,
                   held: seq<Anchor>): Scene
  {
    Scene(HashesOf(receipts), TokensOf(cached), checkpoint, held)
  }

  const UNAVAILABLE := Report(false, true, 0, 0, [])

  function Verification(receipts: seq<Receipt>, cached: seq<Anchor>, checkpoint: Option<(int, string)>,
                        p: Provider): Report
  {
    if p.Unreachable? then UNAVAILABLE
    else if p.held == [] && cached == [] then Report(false, false, 0, 0, [Missing(None)])
    else
      var t := Walked(SceneOf(receipts, cached, checkpoint, p.held), p, Sorted(p.held));
      if t.down then Report(false, true, t.checked, t.superseded, [])
      else
        var breaks := Ranked(t.breaks + LatestBreak(p));
        Report(breaks == [], false, t.checked, t.superseded, breaks)
  }

  /** One turn of the loop in `verify_anchors`. */
  method Examine(s: Scene, p: Provider, a: Anchor, t: Tally) returns (r: Tally)
    requires p.Reachable? && !t.down
    ensures r == Step(s, p, t, a)
  {
    r := t;
    if a.token !in s.tokens {
      r := r.(breaks := r.breaks + [Missing(Some(a.seqNo))]);
      if Reproduced(s, a) { return; }
    }
    if a.seqNo !in s.hashes {
      if Superseded(s, a.seqNo) {
        r := r.(superseded := r.superseded + 1);
        return;
      }
      r := r.(breaks := r.breaks + [Broken(a.seqNo, None)]);
      return;
    }
    if s.hashes[a.seqNo] != a.hash {
      r := r.(breaks := r.breaks + [Broken(a.seqNo, Some(s.hashes[a.seqNo]))]);
      return;
    }
    var vouch := p.check(a.seqNo, a.hash, a.token);
    if vouch.NoAnswer? { return r.(down := true); }
    if vouch.NotVouched? {
      r := r.(breaks := r.breaks + [Repudiated(a.seqNo)]);
      return;
    }
    r := r.(checked := r.checked + 1);
  }

  /** `verify_anchors`: the provider is asked what it holds before the cache is read. */
  method VerifyAnchors(receipts: seq<Receipt>, cached: seq<Anchor>, checkpoint: Option<(int, string)>, p: Provider)
    returns (report: Report)
    ensures report == Verification(receipts, cached, checkpoint, p)
  {
    if p.Unreachable? { return UNAVAILABLE; }
    if p.held == [] && cached == [] { return Report(false, false, 0, 0, [Missing(None)]); }
    var hashes := ChainHashes(receipts);
    var s := Scene(hashes, TokensOf(cached), checkpoint, p.held);
    var anchors := Sorted(p.held);
    var t := Tally(0, 0, [], false);
    for i := 0 to |anchors|
      invariant t == Walked(s, p, anchors[..i]) && !t.down
    {
      assert anchors[..i + 1][..i] == anchors[..i];
      t := Examine(s, p, anchors[i], t);
      if t.down {
        DownIsFinal(s, p, anchors, i + 1);
        return Report(false, true, t.checked, t.superseded, []);
      }
    }
    assert anchors[..|anchors|] == anchors;
    var breaks := Ranked(t.breaks + LatestBreak(p));
    report := Report(breaks == [], false, t.checked, t.superseded, breaks);
  }

  lemma {:induction false} DownIsFinal(s: Scene, p: Provider, anchors: seq<Anchor>, i: nat)
    requires p.Reachable? && i <= |anchors| && Walked(s, p, anchors[..i]).down
    ensures Walked(s, p, anchors) == Walked(s, p, anchors[..i])
    decreases |anchors|
  {
    if i == |anchors| {
      assert anchors[..i] == anchors;
    } else {
      var front := anchors[..|anchors| - 1];
      assert front[..i] == anchors[..i];
      DownIsFinal(s, p, front, i);
    }
  }

  // --- the cache is not trusted ------------------------------------------------------------------

  /** The provider answers whatever it is asked. */
  ghost predicate Answers(p: Provider) {
    p.Reachable? && forall seqNo, hash, token :: !p.check(seqNo, hash, token).NoAnswer?
  }

  lemma {:induction false} WalkBreaks(s: Scene, p: Provider, anchors: seq<Anchor>, b: Break)
    requires Answers(p)
    ensures !Walked(s, p, anchors).down
    ensures b in Walked(s, p, anchors).breaks <==>
      exists a :: a in anchors && b in BreaksOf(s, a, if Asks(s, a) then p.check(a.seqNo, a.hash, a.token) else Vouched)
  {
    if anchors != [] {
      var front, last := anchors[..|anchors| - 1], anchors[|anchors| - 1];
      WalkBreaks(s, p, front, b);
      assert forall a :: a in anchors <==> a in front || a == last;
    }
  }

  lemma BrokenOf(s: Scene, a: Anchor, vouch: Vouch, at: int, found: Option<string>)
    ensures Broken(at, found) in BreaksOf(s, a, vouch) <==>
      a.seqNo == at && IsBroken(s, a) && found == (if at in s.hashes then Some(s.hashes[at]) else None)
  {
    if IsBroken(s, a) {
      var mine := Broken(a.seqNo, if a.seqNo in s.hashes then Some(s.hashes[a.seqNo]) else None);
      assert mine in BreaksOf(s, a, vouch);
    }
  }

  /**
    A seq is reported broken exactly when the provider holds an anchor there that the chain no
    longer reproduces: another hash in its place, or nothing and no provider-anchored checkpoint
    pair at or above it.
   */
  lemma BrokenExactlyWhen(receipts: seq<Receipt>, cached: seq<Anchor>, checkpoint: Option<(int, string)>, p: Provider,
                          at: int, found: Option<string>)
    requires Answers(p)
    ensures var s := SceneOf(receipts, cached, checkpoint, p.held);
      Broken(at, found) in Verification(receipts, cached, checkpoint, p).breaks <==>
        (&& (exists a :: a in p.held && a.seqNo == at && IsBroken(s, a))
         && found == (if at in s.hashes then Some(s.hashes[at]) else None))
  {
    if p.held != [] || cached != [] {
      var s := SceneOf(receipts, cached, checkpoint, p.held);
      var b := Broken(at, found);
      var t := Walked(s, p, Sorted(p.held));
      WalkBreaks(s, p, Sorted(p.held), b);
      RankedHolds(t.breaks + LatestBreak(p), b);
      forall a ensures a in Sorted(p.held) <==> a in p.held { SortedHolds(p.held, a); }
      forall a | a in p.held
        ensures b in BreaksOf(s, a, if Asks(s, a) then p.check(a.seqNo, a.hash, a.token) else Vouched) <==>
                (a.seqNo == at && IsBroken(s, a) && found == (if at in s.hashes then Some(s.hashes[at]) else None))
      {
        BrokenOf(s, a, if Asks(s, a) then p.check(a.seqNo, a.hash, a.token) else Vouched, at, found);
      }
    }
  }

  /** The set of broken seqs is the same for every local anchor table: trimmed, emptied or forged. */
  lemma BrokenIgnoresTheCache(receipts: seq<Receipt>, cached: seq<Anchor>, other: seq<Anchor>,
                              checkpoint: Option<(int, string)>, p: Provider, b: Break)
    requires Answers(p) && b.Broken?
    ensures b in Verification(receipts, cached, checkpoint, p).breaks <==>
      b in Verification(receipts, other, checkpoint, p).breaks
  {
    BrokenExactlyWhen(receipts, cached, checkpoint, p, b.at, b.found);
    BrokenExactlyWhen(receipts, other, checkpoint, p, b.at, b.found);
    var s, t := SceneOf(receipts, cached, checkpoint, p.held), SceneOf(receipts, other, checkpoint, p.held);
    assert forall a :: IsBroken(s, a) <==> IsBroken(t, a);
  }

  // --- honest growth is silent ---------------------------------------------------------------------

  lemma {:induction false} AppendedHashes(receipts: seq<Receipt>, more: seq<Receipt>, seqNo: int)
    requires forall i | 0 <= i < |more| :: more[i].seqNo != Some(seqNo)
    ensures seqNo in HashesOf(receipts + more) <==> seqNo in HashesOf(receipts)
    ensures seqNo in HashesOf(receipts) ==> HashesOf(receipts + more)[seqNo] == HashesOf(receipts)[seqNo]
  {
    if more == [] {
      assert receipts + more == receipts;
    } else {
      AppendedHashes(receipts, more[..|more| - 1], seqNo);
      assert (receipts + more)[..|receipts + more| - 1] == receipts + more[..|more| - 1];
    }
  }

  lemma {:induction false} WalkReadsAnchoredOnly(s: Scene, t: Scene, p: Provider, anchors: seq<Anchor>)
    requires p.Reachable? && t == s.(hashes := t.hashes)
    requires forall a | a in anchors :: (a.seqNo in s.hashes <==> a.seqNo in t.hashes)
                                        && (a.seqNo in s.hashes ==> s.hashes[a.seqNo] == t.hashes[a.seqNo])
    ensures Walked(s, p, anchors) == Walked(t, p, anchors)
  {
    if anchors != [] {
      WalkReadsAnchoredOnly(s, t, p, anchors[..|anchors| - 1]);
      assert anchors[|anchors| - 1] in anchors;
    }
  }

  /** Receipts appended above every anchored seq change nothing in the report. */
  lemma GrowthChangesNothing(receipts: seq<Receipt>, more: seq<Receipt>, cached: seq<Anchor>,
                             checkpoint: Option<(int, string)>, p: Provider)
    requires p.Reachable? ==>
      forall i, a | 0 <= i < |more| && a in p.held :: more[i].seqNo.Some? ==> more[i].seqNo.value > a.seqNo
    ensures Verification(receipts + more, cached, checkpoint, p) == Verification(receipts, cached, checkpoint, p)
  {
    if p.Reachable? {
      var s, t := SceneOf(receipts, cached, checkpoint, p.held), SceneOf(receipts + more, cached, checkpoint, p.held);
      forall a | a in Sorted(p.held)
        ensures (a.seqNo in s.hashes <==> a.seqNo in t.hashes)
             && (a.seqNo in s.hashes ==> s.hashes[a.seqNo] == t.hashes[a.seqNo])
      {
        SortedHolds(p.held, a);
        AppendedHashes(receipts, more, a.seqNo);
      }
      WalkReadsAnchoredOnly(s, t, p, Sorted(p.held));
    }
  }

  // --- what `ok` means -----------------------------------------------------------------------------

  /** The anchor is vouched for and reproduced, or a checkpoint the provider anchored accounts for it. */
  ghost predicate Sound(s: Scene, p: Provider, a: Anchor)
    requires p.Reachable?
  {
    && a.token in s.tokens
    && (if a.seqNo in s.hashes then s.hashes[a.seqNo] == a.hash && p.check(a.seqNo, a.hash, a.token).Vouched?
        else Superseded(s, a.seqNo))
  }

  lemma {:induction false} WalkSound(s: Scene, p: Provider, anchors: seq<Anchor>)
    requires Answers(p)
    ensures !Walked(s, p, anchors).down
    ensures Walked(s, p, anchors).breaks == [] <==> forall a | a in anchors :: Sound(s, p, a)
  {
    if anchors != [] {
      var front, last := anchors[..|anchors| - 1], anchors[|anchors| - 1];
      WalkSound(s, p, front);
      assert forall a :: a in anchors <==> a in front || a == last;
      var vouch := if Asks(s, last) then p.check(last.seqNo, last.hash, last.token) else Vouched;
      BreaksOfSound(s, p, last);
      assert Walked(s, p, anchors).breaks == Walked(s, p, front).breaks + BreaksOf(s, last, vouch);
    }
  }

  lemma BreaksOfSound(s: Scene, p: Provider, a: Anchor)
    requires Answers(p)
    ensures BreaksOf(s, a, if Asks(s, a) then p.check(a.seqNo, a.hash, a.token) else Vouched) == [] <==> Sound(s, p, a)
  {
    var vouch := if Asks(s, a) then p.check(a.seqNo, a.hash, a.token) else Vouched;
    var breaks := BreaksOf(s, a, vouch);
    if a.token !in s.tokens { assert breaks[0] == Missing(Some(a.seqNo)); }
    if IsBroken(s, a) { BrokenOf(s, a, vouch, a.seqNo, if a.seqNo in s.hashes then Some(s.hashes[a.seqNo]) else None); }
    if Asks(s, a) && vouch.NotVouched? { assert breaks[|breaks| - 1] == Repudiated(a.seqNo); }
  }

  /**
    A report is `ok` exactly when everything the provider holds is sound, its `latest()` is among
    what it holds, and the provider or the cache holds something at all.
   */
  lemma OkExactlyWhen(receipts: seq<Receipt>, cached: seq<Anchor>, checkpoint: Option<(int, string)>, p: Provider)
    requires Answers(p)
    ensures Verification(receipts, cached, checkpoint, p).ok <==>
      (&& (p.held != [] || cached != [])
       && (forall a | a in p.held :: Sound(SceneOf(receipts, cached, checkpoint, p.held), p, a))
       && LatestBreak(p) == [])
  {
    var s := SceneOf(receipts, cached, checkpoint, p.held);
    WalkSound(s, p, Sorted(p.held));
    forall a ensures a in Sorted(p.held) <==> a in p.held { SortedHolds(p.held, a); }
    var found := Walked(s, p, Sorted(p.held)).breaks + LatestBreak(p);
    if found != [] { RankedHolds(found, found[0]); }
    if Ranked(found) != [] { RankedHolds(found, Ranked(found)[0]); }
  }

  /**
    A provider that holds nothing is reported missing only while the local table is empty: one row
    in that table, whoever put it there, turns the report `ok`.
   */
  lemma EmptyProviderIsOkWhenTheCacheIsNot(receipts: seq<Receipt>, cached: seq<Anchor>,
                                           checkpoint: Option<(int, string)>, p: Provider)
    requires Answers(p) && p.held == [] && p.newest.None?
    ensures Verification(receipts, cached, checkpoint, p).ok <==> cached != []
  {
    OkExactlyWhen(receipts, cached, checkpoint, p);
  }

  /**
    One planted row is enough: a provider that holds nothing and vouches for nothing, a chain with
    one receipt, and a local table naming an anchor nobody made. The report is `ok`.
   */
  lemma APlantedRowHidesAnEmptyProvider() returns (receipts: seq<Receipt>, cached: seq<Anchor>, p: Provider)
    ensures Answers(p) && p.held == [] && p.newest.None?
         && (forall n, hash, token :: p.check(n, hash, token).NotVouched?)
    ensures |cached| == 1 && Verification(receipts, cached, None, p) == Report(true, false, 0, 0, [])
    ensures Verification(receipts, [], None, p) == Report(false, false, 0, 0, [Missing(None)])
  {
    receipts := [Receipt(Some(1), Some("h"))];
    cached := [Anchor(7, "forged", "planted", Interval, 0)];
    p := Reachable([], None, (n: int, hash: string, token: string) => NotVouched);
    EmptyProviderIsOkWhenTheCacheIsNot(receipts, cached, None, p);
  }

  // --- making an anchor -------------------------------------------------------------------------

  datatype Answer = Raised | Malformed | Made(token: string, at: int)

  datatype Making = Anchored(anchor: Anchor) | NoHead | OutOfOrder | NotMade | BadAnswer | TimeRanBackwards

  predicate AboveItsKind(existing: seq<Anchor>, seqNo: int, kind: Kind) {
    forall i | 0 <= i < |existing| :: existing[i].kind == kind ==> existing[i].seqNo < seqNo
  }

  predicate NotBeforeItsKind(existing: seq<Anchor>, a: Anchor) {
    forall i | 0 <= i < |existing| :: existing[i].kind == a.kind ==> existing[i].at <= a.at
  }

  /** In the order they were cached, anchors of one kind rise in seq and never go back in time. */
  predicate Ordered(cached: seq<Anchor>) {
    forall i, j | 0 <= i < j < |cached| && cached[i].kind == cached[j].kind ::
      cached[i].seqNo < cached[j].seqNo && cached[i].at <= cached[j].at
  }

  class AnchorCache {
    var cached: seq<Anchor>

    constructor ()
      ensures cached == []
    {
      cached := [];
    }

    /** `put_anchor`: a token already cached is not cached again. */
    method Put(a: Anchor)
      modifies this
      ensures cached == if a.token in TokensOf(old(cached)) then old(cached) else old(cached) + [a]
    {
      if a.token !in TokensOf(cached) { cached := cached + [a]; }
    }

    /** `make_anchor`: nothing is cached unless the provider answered, in order and forward in time. */
    method MakeAnchor(kind: Kind, at: Option<(int, string)>, head: Option<(int, string)>,
                      answer: (int, string, Kind) -> Answer)
      returns (r: Making)
      modifies this
      ensures Ordered(old(cached)) ==> Ordered(cached)
      ensures !r.Anchored? ==> cached == old(cached)
      ensures r.Anchored? ==>
        var pair := if at.Some? then at.value else if head.Some? then head.value else (0, "");
        && (at.Some? || head.Some?)
        && r.anchor.seqNo == pair.0 && r.anchor.hash == pair.1 && r.anchor.kind == kind
        && answer(pair.0, pair.1, kind) == Made(r.anchor.token, r.anchor.at) && r.anchor.token != []
        && cached == if r.anchor.token in TokensOf(old(cached)) then old(cached) else old(cached) + [r.anchor]
      ensures r.Anchored? <==>
        (&& (at.Some? || head.Some?)
         && var pair := if at.Some? then at.value else head.value;
            && AboveItsKind(old(cached), pair.0, kind)
            && answer(pair.0, pair.1, kind).Made? && answer(pair.0, pair.1, kind).token != []
            && NotBeforeItsKind(old(cached), Anchor(pair.0, pair.1, "", kind, answer(pair.0, pair.1, kind).at)))
    {
      if at.None? && head.None? { return NoHead; }
      var pair := if at.Some? then at.value else head.value;
      if !AboveItsKind(cached, pair.0, kind) { return OutOfOrder; }
      var made := answer(pair.0, pair.1, kind);
      if made.Raised? { return NotMade; }
      if made.Malformed? || made.token == [] { return BadAnswer; }
      var a := Anchor(pair.0, pair.1, made.token, kind, made.at);
      if !NotBeforeItsKind(cached, a) { return TimeRanBackwards; }
      Put(a);
      r := Anchored(a);
    }
  }
}
