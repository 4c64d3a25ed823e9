/**
  The executor-run register of `src/ctrlrun/effect.py`: what tells a classifier that some request
  byte has left a run. `Register.Valid` ties every flag to the history of sends exactly, and every
  operation keeps it, whatever runs are nested, closed or never closed, and in any order.
 */
module ExecutorRuns {
  class ExecutorRun {
    const outer: ExecutorRun?
    const resumed: bool
    ghost const depth: nat
    var offered: bool

    /** A resumed leg starts marked: its continuation exists only because the remote spoke. */
    constructor (outer: ExecutorRun?, resumed: bool)
      requires outer != null ==> Nested(outer)
      ensures this.outer == outer && this.resumed == resumed && offered == resumed && Nested(this)
    {
      this.outer, this.resumed, offered := outer, resumed, resumed;
      depth := if outer == null then 0 else outer.depth + 1;
    }

    /** `mark`: this run and every run that contains it. The loop ends because a run is opened inside older ones. */
    method Mark()
      requires Nested(this)
      modifies Enclosing(this)
      ensures forall run | run in Enclosing(this) :: run.offered
    {
      var run: ExecutorRun? := this;
      while run != null
        invariant run != null ==> Nested(run) && Enclosing(run) <= Enclosing(this)
        invariant forall r | r in Enclosing(this) :: r.offered || (run != null && r in Enclosing(run))
        decreases if run == null then 0 else run.depth + 1
      {
        run.offered := true;
        run := run.outer;
      }
    }
  }

  /** Runs are opened inside older runs, so the chain outwards is finite. */
  ghost predicate Nested(run: ExecutorRun)
    decreases run.depth
  {
    run.outer != null ==> run.outer.depth < run.depth && Nested(run.outer)
  }

  /** The run and every run that contains it. */
  ghost function Enclosing(run: ExecutorRun): set<ExecutorRun>
    requires Nested(run)
    decreases run.depth
  {
    {run} + if run.outer == null then {} else Enclosing(run.outer)
  }

  /** Being enclosed composes: what contains a container contains the run. */
  lemma {:induction false} EnclosingComposes(inner: ExecutorRun, middle: ExecutorRun)
    requires Nested(inner) && middle in Enclosing(inner)
    ensures Nested(middle) && Enclosing(middle) <= Enclosing(inner)
    decreases inner.depth
  {
    if inner != middle { EnclosingComposes(inner.outer, middle); }
  }

  /** A send made inside a run, or one made by code that belongs to none while these were open. */
  datatype Send = InRun(run: ExecutorRun) | InNone(open: set<ExecutorRun>)

  ghost predicate WellFormed(send: Send, runs: set<ExecutorRun>) {
    match send
    case InRun(run) => run in runs && Nested(run)
    case InNone(open) => open <= runs && forall run | run in open :: Nested(run)
  }

  /** The send is the run's own, a descendant's, or nobody's while it or a descendant was open. */
  ghost predicate Reaches(send: Send, runs: set<ExecutorRun>, run: ExecutorRun)
    requires WellFormed(send, runs)
  {
    match send
    case InRun(sender) => run in Enclosing(sender)
    case InNone(open) => exists r | r in open :: run in Enclosing(r)
  }

  class Register {
    var open: set<ExecutorRun>
    ghost var runs: set<ExecutorRun>
    ghost var sends: seq<Send>

    /** A run is marked exactly when it started resumed or some send so far reaches it. */
    ghost predicate Valid()
      reads this, runs
    {
      && open <= runs
      && (forall run | run in runs :: Nested(run) && Enclosing(run) <= runs)
      && (forall i | 0 <= i < |sends| :: WellFormed(sends[i], runs))
      && (forall run | run in runs ::
           run.offered <==> run.resumed || exists i | 0 <= i < |sends| :: Reaches(sends[i], runs, run))
    }

    constructor ()
      ensures Valid() && open == {} && runs == {} && sends == []
    {
      open, runs, sends := {}, {}, [];
    }

    method OpenRun(outer: ExecutorRun?, resumed: bool) returns (run: ExecutorRun)
      requires Valid() && (outer != null ==> outer in runs)
      modifies this
      ensures Valid() && fresh(run) && run.outer == outer && run.offered == resumed
      ensures runs == old(runs) + {run} && open == old(open) + {run} && sends == old(sends)
      ensures forall r | r in old(runs) :: r.offered == old(r.offered)
    {
      run := new ExecutorRun(outer, resumed);
      ghost var before := runs;
      runs := runs + {run};
      open := open + {run};
      forall i | 0 <= i < |sends|
        ensures WellFormed(sends[i], runs) && !Reaches(sends[i], runs, run)
        ensures forall r | r in before :: Reaches(sends[i], before, r) <==> Reaches(sends[i], runs, r)
      {
        assert WellFormed(sends[i], before);
      }
    }

    method CloseRun(run: ExecutorRun)
      requires Valid()
      modifies this`open
      ensures Valid() && open == old(open) - {run}
    {
      open := open - {run};
    }

    /** `_offered_somewhere`: a send that finds no register marks every open run. */
    method MarkEveryOpen()
      requires Valid()
      modifies runs
      ensures forall run | run in runs ::
        run.offered <==> old(run.offered) || exists r | r in open :: run in Enclosing(r)
    {
      var left := open;
      while left != {}
        invariant left <= open
        invariant forall run | run in runs ::
          run.offered <==> old(run.offered) || exists r | r in open - left :: run in Enclosing(r)
        decreases left
      {
        var run :| run in left;
        ghost var was := left;
        ghost var marked := set r | r in runs && r.offered;
        assert Enclosing(run) <= runs;
        run.Mark();
        left := left - {run};
        forall r | r in runs ensures r.offered <==> old(r.offered) || exists x | x in open - left :: r in Enclosing(x) {
          assert r.offered <==> r in marked || r in Enclosing(run);
          assert open - left == (open - was) + {run};
        }
      }
    }

    /** `_offered`: noted wherever it can be, before the byte is handed over. */
    method Offered(run: ExecutorRun?)
      requires Valid() && (run != null ==> run in runs)
      modifies this`sends, runs
      ensures Valid() && runs == old(runs)
      ensures sends == old(sends) + [if run == null then InNone(open) else InRun(run)]
    {
      ghost var send := if run == null then InNone(open) else InRun(run);
      ghost var before := set r | r in runs && r.offered;
      if run == null { MarkEveryOpen(); } else { run.Mark(); }
      sends := sends + [send];
      forall r | r in runs
        ensures r.offered <==> r.resumed || exists i | 0 <= i < |sends| :: Reaches(sends[i], runs, r)
      {
        assert r.offered <==> r in before || Reaches(send, runs, r);
        assert sends[|sends| - 1] == send;
        assert forall i | 0 <= i < |sends| - 1 :: sends[i] == old(sends)[i];
      }
    }
  }
}
