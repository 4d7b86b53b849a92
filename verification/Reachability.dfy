/** Which worlds runs within given limits reach. */
module Reachability {
  import opened Uint64
  import opened Chain
  import opened BlockParser
  import opened ParserRuns
  import opened Linkage
  import opened Convergence
  import opened Confirmations

  /** How deep reorganisations reach, how far below `high` restarts may find the
      cursor, and whether chains include no transaction twice. */
  datatype Limits = Limits(depth: nat, lag: nat, once: bool)

  predicate Within(w: World, step: Step, limits: Limits) {
    && Legal(w, step, limits.depth)
    && (step.Restart? ==> w.high <= w.st.cur + limits.lag)
    && (limits.once ==> ValidChain(step))
  }

  predicate WithinRun(w: World, steps: seq<Step>, limits: Limits) {
    && LegalRun(w, steps, limits.depth)
    && LagRun(w, steps, limits.lag)
    && (limits.once ==> forall step :: step in steps ==> ValidChain(step))
  }

  ghost predicate Reaches(w: World, v: World, limits: Limits) {
    exists steps :: WithinRun(w, steps, limits) && Exec(w, steps) == v
  }

  lemma ReachesSelf(w: World, limits: Limits)
    ensures Reaches(w, w, limits)
  {
    assert WithinRun(w, [], limits) && Exec(w, []) == w;
  }

  lemma SomeRun(w: World, v: World, limits: Limits) returns (steps: seq<Step>)
    requires Reaches(w, v, limits)
    ensures LegalRun(w, steps, limits.depth) && LagRun(w, steps, limits.lag) && Exec(w, steps) == v
    ensures limits.once ==> forall step :: step in steps ==> ValidChain(step)
  {
    steps :| WithinRun(w, steps, limits) && Exec(w, steps) == v;
  }

  lemma {:induction false} LagAppend(w: World, a: seq<Step>, b: seq<Step>, lag: nat)
    ensures LagRun(w, a + b, lag) <==> LagRun(w, a, lag) && LagRun(Exec(w, a), b, lag)
    decreases |a|
  {
    hide Next;
    if a == [] {
      assert a + b == b;
    } else {
      assert (a + b)[0] == a[0] && (a + b)[1..] == a[1..] + b;
      LagAppend(Next(w, a[0]), a[1..], b, lag);
    }
  }

  lemma OneStep(w: World, step: Step, limits: Limits)
    requires Within(w, step, limits)
    ensures WithinRun(w, [step], limits) && Exec(w, [step]) == Next(w, step)
  {
    hide Next, Legal, ValidChain;
    assert [step][1..] == [];
    var v := Next(w, step);
    assert LegalRun(v, [], limits.depth) && LagRun(v, [], limits.lag) && Exec(v, []) == v;
  }

  /** A reached world and one more step. */
  lemma ReachesNext(w: World, v: World, step: Step, limits: Limits)
    requires Reaches(w, v, limits) && Within(v, step, limits)
    ensures Reaches(w, Next(v, step), limits)
  {
    hide Next, Legal, Within, ValidChain, LegalRun, LagRun, Exec;
    var steps :| WithinRun(w, steps, limits) && Exec(w, steps) == v;
    OneStep(v, step, limits);
    ExecAppend(w, steps, [step], limits.depth);
    LagAppend(w, steps, [step], limits.lag);
    assert WithinRun(w, steps + [step], limits) && Exec(w, steps + [step]) == Next(v, step);
  }

  /** The rounds of `Settle` are steps of a run, whatever its limits. */
  lemma {:induction false} SettleReaches(w: World, v: World, target: nat, n: nat, limits: Limits)
    requires Reaches(w, v, limits)
    ensures Reaches(w, Settle(v, target, n), limits)
    decreases n
  {
    hide Next, Reaches;
    if n > 0 {
      if v.st.cur < target {
        ReachesNext(w, v, QUIET, limits);
        SettleReaches(w, Next(v, QUIET), target, n - 1, limits);
      } else {
        SettleReaches(w, v, target, n - 1, limits);
      }
    }
  }
}
