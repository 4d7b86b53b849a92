/** The sweep that turns pending rows whose transaction the node no longer knows into rejected ones. */
module Rejected {
  import opened Uint64
  import opened Wrappers
  import opened Chain
  import opened PendingTable
  import opened Dao

  const SEARCH_LIMIT: nat := 100

  /** The node's answer for a transaction.  A committed one has no block here when the
      block cannot be read or the statement that confirms the row fails. */
  datatype Answer =
    | QueryFails
    | Committed(block: Option<(uint64, uint64)>)
    | InPool
    | Proposed
    | Gone

  /** The table, the number of transactions that are gone, and whether no query failed. */
  datatype Progress = Progress(table: PendingTable, gone: nat, ok: bool)

  /** After k queries.  Before query i the other writers have executed env[i]. */
  function Queries(t: PendingTable, list: seq<nat>, answers: seq<Answer>, env: seq<seq<PendingOp>>, k: nat): Progress
    requires k <= |list| <= |answers| && |list| < |env|
  {
    if k == 0 then Progress(t, 0, true)
    else
      var p := Queries(t, list, answers, env, k - 1);
      if !p.ok then p
      else
        var now := ApplyAll(p.table, env[k - 1]);
        match answers[k - 1]
        case QueryFails => Progress(now, p.gone, false)
        case Committed(Some(block)) => Progress(Apply(now, ConfirmById(list[k - 1], block.0, block.1)), p.gone, true)
        case Gone => Progress(now, p.gone + 1, true)
        case _ => Progress(now, p.gone, true)
  }

  /** The table the final update meets. */
  function BeforeUpdate(t: PendingTable, list: seq<nat>, answers: seq<Answer>, env: seq<seq<PendingOp>>): PendingTable
    requires |list| <= |answers| && |list| < |env|
  {
    var p := Queries(t, list, answers, env, |list|);
    if p.ok && list != [] then ApplyAll(p.table, env[|list|]) else p.table
  }

  /** Does the round reach the rejecting update? */
  predicate Rejects(t: PendingTable, list: seq<nat>, answers: seq<Answer>, env: seq<seq<PendingOp>>)
    requires |list| <= |answers| && |list| < |env|
  {
    var p := Queries(t, list, answers, env, |list|);
    p.ok && 0 < p.gone == |list|
  }

  function Sweep(t: PendingTable, timestamp: int, list: seq<nat>, answers: seq<Answer>, env: seq<seq<PendingOp>>): PendingTable
    requires |list| <= |answers| && |list| < |env|
  {
    var now := BeforeUpdate(t, list, answers, env);
    if Rejects(t, list, answers, env) then Apply(now, RejectBefore(timestamp)) else now
  }

  /** The rows the round itself turns from pending to rejected. */
  function Turned(t: PendingTable, timestamp: int, list: seq<nat>, answers: seq<Answer>, env: seq<seq<PendingOp>>): set<nat>
    requires |list| <= |answers| && |list| < |env|
  {
    var before, after := BeforeUpdate(t, list, answers, env), Sweep(t, timestamp, list, answers, env);
    set id | id in before && id in after && before[id].status == Pending && after[id].status == Rejected
  }

  class TxTimer {
    const dbDao: DbDao

    constructor (dbDao: DbDao)
      ensures this.dbDao == dbDao
    {
      this.dbDao := dbDao;
    }

    /** Statements of the sender and the block parser that fall between two steps of the sweep. */
    method OtherWriters(ops: seq<PendingOp>)
      modifies dbDao`pending
      ensures dbDao.pending == ApplyAll(old(dbDao.pending), ops)
    {
      ghost var t := dbDao.pending;
      for i := 0 to |ops|
        invariant dbDao.pending == ApplyAll(t, ops[..i])
      {
        ApplyAllAppend(t, ops[..i], [ops[i]]);
        assert ops[..i + 1] == ops[..i] + [ops[i]];
        dbDao.pending := Apply(dbDao.pending, ops[i]);
      }
      assert ops[..|ops|] == ops;
    }

    /** `synced` tells whether the block database has caught up, `searchFails` and
        `updateFails` whether these statements return an error; `timestamp` is the
        time six minutes ago. */
    method CheckRejected(synced: bool, searchFails: bool, updateFails: bool, timestamp: int,
                         answers: seq<Answer>, env: seq<seq<PendingOp>>)
      returns (ok: bool, list: seq<nat>)
      requires |answers| >= SEARCH_LIMIT && |env| > SEARCH_LIMIT
      modifies dbDao`pending
      ensures SearchResult(old(dbDao.pending), timestamp, list) || (list == [] && (!synced || searchFails))
      ensures dbDao.pending == if updateFails then BeforeUpdate(old(dbDao.pending), list, answers, env)
                               else Sweep(old(dbDao.pending), timestamp, list, answers, env)
      ensures ok <==> synced && !searchFails && Queries(old(dbDao.pending), list, answers, env, |list|).ok
                      && !(updateFails && Rejects(old(dbDao.pending), list, answers, env))
    {
      if !synced || searchFails { return false, []; }
      list := dbDao.SearchMaybeRejectedPending(timestamp);
      if |list| == 0 { return true, list; }
      ghost var t := dbDao.pending;
      var rejectedNum := 0;
      for i := 0 to |list|
        invariant Queries(t, list, answers, env, i) == Progress(dbDao.pending, rejectedNum, true)
        invariant rejectedNum <= i
      {
        OtherWriters(env[i]);
        var answer := answers[i];
        if answer.QueryFails? {
          FailedQueryStays(t, list, answers, env, i + 1, |list|);
          return false, list;
        }
        if !answer.Committed? && !answer.InPool? && !answer.Proposed? {
          rejectedNum := rejectedNum + 1;
        }
        if answer.Committed? && answer.block.Some? {
          dbDao.UpdatePendingToConfirm(list[i], answer.block.value.0, answer.block.value.1);
        }
      }
      OtherWriters(env[|list|]);
      if rejectedNum > 0 && rejectedNum == |list| {
        if updateFails { return false, list; }
        dbDao.UpdatePendingToRejected(timestamp);
      }
      ok := true;
    }
  }

  lemma {:induction false} FailedQueryStays(t: PendingTable, list: seq<nat>, answers: seq<Answer>, env: seq<seq<PendingOp>>, k: nat, n: nat)
    requires k <= n <= |list| <= |answers| && |list| < |env| && !Queries(t, list, answers, env, k).ok
    ensures Queries(t, list, answers, env, n) == Queries(t, list, answers, env, k)
    decreases n
  {
    if k < n { FailedQueryStays(t, list, answers, env, k, n - 1); }
  }

  // ---------------------------------------------------------------- soundness

  function Matches(t: PendingTable, timestamp: int): set<nat> {
    set id | id in t && MaybeRejected(t[id], timestamp)
  }

  /** A statement of another writer during the round: what the writers pass, and
      rows sent now carry a time that is not before the sweep's bound. */
  predicate DuringRound(op: PendingOp, timestamp: int) {
    WellFormedOp(op) && (op.Create? ==> timestamp <= op.row.blockTimestamp)
  }

  predicate EnvDuringRound(env: seq<seq<PendingOp>>, timestamp: int) {
    forall ops, op :: ops in env && op in ops ==> DuringRound(op, timestamp)
  }

  predicate AnswersWellFormed(answers: seq<Answer>) {
    forall a :: a in answers && a.Committed? && a.block.Some? ==> a.block.value.0 > 0
  }

  lemma {:induction false} MatchesShrink(t: PendingTable, ops: seq<PendingOp>, timestamp: int)
    requires forall op :: op in ops ==> DuringRound(op, timestamp)
    ensures Matches(ApplyAll(t, ops), timestamp) <= Matches(t, timestamp)
    decreases |ops|
  {
    if ops != [] {
      assert DuringRound(ops[0], timestamp);
      MatchesShrink(Apply(t, ops[0]), ops[1..], timestamp);
    }
  }

  lemma {:induction false} QueriesShrinkMatches(t: PendingTable, timestamp: int, list: seq<nat>, answers: seq<Answer>, env: seq<seq<PendingOp>>, k: nat)
    requires k <= |list| <= |answers| && |list| < |env|
    requires EnvDuringRound(env, timestamp) && AnswersWellFormed(answers)
    ensures Matches(Queries(t, list, answers, env, k).table, timestamp) <= Matches(t, timestamp)
    decreases k
  {
    if k > 0 {
      QueriesShrinkMatches(t, timestamp, list, answers, env, k - 1);
      assert env[k - 1] in env && answers[k - 1] in answers;
      MatchesShrink(Queries(t, list, answers, env, k - 1).table, env[k - 1], timestamp);
    }
  }

  lemma {:induction false} GoneCount(t: PendingTable, list: seq<nat>, answers: seq<Answer>, env: seq<seq<PendingOp>>, k: nat)
    requires k <= |list| <= |answers| && |list| < |env|
    ensures var p := Queries(t, list, answers, env, k);
      p.gone <= k && (p.ok && p.gone == k ==> forall i :: 0 <= i < k ==> answers[i].Gone?)
    decreases k
  {
    if k > 0 { GoneCount(t, list, answers, env, k - 1); }
  }

  function Listed(list: seq<nat>): set<nat> {
    set id | id in list
  }

  lemma {:induction false} DistinctCount(list: seq<nat>)
    requires forall i, j :: 0 <= i < j < |list| ==> list[i] != list[j]
    ensures |Listed(list)| == |list|
    decreases |list|
  {
    if list == [] {
      assert Listed(list) == {};
    } else {
      var rest := list[..|list| - 1];
      DistinctCount(rest);
      assert Listed(list) == Listed(rest) + {list[|list| - 1]};
    }
  }

  lemma SubsetOfSameSize(a: set<nat>, b: set<nat>)
    requires a <= b && |b| <= |a|
    ensures a == b
  {
    assert |b - a| == |b| - |a|;
    assert b == a + (b - a);
  }

  lemma SubsetCount(a: set<nat>, b: set<nat>)
    requires a - b == {}
    ensures |a| <= |b|
  {
    assert |b - a| == |b| - |a|;
  }

  lemma FewMatchesAllListed(t: PendingTable, timestamp: int, list: seq<nat>)
    requires SearchResult(t, timestamp, list) && |Matches(t, timestamp)| <= SEARCH_LIMIT
    ensures forall id :: id in Matches(t, timestamp) ==> id in list
  {
    if |list| == SEARCH_LIMIT {
      DistinctCount(list);
      SubsetOfSameSize(Listed(list), Matches(t, timestamp));
    }
  }

  /** A round with an error or any answer other than "gone" rejects nothing; and if
      at most 100 rows match the search, every row the round turns rejected was
      queried in this round and found neither committed, nor pending, nor proposed,
      whatever the other writers do meanwhile. */
  lemma SweepIsSound(t: PendingTable, timestamp: int, list: seq<nat>, answers: seq<Answer>, env: seq<seq<PendingOp>>, id: nat)
    requires SearchResult(t, timestamp, list) && |list| <= |answers| && |list| < |env|
    requires EnvDuringRound(env, timestamp) && AnswersWellFormed(answers)
    requires id in Turned(t, timestamp, list, answers, env)
    ensures forall i :: 0 <= i < |list| ==> answers[i].Gone?
    ensures |Matches(t, timestamp)| <= SEARCH_LIMIT ==> exists i :: 0 <= i < |list| && list[i] == id && answers[i].Gone?
  {
    GoneCount(t, list, answers, env, |list|);
    QueriesShrinkMatches(t, timestamp, list, answers, env, |list|);
    var p := Queries(t, list, answers, env, |list|);
    assert env[|list|] in env;
    MatchesShrink(p.table, env[|list|], timestamp);
    hide Queries;
    assert id in Matches(BeforeUpdate(t, list, answers, env), timestamp);
    if |Matches(t, timestamp)| <= SEARCH_LIMIT {
      FewMatchesAllListed(t, timestamp, list);
      var i :| 0 <= i < |list| && list[i] == id;
    }
  }

  lemma {:induction false} QuietQueries(t: PendingTable, list: seq<nat>, k: nat)
    requires k <= |list|
    ensures Queries(t, list, seq(|list|, _ => Gone), seq(|list| + 1, _ => []), k) == Progress(t, k, true)
    decreases k
  {
    if k > 0 { QuietQueries(t, list, k - 1); }
  }

  /** The limit of the search is exactly what soundness needs: with more than 100
      matching rows, a round in which every listed transaction is gone also rejects
      a row it never asked about. */
  lemma LimitIsExact(t: PendingTable, timestamp: int, list: seq<nat>)
    requires SearchResult(t, timestamp, list)
    ensures (forall answers: seq<Answer>, env: seq<seq<PendingOp>> ::
               |list| <= |answers| && |list| < |env| && EnvDuringRound(env, timestamp) && AnswersWellFormed(answers) ==>
                 forall id :: id in Turned(t, timestamp, list, answers, env) ==> id in list)
       <==> |Matches(t, timestamp)| <= SEARCH_LIMIT
  {
    if |Matches(t, timestamp)| <= SEARCH_LIMIT {
      forall answers: seq<Answer>, env: seq<seq<PendingOp>>, id |
        |list| <= |answers| && |list| < |env| && EnvDuringRound(env, timestamp) && AnswersWellFormed(answers)
        && id in Turned(t, timestamp, list, answers, env)
        ensures id in list
      {
        SweepIsSound(t, timestamp, list, answers, env, id);
      }
    } else {
      var answers, env := seq(|list|, _ => Gone), seq(|list| + 1, _ => []);
      QuietQueries(t, list, |list|);
      DistinctCount(list);
      var unlisted := Matches(t, timestamp) - Listed(list);
      assert unlisted != {} by {
        if unlisted == {} { SubsetCount(Matches(t, timestamp), Listed(list)); }
      }
      var id :| id in unlisted;
      hide Queries;
      assert id in Turned(t, timestamp, list, answers, env);
    }
  }

  // ---------------------------------------------------------------- what a round achieves

  /** The statement confirms the row, whatever its status. */
  predicate ConfirmsRow(op: PendingOp, id: nat, row: PendingRow) {
    || (op.ConfirmById? && op.id == id)
    || (op.ConfirmByKey? && row.action == op.action && row.outpoint == op.outpoint)
  }

  /** Row `a` is still the row `b` for the same transaction, and confirmed. */
  predicate ConfirmedStill(a: PendingRow, b: PendingRow) {
    a.action == b.action && a.outpoint == b.outpoint && a.status == Confirm
  }

  /** A confirmed row stays confirmed, and unchanged unless confirmed again. */
  lemma {:induction false} ConfirmStays(t: PendingTable, ops: seq<PendingOp>, id: nat)
    requires id in t && t[id].status == Confirm
    ensures id in ApplyAll(t, ops) && ConfirmedStill(ApplyAll(t, ops)[id], t[id])
    ensures (forall op :: op in ops ==> !ConfirmsRow(op, id, t[id])) ==> ApplyAll(t, ops)[id] == t[id]
    decreases |ops|
  {
    if ops != [] {
      assert ops[0] in ops;
      var t' := Apply(t, ops[0]);
      assert ConfirmedStill(t'[id], t[id]) && (!ConfirmsRow(ops[0], id, t[id]) ==> t'[id] == t[id]);
      hide Apply, CanCreate;
      ConfirmStays(t', ops[1..], id);
    }
  }

  /** No statement of the others from env[from] on confirms the row. */
  predicate NotConfirmedByOthers(env: seq<seq<PendingOp>>, from: nat, id: nat, row: PendingRow) {
    forall k, op :: from <= k < |env| && op in env[k] ==> !ConfirmsRow(op, id, row)
  }

  lemma {:induction false} ConfirmStaysInQueries(t: PendingTable, list: seq<nat>, answers: seq<Answer>, env: seq<seq<PendingOp>>,
                                                 i: nat, k: nat, id: nat)
    requires i <= k <= |list| <= |answers| && |list| < |env| && forall j :: i <= j < |list| ==> list[j] != id
    requires var before := Queries(t, list, answers, env, i).table; id in before && before[id].status == Confirm
    ensures var before, after := Queries(t, list, answers, env, i).table, Queries(t, list, answers, env, k).table;
      && id in after && ConfirmedStill(after[id], before[id])
      && (NotConfirmedByOthers(env, i, id, before[id]) ==> after[id] == before[id])
    decreases k
  {
    if i < k {
      ConfirmStaysInQueries(t, list, answers, env, i, k - 1, id);
      var p := Queries(t, list, answers, env, k - 1);
      ConfirmStays(p.table, env[k - 1], id);
      hide ApplyAll;
    }
  }

  /** A committed transaction is confirmed: if the queries up to a listed row succeed
      and its answer names a block, the row is confirmed at the end of the round, and
      carries that block's number and time unless another writer confirms it later.
      This holds whatever the other answers are, whether or not a later query fails,
      and for a failed final update as well. */
  lemma CommittedIsConfirmed(t: PendingTable, timestamp: int, list: seq<nat>, answers: seq<Answer>, env: seq<seq<PendingOp>>,
                             i: nat, block: (uint64, uint64))
    requires SearchResult(t, timestamp, list) && |list| <= |answers| && |list| < |env|
    requires i < |list| && answers[i] == Committed(Some(block)) && Queries(t, list, answers, env, i + 1).ok
    ensures forall final: PendingTable ::
      final == Sweep(t, timestamp, list, answers, env) || final == BeforeUpdate(t, list, answers, env) ==>
        var id := list[i];
        && id in final && final[id].status == Confirm
        && final[id].action == t[id].action && final[id].outpoint == t[id].outpoint
        && (NotConfirmedByOthers(env, i + 1, id, t[id]) ==>
              final[id].blockNumber == block.0 && final[id].blockTimestamp == block.1)
  {
    var id := list[i];
    AnswerConfirms(t, list, answers, env, i, block);
    hide Queries, Apply, ApplyAll, NotConfirmedByOthers, ConfirmsRow;
    var confirmed := Queries(t, list, answers, env, i + 1).table;
    ConfirmedTillUpdate(t, list, answers, env, i + 1, id);
    SameNotConfirmed(env, i + 1, id, t[id], confirmed[id]);
    ConfirmedNotRejected(BeforeUpdate(t, list, answers, env), timestamp, id);
    hide BeforeUpdate, Rejects;
  }

  lemma SameNotConfirmed(env: seq<seq<PendingOp>>, from: nat, id: nat, a: PendingRow, b: PendingRow)
    requires a.action == b.action && a.outpoint == b.outpoint
    ensures NotConfirmedByOthers(env, from, id, a) <==> NotConfirmedByOthers(env, from, id, b)
  {
    forall op ensures ConfirmsRow(op, id, a) <==> ConfirmsRow(op, id, b) {}
    hide ConfirmsRow;
  }

  /** The row right after the query whose answer names its block. */
  lemma AnswerConfirms(t: PendingTable, list: seq<nat>, answers: seq<Answer>, env: seq<seq<PendingOp>>, i: nat, block: (uint64, uint64))
    requires i < |list| <= |answers| && |list| < |env| && list[i] in t
    requires answers[i] == Committed(Some(block)) && Queries(t, list, answers, env, i + 1).ok
    ensures var row, t' := t[list[i]], Queries(t, list, answers, env, i + 1).table;
      && list[i] in t' && ConfirmedStill(t'[list[i]], row)
      && t'[list[i]].blockNumber == block.0 && t'[list[i]].blockTimestamp == block.1
  {
    ListedStays(t, list, answers, env, i, list[i]);
    OthersKeepIdentity(Queries(t, list, answers, env, i).table, env[i], list[i]);
    hide ApplyAll;
  }

  /** From a query on to the table that the final update meets. */
  lemma ConfirmedTillUpdate(t: PendingTable, list: seq<nat>, answers: seq<Answer>, env: seq<seq<PendingOp>>, k: nat, id: nat)
    requires 0 < k <= |list| <= |answers| && |list| < |env| && forall j :: k <= j < |list| ==> list[j] != id
    requires var before := Queries(t, list, answers, env, k).table; id in before && before[id].status == Confirm
    ensures var before, after := Queries(t, list, answers, env, k).table, BeforeUpdate(t, list, answers, env);
      && id in after && ConfirmedStill(after[id], before[id])
      && (NotConfirmedByOthers(env, k, id, before[id]) ==> after[id] == before[id])
  {
    ConfirmStaysInQueries(t, list, answers, env, k, |list|, id);
    var p := Queries(t, list, answers, env, |list|);
    ConfirmStays(p.table, env[|list|], id);
    hide Queries, ApplyAll, ConfirmsRow;
  }

  lemma ConfirmedNotRejected(t: PendingTable, timestamp: int, id: nat)
    requires id in t && t[id].status == Confirm
    ensures id in Apply(t, RejectBefore(timestamp)) && Apply(t, RejectBefore(timestamp))[id] == t[id]
  {
  }

  lemma {:induction false} OthersKeepIdentity(t: PendingTable, ops: seq<PendingOp>, id: nat)
    requires id in t
    ensures id in ApplyAll(t, ops) && ApplyAll(t, ops)[id].action == t[id].action && ApplyAll(t, ops)[id].outpoint == t[id].outpoint
    decreases |ops|
  {
    if ops != [] {
      assert id in Apply(t, ops[0]) && Apply(t, ops[0])[id].action == t[id].action && Apply(t, ops[0])[id].outpoint == t[id].outpoint;
      hide Apply;
      OthersKeepIdentity(Apply(t, ops[0]), ops[1..], id);
    }
  }

  lemma {:induction false} ListedStays(t: PendingTable, list: seq<nat>, answers: seq<Answer>, env: seq<seq<PendingOp>>, k: nat, id: nat)
    requires k <= |list| <= |answers| && |list| < |env| && id in t
    ensures var t' := Queries(t, list, answers, env, k).table;
      id in t' && t'[id].action == t[id].action && t'[id].outpoint == t[id].outpoint
    decreases k
  {
    if k > 0 {
      ListedStays(t, list, answers, env, k - 1, id);
      OthersKeepIdentity(Queries(t, list, answers, env, k - 1).table, env[k - 1], id);
      hide ApplyAll;
    }
  }

  /** The final update runs exactly when rows were listed and all of them are gone;
      then every row that matches at that point becomes rejected and no other row
      changes.  Otherwise the round ends with the table as the queries left it. */
  lemma RejectsExactlyWhenAllGone(t: PendingTable, timestamp: int, list: seq<nat>, answers: seq<Answer>, env: seq<seq<PendingOp>>)
    requires |list| <= |answers| && |list| < |env|
    ensures var before, after := BeforeUpdate(t, list, answers, env), Sweep(t, timestamp, list, answers, env);
      var allGone := list != [] && forall i :: 0 <= i < |list| ==> answers[i].Gone?;
      && (!allGone ==> after == before)
      && (allGone ==>
            && after.Keys == before.Keys
            && (forall id :: id in before ==>
                  if before[id].blockNumber == 0 && before[id].status == Pending && before[id].blockTimestamp < timestamp
                  then after[id] == before[id].(status := Rejected)
                  else after[id] == before[id]))
  {
    GoneCount(t, list, answers, env, |list|);
    if forall i :: 0 <= i < |list| ==> answers[i].Gone? { AllGoneCount(t, list, answers, env, |list|); }
    hide Queries;
  }

  lemma {:induction false} AllGoneCount(t: PendingTable, list: seq<nat>, answers: seq<Answer>, env: seq<seq<PendingOp>>, k: nat)
    requires k <= |list| <= |answers| && |list| < |env| && forall i :: 0 <= i < |list| ==> answers[i].Gone?
    ensures Queries(t, list, answers, env, k).ok && Queries(t, list, answers, env, k).gone == k
    decreases k
  {
    if k > 0 { AllGoneCount(t, list, answers, env, k - 1); }
  }

  /** The first query that fails ends the round with an error: the rows listed after it
      are not asked about, and nothing is rejected. */
  lemma FailedQueryEndsRound(t: PendingTable, timestamp: int, list: seq<nat>, answers: seq<Answer>, env: seq<seq<PendingOp>>, k: nat)
    requires k < |list| <= |answers| && |list| < |env|
    requires answers[k].QueryFails? && forall i :: 0 <= i < k ==> !answers[i].QueryFails?
    ensures !Queries(t, list, answers, env, |list|).ok
    ensures Sweep(t, timestamp, list, answers, env) == BeforeUpdate(t, list, answers, env)
         == ApplyAll(Queries(t, list, answers, env, k).table, env[k])
  {
    NoFailureSoFar(t, list, answers, env, k);
    FailedQueryStays(t, list, answers, env, k + 1, |list|);
  }

  lemma {:induction false} NoFailureSoFar(t: PendingTable, list: seq<nat>, answers: seq<Answer>, env: seq<seq<PendingOp>>, k: nat)
    requires k <= |list| <= |answers| && |list| < |env| && forall i :: 0 <= i < k ==> !answers[i].QueryFails?
    ensures Queries(t, list, answers, env, k).ok
    decreases k
  {
    if k > 0 { NoFailureSoFar(t, list, answers, env, k - 1); }
  }

  /** The statement does nothing to the row. */
  predicate LeavesRow(op: PendingOp, id: nat, row: PendingRow) {
    !ConfirmsRow(op, id, row) && !(op.RejectBefore? && MaybeRejected(row, op.timestamp))
  }

  /** The others leave the row alone during the round. */
  predicate LeftAlone(env: seq<seq<PendingOp>>, id: nat, row: PendingRow) {
    forall k, op :: 0 <= k < |env| && op in env[k] ==> LeavesRow(op, id, row)
  }

  lemma {:induction false} RowLeftAlone(t: PendingTable, ops: seq<PendingOp>, id: nat)
    requires id in t && forall op :: op in ops ==> LeavesRow(op, id, t[id])
    ensures id in ApplyAll(t, ops) && ApplyAll(t, ops)[id] == t[id]
    decreases |ops|
  {
    if ops != [] {
      assert ops[0] in ops;
      assert id in Apply(t, ops[0]) && Apply(t, ops[0])[id] == t[id];
      hide Apply, LeavesRow;
      RowLeftAlone(Apply(t, ops[0]), ops[1..], id);
    }
  }

  lemma StillLeftAlone(ops: seq<PendingOp>, id: nat, row: PendingRow, now: PendingRow)
    requires forall op :: op in ops ==> LeavesRow(op, id, row)
    requires now == row || ConfirmedStill(now, row)
    ensures forall op :: op in ops ==> LeavesRow(op, id, now)
  {
  }

  /** The row is listed at i and its transaction is committed in a known block. */
  predicate CommittedAt(list: seq<nat>, answers: seq<Answer>, i: int, id: nat) {
    0 <= i < |list| && i < |answers| && list[i] == id && answers[i].Committed? && answers[i].block.Some?
  }

  function WithBlock(row: PendingRow, block: (uint64, uint64)): PendingRow {
    row.(blockNumber := block.0, blockTimestamp := block.1, status := Confirm)
  }

  /** What one successful query does to a row that the others have just left alone. */
  lemma OneQuery(t: PendingTable, list: seq<nat>, answers: seq<Answer>, env: seq<seq<PendingOp>>, k: nat, id: nat)
    requires k < |list| <= |answers| && |list| < |env| && !answers[k].QueryFails?
    requires var p := Queries(t, list, answers, env, k);
      p.ok && id in p.table && id in ApplyAll(p.table, env[k]) && ApplyAll(p.table, env[k])[id] == p.table[id]
    ensures var p, q := Queries(t, list, answers, env, k), Queries(t, list, answers, env, k + 1);
      && q.ok && id in q.table
      && (CommittedAt(list, answers, k, id) ==>
            q.table[id] == WithBlock(p.table[id], answers[k].block.value) && ConfirmedStill(q.table[id], p.table[id]))
      && (!CommittedAt(list, answers, k, id) ==> q.table[id] == p.table[id])
  {
    hide ApplyAll, CanCreate, HasKey, MaybeRejected;
  }

  /** Among the first k + 1 listed rows it is the last or one before, but not both. */
  lemma SeenSoFar(list: seq<nat>, answers: seq<Answer>, k: nat, id: nat)
    requires k < |list| && forall i, j :: 0 <= i < j < |list| ==> list[i] != list[j]
    ensures forall i :: i < k + 1 && CommittedAt(list, answers, i, id) ==> i == k || (i < k && !CommittedAt(list, answers, k, id))
  {
  }

  lemma {:induction false} RowInQueries(t: PendingTable, list: seq<nat>, answers: seq<Answer>, env: seq<seq<PendingOp>>, k: nat, id: nat)
    requires k <= |list| <= |answers| && |list| < |env| && forall i, j :: 0 <= i < j < |list| ==> list[i] != list[j]
    requires id in t && LeftAlone(env, id, t[id]) && forall i :: 0 <= i < |list| ==> !answers[i].QueryFails?
    ensures var p := Queries(t, list, answers, env, k);
      && p.ok && id in p.table && (p.table[id] == t[id] || ConfirmedStill(p.table[id], t[id]))
      && (forall i :: i < k && CommittedAt(list, answers, i, id) ==> p.table[id] == WithBlock(t[id], answers[i].block.value))
      && ((forall i :: i < k ==> !CommittedAt(list, answers, i, id)) ==> p.table[id] == t[id])
    decreases k
  {
    if k > 0 {
      RowInQueries(t, list, answers, env, k - 1, id);
      var p := Queries(t, list, answers, env, k - 1);
      StillLeftAlone(env[k - 1], id, t[id], p.table[id]);
      RowLeftAlone(p.table, env[k - 1], id);
      OneQuery(t, list, answers, env, k - 1, id);
      hide *;
      SeenSoFar(list, answers, k - 1, id);
    }
  }

  /** What becomes of a row that the others leave alone, in a round without errors: a
      listed row is confirmed if its transaction is committed in a known block; every
      row is rejected if all the listed ones are gone and it is pending and too old;
      and otherwise it does not change. */
  lemma RowAfterRound(t: PendingTable, timestamp: int, list: seq<nat>, answers: seq<Answer>, env: seq<seq<PendingOp>>, id: nat)
    requires SearchResult(t, timestamp, list) && |list| <= |answers| && |list| < |env|
    requires id in t && LeftAlone(env, id, t[id]) && forall i :: 0 <= i < |list| ==> !answers[i].QueryFails?
    ensures id in Sweep(t, timestamp, list, answers, env)
    ensures var row := Sweep(t, timestamp, list, answers, env)[id];
      var allGone := list != [] && forall i :: 0 <= i < |list| ==> answers[i].Gone?;
      && (forall i :: CommittedAt(list, answers, i, id) ==>
            && row.status == Confirm
            && row.blockNumber == answers[i].block.value.0 && row.blockTimestamp == answers[i].block.value.1)
      && ((forall i :: !CommittedAt(list, answers, i, id)) ==>
            if allGone && t[id].blockNumber == 0 && t[id].status == Pending && t[id].blockTimestamp < timestamp
            then row == t[id].(status := Rejected)
            else row == t[id])
  {
    RowInQueries(t, list, answers, env, |list|, id);
    var p := Queries(t, list, answers, env, |list|);
    assert forall i :: CommittedAt(list, answers, i, id) ==> i < |list|;
    StillLeftAlone(env[|list|], id, t[id], p.table[id]);
    RowLeftAlone(p.table, env[|list|], id);
    RejectsExactlyWhenAllGone(t, timestamp, list, answers, env);
    hide Queries, ApplyAll, Apply, SearchResult, LeftAlone, LeavesRow, Sweep;
  }

  // ---------------------------------------------------------------- status

  predicate EnvWellFormed(env: seq<seq<PendingOp>>) {
    forall ops, op :: ops in env && op in ops ==> WellFormedOp(op)
  }

  /** Ids stay, their rows only move up, and the table stays consistent. */
  predicate MovesUp(t: PendingTable, t': PendingTable) {
    Consistent(t') && forall id :: id in t ==> id in t' && Advanced(t[id], t'[id])
  }

  lemma MovesUpTwice(a: PendingTable, b: PendingTable, c: PendingTable)
    requires MovesUp(a, b) && MovesUp(b, c)
    ensures MovesUp(a, c)
  {
    hide Consistent;
  }

  lemma OpMovesUp(t: PendingTable, op: PendingOp)
    requires Consistent(t) && WellFormedOp(op)
    ensures MovesUp(t, Apply(t, op))
  {
    ApplyKeepsConsistent(t, op);
  }

  lemma OpsMoveUp(t: PendingTable, ops: seq<PendingOp>)
    requires Consistent(t) && forall op :: op in ops ==> WellFormedOp(op)
    ensures MovesUp(t, ApplyAll(t, ops))
  {
    ConsistentAfter(t, ops);
    forall id | id in t ensures id in ApplyAll(t, ops) && Advanced(t[id], ApplyAll(t, ops)[id]) {
      StatusOnlyMovesUp(t, ops, id);
    }
  }

  lemma {:induction false} QueriesMoveUp(t: PendingTable, list: seq<nat>, answers: seq<Answer>, env: seq<seq<PendingOp>>, k: nat)
    requires k <= |list| <= |answers| && |list| < |env|
    requires Consistent(t) && EnvWellFormed(env) && AnswersWellFormed(answers)
    ensures MovesUp(t, Queries(t, list, answers, env, k).table)
    decreases k
  {
    if k > 0 {
      QueriesMoveUp(t, list, answers, env, k - 1);
      var p, answer := Queries(t, list, answers, env, k - 1), answers[k - 1];
      assert env[k - 1] in env && answer in answers;
      OpsMoveUp(p.table, env[k - 1]);
      var now := ApplyAll(p.table, env[k - 1]);
      MovesUpTwice(t, p.table, now);
      if answer.Committed? && answer.block.Some? {
        var op := ConfirmById(list[k - 1], answer.block.value.0, answer.block.value.1);
        OpMovesUp(now, op);
        MovesUpTwice(t, now, Apply(now, op));
      }
      hide Consistent, Apply, ApplyAll, MovesUp;
    }
  }

  /** A whole round of the sweep, acting on a list that may have gone stale under
      the statements of the other writers, moves every row's status only up. */
  lemma SweepMovesUp(t: PendingTable, timestamp: int, list: seq<nat>, answers: seq<Answer>, env: seq<seq<PendingOp>>)
    requires |list| <= |answers| && |list| < |env|
    requires Consistent(t) && EnvWellFormed(env) && AnswersWellFormed(answers)
    ensures MovesUp(t, Sweep(t, timestamp, list, answers, env))
  {
    QueriesMoveUp(t, list, answers, env, |list|);
    var p := Queries(t, list, answers, env, |list|);
    assert env[|list|] in env;
    OpsMoveUp(p.table, env[|list|]);
    var now := BeforeUpdate(t, list, answers, env);
    OpMovesUp(now, RejectBefore(timestamp));
    hide Consistent, Apply, ApplyAll, Queries;
  }
}
