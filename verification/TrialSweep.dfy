/**
 Organizations on trial, the policy that decides whether they may work, and the job
 that suspends the expired ones, at most a batch at a time, oldest first.
 */
module TrialSweep {
  import opened Wrappers

  datatype Status = Trialing | Active | PastDue | Suspended | Canceled

  datatype Row = Row(status: Status, trialStartsAt: int, trialEndsAt: int)

  const TRIAL_DURATION := 14 * 24 * 3600
  const BATCH_SIZE: nat := 500

  // ---- the entity ----

  function Allowed(from: Status): seq<Status> {
    match from
    case Trialing => [Active, Suspended]
    case Suspended => [Active]
    case Active => [PastDue, Canceled, Suspended]
    case PastDue => [Active, Canceled]
    case Canceled => []
  }

  class Organization {
    var trialStartsAt: int
    var trialEndsAt: int
    var status: Status

    constructor (row: Row)
      ensures Row(status, trialStartsAt, trialEndsAt) == row
    {
      status, trialStartsAt, trialEndsAt := row.status, row.trialStartsAt, row.trialEndsAt;
    }

    function AsRow(): Row
      reads this
    {
      Row(status, trialStartsAt, trialEndsAt)
    }

    /** The trial lets the organization work for fourteen days from now; the sweep passes it over until after that. */
    method StartTrial(now: int)
      modifies this
      ensures status == Trialing && trialStartsAt == now && trialEndsAt == now + TRIAL_DURATION
      ensures forall t :: CanPerformBusinessOperations(AsRow(), t) <==> t < now + 14 * 24 * 3600
      ensures forall t :: IsDue(AsRow(), t) <==> now + 14 * 24 * 3600 < t
    {
      trialStartsAt, trialEndsAt, status := now, now + TRIAL_DURATION, Trialing;
    }

    method TransitionTo(target: Status) returns (ok: bool)
      modifies this`status
      ensures ok <==> target in Allowed(old(status))
      ensures status == if ok then target else old(status)
      ensures ok ==> forall t :: CanPerformBusinessOperations(AsRow(), t) <==> target == Active
    {
      var allowed := Allowed(status);
      for i := 0 to |allowed|
        invariant status == old(status) && target !in allowed[..i]
      {
        if allowed[i] == target {
          assert target != Trialing;
          status := target;
          return true;
        }
      }
      assert allowed == allowed[..|allowed|];
      return false;
    }
  }

  // ---- the policy ----

  predicate CanPerformBusinessOperations(o: Row, now: int) {
    match o.status
    case Active => true
    case Trialing => now < o.trialEndsAt
    case _ => false
  }

  predicate IsTrialExpired(o: Row, now: int) {
    o.status == Trialing && now >= o.trialEndsAt
  }

  // ---- the selection ----

  /** The query compares strictly, one instant later than the policy. */
  predicate IsDue(o: Row, now: int) {
    o.status == Trialing && o.trialEndsAt < now
  }

  function Due(rows: seq<Row>, now: int): set<nat> {
    set id: nat | id < |rows| && IsDue(rows[id], now)
  }

  function Ids(batch: seq<nat>): set<nat> {
    set i | 0 <= i < |batch| :: batch[i]
  }

  /** Up to `limit` different ids of the pool, oldest trial end first and none passed over for a later one. */
  ghost predicate IsPick(rows: seq<Row>, pool: set<nat>, limit: nat, picked: seq<nat>)
    requires forall id <- pool :: id < |rows|
  {
    && |picked| <= limit && (forall i :: 0 <= i < |picked| ==> picked[i] in pool)
    && (forall i, j :: 0 <= i < j < |picked| ==>
          picked[i] != picked[j] && rows[picked[i]].trialEndsAt <= rows[picked[j]].trialEndsAt)
    && (|picked| < limit ==> Ids(picked) == pool)
    && (forall id, i :: id in pool - Ids(picked) && 0 <= i < |picked| ==>
          rows[picked[i]].trialEndsAt <= rows[id].trialEndsAt)
  }

  /** What ORDER BY trial_ends_at LIMIT may answer; rows with equal ends come in any order. */
  ghost predicate IsBatch(rows: seq<Row>, now: int, limit: nat, batch: seq<nat>) {
    IsPick(rows, Due(rows, now), limit, batch)
  }

  // ---- the sweep ----

  function SuspendAll(rows: seq<Row>, ids: set<nat>): seq<Row> {
    seq(|rows|, id requires 0 <= id < |rows| => if id in ids then rows[id].(status := Suspended) else rows[id])
  }

  class Sweeper {
    var rows: seq<Row>

    constructor (rows: seq<Row>)
      ensures this.rows == rows
    {
      this.rows := rows;
    }

    /** A sign-up stores its organization on trial. */
    method Register(now: int)
      modifies this
      ensures rows == old(rows) + [Row(Trialing, now, now + TRIAL_DURATION)]
    {
      var organization := new Organization(Row(Trialing, 0, 0));
      organization.StartTrial(now);
      rows := rows + [organization.AsRow()];
    }

    /** The update fails for the ids in `failing`, and for an id that is no row. */
    method UpdateSubscriptionStatus(id: nat, status: Status, failing: set<nat>) returns (ok: bool)
      modifies this
      ensures ok <==> id < |old(rows)| && id !in failing
      ensures rows == if ok then old(rows)[id := old(rows)[id].(status := status)] else old(rows)
    {
      if id >= |rows| || id in failing {
        return false;
      }
      rows := rows[id := rows[id].(status := status)];
      return true;
    }

    /** Works on the entity read by the scan, then writes its status back. */
    method Suspend(id: nat, failing: set<nat>) returns (ok: bool)
      requires id < |rows|
      modifies this
      ensures ok <==> Suspended in Allowed(old(rows)[id].status) && id !in failing
      ensures rows == if ok then old(rows)[id := old(rows)[id].(status := Suspended)] else old(rows)
    {
      var organization := new Organization(rows[id]);
      ok := organization.TransitionTo(Suspended);
      if ok {
        ok := UpdateSubscriptionStatus(id, organization.status, failing);
      }
    }

    /** `batch` is the database's answer to the scan at `now`. */
    method Execute(now: int, batch: seq<nat>, failing: set<nat>) returns (suspended: nat, failed: nat)
      requires IsBatch(rows, now, BATCH_SIZE, batch)
      modifies this
      ensures |batch| == suspended + failed
      ensures failed == |Ids(batch) * failing|
      ensures rows == SuspendAll(old(rows), Ids(batch) - failing)
    {
      suspended, failed := 0, 0;
      ghost var before := rows;
      NothingYet(before, now, batch, failing);
      for i := 0 to |batch|
        invariant suspended + failed == i
        invariant Progress(before, batch, i, failing, rows, failed)
      {
        OneMore(before, now, batch, i, failing, rows, failed);
        var ok := Suspend(batch[i], failing);
        if ok {
          suspended := suspended + 1;
        } else {
          failed := failed + 1;
        }
      }
      AllDone(before, batch, failing, rows, failed);
    }
  }

  /** The state of a sweep that has been through the first i entries of its batch. */
  ghost predicate Progress(before: seq<Row>, batch: seq<nat>, i: nat, failing: set<nat>, rows: seq<Row>, failed: nat) {
    i <= |batch| && failed == |Ids(batch[..i]) * failing| && rows == SuspendAll(before, Ids(batch[..i]) - failing)
  }

  lemma NothingYet(rows: seq<Row>, now: int, batch: seq<nat>, failing: set<nat>)
    requires IsBatch(rows, now, BATCH_SIZE, batch)
    ensures Progress(rows, batch, 0, failing, rows, 0)
  {
    assert Ids(batch[..0]) == {};
    assert Ids(batch[..0]) * failing == {} == Ids(batch[..0]) - failing;
  }

  lemma AllDone(before: seq<Row>, batch: seq<nat>, failing: set<nat>, rows: seq<Row>, failed: nat)
    requires Progress(before, batch, |batch|, failing, rows, failed)
    ensures failed == |Ids(batch) * failing| && rows == SuspendAll(before, Ids(batch) - failing)
  {
    assert batch[..|batch|] == batch;
  }

  lemma OneMore(before: seq<Row>, now: int, batch: seq<nat>, i: nat, failing: set<nat>, rows: seq<Row>, failed: nat)
    requires IsBatch(before, now, BATCH_SIZE, batch) && i < |batch| && Progress(before, batch, i, failing, rows, failed)
    ensures batch[i] < |rows| && Suspended in Allowed(rows[batch[i]].status)
    ensures batch[i] in failing ==> Progress(before, batch, i + 1, failing, rows, failed + 1)
    ensures batch[i] !in failing ==>
              Progress(before, batch, i + 1, failing, rows[batch[i] := rows[batch[i]].(status := Suspended)], failed)
  {
    OneMoreId(before, batch, i, failing);
    assert Allowed(Trialing)[1] == Suspended;
  }

  lemma OneMoreId(rows: seq<Row>, batch: seq<nat>, i: nat, failing: set<nat>)
    requires i < |batch| && batch[i] < |rows| && forall j :: 0 <= j < i ==> batch[j] != batch[i]
    ensures Ids(batch[..i + 1]) == Ids(batch[..i]) + {batch[i]} && batch[i] !in Ids(batch[..i])
    ensures batch[i] in failing ==> |Ids(batch[..i + 1]) * failing| == |Ids(batch[..i]) * failing| + 1
    ensures batch[i] !in failing ==> Ids(batch[..i + 1]) * failing == Ids(batch[..i]) * failing
    ensures SuspendAll(rows, Ids(batch[..i + 1]) - failing) ==
            var done := SuspendAll(rows, Ids(batch[..i]) - failing);
            if batch[i] in failing then done else done[batch[i] := rows[batch[i]].(status := Suspended)]
    ensures SuspendAll(rows, Ids(batch[..i]) - failing)[batch[i]] == rows[batch[i]]
  {
    var before, after := Ids(batch[..i]), Ids(batch[..i + 1]);
    forall id
      ensures id in after <==> id in before || id == batch[i]
    {
      if id in before {
        var j :| 0 <= j < i && batch[..i][j] == id;
        assert batch[..i + 1][j] == id;
      }
      if id == batch[i] {
        assert batch[..i + 1][i] == id;
      }
      if id in after {
        var j :| 0 <= j < i + 1 && batch[..i + 1][j] == id;
        assert j < i ==> batch[..i][j] == id;
      }
    }
    if batch[i] in failing {
      assert after * failing == before * failing + {batch[i]};
    } else {
      assert after * failing == before * failing;
    }
  }

  // ---- what the sweep means ----

  /** The due rows of the batch that do not fail become suspended; nothing else of any row changes. */
  lemma SweepWrites(rows: seq<Row>, now: int, batch: seq<nat>, failing: set<nat>, id: nat)
    requires IsBatch(rows, now, BATCH_SIZE, batch) && id < |rows|
    ensures var after := SuspendAll(rows, Ids(batch) - failing);
            && |after| == |rows|
            && (after[id] == rows[id] || after[id] == Row(Suspended, rows[id].trialStartsAt, rows[id].trialEndsAt))
            && (after[id] != rows[id] <==> id !in failing && exists i :: 0 <= i < |batch| && batch[i] == id)
            && (after[id] != rows[id] ==> rows[id].status == Trialing && rows[id].trialEndsAt < now)
  {
  }

  /** Whatever fails, the sweep changes no answer of the policy, at its own clock or later. */
  lemma SweepIsInvisible(rows: seq<Row>, now: int, batch: seq<nat>, failing: set<nat>, id: nat, later: int)
    requires IsBatch(rows, now, BATCH_SIZE, batch) && id < |rows| && now <= later
    ensures CanPerformBusinessOperations(SuspendAll(rows, Ids(batch) - failing)[id], later)
            == CanPerformBusinessOperations(rows[id], later)
  {
  }

  /** The sweep passes over an expired trial only in the one instant at which it ends. */
  lemma DueUnlessEndingNow(o: Row, now: int)
    ensures IsTrialExpired(o, now) && !IsDue(o, now) <==> o.status == Trialing && o.trialEndsAt == now
    ensures IsDue(o, now) ==> IsTrialExpired(o, now) && !CanPerformBusinessOperations(o, now)
  {
  }

  lemma {:induction false} DistinctIds(batch: seq<nat>)
    requires forall i, j :: 0 <= i < j < |batch| ==> batch[i] != batch[j]
    ensures |Ids(batch)| == |batch|
  {
    if batch != [] {
      var n := |batch| - 1;
      DistinctIds(batch[..n]);
      assert Ids(batch) == Ids(batch[..n]) + {batch[n]};
    }
  }

  lemma BatchSize(rows: seq<Row>, now: int, limit: nat, batch: seq<nat>)
    requires IsBatch(rows, now, limit, batch)
    ensures |batch| == if |Due(rows, now)| < limit then |Due(rows, now)| else limit
  {
    DistinctIds(batch);
    SubsetSize(Ids(batch), Due(rows, now));
  }

  lemma SubsetSize(a: set<nat>, b: set<nat>)
    requires a <= b
    ensures |b - a| == |b| - |a|
  {
    assert (b - a) + a == b;
  }

  ghost predicate CleanSweep(before: seq<Row>, after: seq<Row>, now: int) {
    exists batch :: IsBatch(before, now, BATCH_SIZE, batch) && after == SuspendAll(before, Ids(batch))
  }

  lemma SweepShrinksBacklog(before: seq<Row>, after: seq<Row>, now: int)
    requires CleanSweep(before, after, now)
    ensures |Due(after, now)| == if |Due(before, now)| < BATCH_SIZE then 0 else |Due(before, now)| - BATCH_SIZE
  {
    var batch :| IsBatch(before, now, BATCH_SIZE, batch) && after == SuspendAll(before, Ids(batch));
    assert Due(after, now) == Due(before, now) - Ids(batch);
    DistinctIds(batch);
    BatchSize(before, now, BATCH_SIZE, batch);
    SubsetSize(Ids(batch), Due(before, now));
  }

  ghost predicate CleanSweeps(states: seq<seq<Row>>, now: int) {
    states != [] && forall n :: 0 <= n < |states| - 1 ==> CleanSweep(states[n], states[n + 1], now)
  }

  lemma {:induction false} BacklogAfter(states: seq<seq<Row>>, now: int, n: nat)
    requires CleanSweeps(states, now) && n < |states|
    ensures var k := |Due(states[0], now)|;
            |Due(states[n], now)| == if k < BATCH_SIZE * n then 0 else k - BATCH_SIZE * n
  {
    if n > 0 {
      BacklogAfter(states, now, n - 1);
      SweepShrinksBacklog(states[n - 1], states[n], now);
      assert BATCH_SIZE * n == BATCH_SIZE * (n - 1) + BATCH_SIZE;
    }
  }

  /** Failure-free sweeps at one clock empty a backlog of k after ceil(k / 500) runs and not before. */
  lemma BacklogEmptiesInBatches(states: seq<seq<Row>>, now: int, n: nat)
    requires CleanSweeps(states, now) && n < |states|
    ensures Due(states[n], now) == {} <==> n >= (|Due(states[0], now)| + 499) / 500
  {
    BacklogAfter(states, now, n);
    assert Due(states[n], now) == {} <==> |Due(states[n], now)| == 0;
  }

  // ---- the query has an answer ----

  lemma Oldest(rows: seq<Row>, ids: set<nat>) returns (oldest: nat)
    requires ids != {} && forall id :: id in ids ==> id < |rows|
    ensures oldest in ids && forall id :: id in ids ==> rows[oldest].trialEndsAt <= rows[id].trialEndsAt
  {
    oldest :| oldest in ids;
    if ids != {oldest} {
      var other := Oldest(rows, ids - {oldest});
      if rows[other].trialEndsAt < rows[oldest].trialEndsAt {
        oldest := other;
      }
    }
  }

  lemma {:induction false} PickExists(rows: seq<Row>, pool: set<nat>, limit: nat) returns (picked: seq<nat>)
    requires forall id <- pool :: id < |rows|
    ensures IsPick(rows, pool, limit, picked)
  {
    picked := [];
    if limit > 0 {
      var shorter := PickExists(rows, pool, limit - 1);
      picked := shorter;
      var rest := pool - Ids(shorter);
      if rest == {} {
        forall id
          ensures id in Ids(shorter) <==> id in pool
        {
          assert id !in rest;
        }
      } else {
        var next := Oldest(rows, rest);
        picked := shorter + [next];
        assert picked[|shorter|] == next && forall i :: 0 <= i < |shorter| ==> picked[i] == shorter[i];
        forall i | 0 <= i < |shorter|
          ensures shorter[i] in Ids(shorter)
        {
        }
        assert Ids(picked) == Ids(shorter) + {next};
      }
    }
  }

  lemma BatchExists(rows: seq<Row>, now: int, limit: nat) returns (batch: seq<nat>)
    ensures IsBatch(rows, now, limit, batch)
  {
    batch := PickExists(rows, Due(rows, now), limit);
  }

  // ---- rows that keep failing ----

  /** A sweep that has an answer `batch` and fails for `failing` changes nothing. */
  ghost predicate Stalls(rows: seq<Row>, now: int, batch: seq<nat>, failing: set<nat>) {
    IsBatch(rows, now, BATCH_SIZE, batch) && SuspendAll(rows, Ids(batch) - failing) == rows
  }

  lemma StallsIff(rows: seq<Row>, now: int, batch: seq<nat>, failing: set<nat>)
    requires IsBatch(rows, now, BATCH_SIZE, batch)
    ensures Stalls(rows, now, batch, failing) <==> Ids(batch) <= failing
  {
    var after := SuspendAll(rows, Ids(batch) - failing);
    forall id | id in Ids(batch) - failing
      ensures after[id] != rows[id]
    {
    }
    if Ids(batch) <= failing {
      assert after == rows;
    }
  }

  /** The failing due rows that end no later than any due row that would not fail. */
  ghost function Ahead(rows: seq<Row>, now: int, failing: set<nat>): set<nat> {
    set id | id in Due(rows, now) && id in failing
             && forall other :: other in Due(rows, now) - failing ==> rows[id].trialEndsAt <= rows[other].trialEndsAt
  }

  /** Those of them that end earlier. */
  ghost function StrictlyAhead(rows: seq<Row>, now: int, failing: set<nat>): set<nat> {
    set id | id in Due(rows, now) && id in failing
             && forall other :: other in Due(rows, now) - failing ==> rows[id].trialEndsAt < rows[other].trialEndsAt
  }

  /** While a row that would not fail is due, a sweep may get nowhere if and only if 500 failing ones are as old. */
  lemma MayStallIff(rows: seq<Row>, now: int, failing: set<nat>)
    requires !(Due(rows, now) <= failing)
    ensures (exists batch :: Stalls(rows, now, batch, failing)) <==> |Ahead(rows, now, failing)| >= 500
  {
    if batch :| Stalls(rows, now, batch, failing) {
      StalledAhead(rows, now, batch, failing);
    }
    if |Ahead(rows, now, failing)| >= BATCH_SIZE {
      var batch := BatchOfAhead(rows, now, failing);
    }
  }

  lemma StalledAhead(rows: seq<Row>, now: int, batch: seq<nat>, failing: set<nat>)
    requires !(Due(rows, now) <= failing) && Stalls(rows, now, batch, failing)
    ensures |Ahead(rows, now, failing)| >= BATCH_SIZE
  {
    StallsIff(rows, now, batch, failing);
    DistinctIds(batch);
    assert Ids(batch) <= Ahead(rows, now, failing);
    SubsetSize(Ids(batch), Ahead(rows, now, failing));
  }

  lemma BatchOfAhead(rows: seq<Row>, now: int, failing: set<nat>) returns (batch: seq<nat>)
    requires !(Due(rows, now) <= failing) && |Ahead(rows, now, failing)| >= BATCH_SIZE
    ensures Stalls(rows, now, batch, failing)
  {
    batch := PickExists(rows, Ahead(rows, now, failing), BATCH_SIZE);
    DistinctIds(batch);
    assert |batch| == BATCH_SIZE;
    StallsIff(rows, now, batch, failing);
  }

  /** It gets nowhere whichever rows the query answers if and only if 500 failing ones are older. */
  lemma MustStallIff(rows: seq<Row>, now: int, failing: set<nat>)
    requires !(Due(rows, now) <= failing)
    ensures (forall batch :: IsBatch(rows, now, BATCH_SIZE, batch) ==> Stalls(rows, now, batch, failing))
            <==> |StrictlyAhead(rows, now, failing)| >= 500
  {
    var ahead := StrictlyAhead(rows, now, failing);
    if |ahead| >= BATCH_SIZE {
      forall batch | IsBatch(rows, now, BATCH_SIZE, batch)
        ensures Stalls(rows, now, batch, failing)
      {
        StallsIff(rows, now, batch, failing);
        forall id | id in Ids(batch)
          ensures id in failing
        {
          if id !in failing {
            OldestComeFirst(rows, now, batch, ahead, id);
          }
        }
      }
    } else {
      var batch := BatchOfOthers(rows, now, failing);
      StallsIff(rows, now, batch, failing);
    }
  }

  /** A batch that reaches a row holds all due rows that end earlier, so there are fewer than 500. */
  lemma OldestComeFirst(rows: seq<Row>, now: int, batch: seq<nat>, older: set<nat>, id: nat)
    requires IsBatch(rows, now, BATCH_SIZE, batch) && id in Ids(batch) && older <= Due(rows, now)
    requires forall h <- older :: rows[h].trialEndsAt < rows[id].trialEndsAt
    ensures |older| < BATCH_SIZE
  {
    var i :| 0 <= i < |batch| && batch[i] == id;
    DistinctIds(batch);
    assert older <= Ids(batch) - {id};
    SubsetSize(older, Ids(batch) - {id});
  }

  /** With fewer than 500 strictly ahead, some answer reaches a row that does not fail. */
  lemma BatchOfOthers(rows: seq<Row>, now: int, failing: set<nat>) returns (batch: seq<nat>)
    requires !(Due(rows, now) <= failing) && |StrictlyAhead(rows, now, failing)| < BATCH_SIZE
    ensures IsBatch(rows, now, BATCH_SIZE, batch) && !(Ids(batch) <= failing)
  {
    batch := BatchExists(rows, now, BATCH_SIZE);
    if Ids(batch) <= failing {
      var other := EndsWithTheLast(rows, now, failing, batch);
      SwapLast(rows, Due(rows, now), batch, other);
      batch := batch[|batch| - 1 := other];
    }
  }

  /** A batch of failing rows only, more than are strictly ahead, ends at the same instant as a row that does not fail. */
  lemma EndsWithTheLast(rows: seq<Row>, now: int, failing: set<nat>, batch: seq<nat>) returns (other: nat)
    requires !(Due(rows, now) <= failing) && |StrictlyAhead(rows, now, failing)| < BATCH_SIZE
    requires IsBatch(rows, now, BATCH_SIZE, batch) && Ids(batch) <= failing
    ensures |batch| == BATCH_SIZE && other in Due(rows, now) - failing
    ensures rows[other].trialEndsAt == rows[batch[|batch| - 1]].trialEndsAt
  {
    var i := NotAllAhead(rows, now, failing, batch);
    other :| other in Due(rows, now) - failing && rows[batch[i]].trialEndsAt >= rows[other].trialEndsAt;
    assert other !in Ids(batch);
  }

  lemma NotAllAhead(rows: seq<Row>, now: int, failing: set<nat>, batch: seq<nat>) returns (i: nat)
    requires !(Due(rows, now) <= failing) && |StrictlyAhead(rows, now, failing)| < BATCH_SIZE
    requires IsBatch(rows, now, BATCH_SIZE, batch) && Ids(batch) <= failing
    ensures |batch| == BATCH_SIZE && i < |batch| && batch[i] !in StrictlyAhead(rows, now, failing)
    ensures batch[i] in Due(rows, now) && batch[i] in failing
  {
    var ahead := StrictlyAhead(rows, now, failing);
    DistinctIds(batch);
    if Ids(batch) <= ahead {
      SubsetSize(Ids(batch), ahead);
      assert false;
    }
    i :| 0 <= i < |batch| && batch[i] !in ahead;
    assert batch[i] in Ids(batch);
  }

  lemma SwapLast(rows: seq<Row>, pool: set<nat>, picked: seq<nat>, other: nat)
    requires (forall id <- pool :: id < |rows|) && picked != [] && IsPick(rows, pool, |picked|, picked)
    requires other in pool - Ids(picked) && rows[other].trialEndsAt == rows[picked[|picked| - 1]].trialEndsAt
    ensures var swapped := picked[|picked| - 1 := other];
            IsPick(rows, pool, |picked|, swapped) && other in Ids(swapped)
  {
    var last := |picked| - 1;
    var swapped := picked[last := other];
    assert swapped[last] == other;
    forall i | 0 <= i < last
      ensures swapped[i] == picked[i] && swapped[i] in Ids(picked) && swapped[i] in Ids(swapped)
    {
    }
    forall id | id in pool - Ids(swapped)
      ensures rows[other].trialEndsAt <= rows[id].trialEndsAt
    {
      if id in Ids(picked) {
        assert id == picked[last];
      }
    }
  }

  /** With fewer due rows failing than a batch holds, a sweep makes progress as long as any other row is due. */
  lemma FewFailuresNeverBlock(rows: seq<Row>, now: int, batch: seq<nat>, failing: set<nat>)
    requires IsBatch(rows, now, BATCH_SIZE, batch)
    requires |Due(rows, now) * failing| < BATCH_SIZE && !(Due(rows, now) <= failing)
    ensures SuspendAll(rows, Ids(batch) - failing) != rows
  {
    assert Ahead(rows, now, failing) <= Due(rows, now) * failing;
    SubsetSize(Ahead(rows, now, failing), Due(rows, now) * failing);
    MayStallIff(rows, now, failing);
    assert !Stalls(rows, now, batch, failing);
  }

  // ---- and go on failing ----

  /** At least 500 due rows that end before every other trial, due or not. */
  ghost predicate HoldUp(rows: seq<Row>, now: int, held: set<nat>) {
    && |held| >= BATCH_SIZE && held <= Due(rows, now) && EndFirst(rows, held)
  }

  ghost predicate EndFirst(rows: seq<Row>, held: set<nat>)
    requires forall h <- held :: h < |rows|
  {
    forall id, h :: 0 <= id < |rows| && rows[id].status == Trialing && id !in held && h in held ==>
      rows[h].trialEndsAt < rows[id].trialEndsAt
  }

  /** Rows strictly ahead at one sweep end before every trial there is. */
  lemma AheadHoldUp(rows: seq<Row>, now: int, failing: set<nat>)
    requires !(Due(rows, now) <= failing) && |StrictlyAhead(rows, now, failing)| >= BATCH_SIZE
    ensures HoldUp(rows, now, StrictlyAhead(rows, now, failing))
  {
    var held := StrictlyAhead(rows, now, failing);
    forall id, h | 0 <= id < |rows| && rows[id].status == Trialing && id !in held && h in held
      ensures rows[h].trialEndsAt < rows[id].trialEndsAt
    {
      if id in Due(rows, now) && id in failing {
        var other :| other in Due(rows, now) - failing && rows[id].trialEndsAt >= rows[other].trialEndsAt;
      }
    }
  }

  /** A later sweep for which at least the rows of `held` fail. */
  ghost predicate LaterSweep(before: seq<Row>, after: seq<Row>, now: int, held: set<nat>) {
    exists clock, batch, failing ::
      && now <= clock && held <= failing && IsBatch(before, clock, BATCH_SIZE, batch)
      && after == SuspendAll(before, Ids(batch) - failing)
  }

  /**
   Anything else: it leaves the rows of `held` alone, moves no end of a trial, and starts
   only trials that end after theirs.
   */
  ghost predicate Meanwhile(before: seq<Row>, after: seq<Row>, held: set<nat>) {
    && |before| <= |after|
    && (forall h <- held :: h < |before| && after[h] == before[h])
    && (forall id :: 0 <= id < |after| && after[id].status == Trialing && id !in held ==>
          || (id < |before| && before[id].status == Trialing && after[id].trialEndsAt == before[id].trialEndsAt)
          || (forall h <- held :: before[h].trialEndsAt < after[id].trialEndsAt))
  }

  lemma RegisterIsMeanwhile(rows: seq<Row>, now: int, held: set<nat>, later: int)
    requires HoldUp(rows, now, held) && now <= later
    ensures Meanwhile(rows, rows + [Row(Trialing, later, later + TRIAL_DURATION)], held)
  {
  }

  lemma LaterSweepStalls(before: seq<Row>, after: seq<Row>, now: int, held: set<nat>)
    requires HoldUp(before, now, held) && LaterSweep(before, after, now, held)
    ensures after == before
  {
    var clock, batch, failing :|
      && now <= clock && held <= failing && IsBatch(before, clock, BATCH_SIZE, batch)
      && after == SuspendAll(before, Ids(batch) - failing);
    StallsIff(before, clock, batch, failing);
    forall id | id in Ids(batch)
      ensures id in held
    {
      if id !in held {
        OldestComeFirst(before, clock, batch, held, id);
      }
    }
  }

  /**
   As long as 500 such rows keep failing, every later sweep changes nothing, whatever
   else is done in between; the other trials that expire are never suspended by it.
   */
  lemma {:induction false} HoldUpLasts(states: seq<seq<Row>>, now: int, held: set<nat>, n: nat)
    requires n < |states| && HoldUp(states[0], now, held)
    requires forall i :: 0 <= i < |states| - 1 ==>
               LaterSweep(states[i], states[i + 1], now, held) || Meanwhile(states[i], states[i + 1], held)
    ensures HoldUp(states[n], now, held)
    ensures n < |states| - 1 && LaterSweep(states[n], states[n + 1], now, held) ==> states[n + 1] == states[n]
  {
    if n > 0 {
      HoldUpLasts(states, now, held, n - 1);
    }
    if n < |states| - 1 && LaterSweep(states[n], states[n + 1], now, held) {
      LaterSweepStalls(states[n], states[n + 1], now, held);
    }
  }

  // ---- such a state ----

  /** 500 trials that ended at 0, one that ended at 1: while the 500 fail, the other is held up from second 2 on. */
  lemma HeldUp()
    ensures var rows := seq(501, i => Row(Trialing, -TRIAL_DURATION, if i < 500 then 0 else 1));
            var failing := Ids(seq(500, i => i));
            HoldUp(rows, 2, failing) && 500 in Due(rows, 2) - failing
  {
    var first := seq(500, i => i);
    DistinctIds(first);
    forall id: nat | id < 500
      ensures id in Ids(first)
    {
      assert first[id] == id;
    }
  }
}
