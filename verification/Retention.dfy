/** What repeated cleanup_acked calls keep (pi_firmware/offline_queue.py, phase 0.5 retention). */
module Retention {
  import opened Vocabulary
  import opened Selection
  import opened OfflineQueue

  /** With at least n history rows there is an n-th newest time. */
  lemma NthNewestExists(rows: map<CommandId, Row>, n: nat) returns (t: int)
    requires 0 < n <= |History(rows)|
    ensures IsNthNewest(rows, n, t)
  {
    var times := AckTimes(rows);
    var newestFirst := map id | id in rows :: -times[id];
    var top := LeastExists(History(rows), newestFirst);
    var few := set id | id in History(rows) && |NewerThan(rows, times[id])| < n;
    assert NewerThan(rows, times[top]) == {} && top in few;
    var bar := LeastExists(few, times);
    t := times[bar];
    var below := set id | id in History(rows) && times[id] < t;
    if below == {} {
      assert forall id | id in History(rows) :: times[id] == rows[id].ackedAt.value && id !in below;
      assert AtLeastAsNew(rows, t) == History(rows);
    } else {
      var next := LeastExists(below, newestFirst);
      assert next !in few;
      assert NewerThan(rows, times[next]) == AtLeastAsNew(rows, t);
    }
  }

  /** The documented policy: a row goes only if it is acknowledged history, over 30 days old, and
    * 500 acknowledged rows are strictly newer. */
  lemma DisposableIsThePolicy(rows: map<CommandId, Row>, id: CommandId, now: int)
    requires id in rows
    ensures Disposable(rows, id, now) <==>
      && rows[id].ack in {AckAcked, AckRejected} && rows[id].ackedAt.Some?
      && rows[id].ackedAt.value < now - 30 * 86_400 * SECOND
      && |NewerThan(rows, rows[id].ackedAt.value)| >= 500
  {
    if id in History(rows) {
      var at := rows[id].ackedAt.value;
      if Disposable(rows, id, now) {
        var t :| IsNthNewest(rows, RETENTION_ROWS, t) && at < t;
        SubsetSize(AtLeastAsNew(rows, t), NewerThan(rows, at));
      } else if |NewerThan(rows, at)| >= RETENTION_ROWS {
        SubsetSize(NewerThan(rows, at), History(rows));
        var t := NthNewestExists(rows, RETENTION_ROWS);
        if t <= at {
          SubsetSize(NewerThan(rows, at), NewerThan(rows, t));
        }
      }
    }
  }

  ghost predicate CleansTo(before: map<CommandId, Row>, now: int, after: map<CommandId, Row>) {
    exists victims :: IsCleanup(before, now, victims, after)
  }

  ghost predicate SameBar(before: map<CommandId, Row>, after: map<CommandId, Row>) {
    forall t :: IsNthNewest(before, RETENTION_ROWS, t) <==> IsNthNewest(after, RETENTION_ROWS, t)
  }

  lemma RemovingBelowKeepsBar(before: map<CommandId, Row>, gone: set<CommandId>, bar: int)
    requires IsNthNewest(before, RETENTION_ROWS, bar)
    requires forall id | id in gone :: id in History(before) && before[id].ackedAt.value < bar
    ensures SameBar(before, before - gone)
  {
    var after := before - gone;
    assert NewerThan(after, bar) == NewerThan(before, bar);
    assert AtLeastAsNew(after, bar) == AtLeastAsNew(before, bar);
    forall t ensures IsNthNewest(before, RETENTION_ROWS, t) <==> IsNthNewest(after, RETENTION_ROWS, t) {
      if IsNthNewest(before, RETENTION_ROWS, t) {
        NthNewestUnique(before, RETENTION_ROWS, t, bar);
      }
      if IsNthNewest(after, RETENTION_ROWS, t) {
        NthNewestUnique(after, RETENTION_ROWS, t, bar);
      }
    }
  }

  lemma VictimsAreDisposable(before: map<CommandId, Row>, now: int, victims: seq<CommandId>)
    requires IsOldest(DisposableIds(before, now), AckTimes(before), CLEANUP_BATCH_LIMIT, victims)
    ensures Listed(victims) <= DisposableIds(before, now) && |Listed(victims)| == |victims|
    ensures forall id | id in Listed(victims) :: id in before && before[id].ack != AckPending
  {
    forall id | id in Listed(victims) ensures id in DisposableIds(before, now) {
      var i :| 0 <= i < |victims| && victims[i] == id;
    }
    DistinctSize(victims, Listed(victims));
  }

  lemma Leftover(before: map<CommandId, Row>, beyond: set<CommandId>, gone: set<CommandId>, left: set<CommandId>)
    requires gone <= beyond <= before.Keys && left == beyond - gone
    ensures before.Keys - (before - gone).Keys == gone
    ensures before - gone == before - (beyond - left)
    ensures |left| == |beyond| - |gone|
  {
    assert beyond == left + gone;
    assert beyond - left == gone;
  }

  /** Removing disposable rows keeps the bar, so the other disposable rows stay disposable. */
  lemma RemovalKeepsPolicy(before: map<CommandId, Row>, now: int, gone: set<CommandId>)
    requires gone <= DisposableIds(before, now)
    ensures SameBar(before, before - gone)
    ensures DisposableIds(before - gone, now) == DisposableIds(before, now) - gone
  {
    if gone == {} {
      assert before - gone == before;
    } else {
      var some :| some in gone;
      var bar :| IsNthNewest(before, RETENTION_ROWS, bar) && before[some].ackedAt.value < bar;
      DisposableBelow(before, now, bar);
      RemovingBelowKeepsBar(before, gone, bar);
      DisposableBelow(before - gone, now, bar);
    }
  }

  /** One call leaves the 500th newest acknowledgement time where it was. */
  lemma CleanupKeepsBar(before: map<CommandId, Row>, now: int, after: map<CommandId, Row>)
    requires CleansTo(before, now, after)
    ensures SameBar(before, after)
  {
    var victims :| IsCleanup(before, now, victims, after);
    VictimsAreDisposable(before, now, victims);
    RemovalKeepsPolicy(before, now, Listed(victims));
  }

  /** One call: at most 100 rows go, all acknowledged, and what is left to delete is exactly what
    * was left out. */
  lemma CleanupStep(before: map<CommandId, Row>, now: int, victims: seq<CommandId>, after: map<CommandId, Row>)
    requires IsCleanup(before, now, victims, after)
    ensures |before.Keys - after.Keys| <= 100
    ensures forall id | id in before && id !in after :: before[id].ack != AckPending
    ensures forall id | id in after :: id in before && after[id] == before[id]
    ensures DisposableIds(after, now) <= DisposableIds(before, now)
    ensures after == before - (DisposableIds(before, now) - DisposableIds(after, now))
    ensures |DisposableIds(after, now)| == Max(0, |DisposableIds(before, now)| - 100)
  {
    VictimsAreDisposable(before, now, victims);
    RemovalKeepsPolicy(before, now, Listed(victims));
    Leftover(before, DisposableIds(before, now), Listed(victims), DisposableIds(after, now));
  }

  lemma CleanupShrinks(before: map<CommandId, Row>, now: int, after: map<CommandId, Row>)
    requires CleansTo(before, now, after)
    ensures DisposableIds(after, now) <= DisposableIds(before, now)
    ensures after == before - (DisposableIds(before, now) - DisposableIds(after, now))
    ensures |DisposableIds(after, now)| == Max(0, |DisposableIds(before, now)| - 100)
  {
    var victims :| IsCleanup(before, now, victims, after);
    CleanupStep(before, now, victims, after);
  }

  /** A series of calls at one fixed time. */
  ghost predicate IsDrain(tables: seq<map<CommandId, Row>>, now: int) {
    && |tables| > 0
    && forall k | 0 <= k < |tables| - 1 :: CleansTo(tables[k], now, tables[k + 1])
  }

  lemma TwoRemovals(first: map<CommandId, Row>, before: map<CommandId, Row>, after: map<CommandId, Row>,
                    all: set<CommandId>, middle: set<CommandId>, left: set<CommandId>)
    requires left <= middle <= all
    requires before == first - (all - middle) && after == before - (middle - left)
    ensures after == first - (all - left)
  {
  }

  /** After `calls` calls: min(100 calls, everything) disposable rows have gone, and nothing else. */
  ghost predicate Drained(first: map<CommandId, Row>, now: int, calls: nat, table: map<CommandId, Row>) {
    var all, left := DisposableIds(first, now), DisposableIds(table, now);
    && |left| == Max(0, |all| - 100 * calls)
    && left <= all
    && table == first - (all - left)
  }

  lemma DrainOnce(first: map<CommandId, Row>, now: int, calls: nat, before: map<CommandId, Row>, after: map<CommandId, Row>)
    requires Drained(first, now, calls, before) && CleansTo(before, now, after)
    ensures Drained(first, now, calls + 1, after)
  {
    CleanupShrinks(before, now, after);
    TwoRemovals(first, before, after, DisposableIds(first, now), DisposableIds(before, now), DisposableIds(after, now));
  }

  lemma {:induction false} DrainReachesPolicy(tables: seq<map<CommandId, Row>>, now: int)
    requires IsDrain(tables, now)
    ensures Drained(tables[0], now, |tables| - 1, tables[|tables| - 1])
    ensures SameBar(tables[0], tables[|tables| - 1])
  {
    if |tables| > 1 {
      var init := tables[..|tables| - 1];
      DrainReachesPolicy(init, now);
      DrainOnce(tables[0], now, |init| - 1, init[|init| - 1], tables[|tables| - 1]);
      CleanupKeepsBar(init[|init| - 1], now, tables[|tables| - 1]);
    } else {
      assert tables[0] == tables[0] - (DisposableIds(tables[0], now) - DisposableIds(tables[0], now));
    }
  }

  /** Once the calls cover everything disposable, the table is what the policy keeps. */
  lemma DrainEndsAtPolicy(tables: seq<map<CommandId, Row>>, now: int)
    requires IsDrain(tables, now)
    ensures tables[|tables| - 1] == tables[0] - DisposableIds(tables[0], now)
      <==> 100 * (|tables| - 1) >= |DisposableIds(tables[0], now)|
  {
    DrainReachesPolicy(tables, now);
    var all, left := DisposableIds(tables[0], now), DisposableIds(tables[|tables| - 1], now);
    NothingLeft(tables[0], all, left);
  }

  lemma NothingLeft(first: map<CommandId, Row>, all: set<CommandId>, left: set<CommandId>)
    requires left <= all <= first.Keys
    ensures first - (all - left) == first - all <==> |left| == 0
  {
    if left != {} {
      var id :| id in left;
      assert id in first - (all - left) && id !in first - all;
    }
  }
}
