/**
 * Rolling 1-minute rows up into 10- and 60-minute rows. The metrics table is a map from its
 * primary key; the SQL statement groups the minute rows of an aligned window and inserts or
 * replaces one row per group.
 */
module Rollup {
  import opened MinuteBuckets

  /** The primary key: system, bucket size in minutes, bucket start. */
  datatype Cell = Cell(system: nat, res: nat, ts: int)

  type Table = map<Cell, Vec>

  const RES_1: nat := 1

  /** mem_total, swap_total and disk_total. */
  predicate IsCapacity(c: nat) {
    c == 2 || c == 4 || c == 6
  }

  function BucketOf(ts: int, size: int): int
    requires size > 0
  {
    Quotient(ts, size) * size
  }

  // ---- Aggregates ----

  function SumCol(rows: seq<Vec>, c: nat): real
    requires c < NUM_METRIC_COLS
  {
    if rows == [] then 0.0 else SumCol(rows[..|rows| - 1], c) + rows[|rows| - 1][c]
  }

  function MaxCol(rows: seq<Vec>, c: nat): (m: real)
    requires c < NUM_METRIC_COLS && rows != []
    ensures forall i :: 0 <= i < |rows| ==> rows[i][c] <= m
    ensures exists i :: 0 <= i < |rows| && rows[i][c] == m
  {
    var last := rows[|rows| - 1][c];
    if |rows| == 1 then last
    else
      var m := MaxCol(rows[..|rows| - 1], c);
      if m < last then last else m
  }

  /** MAX for capacities, AVG for everything else. */
  function Aggregate(rows: seq<Vec>): Vec
    requires rows != []
  {
    seq(NUM_METRIC_COLS, c requires 0 <= c < NUM_METRIC_COLS =>
      if IsCapacity(c) then MaxCol(rows, c) else SumCol(rows, c) / |rows| as real)
  }

  lemma {:induction false} SumColMeaning(a: seq<Vec>, b: seq<Vec>, r: Vec, c: nat)
    requires c < NUM_METRIC_COLS
    ensures SumCol(a + b, c) == SumCol(a, c) + SumCol(b, c) && SumCol([r], c) == r[c]
    decreases |b|
  {
    assert [r][..0] == [];
    if b == [] {
      assert a + b == a;
    } else {
      assert (a + b)[..|a + b| - 1] == a + b[..|b| - 1];
      SumColMeaning(a, b[..|b| - 1], r, c);
    }
  }

  /** The totals of memory, swap and disk are the greatest of the rows, all other columns the mean. */
  lemma AggregateMeaning(rows: seq<Vec>, c: nat)
    requires rows != [] && c < NUM_METRIC_COLS
    ensures var v := Aggregate(rows)[c];
            if c in {2, 4, 6}
            then (forall i :: 0 <= i < |rows| ==> rows[i][c] <= v) && exists i :: 0 <= i < |rows| && rows[i][c] == v
            else v * |rows| as real == SumCol(rows, c)
  {
    if c in {2, 4, 6} {
      assert Aggregate(rows)[c] == MaxCol(rows, c);
    } else {
      assert SumCol(rows, c) / |rows| as real * |rows| as real == SumCol(rows, c);
    }
  }

  // ---- The statement ----

  /** The minute rows of a system with lo <= ts < hi, oldest first. */
  function RowsIn(t: Table, system: nat, lo: int, hi: int): seq<Vec>
    decreases hi - lo
  {
    if lo >= hi then []
    else RowsIn(t, system, lo, hi - 1) + RowAt(t, system, hi - 1)
  }

  function RowAt(t: Table, system: nat, ts: int): seq<Vec> {
    var c := Cell(system, RES_1, ts);
    if c in t then [t[c]] else []
  }

  /** Those of them that the statement groups under a bucket. */
  function GroupIn(t: Table, system: nat, lo: int, hi: int, bucket: int, size: int): seq<Vec>
    requires size > 0
    decreases hi - lo
  {
    if lo >= hi then []
    else
      GroupIn(t, system, lo, hi - 1, bucket, size) +
      if BucketOf(hi - 1, size) == bucket then RowAt(t, system, hi - 1) else []
  }

  /** The window of a rollup: [since, until), both on bucket boundaries. */
  function Until(toRes: nat, now: int): int
    requires toRes > 0
  {
    BucketOf(now, toRes * 60)
  }

  function Since(toRes: nat, window: int, now: int): int
    requires toRes > 0
  {
    BucketOf(Until(toRes, now) - window, toRes * 60)
  }

  datatype Job = Job(systems: set<nat>, toRes: nat, window: int, now: int)

  /** Rollups are made to 10 and 60 minutes, by a hub whose clock is past 1970. */
  predicate JobOk(j: Job) {
    j.toRes > RES_1 && j.now >= 0
  }

  /** The minute rows the statement selects. */
  predicate InWindow(j: Job, c: Cell)
    requires j.toRes > 0
  {
    && c.res == RES_1 && c.system in j.systems
    && Since(j.toRes, j.window, j.now) <= c.ts < Until(j.toRes, j.now)
  }

  /** The groups of the statement, as the cells it inserts or replaces. */
  function Groups(t: Table, j: Job): set<Cell>
    requires j.toRes > 0
  {
    set c | c in t && InWindow(j, c) :: Cell(c.system, j.toRes, BucketOf(c.ts, j.toRes * 60))
  }

  function GroupRows(t: Table, j: Job, c: Cell): seq<Vec>
    requires j.toRes > 0
  {
    GroupIn(t, c.system, Since(j.toRes, j.window, j.now), Until(j.toRes, j.now), c.ts, j.toRes * 60)
  }

  function RollUp(t: Table, j: Job): Table
    requires j.toRes > 0
  {
    map c | c in t.Keys + Groups(t, j) ::
      if c in Groups(t, j) then GroupNotEmpty(t, j, c); Aggregate(GroupRows(t, j, c)) else t[c]
  }

  lemma GroupNotEmpty(t: Table, j: Job, c: Cell)
    requires j.toRes > 0 && c in Groups(t, j)
    ensures GroupRows(t, j, c) != []
  {
    var m :| m in t && InWindow(j, m) && c == Cell(m.system, j.toRes, BucketOf(m.ts, j.toRes * 60));
    RowInGroup(t, m, Since(j.toRes, j.window, j.now), Until(j.toRes, j.now), j.toRes * 60);
  }

  lemma {:induction false} RowInGroup(t: Table, m: Cell, lo: int, hi: int, size: int)
    requires size > 0 && m in t && m.res == RES_1 && lo <= m.ts < hi
    ensures GroupIn(t, m.system, lo, hi, BucketOf(m.ts, size), size) != []
    decreases hi - lo
  {
    if m.ts == hi - 1 {
      assert RowAt(t, m.system, m.ts) == [t[m]];
    } else {
      RowInGroup(t, m, lo, hi - 1, size);
    }
  }

  // ---- Aligned windows ----

  ghost predicate PastEpoch(t: Table) {
    forall c :: c in t && c.res == RES_1 ==> c.ts >= 0
  }

  lemma Times(a: int, b: int, size: int)
    requires size > 0
    ensures a <= b ==> a * size <= b * size
    ensures a < b ==> a * size + size <= b * size
    ensures a * size < b * size ==> a < b
  {
    var d := b - a;
    assert b * size == a * size + d * size;
    if d >= 1 {
      assert d * size >= size;
    } else {
      assert d * size <= 0;
    }
  }

  /** A time past 1970 lies in its bucket, and in no other. */
  lemma InBucket(ts: int, k: int, size: int)
    requires ts >= 0 && size > 0
    ensures BucketOf(ts, size) <= ts < BucketOf(ts, size) + size
    ensures k * size <= ts < k * size + size ==> BucketOf(ts, size) == k * size
  {
    var q := ts / size;
    assert ts == q * size + ts % size;
    if k * size <= ts < k * size + size {
      Times(q, k, size);
      Times(k, q, size);
    }
  }

  /** Grouping keeps the rows whose time lies in the bucket. */
  lemma {:induction false} GroupIsClip(t: Table, system: nat, lo: int, hi: int, k: int, size: int)
    requires size > 0 && lo <= hi && PastEpoch(t)
    ensures GroupIn(t, system, lo, hi, k * size, size) == RowsIn(t, system, Max(lo, k * size), Min(hi, k * size + size))
    decreases hi - lo
  {
    if lo < hi {
      GroupIsClip(t, system, lo, hi - 1, k, size);
      var ts := hi - 1;
      if Cell(system, RES_1, ts) in t {
        InBucket(ts, k, size);
      } else {
        assert RowAt(t, system, ts) == [];
      }
    }
  }

  function Max(a: int, b: int): int {
    if a < b then b else a
  }

  function Min(a: int, b: int): int {
    if a < b then a else b
  }

  // ---- Theorems ----

  /** All minute rows now in the bucket of a cell. */
  function BucketRows(t: Table, c: Cell): seq<Vec> {
    RowsIn(t, c.system, c.ts, c.ts + c.res * 60)
  }

  /** A bucket the window covers: on a boundary, and whole. */
  predicate Covered(j: Job, c: Cell)
    requires j.toRes > 0
  {
    && c.system in j.systems && c.res == j.toRes && BucketOf(c.ts, c.res * 60) == c.ts
    && Since(j.toRes, j.window, j.now) <= c.ts && c.ts + c.res * 60 <= Until(j.toRes, j.now)
  }

  /** Those are the full buckets that are over, as far back as the window reaches. */
  lemma CoveredMeaning(j: Job, c: Cell)
    requires JobOk(j) && c.ts >= 0
    ensures var size := j.toRes * 60;
            Covered(j, c) <==>
              && c.system in j.systems && c.res == j.toRes && c.ts % size == 0
              && j.now - j.now % size - j.window < c.ts + size <= j.now
  {
    var size, q, n := j.toRes * 60, c.ts / (j.toRes * 60), j.now / (j.toRes * 60);
    assert c.ts == q * size + c.ts % size && j.now == n * size + j.now % size;
    assert BucketOf(c.ts, size) == c.ts <==> c.ts % size == 0;
    if c.ts % size == 0 {
      FitsBefore(q, n, j.now, size);
      ReachesBack(q, Until(j.toRes, j.now) - j.window, size);
    }
  }

  /** A bucket ends by the last boundary exactly if it ends by now. */
  lemma FitsBefore(q: int, n: int, now: int, size: int)
    requires size > 0 && n * size <= now < n * size + size
    ensures q * size + size <= n * size <==> q * size + size <= now
  {
    Times(q, n, size);
    Times(n, q, size);
  }

  /** A bucket begins no earlier than the boundary at or before x exactly if it ends after x. */
  lemma ReachesBack(q: int, x: int, size: int)
    requires size > 0 && q >= 0
    ensures BucketOf(x, size) <= q * size <==> x < q * size + size
  {
    Times(0, q, size);
    if x >= 0 {
      var p := x / size;
      assert x == p * size + x % size;
      Times(p, q, size);
      Times(q, p, size);
    } else {
      Times(0, (-x) / size, size);
    }
  }

  /** The statement writes exactly the covered buckets that have a minute row. */
  lemma GroupsAreCovered(t: Table, j: Job, c: Cell)
    requires JobOk(j) && PastEpoch(t)
    ensures c in Groups(t, j) <==> Covered(j, c) && BucketRows(t, c) != []
    ensures Covered(j, c) ==> GroupRows(t, j, c) == BucketRows(t, c)
  {
    var size := j.toRes * 60;
    var lo, hi := Since(j.toRes, j.window, j.now), Until(j.toRes, j.now);
    var k := Quotient(c.ts, size);
    if Covered(j, c) {
      GroupIsClip(t, c.system, lo, hi, k, size);
      if BucketRows(t, c) != [] {
        var ts := SomeRow(t, c.system, c.ts, c.ts + size);
        InBucket(ts, k, size);
        var m := Cell(c.system, RES_1, ts);
        assert m in t && InWindow(j, m);
      }
    }
    if c in Groups(t, j) {
      var m :| m in t && InWindow(j, m) && c == Cell(m.system, j.toRes, BucketOf(m.ts, size));
      GroupIsWhole(j, m.ts);
      RowIsIn(t, m, c.ts, c.ts + size);
    }
  }

  /** The bucket of a time in the window lies in the window as a whole. */
  lemma GroupIsWhole(j: Job, ts: int)
    requires JobOk(j) && 0 <= ts
    ensures var size, b := j.toRes * 60, BucketOf(ts, j.toRes * 60);
            Since(j.toRes, j.window, j.now) <= ts < Until(j.toRes, j.now) ==>
              && BucketOf(b, size) == b && b <= ts < b + size
              && Since(j.toRes, j.window, j.now) <= b && b + size <= Until(j.toRes, j.now)
  {
    if Since(j.toRes, j.window, j.now) <= ts < Until(j.toRes, j.now) {
      var size := j.toRes * 60;
      AlignedWindow(ts, Quotient(Until(j.toRes, j.now) - j.window, size), Quotient(j.now, size), size);
    }
  }

  lemma AlignedWindow(ts: int, lo: int, hi: int, size: int)
    requires 0 <= ts && size > 0 && lo * size <= ts < hi * size
    ensures var b := BucketOf(ts, size);
            BucketOf(b, size) == b && b <= ts < b + size && lo * size <= b && b + size <= hi * size
  {
    var q := Quotient(ts, size);
    InBucket(ts, q, size);
    NoMultipleBetween(ts, q, lo, hi, size);
    BucketOfBucket(q, size);
  }

  /** Multiples of the size do not lie strictly inside the bucket that starts at q * size. */
  lemma NoMultipleBetween(ts: int, q: int, lo: int, hi: int, size: int)
    requires size > 0 && q * size <= ts < q * size + size && lo * size <= ts < hi * size
    ensures lo * size <= q * size && q * size + size <= hi * size
  {
    Times(q, hi, size);
    Times(q, lo, size);
    Times(lo, q, size);
  }

  lemma BucketOfBucket(q: int, size: int)
    requires size > 0 && q >= 0
    ensures BucketOf(q * size, size) == q * size
  {
    Times(0, q, size);
    InBucket(q * size, q, size);
  }

  lemma {:induction false} SomeRow(t: Table, system: nat, lo: int, hi: int) returns (ts: int)
    requires RowsIn(t, system, lo, hi) != []
    ensures lo <= ts < hi && Cell(system, RES_1, ts) in t
    decreases hi - lo
  {
    if Cell(system, RES_1, hi - 1) in t {
      ts := hi - 1;
    } else {
      ts := SomeRow(t, system, lo, hi - 1);
    }
  }

  lemma {:induction false} RowIsIn(t: Table, m: Cell, lo: int, hi: int)
    requires m in t && m.res == RES_1 && lo <= m.ts < hi
    ensures RowsIn(t, m.system, lo, hi) != []
    decreases hi - lo
  {
    if m.ts == hi - 1 {
      assert RowAt(t, m.system, m.ts) == [t[m]];
    } else {
      RowIsIn(t, m, lo, hi - 1);
    }
  }

  /** The rows of a bucket are the rows of one minute of the system whose time lies in it. */
  lemma {:induction false} RowsInMeaning(t: Table, system: nat, lo: int, hi: int, v: Vec)
    ensures v in RowsIn(t, system, lo, hi) <==> exists ts :: lo <= ts < hi && IsMinute(t, system, ts, v)
    decreases hi - lo
  {
    if lo < hi {
      RowsInMeaning(t, system, lo, hi - 1, v);
      if IsMinute(t, system, hi - 1, v) {
        assert v in RowAt(t, system, hi - 1);
      }
    }
  }

  predicate IsMinute(t: Table, system: nat, ts: int, v: Vec) {
    Cell(system, 1, ts) in t && t[Cell(system, 1, ts)] == v
  }

  ghost predicate SameMinutes(t: Table, u: Table) {
    forall c: Cell :: c.res == RES_1 ==> (c in t <==> c in u) && (c in t ==> t[c] == u[c])
  }

  lemma {:induction false} SameMinuteRows(t: Table, u: Table, system: nat, lo: int, hi: int)
    requires SameMinutes(t, u)
    ensures RowsIn(t, system, lo, hi) == RowsIn(u, system, lo, hi)
    decreases hi - lo
  {
    if lo < hi {
      SameMinuteRows(t, u, system, lo, hi - 1);
    }
  }

  lemma RollUpKeepsMinutes(t: Table, j: Job)
    requires JobOk(j)
    ensures SameMinutes(t, RollUp(t, j))
  {
  }

  /**
   * After a rollup every bucket in the window that has a minute row equals the aggregate of
   * all minute rows now in it, and every other cell, in particular that of a bucket not yet
   * over, is as before.
   */
  lemma RollUpCorrect(t: Table, j: Job, c: Cell)
    requires JobOk(j) && PastEpoch(t)
    ensures var u := RollUp(t, j);
            if Covered(j, c) && BucketRows(u, c) != [] then c in u && u[c] == Aggregate(BucketRows(u, c))
            else (c in u <==> c in t) && (c in t ==> u[c] == t[c])
  {
    RollUpKeepsMinutes(t, j);
    SameMinuteRows(t, RollUp(t, j), c.system, c.ts, c.ts + c.res * 60);
    RollUpAt(t, j, c);
  }

  /** The same in terms of the minute rows before. */
  lemma RollUpAt(t: Table, j: Job, c: Cell)
    requires JobOk(j) && PastEpoch(t)
    ensures var u := RollUp(t, j);
            if Covered(j, c) && BucketRows(t, c) != [] then c in u && u[c] == Aggregate(BucketRows(t, c))
            else (c in u <==> c in t) && (c in t ==> u[c] == t[c])
  {
    GroupsAreCovered(t, j, c);
  }

  /** A bucket is written only when it is over. */
  lemma NoIncompleteBucket(t: Table, j: Job, c: Cell)
    requires JobOk(j) && PastEpoch(t)
    ensures c in RollUp(t, j) && (c !in t || RollUp(t, j)[c] != t[c]) ==> c.res == j.toRes && c.ts + c.res * 60 <= j.now
  {
    RollUpCorrect(t, j, c);
    InBucket(j.now, Quotient(j.now, j.toRes * 60), j.toRes * 60);
  }

  ghost predicate AllOk(jobs: seq<Job>) {
    forall i :: 0 <= i < |jobs| ==> jobs[i].toRes > RES_1 && jobs[i].now >= 0
  }

  /** A list of rollups, one after the other. */
  ghost function RollUpAll(t: Table, jobs: seq<Job>): Table
    requires AllOk(jobs)
  {
    if jobs == [] then t else RollUp(RollUpAll(t, jobs[..|jobs| - 1]), jobs[|jobs| - 1])
  }

  ghost predicate AnyCovers(jobs: seq<Job>, c: Cell)
    requires AllOk(jobs)
  {
    exists i :: 0 <= i < |jobs| && Covered(jobs[i], c)
  }

  /** After any list of rollups, a cell any of them covers is its aggregate, and others are untouched. */
  lemma {:induction false} RollUpAllAt(t: Table, jobs: seq<Job>, c: Cell)
    requires PastEpoch(t) && AllOk(jobs)
    ensures SameMinutes(t, RollUpAll(t, jobs))
    ensures var u := RollUpAll(t, jobs);
            if AnyCovers(jobs, c) && BucketRows(t, c) != [] then c in u && u[c] == Aggregate(BucketRows(t, c))
            else (c in u <==> c in t) && (c in t ==> u[c] == t[c])
    decreases |jobs|
  {
    if jobs != [] {
      var init, last := jobs[..|jobs| - 1], jobs[|jobs| - 1];
      var u := RollUpAll(t, init);
      RollUpAllAt(t, init, c);
      RollUpKeepsMinutes(u, last);
      SameMinuteRows(t, u, c.system, c.ts, c.ts + c.res * 60);
      RollUpAt(u, last, c);
      AnyCoversOne(init, last, c);
      assert init + [last] == jobs;
    }
  }

  lemma AnyCoversOne(jobs: seq<Job>, last: Job, c: Cell)
    requires JobOk(last) && AllOk(jobs)
    ensures AnyCovers(jobs + [last], c) <==> AnyCovers(jobs, c) || Covered(last, c)
  {
    var all := jobs + [last];
    if i :| 0 <= i < |jobs| && Covered(jobs[i], c) {
      assert Covered(all[i], c);
    }
    if Covered(last, c) {
      assert Covered(all[|jobs|], c);
    }
  }

  /**
   * Rollups over unchanged minute rows give the same table in any order, overlapping or not,
   * and however often each is repeated.
   */
  lemma RollUpsInAnyOrder(t: Table, jobs: seq<Job>, again: seq<Job>)
    requires PastEpoch(t) && AllOk(jobs)
    requires forall j :: j in jobs <==> j in again
    ensures AllOk(again)
    ensures RollUpAll(t, jobs) == RollUpAll(t, again)
  {
    assert forall i :: 0 <= i < |again| ==> again[i] in jobs;
    var a, b := RollUpAll(t, jobs), RollUpAll(t, again);
    forall c: Cell ensures SameCell(a, b, c) {
      SameAt(t, jobs, again, c);
    }
    SameTables(a, b);
  }

  predicate SameCell(a: Table, b: Table, c: Cell) {
    (c in a <==> c in b) && (c in a ==> a[c] == b[c])
  }

  lemma SameTables(a: Table, b: Table)
    requires forall c: Cell :: SameCell(a, b, c)
    ensures a == b
  {
    assert forall c: Cell :: c in a ==> SameCell(a, b, c);
    assert forall c: Cell :: c in b ==> SameCell(a, b, c);
    assert a.Keys == b.Keys;
  }

  lemma SameAt(t: Table, jobs: seq<Job>, again: seq<Job>, c: Cell)
    requires PastEpoch(t) && AllOk(jobs) && AllOk(again) && forall j :: j in jobs <==> j in again
    ensures SameCell(RollUpAll(t, jobs), RollUpAll(t, again), c)
  {
    RollUpAllAt(t, jobs, c);
    RollUpAllAt(t, again, c);
    SameCoverage(jobs, again, c);
  }

  lemma SameCoverage(jobs: seq<Job>, again: seq<Job>, c: Cell)
    requires AllOk(jobs)
    requires AllOk(again)
    requires forall j :: j in jobs <==> j in again
    ensures AnyCovers(jobs, c) <==> AnyCovers(again, c)
  {
    if i :| 0 <= i < |jobs| && Covered(jobs[i], c) {
      assert jobs[i] in again;
    }
    if i :| 0 <= i < |again| && Covered(again[i], c) {
      assert again[i] in jobs;
    }
  }

  /** In particular for two orders of the same list, and for doing one again. */
  lemma RollUpsPermute(t: Table, jobs: seq<Job>, again: seq<Job>)
    requires PastEpoch(t) && AllOk(jobs) && multiset(jobs) == multiset(again)
    ensures AllOk(again)
    ensures RollUpAll(t, jobs) == RollUpAll(t, again)
  {
    forall j ensures j in jobs <==> j in again {
      assert j in multiset(jobs) <==> j in multiset(again);
    }
    RollUpsInAnyOrder(t, jobs, again);
  }

  // ---- The table ----

  class MetricsTable {
    var rows: Table

    constructor ()
      ensures rows == map[]
    {
      rows := map[];
    }

    /** INSERT OR REPLACE. */
    method InsertMetrics(system: nat, res: nat, row: Row)
      modifies this
      ensures rows == old(rows)[Cell(system, res, row.ts) := row.values]
    {
      rows := rows[Cell(system, res, row.ts) := row.values];
    }

    /**
     * After it, every whole bucket of the window that has a minute row holds the aggregate of
     * the minute rows the table has for it; nothing else changed.
     */
    method RollUpTo(systems: set<nat>, toRes: nat, window: int, now: int)
      requires toRes > RES_1 && now >= 0 && PastEpoch(rows)
      modifies this
      ensures PastEpoch(rows) && SameMinutes(old(rows), rows)
      ensures forall c ::
                if Covered(Job(systems, toRes, window, now), c) && BucketRows(rows, c) != []
                then c in rows && rows[c] == Aggregate(BucketRows(rows, c))
                else (c in rows <==> c in old(rows)) && (c in rows ==> rows[c] == old(rows)[c])
    {
      var j := Job(systems, toRes, window, now);
      ghost var before := rows;
      RollUpKeepsMinutes(rows, j);
      rows := RollUp(rows, j);
      forall c: Cell ensures
        if Covered(j, c) && BucketRows(rows, c) != [] then c in rows && rows[c] == Aggregate(BucketRows(rows, c))
        else (c in rows <==> c in before) && (c in rows ==> rows[c] == before[c])
      {
        RollUpCorrect(before, j, c);
      }
    }
  }
}
