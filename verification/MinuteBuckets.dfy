/**
 * Averaging samples into 1-minute rows, one system at a time, compared with a plain group-by
 * over the whole history of samples. Metric values are reals.
 */
module MinuteBuckets {
  import opened Wrappers

  const NUM_METRIC_COLS: nat := 14
  const LIVE_RING_SIZE: nat := 180

  /** A sample's numbers in column order. */
  type Vec = v: seq<real> | |v| == NUM_METRIC_COLS witness seq(NUM_METRIC_COLS, i => 0.0)

  datatype Sample = Sample(now: int, v: Vec)

  datatype Row = Row(ts: int, values: Vec)

  /** A row handed to the store, with the number of samples in it. */
  datatype Emission = Emission(row: Row, n: nat)

  datatype Sys = Sys(bucketTS: int, sum: Vec, n: nat, latestAt: int, ring: seq<Sample>)

  /** Clock readings are arguments; a flush is forced when an agent leaves or the hub stops. */
  datatype Op = Record(now: int, v: Vec) | Flush(now: int, force: bool)

  /** The state together with everything recorded and emitted so far. */
  datatype Log = Log(sys: Sys, samples: seq<Sample>, emitted: seq<Emission>)

  function Zero(): Vec {
    seq(NUM_METRIC_COLS, i => 0.0)
  }

  function Add(a: Vec, b: Vec): Vec {
    seq(NUM_METRIC_COLS, i requires 0 <= i < NUM_METRIC_COLS => a[i] + b[i])
  }

  function Scaled(a: Vec, n: nat): Vec
    requires n > 0
  {
    seq(NUM_METRIC_COLS, i requires 0 <= i < NUM_METRIC_COLS => a[i] / n as real)
  }

  /** Go's integer division by a positive number. */
  function Quotient(a: int, b: int): int
    requires b > 0
  {
    if a >= 0 then a / b else -((-a) / b)
  }

  /** It rounds toward zero: what is left over is smaller than b and has the sign of a. */
  lemma QuotientMeaning(a: int, b: int)
    requires b > 0
    ensures var left := a - Quotient(a, b) * b;
            -b < left < b && (a >= 0 ==> left >= 0) && (a <= 0 ==> left <= 0)
  {
    if a >= 0 {
      assert a == a / b * b + a % b;
    } else {
      assert -a == (-a) / b * b + (-a) % b;
      assert -((-a) / b) * b == -((-a) / b * b);
    }
  }

  function MinuteOf(now: int): int {
    Quotient(now, 60) * 60
  }

  function LastSamples(s: seq<Sample>): seq<Sample> {
    if |s| <= LIVE_RING_SIZE then s else s[|s| - LIVE_RING_SIZE..]
  }

  const FRESH := Log(Sys(0, Zero(), 0, 0, []), [], [])

  function Take(l: Log): Log
    requires l.sys.n > 0
  {
    var row := Row(l.sys.bucketTS, Scaled(l.sys.sum, l.sys.n));
    l.(sys := l.sys.(sum := Zero(), n := 0), emitted := l.emitted + [Emission(row, l.sys.n)])
  }

  function Put(l: Log, now: int, v: Vec): Log {
    var s := l.sys;
    l.(sys := Sys(MinuteOf(now), Add(s.sum, v), s.n + 1, now, LastSamples(s.ring + [Sample(now, v)])),
       samples := l.samples + [Sample(now, v)])
  }

  function Next(l: Log, op: Op): Log {
    match op
    case Record(now, v) =>
      if l.sys.n > 0 && l.sys.bucketTS != MinuteOf(now) then Put(Take(l), now, v) else Put(l, now, v)
    case Flush(now, force) =>
      if l.sys.n == 0 || (!force && l.sys.bucketTS >= MinuteOf(now)) then l else Take(l)
  }

  function Run(ops: seq<Op>): Log {
    if ops == [] then FRESH else Next(Run(ops[..|ops| - 1]), ops[|ops| - 1])
  }

  // ---- The group-by ----

  /** The sum of a column over the samples of a minute. */
  function SumIn(samples: seq<Sample>, minute: int, c: nat): real
    requires c < NUM_METRIC_COLS
  {
    if samples == [] then 0.0
    else
      var last := samples[|samples| - 1];
      SumIn(samples[..|samples| - 1], minute, c) + if MinuteOf(last.now) == minute then last.v[c] else 0.0
  }

  function CountIn(samples: seq<Sample>, minute: int): nat {
    if samples == [] then 0
    else
      CountIn(samples[..|samples| - 1], minute) + if MinuteOf(samples[|samples| - 1].now) == minute then 1 else 0
  }

  /** The minute of a time is the full minute at or before it. */
  lemma MinuteMeaning(now: int)
    requires now >= 0
    ensures MinuteOf(now) % 60 == 0 && MinuteOf(now) <= now < MinuteOf(now) + 60
  {
  }

  lemma MinuteMonotone(a: int, b: int)
    requires a <= b
    ensures MinuteOf(a) <= MinuteOf(b)
  {
  }

  lemma InOne(samples: seq<Sample>, s: Sample, minute: int)
    ensures CountIn(samples + [s], minute) == CountIn(samples, minute) + if MinuteOf(s.now) == minute then 1 else 0
    ensures forall c: nat :: c < NUM_METRIC_COLS ==>
              SumIn(samples + [s], minute, c) ==
                SumIn(samples, minute, c) + if MinuteOf(s.now) == minute then s.v[c] else 0.0
  {
    assert (samples + [s])[..|samples|] == samples;
  }

  lemma {:induction false} NoneIn(samples: seq<Sample>, minute: int)
    requires CountIn(samples, minute) == 0
    ensures forall c: nat :: c < NUM_METRIC_COLS ==> SumIn(samples, minute, c) == 0.0
  {
    if samples != [] {
      NoneIn(samples[..|samples| - 1], minute);
    }
  }

  lemma {:induction false} CountPositive(samples: seq<Sample>, i: nat)
    requires i < |samples|
    ensures CountIn(samples, MinuteOf(samples[i].now)) > 0
  {
    if i < |samples| - 1 {
      CountPositive(samples[..|samples| - 1], i);
    }
  }

  /** The row is the mean of all samples of its minute. */
  ghost predicate IsMean(row: Row, n: nat, samples: seq<Sample>) {
    && n == CountIn(samples, row.ts) > 0
    && forall c: nat :: c < NUM_METRIC_COLS ==> row.values[c] == SumIn(samples, row.ts, c) / n as real
  }

  // ---- Invariant of runs with a clock that does not go back and no forced flush ----

  ghost predicate Ordered(ops: seq<Op>) {
    && (forall i, j :: 0 <= i < j < |ops| ==> ops[i].now <= ops[j].now)
    && (forall i :: 0 <= i < |ops| ==> !(ops[i].Flush? && ops[i].force))
  }

  ghost predicate OpenOk(l: Log) {
    && (l.sys.n == 0 ==> l.sys.sum == Zero())
    && (l.sys.n > 0 ==>
          && l.sys.n == CountIn(l.samples, l.sys.bucketTS)
          && forall c: nat :: c < NUM_METRIC_COLS ==> l.sys.sum[c] == SumIn(l.samples, l.sys.bucketTS, c))
  }

  /** Rows have increasing timestamps, all before the minute of the last clock reading. */
  ghost predicate EmittedOk(l: Log, clock: int) {
    && (forall i, j :: 0 <= i < j < |l.emitted| ==> l.emitted[i].row.ts < l.emitted[j].row.ts)
    && (forall i :: 0 <= i < |l.emitted| ==>
          && IsMean(l.emitted[i].row, l.emitted[i].n, l.samples)
          && l.emitted[i].row.ts < (if l.sys.n > 0 then l.sys.bucketTS else MinuteOf(clock)))
    && (l.sys.n > 0 ==> l.sys.bucketTS <= MinuteOf(clock))
  }

  /** Every minute with a sample has a row or is the open one. */
  ghost predicate Complete(l: Log) {
    forall m :: CountIn(l.samples, m) > 0 ==>
      (l.sys.n > 0 && l.sys.bucketTS == m) || exists i :: 0 <= i < |l.emitted| && l.emitted[i].row.ts == m
  }

  ghost predicate Inv(l: Log, clock: int) {
    OpenOk(l) && EmittedOk(l, clock) && Complete(l)
  }

  lemma TakeKeeps(l: Log, clock: int, now: int)
    requires Inv(l, clock) && l.sys.n > 0 && clock <= now && l.sys.bucketTS < MinuteOf(now)
    ensures Inv(Take(l), now)
  {
    var t := Take(l);
    assert IsMean(t.emitted[|l.emitted|].row, l.sys.n, l.samples);
    forall i | 0 <= i < |t.emitted|
      ensures IsMean(t.emitted[i].row, t.emitted[i].n, t.samples) && t.emitted[i].row.ts < MinuteOf(now)
    {
      assert i < |l.emitted| ==> t.emitted[i] == l.emitted[i];
    }
    TakeComplete(l);
  }

  lemma TakeComplete(l: Log)
    requires Complete(l) && l.sys.n > 0
    ensures Complete(Take(l))
  {
    var t := Take(l);
    forall m | CountIn(t.samples, m) > 0 ensures exists i :: 0 <= i < |t.emitted| && t.emitted[i].row.ts == m {
      if m == l.sys.bucketTS {
        assert t.emitted[|l.emitted|].row.ts == m;
      } else {
        var i :| 0 <= i < |l.emitted| && l.emitted[i].row.ts == m;
        assert t.emitted[i].row.ts == m;
      }
    }
  }

  /** Nothing of a minute that is still to come has been recorded yet. */
  lemma NewMinuteIsEmpty(l: Log, clock: int, now: int)
    requires Inv(l, clock) && l.sys.n == 0 && clock <= now
    ensures CountIn(l.samples, MinuteOf(now)) == 0
  {
    MinuteMonotone(clock, now);
  }

  lemma PutKeeps(l: Log, clock: int, now: int, v: Vec)
    requires Inv(l, clock) && clock <= now && (l.sys.n > 0 ==> l.sys.bucketTS == MinuteOf(now))
    ensures Inv(Put(l, now, v), now)
  {
    var t, m := Put(l, now, v), MinuteOf(now);
    MinuteMonotone(clock, now);
    if l.sys.n == 0 {
      NewMinuteIsEmpty(l, clock, now);
      NoneIn(l.samples, m);
    }
    InOne(l.samples, Sample(now, v), m);
    forall i | 0 <= i < |t.emitted| ensures IsMean(t.emitted[i].row, t.emitted[i].n, t.samples) {
      InOne(l.samples, Sample(now, v), t.emitted[i].row.ts);
    }
    forall k | CountIn(t.samples, k) > 0
      ensures k == m || exists i :: 0 <= i < |t.emitted| && t.emitted[i].row.ts == k
    {
      InOne(l.samples, Sample(now, v), k);
    }
  }

  lemma NextKeeps(l: Log, clock: int, op: Op)
    requires Inv(l, clock) && clock <= op.now && !(op.Flush? && op.force)
    ensures Inv(Next(l, op), op.now)
  {
    MinuteMonotone(clock, op.now);
    match op
    case Record(now, v) =>
      if l.sys.n > 0 && l.sys.bucketTS != MinuteOf(now) {
        TakeKeeps(l, clock, now);
        PutKeeps(Take(l), now, now, v);
      } else {
        PutKeeps(l, clock, now, v);
      }
    case Flush(now, force) =>
      if l.sys.n > 0 && l.sys.bucketTS < MinuteOf(now) {
        TakeKeeps(l, clock, now);
      }
  }

  lemma {:induction false} RunInv(ops: seq<Op>)
    requires Ordered(ops) && ops != []
    ensures Inv(Run(ops), ops[|ops| - 1].now)
    decreases |ops|
  {
    var init, op := ops[..|ops| - 1], ops[|ops| - 1];
    if init == [] {
      NextKeeps(FRESH, op.now, op);
    } else {
      RunInv(init);
      NextKeeps(Run(init), init[|init| - 1].now, op);
    }
  }

  // ---- Theorems ----

  /** The samples a list of operations records. */
  function Recorded(ops: seq<Op>): seq<Sample> {
    if ops == [] then []
    else
      var last := ops[|ops| - 1];
      Recorded(ops[..|ops| - 1]) + if last.Record? then [Sample(last.now, last.v)] else []
  }

  lemma {:induction false} SamplesAreRecorded(ops: seq<Op>)
    ensures Run(ops).samples == Recorded(ops)
    decreases |ops|
  {
    if ops != [] {
      SamplesAreRecorded(ops[..|ops| - 1]);
    }
  }

  /**
   * With a clock that does not go back and no forced flush, emitted rows have strictly
   * increasing timestamps, each is the mean of all samples of its minute, and together with the
   * open bucket they cover exactly the minutes that have samples.
   */
  lemma RowsAreGroupBy(ops: seq<Op>)
    requires Ordered(ops)
    ensures var l, samples := Run(ops), Recorded(ops);
            && (forall i, j :: 0 <= i < j < |l.emitted| ==> l.emitted[i].row.ts < l.emitted[j].row.ts)
            && (forall i :: 0 <= i < |l.emitted| ==> IsMean(l.emitted[i].row, l.emitted[i].n, samples))
            && (l.sys.n > 0 ==>
                  && IsMean(Row(l.sys.bucketTS, Scaled(l.sys.sum, l.sys.n)), l.sys.n, samples)
                  && forall i :: 0 <= i < |l.emitted| ==> l.emitted[i].row.ts < l.sys.bucketTS)
            && (forall k: nat :: k < |samples| ==>
                  (l.sys.n > 0 && MinuteOf(samples[k].now) == l.sys.bucketTS)
                  || exists i :: 0 <= i < |l.emitted| && l.emitted[i].row.ts == MinuteOf(samples[k].now))
  {
    SamplesAreRecorded(ops);
    if ops != [] {
      RunInv(ops);
      var samples := Recorded(ops);
      forall k: nat | k < |samples| ensures CountIn(samples, MinuteOf(samples[k].now)) > 0 {
        CountPositive(samples, k);
      }
    }
  }

  /** A flush writes the open bucket if its minute is over or it is forced, and empties it. */
  lemma FlushMeaning(l: Log, now: int, force: bool)
    requires now >= 0
    ensures var t := Next(l, Flush(now, force));
            if l.sys.n > 0 && (force || l.sys.bucketTS < now - now % 60) then
              && t.sys.n == 0 && |t.emitted| == |l.emitted| + 1 && t.emitted[..|l.emitted|] == l.emitted
              && t.emitted[|l.emitted|].row.ts == l.sys.bucketTS && t.emitted[|l.emitted|].n == l.sys.n
              && |t.emitted[|l.emitted|].row.values| == 14
              && forall c: nat :: c < NUM_METRIC_COLS ==>
                   t.emitted[|l.emitted|].row.values[c] * l.sys.n as real == l.sys.sum[c]
            else t == l
  {
    if l.sys.n > 0 {
      forall c: nat | c < NUM_METRIC_COLS ensures Scaled(l.sys.sum, l.sys.n)[c] * l.sys.n as real == l.sys.sum[c] {
        assert l.sys.sum[c] / l.sys.n as real * l.sys.n as real == l.sys.sum[c];
      }
    }
  }

  /** The total of a column over all samples. */
  function Total(samples: seq<Sample>, c: nat): real
    requires c < NUM_METRIC_COLS
  {
    if samples == [] then 0.0 else Total(samples[..|samples| - 1], c) + samples[|samples| - 1].v[c]
  }

  function EmittedTotal(es: seq<Emission>, c: nat): real
    requires c < NUM_METRIC_COLS
  {
    if es == [] then 0.0
    else EmittedTotal(es[..|es| - 1], c) + es[|es| - 1].row.values[c] * es[|es| - 1].n as real
  }

  function EmittedCount(es: seq<Emission>): nat {
    if es == [] then 0 else EmittedCount(es[..|es| - 1]) + es[|es| - 1].n
  }

  /** Nothing is lost or counted twice. */
  predicate Conserved(l: Log, c: nat)
    requires c < NUM_METRIC_COLS
  {
    && EmittedTotal(l.emitted, c) + l.sys.sum[c] == Total(l.samples, c)
    && EmittedCount(l.emitted) + l.sys.n == |l.samples|
  }

  lemma TakeConserves(l: Log, c: nat)
    requires c < NUM_METRIC_COLS && l.sys.n > 0 && Conserved(l, c)
    ensures Conserved(Take(l), c)
  {
    var t := Take(l);
    assert t.emitted[..|l.emitted|] == l.emitted;
    var n := l.sys.n as real;
    assert l.sys.sum[c] / n * n == l.sys.sum[c];
  }

  lemma PutConserves(l: Log, now: int, v: Vec, c: nat)
    requires c < NUM_METRIC_COLS && Conserved(l, c)
    ensures Conserved(Put(l, now, v), c)
  {
    assert Put(l, now, v).samples[..|l.samples|] == l.samples;
  }

  /**
   * Whatever the clock does and however often a flush is forced, the sums and counts of the
   * emitted rows and the open bucket are those of the samples.
   */
  lemma SamplesConserved(ops: seq<Op>, c: nat)
    requires c < NUM_METRIC_COLS
    ensures var l, samples := Run(ops), Recorded(ops);
            && EmittedTotal(l.emitted, c) + l.sys.sum[c] == Total(samples, c)
            && EmittedCount(l.emitted) + l.sys.n == |samples|
  {
    SamplesAreRecorded(ops);
    RunConserves(ops, c);
  }

  lemma {:induction false} RunConserves(ops: seq<Op>, c: nat)
    requires c < NUM_METRIC_COLS
    ensures Conserved(Run(ops), c)
    decreases |ops|
  {
    if ops != [] {
      var l, op := Run(ops[..|ops| - 1]), ops[|ops| - 1];
      RunConserves(ops[..|ops| - 1], c);
      if l.sys.n > 0 {
        TakeConserves(l, c);
      }
      if op.Record? {
        PutConserves(l, op.now, op.v, c);
        if l.sys.n > 0 {
          PutConserves(Take(l), op.now, op.v, c);
        }
      }
    }
  }

  /** The live chart shows the last 180 samples, and the newest of them is when the system was last heard of. */
  lemma {:induction false} RingIsTail(ops: seq<Op>)
    ensures var sys, samples := Run(ops).sys, Recorded(ops);
            && |sys.ring| == (if |samples| < 180 then |samples| else 180)
            && sys.ring == samples[|samples| - |sys.ring|..]
            && (samples != [] ==> sys.latestAt == samples[|samples| - 1].now)
  {
    RingIsLast(ops);
    LatestIsLast(ops);
  }

  lemma {:induction false} LatestIsLast(ops: seq<Op>)
    ensures Recorded(ops) != [] ==> Run(ops).sys.latestAt == Recorded(ops)[|Recorded(ops)| - 1].now
    decreases |ops|
  {
    if ops != [] {
      LatestIsLast(ops[..|ops| - 1]);
    }
  }

  lemma {:induction false} RingIsLast(ops: seq<Op>)
    ensures Run(ops).sys.ring == LastSamples(Recorded(ops))
    decreases |ops|
  {
    if ops != [] {
      var l, op := Run(ops[..|ops| - 1]), ops[|ops| - 1];
      RingIsLast(ops[..|ops| - 1]);
      if op.Record? {
        LastOne(Recorded(ops[..|ops| - 1]), Sample(op.now, op.v));
      }
    }
  }

  lemma LastOne(s: seq<Sample>, x: Sample)
    ensures LastSamples(LastSamples(s) + [x]) == LastSamples(s + [x])
  {
  }

  // ---- The object ----

  class SysState {
    const sum: array<real>
    var bucketTS: int
    var n: nat
    var latestAt: int
    var ring: seq<Sample>
    ghost var ops: seq<Op>

    ghost predicate Valid()
      reads this, sum
    {
      sum.Length == NUM_METRIC_COLS && Run(ops).sys == Sys(bucketTS, sum[..], n, latestAt, ring)
    }

    constructor ()
      ensures Valid() && ops == [] && fresh(sum)
    {
      sum := new real[NUM_METRIC_COLS](i => 0.0);
      bucketTS, n, latestAt, ring, ops := 0, 0, 0, [], [];
      new;
      assert sum[..] == Zero();
    }

    /** The mean of the open bucket; the bucket is emptied. */
    method TakeBucket() returns (row: Row)
      requires sum.Length == NUM_METRIC_COLS && n > 0
      modifies this`n, sum
      ensures row == Row(bucketTS, Scaled(old(sum[..]), old(n)))
      ensures sum[..] == Zero() && n == 0
    {
      var values := seq(NUM_METRIC_COLS, i => 0.0);
      for i := 0 to NUM_METRIC_COLS
        invariant |values| == NUM_METRIC_COLS
        invariant forall j :: 0 <= j < i ==> values[j] == sum[j] / n as real
      {
        values := values[i := sum[i] / n as real];
      }
      row := Row(bucketTS, values);
      for i := 0 to NUM_METRIC_COLS
        invariant forall j :: 0 <= j < i ==> sum[j] == 0.0
      {
        sum[i] := 0.0;
      }
      n := 0;
    }

    method AddToSum(v: Vec)
      requires sum.Length == NUM_METRIC_COLS
      modifies sum
      ensures sum[..] == Add(old(sum[..]), v)
    {
      for i := 0 to NUM_METRIC_COLS
        invariant forall j :: 0 <= j < NUM_METRIC_COLS ==> sum[j] == old(sum[j]) + if j < i then v[j] else 0.0
      {
        sum[i] := sum[i] + v[i];
      }
    }

    /** Adds one sample; a finished bucket is returned for the store. */
    method RecordSample(now: int, v: Vec) returns (done: Option<Row>)
      requires Valid()
      modifies this, sum
      ensures Valid() && ops == old(ops) + [Record(now, v)]
      ensures Run(ops).emitted == Run(old(ops)).emitted + if done.Some? then [Emission(done.value, old(n))] else []
    {
      assert (ops + [Record(now, v)])[..|ops|] == ops;
      done := None;
      if n > 0 && bucketTS != MinuteOf(now) {
        var row := TakeBucket();
        done := Some(row);
      }
      PutSample(now, v);
      ops := ops + [Record(now, v)];
    }

    method PutSample(now: int, v: Vec)
      requires sum.Length == NUM_METRIC_COLS
      modifies this`bucketTS, this`n, this`latestAt, this`ring, sum
      ensures sum[..] == Add(old(sum[..]), v) && bucketTS == MinuteOf(now) && n == old(n) + 1 && latestAt == now
      ensures ring == LastSamples(old(ring) + [Sample(now, v)])
    {
      bucketTS := MinuteOf(now);
      AddToSum(v);
      n := n + 1;
      latestAt := now;
      ring := ring + [Sample(now, v)];
      if |ring| > LIVE_RING_SIZE {
        ring := ring[|ring| - LIVE_RING_SIZE..];
      }
    }

    /** Writes a finished bucket; force also writes the one in progress. */
    method FlushState(now: int, force: bool) returns (done: Option<Row>)
      requires Valid()
      modifies this, sum
      ensures Valid() && ops == old(ops) + [Flush(now, force)]
      ensures Run(ops).emitted == Run(old(ops)).emitted + if done.Some? then [Emission(done.value, old(n))] else []
    {
      assert (ops + [Flush(now, force)])[..|ops|] == ops;
      done := None;
      if !(n == 0 || (!force && bucketTS >= MinuteOf(now))) {
        var row := TakeBucket();
        done := Some(row);
      }
      ops := ops + [Flush(now, force)];
    }

    /** What the open bucket would be as a row, with the time of the last sample. */
    method CurrentBucket() returns (row: Option<Row>)
      requires Valid()
      ensures row == if n == 0 then None else Some(Row(latestAt, Scaled(Run(ops).sys.sum, n)))
    {
      if n == 0 {
        return None;
      }
      var values := seq(NUM_METRIC_COLS, i => 0.0);
      for i := 0 to NUM_METRIC_COLS
        invariant |values| == NUM_METRIC_COLS
        invariant forall j :: 0 <= j < i ==> values[j] == sum[j] / n as real
      {
        values := values[i := sum[i] / n as real];
      }
      assert values == Scaled(sum[..], n);
      row := Some(Row(latestAt, values));
    }
  }
}
