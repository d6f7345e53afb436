/**
 * A script run in progress: output is written in arbitrary chunks, viewers subscribe and
 * leave at any time, and the run finishes. Every operation is one section under the run's
 * mutex, so an interleaving of goroutines is a sequence of operations.
 *
 * `Run` and `Step` describe the state and one operation on values, with each target's whole
 * byte stream and each viewer's whole event history. `ActiveRun` is the object itself.
 */
module ActiveRuns {
  import opened Wrappers
  import opened Utf8
  import opened TailBuffers

  const MAX_RUN_OUTPUT: nat := 128 * 1024
  const CHANNEL_SIZE: nat := 256

  datatype Status = Pending | Running | Done | Failed | Skipped | Canceled

  datatype Target = Target(system: int, status: Status, truncated: bool)

  datatype Event =
    | Output(target: nat, data: seq<Byte>)
    | TargetChanged(target: nat, to: Target)
    | Finished

  /** A viewer: the snapshot it was sent first, and its channel. */
  datatype Viewer = Viewer(
    snapshot: seq<seq<Byte>>, // output per target at subscription
    shown: seq<Target>,       // the targets as they were then
    offered: seq<Event>,      // everything published while it was subscribed
    got: seq<Event>,          // received by the viewer
    queue: seq<Event>,        // waiting in its channel
    missed: bool,             // an event found the channel full
    closed: bool)

  datatype Run = Run(
    max: nat,
    streams: seq<seq<Byte>>,  // per target: everything written
    partial: seq<seq<Byte>>,  // per target: held back from viewers
    targets: seq<Target>,
    subs: Option<set<nat>>,   // None is Go's nil map
    done: bool,
    viewers: map<nat, Viewer>,
    from: map<nat, seq<nat>>, // per viewer and target: where in the stream its snapshot began
    upto: map<nat, seq<nat>>, // and how much of the stream was shown when it left
    panicked: bool)           // sent on or closed a closed channel, or wrote to a nil map

  datatype Op =
    | Write(i: nat, p: seq<Byte>)
    | Update(i: nat, status: Status)
    | Subscribe(v: nat)
    | Unsubscribe(v: nat)
    | Receive(v: nat)
    | Finish

  function Start(targets: seq<Target>, max: nat): Run {
    Run(max, seq(|targets|, i => []), seq(|targets|, i => []),
        seq(|targets|, i requires 0 <= i < |targets| => targets[i].(truncated := false)),
        Some({}), false, map[], map[], map[], false)
  }

  /** Ranging over a nil map finds nobody. */
  function Members(subs: Option<set<nat>>): set<nat> {
    if subs.Some? then subs.value else {}
  }

  function Subs(s: Run): set<nat> {
    Members(s.subs)
  }

  /** A non-blocking send: a full channel loses the event. */
  function Offer(c: Viewer, ev: Event): Viewer {
    if |c.queue| < CHANNEL_SIZE then c.(offered := c.offered + [ev], queue := c.queue + [ev])
    else c.(offered := c.offered + [ev], missed := true)
  }

  function OfferAll(viewers: map<nat, Viewer>, to: set<nat>, ev: Event): map<nat, Viewer> {
    map v | v in viewers :: if v in to then Offer(viewers[v], ev) else viewers[v]
  }

  function CloseAll(viewers: map<nat, Viewer>, to: set<nat>): map<nat, Viewer> {
    map v | v in viewers :: if v in to then viewers[v].(closed := true) else viewers[v]
  }

  ghost predicate AnyClosed(s: Run) {
    exists v :: v in Subs(s) && v in s.viewers && s.viewers[v].closed
  }

  ghost function Publish(s: Run, ev: Event): Run {
    s.(viewers := OfferAll(s.viewers, Subs(s), ev), panicked := s.panicked || AnyClosed(s))
  }

  /** Tells every subscriber that the run is done and closes it; both need an open channel. */
  ghost function DoFinish(s: Run): Run {
    s.(done := true, viewers := CloseAll(OfferAll(s.viewers, Subs(s), Finished), Subs(s)),
       panicked := s.panicked || AnyClosed(s), subs := None, upto := LeaveAll(s.upto, Subs(s), Ends(s)))
  }

  function LeaveAll(upto: map<nat, seq<nat>>, who: set<nat>, ends: seq<nat>): map<nat, seq<nat>> {
    map v | v in upto :: if v in who then ends else upto[v]
  }

  /** Everything of a stream that may be shown. */
  ghost function Shown(stream: seq<Byte>): seq<Byte> {
    stream[..Complete(stream)]
  }

  /** Where a snapshot begins: at the first visible byte, unless even that is held back. */
  ghost function FirstShown(stream: seq<Byte>, max: nat): nat {
    var first := |stream| - |Visible(stream, max)|;
    if first <= |Shown(stream)| then first else |Shown(stream)|
  }

  /** How much of every stream is shown. */
  ghost function Ends(s: Run): seq<nat> {
    seq(|s.streams|, i requires 0 <= i < |s.streams| => |Shown(s.streams[i])|)
  }

  ghost function Starts(s: Run): seq<nat> {
    seq(|s.streams|, i requires 0 <= i < |s.streams| => FirstShown(s.streams[i], s.max))
  }

  /** The visible output without the bytes still held back. */
  function SnapshotOf(stream: seq<Byte>, partial: seq<Byte>, max: nat): (r: seq<Byte>) {
    var b := Visible(stream, max);
    b[..|b| - if |b| < |partial| then |b| else |partial|]
  }

  function Snapshot(s: Run): (r: seq<seq<Byte>>)
    requires |s.partial| == |s.streams|
  {
    seq(|s.streams|, i requires 0 <= i < |s.streams| => SnapshotOf(s.streams[i], s.partial[i], s.max))
  }

  ghost function DoWrite(s: Run, i: nat, p: seq<Byte>): Run
    requires i < |s.streams| == |s.partial| == |s.targets|
  {
    var live := s.partial[i] + p;
    var n := Complete(live);
    var stream := s.streams[i] + p;
    var s1 := s.(streams := s.streams[i := stream],
                 targets := s.targets[i := s.targets[i].(truncated := |stream| > s.max)],
                 partial := s.partial[i := live[n..]]);
    if n > 0 && Subs(s) != {} then Publish(s1, Output(i, live[..n])) else s1
  }

  /** One operation. Operations on targets or viewers that do not exist change nothing. */
  ghost function Step(s: Run, op: Op): Run
    requires |s.streams| == |s.partial| == |s.targets|
  {
    match op
    case Write(i, p) =>
      if i < |s.streams| then DoWrite(s, i, p) else s
    case Update(i, status) =>
      if i < |s.targets| then
        var t := s.targets[i].(status := status);
        Publish(s.(targets := s.targets[i := t]), TargetChanged(i, t))
      else s
    case Subscribe(v) => // v is a new channel
      if v in s.viewers then s
      else
        var s1 := s.(viewers := s.viewers[v := Viewer(Snapshot(s), s.targets, [], [], [], false, false)],
                     from := s.from[v := Starts(s)], upto := s.upto[v := Ends(s)]);
        if s.done then s1
        else s1.(subs := Some(Subs(s) + {v}), panicked := s.panicked || s.subs.None?)
    case Unsubscribe(v) =>
      if s.subs.Some? then
        s.(subs := Some(Subs(s) - {v}), upto := LeaveAll(s.upto, Subs(s) * {v}, Ends(s)))
      else s
    case Receive(v) =>
      if v in s.viewers && s.viewers[v].queue != [] then
        var c := s.viewers[v];
        s.(viewers := s.viewers[v := c.(got := c.got + [c.queue[0]], queue := c.queue[1..])])
      else s
    case Finish => DoFinish(s)
  }

  ghost function RunOps(s: Run, ops: seq<Op>): (r: Run)
    requires |s.streams| == |s.partial| == |s.targets|
    ensures |r.streams| == |r.partial| == |r.targets| == |s.streams|
    decreases |ops|
  {
    if ops == [] then s else
      var before := RunOps(s, ops[..|ops| - 1]);
      StepShaped(before, ops[|ops| - 1]);
      Step(before, ops[|ops| - 1])
  }

  lemma StepShaped(s: Run, op: Op)
    requires |s.streams| == |s.partial| == |s.targets|
    ensures var r := Step(s, op); |r.streams| == |r.partial| == |r.targets| == |s.streams|
  {
    match op
    case Write(i, p) => if i < |s.streams| { WriteFields(s, i, p); }
    case Finish => FinishFields(s);
    case _ =>
  }

  // ---- What a viewer has seen ----

  /** The output of target i in a list of events, in order. */
  function OutputOf(events: seq<Event>, i: nat): seq<Byte> {
    if events == [] then []
    else
      var last := events[|events| - 1];
      OutputOf(events[..|events| - 1], i) + if last.Output? && last.target == i then last.data else []
  }

  function Seen(c: Viewer, i: nat): seq<Byte>
    requires i < |c.snapshot|
  {
    c.snapshot[i] + OutputOf(c.offered, i)
  }

  ghost predicate WholeCharacters(c: Viewer, i: nat)
    requires i < |c.snapshot|
  {
    WellFormed(c.snapshot[i]) && forall ev :: ev in c.offered && ev.Output? && ev.target == i ==> WellFormed(ev.data)
  }

  // ---- The invariant ----

  ghost predicate Shaped(s: Run) {
    |s.streams| == |s.partial| == |s.targets|
  }

  ghost predicate OutputInv(s: Run)
    requires Shaped(s)
  {
    forall i :: 0 <= i < |s.streams| ==>
      && s.partial[i] == s.streams[i][Complete(s.streams[i])..]
      && (s.targets[i].truncated <==> |s.streams[i]| > s.max)
  }

  /** A channel is closed once, by Finish, and "done" is the last event it was offered. */
  ghost predicate ChannelInv(c: Viewer) {
    && (!c.missed ==> c.got + c.queue == c.offered)
    && |c.queue| <= CHANNEL_SIZE
    && (forall k :: 0 <= k < |c.offered| ==> (c.offered[k] == Finished ==> c.closed && k == |c.offered| - 1))
    && (c.closed ==> c.offered != [] && c.offered[|c.offered| - 1] == Finished)
  }

  ghost predicate SubsInv(s: Run) {
    && !s.panicked
    && (s.done <==> s.subs.None?)
    && Subs(s) <= s.viewers.Keys
    && (forall v :: v in Subs(s) ==> !s.viewers[v].closed)
    && (forall v :: v in s.viewers ==> ChannelInv(s.viewers[v]))
  }

  ghost predicate SeenInv(s: Run)
    requires Shaped(s)
  {
    s.from.Keys == s.upto.Keys == s.viewers.Keys && forall v :: v in s.viewers ==> ViewerSeen(s, v)
  }

  ghost predicate ViewerSeen(s: Run, v: nat) {
    && v in s.viewers && v in s.from && v in s.upto
    && |s.viewers[v].snapshot| == |s.from[v]| == |s.upto[v]| == |s.streams|
    && forall i :: 0 <= i < |s.streams| ==> TargetSeen(s, v, i)
  }

  /** A write changes one target's stream, truncation mark and held-back bytes. */
  ghost predicate Wrote(s: Run, i: nat, p: seq<Byte>, t: Run)
    requires Shaped(s) && i < |s.streams|
  {
    var live := s.partial[i] + p;
    && t.streams == s.streams[i := s.streams[i] + p]
    && t.partial == s.partial[i := live[Complete(live)..]]
    && t.targets == s.targets[i := s.targets[i].(truncated := |s.streams[i] + p| > s.max)]
    && t.subs == s.subs && t.done == s.done && t.max == s.max
    && t.viewers == if Complete(live) > 0 && Subs(s) != {}
                    then OfferAll(s.viewers, Subs(s), Output(i, live[..Complete(live)])) else s.viewers
  }

  lemma WriteFields(s: Run, i: nat, p: seq<Byte>)
    requires Shaped(s) && i < |s.streams|
    ensures Wrote(s, i, p, DoWrite(s, i, p))
  {
  }

  lemma FinishFields(s: Run)
    requires Shaped(s)
    ensures var t := Step(s, Finish);
            && t.streams == s.streams && t.partial == s.partial && t.targets == s.targets && t.max == s.max
            && t.subs == None && t.done && t.viewers == CloseAll(OfferAll(s.viewers, Subs(s), Finished), Subs(s))
            && t.from == s.from && t.upto == LeaveAll(s.upto, Subs(s), Ends(s))
            && t.panicked == (s.panicked || AnyClosed(s))
  {
  }

  /** Viewer c has seen exactly the bytes of target i's stream from lo up to hi. */
  ghost predicate SeenOk(c: Viewer, i: nat, lo: nat, hi: nat, stream: seq<Byte>, max: nat)
    requires i < |c.snapshot|
  {
    && lo <= hi <= |Shown(stream)| && Seen(c, i) == Shown(stream)[lo..hi] && lo <= FirstShown(stream, max)
    && (Beginning(stream) && max >= UTF_MAX ==> WholeCharacters(c, i))
  }

  /** A subscribed viewer has everything shown by now, one that left what was shown then. */
  ghost function SeenUpto(s: Run, v: nat, i: nat): nat
    requires i < |s.streams| && v in s.upto && i < |s.upto[v]|
  {
    if v in Subs(s) then |Shown(s.streams[i])| else s.upto[v][i]
  }

  ghost predicate TargetSeen(s: Run, v: nat, i: nat)
    requires v in s.viewers && i < |s.streams| && i < |s.viewers[v].snapshot|
    requires v in s.from && i < |s.from[v]| && v in s.upto && i < |s.upto[v]|
  {
    SeenOk(s.viewers[v], i, s.from[v][i], SeenUpto(s, v, i), s.streams[i], s.max)
  }

  ghost predicate Inv(s: Run) {
    Shaped(s) && OutputInv(s) && SubsInv(s) && SeenInv(s)
  }

  // ---- Sequence facts ----

  lemma BeginningOfPrefix(s: seq<Byte>, p: seq<Byte>)
    requires Beginning(s + p)
    ensures Beginning(s)
  {
    var rest :| WellFormed(s + p + rest);
    assert s + p + rest == s + (p + rest);
  }

  /** A write moves the newly completed bytes, and only those, from held back to shown. */
  lemma WriteShows(stream: seq<Byte>, p: seq<Byte>)
    ensures var live := stream[Complete(stream)..] + p;
            && Shown(stream + p) == Shown(stream) + live[..Complete(live)]
            && (stream + p)[Complete(stream + p)..] == live[Complete(live)..]
  {
    ChunkingStep(stream, p);
    SplitTwice(stream, p, Complete(stream), Complete(stream[Complete(stream)..] + p));
  }

  /** Cutting s at k and what follows with p at n is cutting the whole at k + n. */
  lemma SplitTwice<T>(s: seq<T>, p: seq<T>, k: nat, n: nat)
    requires k <= |s| && n <= |s[k..] + p|
    ensures (s + p)[..k + n] == s[..k] + (s[k..] + p)[..n]
    ensures (s + p)[k + n..] == (s[k..] + p)[n..]
  {
    assert s + p == s[..k] + (s[k..] + p);
  }

  lemma WriteIsWholeCharacters(stream: seq<Byte>, p: seq<Byte>)
    requires Beginning(stream + p)
    ensures var live := stream[Complete(stream)..] + p; WellFormed(live[..Complete(live)])
  {
    WriteShows(stream, p);
    var rest :| WellFormed(stream + p + rest);
    CompleteIsBoundary(stream + p, rest);
    assert stream + p + rest == stream + (p + rest);
    CompleteIsBoundary(stream, p + rest);
    var live := stream[Complete(stream)..] + p;
    Cancel(Shown(stream), live[..Complete(live)]);
  }

  /** A suffix b of s without the bytes after k is what s has before k, from where b begins. */
  lemma SuffixBefore<T>(s: seq<T>, b: seq<T>, k: nat)
    requires k <= |s| && |b| <= |s| && b == s[|s| - |b|..]
    ensures var first, h := |s| - |b|, |s| - k;
            b[..|b| - if |b| < h then |b| else h] == s[..k][if first <= k then first else k..]
  {
  }

  /** A snapshot is what is shown from the first visible byte on. */
  lemma SnapshotIsShown(stream: seq<Byte>, max: nat)
    ensures SnapshotOf(stream, stream[Complete(stream)..], max) == Shown(stream)[FirstShown(stream, max)..]
  {
    VisibleIsSuffix(stream, max);
    SuffixBefore(stream, Visible(stream, max), Complete(stream));
  }

  /** What is visible begins later and later as output is written. */
  lemma VisibleBeginsLater(stream: seq<Byte>, p: seq<Byte>, max: nat)
    ensures |stream| - |Visible(stream, max)| <= |stream + p| - |Visible(stream + p, max)|
  {
    if |stream| > max {
      var kept, kept2 := Last(stream, max), Last(stream + p, max);
      var k, k2 := Skip(kept, 0), Skip(kept2, 0);
      SkipMeaning(kept, 0);
      SkipMeaning(kept2, 0);
      assert forall j :: 0 <= j && |p| + j < max ==> kept2[j] == kept[|p| + j];
      if |p| < k {
        assert kept2[k - |p|] == kept[k];
        assert forall j :: 0 <= j < k - |p| ==> !RuneStart(kept2[j]);
      }
    }
  }

  lemma FirstShownGrows(stream: seq<Byte>, p: seq<Byte>, max: nat)
    ensures FirstShown(stream, max) <= FirstShown(stream + p, max)
  {
    VisibleBeginsLater(stream, p, max);
    WriteShows(stream, p);
  }

  lemma SnapshotIsWholeCharacters(stream: seq<Byte>, max: nat)
    requires Beginning(stream) && max >= UTF_MAX
    ensures WellFormed(SnapshotOf(stream, stream[Complete(stream)..], max))
  {
    var first, k := |stream| - |Visible(stream, max)|, Complete(stream);
    SnapshotIsRange(stream, max);
    if first <= k {
      var rest :| WellFormed(stream + rest);
      RangeIsWhole(stream, rest, max);
    }
  }

  lemma SnapshotIsRange(stream: seq<Byte>, max: nat)
    ensures var first, k := |stream| - |Visible(stream, max)|, Complete(stream);
            SnapshotOf(stream, stream[k..], max) == if first <= k then stream[first..k] else []
  {
    SnapshotIsShown(stream, max);
  }

  lemma RangeIsWhole(stream: seq<Byte>, rest: seq<Byte>, max: nat)
    requires WellFormed(stream + rest) && max >= UTF_MAX
    requires |stream| - |Visible(stream, max)| <= Complete(stream)
    ensures WellFormed(stream[|stream| - |Visible(stream, max)|..Complete(stream)])
  {
    VisibleStartsOnCharacter(stream, rest, max);
    CompleteIsBoundary(stream, rest);
    BetweenBoundaries(stream, |stream| - |Visible(stream, max)|, Complete(stream));
  }

  // ---- Every operation keeps the invariant ----

  lemma OutputOfOne(events: seq<Event>, ev: Event, i: nat)
    ensures OutputOf(events + [ev], i) == OutputOf(events, i) + if ev.Output? && ev.target == i then ev.data else []
  {
    assert (events + [ev])[..|events|] == events;
  }

  /** An event that is not output of i leaves what a viewer saw of i unchanged. */
  lemma OfferOther(c: Viewer, ev: Event, i: nat, lo: nat, hi: nat, stream: seq<Byte>, max: nat)
    requires i < |c.snapshot| && SeenOk(c, i, lo, hi, stream, max)
    requires !(ev.Output? && ev.target == i)
    ensures SeenOk(Offer(c, ev), i, lo, hi, stream, max)
  {
    OutputOfOne(c.offered, ev, i);
    assert Seen(Offer(c, ev), i) == Seen(c, i);
  }

  lemma OfferWhole(c: Viewer, i: nat, data: seq<Byte>)
    requires i < |c.snapshot| && WholeCharacters(c, i) && WellFormed(data)
    ensures WholeCharacters(Offer(c, Output(i, data)), i)
  {
  }

  lemma RangeGrows(b: seq<Byte>, d: seq<Byte>, lo: nat)
    requires lo <= |b|
    ensures b[lo..|b|] + d == (b + d)[lo..|b + d|]
  {
  }

  /** Output of i, offered as it becomes shown, extends what a viewer saw without gap or overlap. */
  lemma OfferOutput(c: Viewer, i: nat, lo: nat, shown: seq<Byte>, data: seq<Byte>)
    requires i < |c.snapshot| && lo <= |shown| && Seen(c, i) == shown[lo..|shown|]
    ensures Seen(Offer(c, Output(i, data)), i) == (shown + data)[lo..|shown + data|]
  {
    var d := Offer(c, Output(i, data));
    assert Seen(d, i) == Seen(c, i) + data by {
      OutputOfOne(c.offered, Output(i, data), i);
    }
    RangeGrows(shown, data, lo);
  }

  lemma OfferWritten(c: Viewer, i: nat, lo: nat, stream: seq<Byte>, p: seq<Byte>, max: nat)
    requires i < |c.snapshot| && SeenOk(c, i, lo, |Shown(stream)|, stream, max)
    ensures var live := stream[Complete(stream)..] + p;
            SeenOk(Offer(c, Output(i, live[..Complete(live)])), i, lo, |Shown(stream + p)|, stream + p, max)
  {
    var live := stream[Complete(stream)..] + p;
    WriteShows(stream, p);
    if Beginning(stream + p) {
      BeginningOfPrefix(stream, p);
      WriteIsWholeCharacters(stream, p);
    }
    FirstShownGrows(stream, p, max);
    OfferOutput(c, i, lo, Shown(stream), live[..Complete(live)]);
    if Beginning(stream + p) && max >= UTF_MAX {
      OfferWhole(c, i, live[..Complete(live)]);
    }
  }

  /** A write a viewer is not told about keeps what it saw where it was in the stream. */
  lemma NotOffered(c: Viewer, i: nat, lo: nat, hi: nat, stream: seq<Byte>, p: seq<Byte>, max: nat)
    requires i < |c.snapshot| && SeenOk(c, i, lo, hi, stream, max)
    ensures SeenOk(c, i, lo, hi, stream + p, max)
    ensures Complete(stream[Complete(stream)..] + p) == 0 ==> Shown(stream + p) == Shown(stream)
  {
    var live := stream[Complete(stream)..] + p;
    WriteShows(stream, p);
    if Beginning(stream + p) {
      BeginningOfPrefix(stream, p);
    }
    FirstShownGrows(stream, p, max);
    PrefixRange(Shown(stream), live[..Complete(live)], lo, hi);
  }

  lemma PrefixRange(b: seq<Byte>, d: seq<Byte>, lo: nat, hi: nat)
    requires lo <= hi <= |b|
    ensures (b + d)[lo..hi] == b[lo..hi]
    ensures d == [] ==> b + d == b
  {
  }

  lemma OfferKeepsChannel(c: Viewer, ev: Event)
    requires ChannelInv(c) && !c.closed
    ensures ev != Finished ==> ChannelInv(Offer(c, ev))
    ensures ev == Finished ==> ChannelInv(Offer(c, ev).(closed := true))
  {
    var d := Offer(c, ev);
    assert c.got + (c.queue + [ev]) == c.got + c.queue + [ev];
    assert forall k :: 0 <= k < |c.offered| ==> d.offered[k] == c.offered[k];
  }

  lemma PublishKeepsSubs(s: Run, ev: Event)
    requires SubsInv(s) && ev != Finished
    ensures SubsInv(Publish(s, ev))
  {
    var t := Publish(s, ev);
    forall v | v in t.viewers ensures ChannelInv(t.viewers[v]) {
      if v in Subs(s) {
        OfferKeepsChannel(s.viewers[v], ev);
      }
    }
  }

  lemma WriteKeepsOthers(s: Run, i: nat, p: seq<Byte>, v: nat, j: nat)
    requires Inv(s) && i < |s.streams| && ViewerSeen(s, v) && j < |s.streams| && j != i
    ensures TargetSeen(DoWrite(s, i, p), v, j)
  {
    assert ViewerSeen(s, v) && TargetSeen(s, v, j);
    var live := s.partial[i] + p;
    var ev := Output(i, live[..Complete(live)]);
    OfferOther(s.viewers[v], ev, j, s.from[v][j], SeenUpto(s, v, j), s.streams[j], s.max);
  }

  lemma WriteKeepsOwn(s: Run, i: nat, p: seq<Byte>, v: nat)
    requires Inv(s) && i < |s.streams| && ViewerSeen(s, v)
    ensures TargetSeen(DoWrite(s, i, p), v, i)
  {
    var c, stream := s.viewers[v], s.streams[i];
    assert ViewerSeen(s, v) && TargetSeen(s, v, i);
    var live := s.partial[i] + p;
    if v in Subs(s) && Complete(live) > 0 {
      OfferWritten(c, i, s.from[v][i], stream, p, s.max);
    } else {
      NotOffered(c, i, s.from[v][i], SeenUpto(s, v, i), stream, p, s.max);
    }
  }

  lemma WriteKeepsOutput(s: Run, i: nat, p: seq<Byte>)
    requires Shaped(s) && OutputInv(s) && i < |s.streams|
    ensures Shaped(DoWrite(s, i, p)) && OutputInv(DoWrite(s, i, p))
  {
    WriteShows(s.streams[i], p);
    WriteFields(s, i, p);
  }

  lemma WriteKeepsSubs(s: Run, i: nat, p: seq<Byte>)
    requires Shaped(s) && SubsInv(s) && i < |s.streams|
    ensures SubsInv(DoWrite(s, i, p))
  {
    var live := s.partial[i] + p;
    PublishKeepsSubs(s, Output(i, live[..Complete(live)]));
  }

  lemma WriteKeepsSeen(s: Run, i: nat, p: seq<Byte>)
    requires Inv(s) && i < |s.streams|
    ensures SeenInv(DoWrite(s, i, p))
  {
    var t := DoWrite(s, i, p);
    forall v | v in s.viewers ensures ViewerSeen(t, v) {
      assert ViewerSeen(s, v);
      forall j | 0 <= j < |s.streams| ensures TargetSeen(t, v, j) {
        if j == i {
          WriteKeepsOwn(s, i, p, v);
        } else {
          WriteKeepsOthers(s, i, p, v, j);
        }
      }
    }
  }

  lemma WriteKeeps(s: Run, i: nat, p: seq<Byte>)
    requires Inv(s) && i < |s.streams|
    ensures Inv(DoWrite(s, i, p))
  {
    WriteKeepsOutput(s, i, p);
    WriteKeepsSubs(s, i, p);
    WriteKeepsSeen(s, i, p);
  }

  /** A viewer for whom nothing changed has still seen what it had seen. */
  lemma SameView(s: Run, t: Run, v: nat)
    requires ViewerSeen(s, v) && t.streams == s.streams && t.max == s.max
    requires v in t.viewers && v in t.from && v in t.upto && t.from[v] == s.from[v]
    requires t.viewers[v].snapshot == s.viewers[v].snapshot && t.viewers[v].offered == s.viewers[v].offered
    requires |t.upto[v]| == |s.streams| && forall i :: 0 <= i < |s.streams| ==> SeenUpto(t, v, i) == SeenUpto(s, v, i)
    ensures ViewerSeen(t, v)
  {
    forall i | 0 <= i < |s.streams| ensures TargetSeen(t, v, i) {
      assert TargetSeen(s, v, i);
      assert Seen(t.viewers[v], i) == Seen(s.viewers[v], i);
    }
  }

  /** Publishing something that is not output leaves all viewers' output as it was. */
  lemma PublishKeepsSeen(s: Run, ev: Event)
    requires Shaped(s) && SeenInv(s) && !ev.Output?
    ensures SeenInv(Publish(s, ev))
  {
    var t := Publish(s, ev);
    forall v | v in s.viewers ensures ViewerSeen(t, v) {
      assert ViewerSeen(s, v);
      forall j | 0 <= j < |s.streams| ensures TargetSeen(t, v, j) {
        assert TargetSeen(s, v, j);
        OfferOther(s.viewers[v], ev, j, s.from[v][j], SeenUpto(s, v, j), s.streams[j], s.max);
      }
    }
  }

  lemma TargetsDoNotMatter(s: Run, targets: seq<Target>)
    requires Shaped(s) && SeenInv(s) && |targets| == |s.targets|
    ensures SeenInv(s.(targets := targets))
  {
    forall v | v in s.viewers ensures ViewerSeen(s.(targets := targets), v) {
      assert ViewerSeen(s, v);
      SameView(s, s.(targets := targets), v);
    }
  }

  lemma UpdateKeeps(s: Run, i: nat, status: Status)
    requires Inv(s) && i < |s.targets|
    ensures Inv(Step(s, Update(i, status)))
  {
    var t := s.targets[i].(status := status);
    var s1 := s.(targets := s.targets[i := t]);
    TargetsDoNotMatter(s, s1.targets);
    assert SubsInv(s1);
    PublishKeepsSubs(s1, TargetChanged(i, t));
    PublishKeepsSeen(s1, TargetChanged(i, t));
  }

  lemma SnapshotSeen(c: Viewer, j: nat, stream: seq<Byte>, max: nat)
    requires j < |c.snapshot| && c.offered == []
    requires c.snapshot[j] == SnapshotOf(stream, stream[Complete(stream)..], max)
    ensures SeenOk(c, j, FirstShown(stream, max), |Shown(stream)|, stream, max)
  {
    assert Seen(c, j) == c.snapshot[j];
    SnapshotIsShown(stream, max);
    if Beginning(stream) && max >= UTF_MAX {
      SnapshotIsWholeCharacters(stream, max);
    }
  }

  /** A new viewer has seen its snapshot. */
  lemma NewViewerSeen(s: Run, t: Run, v: nat)
    requires Shaped(s) && OutputInv(s) && t.streams == s.streams && t.max == s.max
    requires v in t.viewers && t.viewers[v].snapshot == Snapshot(s) && t.viewers[v].offered == []
    requires v in t.from && t.from[v] == Starts(s) && v in t.upto && t.upto[v] == Ends(s)
    ensures ViewerSeen(t, v)
  {
    forall j | 0 <= j < |s.streams| ensures TargetSeen(t, v, j) {
      assert t.viewers[v].snapshot[j] == SnapshotOf(s.streams[j], s.partial[j], s.max);
      SnapshotSeen(t.viewers[v], j, s.streams[j], s.max);
    }
  }

  lemma SubscribeKeepsSeen(s: Run, v: nat)
    requires Inv(s) && v !in s.viewers
    ensures SeenInv(Step(s, Subscribe(v)))
  {
    var t := Step(s, Subscribe(v));
    NewViewerSeen(s, t, v);
    forall w | w in t.viewers && w != v ensures ViewerSeen(t, w) {
      assert ViewerSeen(s, w);
      SameView(s, t, w);
    }
  }

  lemma SubscribeKeeps(s: Run, v: nat)
    requires Inv(s) && v !in s.viewers
    ensures Inv(Step(s, Subscribe(v)))
  {
    SubscribeKeepsSeen(s, v);
  }

  lemma UnsubscribeKeeps(s: Run, v: nat)
    requires Inv(s)
    ensures Inv(Step(s, Unsubscribe(v)))
  {
    var t := Step(s, Unsubscribe(v));
    forall w | w in t.viewers ensures ViewerSeen(t, w) {
      assert ViewerSeen(s, w);
      SameView(s, t, w);
    }
  }

  lemma ReceiveKeepsSubs(s: Run, v: nat)
    requires Shaped(s) && SubsInv(s)
    ensures SubsInv(Step(s, Receive(v)))
  {
    if v in s.viewers && s.viewers[v].queue != [] {
      var c := s.viewers[v];
      assert c.got + [c.queue[0]] + c.queue[1..] == c.got + c.queue;
    }
  }

  lemma ReceiveKeepsSeen(s: Run, v: nat)
    requires Shaped(s) && SeenInv(s)
    ensures SeenInv(Step(s, Receive(v)))
  {
    var t := Step(s, Receive(v));
    if v in s.viewers && s.viewers[v].queue != [] {
      forall w | w in t.viewers ensures ViewerSeen(t, w) {
        assert ViewerSeen(s, w);
        SameView(s, t, w);
      }
    }
  }

  lemma ReceiveKeeps(s: Run, v: nat)
    requires Inv(s)
    ensures Inv(Step(s, Receive(v)))
  {
    ReceiveKeepsSubs(s, v);
    ReceiveKeepsSeen(s, v);
  }

  lemma FinishKeepsSubs(s: Run)
    requires Shaped(s) && SubsInv(s)
    ensures SubsInv(Step(s, Finish))
  {
    FinishFields(s);
    var t := Step(s, Finish);
    forall v | v in t.viewers ensures ChannelInv(t.viewers[v]) {
      if v in Subs(s) {
        OfferKeepsChannel(s.viewers[v], Finished);
      }
    }
  }

  lemma FinishKeepsSeen(s: Run)
    requires Shaped(s) && SubsInv(s) && SeenInv(s)
    ensures SeenInv(Step(s, Finish))
  {
    FinishFields(s);
    PublishKeepsSeen(s, Finished);
    var p, t := Publish(s, Finished), Step(s, Finish);
    assert t.from.Keys == t.upto.Keys == t.viewers.Keys;
    forall v | v in t.viewers ensures ViewerSeen(t, v) {
      assert ViewerSeen(p, v);
      ClosedView(s, v);
    }
  }

  lemma ClosedView(s: Run, v: nat)
    requires Shaped(s) && ViewerSeen(Publish(s, Finished), v)
    ensures ViewerSeen(Step(s, Finish), v)
  {
    FinishFields(s);
    SameView(Publish(s, Finished), Step(s, Finish), v);
  }

  lemma FinishKeeps(s: Run)
    requires Inv(s)
    ensures Inv(Step(s, Finish))
  {
    FinishFields(s);
    FinishKeepsSubs(s);
    FinishKeepsSeen(s);
  }

  lemma StepKeeps(s: Run, op: Op)
    requires Inv(s)
    ensures Inv(Step(s, op))
  {
    match op
    case Write(i, p) => if i < |s.streams| { WriteKeeps(s, i, p); }
    case Update(i, status) => if i < |s.targets| { UpdateKeeps(s, i, status); }
    case Subscribe(v) => if v !in s.viewers { SubscribeKeeps(s, v); }
    case Unsubscribe(v) => UnsubscribeKeeps(s, v);
    case Receive(v) => ReceiveKeeps(s, v);
    case Finish => FinishKeeps(s);
  }

  lemma StartInv(targets: seq<Target>, max: nat)
    ensures Inv(Start(targets, max))
  {
    CompleteMeaning([]);
  }

  lemma StartFields(targets: seq<Target>, max: nat)
    requires forall i :: 0 <= i < |targets| ==> !targets[i].truncated
    ensures Start(targets, max).targets == targets
  {
  }

  lemma {:induction false} ReachableInv(targets: seq<Target>, max: nat, ops: seq<Op>)
    ensures Inv(RunOps(Start(targets, max), ops))
    decreases |ops|
  {
    if ops == [] {
      StartInv(targets, max);
    } else {
      ReachableInv(targets, max, ops[..|ops| - 1]);
      StepKeeps(RunOps(Start(targets, max), ops[..|ops| - 1]), ops[|ops| - 1]);
    }
  }

  // ---- Theorems over every interleaving ----

  /** All bytes that a list of operations writes for target i. */
  function Written(ops: seq<Op>, i: nat): seq<Byte> {
    if ops == [] then []
    else
      var last := ops[|ops| - 1];
      Written(ops[..|ops| - 1], i) + if last.Write? && last.i == i then last.p else []
  }

  /**
   * However the output is cut into chunks, what is held back is what one scan of the whole
   * stream holds back, and never more than three bytes.
   */
  lemma ChunkingIndependence(targets: seq<Target>, max: nat, ops: seq<Op>, i: nat)
    requires i < |targets|
    ensures var s := RunOps(Start(targets, max), ops);
            && s.streams[i] == Written(ops, i)
            && s.partial[i] == Written(ops, i)[Complete(Written(ops, i))..]
            && |s.partial[i]| <= 3
  {
    StreamIsWritten(Start(targets, max), ops, i);
    ReachableInv(targets, max, ops);
    CompleteMeaning(Written(ops, i));
  }

  lemma StepWrites(s: Run, op: Op, i: nat)
    requires Shaped(s) && i < |s.streams|
    ensures Step(s, op).streams[i] == s.streams[i] + if op.Write? && op.i == i then op.p else []
    ensures Step(s, op).max == s.max
  {
    match op
    case Write(j, p) => if j < |s.streams| { WriteFields(s, j, p); }
    case Finish => FinishFields(s);
    case _ =>
  }

  lemma {:induction false} StreamIsWritten(s: Run, ops: seq<Op>, i: nat)
    requires Shaped(s) && i < |s.streams| && s.streams[i] == []
    ensures RunOps(s, ops).streams[i] == Written(ops, i)
    ensures RunOps(s, ops).max == s.max
    decreases |ops|
  {
    if ops != [] {
      var before := ops[..|ops| - 1];
      StreamIsWritten(s, before, i);
      StepWrites(RunOps(s, before), ops[|ops| - 1], i);
    }
  }

  // ---- What a channel gets ----

  /** The bytes a write lets viewers see. */
  ghost function Newly(stream: seq<Byte>, p: seq<Byte>): seq<Byte> {
    WriteShows(stream, p);
    Shown(stream + p)[|Shown(stream)|..]
  }

  /** What an operation has to tell a viewer. */
  ghost function News(s: Run, op: Op, v: nat): seq<Event>
    requires Shaped(s)
  {
    if v !in Subs(s) then [] else
    match op
    case Write(i, p) =>
      if i < |s.streams| && Newly(s.streams[i], p) != [] then [Output(i, Newly(s.streams[i], p))] else []
    case Update(i, status) =>
      if i < |s.targets| then [TargetChanged(i, Target(s.targets[i].system, status, s.targets[i].truncated))] else []
    case Finish => [Finished]
    case _ => []
  }

  /** An event goes to the end of a channel with fewer than 256 in it, and is lost otherwise. */
  lemma OfferMeaning(c: Viewer, ev: Event)
    ensures var d := Offer(c, ev);
            && d.snapshot == c.snapshot && d.shown == c.shown && d.got == c.got && d.closed == c.closed
            && d.offered == c.offered + [ev]
            && (if |c.queue| < 256 then d.queue == c.queue + [ev] && d.missed == c.missed
                else d.queue == c.queue && d.missed)
  {
  }

  /** What a viewer has after the news: all of it if there is room, and a mark if there is not. */
  ghost predicate Told(c: Viewer, d: Viewer, news: seq<Event>) {
    && d.snapshot == c.snapshot && d.shown == c.shown && d.got == c.got && d.offered == c.offered + news
    && (if |c.queue| < 256 then d.queue == c.queue + news && d.missed == c.missed
        else d.queue == c.queue && d.missed == (c.missed || news != []))
  }

  lemma ToldBy(c: Viewer, ev: Event)
    ensures Told(c, Offer(c, ev), [ev]) && Told(c, c, [])
  {
    OfferMeaning(c, ev);
  }

  lemma WriteTells(s: Run, i: nat, p: seq<Byte>, v: nat)
    requires Inv(s) && i < |s.streams| && v in s.viewers
    ensures var t := DoWrite(s, i, p);
            v in t.viewers && Told(s.viewers[v], t.viewers[v], News(s, Write(i, p), v))
  {
    var live := s.partial[i] + p;
    WriteFields(s, i, p);
    WriteShows(s.streams[i], p);
    assert Newly(s.streams[i], p) == live[..Complete(live)];
    ToldBy(s.viewers[v], Output(i, live[..Complete(live)]));
  }

  /** Only the end closes channels, and only those of subscribers. */
  lemma OnlyTheEndCloses(s: Run, op: Op, v: nat)
    requires Shaped(s) && v in s.viewers
    ensures var t := Step(s, op);
            && v in t.viewers && (t.viewers[v].closed <==> s.viewers[v].closed || (op == Finish && v in Subs(s)))
  {
    match op
    case Write(i, p) => if i < |s.streams| { WriteFields(s, i, p); }
    case Finish => FinishFields(s);
    case _ =>
  }

  /**
   * Every operation but the viewer's own receiving tells each viewer its news, in order and
   * nothing else.
   */
  lemma EachIsTold(s: Run, op: Op, v: nat)
    requires Inv(s) && v in s.viewers
    ensures var t := Step(s, op);
            v in t.viewers && (op != Receive(v) ==> Told(s.viewers[v], t.viewers[v], News(s, op, v)))
  {
    var c := s.viewers[v];
    match op
    case Write(i, p) =>
      if i < |s.streams| {
        WriteTells(s, i, p, v);
      }
    case Update(i, status) =>
      if i < |s.targets| {
        ToldBy(c, TargetChanged(i, s.targets[i].(status := status)));
      }
    case Finish =>
      FinishFields(s);
      ToldBy(c, Finished);
    case _ => ToldBy(c, Finished);
  }

  /** Receiving takes the oldest event out of the channel. */
  lemma ReceivesOldest(s: Run, v: nat)
    requires Shaped(s) && v in s.viewers
    ensures var c, t := s.viewers[v], Step(s, Receive(v));
            && v in t.viewers && t.viewers[v].got + t.viewers[v].queue == c.got + c.queue
            && |t.viewers[v].queue| == (if c.queue == [] then 0 else |c.queue| - 1)
            && t.viewers[v].offered == c.offered && t.viewers[v].missed == c.missed
  {
  }

  /** Some operation had news for the viewer while 256 events were waiting in its channel. */
  ghost predicate Overflowed(s: Run, ops: seq<Op>, v: nat)
    requires Shaped(s)
    decreases |ops|
  {
    ops != [] &&
    var init := ops[..|ops| - 1];
    Overflowed(s, init, v) || Overflows(RunOps(s, init), ops[|ops| - 1], v)
  }

  ghost predicate Overflows(s: Run, op: Op, v: nat)
    requires Shaped(s)
  {
    v in s.viewers && |s.viewers[v].queue| >= 256 && News(s, op, v) != []
  }

  /** In every interleaving a viewer misses something exactly if its channel overflowed. */
  lemma {:induction false} MissedIff(s: Run, ops: seq<Op>, v: nat)
    requires Inv(s) && (v in s.viewers ==> !s.viewers[v].missed)
    ensures var r := RunOps(s, ops);
            && Inv(r) && (v in r.viewers ==> (r.viewers[v].missed <==> Overflowed(s, ops, v)))
            && (v !in r.viewers ==> !Overflowed(s, ops, v))
    decreases |ops|
  {
    if ops != [] {
      var init, op := ops[..|ops| - 1], ops[|ops| - 1];
      var before := RunOps(s, init);
      MissedIff(s, init, v);
      StepKeeps(before, op);
      MissedStep(before, op, v);
    }
  }

  lemma MissedStep(s: Run, op: Op, v: nat)
    requires Inv(s)
    ensures var t := Step(s, op);
            && (v in s.viewers ==> v in t.viewers)
            && (v in t.viewers ==>
                  (t.viewers[v].missed <==> (v in s.viewers && s.viewers[v].missed) || Overflows(s, op, v)))
  {
    if v in s.viewers {
      EachIsTold(s, op, v);
    }
    if v !in s.viewers && op.Finish? {
      FinishFields(s);
    }
  }

  /** In particular a viewer misses nothing whose channel never holds 256 events. */
  lemma {:induction false} RoomForAll(s: Run, ops: seq<Op>, v: nat)
    requires Shaped(s)
    requires forall k :: 0 <= k < |ops| ==> HasRoom(RunOps(s, ops[..k]), v)
    ensures !Overflowed(s, ops, v)
    decreases |ops|
  {
    if ops != [] {
      var init := ops[..|ops| - 1];
      forall k | 0 <= k < |init| ensures HasRoom(RunOps(s, init[..k]), v) {
        assert init[..k] == ops[..k];
      }
      RoomForAll(s, init, v);
    }
  }

  predicate HasRoom(s: Run, v: nat) {
    v in s.viewers ==> |s.viewers[v].queue| < 256
  }

  /** What reached a viewer whose channel never overflowed, in terms of the invariant. */
  lemma Received(s: Run, v: nat, i: nat)
    requires Inv(s) && v in s.viewers && !s.viewers[v].missed && i < |s.streams|
    ensures var c := s.viewers[v];
            && i < |c.snapshot| && v in s.from && v in s.upto && i < |s.from[v]| && i < |s.upto[v]|
            && s.from[v][i] <= SeenUpto(s, v, i) <= |Shown(s.streams[i])|
            && c.snapshot[i] + OutputOf(c.got + c.queue, i) == s.streams[i][s.from[v][i]..SeenUpto(s, v, i)]
  {
    var c := s.viewers[v];
    assert ViewerSeen(s, v) && TargetSeen(s, v, i) && ChannelInv(c);
    assert Seen(c, i) == c.snapshot[i] + OutputOf(c.got + c.queue, i);
    PrefixRange(Shown(s.streams[i]), s.streams[i][Complete(s.streams[i])..], s.from[v][i], SeenUpto(s, v, i));
    assert Shown(s.streams[i]) + s.streams[i][Complete(s.streams[i])..] == s.streams[i];
  }

  /**
   * A subscribed viewer whose channel never overflowed has, in its snapshot and events, exactly
   * the bytes from where its snapshot began to where the held-back bytes begin: none is missed
   * and none is sent twice.
   */
  lemma ExactlyOnce(targets: seq<Target>, max: nat, ops: seq<Op>, v: nat, i: nat)
    requires i < |targets|
    requires v in Subs(RunOps(Start(targets, max), ops)) && !Overflowed(Start(targets, max), ops, v)
    ensures var s := RunOps(Start(targets, max), ops);
            && v in s.viewers
            && var c, shown := s.viewers[v], |s.streams[i]| - |s.partial[i]|;
            && i < |c.snapshot| && v in s.from && i < |s.from[v]| && s.from[v][i] <= shown
            && c.snapshot[i] + OutputOf(c.got + c.queue, i) == s.streams[i][s.from[v][i]..shown]
  {
    ReachableInv(targets, max, ops);
    StartInv(targets, max);
    MissedIff(Start(targets, max), ops, v);
    Received(RunOps(Start(targets, max), ops), v, i);
  }

  /** A viewer that left, or was closed, has exactly the bytes up to what was shown at that moment. */
  lemma ExactlyOnceUntilLeaving(targets: seq<Target>, max: nat, ops: seq<Op>, v: nat, i: nat)
    requires i < |targets|
    requires var s := RunOps(Start(targets, max), ops); v !in Subs(s) && v in s.viewers
    requires !Overflowed(Start(targets, max), ops, v)
    ensures var s := RunOps(Start(targets, max), ops);
            var c := s.viewers[v];
            && i < |c.snapshot| && v in s.from && v in s.upto && i < |s.from[v]| && i < |s.upto[v]|
            && s.from[v][i] <= s.upto[v][i] <= |s.streams[i]|
            && c.snapshot[i] + OutputOf(c.got + c.queue, i) == s.streams[i][s.from[v][i]..s.upto[v][i]]
  {
    ReachableInv(targets, max, ops);
    StartInv(targets, max);
    MissedIff(Start(targets, max), ops, v);
    Received(RunOps(Start(targets, max), ops), v, i);
  }

  /** A viewer's bytes begin with what was visible when it subscribed. */
  lemma BeginsWhenSubscribing(s: Run, v: nat, i: nat)
    requires Shaped(s) && v !in s.viewers && i < |s.streams|
    ensures var t := Step(s, Subscribe(v));
            v in t.from && i < |t.from[v]| && t.from[v][i] == FirstShown(s.streams[i], s.max)
  {
  }

  /** No later operation moves the beginning. */
  lemma BeginningStays(s: Run, op: Op, v: nat)
    requires Shaped(s) && v in s.viewers && v in s.from
    ensures var t := Step(s, op); v in t.viewers && v in t.from && t.from[v] == s.from[v]
  {
  }

  /** Its bytes end with what is shown when it leaves or the run finishes, and with nothing else. */
  lemma EndsWhenLeaving(s: Run, op: Op, v: nat, i: nat)
    requires Shaped(s) && v in s.viewers && v in s.upto && i < |s.streams|
    ensures var t := Step(s, op);
            && v in t.upto
            && (v !in Subs(s) ==> t.upto[v] == s.upto[v])
            && (v in Subs(s) && v !in Subs(t) ==>
                  && (op == Unsubscribe(v) || op == Finish)
                  && i < |t.upto[v]| && t.upto[v][i] == |Shown(s.streams[i])|)
  {
    if op.Finish? {
      FinishFields(s);
    }
  }

  lemma {:induction false} FromIsFixed(s: Run, ops: seq<Op>, v: nat)
    requires Inv(s) && v in s.viewers
    ensures var r := RunOps(s, ops); Inv(r) && v in r.viewers && v in r.from && r.from[v] == s.from[v]
    decreases |ops|
  {
    if ops != [] {
      FromIsFixed(s, ops[..|ops| - 1], v);
      StepKeeps(RunOps(s, ops[..|ops| - 1]), ops[|ops| - 1]);
      BeginningStays(RunOps(s, ops[..|ops| - 1]), ops[|ops| - 1], v);
    }
  }

  /**
   * A viewer that subscribes before any output of a target was dropped has all of its output
   * from the first byte, whatever happens next, for as long as it stays.
   */
  lemma WatchedFromTheStart(s: Run, ops: seq<Op>, v: nat, i: nat)
    requires Inv(s) && v !in s.viewers && i < |s.streams| && |s.streams[i]| <= s.max
    requires v in Subs(RunOps(Step(s, Subscribe(v)), ops)) && !Overflowed(Step(s, Subscribe(v)), ops, v)
    ensures var r := RunOps(Step(s, Subscribe(v)), ops);
            && v in r.viewers && i < |r.viewers[v].snapshot|
            && r.viewers[v].snapshot[i] + OutputOf(r.viewers[v].got + r.viewers[v].queue, i) == Shown(r.streams[i])
  {
    StepKeeps(s, Subscribe(v));
    BeginsWhenSubscribing(s, v, i);
    FromIsFixed(Step(s, Subscribe(v)), ops, v);
    MissedIff(Step(s, Subscribe(v)), ops, v);
    Received(RunOps(Step(s, Subscribe(v)), ops), v, i);
  }

  /** If the output is UTF-8, no viewer is ever sent part of a character. */
  lemma ViewersGetWholeCharacters(targets: seq<Target>, max: nat, ops: seq<Op>, v: nat, i: nat)
    requires i < |targets| && max >= UTF_MAX && Beginning(Written(ops, i))
    requires v in RunOps(Start(targets, max), ops).viewers
    ensures var c := RunOps(Start(targets, max), ops).viewers[v];
            && i < |c.snapshot| && WellFormed(c.snapshot[i])
            && forall d :: Output(i, d) in c.offered ==> WellFormed(d)
  {
    ReachableInv(targets, max, ops);
    StreamIsWritten(Start(targets, max), ops, i);
    var s := RunOps(Start(targets, max), ops);
    assert ViewerSeen(s, v) && TargetSeen(s, v, i);
    assert WholeCharacters(s.viewers[v], i);
  }

  /** The status of target i after the events, if it was st before them. */
  function StatusAfter(events: seq<Event>, i: nat, st: Status): Status {
    if events == [] then st
    else
      var last := events[|events| - 1];
      if last.TargetChanged? && last.target == i then last.to.status else StatusAfter(events[..|events| - 1], i, st)
  }

  ghost predicate StatusOk(s: Run, v: nat) {
    v in s.viewers && v in Subs(s) ==>
      && |s.viewers[v].shown| == |s.targets|
      && forall i :: 0 <= i < |s.targets| ==>
           StatusAfter(s.viewers[v].offered, i, s.viewers[v].shown[i].status) == s.targets[i].status
  }

  lemma StatusAfterOne(events: seq<Event>, ev: Event, i: nat, st: Status)
    ensures StatusAfter(events + [ev], i, st) ==
            if ev.TargetChanged? && ev.target == i then ev.to.status else StatusAfter(events, i, st)
  {
    assert (events + [ev])[..|events|] == events;
  }

  /** An event that is not a change of status leaves all statuses as they were. */
  lemma OutputKeepsStatus(s: Run, ev: Event, v: nat)
    requires StatusOk(s, v) && !ev.TargetChanged?
    ensures StatusOk(Publish(s, ev), v)
  {
    if v in s.viewers && v in Subs(s) {
      var c := s.viewers[v];
      forall j | 0 <= j < |s.targets|
        ensures StatusAfter(c.offered + [ev], j, c.shown[j].status) == s.targets[j].status
      {
        StatusAfterOne(c.offered, ev, j, c.shown[j].status);
      }
    }
  }

  lemma UpdateKeepsStatus(s: Run, i: nat, t: Target, v: nat)
    requires i < |s.targets| && StatusOk(s, v)
    ensures StatusOk(Publish(s.(targets := s.targets[i := t]), TargetChanged(i, t)), v)
  {
    if v in s.viewers && v in Subs(s) {
      var c, ev := s.viewers[v], TargetChanged(i, t);
      forall j | 0 <= j < |s.targets|
        ensures StatusAfter(c.offered + [ev], j, c.shown[j].status) == if j == i then t.status else s.targets[j].status
      {
        StatusAfterOne(c.offered, ev, j, c.shown[j].status);
      }
    }
  }

  lemma StatusKept(s: Run, op: Op, v: nat)
    requires Shaped(s) && StatusOk(s, v)
    ensures StatusOk(Step(s, op), v)
  {
    match op
    case Write(i, p) =>
      if i < |s.streams| {
        var live := s.partial[i] + p;
        var n := Complete(live);
        var s1 := s.(streams := s.streams[i := s.streams[i] + p],
                     targets := s.targets[i := s.targets[i].(truncated := |s.streams[i] + p| > s.max)],
                     partial := s.partial[i := live[n..]]);
        assert StatusOk(s1, v);
        OutputKeepsStatus(s1, Output(i, live[..n]), v);
      }
    case Update(i, status) =>
      if i < |s.targets| {
        UpdateKeepsStatus(s, i, s.targets[i].(status := status), v);
      }
    case _ =>
  }

  /**
   * The statuses in a subscribed viewer's snapshot, updated by the events in its channel that
   * it received or can still receive, are the current ones.
   */
  lemma StatusesReachViewers(targets: seq<Target>, max: nat, ops: seq<Op>, v: nat, i: nat)
    requires i < |targets|
    requires v in Subs(RunOps(Start(targets, max), ops)) && !Overflowed(Start(targets, max), ops, v)
    ensures var s := RunOps(Start(targets, max), ops);
            && v in s.viewers
            && var c := s.viewers[v];
               i < |c.shown| && StatusAfter(c.got + c.queue, i, c.shown[i].status) == s.targets[i].status
  {
    StatusesOffered(targets, max, ops, v);
    ReachableInv(targets, max, ops);
    StartInv(targets, max);
    MissedIff(Start(targets, max), ops, v);
    assert ChannelInv(RunOps(Start(targets, max), ops).viewers[v]);
  }

  lemma {:induction false} StatusesOffered(targets: seq<Target>, max: nat, ops: seq<Op>, v: nat)
    ensures StatusOk(RunOps(Start(targets, max), ops), v)
    decreases |ops|
  {
    if ops != [] {
      StatusesOffered(targets, max, ops[..|ops| - 1], v);
      StatusKept(RunOps(Start(targets, max), ops[..|ops| - 1]), ops[|ops| - 1], v);
    }
  }

  /**
   * No interleaving sends on or closes a closed channel. After the end nobody is subscribed,
   * and "done" is the last event of every channel that was closed, and of no other.
   */
  lemma SubscriberDiscipline(targets: seq<Target>, max: nat, ops: seq<Op>, v: nat)
    ensures var s := RunOps(Start(targets, max), ops);
            && !s.panicked
            && (s.done ==> s.subs == None)
            && (v in s.viewers ==>
                  var c := s.viewers[v];
                  && (c.closed <==> Finished in c.offered)
                  && (c.closed ==> v !in Subs(s) && |c.offered| > 0 && c.offered[|c.offered| - 1] == Finished))
  {
    ReachableInv(targets, max, ops);
    var s := RunOps(Start(targets, max), ops);
    if v in s.viewers {
      assert ChannelInv(s.viewers[v]);
    }
  }

  /** What would be a panic: a send on or a close of a closed channel, or a write to a nil map. */
  lemma WouldPanic(s: Run, ev: Event, v: nat)
    requires Shaped(s)
    ensures v in Subs(s) && v in s.viewers && s.viewers[v].closed ==>
              Publish(s, ev).panicked && Step(s, Finish).panicked
    ensures s.subs == None && !s.done && v !in s.viewers ==> Step(s, Subscribe(v)).panicked
  {
  }

  /** So whoever has news coming, and whoever is closed at the end, has an open channel until then. */
  lemma OnlyOpenChannels(targets: seq<Target>, max: nat, ops: seq<Op>, op: Op, v: nat)
    requires v in RunOps(Start(targets, max), ops).viewers
    ensures var s := RunOps(Start(targets, max), ops);
            News(s, op, v) != [] ==> !s.viewers[v].closed && (Step(s, op).viewers[v].closed <==> op == Finish)
  {
    ReachableInv(targets, max, ops);
    OnlyTheEndCloses(RunOps(Start(targets, max), ops), op, v);
  }

  /** A viewer that leaves is told nothing any more, whatever happens. */
  lemma {:induction false} NoNewsAfterLeaving(s: Run, ops: seq<Op>, v: nat)
    requires Inv(s) && v in s.viewers
    ensures var r := RunOps(Step(s, Unsubscribe(v)), ops);
            Inv(r) && v in r.viewers && v !in Subs(r) && r.viewers[v].offered == s.viewers[v].offered
    decreases |ops|
  {
    StepKeeps(s, Unsubscribe(v));
    if ops != [] {
      var before, op := RunOps(Step(s, Unsubscribe(v)), ops[..|ops| - 1]), ops[|ops| - 1];
      NoNewsAfterLeaving(s, ops[..|ops| - 1], v);
      StepKeeps(before, op);
      EachIsTold(before, op, v);
      StaysAway(before, op, v);
    }
  }

  lemma StaysAway(s: Run, op: Op, v: nat)
    requires Inv(s) && v in s.viewers && v !in Subs(s)
    ensures var t := Step(s, op); v !in Subs(t) && v in t.viewers && t.viewers[v].offered == s.viewers[v].offered
  {
    match op
    case Write(i, p) => if i < |s.streams| { WriteFields(s, i, p); }
    case Finish => FinishFields(s);
    case _ =>
  }

  /** Finishing offers "done" to everyone still subscribed, closes them and no one else. */
  lemma FinishClosesSubscribers(s: Run, v: nat)
    requires Inv(s) && v in s.viewers
    ensures var c, d := s.viewers[v], Step(s, Finish).viewers[v];
            if v in Subs(s) then d.closed && !c.closed && d.offered == c.offered + [Finished] else d == c
  {
  }

  /** After the end no channel is added and no viewer is offered anything, whatever happens. */
  lemma {:induction false} NothingAfterDone(s: Run, ops: seq<Op>)
    requires Inv(s) && s.done
    ensures var r := RunOps(s, ops);
            && Inv(r) && r.done && r.subs == None
            && forall v :: v in s.viewers ==> v in r.viewers && r.viewers[v].offered == s.viewers[v].offered
                                              && r.viewers[v].closed == s.viewers[v].closed
    decreases |ops|
  {
    if ops != [] {
      var before := RunOps(s, ops[..|ops| - 1]);
      NothingAfterDone(s, ops[..|ops| - 1]);
      StepKeeps(before, ops[|ops| - 1]);
      StepAfterDone(before, ops[|ops| - 1]);
    }
  }

  lemma PublishToNobody(s: Run, ev: Event)
    requires Subs(s) == {}
    ensures Publish(s, ev) == s
  {
  }

  lemma StepAfterDone(s: Run, op: Op)
    requires Inv(s) && s.done
    ensures var r := Step(s, op);
            && r.done && r.subs == None
            && forall v :: v in s.viewers ==> v in r.viewers && r.viewers[v].offered == s.viewers[v].offered
                                              && r.viewers[v].closed == s.viewers[v].closed
  {
    match op
    case Update(i, status) =>
      if i < |s.targets| {
        var t := s.targets[i].(status := status);
        PublishToNobody(s.(targets := s.targets[i := t]), TargetChanged(i, t));
      }
    case Finish =>
      FinishFields(s);
      PublishToNobody(s, Finished);
    case _ =>
  }

  // ---- The object ----

  /** Subscribers have open channels, and there are none once the run is done. */
  ghost predicate SubsOpen(s: Run) {
    && !s.panicked && (s.done <==> s.subs.None?)
    && forall v :: v in Subs(s) ==> v in s.viewers && !s.viewers[v].closed
  }

  lemma TakeOne<T>(s: seq<T>, i: nat)
    requires i < |s|
    ensures s[..i] + [s[i]] == s[..i + 1]
  {
  }

  /** One more operation on a reachable state. */
  lemma Extends(targets: seq<Target>, max: nat, ops: seq<Op>, op: Op)
    ensures SubsOpen(RunOps(Start(targets, max), ops))
    ensures RunOps(Start(targets, max), ops + [op]) == Step(RunOps(Start(targets, max), ops), op)
  {
    ReachableInv(targets, max, ops);
    assert (ops + [op])[..|ops|] == ops;
  }

  lemma ExtendsWrite(targets: seq<Target>, max: nat, ops: seq<Op>, i: nat, p: seq<Byte>)
    requires i < |targets|
    ensures var s := RunOps(Start(targets, max), ops);
            SubsOpen(s) && Wrote(s, i, p, RunOps(Start(targets, max), ops + [Write(i, p)]))
  {
    Extends(targets, max, ops, Write(i, p));
    WriteFields(RunOps(Start(targets, max), ops), i, p);
  }

  lemma ExtendsSubscribe(targets: seq<Target>, max: nat, ops: seq<Op>, v: nat)
    requires v !in RunOps(Start(targets, max), ops).viewers
    ensures var s, t := RunOps(Start(targets, max), ops), RunOps(Start(targets, max), ops + [Subscribe(v)]);
            && SubsOpen(s) && t.streams == s.streams && t.partial == s.partial && t.targets == s.targets
            && t.max == s.max && t.done == s.done && t.subs == (if s.done then None else Some(Subs(s) + {v}))
            && t.viewers == s.viewers[v := Viewer(Snapshot(s), s.targets, [], [], [], false, false)]
  {
    Extends(targets, max, ops, Subscribe(v));
  }

  lemma ExtendsFinish(targets: seq<Target>, max: nat, ops: seq<Op>)
    ensures var s, t := RunOps(Start(targets, max), ops), RunOps(Start(targets, max), ops + [Finish]);
            && SubsOpen(s) && t.streams == s.streams && t.partial == s.partial && t.targets == s.targets
            && t.max == s.max && t.subs == None && t.done
            && t.viewers == CloseAll(OfferAll(s.viewers, Subs(s), Finished), Subs(s))
  {
    Extends(targets, max, ops, Finish);
    FinishFields(RunOps(Start(targets, max), ops));
  }

  class ActiveRun {
    const max: nat
    const output: seq<TailBuffer>
    var targets: seq<Target>
    var partial: seq<seq<Byte>>
    var subs: Option<set<nat>>
    var done: bool
    var viewers: map<nat, Viewer> // the viewers' channels by identity
    ghost var first: seq<Target>  // the targets at the start
    ghost var trace: seq<Op>      // the operations so far
    ghost var model: Run

    /** The fields are those of the model, and the buffers hold its streams. */
    ghost predicate Matches()
      reads this, output
    {
      FieldsAre(model) && BuffersHold(model.streams)
    }

    ghost predicate FieldsAre(r: Run)
      reads this
    {
      && max == r.max && targets == r.targets && partial == r.partial
      && subs == r.subs && done == r.done && viewers == r.viewers
    }

    ghost predicate BuffersHold(streams: seq<seq<Byte>>)
      reads output
    {
      |output| == |streams| && forall i :: 0 <= i < |output| ==> Holds(output[i], streams[i])
    }

    ghost predicate Distinct() {
      forall i, j :: 0 <= i < j < |output| ==> output[i] != output[j]
    }

    ghost predicate Holds(b: TailBuffer, stream: seq<Byte>)
      reads b
    {
      b.Valid() && b.max == max && b.stream == stream
    }

    ghost predicate Valid()
      reads this, output
    {
      Matches() && Distinct() && model == RunOps(Start(first, max), trace)
    }

    /** Notes that the object has performed one more operation. */
    ghost method Perform(op: Op, after: Run)
      requires FieldsAre(after) && BuffersHold(after.streams) && Distinct()
      requires after == RunOps(Start(first, max), trace + [op])
      modifies this`trace, this`model
      ensures Valid() && trace == old(trace) + [op]
    {
      trace, model := trace + [op], after;
    }

    constructor (targets: seq<Target>)
      requires forall i :: 0 <= i < |targets| ==> !targets[i].truncated
      ensures Valid() && first == targets && max == 128 * 1024 && trace == [] && fresh(output)
    {
      var out := NewBuffers(|targets|);
      max := MAX_RUN_OUTPUT;
      output := out;
      this.targets := targets;
      partial := seq(|targets|, i => []);
      subs, done, viewers := Some({}), false, map[];
      first, trace, model := targets, [], Start(targets, MAX_RUN_OUTPUT);
      StartFields(targets, MAX_RUN_OUTPUT);
    }

    static method NewBuffers(n: nat) returns (out: seq<TailBuffer>)
      ensures |out| == n && fresh(out)
      ensures forall j :: 0 <= j < n ==> out[j].Valid() && out[j].max == MAX_RUN_OUTPUT && out[j].stream == []
      ensures forall j, k :: 0 <= j < k < n ==> out[j] != out[k]
    {
      out := [];
      for i := 0 to n
        invariant |out| == i && fresh(out)
        invariant forall j :: 0 <= j < i ==> out[j].Valid() && out[j].max == MAX_RUN_OUTPUT && out[j].stream == []
        invariant forall j, k :: 0 <= j < k < i ==> out[j] != out[k]
      {
        var b := new TailBuffer(MAX_RUN_OUTPUT);
        out := out + [b];
      }
    }

    /** Sends to every subscriber without blocking; none of their channels may be closed. */
    method PublishLocked(ev: Event)
      requires forall v :: v in Members(subs) ==> v in viewers && !viewers[v].closed
      modifies this`viewers
      ensures viewers == OfferAll(old(viewers), Members(subs), ev)
      ensures viewers.Keys == old(viewers).Keys
      ensures forall v :: v in old(viewers) ==>
                if v in Members(subs) then Told(old(viewers)[v], viewers[v], [ev]) else viewers[v] == old(viewers)[v]
    {
      var todo := Members(subs);
      ghost var all := todo;
      while todo != {}
        invariant todo <= all
        invariant viewers == OfferAll(old(viewers), all - todo, ev)
        decreases todo
      {
        var v :| v in todo;
        viewers := viewers[v := Offer(viewers[v], ev)];
        todo := todo - {v};
      }
      forall v | v in old(viewers) ensures Told(old(viewers)[v], Offer(old(viewers)[v], ev), [ev]) {
        ToldBy(old(viewers)[v], ev);
      }
    }

    /** Closes every subscriber's channel; closing one twice would panic. */
    method CloseLocked()
      requires forall v :: v in Members(subs) ==> v in viewers && !viewers[v].closed
      modifies this`viewers
      ensures viewers == CloseAll(old(viewers), Members(subs))
    {
      var todo := Members(subs);
      ghost var all := todo;
      while todo != {}
        invariant todo <= all
        invariant viewers == CloseAll(old(viewers), all - todo)
        decreases todo
      {
        var v :| v in todo;
        assert !viewers[v].closed;
        viewers := viewers[v := viewers[v].(closed := true)];
        todo := todo - {v};
      }
    }

    method SnapshotLocked() returns (out: seq<seq<Byte>>)
      requires Matches() && Shaped(model)
      ensures out == Snapshot(model)
    {
      ghost var want := Snapshot(model);
      out := [];
      for i := 0 to |output|
        invariant out == want[..i]
      {
        var shown := SnapshotTarget(i);
        out := out + [shown];
        TakeOne(want, i);
      }
      assert want[..|output|] == want;
    }

    method SnapshotTarget(i: nat) returns (shown: seq<Byte>)
      requires Matches() && Shaped(model) && i < |output|
      ensures shown == Snapshot(model)[i]
    {
      assert Holds(output[i], model.streams[i]);
      var b := output[i].Bytes();
      shown := b[..|b| - if |b| < |partial[i]| then |b| else |partial[i]|];
    }

    method WriteOutput(i: nat, p: seq<Byte>)
      requires Valid() && i < |targets|
      modifies this, output[i]
      ensures Valid() && first == old(first) && trace == old(trace) + [Write(i, p)]
    {
      ghost var after := RunOps(Start(first, max), trace + [Write(i, p)]);
      ExtendsWrite(first, max, trace, i, p);
      WriteLocked(i, p, after);
      Perform(Write(i, p), after);
    }

    method WriteLocked(i: nat, p: seq<Byte>, ghost after: Run)
      requires Matches() && Distinct() && Shaped(model) && i < |targets| && Wrote(model, i, p, after)
      requires forall v :: v in Members(subs) ==> v in viewers && !viewers[v].closed
      modifies this`targets, this`partial, this`viewers, output[i]
      ensures FieldsAre(after) && BuffersHold(after.streams)
    {
      AppendOutput(i, p);
      var data := HoldBack(i, p);
      if |data| > 0 && subs.Some? && subs.value != {} {
        PublishLocked(Output(i, data));
      }
    }

    /** Splits what can be sent now from what has to wait for the rest of a character. */
    method HoldBack(i: nat, p: seq<Byte>) returns (data: seq<Byte>)
      requires i < |partial|
      modifies this`partial
      ensures var live := old(partial)[i] + p;
              data == live[..Complete(live)] && partial == old(partial)[i := live[Complete(live)..]]
    {
      var live := partial[i] + p;
      var n := CompleteUTF8(live);
      partial := partial[i := live[n..]];
      data := live[..n];
    }

    method AppendOutput(i: nat, p: seq<Byte>)
      requires Matches() && Distinct() && Shaped(model) && i < |targets|
      modifies this`targets, output[i]
      ensures targets == old(targets)[i := old(targets)[i].(truncated := |model.streams[i] + p| > max)]
      ensures forall j :: 0 <= j < |output| ==>
                Holds(output[j], if j == i then model.streams[i] + p else model.streams[j])
    {
      assert Holds(output[i], model.streams[i]);
      output[i].Write(p);
      targets := targets[i := targets[i].(truncated := output[i].dropped)];
      forall j | 0 <= j < |output| && j != i ensures Holds(output[j], model.streams[j]) {
        assert old(Holds(output[j], model.streams[j]));
      }
    }

    method UpdateTarget(i: nat, status: Status)
      requires Valid() && i < |targets|
      modifies this
      ensures Valid() && first == old(first) && trace == old(trace) + [Update(i, status)]
    {
      Extends(first, max, trace, Update(i, status));
      targets := targets[i := targets[i].(status := status)];
      PublishLocked(TargetChanged(i, targets[i]));
      Perform(Update(i, status), Step(model, Update(i, status)));
    }

    /** Snapshot and subscribe at once; a finished run only gives the snapshot. */
    method SubscribeViewer(v: nat) returns (finished: bool, snap: seq<seq<Byte>>)
      requires Valid() && v !in viewers
      modifies this
      ensures Valid() && first == old(first) && trace == old(trace) + [Subscribe(v)]
      ensures finished == old(done) && snap == Snapshot(old(model))
    {
      ghost var after := RunOps(Start(first, max), trace + [Subscribe(v)]);
      ExtendsSubscribe(first, max, trace, v);
      finished := done;
      snap := SnapshotLocked();
      viewers := viewers[v := Viewer(snap, targets, [], [], [], false, false)];
      if !finished {
        subs := Some(subs.value + {v});
      }
      Perform(Subscribe(v), after);
    }

    method UnsubscribeViewer(v: nat)
      requires Valid()
      modifies this
      ensures Valid() && first == old(first) && trace == old(trace) + [Unsubscribe(v)]
    {
      Extends(first, max, trace, Unsubscribe(v));
      if subs.Some? {
        subs := Some(subs.value - {v});
      }
      Perform(Unsubscribe(v), Step(model, Unsubscribe(v)));
    }

    /** The viewer takes the next event out of its channel, if there is one. */
    method ReceiveEvent(v: nat) returns (ev: Option<Event>)
      requires Valid() && v in viewers
      modifies this`viewers, this`trace, this`model
      ensures Valid() && trace == old(trace) + [Receive(v)]
      ensures var q := old(viewers)[v].queue;
              if q == [] then ev == None else v in viewers && ev == Some(q[0]) && viewers[v].queue == q[1..]
    {
      Extends(first, max, trace, Receive(v));
      ev := None;
      var c := viewers[v];
      if c.queue != [] {
        ev := Some(c.queue[0]);
        viewers := viewers[v := c.(got := c.got + [c.queue[0]], queue := c.queue[1..])];
      }
      Perform(Receive(v), Step(model, Receive(v)));
    }

    method FinishRun()
      requires Valid()
      modifies this
      ensures Valid() && first == old(first) && trace == old(trace) + [Finish]
    {
      ghost var after := RunOps(Start(first, max), trace + [Finish]);
      ExtendsFinish(first, max, trace);
      FinishLocked();
      Perform(Finish, after);
    }

    /** Sets done, tells and closes the subscribers, and drops them. */
    method FinishLocked()
      requires forall v :: v in Members(subs) ==> v in viewers && !viewers[v].closed
      modifies this`done, this`subs, this`viewers
      ensures done && subs == None
      ensures viewers == CloseAll(OfferAll(old(viewers), Members(old(subs)), Finished), Members(old(subs)))
    {
      done := true;
      PublishLocked(Finished);
      CloseLocked();
      subs := None;
    }
  }
}
