/**
 * A script run from end to end: the run machine drives the statuses and the output that the
 * viewers of the run see. This joins RunMachine and ActiveRuns into one machine and says what
 * a viewer has who stays until "done".
 */
module Sessions {
  import opened TailBuffers
  import opened Utf8
  import opened Wrappers
  import A = ActiveRuns
  import M = RunMachine

  datatype Session = Session(machine: M.Machine, run: A.Run)

  datatype Act =
    | Move(a: M.Action)          // a goroutine, a user or the store moves
    | Emit(i: nat, p: seq<Byte>) // the script on target i writes output
    | Watch(op: A.Op)            // a viewer comes, goes or receives
    | End                        // all goroutines are done: tell the viewers

  function Begin(targets: seq<A.Target>, max: nat): Session {
    Session(M.Created(|targets|), A.Start(Pending(targets), max))
  }

  function Pending(targets: seq<A.Target>): seq<A.Target> {
    seq(|targets|, i requires 0 <= i < |targets| => targets[i].(status := A.Pending))
  }

  /** Whether an action calls update on its target. */
  predicate IsReport(m: M.Machine, a: M.Action) {
    M.Enabled(m, a) && ((a.Enter? && m.canceled) || a.Decline? || a.Launch? || a.Complete?)
  }

  /** The status an action gives to its target. */
  function Reported(a: M.Action): A.Status
    requires a.Enter? || a.Decline? || a.Launch? || a.Complete?
  {
    if a.Enter? then A.Canceled else if a.Launch? then A.Running else a.status
  }

  /** What is stored is a snapshot of the run. */
  function Filled(r: A.Run, a: M.Action): M.Action
    requires A.Shaped(r)
  {
    if a.Store? then M.Store(a.ok, A.Snapshot(r)) else a
  }

  ghost function Next(s: Session, act: Act): Session
    requires A.Shaped(s.run)
  {
    match act
    case Move(a) =>
      Session(M.Next(s.machine, Filled(s.run, a)),
              if IsReport(s.machine, a) then A.Step(s.run, A.Update(a.i, Reported(a))) else s.run)
    case Emit(i, p) =>
      if s.machine.alive && M.At(s.machine, i, M.Active) then s.(run := A.Step(s.run, A.Write(i, p))) else s
    case Watch(op) =>
      if s.machine.alive && (op.Subscribe? || op.Unsubscribe? || op.Receive?) then s.(run := A.Step(s.run, op)) else s
    case End =>
      if s.machine.alive && M.AllExited(s.machine) && !s.run.done then s.(run := A.Step(s.run, A.Finish)) else s
  }

  ghost function Run(s: Session, acts: seq<Act>): (r: Session)
    requires A.Shaped(s.run)
    ensures A.Shaped(r.run)
    decreases |acts|
  {
    if acts == [] then s else
      var before := Run(s, acts[..|acts| - 1]);
      NextShaped(before, acts[|acts| - 1]);
      Next(before, acts[|acts| - 1])
  }

  lemma NextShaped(s: Session, act: Act)
    requires A.Shaped(s.run)
    ensures A.Shaped(Next(s, act).run)
  {
    match act
    case Move(a) => if IsReport(s.machine, a) { A.StepShaped(s.run, A.Update(a.i, Reported(a))); }
    case Emit(i, p) => A.StepShaped(s.run, A.Write(i, p));
    case Watch(op) => A.StepShaped(s.run, op);
    case End => A.StepShaped(s.run, A.Finish);
  }

  // ---- Invariant ----

  /** The run shows its viewers the statuses the machine is in. */
  ghost predicate SameStatuses(s: Session) {
    && |s.run.targets| == |s.machine.tasks|
    && forall i :: 0 <= i < |s.run.targets| ==> s.run.targets[i].status == s.machine.tasks[i].status
  }

  /** A viewer whose channel was closed has everything shown since it came, and all statuses. */
  ghost predicate HasAll(r: A.Run, v: nat)
    requires v in r.viewers
  {
    var c := r.viewers[v];
    && v in r.from && |c.snapshot| == |r.from[v]| == |r.streams| && |c.shown| == |r.targets|
    && (forall i :: 0 <= i < |r.streams| ==> HasOutput(c, i, r.from[v][i], r.streams[i]))
    && (forall i :: 0 <= i < |r.targets| ==> A.StatusAfter(c.offered, i, c.shown[i].status) == r.targets[i].status)
  }

  ghost predicate HasOutput(c: A.Viewer, i: nat, lo: nat, stream: seq<Byte>)
    requires i < |c.snapshot|
  {
    lo <= |A.Shown(stream)| && A.Seen(c, i) == A.Shown(stream)[lo..]
  }

  ghost predicate ClosedHaveAll(r: A.Run) {
    forall v :: v in r.viewers && r.viewers[v].closed ==> r.done && HasAll(r, v)
  }

  /** A row that a run, not a restart, finished holds the run's output as it is now. */
  ghost predicate StoredOk(s: Session)
    requires A.Shaped(s.run)
  {
    s.machine.stored.finished ==>
      || (!s.machine.alive && s.machine.stored.output == NoOutput(|s.machine.tasks|))
      || (M.AllExited(s.machine) && s.machine.stored.output == A.Snapshot(s.run))
  }

  /** What the row holds before the run finishes. */
  ghost predicate UnfinishedOk(m: M.Machine) {
    !m.stored.finished ==> m.stored.output == NoOutput(|m.tasks|)
  }

  function NoOutput(n: nat): seq<seq<Byte>> {
    seq(n, i => [])
  }

  ghost predicate Inv(s: Session) {
    && M.Inv(s.machine) && A.Inv(s.run) && SameStatuses(s)
    && (s.run.done ==> M.AllExited(s.machine))
    && (forall v :: A.StatusOk(s.run, v))
    && ClosedHaveAll(s.run)
    && StoredOk(s) && UnfinishedOk(s.machine)
  }

  /** Before the end nobody's channel is closed, so an operation other than Finish closes none. */
  lemma OpenStaysOpen(r: A.Run, op: A.Op)
    requires A.Inv(r) && !r.done && ClosedHaveAll(r) && !op.Finish?
    ensures ClosedHaveAll(A.Step(r, op)) && !A.Step(r, op).done
  {
    var t := A.Step(r, op);
    forall v | v in t.viewers ensures !t.viewers[v].closed {
      assert v in r.viewers ==> !r.viewers[v].closed;
    }
  }

  lemma SameHas(r: A.Run, t: A.Run, v: nat)
    requires v in r.viewers && v in t.viewers && HasAll(r, v) && v in t.from && t.from[v] == r.from[v]
    requires t.streams == r.streams && t.targets == r.targets && t.viewers[v].snapshot == r.viewers[v].snapshot
    requires t.viewers[v].shown == r.viewers[v].shown && t.viewers[v].offered == r.viewers[v].offered
    ensures HasAll(t, v)
  {
    forall i | 0 <= i < |r.streams| ensures HasOutput(t.viewers[v], i, t.from[v][i], t.streams[i]) {
      assert HasOutput(r.viewers[v], i, r.from[v][i], r.streams[i]);
      assert A.Seen(t.viewers[v], i) == A.Seen(r.viewers[v], i);
    }
  }

  /** Viewers coming, going and receiving change nothing for the others. */
  lemma WatchKeepsClosed(r: A.Run, op: A.Op)
    requires A.Inv(r) && ClosedHaveAll(r) && (op.Subscribe? || op.Unsubscribe? || op.Receive?)
    ensures ClosedHaveAll(A.Step(r, op)) && A.Step(r, op).targets == r.targets && A.Step(r, op).done == r.done
  {
    var t := A.Step(r, op);
    forall v | v in t.viewers && t.viewers[v].closed ensures t.done && HasAll(t, v) {
      WatchLeaves(r, op, v);
      assert HasAll(r, v);
      SameHas(r, t, v);
    }
  }

  lemma WatchLeaves(r: A.Run, op: A.Op, v: nat)
    requires A.Inv(r) && (op.Subscribe? || op.Unsubscribe? || op.Receive?)
    requires v in A.Step(r, op).viewers && A.Step(r, op).viewers[v].closed
    ensures var t := A.Step(r, op);
            && v in r.viewers && r.viewers[v].closed && v in r.from && v in t.from && t.from[v] == r.from[v]
            && t.viewers[v].snapshot == r.viewers[v].snapshot && t.viewers[v].shown == r.viewers[v].shown
            && t.viewers[v].offered == r.viewers[v].offered
  {
  }

  /** Finishing closes exactly viewers who have seen everything. */
  lemma FinishGivesAll(r: A.Run)
    requires A.Inv(r) && !r.done && ClosedHaveAll(r) && forall v :: A.StatusOk(r, v)
    ensures ClosedHaveAll(A.Step(r, A.Finish))
  {
    var t := A.Step(r, A.Finish);
    A.FinishFields(r);
    forall v | v in t.viewers && t.viewers[v].closed ensures HasAll(t, v) {
      FinishGivesOne(r, v);
    }
  }

  lemma FinishGivesOne(r: A.Run, v: nat)
    requires A.Inv(r) && !r.done && A.StatusOk(r, v) && v in r.viewers && v in A.Subs(r)
    ensures var t := A.Step(r, A.Finish); v in t.viewers && HasAll(t, v)
  {
    var c, d := r.viewers[v], A.Offer(r.viewers[v], A.Finished).(closed := true);
    A.FinishFields(r);
    assert A.Step(r, A.Finish).viewers[v] == d;
    assert A.ViewerSeen(r, v);
    forall i | 0 <= i < |r.streams| ensures HasOutput(d, i, r.from[v][i], r.streams[i]) {
      assert A.TargetSeen(r, v, i);
      DoneIsNoOutput(c, d, i, r.from[v][i], r.streams[i]);
    }
    forall i | 0 <= i < |r.targets| ensures A.StatusAfter(d.offered, i, d.shown[i].status) == r.targets[i].status {
      A.StatusAfterOne(c.offered, A.Finished, i, c.shown[i].status);
    }
  }

  lemma DoneIsNoOutput(c: A.Viewer, d: A.Viewer, i: nat, lo: nat, stream: seq<Byte>)
    requires i < |c.snapshot| && d.snapshot == c.snapshot && d.offered == c.offered + [A.Finished]
    requires lo <= |A.Shown(stream)| && A.Seen(c, i) == A.Shown(stream)[lo..|A.Shown(stream)|]
    ensures HasOutput(d, i, lo, stream)
  {
    A.OutputOfOne(c.offered, A.Finished, i);
    assert A.Seen(d, i) == A.Seen(c, i);
  }

  lemma UpdateIsReport(s: Session, a: M.Action)
    requires Inv(s) && IsReport(s.machine, a)
    ensures a.i < |s.machine.tasks| && !M.AllExited(s.machine)
    ensures M.Next(s.machine, a).tasks == s.machine.tasks[a.i := M.Next(s.machine, a).tasks[a.i]]
    ensures M.Next(s.machine, a).tasks[a.i].status == Reported(a)
  {
    assert s.machine.tasks[a.i].phase != M.Exited;
  }

  lemma QuietMove(m: M.Machine, a: M.Action)
    requires !IsReport(m, a)
    ensures |M.Next(m, a).tasks| == |m.tasks|
    ensures forall i :: 0 <= i < |m.tasks| ==> M.Next(m, a).tasks[i].status == m.tasks[i].status
  {
  }

  lemma SameSnapshot(r: A.Run, t: A.Run)
    requires A.Shaped(r) && t.streams == r.streams && t.partial == r.partial && t.max == r.max
    ensures A.Snapshot(t) == A.Snapshot(r)
  {
  }

  lemma MoveKeepsStored(s: Session, a: M.Action)
    requires Inv(s) && A.Shaped(Next(s, Move(a)).run)
    ensures StoredOk(Next(s, Move(a))) && UnfinishedOk(Next(s, Move(a)).machine)
  {
    var t := Next(s, Move(a));
    M.TasksKept(s.machine, Filled(s.run, a));
    if IsReport(s.machine, a) {
      UpdateIsReport(s, a);
      assert t.machine.stored == s.machine.stored;
    } else {
      M.ExitedStays(s.machine, Filled(s.run, a));
    }
  }

  lemma ReportKeeps(s: Session, a: M.Action)
    requires Inv(s) && IsReport(s.machine, a)
    ensures Inv(Next(s, Move(a)))
  {
    M.NextKeeps(s.machine, a);
    UpdateIsReport(s, a);
    var op := A.Update(a.i, Reported(a));
    A.StepKeeps(s.run, op);
    OpenStaysOpen(s.run, op);
    forall v ensures A.StatusOk(A.Step(s.run, op), v) {
      A.StatusKept(s.run, op, v);
    }
    MoveKeepsStored(s, a);
  }

  lemma MoveKeeps(s: Session, a: M.Action)
    requires Inv(s)
    ensures Inv(Next(s, Move(a)))
  {
    if IsReport(s.machine, a) {
      ReportKeeps(s, a);
    } else {
      var b := Filled(s.run, a);
      M.NextKeeps(s.machine, b);
      QuietMove(s.machine, b);
      M.ExitedStays(s.machine, b);
      MoveKeepsStored(s, a);
    }
  }

  lemma WriteKeepsStatuses(s: Session, i: nat, p: seq<Byte>)
    requires A.Shaped(s.run) && SameStatuses(s) && i < |s.run.streams|
    ensures SameStatuses(s.(run := A.DoWrite(s.run, i, p)))
  {
    A.WriteFields(s.run, i, p);
  }

  lemma EmitKeeps(s: Session, i: nat, p: seq<Byte>)
    requires Inv(s) && M.At(s.machine, i, M.Active)
    ensures Inv(s.(run := A.Step(s.run, A.Write(i, p))))
  {
    var op := A.Write(i, p);
    assert !M.AllExited(s.machine);
    assert A.Inv(A.Step(s.run, op)) by {
      A.StepKeeps(s.run, op);
    }
    assert SameStatuses(s.(run := A.Step(s.run, op))) by {
      WriteKeepsStatuses(s, i, p);
    }
    OpenStaysOpen(s.run, op);
    forall v ensures A.StatusOk(A.Step(s.run, op), v) {
      A.StatusKept(s.run, op, v);
    }
  }

  lemma WatchKeeps(s: Session, op: A.Op)
    requires Inv(s) && (op.Subscribe? || op.Unsubscribe? || op.Receive?)
    ensures Inv(s.(run := A.Step(s.run, op)))
  {
    A.StepKeeps(s.run, op);
    WatchKeepsClosed(s.run, op);
    SameSnapshot(s.run, A.Step(s.run, op));
    forall v ensures A.StatusOk(A.Step(s.run, op), v) {
      A.StatusKept(s.run, op, v);
    }
  }

  lemma EndKeeps(s: Session)
    requires Inv(s) && M.AllExited(s.machine) && !s.run.done
    ensures Inv(s.(run := A.Step(s.run, A.Finish)))
  {
    A.StepKeeps(s.run, A.Finish);
    A.FinishFields(s.run);
    FinishGivesAll(s.run);
    SameSnapshot(s.run, A.Step(s.run, A.Finish));
    forall v ensures A.StatusOk(A.Step(s.run, A.Finish), v) {
      A.StatusKept(s.run, A.Finish, v);
    }
  }

  lemma NextKeeps(s: Session, act: Act)
    requires Inv(s)
    ensures Inv(Next(s, act))
  {
    match act
    case Move(a) => MoveKeeps(s, a);
    case Emit(i, p) => if s.machine.alive && M.At(s.machine, i, M.Active) { EmitKeeps(s, i, p); }
    case Watch(op) => if s.machine.alive && (op.Subscribe? || op.Unsubscribe? || op.Receive?) { WatchKeeps(s, op); }
    case End => if s.machine.alive && M.AllExited(s.machine) && !s.run.done { EndKeeps(s); }
  }

  lemma {:induction false} ReachableInv(targets: seq<A.Target>, max: nat, acts: seq<Act>)
    ensures Inv(Run(Begin(targets, max), acts))
    decreases |acts|
  {
    if acts == [] {
      M.ReachableInv(|targets|, []);
      A.StartInv(Pending(targets), max);
    } else {
      ReachableInv(targets, max, acts[..|acts| - 1]);
      NextKeeps(Run(Begin(targets, max), acts[..|acts| - 1]), acts[|acts| - 1]);
    }
  }

  // ---- What a schedule does to the run ----

  /** The operation on the run that an act performs, if it does. */
  ghost function Performs(s: Session, act: Act): Option<A.Op> {
    match act
    case Move(a) => if IsReport(s.machine, a) then Some(A.Update(a.i, Reported(a))) else None
    case Emit(i, p) => if s.machine.alive && M.At(s.machine, i, M.Active) then Some(A.Write(i, p)) else None
    case Watch(op) =>
      if s.machine.alive && (op.Subscribe? || op.Unsubscribe? || op.Receive?) then Some(op) else None
    case End => if s.machine.alive && M.AllExited(s.machine) && !s.run.done then Some(A.Finish) else None
  }

  /** All operations of a schedule. */
  ghost function Ops(s: Session, acts: seq<Act>): seq<A.Op>
    requires A.Shaped(s.run)
  {
    if acts == [] then []
    else
      var op := Performs(Run(s, acts[..|acts| - 1]), acts[|acts| - 1]);
      Ops(s, acts[..|acts| - 1]) + if op.Some? then [op.value] else []
  }

  /** The run after a schedule is what its operations make of it, and nothing else does anything. */
  lemma {:induction false} RunIsOps(s: Session, acts: seq<Act>)
    requires A.Shaped(s.run)
    ensures Run(s, acts).run == A.RunOps(s.run, Ops(s, acts))
    decreases |acts|
  {
    if acts != [] {
      var init := acts[..|acts| - 1];
      RunIsOps(s, init);
      var op := Performs(Run(s, init), acts[|acts| - 1]);
      if op.Some? {
        assert (Ops(s, init) + [op.value])[..|Ops(s, init)|] == Ops(s, init);
      } else {
        assert Ops(s, acts) == Ops(s, init);
      }
    }
  }

  /** The viewer's channel overflows in the schedule. */
  ghost predicate Overflowed(targets: seq<A.Target>, max: nat, acts: seq<Act>, v: nat) {
    var s := Begin(targets, max);
    A.Overflowed(s.run, Ops(s, acts), v)
  }

  lemma MissedIff(targets: seq<A.Target>, max: nat, acts: seq<Act>, v: nat)
    ensures var r := Run(Begin(targets, max), acts).run;
            v in r.viewers ==> (r.viewers[v].missed <==> Overflowed(targets, max, acts, v))
  {
    var s := Begin(targets, max);
    RunIsOps(s, acts);
    A.StartInv(Pending(targets), max);
    A.MissedIff(s.run, Ops(s, acts), v);
  }

  /** While the hub lives, whoever comes gets a snapshot, and is subscribed unless the run is done. */
  lemma WatchingBegins(s: Session, v: nat)
    requires Inv(s) && s.machine.alive && v !in s.run.viewers
    ensures var r := Next(s, Watch(A.Subscribe(v))).run;
            && v in r.viewers && r.viewers[v].snapshot == A.Snapshot(s.run) && r.viewers[v].shown == s.run.targets
            && (v in A.Subs(r) <==> !s.run.done)
  {
  }

  /** When all goroutines are done, the end is told to everyone subscribed, and closes them. */
  lemma EndTellsViewers(s: Session, v: nat)
    requires Inv(s) && s.machine.alive && M.AllExited(s.machine) && !s.run.done && v in A.Subs(s.run)
    ensures var r := Next(s, End).run;
            && r.done && v in r.viewers && r.viewers[v].closed
            && r.viewers[v].offered == s.run.viewers[v].offered + [A.Finished]
  {
    A.FinishClosesSubscribers(s.run, v);
    A.FinishFields(s.run);
  }

  // ---- Theorems ----

  /** A target that a cancellation finds before it started is never started and has no output. */
  lemma {:induction false} CanceledHasNoOutput(s: Session, acts: seq<Act>, i: nat)
    requires Inv(s) && s.machine.alive && i < |s.machine.tasks|
    requires s.machine.tasks[i].phase in {M.Waiting, M.Entered}
    ensures var r := Run(Next(s, Move(M.Cancel)), acts);
            && M.IsHeldOff(r.machine, i) && A.Running !in r.machine.tasks[i].log
            && i < |s.run.streams| == |r.run.streams| && r.run.streams[i] == s.run.streams[i]
    decreases |acts|
  {
    if acts == [] {
      M.CancelHoldsOff(s.machine, i);
    } else {
      var before, act := Run(Next(s, Move(M.Cancel)), acts[..|acts| - 1]), acts[|acts| - 1];
      CanceledHasNoOutput(s, acts[..|acts| - 1], i);
      NextEmits(before, act, i);
      if act.Move? {
        M.HeldOffStays(before.machine, Filled(before.run, act.a), i);
      }
    }
  }

  /**
   * In every schedule, a viewer who was subscribed when the run finished and whose channel never
   * overflowed has, once it has read its channel: of every target exactly the output shown since
   * its snapshot began, up to the bytes still held back, and the terminal status it ended with.
   */
  lemma ViewersSeeTheEnd(targets: seq<A.Target>, max: nat, acts: seq<Act>, v: nat, i: nat)
    requires i < |targets|
    requires var r := Run(Begin(targets, max), acts).run; v in r.viewers && r.viewers[v].closed
    requires !Overflowed(targets, max, acts, v)
    ensures var s := Run(Begin(targets, max), acts);
            var c := s.run.viewers[v];
            && |s.machine.tasks| == |s.run.streams| == |c.snapshot| == |c.shown| == |targets|
            && v in s.run.from && i < |s.run.from[v]| && s.run.from[v][i] <= |A.Shown(s.run.streams[i])|
            && c.snapshot[i] + A.OutputOf(c.got + c.queue, i) == A.Shown(s.run.streams[i])[s.run.from[v][i]..]
            && A.StatusAfter(c.got + c.queue, i, c.shown[i].status) == s.machine.tasks[i].status
            && M.Terminal(s.machine.tasks[i].status)
  {
    ReachableInv(targets, max, acts);
    MissedIff(targets, max, acts, v);
    TargetsKept(Begin(targets, max), acts);
    var s := Run(Begin(targets, max), acts);
    var c := s.run.viewers[v];
    assert A.ChannelInv(c) && HasAll(s.run, v) && HasOutput(c, i, s.run.from[v][i], s.run.streams[i]);
    assert M.TaskOk(s.machine.tasks[i], s.machine.canceled) && s.machine.tasks[i].phase == M.Exited;
  }

  lemma {:induction false} TargetsKept(s: Session, acts: seq<Act>)
    requires A.Shaped(s.run) && |s.machine.tasks| == |s.run.streams|
    ensures |Run(s, acts).run.streams| == |s.run.streams| == |Run(s, acts).machine.tasks|
    decreases |acts|
  {
    if acts != [] {
      var before, act := Run(s, acts[..|acts| - 1]), acts[|acts| - 1];
      TargetsKept(s, acts[..|acts| - 1]);
      match act
      case Move(a) =>
        M.TasksKept(before.machine, Filled(before.run, a));
        if IsReport(before.machine, a) {
          A.StepShaped(before.run, A.Update(a.i, Reported(a)));
        }
      case Emit(i, p) => A.StepShaped(before.run, A.Write(i, p));
      case Watch(op) => A.StepShaped(before.run, op);
      case End => A.StepShaped(before.run, A.Finish);
    }
  }

  /** After "done" the output is final: no schedule adds a byte or changes a status. */
  lemma {:induction false} DoneIsFinal(s: Session, acts: seq<Act>)
    requires Inv(s) && s.run.done
    ensures var r := Run(s, acts);
            Inv(r) && r.run.done && r.run.streams == s.run.streams && r.run.targets == s.run.targets
    decreases |acts|
  {
    if acts != [] {
      var before, act := Run(s, acts[..|acts| - 1]), acts[|acts| - 1];
      DoneIsFinal(s, acts[..|acts| - 1]);
      NextKeeps(before, act);
      DoneStays(before, act);
    }
  }

  lemma DoneStays(s: Session, act: Act)
    requires Inv(s) && s.run.done
    ensures var r := Next(s, act); r.run.done && r.run.streams == s.run.streams && r.run.targets == s.run.targets
  {
    if act.Move? && IsReport(s.machine, act.a) {
      UpdateIsReport(s, act.a);
    }
  }

  // ---- The stored output ----

  /** All bytes the script on target i writes in a schedule. */
  ghost function Emitted(s: Session, acts: seq<Act>, i: nat): seq<Byte>
    requires A.Shaped(s.run)
  {
    if acts == [] then []
    else
      var init, act := acts[..|acts| - 1], acts[|acts| - 1];
      var m := Run(s, init).machine;
      Emitted(s, init, i) + if act.Emit? && act.i == i && m.alive && M.At(m, i, M.Active) then act.p else []
  }

  lemma NextEmits(s: Session, act: Act, i: nat)
    requires A.Shaped(s.run) && i < |s.run.streams|
    ensures A.Shaped(Next(s, act).run) && |Next(s, act).run.streams| == |s.run.streams|
    ensures Next(s, act).run.max == s.run.max
    ensures Next(s, act).run.streams[i] == s.run.streams[i] +
            if act.Emit? && act.i == i && s.machine.alive && M.At(s.machine, i, M.Active) then act.p else []
  {
    match act
    case Move(a) =>
      if IsReport(s.machine, a) {
        A.StepShaped(s.run, A.Update(a.i, Reported(a)));
        A.StepWrites(s.run, A.Update(a.i, Reported(a)), i);
      }
    case Emit(j, p) =>
      A.StepShaped(s.run, A.Write(j, p));
      A.StepWrites(s.run, A.Write(j, p), i);
    case Watch(op) =>
      A.StepShaped(s.run, op);
      A.StepWrites(s.run, op, i);
    case End =>
      A.StepShaped(s.run, A.Finish);
      A.StepWrites(s.run, A.Finish, i);
  }

  lemma {:induction false} StreamIsEmitted(targets: seq<A.Target>, max: nat, acts: seq<Act>, i: nat)
    requires i < |targets|
    ensures var r := Run(Begin(targets, max), acts).run;
            |r.streams| == |targets| && r.streams[i] == Emitted(Begin(targets, max), acts, i) && r.max == max
    decreases |acts|
  {
    if acts != [] {
      StreamIsEmitted(targets, max, acts[..|acts| - 1], i);
      NextEmits(Run(Begin(targets, max), acts[..|acts| - 1]), acts[|acts| - 1], i);
    }
  }

  lemma {:induction false} StoredByTheRun(targets: seq<A.Target>, max: nat, acts: seq<Act>)
    requires Move(M.Restart) !in acts
    ensures var s := Run(Begin(targets, max), acts);
            s.machine.stored.finished ==> M.AllExited(s.machine) && s.machine.stored.output == A.Snapshot(s.run)
    decreases |acts|
  {
    if acts != [] {
      var before, act := Run(Begin(targets, max), acts[..|acts| - 1]), acts[|acts| - 1];
      StoredByTheRun(targets, max, acts[..|acts| - 1]);
      ReachableInv(targets, max, acts[..|acts| - 1]);
      StoredStays(before, act);
    }
  }

  /** A row stored by the run stays what the run shows: nothing is written any more. */
  lemma StoredStays(s: Session, act: Act)
    requires Inv(s) && act != Move(M.Restart)
    requires s.machine.stored.finished ==>
               M.AllExited(s.machine) && s.machine.stored.output == A.Snapshot(s.run)
    ensures var t := Next(s, act);
            && A.Shaped(t.run)
            && (t.machine.stored.finished ==> M.AllExited(t.machine) && t.machine.stored.output == A.Snapshot(t.run))
  {
    NextShaped(s, act);
    var t := Next(s, act);
    if act.Move? {
      M.ExitedStays(s.machine, Filled(s.run, act.a));
      if IsReport(s.machine, act.a) {
        UpdateIsReport(s, act.a);
      }
    } else if M.AllExited(s.machine) {
      if act.End? {
        A.FinishFields(s.run);
      }
      SameSnapshot(s.run, t.run);
    }
  }

  /** The row of target i after a schedule, once the run has stored it. */
  ghost predicate Stores(targets: seq<A.Target>, max: nat, acts: seq<Act>) {
    Move(M.Restart) !in acts && Run(Begin(targets, max), acts).machine.stored.finished
  }

  /** In every schedule the stored output is what is shown of everything the script wrote. */
  lemma StoredOutput(targets: seq<A.Target>, max: nat, acts: seq<Act>, i: nat)
    requires i < |targets| && Stores(targets, max, acts)
    ensures var out := Run(Begin(targets, max), acts).machine.stored.output;
            var w := Emitted(Begin(targets, max), acts, i);
            && i < |out| && out[i] == A.SnapshotOf(w, w[Complete(w)..], max)
            && out[i] == A.Shown(w)[A.FirstShown(w, max)..]
  {
    StoredByTheRun(targets, max, acts);
    StreamIsEmitted(targets, max, acts, i);
    ReachableInv(targets, max, acts);
    A.SnapshotIsShown(Emitted(Begin(targets, max), acts, i), max);
  }

  /** A run that a restart closes has no stored output at all. */
  lemma RestartStoresNoOutput(targets: seq<A.Target>, max: nat, acts: seq<Act>)
    requires var m := Run(Begin(targets, max), acts).machine; !m.alive && !m.stored.finished
    ensures var s := Run(Begin(targets, max), acts);
            var r := Next(s, Move(M.Restart)).machine.stored;
            r.finished && r.output == NoOutput(|s.machine.tasks|)
  {
    ReachableInv(targets, max, acts);
  }

  /**
   * All visible output is stored if and only if what the script wrote does not end in the
   * middle of a character.
   */
  lemma StoredCompleteIff(targets: seq<A.Target>, max: nat, acts: seq<Act>, i: nat)
    requires i < |targets| && Stores(targets, max, acts) && max >= UTF_MAX
    ensures var out := Run(Begin(targets, max), acts).machine.stored.output;
            var w := Emitted(Begin(targets, max), acts, i);
            i < |out| && (out[i] == Visible(w, max) <==> forall k :: 0 <= k < |w| ==> !IsCut(w[k..]))
  {
    StoredOutput(targets, max, acts, i);
    SnapshotIsAll(Emitted(Begin(targets, max), acts, i), max);
    NothingCut(Emitted(Begin(targets, max), acts, i));
  }

  lemma NothingCut(w: seq<Byte>)
    ensures (forall k :: !HeldAt(w, k)) <==> forall k :: 0 <= k < |w| ==> !IsCut(w[k..])
  {
    forall k | 0 <= k < |w| ensures HeldAt(w, k) <==> IsCut(w[k..]) {
      HeldIffCut(w, k);
    }
  }

  lemma SnapshotIsAll(w: seq<Byte>, max: nat)
    requires max >= UTF_MAX
    ensures A.SnapshotOf(w, w[Complete(w)..], max) == Visible(w, max) <==> forall k :: !HeldAt(w, k)
  {
    var b := Visible(w, max);
    SkipMeaning(Last(w, max), 0);
    CompleteMeaning(w);
    assert b[..|b|] == b;
  }

  /** For output in UTF-8 that means: if and only if it is well-formed as a whole. */
  lemma StoredCompleteIffWellFormed(targets: seq<A.Target>, max: nat, acts: seq<Act>, i: nat)
    requires i < |targets| && Stores(targets, max, acts) && max >= UTF_MAX
    requires Beginning(Emitted(Begin(targets, max), acts, i))
    ensures var out := Run(Begin(targets, max), acts).machine.stored.output;
            var w := Emitted(Begin(targets, max), acts, i);
            i < |out| && (out[i] == Visible(w, max) <==> WellFormed(w))
  {
    StoredCompleteIff(targets, max, acts, i);
    NothingCut(Emitted(Begin(targets, max), acts, i));
    WholeIffNothingHeld(Emitted(Begin(targets, max), acts, i));
  }

  lemma WholeIffNothingHeld(w: seq<Byte>)
    requires Beginning(w)
    ensures (forall k :: !HeldAt(w, k)) <==> WellFormed(w)
  {
    CompleteMeaning(w);
    if WellFormed(w) {
      WholeIsComplete(w);
    }
    var rest :| WellFormed(w + rest);
    CompleteIsBoundary(w, rest);
    assert w[..|w|] == w;
  }

  /** Whoever watched to the end has the stored output, and possibly older output before it. */
  lemma ViewersHaveWhatIsStored(targets: seq<A.Target>, max: nat, acts: seq<Act>, v: nat, i: nat)
    requires i < |targets| && Stores(targets, max, acts)
    requires var r := Run(Begin(targets, max), acts).run; v in r.viewers && r.viewers[v].closed
    requires !Overflowed(targets, max, acts, v)
    ensures var s := Run(Begin(targets, max), acts);
            var c, out := s.run.viewers[v], s.machine.stored.output;
            && i < |out| && i < |c.snapshot|
            && var has := c.snapshot[i] + A.OutputOf(c.got + c.queue, i);
               |out[i]| <= |has| && has[|has| - |out[i]|..] == out[i]
  {
    ViewersSeeTheEnd(targets, max, acts, v, i);
    StoredOutput(targets, max, acts, i);
    StreamIsEmitted(targets, max, acts, i);
    ReachableInv(targets, max, acts);
    var r := Run(Begin(targets, max), acts).run;
    assert A.ViewerSeen(r, v) && A.TargetSeen(r, v, i);
  }

  // ---- A run that loses a byte ----

  lemma RunOne(s: Session, acts: seq<Act>, act: Act)
    requires A.Shaped(s.run)
    ensures Run(s, acts + [act]) == Next(Run(s, acts), act)
    ensures Emitted(s, acts + [act], 0) == Emitted(s, acts, 0) +
            var m := Run(s, acts).machine;
            if act.Emit? && act.i == 0 && m.alive && M.At(m, 0, M.Active) then act.p else []
  {
    assert (acts + [act])[..|acts|] == acts;
  }

  /** A schedule leads to this machine and these bytes of target 0. */
  ghost predicate LeadsTo(s: Session, acts: seq<Act>, m: M.Machine, w: seq<Byte>)
    requires A.Shaped(s.run)
  {
    Run(s, acts).machine == m && Emitted(s, acts, 0) == w && forall act :: act in acts ==> act != Move(M.Restart)
  }

  lemma MoveOn(s: Session, acts: seq<Act>, a: M.Action, m: M.Machine, w: seq<Byte>)
    requires A.Shaped(s.run) && LeadsTo(s, acts, m, w) && !a.Store? && !a.Restart?
    ensures LeadsTo(s, acts + [Move(a)], M.Next(m, a), w)
  {
    RunOne(s, acts, Move(a));
    assert w + [] == w;
  }

  lemma EmitOn(s: Session, acts: seq<Act>, p: seq<Byte>, m: M.Machine, w: seq<Byte>)
    requires A.Shaped(s.run) && LeadsTo(s, acts, m, w) && m.alive && M.At(m, 0, M.Active)
    ensures LeadsTo(s, acts + [Emit(0, p)], m, w + p)
  {
    RunOne(s, acts, Emit(0, p));
  }

  /** The machine of a run on one system. */
  function Single(phase: M.Phase, slot: bool, log: seq<A.Status>): M.Machine {
    M.Machine([M.Task(phase, slot, if log == [] then A.Pending else log[|log| - 1], log)], if slot then 1 else 0,
              false, true, M.Record(false, [A.Pending], [[]]))
  }

  lemma SingleStarts()
    ensures M.Next(Single(M.Waiting, false, []), M.Acquire(0)) == Single(M.Entered, true, [])
    ensures M.Next(Single(M.Entered, true, []), M.Enter(0)) == Single(M.Checked, true, [])
    ensures M.Next(Single(M.Checked, true, []), M.Launch(0)) == Single(M.Active, true, [A.Running])
  {
    assert [] + [A.Running] == [A.Running];
  }

  lemma SingleEnds()
    ensures var log := [A.Running, A.Done];
            && M.Next(Single(M.Active, true, [A.Running]), M.Complete(0, A.Done)) == Single(M.Reported, true, log)
            && M.Next(Single(M.Reported, true, log), M.Leave(0)) == Single(M.Exited, false, log)
  {
    assert [A.Running] + [A.Done] == [A.Running, A.Done];
  }

  /** A run on one system whose script writes the first byte of a two-byte character. */
  lemma HalfRuns(target: A.Target, max: nat) returns (acts: seq<Act>)
    ensures LeadsTo(Begin([target], max), acts, Single(M.Exited, false, [A.Running, A.Done]), [0xC3])
  {
    var s := Begin([target], max);
    SingleStarts();
    SingleEnds();
    assert s.machine == Single(M.Waiting, false, []);
    acts := [];
    MoveOn(s, acts, M.Acquire(0), Single(M.Waiting, false, []), []);
    acts := acts + [Move(M.Acquire(0))];
    MoveOn(s, acts, M.Enter(0), Single(M.Entered, true, []), []);
    acts := acts + [Move(M.Enter(0))];
    MoveOn(s, acts, M.Launch(0), Single(M.Checked, true, []), []);
    acts := acts + [Move(M.Launch(0))];
    EmitOn(s, acts, [0xC3], Single(M.Active, true, [A.Running]), []);
    acts := acts + [Emit(0, [0xC3])];
    assert [] + [0xC3] == [0xC3 as Byte];
    MoveOn(s, acts, M.Complete(0, A.Done), Single(M.Active, true, [A.Running]), [0xC3]);
    acts := acts + [Move(M.Complete(0, A.Done))];
    MoveOn(s, acts, M.Leave(0), Single(M.Reported, true, [A.Running, A.Done]), [0xC3]);
    acts := acts + [Move(M.Leave(0))];
  }

  lemma ThenStored(targets: seq<A.Target>, max: nat, acts: seq<Act>, m: M.Machine, w: seq<Byte>)
    requires targets != [] && LeadsTo(Begin(targets, max), acts, m, w)
    requires m.alive && M.AllExited(m) && !m.stored.finished
    ensures var all := acts + [Move(M.Store(true, []))];
            Stores(targets, max, all) && Emitted(Begin(targets, max), all, 0) == w
  {
    var s := Begin(targets, max);
    TargetsKept(s, acts);
    RunOne(s, acts, Move(M.Store(true, [])));
    assert |A.Snapshot(Run(s, acts).run)| == |m.tasks|;
  }

  /** The byte is visible, but it is not stored. */
  lemma HalfCharacterIsLost(target: A.Target, max: nat) returns (acts: seq<Act>)
    requires max >= UTF_MAX
    ensures var s := Begin([target], max);
            && Stores([target], max, acts) && Emitted(s, acts, 0) == [0xC3] && Visible([0xC3], max) == [0xC3]
            && |Run(s, acts).machine.stored.output| > 0 && Run(s, acts).machine.stored.output[0] == []
  {
    acts := HalfRuns(target, max);
    ThenStored([target], max, acts, Single(M.Exited, false, [A.Running, A.Done]), [0xC3]);
    acts := acts + [Move(M.Store(true, []))];
    StoredOutput([target], max, acts, 0);
    var w: seq<Byte> := [0xC3];
    assert w[0..] == w && HeldAt(w, 0);
    CompleteIs(w, 0);
  }
}
