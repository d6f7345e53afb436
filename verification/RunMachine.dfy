/**
 * How a script run moves over its targets: one goroutine per target, a semaphore of 16,
 * cancellation at any point, the stored record, and a hub that may stop at any point.
 */
module RunMachine {
  import opened Wrappers
  import opened ActiveRuns
  import opened Utf8

  const RUN_PARALLEL: nat := 16

  predicate Terminal(st: Status) {
    st != Pending && st != Running
  }

  /** Where a target's goroutine is. */
  datatype Phase =
    | Waiting  // in the select: semaphore or cancellation
    | Entered  // about to check the context in runOn
    | Checked  // looking up the agent and opening the channel
    | Active   // the script runs
    | Reported // finish was called; the deferred release is still to come
    | Exited

  /** log holds every status the target was given, in order. */
  datatype Task = Task(phase: Phase, slot: bool, status: Status, log: seq<Status>)

  /** The row in script_runs. */
  datatype Record = Record(finished: bool, statuses: seq<Status>, output: seq<seq<Byte>>)

  datatype Machine = Machine(tasks: seq<Task>, sem: nat, canceled: bool, alive: bool, stored: Record)

  datatype Action =
    | Cancel
    | Acquire(i: nat)
    | GiveUp(i: nat)
    | Enter(i: nat)
    | Decline(i: nat, status: Status)
    | Launch(i: nat)
    | Complete(i: nat, status: Status)
    | Leave(i: nat)
    | Store(ok: bool, output: seq<seq<Byte>>) // the results with the output to store
    | Crash
    | Restart

  function Created(n: nat): Machine {
    Machine(seq(n, i => Task(Waiting, false, Pending, [])), 0, false, true,
            Record(false, seq(n, i => Pending), seq(n, i => [])))
  }

  predicate At(m: Machine, i: nat, phase: Phase) {
    i < |m.tasks| && m.tasks[i].phase == phase
  }

  predicate Enabled(m: Machine, a: Action) {
    m.alive != a.Restart? &&
    match a
    case Cancel => true
    case Crash => true
    case Restart => true
    case Acquire(i) => At(m, i, Waiting) && m.sem < RUN_PARALLEL
    case GiveUp(i) => At(m, i, Waiting) && m.canceled
    case Enter(i) => At(m, i, Entered)
    case Decline(i, st) => At(m, i, Checked) && (st == Skipped || st == Failed)
    case Launch(i) => At(m, i, Checked)
    case Complete(i, st) => At(m, i, Active) && (st == Done || st == Failed || (st == Canceled && m.canceled))
    case Leave(i) => At(m, i, Reported)
    case Store(_, output) => !m.stored.finished && AllExited(m) && |output| == |m.tasks|
  }

  /** wg.Wait has returned. */
  predicate AllExited(m: Machine) {
    forall i :: 0 <= i < |m.tasks| ==> m.tasks[i].phase == Exited
  }

  function SetTask(m: Machine, i: nat, t: Task): Machine
    requires i < |m.tasks|
  {
    m.(tasks := m.tasks[i := t])
  }

  /** The closure finish: one update of the target's status, then the goroutine is leaving. */
  function Finish(t: Task, st: Status): Task {
    t.(phase := Reported, status := st, log := t.log + [st])
  }

  function Interrupted(st: Status): Status {
    if st == Pending || st == Running then Failed else st
  }

  function Statuses(m: Machine): seq<Status> {
    seq(|m.tasks|, i requires 0 <= i < |m.tasks| => m.tasks[i].status)
  }

  /** One action; one that is not enabled changes nothing. */
  function Next(m: Machine, a: Action): Machine {
    if !Enabled(m, a) then m else
    match a
    case Cancel => m.(canceled := true)
    case Acquire(i) => SetTask(m, i, m.tasks[i].(phase := Entered, slot := true)).(sem := m.sem + 1)
    case GiveUp(i) => SetTask(m, i, m.tasks[i].(phase := Entered))
    case Enter(i) =>
      if m.canceled then SetTask(m, i, Finish(m.tasks[i], Canceled))
      else SetTask(m, i, m.tasks[i].(phase := Checked))
    case Decline(i, st) => SetTask(m, i, Finish(m.tasks[i], st))
    case Launch(i) =>
      SetTask(m, i, m.tasks[i].(phase := Active, status := Running, log := m.tasks[i].log + [Running]))
    case Complete(i, st) => SetTask(m, i, Finish(m.tasks[i], st))
    case Leave(i) =>
      var m1 := SetTask(m, i, m.tasks[i].(phase := Exited, slot := false));
      if m.tasks[i].slot && m.sem > 0 then m1.(sem := m.sem - 1) else m1
    case Store(ok, output) => if ok then m.(stored := Record(true, Statuses(m), output)) else m
    case Crash => m.(alive := false)
    case Restart => if m.stored.finished then m else m.(stored := CloseRecord(m.stored))
  }

  /** What finishInterruptedRuns does to an unfinished row. */
  function CloseRecord(r: Record): (c: Record)
    ensures c.finished && |c.statuses| == |r.statuses| && c.output == r.output
    ensures forall i :: 0 <= i < |r.statuses| ==>
              if r.statuses[i] in {Pending, Running} then c.statuses[i] == Failed else c.statuses[i] == r.statuses[i]
  {
    Record(true, seq(|r.statuses|, i requires 0 <= i < |r.statuses| => Interrupted(r.statuses[i])), r.output)
  }

  function RunActions(m: Machine, actions: seq<Action>): Machine {
    if actions == [] then m else Next(RunActions(m, actions[..|actions| - 1]), actions[|actions| - 1])
  }

  // ---- Invariant ----

  /** pending to running to terminal, or straight to terminal, and never anything after. */
  predicate Lawful(log: seq<Status>, status: Status) {
    || (log == [] && status == Pending)
    || (log == [Running] && status == Running)
    || (Terminal(status) && (log == [status] || log == [Running, status]))
  }

  predicate TaskOk(t: Task, canceled: bool) {
    && Lawful(t.log, t.status)
    && (t.status == Running ==> t.phase == Active)
    && (t.status == Canceled ==> canceled)
    && match t.phase
       case Waiting => !t.slot && t.log == []
       case Entered => t.log == [] && (t.slot || canceled)
       case Checked => t.log == [] && t.slot
       case Active => t.log == [Running] && t.slot
       case Reported => Terminal(t.status)
       case Exited => Terminal(t.status) && !t.slot
  }

  ghost function Slots(m: Machine): set<int> {
    set i | 0 <= i < |m.tasks| && m.tasks[i].slot
  }

  ghost predicate Inv(m: Machine) {
    && (forall i :: 0 <= i < |m.tasks| ==> TaskOk(m.tasks[i], m.canceled))
    && m.sem == |Slots(m)| <= RUN_PARALLEL
    && |m.stored.statuses| == |m.stored.output| == |m.tasks|
    && (m.stored.finished ==> forall i :: 0 <= i < |m.tasks| ==> Terminal(m.stored.statuses[i]))
  }

  lemma SlotsAfter(m: Machine, i: nat, t: Task)
    requires i < |m.tasks|
    ensures Slots(SetTask(m, i, t)) == if t.slot then Slots(m) + {i} else Slots(m) - {i}
  {
  }

  lemma TaskKeeps(m: Machine, i: nat, t: Task)
    requires Inv(m) && i < |m.tasks| && t.slot == m.tasks[i].slot && TaskOk(t, m.canceled)
    ensures Inv(SetTask(m, i, t))
  {
    SlotsAfter(m, i, t);
    assert Slots(SetTask(m, i, t)) == Slots(m);
  }

  lemma AcquireKeeps(m: Machine, i: nat)
    requires Inv(m) && Enabled(m, Acquire(i))
    ensures Inv(Next(m, Acquire(i)))
  {
    var t := m.tasks[i].(phase := Entered, slot := true);
    var r := Next(m, Acquire(i));
    SlotsAfter(m, i, t);
    assert Slots(r) == Slots(m) + {i};
    assert TaskOk(m.tasks[i], m.canceled);
    assert i !in Slots(m);
  }

  lemma LeaveKeeps(m: Machine, i: nat)
    requires Inv(m) && Enabled(m, Leave(i))
    ensures Inv(Next(m, Leave(i)))
  {
    var t := m.tasks[i].(phase := Exited, slot := false);
    var r := Next(m, Leave(i));
    SlotsAfter(m, i, t);
    assert Slots(r) == Slots(m) - {i};
    if m.tasks[i].slot {
      assert i in Slots(m);
    } else {
      assert Slots(r) == Slots(m);
    }
    forall j | 0 <= j < |m.tasks| ensures TaskOk(r.tasks[j], r.canceled) {
      assert TaskOk(m.tasks[j], m.canceled);
    }
  }

  lemma NextKeeps(m: Machine, a: Action)
    requires Inv(m)
    ensures Inv(Next(m, a))
  {
    if Enabled(m, a) {
      match a
      case Acquire(i) => AcquireKeeps(m, i);
      case Leave(i) => LeaveKeeps(m, i);
      case GiveUp(i) => TaskKeeps(m, i, m.tasks[i].(phase := Entered));
      case Enter(i) =>
        TaskKeeps(m, i, if m.canceled then Finish(m.tasks[i], Canceled) else m.tasks[i].(phase := Checked));
      case Decline(i, st) => TaskKeeps(m, i, Finish(m.tasks[i], st));
      case Launch(i) =>
        TaskKeeps(m, i, m.tasks[i].(phase := Active, status := Running, log := m.tasks[i].log + [Running]));
      case Complete(i, st) => TaskKeeps(m, i, Finish(m.tasks[i], st));
      case _ => assert Slots(Next(m, a)) == Slots(m);
    }
  }

  lemma {:induction false} ReachableInv(n: nat, actions: seq<Action>)
    ensures Inv(RunActions(Created(n), actions))
    ensures |RunActions(Created(n), actions).tasks| == n
    decreases |actions|
  {
    if actions == [] {
      assert Slots(Created(n)) == {};
    } else {
      ReachableInv(n, actions[..|actions| - 1]);
      NextKeeps(RunActions(Created(n), actions[..|actions| - 1]), actions[|actions| - 1]);
    }
  }

  // ---- Theorems over every schedule ----

  /** At most 16 targets run at any moment. */
  lemma AtMostSixteenRunning(n: nat, actions: seq<Action>)
    ensures var m := RunActions(Created(n), actions);
            |set i | 0 <= i < |m.tasks| && m.tasks[i].status == Running| <= 16
  {
    ReachableInv(n, actions);
    var m := RunActions(Created(n), actions);
    var running := set i | 0 <= i < |m.tasks| && m.tasks[i].status == Running;
    assert running <= Slots(m);
    SubsetSize(running, Slots(m));
  }

  /** Every target's statuses are lawful, and a goroutine that has reported never reports again. */
  lemma StatusesMoveForward(n: nat, actions: seq<Action>, i: nat)
    requires i < n
    ensures var m := RunActions(Created(n), actions);
            && i < |m.tasks| && Lawful(m.tasks[i].log, m.tasks[i].status)
            && (Terminal(m.tasks[i].status) <==> m.tasks[i].phase in {Reported, Exited})
            && (m.tasks[i].status == Canceled ==> m.canceled)
  {
    ReachableInv(n, actions);
    var m := RunActions(Created(n), actions);
    assert TaskOk(m.tasks[i], m.canceled);
  }

  // ---- Canceling ----

  /** The target of a canceled run has not started, or was reported as canceled without starting. */
  predicate IsHeldOff(m: Machine, i: nat) {
    && m.canceled && i < |m.tasks|
    && var t := m.tasks[i];
       || (t.phase in {Waiting, Entered} && t.status == Pending && t.log == [])
       || (t.phase in {Reported, Exited} && t.status == Canceled && t.log == [Canceled])
  }

  lemma HeldOffStays(m: Machine, a: Action, i: nat)
    requires IsHeldOff(m, i)
    ensures IsHeldOff(Next(m, a), i)
  {
    assert [] + [Canceled] == [Canceled];
  }

  lemma CancelHoldsOff(m: Machine, i: nat)
    requires Inv(m) && m.alive && i < |m.tasks| && m.tasks[i].phase in {Waiting, Entered}
    ensures IsHeldOff(Next(m, Cancel), i)
  {
    assert TaskOk(m.tasks[i], m.canceled);
  }

  /**
   * A target whose goroutine has not checked for cancellation when the run is canceled is never
   * started, whatever happens next, and can only end as canceled.
   */
  lemma {:induction false} CanceledNeverRuns(m: Machine, actions: seq<Action>, i: nat)
    requires Inv(m) && m.alive && i < |m.tasks| && m.tasks[i].phase in {Waiting, Entered}
    ensures var r := RunActions(Next(m, Cancel), actions);
            && i < |r.tasks| && Running !in r.tasks[i].log
            && (Terminal(r.tasks[i].status) ==> r.tasks[i].status == Canceled)
  {
    CancelHoldsOff(m, i);
    HeldOffForGood(Next(m, Cancel), actions, i);
  }

  lemma {:induction false} HeldOffForGood(m: Machine, actions: seq<Action>, i: nat)
    requires IsHeldOff(m, i)
    ensures IsHeldOff(RunActions(m, actions), i)
    decreases |actions|
  {
    if actions != [] {
      HeldOffForGood(m, actions[..|actions| - 1], i);
      HeldOffStays(RunActions(m, actions[..|actions| - 1]), actions[|actions| - 1], i);
    }
  }

  /** Nor does it have to wait for a slot: it can report at once, however full the semaphore is. */
  lemma CanceledNeedNotWait(m: Machine, i: nat)
    requires Inv(m) && m.alive && m.canceled && At(m, i, Waiting)
    ensures var r := Next(Next(Next(m, GiveUp(i)), Enter(i)), Leave(i));
            At(r, i, Exited) && r.tasks[i].status == Canceled && r.sem == m.sem
  {
    assert TaskOk(m.tasks[i], m.canceled);
  }

  /** A slot is free while fewer than 16 are taken, and a waiting target can have it. */
  lemma FreeSlotIsTaken(m: Machine, i: nat)
    requires Inv(m) && m.alive && At(m, i, Waiting) && |Slots(m)| < 16
    ensures var r := Next(m, Acquire(i)); At(r, i, Entered) && Slots(r) == Slots(m) + {i}
  {
    SlotsAfter(m, i, m.tasks[i].(phase := Entered, slot := true));
  }

  /** The results are stored when all targets are done; a write the store refuses leaves the row as it was. */
  lemma StoreMeaning(m: Machine, ok: bool, output: seq<seq<Byte>>)
    requires m.alive && AllExited(m) && !m.stored.finished && |output| == |m.tasks|
    ensures var r := Next(m, Store(ok, output)).stored;
            if ok then r.finished && r.statuses == Statuses(m) && r.output == output else r == m.stored
  {
  }

  /** A target that is let in is started or declined, and a started one can end in each way. */
  lemma EveryOutcomeIsPossible(m: Machine, i: nat, st: Status)
    requires Inv(m) && m.alive && i < |m.tasks|
    ensures At(m, i, Checked) ==> At(Next(m, Launch(i)), i, Active) && Next(m, Launch(i)).tasks[i].status == Running
    ensures At(m, i, Checked) && st in {Skipped, Failed} ==> EndsAs(Next(m, Decline(i, st)), i, st)
    ensures At(m, i, Active) && (st in {Done, Failed} || (st == Canceled && m.canceled)) ==>
              EndsAs(Next(m, Complete(i, st)), i, st)
  {
  }

  /** The goroutine has reported this status. */
  predicate EndsAs(m: Machine, i: nat, st: Status) {
    At(m, i, Reported) && m.tasks[i].status == st
  }

  /** When the hub stops, the goroutines are gone with it: no target moves any more. */
  lemma {:induction false} NothingAfterCrash(m: Machine, actions: seq<Action>)
    requires m.alive
    ensures var r := RunActions(Next(m, Crash), actions); !r.alive && r.tasks == m.tasks
    decreases |actions|
  {
    if actions != [] {
      NothingAfterCrash(m, actions[..|actions| - 1]);
    }
  }

  // ---- The end of a run ----

  /** Once terminal, a target's status and log stay as they are, whatever happens next. */
  lemma {:induction false} TerminalIsFinal(m: Machine, actions: seq<Action>, i: nat)
    requires Inv(m) && i < |m.tasks| && Terminal(m.tasks[i].status)
    ensures var r := RunActions(m, actions);
            Inv(r) && i < |r.tasks| && r.tasks[i].status == m.tasks[i].status && r.tasks[i].log == m.tasks[i].log
    decreases |actions|
  {
    if actions != [] {
      var before := RunActions(m, actions[..|actions| - 1]);
      TerminalIsFinal(m, actions[..|actions| - 1], i);
      NextKeeps(before, actions[|actions| - 1]);
      TerminalStays(before, actions[|actions| - 1], i);
    }
  }

  lemma TasksKept(m: Machine, a: Action)
    ensures |Next(m, a).tasks| == |m.tasks|
  {
  }

  lemma TerminalStays(m: Machine, a: Action, i: nat)
    requires Inv(m) && i < |m.tasks| && Terminal(m.tasks[i].status)
    ensures var r := Next(m, a);
            i < |r.tasks| && r.tasks[i].status == m.tasks[i].status && r.tasks[i].log == m.tasks[i].log
  {
    assert TaskOk(m.tasks[i], m.canceled);
  }

  /** A row stored as finished, by the run or by a restart at any point, is terminal throughout. */
  lemma FinishedRowsAreTerminal(n: nat, actions: seq<Action>)
    ensures var m := RunActions(Created(n), actions);
            m.stored.finished ==> |m.stored.statuses| == n && forall i :: 0 <= i < n ==> Terminal(m.stored.statuses[i])
    ensures var m := RunActions(Created(n), actions);
            !m.alive ==> Next(m, Restart).stored.finished
  {
    ReachableInv(n, actions);
  }

  /** Without restarts the row that is stored holds the statuses viewers saw, for good. */
  lemma {:induction false} StoredAsReported(n: nat, actions: seq<Action>)
    requires Restart !in actions
    ensures var m := RunActions(Created(n), actions);
            m.stored.finished ==> AllExited(m) && m.stored.statuses == Statuses(m)
    decreases |actions|
  {
    if actions != [] {
      var before := RunActions(Created(n), actions[..|actions| - 1]);
      StoredAsReported(n, actions[..|actions| - 1]);
      ExitedStays(before, actions[|actions| - 1]);
    }
  }

  lemma ExitedStays(m: Machine, a: Action)
    ensures AllExited(m) ==> Next(m, a).tasks == m.tasks
    ensures || Next(m, a).stored == m.stored || a == Restart
            || (a.Store? && AllExited(m) && Next(m, a).stored == Record(true, Statuses(m), a.output))
  {
  }

  /** The action a goroutine would take next, or, while it waits, one that gets it on its way. */
  ghost predicate Moves(m: Machine, a: Action, i: nat) {
    && Enabled(m, a) && Next(m, a) != m
    && match a
       case Acquire(j) => j == i
       case GiveUp(j) => j == i
       case Enter(j) => j == i
       case Decline(j, _) => j == i
       case Launch(j) => j == i
       case Complete(j, _) => j == i
       case Leave(j) => j == i
       case _ => false
  }

  /**
   * No schedule gets stuck: while the hub lives and some goroutine has not exited, some
   * goroutine can move, because a full semaphore is held by goroutines that do not wait.
   */
  lemma NeverStuck(n: nat, actions: seq<Action>) returns (i: nat, a: Action)
    requires var m := RunActions(Created(n), actions); m.alive && !AllExited(m)
    ensures Moves(RunActions(Created(n), actions), a, i)
  {
    ReachableInv(n, actions);
    var m := RunActions(Created(n), actions);
    if k :| 0 <= k < |m.tasks| && m.tasks[k].phase != Exited && m.tasks[k].phase != Waiting {
      i := k;
      a := NextOf(m, i);
    } else {
      i :| 0 <= i < |m.tasks| && m.tasks[i].phase != Exited;
      assert Slots(m) == {} by {
        assert forall k :: 0 <= k < |m.tasks| ==> TaskOk(m.tasks[k], m.canceled);
      }
      a := Acquire(i);
      assert Next(m, a).tasks[i].phase == Entered;
    }
  }

  lemma NextOf(m: Machine, i: nat) returns (a: Action)
    requires Inv(m) && m.alive && i < |m.tasks| && m.tasks[i].phase != Exited && m.tasks[i].phase != Waiting
    ensures Moves(m, a, i)
  {
    match m.tasks[i].phase
    case Entered => a := Enter(i);
    case Checked => a := Launch(i);
    case Active => a := Complete(i, Failed);
    case Reported => a := Leave(i);
    assert Next(m, a).tasks[i].phase != m.tasks[i].phase;
  }

  function Left(p: Phase): nat {
    match p
    case Waiting => 5
    case Entered => 4
    case Checked => 3
    case Active => 2
    case Reported => 1
    case Exited => 0
  }

  /** How many moves the goroutines have left at most. */
  function MovesLeft(tasks: seq<Task>): nat {
    if tasks == [] then 0 else MovesLeft(tasks[..|tasks| - 1]) + Left(tasks[|tasks| - 1].phase)
  }

  lemma {:induction false} MovesLeftAfter(tasks: seq<Task>, i: nat, t: Task)
    requires i < |tasks|
    ensures MovesLeft(tasks[i := t]) == MovesLeft(tasks) - Left(tasks[i].phase) + Left(t.phase)
  {
    var init := tasks[..|tasks| - 1];
    if i == |tasks| - 1 {
      assert tasks[i := t][..|tasks| - 1] == init;
    } else {
      assert tasks[i := t][..|tasks| - 1] == init[i := t];
      MovesLeftAfter(init, i, t);
    }
  }

  /** And every move is one of finitely many, so a run whose goroutines keep moving ends. */
  lemma MovesRunOut(m: Machine, a: Action, i: nat)
    requires Moves(m, a, i)
    ensures MovesLeft(Next(m, a).tasks) < MovesLeft(m.tasks)
  {
    var t := Next(m, a).tasks[i];
    assert Next(m, a).tasks == m.tasks[i := t];
    MovesLeftAfter(m.tasks, i, t);
  }

  // ---- The restart loop ----

  /**
   * Closes every unfinished row of the table. The store may refuse to write some rows, which
   * ends the loop with an error.
   */
  method FinishInterruptedRuns(table: map<nat, Record>, refused: set<nat>) returns (ok: bool, out: map<nat, Record>)
    ensures out.Keys == table.Keys
    ensures ok <==> forall id :: id in refused && id in table ==> table[id].finished
    ensures forall id :: id in table ==>
              out[id] == table[id] || (!table[id].finished && out[id] == CloseRecord(table[id]))
    ensures ok ==> forall id :: id in out ==> out[id].finished
  {
    var todo := set id | id in table && !table[id].finished;
    out := table;
    while todo != {}
      invariant out.Keys == table.Keys
      invariant forall id :: id in todo ==> id in table && !table[id].finished && out[id] == table[id]
      invariant forall id :: id in table && id !in todo ==>
                  out[id] == if table[id].finished then table[id] else CloseRecord(table[id])
      invariant forall id :: id in refused && id in table && id !in todo ==> table[id].finished
      decreases todo
    {
      var id :| id in todo;
      var statuses := out[id].statuses;
      var closed: seq<Status> := [];
      for k := 0 to |statuses|
        invariant |closed| == k
        invariant forall j :: 0 <= j < k ==> closed[j] == Interrupted(statuses[j])
      {
        var st := statuses[k];
        if st == Pending || st == Running {
          st := Failed;
        }
        closed := closed + [st];
      }
      if id in refused {
        return false, out;
      }
      assert Record(true, closed, out[id].output) == CloseRecord(table[id]);
      out := out[id := Record(true, closed, out[id].output)];
      todo := todo - {id};
    }
    ok := true;
  }
}
