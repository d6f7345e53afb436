/**
 * The alert engine when the store refuses writes that should resolve alerts. The source logs
 * such a failure and carries on, so memory and table can disagree. These are the runs in which
 * they do, the rows that are left over, and what brings the two back together.
 */
module LostWrites {
  import opened AlertModel
  import opened Wrappers

  /** Since when a firing pair is back to normal, if an evaluation now finds it so. */
  function ClearSince(st: PairState, now: int): int {
    if st.clearSince.Some? then st.clearSince.value else now
  }

  /** An evaluation that is due to resolve the pair's alert. */
  predicate IsDue(states: map<Key, PairState>, e: Eval) {
    Firing(states, KeyOf(e)) && !e.holds && e.now - ClearSince(states[KeyOf(e)], e.now) >= e.delay
  }

  /** A refused write that had the alert of a firing pair to resolve. */
  ghost predicate LosesWrite(s: Engine, op: Op) {
    match op
    case Evaluate(e) => !e.written && IsDue(s.states, e)
    case Reset(rule, system, _, written) => !written && exists k :: Firing(s.states, k) && Covers(rule, system, k)
    case _ => false
  }

  /** From a state in agreement, one operation keeps agreement exactly when it loses no write. */
  lemma AgreementNeedsResolveWrites(s: Engine, op: Op)
    requires Inv(s) && Sound(s, op)
    ensures Agree(Apply(s, op).states, Apply(s, op).rows) <==> !LosesWrite(s, op)
  {
    if Allowed(s, op) {
      ApplyKeeps(s, op);
    } else if LosesWrite(s, op) {
      var k :| Firing(s.states, k) && (if op.Evaluate? then k == KeyOf(op.e) else Covers(op.rule, op.system, k));
      var id := s.states[k].alert.value.id;
      assert id in Apply(s, op).rows && RowKey(s.rows[id]) == k;
    } else if op.Evaluate? {
      var e := op.e.(written := true);
      ApplyKeeps(s, Evaluate(e));
      assert Apply(s, op) == Apply(s, Evaluate(e));
    } else {
      var t := Apply(s, op);
      assert forall k :: Firing(t.states, k) <==> Firing(s.states, k);
    }
  }

  // ---- What holds in every run, lost writes or not ----

  /** Every alert in memory is an unresolved row of its pair. */
  ghost predicate Backed(states: map<Key, PairState>, rows: map<nat, Alert>) {
    forall k :: Firing(states, k) ==> IsBacked(states, rows, k)
  }

  predicate IsBacked(states: map<Key, PairState>, rows: map<nat, Alert>, k: Key)
    requires Firing(states, k)
  {
    var a := states[k].alert.value;
    RowKey(a) == k && a.resolvedAt.None? && a.id in rows && rows[a.id] == a
  }

  /** The row is the alert memory holds for its pair. */
  predicate IsHeld(s: Engine, id: nat) {
    id in s.rows && Firing(s.states, RowKey(s.rows[id])) && s.states[RowKey(s.rows[id])].alert.value == s.rows[id]
  }

  /** An unresolved row that memory does not know. */
  predicate IsOrphan(s: Engine, id: nat) {
    id in s.rows && s.rows[id].resolvedAt.None? && !IsHeld(s, id)
  }

  ghost predicate SoundInv(s: Engine) {
    IdsOk(s) && Backed(s.states, s.rows)
  }

  lemma EvaluateKeepsBacked(s: Engine, e: Eval)
    requires SoundInv(s) && Sound(s, Evaluate(e))
    ensures SoundInv(EvaluatePair(s, e))
  {
    var t, k := EvaluatePair(s, e), KeyOf(e);
    forall j | Firing(t.states, j) ensures IsBacked(t.states, t.rows, j) {
      if j != k || Firing(s.states, k) {
        assert IsBacked(s.states, s.rows, j);
        assert Firing(s.states, k) ==> IsBacked(s.states, s.rows, k);
      }
    }
  }

  lemma RestartKeepsBacked(s: Engine, active: seq<Alert>)
    requires SoundInv(s) && IsActive(s.rows, active)
    ensures SoundInv(Apply(s, Restart(active)))
  {
    RestoredMeaning(active);
    var states := Restored(active);
    forall k | k in states ensures k.rule != 0 && k.system != 0 && (Firing(states, k) ==> IsBacked(states, s.rows, k)) {
      var i :| 0 <= i < |active| && IsRestored(active[i], k, states[k]);
    }
  }

  lemma SoundKeeps(s: Engine, op: Op)
    requires SoundInv(s) && Sound(s, op)
    ensures SoundInv(Apply(s, op))
  {
    match op
    case Evaluate(e) => EvaluateKeepsBacked(s, e);
    case Restart(active) => RestartKeepsBacked(s, active);
    case Reset(_, _, _, _) => ForgottenOrKept(s, op);
    case Prune(_) => ForgottenOrKept(s, op);
  }

  lemma ForgottenOrKept(s: Engine, op: Op)
    requires SoundInv(s) && (op.Reset? || op.Prune?)
    ensures SoundInv(Apply(s, op))
  {
    var t := Apply(s, op);
    forall k | Firing(t.states, k) ensures IsBacked(t.states, t.rows, k) {
      assert IsBacked(s.states, s.rows, k);
    }
  }

  lemma {:induction false} RunsAreBacked(ops: seq<Op>)
    requires AllSound(EMPTY, ops)
    ensures SoundInv(ApplyAll(EMPTY, ops))
    decreases |ops|
  {
    if ops != [] {
      RunsAreBacked(ops[..|ops| - 1]);
      SoundKeeps(ApplyAll(EMPTY, ops[..|ops| - 1]), ops[|ops| - 1]);
    }
  }

  // ---- Firing twice ----

  /** No firing while the last word on the pair is a firing. */
  ghost predicate FiresApart(log: seq<Entry>) {
    forall j :: 0 <= j < |log| && log[j].Fired? ==> !Open(log[..j], log[j].key)
  }

  /** Memory may know an alert the log has closed, after a lost write and a restart, but not less. */
  ghost predicate LogInv(s: Engine) {
    FiresApart(s.log) && forall k :: Open(s.log, k) ==> Firing(s.states, k)
  }

  lemma FiresApartOne(log: seq<Entry>, entry: Entry)
    requires FiresApart(log) && (entry.Fired? ==> !Open(log, entry.key))
    ensures FiresApart(log + [entry])
  {
    forall j | 0 <= j <= |log| ensures (log + [entry])[..j] == log[..j] {
    }
    assert log[..|log|] == log;
  }

  /** One more entry in the log: what it opens fires, and what it does not end fires as before. */
  lemma LogOne(s: Engine, t: Engine, entry: Entry)
    requires LogInv(s) && t.log == s.log + [entry] && (entry.Fired? ==> !Firing(s.states, entry.key))
    requires forall k :: entry == Fired(k) || (Firing(s.states, k) && !Ends(entry, k)) ==> Firing(t.states, k)
    ensures LogInv(t)
  {
    FiresApartOne(s.log, entry);
    forall k | Open(t.log, k) ensures Firing(t.states, k) {
      OpenOne(s.log, entry, k);
    }
  }

  lemma EvaluateKeepsLog(s: Engine, e: Eval)
    requires LogInv(s)
    ensures LogInv(EvaluatePair(s, e))
  {
    var t, k := EvaluatePair(s, e), KeyOf(e);
    match StepPair(Get(s.states, k), e).1 {
      case Quiet => assert forall j :: Firing(t.states, j) <==> Firing(s.states, j);
      case Fire(_) => LogOne(s, t, Fired(k));
      case Resolve(_) => LogOne(s, t, Resolved(k));
    }
  }

  lemma LogKept(s: Engine, op: Op)
    requires SoundInv(s) && LogInv(s) && Sound(s, op)
    ensures LogInv(Apply(s, op))
  {
    match op
    case Evaluate(e) => EvaluateKeepsLog(s, e);
    case Reset(rule, system, _, _) => LogOne(s, Apply(s, op), Cleared(rule, system));
    case Prune(_) =>
    case Restart(active) =>
      RestoredMeaning(active);
      forall k | Firing(s.states, k) ensures Firing(Restored(active), k) {
        assert IsBacked(s.states, s.rows, k);
        assert s.states[k].alert.value in active;
        var i :| 0 <= i < |active| && IsRestored(active[i], k, Restored(active)[k]);
      }
  }

  lemma {:induction false} LogsAreOk(ops: seq<Op>)
    requires AllSound(EMPTY, ops)
    ensures LogInv(ApplyAll(EMPTY, ops))
    decreases |ops|
  {
    if ops != [] {
      LogsAreOk(ops[..|ops| - 1]);
      RunsAreBacked(ops[..|ops| - 1]);
      LogKept(ApplyAll(EMPTY, ops[..|ops| - 1]), ops[|ops| - 1]);
    }
  }

  /** Whatever writes are lost, between two firings of a pair there is a resolve or a reset of it. */
  lemma NoSecondFiring(ops: seq<Op>, i: nat, j: nat, k: Key)
    requires AllSound(EMPTY, ops)
    requires var log := ApplyAll(EMPTY, ops).log; i < j < |log| && log[i] == Fired(k) && log[j] == Fired(k)
    ensures var log := ApplyAll(EMPTY, ops).log;
            exists m :: i < m < j && Ends(log[m], k)
  {
    LogsAreOk(ops);
    var log := ApplyAll(EMPTY, ops).log;
    assert !Open(log[..j], k);
    if forall m :: i < m < j ==> !Ends(log[m], k) {
      StaysOpen(log, i, j, k);
    }
  }

  // ---- Which rows are left over ----

  /** The row a restarted hub takes for its pair: the last one of the pair in the list it reads. */
  predicate IsAdopted(active: seq<Alert>, id: nat) {
    active != [] &&
    var last := active[|active| - 1];
    last.id == id || (IsAdopted(active[..|active| - 1], id) && !SharesPair(active, id, last))
  }

  predicate SharesPair(active: seq<Alert>, id: nat, last: Alert) {
    exists i :: 0 <= i < |active| && active[i].id == id && RowKey(active[i]) == RowKey(last)
  }

  /** How an operation decides whether a row is left over: was says whether it was before. */
  ghost predicate OrphanAfter(s: Engine, was: bool, op: Op, id: nat) {
    match op
    case Evaluate(e) => was || (LosesWrite(s, op) && IsHeld(s, id) && RowKey(s.rows[id]) == KeyOf(e))
    case Reset(rule, system, _, written) =>
      if id in s.rows && Covers(rule, system, RowKey(s.rows[id])) then !written && (was || IsHeld(s, id)) else was
    case Restart(active) => id in s.rows && s.rows[id].resolvedAt.None? && !IsAdopted(active, id)
    case Prune(_) => was
  }

  lemma EvaluateOrphans(s: Engine, e: Eval, id: nat)
    requires SoundInv(s) && Sound(s, Evaluate(e))
    ensures IsOrphan(EvaluatePair(s, e), id) <==> OrphanAfter(s, IsOrphan(s, id), Evaluate(e), id)
  {
    var k := KeyOf(e);
    if Firing(s.states, k) {
      assert IsBacked(s.states, s.rows, k);
    }
    if id in s.rows && Firing(s.states, RowKey(s.rows[id])) {
      assert IsBacked(s.states, s.rows, RowKey(s.rows[id]));
    }
  }

  lemma ResetOrphans(s: Engine, op: Op, id: nat)
    requires SoundInv(s) && (op.Reset? || op.Prune?)
    ensures IsOrphan(Apply(s, op), id) <==> OrphanAfter(s, IsOrphan(s, id), op, id)
  {
    if id in s.rows && Firing(s.states, RowKey(s.rows[id])) {
      assert IsBacked(s.states, s.rows, RowKey(s.rows[id]));
    }
  }

  /** The list a restart reads holds rows of the table. */
  ghost predicate Lists(rows: map<nat, Alert>, active: seq<Alert>) {
    forall i :: 0 <= i < |active| ==> active[i].id in rows && rows[active[i].id] == active[i]
  }

  lemma {:induction false} AdoptedIsRestored(rows: map<nat, Alert>, active: seq<Alert>, id: nat)
    requires Lists(rows, active) && id in rows && rows[id].id == id
    ensures IsAdopted(active, id) <==>
            RowKey(rows[id]) in Restored(active) && Restored(active)[RowKey(rows[id])].alert == Some(rows[id])
    decreases |active|
  {
    if active != [] {
      var init, last := active[..|active| - 1], active[|active| - 1];
      AdoptedIsRestored(rows, init, id);
      if IsAdopted(init, id) {
        AdoptedIsListed(init, id);
        var i :| 0 <= i < |init| && init[i].id == id;
        assert active[i].id == id && active[i] == rows[id];
      }
    }
  }

  lemma {:induction false} AdoptedIsListed(active: seq<Alert>, id: nat)
    requires IsAdopted(active, id)
    ensures exists i :: 0 <= i < |active| && active[i].id == id
    decreases |active|
  {
    if active[|active| - 1].id != id {
      AdoptedIsListed(active[..|active| - 1], id);
      var i :| 0 <= i < |active[..|active| - 1]| && active[..|active| - 1][i].id == id;
      assert active[i].id == id;
    }
  }

  lemma OrphansExactly(s: Engine, op: Op, id: nat)
    requires SoundInv(s) && Sound(s, op)
    ensures IsOrphan(Apply(s, op), id) <==> OrphanAfter(s, IsOrphan(s, id), op, id)
  {
    match op
    case Evaluate(e) => EvaluateOrphans(s, e, id);
    case Reset(_, _, _, _) => ResetOrphans(s, op, id);
    case Prune(_) => ResetOrphans(s, op, id);
    case Restart(active) =>
      if id in s.rows {
        AdoptedIsRestored(s.rows, active, id);
      }
  }

  /** Whether a row is left over after a run, from the operations of the run. */
  ghost predicate Orphaned(ops: seq<Op>, id: nat) {
    ops != [] &&
    var init := ops[..|ops| - 1];
    OrphanAfter(ApplyAll(EMPTY, init), Orphaned(init, id), ops[|ops| - 1], id)
  }

  lemma {:induction false} OrphanedMeans(ops: seq<Op>, id: nat)
    requires AllSound(EMPTY, ops)
    ensures Orphaned(ops, id) <==> IsOrphan(ApplyAll(EMPTY, ops), id)
    decreases |ops|
  {
    if ops != [] {
      OrphanedMeans(ops[..|ops| - 1], id);
      RunsAreBacked(ops[..|ops| - 1]);
      OrphansExactly(ApplyAll(EMPTY, ops[..|ops| - 1]), ops[|ops| - 1], id);
    }
  }

  /**
   * After any run, whatever writes were lost, memory and table agree if and only if no row is
   * left over: none whose resolve was lost and that neither a later reset resolved nor a later
   * restart adopted, and none that lost its place to another row of its pair at a restart.
   */
  lemma AgreementIff(ops: seq<Op>)
    requires AllSound(EMPTY, ops)
    ensures var s := ApplyAll(EMPTY, ops);
            Agree(s.states, s.rows) <==> forall id :: !Orphaned(ops, id)
  {
    RunsAreBacked(ops);
    var s := ApplyAll(EMPTY, ops);
    AgreeIffNoOrphans(s);
    if Agree(s.states, s.rows) {
      forall id: nat ensures !Orphaned(ops, id) {
        OrphanedMeans(ops, id);
      }
    } else {
      var id: nat :| IsOrphan(s, id);
      OrphanedMeans(ops, id);
    }
  }

  lemma AgreeIffNoOrphans(s: Engine)
    requires SoundInv(s)
    ensures Agree(s.states, s.rows) <==> forall id :: !IsOrphan(s, id)
  {
    if Agree(s.states, s.rows) {
      assert forall id :: !IsOrphan(s, id);
    }
    if forall id :: !IsOrphan(s, id) {
      forall id | id in s.rows && s.rows[id].resolvedAt.None?
        ensures Firing(s.states, RowKey(s.rows[id])) && s.states[RowKey(s.rows[id])].alert.value == s.rows[id]
      {
        assert !IsOrphan(s, id);
      }
      assert forall k :: Firing(s.states, k) ==> IsBacked(s.states, s.rows, k);
    }
  }

  // ---- Restarts ----

  /** No pair has two unresolved rows. */
  ghost predicate OneOpenRow(rows: map<nat, Alert>) {
    forall a, b :: IsOpen(rows, a) && IsOpen(rows, b) && RowKey(rows[a]) == RowKey(rows[b]) ==> a == b
  }

  predicate IsOpen(rows: map<nat, Alert>, id: nat) {
    id in rows && rows[id].resolvedAt.None?
  }

  /** A restart brings memory and table together if and only if no pair has two unresolved rows. */
  lemma RestartAgreesIff(s: Engine, active: seq<Alert>)
    requires SoundInv(s) && IsActive(s.rows, active)
    ensures var t := Apply(s, Restart(active)); Agree(t.states, t.rows) <==> OneOpenRow(s.rows)
  {
    var t := Apply(s, Restart(active));
    RestartKeepsBacked(s, active);
    AgreeIffNoOrphans(t);
    RestoredMeaning(active);
    if OneOpenRow(s.rows) {
      forall id ensures !IsOrphan(t, id) {
        if id in s.rows && s.rows[id].resolvedAt.None? {
          var k := RowKey(s.rows[id]);
          assert s.rows[id] in active;
          assert k in t.states;
          var i :| 0 <= i < |active| && IsRestored(active[i], k, t.states[k]);
          assert IsOpen(s.rows, id) && IsOpen(s.rows, active[i].id);
          assert active[i].id == id;
        }
      }
    }
    if Agree(t.states, t.rows) {
      forall a, b | IsOpen(s.rows, a) && IsOpen(s.rows, b) && RowKey(s.rows[a]) == RowKey(s.rows[b]) ensures a == b
      {
        assert s.rows[a] == t.states[RowKey(s.rows[a])].alert.value == s.rows[b];
      }
    }
  }

  // ---- A run that stays apart across a restart ----

  /** An offline rule: it fires when a system is away for 30 seconds, and clears at once. */
  const RULE := Rule(1, None, Offline, 0.0, 30, true)

  /** The system has been away for 30 seconds, and the new alert is stored under this id. */
  function Fires(id: nat, since: int): Op {
    Evaluate(Eval(RULE, 1, true, 0.0, since, since + 30 * SECOND, 0, Some(id), true))
  }

  /** The system is back, but the store does not take the write that resolves the alert. */
  function Lost(now: int): Op {
    Evaluate(Eval(RULE, 1, false, 0.0, 0, now, 0, None, false))
  }

  function RowOf(id: nat, since: int): Alert {
    Alert(id, 1, 1, Offline, 0.0, 0.0, Unix(since), None)
  }

  lemma ApplyOne(ops: seq<Op>, op: Op)
    requires AllSound(EMPTY, ops) && Sound(ApplyAll(EMPTY, ops), op)
    ensures AllSound(EMPTY, ops + [op]) && ApplyAll(EMPTY, ops + [op]) == Apply(ApplyAll(EMPTY, ops), op)
  {
    assert (ops + [op])[..|ops|] == ops;
  }

  /** Firing adds a row, and losing the write leaves it there while memory forgets it. */
  lemma FireAndLose(s: Engine, id: nat, since: int, now: int)
    requires id != 0 && id !in s.rows && s.states == map[]
    ensures var t := Apply(s, Fires(id, since));
            && Sound(s, Fires(id, since)) && t.rows == s.rows[id := RowOf(id, since)]
            && Sound(t, Lost(now)) && Apply(t, Lost(now)).states == map[] && Apply(t, Lost(now)).rows == t.rows
  {
    var k, t := Key(1, 1), Apply(s, Fires(id, since));
    assert t.states == map[k := PairState(Some(since), None, Some(RowOf(id, since)))];
  }

  /** The times of the run: away from 0 and again from 100 seconds on, and back once at 40 seconds. */
  const AGAIN: int := 100 * SECOND
  const BACK: int := 40 * SECOND

  /** Two firings of a pair, the first of which was never resolved in the table. */
  lemma TwoOpenRows() returns (ops: seq<Op>)
    ensures AllSound(EMPTY, ops)
    ensures ApplyAll(EMPTY, ops).rows == map[1 := RowOf(1, 0), 2 := RowOf(2, AGAIN)]
  {
    ops := [];
    FireAndLose(EMPTY, 1, 0, BACK);
    ApplyOne(ops, Fires(1, 0));
    ops := ops + [Fires(1, 0)];
    ApplyOne(ops, Lost(BACK));
    ops := ops + [Lost(BACK)];
    FireAndLose(ApplyAll(EMPTY, ops), 2, AGAIN, BACK);
    ApplyOne(ops, Fires(2, AGAIN));
    ops := ops + [Fires(2, AGAIN)];
  }

  /** After a restart, which lists the newest first, memory knows one of the two rows. */
  lemma RestartDoesNotAlwaysHelp() returns (ops: seq<Op>)
    ensures AllSound(EMPTY, ops) && ops != [] && ops[|ops| - 1].Restart?
    ensures var s := ApplyAll(EMPTY, ops); !Agree(s.states, s.rows)
  {
    ops := TwoOpenRows();
    var s := ApplyAll(EMPTY, ops);
    var active := [RowOf(2, AGAIN), RowOf(1, 0)];
    assert active[0] in active && active[1] in active;
    assert IsActive(s.rows, active);
    RunsAreBacked(ops);
    RestartAgreesIff(s, active);
    assert IsOpen(s.rows, 1) && IsOpen(s.rows, 2) && RowKey(s.rows[1]) == RowKey(s.rows[2]);
    ApplyOne(ops, Restart(active));
    ops := ops + [Restart(active)];
  }
}
