/**
 * The alert engine: a sparse map of states per (rule, system), kept in agreement with the
 * alerts table through firing, resolving, silent resets, pruning and hub restarts.
 *
 * Times are nanoseconds. Go's zero time is None. Every operation below runs under the
 * engine's mutex, which also serializes the writes to the table.
 */
module AlertModel {
  import opened Wrappers

  const SECOND: int := 1_000_000_000
  const ALERT_CLEAR_DELAY: int := 60 * SECOND
  const ALERT_RETENTION: int := 90 * 24 * 3600 * SECOND

  datatype Key = Key(rule: nat, system: nat)

  datatype Metric = Offline | Cpu | Memory | Disk | Load

  datatype Rule = Rule(id: nat, system: Option<nat>, metric: Metric, threshold: real, duration: int, enabled: bool)

  datatype Alert = Alert(id: nat, rule: nat, system: nat, metric: Metric, threshold: real, value: real,
                         startedAt: int, resolvedAt: Option<int>)

  datatype PairState = PairState(since: Option<int>, clearSince: Option<int>, alert: Option<Alert>)

  /**
   * One evaluation of a pair. created is the row id of a new alert, None if storing it fails;
   * written says whether the store would take the write that resolves an alert.
   */
  datatype Eval = Eval(rule: Rule, system: nat, holds: bool, value: real, since: int, now: int,
                       delay: int, created: Option<nat>, written: bool)

  /** What the outside sees: notifications, and resets, which do not notify. */
  datatype Entry = Fired(key: Key) | Resolved(key: Key) | Cleared(rule: nat, system: nat)

  datatype Engine = Engine(states: map<Key, PairState>, rows: map<nat, Alert>, log: seq<Entry>)

  datatype Op =
    | Evaluate(e: Eval)
    | Reset(rule: nat, system: nat, now: int, written: bool)
    | Restart(active: seq<Alert>)
    | Prune(before: int)

  const EMPTY := Engine(map[], map[], [])

  function Unix(t: int): int {
    t / SECOND
  }

  function KeyOf(e: Eval): Key {
    Key(e.rule.id, e.system)
  }

  function RowKey(a: Alert): Key {
    Key(a.rule, a.system)
  }

  // ---- One pair ----

  datatype Outcome = Quiet | Fire(alert: Alert) | Resolve(alert: Alert)

  function NewAlert(e: Eval, id: nat, since: int): Alert {
    Alert(id, e.rule.id, e.system, e.rule.metric, e.rule.threshold, e.value, Unix(since), None)
  }

  /** The state machine of one pair; no state is the zero state. */
  function StepPair(prior: Option<PairState>, e: Eval): (Option<PairState>, Outcome) {
    var st := if prior.Some? then prior.value else PairState(None, None, None);
    if e.holds then
      var since := if st.since.Some? then st.since.value else e.since;
      var st1 := PairState(Some(since), None, st.alert);
      if st.alert.Some? || e.now - since < e.rule.duration * SECOND || e.created.None? then (Some(st1), Quiet)
      else
        var a := NewAlert(e, e.created.value, since);
        (Some(st1.(alert := Some(a))), Fire(a))
    else if st.alert.None? then (None, Quiet)
    else
      var clear := if st.clearSince.Some? then st.clearSince.value else e.now;
      if e.now - clear < e.delay then (Some(PairState(None, Some(clear), st.alert)), Quiet)
      else (None, Resolve(st.alert.value))
  }

  // ---- The table ----

  function Close(a: Alert, at: int): Alert {
    if a.resolvedAt.None? then a.(resolvedAt := Some(at)) else a
  }

  function ResolveRow(rows: map<nat, Alert>, id: nat, at: int): map<nat, Alert> {
    map i | i in rows :: if i == id then Close(rows[i], at) else rows[i]
  }

  /** Whether a reset concerns a pair; the id 0 stands for no rule or no system. */
  predicate Covers(rule: nat, system: nat, k: Key) {
    (rule != 0 && k.rule == rule) || (system != 0 && k.system == system)
  }

  function ResolveWhere(rows: map<nat, Alert>, rule: nat, system: nat, at: int): map<nat, Alert> {
    map i | i in rows :: if Covers(rule, system, RowKey(rows[i])) then Close(rows[i], at) else rows[i]
  }

  function Pruned(rows: map<nat, Alert>, before: int): map<nat, Alert> {
    map i | i in rows && !(rows[i].resolvedAt.Some? && rows[i].resolvedAt.value < before) :: rows[i]
  }

  /** The unresolved rows, in any order. */
  ghost predicate IsActive(rows: map<nat, Alert>, active: seq<Alert>) {
    && (forall i :: 0 <= i < |active| ==>
          active[i].id in rows && rows[active[i].id] == active[i] && active[i].resolvedAt.None?)
    && (forall id :: id in rows && rows[id].resolvedAt.None? ==> rows[id] in active)
  }

  /** The states a restarted hub builds from the unresolved rows. */
  function Restored(active: seq<Alert>): map<Key, PairState> {
    if active == [] then map[]
    else
      var a := active[|active| - 1];
      Restored(active[..|active| - 1])[RowKey(a) := PairState(Some(a.startedAt * SECOND), None, Some(a))]
  }

  // ---- The engine ----

  function SetState(states: map<Key, PairState>, k: Key, st: Option<PairState>): map<Key, PairState> {
    if st.Some? then states[k := st.value] else map j | j in states && j != k :: states[j]
  }

  function EvaluatePair(s: Engine, e: Eval): Engine {
    var k := KeyOf(e);
    var (st, outcome) := StepPair(Get(s.states, k), e);
    var states := SetState(s.states, k, st);
    match outcome
    case Quiet => s.(states := states)
    case Fire(a) => Engine(states, s.rows[a.id := a], s.log + [Fired(k)])
    case Resolve(a) =>
      Engine(states, if e.written then ResolveRow(s.rows, a.id, Unix(e.now)) else s.rows, s.log + [Resolved(k)])
  }

  /** What an evaluation does to the map and the table does not depend on the log, which it extends. */
  lemma LogOnlyGrows(s: Engine, e: Eval)
    ensures var t := EvaluatePair(Engine(s.states, s.rows, []), e);
            EvaluatePair(s, e) == Engine(t.states, t.rows, s.log + t.log)
  {
    assert s.log + [] == s.log;
  }

  function ResetStates(states: map<Key, PairState>, rule: nat, system: nat): map<Key, PairState> {
    map k | k in states && !(k.rule == rule || k.system == system) :: states[k]
  }

  function Apply(s: Engine, op: Op): Engine {
    match op
    case Evaluate(e) => EvaluatePair(s, e)
    case Reset(rule, system, now, written) =>
      Engine(ResetStates(s.states, rule, system),
             if written then ResolveWhere(s.rows, rule, system, Unix(now)) else s.rows,
             s.log + [Cleared(rule, system)])
    case Restart(active) => s.(states := Restored(active))
    case Prune(before) => s.(rows := Pruned(s.rows, before))
  }

  /** What the store guarantees: ids are not 0, a new row's id is not in use, a listing is complete. */
  ghost predicate Sound(s: Engine, op: Op) {
    match op
    case Evaluate(e) =>
      e.rule.id != 0 && e.system != 0 && (e.created.Some? ==> e.created.value != 0 && e.created.value !in s.rows)
    case Restart(active) => IsActive(s.rows, active)
    case _ => true
  }

  /** And the writes that resolve alerts succeed; creating one may fail. */
  ghost predicate Allowed(s: Engine, op: Op) {
    Sound(s, op) && Written(op)
  }

  predicate Written(op: Op) {
    (op.Evaluate? ==> op.e.written) && (op.Reset? ==> op.written)
  }

  ghost function ApplyAll(s: Engine, ops: seq<Op>): Engine {
    if ops == [] then s else Apply(ApplyAll(s, ops[..|ops| - 1]), ops[|ops| - 1])
  }

  ghost predicate AllSound(s: Engine, ops: seq<Op>) {
    ops == [] ||
    (AllSound(s, ops[..|ops| - 1]) && Sound(ApplyAll(s, ops[..|ops| - 1]), ops[|ops| - 1]))
  }

  lemma {:induction false} AllowedIfWritten(s: Engine, ops: seq<Op>)
    requires AllSound(s, ops) && forall i :: 0 <= i < |ops| ==> Written(ops[i])
    ensures AllAllowed(s, ops)
    decreases |ops|
  {
    if ops != [] {
      AllowedIfWritten(s, ops[..|ops| - 1]);
    }
  }

  ghost predicate AllAllowed(s: Engine, ops: seq<Op>) {
    ops == [] ||
    (AllAllowed(s, ops[..|ops| - 1]) && Allowed(ApplyAll(s, ops[..|ops| - 1]), ops[|ops| - 1]))
  }

  // ---- Agreement ----

  predicate Firing(states: map<Key, PairState>, k: Key) {
    k in states && states[k].alert.Some?
  }

  /** The last word on k in the log is a firing. */
  predicate Open(log: seq<Entry>, k: Key) {
    log != [] && OpenAfter(Open(log[..|log| - 1], k), log[|log| - 1], k)
  }

  predicate OpenAfter(before: bool, entry: Entry, k: Key) {
    (before && !Ends(entry, k)) || entry == Fired(k)
  }

  predicate Ends(entry: Entry, k: Key) {
    match entry
    case Fired(_) => false
    case Resolved(j) => j == k
    case Cleared(r, s) => Covers(r, s, k)
  }

  /** Every alert in memory is the unresolved row of its pair, and every unresolved row is in memory. */
  ghost predicate Agree(states: map<Key, PairState>, rows: map<nat, Alert>) {
    && (forall k :: Firing(states, k) ==>
          var a := states[k].alert.value;
          RowKey(a) == k && a.resolvedAt.None? && a.id in rows && rows[a.id] == a)
    && (forall id :: id in rows && rows[id].resolvedAt.None? ==>
          Firing(states, RowKey(rows[id])) && states[RowKey(rows[id])].alert.value == rows[id])
  }

  ghost predicate IdsOk(s: Engine) {
    && (forall k :: k in s.states ==> k.rule != 0 && k.system != 0)
    && (forall id :: id in s.rows ==> s.rows[id].id == id && s.rows[id].rule != 0 && s.rows[id].system != 0)
  }

  /** No firing while open, no resolve unless open. */
  ghost predicate Alternates(log: seq<Entry>) {
    forall j :: 0 <= j < |log| ==>
      && (log[j].Fired? ==> !Open(log[..j], log[j].key))
      && (log[j].Resolved? ==> Open(log[..j], log[j].key))
  }

  ghost predicate Inv(s: Engine) {
    && IdsOk(s) && Agree(s.states, s.rows) && Alternates(s.log)
    && (forall k :: Open(s.log, k) <==> Firing(s.states, k))
  }

  lemma OpenOne(log: seq<Entry>, entry: Entry, k: Key)
    ensures Open(log + [entry], k) == OpenAfter(Open(log, k), entry, k)
  {
    assert (log + [entry])[..|log|] == log;
  }

  lemma AlternatesOne(log: seq<Entry>, entry: Entry)
    requires Alternates(log)
    requires entry.Fired? ==> !Open(log, entry.key)
    requires entry.Resolved? ==> Open(log, entry.key)
    ensures Alternates(log + [entry])
  {
    forall j | 0 <= j <= |log| ensures (log + [entry])[..j] == log[..j] {
    }
    assert log[..|log|] == log;
  }

  lemma QuietKeeps(s: Engine, e: Eval)
    requires Inv(s) && Allowed(s, Evaluate(e)) && StepPair(Get(s.states, KeyOf(e)), e).1 == Quiet
    ensures Inv(EvaluatePair(s, e))
  {
    var t := EvaluatePair(s, e);
    assert forall k :: Firing(t.states, k) <==> Firing(s.states, k);
    assert forall k :: Firing(t.states, k) ==> t.states[k].alert == s.states[k].alert;
  }

  lemma FireKeeps(s: Engine, e: Eval)
    requires Inv(s) && Allowed(s, Evaluate(e)) && StepPair(Get(s.states, KeyOf(e)), e).1.Fire?
    ensures Inv(EvaluatePair(s, e))
  {
    var k := KeyOf(e);
    var t := EvaluatePair(s, e);
    assert !Firing(s.states, k);
    AlternatesOne(s.log, Fired(k));
    forall j ensures Open(t.log, j) <==> Firing(t.states, j) {
      OpenOne(s.log, Fired(k), j);
    }
  }

  lemma ResolveKeeps(s: Engine, e: Eval)
    requires Inv(s) && Allowed(s, Evaluate(e)) && StepPair(Get(s.states, KeyOf(e)), e).1.Resolve?
    ensures Inv(EvaluatePair(s, e))
  {
    var k := KeyOf(e);
    var t := EvaluatePair(s, e);
    assert Firing(s.states, k);
    AlternatesOne(s.log, Resolved(k));
    forall j ensures Open(t.log, j) <==> Firing(t.states, j) {
      OpenOne(s.log, Resolved(k), j);
    }
    assert forall j :: Firing(t.states, j) <==> j != k && Firing(s.states, j);
  }

  lemma ResetKeeps(s: Engine, rule: nat, system: nat, now: int)
    requires Inv(s)
    ensures Inv(Apply(s, Reset(rule, system, now, true)))
  {
    var t := Apply(s, Reset(rule, system, now, true));
    AlternatesOne(s.log, Cleared(rule, system));
    assert forall j :: Firing(t.states, j) <==> Firing(s.states, j) && !Covers(rule, system, j);
    forall j ensures Open(t.log, j) <==> Firing(t.states, j) {
      OpenOne(s.log, Cleared(rule, system), j);
    }
  }

  lemma {:induction false} RestoredMeaning(active: seq<Alert>)
    ensures forall k :: k in Restored(active) ==>
              exists i :: 0 <= i < |active| && IsRestored(active[i], k, Restored(active)[k])
    ensures forall i :: 0 <= i < |active| ==> RowKey(active[i]) in Restored(active)
  {
    if active != [] {
      var init := active[..|active| - 1];
      RestoredMeaning(init);
      forall k | k in Restored(active)
        ensures exists i :: 0 <= i < |active| && IsRestored(active[i], k, Restored(active)[k])
      {
        if k == RowKey(active[|active| - 1]) {
          assert IsRestored(active[|active| - 1], k, Restored(active)[k]);
        } else {
          assert k in Restored(init) && Restored(init)[k] == Restored(active)[k];
          var i :| 0 <= i < |init| && IsRestored(init[i], k, Restored(init)[k]);
          assert IsRestored(active[i], k, Restored(active)[k]);
        }
      }
      forall i | 0 <= i < |active| ensures RowKey(active[i]) in Restored(active) {
        assert i < |init| ==> active[i] == init[i];
      }
    }
  }

  predicate IsRestored(a: Alert, k: Key, st: PairState) {
    RowKey(a) == k && st == PairState(Some(a.startedAt * SECOND), None, Some(a))
  }

  lemma RestartKeeps(s: Engine, active: seq<Alert>)
    requires Inv(s) && IsActive(s.rows, active)
    ensures Inv(Apply(s, Restart(active)))
    ensures forall k :: Firing(s.states, k) <==> Firing(Restored(active), k)
  {
    RestoredMeaning(active);
    var states := Restored(active);
    forall k ensures Firing(s.states, k) <==> k in states
      ensures k in states ==> states[k].alert == s.states[k].alert && k.rule != 0 && k.system != 0
    {
      if k in states {
        var i :| 0 <= i < |active| && IsRestored(active[i], k, states[k]);
      }
      if Firing(s.states, k) {
        var a := s.states[k].alert.value;
        assert s.rows[a.id] in active;
      }
    }
  }

  lemma ApplyKeeps(s: Engine, op: Op)
    requires Inv(s) && Allowed(s, op)
    ensures Inv(Apply(s, op))
  {
    match op
    case Evaluate(e) =>
      match StepPair(Get(s.states, KeyOf(e)), e).1 {
        case Quiet => QuietKeeps(s, e);
        case Fire(_) => FireKeeps(s, e);
        case Resolve(_) => ResolveKeeps(s, e);
      }
    case Reset(rule, system, now, _) => ResetKeeps(s, rule, system, now);
    case Restart(active) => RestartKeeps(s, active);
    case Prune(before) =>
  }

  lemma {:induction false} ReachableInv(ops: seq<Op>)
    requires AllAllowed(EMPTY, ops)
    ensures Inv(ApplyAll(EMPTY, ops))
    decreases |ops|
  {
    if ops != [] {
      ReachableInv(ops[..|ops| - 1]);
      ApplyKeeps(ApplyAll(EMPTY, ops[..|ops| - 1]), ops[|ops| - 1]);
    }
  }

  predicate IsOpenRow(s: Engine, id: nat, k: Key) {
    id in s.rows && s.rows[id].resolvedAt.None? && RowKey(s.rows[id]) == k
  }

  /**
   * Over any run of evaluations, resets, prunings and restarts, storing an alert failing or
   * not: each pair has at most one unresolved row, it has one exactly when memory holds an
   * alert for it, and that alert is the row.
   */
  lemma AlertAgreement(ops: seq<Op>, k: Key)
    requires AllAllowed(EMPTY, ops)
    ensures var s := ApplyAll(EMPTY, ops);
            && (forall a, b :: IsOpenRow(s, a, k) && IsOpenRow(s, b, k) ==> a == b)
            && (Firing(s.states, k) <==> exists a :: IsOpenRow(s, a, k))
            && (Firing(s.states, k) ==>
                  var a := s.states[k].alert.value; a.id in s.rows && s.rows[a.id] == a)
  {
    ReachableInv(ops);
    var s := ApplyAll(EMPTY, ops);
    if Firing(s.states, k) {
      assert IsOpenRow(s, s.states[k].alert.value.id, k);
    }
  }

  lemma {:induction false} StaysOpen(log: seq<Entry>, i: nat, j: nat, k: Key)
    requires i < j <= |log| && log[i] == Fired(k)
    requires forall m :: i < m < j ==> !Ends(log[m], k)
    ensures Open(log[..j], k)
  {
    assert log[..j][..j - 1] == log[..j - 1];
    if j > i + 1 {
      StaysOpen(log, i, j - 1, k);
    }
  }

  // ---- What an alert means ----

  /** What a pair remembers: whether it was firing when the hub started, and its evaluations since. */
  datatype Past = Past(firing: bool, evals: seq<Eval>)

  /** The pair's own part of a run: resets start it afresh, restarts keep only that it fires. */
  function History(ops: seq<Op>, k: Key): Past {
    if ops == [] then Past(false, []) else PastAfter(History(ops[..|ops| - 1], k), ops[|ops| - 1], k)
  }

  /** Where the unbroken run of equal verdicts at the end of h begins. */
  function RunStart(h: seq<Eval>): (i: nat)
    requires h != []
    ensures i < |h|
    ensures forall j :: i <= j < |h| ==> h[j].holds == h[|h| - 1].holds
    ensures i > 0 ==> h[i - 1].holds != h[|h| - 1].holds
  {
    if |h| == 1 || h[|h| - 2].holds != h[|h| - 1].holds then |h| - 1 else RunStart(h[..|h| - 1])
  }

  /** The evaluation that began the run at the end of a history. */
  function RunBegan(h: seq<Eval>): Eval
    requires h != []
  {
    h[RunStart(h)]
  }

  /** The condition has held long enough: its unbroken run began at least Duration ago. */
  predicate HeldLongEnough(h: seq<Eval>)
    requires h != []
  {
    var e := h[|h| - 1];
    e.holds && e.now - RunBegan(h).since >= e.rule.duration * 1_000_000_000
  }

  /** Back to normal long enough: the unbroken clear run began at least the clear delay ago. */
  predicate ClearLongEnough(h: seq<Eval>)
    requires h != []
  {
    var e := h[|h| - 1];
    !e.holds && e.now - RunBegan(h).now >= e.delay
  }

  /** Whether the pair is firing, from its own history alone. */
  predicate FiringAfter(p: Past)
    decreases |p.evals|
  {
    var h := p.evals;
    if h == [] then p.firing
    else if FiringAfter(Past(p.firing, h[..|h| - 1])) then !ClearLongEnough(h)
    else HeldLongEnough(h) && h[|h| - 1].created.Some?
  }

  /** What matters of a map entry: while firing, since when it is clear; before, since when it holds. */
  datatype Entered = Nothing | Holding(since: int) | Alerting(clearSince: Option<int>)

  /** The entry that fits: whether the pair fires, and the evaluation its last run began with. */
  function EntryFor(firing: bool, began: Option<Eval>): Entered {
    if firing then Alerting(if began.None? || began.value.holds then None else Some(began.value.now))
    else if began.Some? && began.value.holds then Holding(began.value.since)
    else Nothing
  }

  function Expected(p: Past): Entered {
    EntryFor(FiringAfter(p), if p.evals == [] then None else Some(RunBegan(p.evals)))
  }

  function Shape(st: Option<PairState>): Option<Entered> {
    if st.None? then Some(Nothing)
    else if st.value.alert.Some? then Some(Alerting(st.value.clearSince))
    else if st.value.since.Some? && st.value.clearSince.None? then Some(Holding(st.value.since.value))
    else None
  }

  /** How one more evaluation changes the run at the end and whether the pair fires. */
  lemma PastOne(p: Past, e: Eval)
    ensures RunBegan(p.evals + [e]) ==
            if p.evals == [] || RunBegan(p.evals).holds != e.holds then e else RunBegan(p.evals)
    ensures FiringAfter(Past(p.firing, p.evals + [e])) ==
            if FiringAfter(p) then !ClearLongEnough(p.evals + [e]) else HeldLongEnough(p.evals + [e]) && e.created.Some?
  {
    var h, g := p.evals, p.evals + [e];
    assert g[..|g| - 1] == h && g[|g| - 1] == e;
    RunStartOne(h, e);
    assert Past(p.firing, g[..|g| - 1]) == p;
  }

  /** The state machine on the entry alone; began is the run's first evaluation after e. */
  lemma StepEntry(st: Option<PairState>, firing: bool, run: Option<Eval>, e: Eval, began: Eval)
    requires Shape(st) == Some(EntryFor(firing, run))
    requires began == if run.None? || run.value.holds != e.holds then e else run.value
    ensures var (st1, outcome) := StepPair(st, e);
            var held := e.holds && e.now - began.since >= e.rule.duration * SECOND;
            var clear := !e.holds && e.now - began.now >= e.delay;
            && Shape(st1) == Some(EntryFor(if firing then !clear else held && e.created.Some?, Some(began)))
            && (outcome.Fire? <==> !firing && held && e.created.Some?)
            && (outcome.Resolve? <==> firing && clear)
  {
  }

  /** One evaluation takes the expected entry to the expected entry, and notifies as it should. */
  lemma StepMeaning(st: Option<PairState>, p: Past, e: Eval)
    requires Shape(st) == Some(Expected(p))
    ensures var (st1, outcome) := StepPair(st, e);
            var h := p.evals + [e];
            && Shape(st1) == Some(Expected(Past(p.firing, h)))
            && (outcome.Fire? <==> !FiringAfter(p) && HeldLongEnough(h) && e.created.Some?)
            && (outcome.Resolve? <==> FiringAfter(p) && ClearLongEnough(h))
  {
    var h := p.evals + [e];
    assert h[|h| - 1] == e;
    PastOne(p, e);
    StepEntry(st, FiringAfter(p), if p.evals == [] then None else Some(RunBegan(p.evals)), e, RunBegan(h));
  }

  lemma RunStartOne(h: seq<Eval>, e: Eval)
    ensures RunStart(h + [e]) == if h == [] || h[|h| - 1].holds != e.holds then |h| else RunStart(h)
  {
    var g := h + [e];
    assert g[..|g| - 1] == h;
    assert h != [] ==> g[|g| - 2] == h[|h| - 1];
  }

  /** Which operations touch the entry of k, and how. */
  lemma EntryAfter(s: Engine, op: Op, k: Key)
    requires Inv(s) && !op.Restart?
    ensures Get(Apply(s, op).states, k) ==
            if op.Evaluate? && KeyOf(op.e) == k then StepPair(Get(s.states, k), op.e).0
            else if op.Reset? && Covers(op.rule, op.system, k) then None
            else Get(s.states, k)
  {
  }

  lemma EntryAfterRestart(s: Engine, active: seq<Alert>, k: Key)
    requires Inv(s) && IsActive(s.rows, active)
    ensures Shape(Get(Restored(active), k)) == Some(if Firing(s.states, k) then Alerting(None) else Nothing)
  {
    RestartKeeps(s, active);
    RestoredMeaning(active);
    if k in Restored(active) {
      var i :| 0 <= i < |active| && IsRestored(active[i], k, Restored(active)[k]);
    }
  }

  /**
   * The map entry of a pair is a function of the pair's own evaluations since its last reset
   * or restart and of whether it was firing then. Nothing done to other pairs has any effect.
   */
  lemma {:induction false} AlertMeaning(ops: seq<Op>, k: Key)
    requires AllAllowed(EMPTY, ops)
    ensures Shape(Get(ApplyAll(EMPTY, ops).states, k)) == Some(Expected(History(ops, k)))
    decreases |ops|
  {
    if ops != [] {
      var before := ops[..|ops| - 1];
      AlertMeaning(before, k);
      ReachableInv(before);
      MeaningKept(ApplyAll(EMPTY, before), History(before, k), ops[|ops| - 1], k);
    }
  }

  /** What an operation makes of the part of a pair. */
  function PastAfter(p: Past, op: Op, k: Key): Past {
    match op
    case Evaluate(e) => if KeyOf(e) == k then Past(p.firing, p.evals + [e]) else p
    case Reset(rule, system, _, _) => if Covers(rule, system, k) then Past(false, []) else p
    case Restart(_) => Past(FiringAfter(p), [])
    case Prune(_) => p
  }

  lemma {:induction false} MeaningKept(s: Engine, p: Past, op: Op, k: Key)
    requires Inv(s) && Allowed(s, op) && Shape(Get(s.states, k)) == Some(Expected(p))
    ensures Shape(Get(Apply(s, op).states, k)) == Some(Expected(PastAfter(p, op, k)))
  {
    if op.Restart? {
      EntryAfterRestart(s, op.active, k);
    } else {
      EntryAfter(s, op, k);
      if op.Evaluate? && KeyOf(op.e) == k {
        StepMeaning(Get(s.states, k), p, op.e);
      }
    }
  }

  /** A pair fires exactly when its own history says so. */
  lemma FiringMeaning(ops: seq<Op>, k: Key)
    requires AllAllowed(EMPTY, ops)
    ensures Firing(ApplyAll(EMPTY, ops).states, k) <==> FiringAfter(History(ops, k))
  {
    AlertMeaning(ops, k);
  }

  /**
   * Exactly when an evaluation notifies. It fires when the pair was not firing and its
   * unbroken run of holding evaluations began at least Duration ago; it resolves when the pair
   * was firing and its unbroken clear run began at least the clear delay ago.
   */
  lemma NotifiesExactly(ops: seq<Op>, e: Eval)
    requires AllAllowed(EMPTY, ops + [Evaluate(e)])
    ensures var p := History(ops, KeyOf(e));
            var log := ApplyAll(EMPTY, ops).log;
            ApplyAll(EMPTY, ops + [Evaluate(e)]).log == log +
              if !FiringAfter(p) && HeldLongEnough(p.evals + [e]) && e.created.Some? then [Fired(KeyOf(e))]
              else if FiringAfter(p) && ClearLongEnough(p.evals + [e]) then [Resolved(KeyOf(e))]
              else []
  {
    var all := ops + [Evaluate(e)];
    assert all[..|all| - 1] == ops;
    AlertMeaning(ops, KeyOf(e));
    StepMeaning(Get(ApplyAll(EMPTY, ops).states, KeyOf(e)), History(ops, KeyOf(e)), e);
  }

  /**
   * What the table says: a firing adds one row, with the rule's limit, the value that fired it and
   * the second in which the unbroken run began; a resolve stamps the row of the alert with the
   * second of the evaluation; nothing else changes.
   */
  lemma RowsSayWhen(ops: seq<Op>, e: Eval)
    requires AllAllowed(EMPTY, ops + [Evaluate(e)])
    ensures var s, t := ApplyAll(EMPTY, ops), ApplyAll(EMPTY, ops + [Evaluate(e)]);
            var p, k := History(ops, KeyOf(e)), KeyOf(e);
            if !FiringAfter(p) && HeldLongEnough(p.evals + [e]) && e.created.Some? then
              var began := RunBegan(p.evals + [e]).since / 1_000_000_000;
              t.rows == s.rows[e.created.value := Alert(e.created.value, e.rule.id, e.system, e.rule.metric,
                                                        e.rule.threshold, e.value, began, None)]
            else if FiringAfter(p) && ClearLongEnough(p.evals + [e]) then
              && Firing(s.states, k)
              && var id := s.states[k].alert.value.id;
                 id in s.rows && t.rows == s.rows[id := s.rows[id].(resolvedAt := Some(e.now / 1_000_000_000))]
            else t.rows == s.rows
  {
    var all, k := ops + [Evaluate(e)], KeyOf(e);
    assert all[..|all| - 1] == ops;
    AlertMeaning(ops, k);
    ReachableInv(ops);
    var st, p := Get(ApplyAll(EMPTY, ops).states, k), History(ops, k);
    StepMeaning(st, p, e);
    if StepPair(st, e).1.Fire? {
      FiredSince(st, p, e);
    }
    RowsFrom(ApplyAll(EMPTY, ops), e);
  }

  /** A new alert says when the run it fired for began. */
  lemma FiredSince(st: Option<PairState>, p: Past, e: Eval)
    requires Shape(st) == Some(Expected(p)) && StepPair(st, e).1.Fire?
    ensures StepPair(st, e).1.alert ==
            Alert(e.created.value, e.rule.id, e.system, e.rule.metric, e.rule.threshold, e.value,
                  RunBegan(p.evals + [e]).since / 1_000_000_000, None)
  {
    PastOne(p, e);
  }

  /** How the table follows from what the state machine of the pair says. */
  lemma RowsFrom(s: Engine, e: Eval)
    requires Inv(s) && e.written
    ensures var k, rows := KeyOf(e), EvaluatePair(s, e).rows;
            var outcome := StepPair(Get(s.states, k), e).1;
            if outcome.Fire? then rows == s.rows[outcome.alert.id := outcome.alert]
            else if outcome.Resolve? then
              && Firing(s.states, k) && outcome.alert == s.states[k].alert.value
              && var id := outcome.alert.id;
                 id in s.rows && rows == s.rows[id := s.rows[id].(resolvedAt := Some(e.now / 1_000_000_000))]
            else rows == s.rows
  {
  }

  /** A reset resolves, at its second, exactly the unresolved alerts of its rule or system. */
  lemma ResetResolves(s: Engine, rule: nat, system: nat, now: int, id: nat)
    requires IdsOk(s) && id in s.rows
    ensures var a, b := s.rows[id], Apply(s, Reset(rule, system, now, true)).rows;
            && b.Keys == s.rows.Keys
            && b[id] == if a.resolvedAt.None? && (a.rule == rule || a.system == system)
                        then a.(resolvedAt := Some(now / 1_000_000_000)) else a
  {
  }

  /** Pruning removes exactly the alerts that were resolved before the time. */
  lemma PruneMeaning(s: Engine, before: int, id: nat)
    ensures var t := Apply(s, Prune(before));
            && t.states == s.states && t.log == s.log
            && (id in t.rows <==>
                  id in s.rows && (s.rows[id].resolvedAt == None || s.rows[id].resolvedAt.value >= before))
            && (id in t.rows ==> t.rows[id] == s.rows[id])
  {
  }

  /** A restart neither forgets a firing alert nor fires it again. */
  lemma RestartKeepsFiring(ops: seq<Op>, active: seq<Alert>, k: Key)
    requires AllAllowed(EMPTY, ops + [Restart(active)])
    ensures var s, t := ApplyAll(EMPTY, ops), ApplyAll(EMPTY, ops + [Restart(active)]);
            && t.log == s.log
            && (Firing(t.states, k) <==> Firing(s.states, k))
            && (Firing(s.states, k) ==> t.states[k].alert == s.states[k].alert)
  {
    var all := ops + [Restart(active)];
    assert all[..|all| - 1] == ops;
    ReachableInv(ops);
    ReachableInv(all);
    RestartKeeps(ApplyAll(EMPTY, ops), active);
  }
}
