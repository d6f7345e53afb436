/**
 * The alerts table and the alert engine as objects. Every method names the operation of
 * AlertModel it performs, and appends it to the object's history.
 */
module AlertEngines {
  import opened Wrappers
  import opened AlertModel

  /** The alerts table. Writes can fail; a write that fails changes nothing. */
  class AlertStore {
    var rows: map<nat, Alert>

    constructor ()
      ensures rows == map[]
    {
      rows := map[];
    }

    /** INSERT: the new row gets the next id after the largest in use. */
    method CreateAlert(a: Alert) returns (id: Option<nat>)
      modifies this
      ensures id.None? ==> rows == old(rows)
      ensures id.Some? ==> id.value != 0 && id.value !in old(rows) && rows == old(rows)[id.value := a.(id := id.value)]
    {
      var fails: bool := *;
      if fails {
        return None;
      }
      var next, todo := 1, rows.Keys;
      while todo != {}
        invariant next > 0 && forall k :: k in rows && k !in todo ==> k < next
        decreases todo
      {
        var k :| k in todo;
        if k >= next {
          next := k + 1;
        }
        todo := todo - {k};
      }
      rows := rows[next := a.(id := next)];
      id := Some(next);
    }

    method ResolveAlert(id: nat, at: int) returns (ok: bool)
      modifies this
      ensures rows == if ok then ResolveRow(old(rows), id, at) else old(rows)
    {
      ok := *;
      if ok {
        if id in rows && rows[id].resolvedAt.None? {
          rows := rows[id := rows[id].(resolvedAt := Some(at))];
        }
        assert rows == ResolveRow(old(rows), id, at);
      }
    }

    method ResolveAlertsWhere(rule: nat, system: nat, at: int) returns (ok: bool)
      modifies this
      ensures rows == if ok then ResolveWhere(old(rows), rule, system, at) else old(rows)
    {
      ok := *;
      if ok {
        rows := map i | i in rows ::
          if rows[i].resolvedAt.None? &&
             ((rule != 0 && rows[i].rule == rule) || (system != 0 && rows[i].system == system))
          then rows[i].(resolvedAt := Some(at)) else rows[i];
      }
    }

    /** DELETE of old history: unresolved alerts stay, and resolved ones for as long as they are retained. */
    method PruneAlerts(now: int) returns (ok: bool)
      modifies this
      ensures rows == if ok then Pruned(old(rows), Unix(now - 90 * 24 * 3600 * 1_000_000_000)) else old(rows)
    {
      ok := *;
      if ok {
        var before, todo := Unix(now - ALERT_RETENTION), rows.Keys;
        while todo != {}
          invariant todo <= old(rows).Keys
          invariant rows == map i | i in old(rows) && (i in todo || i in Pruned(old(rows), before)) :: old(rows)[i]
          decreases todo
        {
          var i :| i in todo;
          if rows[i].resolvedAt.Some? && rows[i].resolvedAt.value < before {
            rows := rows - {i};
          }
          todo := todo - {i};
        }
      }
    }

    method ActiveAlerts() returns (active: seq<Alert>)
      requires forall id :: id in rows ==> rows[id].id == id
      ensures IsActive(rows, active)
    {
      active := [];
      var todo := rows.Keys;
      while todo != {}
        invariant todo <= rows.Keys
        invariant forall i :: 0 <= i < |active| ==>
                    active[i].id in rows && rows[active[i].id] == active[i] && active[i].resolvedAt.None?
        invariant forall id :: id in rows && id !in todo && rows[id].resolvedAt.None? ==> rows[id] in active
        decreases todo
      {
        var id :| id in todo;
        if rows[id].resolvedAt.None? {
          active := active + [rows[id]];
        }
        todo := todo - {id};
      }
    }
  }

  // ---- Which evaluations a sample or an offline check makes ----

  datatype Metrics = Metrics(cpu: real, memUsed: nat, memTotal: nat, diskUsed: nat, diskTotal: nat, load1: real)

  predicate AppliesTo(r: Rule, system: nat) {
    r.system.None? || r.system.value == system
  }

  function Percent(used: nat, total: nat): Option<real> {
    if total == 0 then None else Some(used as real / total as real * 100.0)
  }

  function MetricValue(metric: Metric, m: Metrics): Option<real> {
    match metric
    case Cpu => Some(m.cpu)
    case Memory => Percent(m.memUsed, m.memTotal)
    case Disk => Percent(m.diskUsed, m.diskTotal)
    case Load => Some(m.load1)
    case Offline => None
  }

  function EnabledRules(rules: seq<Rule>): (r: seq<Rule>)
    ensures forall i :: 0 <= i < |r| ==> r[i] in rules && r[i].enabled
  {
    if rules == [] then []
    else
      var last := rules[|rules| - 1];
      EnabledRules(rules[..|rules| - 1]) + if last.enabled then [last] else []
  }

  lemma EnabledRulesOne(rules: seq<Rule>, rule: Rule)
    ensures EnabledRules(rules + [rule]) == EnabledRules(rules) + if rule.enabled then [rule] else []
  {
    assert (rules + [rule])[..|rules|] == rules;
  }

  /** Exactly the enabled rules remain. */
  lemma {:induction false} EnabledRulesExactly(rules: seq<Rule>, rule: Rule)
    ensures rule in EnabledRules(rules) <==> rule in rules && rule.enabled
  {
    if rules != [] {
      EnabledRulesExactly(rules[..|rules| - 1], rule);
      assert rules == rules[..|rules| - 1] + [rules[|rules| - 1]];
    }
  }

  /** Filtering keeps the order: what comes first in the list comes first in the result. */
  lemma {:induction false} EnabledRulesInOrder(a: seq<Rule>, b: seq<Rule>)
    ensures EnabledRules(a + b) == EnabledRules(a) + EnabledRules(b)
    decreases |b|
  {
    if b == [] {
      assert a + b == a;
    } else {
      var init, last := b[..|b| - 1], b[|b| - 1];
      EnabledRulesInOrder(a, init);
      EnabledRulesOne(a + init, last);
      EnabledRulesOne(init, last);
      assert init + [last] == b;
      Assoc(a, init, [last]);
      Assoc(EnabledRules(a), EnabledRules(init), if last.enabled then [last] else []);
    }
  }

  /** A pair that is evaluated, with the value it is evaluated at. */
  datatype Check = Check(rule: Rule, system: nat, value: real)

  /** The threshold rules a sample is checked against, in rule order. */
  function MetricChecks(rules: seq<Rule>, system: nat, m: Metrics): seq<Check> {
    if rules == [] then []
    else
      var r := rules[|rules| - 1];
      var v := MetricValue(r.metric, m);
      MetricChecks(rules[..|rules| - 1], system, m) +
      if r.metric != Offline && AppliesTo(r, system) && v.Some? then [Check(r, system, v.value)] else []
  }

  function SystemChecks(r: Rule, systems: seq<nat>): seq<Check> {
    if systems == [] then []
    else
      var sys := systems[|systems| - 1];
      SystemChecks(r, systems[..|systems| - 1]) + if AppliesTo(r, sys) then [Check(r, sys, 0.0)] else []
  }

  /** The offline rules, each against every system it applies to. */
  function OfflineChecks(rules: seq<Rule>, systems: seq<nat>): seq<Check> {
    if rules == [] then []
    else
      var r := rules[|rules| - 1];
      OfflineChecks(rules[..|rules| - 1], systems) + if r.metric == Offline then SystemChecks(r, systems) else []
  }

  lemma MetricChecksOne(rules: seq<Rule>, n: nat, system: nat, m: Metrics)
    requires n < |rules|
    ensures var r, v := rules[n], MetricValue(rules[n].metric, m);
            MetricChecks(rules[..n + 1], system, m) == MetricChecks(rules[..n], system, m) +
              if r.metric != Offline && AppliesTo(r, system) && v.Some? then [Check(r, system, v.value)] else []
  {
    assert rules[..n + 1][..n] == rules[..n];
  }

  lemma SystemChecksOne(r: Rule, systems: seq<nat>, n: nat)
    requires n < |systems|
    ensures SystemChecks(r, systems[..n + 1]) ==
            SystemChecks(r, systems[..n]) + if AppliesTo(r, systems[n]) then [Check(r, systems[n], 0.0)] else []
  {
    assert systems[..n + 1][..n] == systems[..n];
  }

  lemma OfflineChecksOne(rules: seq<Rule>, n: nat, systems: seq<nat>)
    requires n < |rules|
    ensures OfflineChecks(rules[..n + 1], systems) ==
            if rules[n].metric == Offline then OfflineChecks(rules[..n], systems) + SystemChecks(rules[n], systems)
            else OfflineChecks(rules[..n], systems)
  {
    assert rules[..n + 1][..n] == rules[..n];
  }

  lemma Assoc<T>(a: seq<T>, b: seq<T>, c: seq<T>)
    ensures a + b + c == a + (b + c)
  {
  }

  /** A threshold rule holds above its threshold, from now on; it clears after a delay. */
  predicate IsMetricEval(op: Op, c: Check, now: int) {
    op.Evaluate? &&
    op.e == Eval(c.rule, c.system, c.value > c.rule.threshold, c.value, now, now, ALERT_CLEAR_DELAY,
                 op.e.created, op.e.written)
  }

  /** An offline rule holds since the system went offline, or since the hub started; it clears at once. */
  predicate IsOfflineEval(op: Op, c: Check, online: set<nat>, offline: map<nat, int>, started: int, now: int) {
    op.Evaluate? &&
    op.e == Eval(c.rule, c.system, c.system !in online, c.value,
                 if c.system in offline then offline[c.system] else started, now, 0, op.e.created, op.e.written)
  }

  /** The evaluations made are those of the checks, in order. */
  ghost predicate AreMetricEvals(ops: seq<Op>, cs: seq<Check>, now: int) {
    |ops| == |cs| && forall i :: 0 <= i < |ops| ==> IsMetricEval(ops[i], cs[i], now)
  }

  ghost predicate AreOfflineEvals(ops: seq<Op>, cs: seq<Check>, online: set<nat>, offline: map<nat, int>,
                                  started: int, now: int)
  {
    |ops| == |cs| && forall i :: 0 <= i < |ops| ==> IsOfflineEval(ops[i], cs[i], online, offline, started, now)
  }

  lemma MoreOfflineEvals(ops: seq<Op>, cs: seq<Check>, ops2: seq<Op>, cs2: seq<Check>,
                         online: set<nat>, offline: map<nat, int>, started: int, now: int)
    requires AreOfflineEvals(ops, cs, online, offline, started, now)
    requires AreOfflineEvals(ops2, cs2, online, offline, started, now)
    ensures AreOfflineEvals(ops + ops2, cs + cs2, online, offline, started, now)
  {
  }

  // ---- What those evaluations are ----

  /** The sample has a value for the metric: a share needs a total that is not 0. */
  predicate CanRead(metric: Metric, m: Metrics) {
    metric in {Cpu, Load} || (metric == Memory && m.memTotal != 0) || (metric == Disk && m.diskTotal != 0)
  }

  /** The value of the metric in the sample; a share is in percent of its total. */
  predicate Reads(metric: Metric, m: Metrics, value: real) {
    match metric
    case Cpu => value == m.cpu
    case Load => value == m.load1
    case Memory => m.memTotal != 0 && value * m.memTotal as real == 100.0 * m.memUsed as real
    case Disk => m.diskTotal != 0 && value * m.diskTotal as real == 100.0 * m.diskUsed as real
    case Offline => false
  }

  lemma PercentMeaning(used: nat, total: nat, value: real)
    requires total != 0
    ensures Percent(used, total).Some?
    ensures value * total as real == 100.0 * used as real <==> Percent(used, total).value == value
  {
    var u, t := used as real, total as real;
    assert Percent(used, total).value == u / t * 100.0;
    assert u / t * t == u;
    if value * t == 100.0 * u {
      assert value == value * t / t == 100.0 * u / t;
    }
  }

  lemma MetricValueMeaning(metric: Metric, m: Metrics, value: real)
    ensures MetricValue(metric, m).Some? <==> CanRead(metric, m)
    ensures MetricValue(metric, m) == Some(value) <==> Reads(metric, m, value)
  {
    if metric == Memory && m.memTotal != 0 {
      PercentMeaning(m.memUsed, m.memTotal, value);
    } else if metric == Disk && m.diskTotal != 0 {
      PercentMeaning(m.diskUsed, m.diskTotal, value);
    }
  }

  lemma {:induction false} MetricCheckFrom(rules: seq<Rule>, system: nat, m: Metrics, c: Check)
    ensures c in MetricChecks(rules, system, m) <==>
              && c.rule in rules && c.system == system && AppliesTo(c.rule, system)
              && MetricValue(c.rule.metric, m) == Some(c.value)
  {
    if rules != [] {
      var init, r := rules[..|rules| - 1], rules[|rules| - 1];
      MetricCheckFrom(init, system, m, c);
      assert rules == init + [r];
      assert c.rule in rules <==> c.rule in init || c.rule == r;
    }
  }

  /** A sample is checked against exactly the threshold rules for its system that it has a value for. */
  lemma MetricChecksExactly(rules: seq<Rule>, system: nat, m: Metrics, c: Check)
    ensures c in MetricChecks(rules, system, m) <==>
              && c.rule in rules && c.system == system && c.rule.system in {None, Some(system)}
              && Reads(c.rule.metric, m, c.value)
  {
    MetricCheckFrom(rules, system, m, c);
    MetricValueMeaning(c.rule.metric, m, c.value);
  }

  /** Once for each rule in the list, in the order of the list. */
  lemma {:induction false} MetricChecksInOrder(a: seq<Rule>, b: seq<Rule>, system: nat, m: Metrics)
    ensures MetricChecks(a + b, system, m) == MetricChecks(a, system, m) + MetricChecks(b, system, m)
    ensures |b| == 1 ==> |MetricChecks(b, system, m)| <= 1
    decreases |b|
  {
    if b == [] {
      assert a + b == a;
    } else {
      assert (a + b)[..|a + b| - 1] == a + b[..|b| - 1];
      MetricChecksInOrder(a, b[..|b| - 1], system, m);
      var r := b[|b| - 1];
      var v := MetricValue(r.metric, m);
      Assoc(MetricChecks(a, system, m), MetricChecks(b[..|b| - 1], system, m),
            if r.metric != Offline && AppliesTo(r, system) && v.Some? then [Check(r, system, v.value)] else []);
    }
  }

  lemma {:induction false} SystemChecksExactly(r: Rule, systems: seq<nat>, c: Check)
    ensures c in SystemChecks(r, systems) <==>
              c.rule == r && c.system in systems && r.system in {None, Some(c.system)} && c.value == 0.0
  {
    if systems != [] {
      var init, sys := systems[..|systems| - 1], systems[|systems| - 1];
      SystemChecksExactly(r, init, c);
      assert systems == init + [sys];
      assert c.system in systems <==> c.system in init || c.system == sys;
    }
  }

  /** Offline rules are checked against exactly the systems they are for. */
  lemma {:induction false} OfflineChecksExactly(rules: seq<Rule>, systems: seq<nat>, c: Check)
    ensures c in OfflineChecks(rules, systems) <==>
              && c.rule in rules && c.rule.metric == Offline
              && c.system in systems && c.rule.system in {None, Some(c.system)} && c.value == 0.0
  {
    if rules != [] {
      var init, r := rules[..|rules| - 1], rules[|rules| - 1];
      OfflineChecksExactly(init, systems, c);
      SystemChecksExactly(r, systems, c);
      assert rules == init + [r];
      assert c.rule in rules <==> c.rule in init || c.rule == r;
    }
  }

  /** Rule by rule in the order of the list, and for each rule system by system. */
  lemma {:induction false} OfflineChecksInOrder(a: seq<Rule>, b: seq<Rule>, systems: seq<nat>)
    ensures OfflineChecks(a + b, systems) == OfflineChecks(a, systems) + OfflineChecks(b, systems)
    decreases |b|
  {
    if b == [] {
      assert a + b == a;
    } else {
      assert (a + b)[..|a + b| - 1] == a + b[..|b| - 1];
      OfflineChecksInOrder(a, b[..|b| - 1], systems);
      var last := b[|b| - 1];
      Assoc(OfflineChecks(a, systems), OfflineChecks(b[..|b| - 1], systems),
            if last.metric == Offline then SystemChecks(last, systems) else []);
    }
  }

  lemma {:induction false} SystemChecksInOrder(r: Rule, a: seq<nat>, b: seq<nat>)
    ensures SystemChecks(r, a + b) == SystemChecks(r, a) + SystemChecks(r, b)
    ensures |b| == 1 ==> |SystemChecks(r, b)| <= 1
    decreases |b|
  {
    if b == [] {
      assert a + b == a;
    } else {
      assert (a + b)[..|a + b| - 1] == a + b[..|b| - 1];
      SystemChecksInOrder(r, a, b[..|b| - 1]);
      var last := b[|b| - 1];
      Assoc(SystemChecks(r, a), SystemChecks(r, b[..|b| - 1]),
            if AppliesTo(r, last) then [Check(r, last, 0.0)] else []);
    }
  }

  /** The evaluation is what the source makes of one rule and a sample of the system. */
  predicate IsSampleEval(op: Op, rules: seq<Rule>, system: nat, m: Metrics, now: int) {
    op.Evaluate? &&
    var e := op.e;
    && e.rule in rules && e.system == system && e.rule.system in {None, Some(system)}
    && Reads(e.rule.metric, m, e.value) && (e.holds <==> e.value > e.rule.threshold)
    && e.since == e.now == now && e.delay == 60 * 1_000_000_000
  }

  /** The operations are such evaluations, and no rule is left out that the sample has a value for. */
  ghost predicate EvaluatesSample(ops: seq<Op>, rules: seq<Rule>, system: nat, m: Metrics, now: int) {
    && (forall i :: 0 <= i < |ops| ==> IsSampleEval(ops[i], rules, system, m, now))
    && (forall r :: r in rules && r.system in {None, Some(system)} && CanRead(r.metric, m) ==> IsAmong(ops, r, system))
  }

  ghost predicate IsAmong(ops: seq<Op>, r: Rule, system: nat) {
    exists i :: 0 <= i < |ops| && ops[i].Evaluate? && ops[i].e.rule == r && ops[i].e.system == system
  }

  lemma SampleEvals(ops: seq<Op>, rules: seq<Rule>, system: nat, m: Metrics, now: int)
    requires AreMetricEvals(ops, MetricChecks(rules, system, m), now)
    ensures EvaluatesSample(ops, rules, system, m, now)
  {
    var cs := MetricChecks(rules, system, m);
    forall i | 0 <= i < |ops| ensures IsSampleEval(ops[i], rules, system, m, now) {
      assert cs[i] in cs;
      MetricChecksExactly(rules, system, m, cs[i]);
      assert IsMetricEval(ops[i], cs[i], now);
    }
    forall r | r in rules && r.system in {None, Some(system)} && CanRead(r.metric, m) ensures IsAmong(ops, r, system) {
      MetricValueMeaning(r.metric, m, 0.0);
      var c := Check(r, system, MetricValue(r.metric, m).value);
      MetricValueMeaning(r.metric, m, c.value);
      MetricChecksExactly(rules, system, m, c);
      var i :| 0 <= i < |cs| && cs[i] == c;
      assert IsMetricEval(ops[i], cs[i], now);
    }
  }

  /** The evaluation is what the source makes of one offline rule and one system. */
  predicate IsAbsenceEval(op: Op, rules: seq<Rule>, systems: seq<nat>, online: set<nat>, offline: map<nat, int>,
                          started: int, now: int)
  {
    op.Evaluate? &&
    var e := op.e;
    && e.rule in rules && e.rule.metric == Offline && e.system in systems && e.rule.system in {None, Some(e.system)}
    && (e.holds <==> e.system !in online)
    && e.since == (if e.system in offline then offline[e.system] else started) && e.now == now && e.delay == 0
  }

  /** The operations are such evaluations, and no rule and system it is for are left out. */
  ghost predicate EvaluatesAbsence(ops: seq<Op>, rules: seq<Rule>, systems: seq<nat>, online: set<nat>,
                                   offline: map<nat, int>, started: int, now: int)
  {
    && (forall i :: 0 <= i < |ops| ==> IsAbsenceEval(ops[i], rules, systems, online, offline, started, now))
    && (forall r, sys :: r in rules && r.metric == Offline && sys in systems && r.system in {None, Some(sys)} ==>
          IsAmong(ops, r, sys))
  }

  lemma AbsenceEvals(ops: seq<Op>, rules: seq<Rule>, systems: seq<nat>, online: set<nat>, offline: map<nat, int>,
                     started: int, now: int)
    requires AreOfflineEvals(ops, OfflineChecks(rules, systems), online, offline, started, now)
    ensures EvaluatesAbsence(ops, rules, systems, online, offline, started, now)
  {
    var cs := OfflineChecks(rules, systems);
    forall i | 0 <= i < |ops| ensures IsAbsenceEval(ops[i], rules, systems, online, offline, started, now) {
      assert cs[i] in cs;
      OfflineChecksExactly(rules, systems, cs[i]);
      assert IsOfflineEval(ops[i], cs[i], online, offline, started, now);
    }
    forall r, sys | r in rules && r.metric == Offline && sys in systems && r.system in {None, Some(sys)}
      ensures IsAmong(ops, r, sys)
    {
      var c := Check(r, sys, 0.0);
      OfflineChecksExactly(rules, systems, c);
      var i :| 0 <= i < |cs| && cs[i] == c;
      assert IsOfflineEval(ops[i], cs[i], online, offline, started, now);
    }
  }

  class AlertEngine {
    const store: AlertStore
    var rules: seq<Rule>
    var states: map<Key, PairState>
    var offline: map<nat, int>
    var started: int
    ghost var trace: seq<Op>
    ghost var model: Engine

    ghost predicate Valid()
      reads this, store
    {
      && states == model.states && store.rows == model.rows && IdsOk(model)
      && model == ApplyAll(EMPTY, trace) && AllSound(EMPTY, trace)
      && forall i :: 0 <= i < |rules| ==> rules[i].id != 0
    }

    /** A hub that starts on the table another one left: it restores the firing alerts. */
    constructor (store: AlertStore, all: seq<Rule>, now: int, ghost past: seq<Op>)
      requires AllSound(EMPTY, past) && IdsOk(ApplyAll(EMPTY, past)) && store.rows == ApplyAll(EMPTY, past).rows
      requires forall i :: 0 <= i < |all| ==> all[i].id != 0
      ensures Valid() && this.store == store && rules == EnabledRules(all) && started == now && offline == map[]
      ensures |trace| == |past| + 1 && trace[..|past|] == past && trace[|past|].Restart?
    {
      var active := store.ActiveAlerts();
      var restored := Restore(active);
      this.store := store;
      rules, states, offline, started := EnabledRules(all), restored, map[], now;
      trace := past + [Restart(active)];
      model := ApplyAll(EMPTY, past + [Restart(active)]);
      Restarted(past, active);
      EnabledIds(all);
    }

    static method Restore(active: seq<Alert>) returns (restored: map<Key, PairState>)
      ensures restored == Restored(active)
    {
      restored := map[];
      for i := 0 to |active|
        invariant restored == Restored(active[..i])
      {
        var a := active[i];
        restored := restored[RowKey(a) := PairState(Some(a.startedAt * SECOND), None, Some(a))];
        assert active[..i + 1][..i] == active[..i];
      }
      assert active[..|active|] == active;
    }

    /** Advances one rule/system pair. */
    method Step(r: Rule, system: nat, holds: bool, value: real, since: int, now: int, delay: int)
      returns (event: Option<Entry>, ghost op: Op)
      requires Valid() && r.id != 0 && system != 0
      modifies this`states, this`trace, this`model, store
      ensures Valid() && trace == old(trace) + [op]
      ensures op.Evaluate? && op.e == Eval(r, system, holds, value, since, now, delay, op.e.created, op.e.written)
      ensures model.log == old(model).log + if event.Some? then [event.value] else []
    {
      ghost var e := Eval(r, system, holds, value, since, now, delay, None, true);
      if holds {
        ghost var created: Option<nat>;
        event, created := StepHolding(r, system, value, since, now, e);
        e := e.(created := created);
      } else {
        ghost var written: bool;
        event, written := StepClear(r, system, now, delay, e);
        e := e.(written := written);
      }
      op := Evaluate(e);
      LogOnlyGrows(model, e);
      Appended(trace, op);
      IdsKept(model, op);
      trace, model := trace + [op], Apply(model, op);
    }

    /** The condition holds: remember since when, and fire once it has held long enough. */
    method StepHolding(r: Rule, system: nat, value: real, since: int, now: int, ghost e: Eval)
      returns (event: Option<Entry>, ghost created: Option<nat>)
      requires e.rule == r && e.system == system && e.holds && e.value == value && e.since == since && e.now == now
      requires e.created.None?
      modifies this`states, store
      ensures created.Some? ==> created.value != 0 && created.value !in old(store.rows)
      ensures var s := EvaluatePair(Engine(old(states), old(store.rows), []), e.(created := created));
              states == s.states && store.rows == s.rows && s.log == if event.Some? then [event.value] else []
    {
      var key := Key(r.id, system);
      event, created := None, None;
      var st := if key in states then states[key] else PairState(None, None, None);
      st := PairState(Some(if st.since.Some? then st.since.value else since), None, st.alert);
      states := states[key := st];
      if st.alert.None? && now - st.since.value >= r.duration * SECOND {
        var a := Alert(0, r.id, system, r.metric, r.threshold, value, Unix(st.since.value), None);
        var id := store.CreateAlert(a);
        if id.Some? {
          created := id;
          states := states[key := st.(alert := Some(a.(id := id.value)))];
          event := Some(Fired(key));
        }
      }
    }

    /** The condition does not hold: forget the pair, or resolve its alert after the delay. */
    method StepClear(r: Rule, system: nat, now: int, delay: int, ghost e: Eval)
      returns (event: Option<Entry>, ghost written: bool)
      requires e.rule == r && e.system == system && !e.holds && e.now == now && e.delay == delay && e.written
      modifies this`states, store
      ensures var s := EvaluatePair(Engine(old(states), old(store.rows), []), e.(written := written));
              states == s.states && store.rows == s.rows && s.log == if event.Some? then [event.value] else []
    {
      var key := Key(r.id, system);
      event, written := None, true;
      var st := if key in states then states[key] else PairState(None, None, None);
      if st.alert.None? {
        states := states - {key};
      } else {
        var clear := if st.clearSince.Some? then st.clearSince.value else now;
        if now - clear < delay {
          states := states[key := PairState(None, Some(clear), st.alert)];
        } else {
          states := states - {key};
          var ok := store.ResolveAlert(st.alert.value.id, Unix(now));
          written := ok;
          event := Some(Resolved(key));
        }
      }
    }

    /** A sample of one system makes one evaluation for each threshold rule that applies to it. */
    method EvaluateMetrics(system: nat, m: Metrics, now: int) returns (events: seq<Entry>, ghost ops: seq<Op>)
      requires Valid() && system != 0
      modifies this`states, this`trace, this`model, store
      ensures Valid() && trace == old(trace) + ops && model.log == old(model).log + events
      ensures AreMetricEvals(ops, MetricChecks(rules, system, m), now)
      ensures EvaluatesSample(ops, rules, system, m, now)
    {
      events, ops := [], [];
      for n := 0 to |rules|
        invariant Valid() && trace == old(trace) + ops && model.log == old(model).log + events
        invariant AreMetricEvals(ops, MetricChecks(rules[..n], system, m), now)
      {
        var r := rules[n];
        MetricChecksOne(rules, n, system, m);
        if r.metric == Offline || !AppliesTo(r, system) {
          continue;
        }
        var v := MetricValue(r.metric, m);
        if v.None? {
          continue;
        }
        var event, op := Step(r, system, v.value > r.threshold, v.value, now, now, ALERT_CLEAR_DELAY);
        Assoc(old(trace), ops, [op]);
        ops := ops + [op];
        if event.Some? {
          events := events + [event.value];
        }
      }
      assert rules[..|rules|] == rules;
      SampleEvals(ops, rules, system, m, now);
    }

    method EvaluateOfflineSystem(r: Rule, sys: nat, online: set<nat>, now: int)
      returns (event: Option<Entry>, ghost op: Op)
      requires Valid() && r.id != 0 && sys != 0
      modifies this`states, this`trace, this`model, store
      ensures Valid() && trace == old(trace) + [op]
      ensures model.log == old(model).log + if event.Some? then [event.value] else []
      ensures AreOfflineEvals([op], [Check(r, sys, 0.0)], online, offline, started, now)
    {
      var since := if sys in offline then offline[sys] else started;
      event, op := Step(r, sys, sys !in online, 0.0, since, now, 0);
    }

    /** Checks one offline rule against the systems: the inner loop of evaluateOffline. */
    method EvaluateOfflineRule(r: Rule, systems: seq<nat>, online: set<nat>, now: int)
      returns (events: seq<Entry>, ghost ops: seq<Op>)
      requires Valid() && r.id != 0 && forall i :: 0 <= i < |systems| ==> systems[i] != 0
      modifies this`states, this`trace, this`model, store
      ensures Valid() && trace == old(trace) + ops && model.log == old(model).log + events
      ensures AreOfflineEvals(ops, SystemChecks(r, systems), online, offline, started, now)
    {
      events, ops := [], [];
      for n := 0 to |systems|
        invariant Valid() && trace == old(trace) + ops && model.log == old(model).log + events
        invariant AreOfflineEvals(ops, SystemChecks(r, systems[..n]), online, offline, started, now)
      {
        var sys := systems[n];
        SystemChecksOne(r, systems, n);
        if !AppliesTo(r, sys) {
          continue;
        }
        var event, op := EvaluateOfflineSystem(r, sys, online, now);
        MoreOfflineEvals(ops, SystemChecks(r, systems[..n]), [op], [Check(r, sys, 0.0)], online, offline, started, now);
        Assoc(old(trace), ops, [op]);
        ops := ops + [op];
        if event.Some? {
          events := events + [event.value];
        }
      }
      assert systems[..|systems|] == systems;
    }

    /** Makes one evaluation for each offline rule and each system it applies to. */
    method EvaluateOffline(systems: seq<nat>, online: set<nat>, now: int)
      returns (events: seq<Entry>, ghost ops: seq<Op>)
      requires Valid() && forall i :: 0 <= i < |systems| ==> systems[i] != 0
      modifies this`states, this`trace, this`model, store
      ensures Valid() && trace == old(trace) + ops && model.log == old(model).log + events
      ensures AreOfflineEvals(ops, OfflineChecks(rules, systems), online, offline, started, now)
      ensures EvaluatesAbsence(ops, rules, systems, online, offline, started, now)
    {
      events, ops := [], [];
      for n := 0 to |rules|
        invariant Valid() && trace == old(trace) + ops && model.log == old(model).log + events
        invariant AreOfflineEvals(ops, OfflineChecks(rules[..n], systems), online, offline, started, now)
      {
        var r := rules[n];
        OfflineChecksOne(rules, n, systems);
        if r.metric != Offline {
          continue;
        }
        var more, evals := EvaluateOfflineRule(r, systems, online, now);
        MoreOfflineEvals(ops, OfflineChecks(rules[..n], systems), evals, SystemChecks(r, systems),
                         online, offline, started, now);
        Assoc(old(trace), ops, evals);
        Assoc(old(model).log, events, more);
        events, ops := events + more, ops + evals;
      }
      assert rules[..|rules|] == rules;
      AbsenceEvals(ops, rules, systems, online, offline, started, now);
    }

    method AgentOnline(id: nat)
      requires Valid()
      modifies this`offline
      ensures Valid() && offline == old(offline) - {id}
    {
      offline := offline - {id};
    }

    method AgentOffline(id: nat, now: int)
      requires Valid()
      modifies this`offline
      ensures Valid() && offline == old(offline)[id := now]
    {
      offline := offline[id := now];
    }

    /** The hub prunes the history; if the store refuses, nothing happens. */
    method PruneHistory(now: int) returns (ok: bool)
      requires Valid()
      modifies this`trace, this`model, store
      ensures Valid() && trace == old(trace) + if ok then [Prune(Unix(now - 90 * 24 * 3600 * 1_000_000_000))] else []
    {
      ok := store.PruneAlerts(now);
      if ok {
        ghost var op := Prune(Unix(now - ALERT_RETENTION));
        Appended(trace, op);
        IdsKept(model, op);
        trace, model := trace + [op], Apply(model, op);
      }
    }

    /** Drops the states a reset concerns: the loop in resetAlerts. */
    method ForgetStates(rule: nat, system: nat)
      modifies this`states
      ensures states == ResetStates(old(states), rule, system)
    {
      var todo := states.Keys;
      while todo != {}
        invariant todo <= old(states).Keys
        invariant states == map k | k in old(states) && (k in todo || !(k.rule == rule || k.system == system))
                            :: old(states)[k]
        decreases todo
      {
        var k :| k in todo;
        if k.rule == rule || k.system == system {
          states := states - {k};
        }
        todo := todo - {k};
      }
    }

    /**
     * Performs a reset. The rule list is replaced only if a rule is meant and the store could
     * be read: reloaded is what it answered.
     */
    method ResetAlerts(rule: nat, system: nat, now: int, reloaded: Option<seq<Rule>>) returns (ghost op: Op)
      requires Valid()
      requires reloaded.Some? ==> forall i :: 0 <= i < |reloaded.value| ==> reloaded.value[i].id != 0
      modifies this, store
      ensures Valid() && trace == old(trace) + [op] && op.Reset? && op == Reset(rule, system, now, op.written)
      ensures offline == if system != 0 then old(offline) - {system} else old(offline)
      ensures rules == if rule != 0 && reloaded.Some? then EnabledRules(reloaded.value) else old(rules)
      ensures started == old(started)
    {
      var ok := store.ResolveAlertsWhere(rule, system, Unix(now));
      ForgetStates(rule, system);
      if system != 0 {
        offline := offline - {system};
      }
      if rule != 0 && reloaded.Some? {
        rules := EnabledRules(reloaded.value);
      }
      op := Reset(rule, system, now, ok);
      Appended(trace, op);
      IdsKept(model, op);
      trace, model := trace + [op], Apply(model, op);
    }
  }

  lemma Restarted(past: seq<Op>, active: seq<Alert>)
    requires AllSound(EMPTY, past) && IdsOk(ApplyAll(EMPTY, past)) && IsActive(ApplyAll(EMPTY, past).rows, active)
    ensures var all := past + [Restart(active)];
            && AllSound(EMPTY, all) && IdsOk(ApplyAll(EMPTY, all))
            && ApplyAll(EMPTY, all).rows == ApplyAll(EMPTY, past).rows
            && ApplyAll(EMPTY, all).states == Restored(active)
  {
    Appended(past, Restart(active));
    IdsKept(ApplyAll(EMPTY, past), Restart(active));
  }

  lemma EnabledIds(all: seq<Rule>)
    requires forall i :: 0 <= i < |all| ==> all[i].id != 0
    ensures forall i :: 0 <= i < |EnabledRules(all)| ==> EnabledRules(all)[i].id != 0
  {
  }

  lemma Appended(ops: seq<Op>, op: Op)
    requires AllSound(EMPTY, ops) && Sound(ApplyAll(EMPTY, ops), op)
    ensures AllSound(EMPTY, ops + [op]) && ApplyAll(EMPTY, ops + [op]) == Apply(ApplyAll(EMPTY, ops), op)
  {
    assert (ops + [op])[..|ops|] == ops;
  }

  lemma IdsKept(s: Engine, op: Op)
    requires IdsOk(s) && Sound(s, op)
    ensures IdsOk(Apply(s, op))
  {
    if op.Restart? {
      RestoredMeaning(op.active);
      forall k | k in Restored(op.active) ensures k.rule != 0 && k.system != 0 {
        var i :| 0 <= i < |op.active| && IsRestored(op.active[i], k, Restored(op.active)[k]);
      }
    }
  }

  /** Memory and table agree at every moment of an engine whose resolve writes have all succeeded. */
  lemma EngineAgrees(e: AlertEngine)
    requires e.Valid() && forall i :: 0 <= i < |e.trace| ==> Written(e.trace[i])
    ensures Agree(e.states, e.store.rows) && Alternates(e.model.log)
  {
    AllowedIfWritten(EMPTY, e.trace);
    ReachableInv(e.trace);
  }
}
