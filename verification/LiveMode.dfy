/**
 * How often agents report: often while someone watches, seldom otherwise.
 *
 * The viewer count lives under the broker's mutex, everything else under the hub's. A section
 * under the hub's mutex that looks at the count is two steps: reading the count, and acting on
 * it; viewers may come and go between them. A viewer's subscribe and its unsubscribe each make
 * their own call of viewersChanged, and the viewer can leave only after its first has returned.
 * Timers fire at any time, and one that was stopped may still fire if its callback was already
 * waiting for the mutex.
 */
module LiveMode {
  import opened Wrappers

  const LIVE_INTERVAL: nat := 2
  const IDLE_INTERVAL: nat := 60

  /** What the holder of the hub's mutex has read; Free when nobody holds it. */
  datatype Section =
    | Free
    | Changing(viewer: nat, count: nat)  // viewersChanged, called for this viewer
    | Expiring(timer: nat, goIdle: bool) // a timer's callback, after its condition was evaluated

  datatype Hub = Hub(
    viewers: set<nat>,
    arriving: set<nat>,        // viewers whose subscribe has not read the count yet
    leaving: set<nat>,         // viewers gone whose unsubscribe has not read the count yet
    section: Section,
    live: bool,
    idleTimer: Option<nat>,
    due: set<nat>,             // timers whose callback may still run
    started: nat,              // timers ever started
    seen: nat,                 // of those, how many before a viewer last came or left
    noticed: nat,              // and how many before a change callback last acted on viewers
    agents: map<nat, nat>)     // registered agents and the last interval issued to each

  datatype Action =
    | Subscribe(v: nat)
    | Unsubscribe(v: nat)
    | ReadChange(v: nat)
    | ApplyChange(late: bool)  // late: the timer to be stopped had already fired
    | ReadTimer(t: nat)
    | ApplyTimer
    | Register(a: nat)
    | Unregister(a: nat)

  const INITIAL := Hub({}, {}, {}, Free, false, None, {}, 0, 0, 0, map[])

  function Interval(live: bool): nat {
    if live then LIVE_INTERVAL else IDLE_INTERVAL
  }

  function Broadcast(agents: map<nat, nat>, sec: nat): map<nat, nat> {
    map a | a in agents :: sec
  }

  function GoLive(h: Hub): Hub {
    if h.live then h else h.(live := true, agents := Broadcast(h.agents, LIVE_INTERVAL))
  }

  function StopTimer(h: Hub, late: bool): Hub {
    if h.idleTimer.None? then h
    else h.(idleTimer := None, due := if late then h.due else h.due - {h.idleTimer.value})
  }

  function StartTimer(h: Hub): Hub {
    h.(idleTimer := Some(h.started), due := h.due + {h.started}, started := h.started + 1)
  }

  /** viewersChanged after it has read the count. */
  function Changed(h: Hub, count: nat, late: bool): Hub {
    if count > 0 then GoLive(StopTimer(h, late)).(noticed := h.started)
    else if h.live && h.idleTimer.None? then StartTimer(h)
    else h
  }

  /** The viewer's own call of viewersChanged has read the count and holds the mutex. */
  predicate IsOwn(h: Hub, v: nat) {
    h.section.Changing? && h.section.viewer == v
  }

  /** The viewer's subscribe has returned. */
  predicate Returned(h: Hub, v: nat) {
    v in h.viewers && v !in h.arriving && !IsOwn(h, v)
  }

  /** Every call of viewersChanged has read the count. */
  predicate NonePending(h: Hub) {
    h.arriving == {} && h.leaving == {}
  }

  predicate Enabled(h: Hub, a: Action) {
    match a
    case Subscribe(v) => v !in h.viewers && v !in h.leaving && !IsOwn(h, v) // v is a new channel
    case Unsubscribe(v) => Returned(h, v)
    case ReadChange(v) => h.section.Free? && v in h.arriving + h.leaving
    case ApplyChange(_) => h.section.Changing?
    case ReadTimer(t) => h.section.Free? && t in h.due
    case ApplyTimer => h.section.Expiring?
    case Register(_) => h.section.Free?
    case Unregister(_) => h.section.Free?
  }

  function Next(h: Hub, a: Action): Hub {
    if !Enabled(h, a) then h else
    match a
    case Subscribe(v) => h.(viewers := h.viewers + {v}, arriving := h.arriving + {v}, seen := h.started)
    case Unsubscribe(v) => h.(viewers := h.viewers - {v}, leaving := h.leaving + {v}, seen := h.started)
    case ReadChange(v) =>
      h.(arriving := h.arriving - {v}, leaving := h.leaving - {v}, section := Changing(v, |h.viewers|))
    case ApplyChange(late) => Changed(h, h.section.count, late).(section := Free)
    case ReadTimer(t) =>
      h.(due := h.due - {t}, idleTimer := None, section := Expiring(t, h.live && |h.viewers| == 0))
    case ApplyTimer =>
      if h.section.goIdle then h.(live := false, agents := Broadcast(h.agents, IDLE_INTERVAL), section := Free)
      else h.(section := Free)
    case Register(a) => h.(agents := h.agents[a := Interval(h.live)])
    case Unregister(a) => h.(agents := h.agents - {a})
  }

  function Run(h: Hub, actions: seq<Action>): Hub {
    if actions == [] then h else Next(Run(h, actions[..|actions| - 1]), actions[|actions| - 1])
  }

  // ---- Invariant ----

  /** Viewers are served live, and an unwatched live hub will be made idle. */
  ghost predicate Settled(h: Hub) {
    && (h.viewers != {} ==> h.live)
    && (h.viewers == {} && h.live ==> h.due != {})
  }

  /** Without a callback to come, what the current section read is still true. */
  ghost predicate Current(h: Hub) {
    match h.section
    case Free => Settled(h)
    case Changing(_, count) => count > 0 <==> h.viewers != {}
    case Expiring(_, goIdle) => (h.live ==> (goIdle <==> h.viewers == {})) && (h.viewers != {} ==> h.live)
  }

  /** When the hub is unwatched, everyone who came has been noticed. */
  ghost predicate MarksOk(h: Hub) {
    && h.seen <= h.started && h.noticed <= h.started
    && (h.viewers == {} ==> h.seen == h.noticed)
    && (h.viewers == {} && h.section.Changing? && h.section.count > 0 ==> h.seen == h.started)
  }

  /** A viewer whose subscribe has returned was noticed after all timers so far, and is served live. */
  ghost predicate IsServed(h: Hub) {
    h.noticed == h.started && h.live && !(h.section.Expiring? && h.section.goIdle)
  }

  ghost predicate ViewersOk(h: Hub) {
    && h.arriving <= h.viewers
    && (h.section.Changing? && h.section.count == 0 ==> h.viewers <= h.arriving)
    && (h.section.Changing? && h.section.viewer in h.viewers ==> h.section.count > 0)
    && (forall v :: Returned(h, v) ==> IsServed(h))
  }

  ghost predicate Inv(h: Hub) {
    && (!NonePending(h) || Current(h))
    && (h.idleTimer.Some? ==> h.idleTimer.value in h.due)
    && (forall t :: t in h.due ==> t < h.started)
    && (h.section.Expiring? ==> h.section.timer < h.started && h.section.timer !in h.due)
    && MarksOk(h) && ViewersOk(h)
    && (forall a :: a in h.agents ==> h.agents[a] == Interval(h.live))
  }

  lemma ChangeKeeps(h: Hub, late: bool)
    requires Inv(h) && h.section.Changing?
    ensures Inv(Next(h, ApplyChange(late)))
  {
    var t := Changed(h, h.section.count, late);
    if h.section.count == 0 && h.live && h.idleTimer.None? {
      assert h.started in t.due;
    }
  }

  lemma ViewersKept(h: Hub, a: Action)
    requires Inv(h)
    ensures ViewersOk(Next(h, a))
  {
    assert |h.viewers| == 0 <==> h.viewers == {};
    var n := Next(h, a);
    forall v | Returned(n, v) ensures IsServed(n) {
      if Returned(h, v) {
        assert IsServed(h);
      }
    }
  }

  lemma NextKeeps(h: Hub, a: Action)
    requires Inv(h)
    ensures Inv(Next(h, a))
  {
    assert |h.viewers| == 0 <==> h.viewers == {};
    ViewersKept(h, a);
    if a.ApplyChange? && Enabled(h, a) {
      ChangeKeeps(h, a.late);
    }
  }

  lemma {:induction false} ReachableInv(actions: seq<Action>)
    ensures Inv(Run(INITIAL, actions))
    decreases |actions|
  {
    if actions != [] {
      ReachableInv(actions[..|actions| - 1]);
      NextKeeps(Run(INITIAL, actions[..|actions| - 1]), actions[|actions| - 1]);
    }
  }

  /**
   * Whenever every change callback has run and the mutex is free: viewers present means live,
   * no viewers and live means a timer is still due, and the last interval issued to every
   * registered agent, whenever it registered, is the current one.
   */
  lemma LiveProtocol(actions: seq<Action>)
    ensures var h := Run(INITIAL, actions);
            && (NonePending(h) && h.section.Free? ==>
                  && (h.viewers != {} ==> h.live)
                  && (h.viewers == {} && h.live ==> h.due != {}))
            && (forall a :: a in h.agents ==> h.agents[a] == Interval(h.live))
  {
    ReachableInv(actions);
  }

  /**
   * A viewer whose subscribe has returned is served live by every agent for as long as it stays,
   * whatever other viewers, their callbacks and any timers do.
   */
  lemma WatchedIsLive(actions: seq<Action>, v: nat)
    requires Returned(Run(INITIAL, actions), v)
    ensures var h := Run(INITIAL, actions);
            h.live && forall a :: a in h.agents ==> h.agents[a] == 2
  {
    ReachableInv(actions);
    assert IsServed(Run(INITIAL, actions));
  }

  /**
   * A new viewer can come at any time, and one whose subscribe has returned can leave at any
   * time, also while the mutex is held for someone else.
   */
  lemma ViewersComeAndGo(h: Hub, v: nat)
    ensures v !in h.viewers + h.leaving && (h.section.Changing? ==> h.section.viewer != v) ==>
              && Next(h, Subscribe(v)).viewers == h.viewers + {v}
              && Next(h, Subscribe(v)).arriving == h.arriving + {v}
    ensures v in h.viewers && v !in h.arriving && (h.section.Changing? ==> h.section.viewer != v) ==>
              && Next(h, Unsubscribe(v)).viewers == h.viewers - {v}
              && Next(h, Unsubscribe(v)).leaving == h.leaving + {v}
  {
  }

  /** While the mutex is held, nobody else gets a section of their own. */
  lemma MutexExcludes(h: Hub, a: Action)
    requires h.section != Free && (a.Register? || a.Unregister? || a.ReadChange? || a.ReadTimer?)
    ensures Next(h, a) == h
  {
  }

  /** An agent that registers is told the current interval at once; one that unregisters is forgotten. */
  lemma AgentsComeAndGo(h: Hub, a: nat)
    requires h.section.Free?
    ensures var r := Next(h, Register(a)).agents;
            r.Keys == h.agents.Keys + {a} && r[a] == (if h.live then 2 else 60)
    ensures Next(h, Unregister(a)).agents.Keys == h.agents.Keys - {a}
  {
  }

  /** With nothing left to run, agents report live exactly when someone watches. */
  lemma QuiescentExact(actions: seq<Action>)
    ensures var h := Run(INITIAL, actions);
            NonePending(h) && h.section.Free? && h.due == {} ==> (h.live <==> h.viewers != {})
  {
    ReachableInv(actions);
  }

  /** An unwatched hub goes idle with the next timer, whichever it is. */
  lemma AnyTimerGoesIdle(actions: seq<Action>, t: nat)
    requires var h := Run(INITIAL, actions);
             h.section.Free? && h.viewers == {} && h.live && t in h.due
    ensures var h := Run(INITIAL, actions);
            var r := Next(Next(h, ReadTimer(t)), ApplyTimer);
            !r.live && r.section.Free? && forall a :: a in r.agents ==> r.agents[a] == 60
  {
    ReachableInv(actions);
    var h := Run(INITIAL, actions);
    assert |h.viewers| == 0;
  }

  // ---- The idle delay ----

  /** The timer can still make the hub idle. */
  predicate Armed(h: Hub, t: nat) {
    t in h.due || (h.section.Expiring? && h.section.timer == t)
  }

  /** A viewer comes or leaves. */
  predicate IsViewer(h: Hub, a: Action) {
    Enabled(h, a) && (a.Subscribe? || a.Unsubscribe?)
  }

  /** A change callback acts on viewers it has read. */
  predicate IsNotice(h: Hub, a: Action) {
    Enabled(h, a) && a.ApplyChange? && h.section.count > 0
  }

  /** After timer t was started, a viewer came or left. */
  ghost predicate ViewerSince(actions: seq<Action>, t: nat) {
    actions != [] &&
    var init, h := actions[..|actions| - 1], Run(INITIAL, actions[..|actions| - 1]);
    ViewerSince(init, t) || (t < h.started && IsViewer(h, actions[|actions| - 1]))
  }

  /** After timer t was started, a change callback acted on viewers. */
  ghost predicate NoticeSince(actions: seq<Action>, t: nat) {
    actions != [] &&
    var init, h := actions[..|actions| - 1], Run(INITIAL, actions[..|actions| - 1]);
    NoticeSince(init, t) || (t < h.started && IsNotice(h, actions[|actions| - 1]))
  }

  /** A change callback stopped timer t, but t's callback was already waiting for the mutex. */
  ghost predicate StoppedTooLate(actions: seq<Action>, t: nat) {
    actions != [] &&
    var init, h, a := actions[..|actions| - 1], Run(INITIAL, actions[..|actions| - 1]), actions[|actions| - 1];
    StoppedTooLate(init, t) || (t < h.started && IsNotice(h, a) && h.idleTimer == Some(t) && a.late)
  }

  /** A change callback acted on viewers after t was started, but t was not the recorded timer. */
  ghost predicate Forgotten(actions: seq<Action>, t: nat) {
    actions != [] &&
    var init, h := actions[..|actions| - 1], Run(INITIAL, actions[..|actions| - 1]);
    Forgotten(init, t) || (t < h.started && IsNotice(h, actions[|actions| - 1]) && h.idleTimer != Some(t))
  }

  lemma {:induction false} MarksMean(actions: seq<Action>, t: nat)
    requires t < Run(INITIAL, actions).started
    ensures ViewerSince(actions, t) <==> t < Run(INITIAL, actions).seen
    ensures NoticeSince(actions, t) <==> t < Run(INITIAL, actions).noticed
    decreases |actions|
  {
    var init, a := actions[..|actions| - 1], actions[|actions| - 1];
    var h := Run(INITIAL, init);
    ReachableInv(init);
    if t < h.started {
      MarksMean(init, t);
    } else {
      NotYetStarted(init, t);
    }
  }

  lemma {:induction false} NotYetStarted(actions: seq<Action>, t: nat)
    requires Run(INITIAL, actions).started <= t
    ensures !ViewerSince(actions, t) && !NoticeSince(actions, t)
    decreases |actions|
  {
    if actions != [] {
      NotYetStarted(actions[..|actions| - 1], t);
    }
  }

  /** A timer that is armed after callbacks acted on viewers escaped one of the two ways. */
  lemma {:induction false} HowTimersEscape(actions: seq<Action>, t: nat)
    requires Armed(Run(INITIAL, actions), t)
    ensures NoticeSince(actions, t) <==> StoppedTooLate(actions, t) || Forgotten(actions, t)
    decreases |actions|
  {
    if actions != [] {
      var init := actions[..|actions| - 1];
      var h := Run(INITIAL, init);
      ReachableInv(init);
      if t < h.started {
        assert Armed(h, t);
        HowTimersEscape(init, t);
      } else {
        NotYetStarted(init, t);
        NeverEscaped(init, t);
      }
    }
  }

  lemma {:induction false} NeverEscaped(actions: seq<Action>, t: nat)
    requires Run(INITIAL, actions).started <= t
    ensures !StoppedTooLate(actions, t) && !Forgotten(actions, t)
    decreases |actions|
  {
    if actions != [] {
      NeverEscaped(actions[..|actions| - 1], t);
    }
  }

  /** When the hub is unwatched, a change callback has acted on viewers since anyone came or left. */
  lemma NobodyLeavesUnnoticed(actions: seq<Action>, t: nat)
    requires var h := Run(INITIAL, actions); h.viewers == {} && t < h.started
    ensures ViewerSince(actions, t) <==> NoticeSince(actions, t)
  {
    ReachableInv(actions);
    MarksMean(actions, t);
  }

  /** Timer t's callback gets the mutex and finds the hub unwatched. */
  predicate FiresUnwatched(h: Hub, t: nat) {
    Enabled(h, ReadTimer(t)) && h.viewers == {}
  }

  /**
   * Going idle is meant to wait until nobody has watched for a while. In every run, when timer
   * t's callback finds the hub unwatched, a viewer came or left after t was started exactly in
   * two cases: a change callback stopped t too late, or t was not recorded any more when one
   * wanted to stop it.
   */
  lemma IdleEarlyIff(actions: seq<Action>, t: nat)
    requires FiresUnwatched(Run(INITIAL, actions), t)
    ensures ViewerSince(actions, t) <==> StoppedTooLate(actions, t) || Forgotten(actions, t)
  {
    ReachableInv(actions);
    NobodyLeavesUnnoticed(actions, t);
    HowTimersEscape(actions, t);
  }

  /** The k-th action is the callback of t deciding that the hub, which is live, goes idle. */
  predicate Decides(actions: seq<Action>, k: nat, t: nat)
    requires k < |actions|
  {
    var h := Run(INITIAL, actions[..k]);
    actions[k] == ReadTimer(t) && FiresUnwatched(h, t) && h.live
  }

  /** Deciding to go idle is what makes the hub idle: nothing can come between it and ApplyTimer. */
  lemma {:induction false} DecidedIsIdle(h: Hub, t: nat, vs: seq<Action>)
    requires FiresUnwatched(h, t) && h.live && forall i :: 0 <= i < |vs| ==> vs[i] != ApplyTimer
    ensures Run(Next(h, ReadTimer(t)), vs).section == Expiring(t, true)
    ensures !Next(Run(Next(h, ReadTimer(t)), vs), ApplyTimer).live
  {
    if vs == [] {
      assert |h.viewers| == 0;
    } else {
      DecidedIsIdle(h, t, vs[..|vs| - 1]);
    }
  }

  /** A run keeps the delay: no callback decides to go idle although a viewer came or left since. */
  ghost predicate KeepsDelay(actions: seq<Action>) {
    forall k, t :: 0 <= k < |actions| && Decides(actions, k, t) ==> !ViewerSince(actions[..k], t)
  }

  /** No callback decides to go idle whose timer was stopped too late or forgotten. */
  ghost predicate NeverSpoilt(actions: seq<Action>) {
    forall k, t :: 0 <= k < |actions| && Decides(actions, k, t) ==>
      !StoppedTooLate(actions[..k], t) && !Forgotten(actions[..k], t)
  }

  /** A run keeps the delay if and only if neither case decides in it. */
  lemma DelayKeptIff(actions: seq<Action>)
    ensures KeepsDelay(actions) <==> NeverSpoilt(actions)
  {
    forall k, t | 0 <= k < |actions| && Decides(actions, k, t)
      ensures ViewerSince(actions[..k], t) <==> StoppedTooLate(actions[..k], t) || Forgotten(actions[..k], t)
    {
      IdleEarlyIff(actions[..k], t);
    }
  }

  // ---- Where the two cases come from ----

  /** Only the recorded timer can fire, and it was started after viewers were last noticed. */
  ghost predicate OnlyRecorded(h: Hub) {
    && h.due == (if h.idleTimer.Some? then {h.idleTimer.value} else {})
    && forall t :: Armed(h, t) ==> h.noticed <= t
  }

  /** Stopping a timer whose callback was already waiting for the mutex. */
  predicate StopsTooLate(h: Hub, a: Action) {
    IsNotice(h, a) && a.late && h.idleTimer.Some?
  }

  /** A step lets a timer escape if and only if it stops one too late. */
  lemma EscapesIff(h: Hub, a: Action)
    requires Inv(h) && OnlyRecorded(h)
    ensures OnlyRecorded(Next(h, a)) <==> !StopsTooLate(h, a)
  {
    var n := Next(h, a);
    if StopsTooLate(h, a) {
      assert Armed(n, h.idleTimer.value);
    } else {
      StaysRecorded(h, a);
    }
  }

  lemma StaysRecorded(h: Hub, a: Action)
    requires Inv(h) && OnlyRecorded(h) && !StopsTooLate(h, a)
    ensures OnlyRecorded(Next(h, a))
  {
    var n := Next(h, a);
    assert forall t: nat :: Armed(n, t) ==> Armed(h, t) || t == h.started;
    if IsNotice(h, a) {
      assert n.due == {};
    }
  }

  ghost predicate NeverTooLate(actions: seq<Action>) {
    forall i :: 0 <= i < |actions| ==> !StopsTooLate(Run(INITIAL, actions[..i]), actions[i])
  }

  lemma NeverTooLateBefore(actions: seq<Action>)
    requires actions != [] && NeverTooLate(actions)
    ensures NeverTooLate(actions[..|actions| - 1])
    ensures !StopsTooLate(Run(INITIAL, actions[..|actions| - 1]), actions[|actions| - 1])
  {
    var init := actions[..|actions| - 1];
    forall i | 0 <= i < |init| ensures !StopsTooLate(Run(INITIAL, init[..i]), init[i]) {
      assert init[..i] == actions[..i];
    }
  }

  lemma {:induction false} NoEscapes(actions: seq<Action>)
    requires NeverTooLate(actions)
    ensures OnlyRecorded(Run(INITIAL, actions))
    decreases |actions|
  {
    if actions != [] {
      NeverTooLateBefore(actions);
      NoEscapes(actions[..|actions| - 1]);
      ReachableInv(actions[..|actions| - 1]);
      EscapesIff(Run(INITIAL, actions[..|actions| - 1]), actions[|actions| - 1]);
    }
  }

  /** So timely stops alone keep the delay, however viewers come and go: a page reload included. */
  lemma TimelyStopsKeepDelay(actions: seq<Action>)
    requires NeverTooLate(actions)
    ensures KeepsDelay(actions)
  {
    forall k, t | 0 <= k < |actions| && Decides(actions, k, t) ensures !ViewerSince(actions[..k], t) {
      var init := actions[..k];
      assert forall i :: 0 <= i < k ==> init[..i] == actions[..i];
      NoEscapes(init);
      ReachableInv(init);
      assert Armed(Run(INITIAL, init), t);
      MarksMean(init, t);
    }
  }

  // ---- Runs that cut the delay short ----

  /** Someone opens the page (come) or closes it (go); late: the timer to be stopped has fired. */
  function Come(late: bool): seq<Action> {
    [Subscribe(0), ReadChange(0), ApplyChange(late)]
  }

  const GO := [Unsubscribe(0), ReadChange(0), ApplyChange(false)]

  /** Timer 0 is running, and then someone is back before it could be stopped. */
  const BACK := Come(false) + GO + Come(true)

  lemma ComeTo(h: Hub, late: bool)
    requires h.viewers == {} && NonePending(h) && h.section == Free && h.agents == map[]
    ensures Run(h, Come(late)) ==
            Hub({0}, {}, {}, Free, true, None, StopTimer(h, late).due, h.started, h.started, h.started, map[])
  {
    RunThree(h, Subscribe(0), ReadChange(0), ApplyChange(late));
    assert {} + {0} == {0} && {0} - {0} == {};
  }

  lemma GoFrom(h: Hub)
    requires h.viewers == {0} && NonePending(h) && h.section == Free && h.live && h.idleTimer == None
    ensures Run(h, GO) ==
            Hub({}, {}, {}, Free, true, Some(h.started), h.due + {h.started}, h.started + 1, h.started, h.noticed,
                h.agents)
  {
    RunThree(h, Unsubscribe(0), ReadChange(0), ApplyChange(false));
    assert {0} - {0} == {} && {} + {0} == {0};
  }

  /** After coming and going, timer 0 runs and nobody watches. */
  lemma CameAndWent()
    ensures Run(INITIAL, Come(false) + GO) == Hub({}, {}, {}, Free, true, Some(0), {0}, 1, 0, 0, map[])
  {
    ComeTo(INITIAL, false);
    GoFrom(Run(INITIAL, Come(false)));
    RunAppend(INITIAL, Come(false), GO);
    assert {} + {0} == {0};
  }

  lemma CameBack()
    ensures Run(INITIAL, BACK) == Hub({0}, {}, {}, Free, true, None, {0}, 1, 1, 1, map[])
  {
    CameAndWent();
    ComeTo(Run(INITIAL, Come(false) + GO), true);
    RunAppend(INITIAL, Come(false) + GO, Come(true));
  }

  /** Coming back late stops the recorded timer late. */
  lemma ComesLate(xs: seq<Action>, t: nat)
    requires var h := Run(INITIAL, xs);
             h.viewers == {} && NonePending(h) && h.section == Free && h.idleTimer == Some(t) && t < h.started
    ensures StoppedTooLate(xs + Come(true), t)
  {
    var h, two := Run(INITIAL, xs), [Subscribe(0), ReadChange(0)];
    RunAppend(INITIAL, xs, two);
    RunTwo(h, Subscribe(0), ReadChange(0));
    assert h.viewers + {0} == {0};
    assert (xs + Come(true))[..|xs| + 2] == xs + two;
  }

  const LATE_RUN := BACK + GO

  lemma LateRunEnds()
    ensures Run(INITIAL, LATE_RUN) == Hub({}, {}, {}, Free, true, Some(1), {0, 1}, 2, 1, 1, map[])
  {
    CameBack();
    GoFrom(Run(INITIAL, BACK));
    RunAppend(INITIAL, BACK, GO);
    assert {0} + {1} == {0, 1};
  }

  /** Timer 0, stopped too late, decides to go idle right after the viewer has left again. */
  lemma LateTimerCutsDelayShort()
    ensures FiresUnwatched(Run(INITIAL, LATE_RUN), 0) && Run(INITIAL, LATE_RUN).live
    ensures StoppedTooLate(LATE_RUN, 0) && ViewerSince(LATE_RUN, 0)
  {
    LateRunEnds();
    CameAndWent();
    ComesLate(Come(false) + GO, 0);
    StoppedAppend(BACK, GO, 0);
    IdleEarlyIff(LATE_RUN, 0);
  }

  /** A stop that was too late stays so, and there is no new one where none is late. */
  lemma {:induction false} StoppedAppend(xs: seq<Action>, ys: seq<Action>, t: nat)
    ensures StoppedTooLate(xs, t) ==> StoppedTooLate(xs + ys, t)
    ensures ApplyChange(true) !in ys && StoppedTooLate(xs + ys, t) ==> StoppedTooLate(xs, t)
    decreases |ys|
  {
    if ys == [] {
      assert xs + ys == xs;
    } else {
      assert (xs + ys)[..|xs + ys| - 1] == xs + ys[..|ys| - 1];
      StoppedAppend(xs, ys[..|ys| - 1], t);
    }
  }

  /** The viewer is back; first the late timer fires, which makes the hub forget the other one. */
  const FIRST_FIRES := [Subscribe(0), ReadTimer(0), ApplyTimer]
  const NOTICE := [ReadChange(0), ApplyChange(false)]

  const FORGOTTEN_RUN := LATE_RUN + FIRST_FIRES + NOTICE + GO

  lemma ForgottenRunEnds()
    ensures Run(INITIAL, FORGOTTEN_RUN) == Hub({}, {}, {}, Free, true, Some(2), {1, 2}, 3, 2, 2, map[])
  {
    LateRunEnds();
    RunAppend(INITIAL, LATE_RUN, FIRST_FIRES);
    FirstFiresAt(Run(INITIAL, LATE_RUN));
    RunAppend(INITIAL, LATE_RUN + FIRST_FIRES, NOTICE);
    NoticeAt(Run(INITIAL, LATE_RUN + FIRST_FIRES));
    RunAppend(INITIAL, LATE_RUN + FIRST_FIRES + NOTICE, GO);
    GoFrom(Run(INITIAL, LATE_RUN + FIRST_FIRES + NOTICE));
    assert {0, 1} - {0} == {1} && {1} + {2} == {1, 2};
  }

  /** No stop was late for timer 1, but it was not recorded when the viewer was noticed. */
  lemma NotStoppedLate()
    ensures !StoppedTooLate(FORGOTTEN_RUN, 1)
  {
    CameBack();
    NeverEscaped(BACK, 1);
    StoppedAppend(BACK, GO + FIRST_FIRES + NOTICE + GO, 1);
    assert BACK + (GO + FIRST_FIRES + NOTICE + GO) == FORGOTTEN_RUN;
  }

  /** Timer 1, forgotten when timer 0 fired, decides to go idle right after the viewer has left again. */
  lemma ForgottenTimerCutsDelayShort()
    ensures FiresUnwatched(Run(INITIAL, FORGOTTEN_RUN), 1) && Run(INITIAL, FORGOTTEN_RUN).live
    ensures Forgotten(FORGOTTEN_RUN, 1) && !StoppedTooLate(FORGOTTEN_RUN, 1)
  {
    ForgottenRunEnds();
    NotStoppedLate();
    MarksMean(FORGOTTEN_RUN, 1);
    HowTimersEscape(FORGOTTEN_RUN, 1);
  }

  lemma FirstFiresAt(h: Hub)
    requires h.viewers == {} && NonePending(h) && h.section == Free && h.live && 0 in h.due
    ensures Run(h, FIRST_FIRES) ==
            h.(viewers := {0}, arriving := {0}, due := h.due - {0}, idleTimer := None, seen := h.started)
  {
    RunThree(h, Subscribe(0), ReadTimer(0), ApplyTimer);
    assert {} + {0} == {0};
  }

  lemma NoticeAt(h: Hub)
    requires h.viewers == h.arriving == {0} && h.leaving == {} && h.section == Free && h.live && h.idleTimer == None
    ensures Run(h, NOTICE) == h.(arriving := {}, noticed := h.started)
  {
    RunTwo(h, ReadChange(0), ApplyChange(false));
    assert {0} - {0} == {};
  }

  lemma {:induction false} RunAppend(h: Hub, xs: seq<Action>, ys: seq<Action>)
    ensures Run(h, xs + ys) == Run(Run(h, xs), ys)
    decreases |ys|
  {
    if ys == [] {
      assert xs + ys == xs;
    } else {
      assert (xs + ys)[..|xs + ys| - 1] == xs + ys[..|ys| - 1];
      RunAppend(h, xs, ys[..|ys| - 1]);
    }
  }

  lemma RunOne(xs: seq<Action>, a: Action)
    ensures Run(INITIAL, xs + [a]) == Next(Run(INITIAL, xs), a)
  {
    assert (xs + [a])[..|xs|] == xs;
  }

  lemma RunTwo(h: Hub, a: Action, b: Action)
    ensures Run(h, [a, b]) == Next(Next(h, a), b)
  {
    assert [a, b][..1] == [a] && [a][..0] == [];
    assert Run(h, [a]) == Next(h, a);
  }

  lemma RunThree(h: Hub, a: Action, b: Action, c: Action)
    ensures Run(h, [a, b, c]) == Next(Next(Next(h, a), b), c)
  {
    RunTwo(h, a, b);
    assert [a, b, c][..2] == [a, b];
  }

  // ---- The object ----

  /** The hub's fields; a method is one step of a goroutine. */
  class LiveHub {
    var viewers: set<nat>
    var arriving: set<nat>
    var leaving: set<nat>
    var section: Section
    var live: bool
    var idleTimer: Option<nat>
    var due: set<nat>
    var started: nat
    var agents: map<nat, nat>
    ghost var seen: nat
    ghost var noticed: nat
    ghost var trace: seq<Action> // the steps so far

    ghost function View(): Hub
      reads this
    {
      Hub(viewers, arriving, leaving, section, live, idleTimer, due, started, seen, noticed, agents)
    }

    ghost predicate Valid()
      reads this
    {
      View() == Run(INITIAL, trace)
    }

    constructor ()
      ensures Valid() && trace == []
    {
      viewers, arriving, leaving, section := {}, {}, {}, Free;
      live, idleTimer, due, started, agents := false, None, {}, 0, map[];
      seen, noticed, trace := 0, 0, [];
    }

    /** broker.subscribe up to its call of onChange; v is a new channel. */
    method SubscribeViewer(v: nat)
      requires Valid() && Enabled(View(), Subscribe(v))
      modifies this
      ensures Valid() && trace == old(trace) + [Subscribe(v)] && View() == Next(old(View()), Subscribe(v))
    {
      RunOne(trace, Subscribe(v));
      viewers := viewers + {v};
      arriving := arriving + {v};
      seen := started;
      trace := trace + [Subscribe(v)];
    }

    /** The function subscribe returned, up to its call of onChange; there is none before it returned. */
    method UnsubscribeViewer(v: nat)
      requires Valid() && Returned(View(), v)
      modifies this
      ensures Valid() && trace == old(trace) + [Unsubscribe(v)] && View() == Next(old(View()), Unsubscribe(v))
    {
      RunOne(trace, Unsubscribe(v));
      viewers := viewers - {v};
      leaving := leaving + {v};
      seen := started;
      trace := trace + [Unsubscribe(v)];
    }

    /** viewersChanged, called for this viewer, takes the mutex and reads the count. */
    method BeginViewersChanged(v: nat)
      requires Valid() && section == Free && v in arriving + leaving
      modifies this
      ensures Valid() && trace == old(trace) + [ReadChange(v)] && View() == Next(old(View()), ReadChange(v))
    {
      RunOne(trace, ReadChange(v));
      arriving := arriving - {v};
      leaving := leaving - {v};
      section := Changing(v, |viewers|);
      trace := trace + [ReadChange(v)];
    }

    /** The rest of viewersChanged; late says that Stop came too late. */
    method FinishViewersChanged(late: bool)
      requires Valid() && section.Changing?
      modifies this
      ensures Valid() && trace == old(trace) + [ApplyChange(late)] && View() == Next(old(View()), ApplyChange(late))
    {
      RunOne(trace, ApplyChange(late));
      if section.count > 0 {
        StopAndGoLive(late);
      } else if live && idleTimer.None? {
        idleTimer := Some(started);
        due := due + {started};
        started := started + 1;
      }
      section := Free;
      trace := trace + [ApplyChange(late)];
    }

    /** Someone watches: no timer is wanted, and agents are to report live. */
    method StopAndGoLive(late: bool)
      modifies this`noticed, this`due, this`idleTimer, this`live, this`agents
      ensures View() == GoLive(StopTimer(old(View()), late)).(noticed := started)
    {
      noticed := started;
      if idleTimer.Some? {
        if !late {
          due := due - {idleTimer.value};
        }
        idleTimer := None;
      }
      if !live {
        live := true;
        BroadcastIntervalLocked();
      }
    }

    /** The timer callback takes the mutex, forgets the timer and evaluates its condition. */
    method BeginTimer(t: nat)
      requires Valid() && section == Free && t in due
      modifies this
      ensures Valid() && trace == old(trace) + [ReadTimer(t)] && View() == Next(old(View()), ReadTimer(t))
    {
      RunOne(trace, ReadTimer(t));
      due := due - {t};
      idleTimer := None;
      section := Expiring(t, live && |viewers| == 0);
      trace := trace + [ReadTimer(t)];
    }

    method FinishTimer()
      requires Valid() && section.Expiring?
      modifies this
      ensures Valid() && trace == old(trace) + [ApplyTimer] && View() == Next(old(View()), ApplyTimer)
    {
      RunOne(trace, ApplyTimer);
      if section.goIdle {
        live := false;
        BroadcastIntervalLocked();
      }
      section := Free;
      trace := trace + [ApplyTimer];
    }

    method BroadcastIntervalLocked()
      modifies this`agents
      ensures agents == Broadcast(old(agents), Interval(live))
    {
      var sec := if live then LIVE_INTERVAL else IDLE_INTERVAL;
      var todo := agents.Keys;
      while todo != {}
        invariant todo <= old(agents).Keys
        invariant agents == map a | a in old(agents) :: if a in todo then old(agents)[a] else sec
        decreases todo
      {
        var a :| a in todo;
        agents := agents[a := sec];
        todo := todo - {a};
      }
    }

    method RegisterAgent(a: nat) returns (interval: nat)
      requires Valid() && section == Free
      modifies this
      ensures Valid() && trace == old(trace) + [Register(a)] && View() == Next(old(View()), Register(a))
      ensures a in agents && interval == agents[a]
    {
      RunOne(trace, Register(a));
      interval := if live then LIVE_INTERVAL else IDLE_INTERVAL;
      agents := agents[a := interval];
      trace := trace + [Register(a)];
    }

    method UnregisterAgent(a: nat)
      requires Valid() && section == Free
      modifies this
      ensures Valid() && trace == old(trace) + [Unregister(a)] && View() == Next(old(View()), Unregister(a))
    {
      RunOne(trace, Unregister(a));
      agents := agents - {a};
      trace := trace + [Unregister(a)];
    }
  }

  /** What the theorems say of the object as it is: its viewers are served live. */
  lemma HubServesViewers(hub: LiveHub, v: nat)
    requires hub.Valid() && Returned(hub.View(), v)
    ensures hub.live && forall a :: a in hub.agents ==> hub.agents[a] == LIVE_INTERVAL
  {
    WatchedIsLive(hub.trace, v);
  }
}
