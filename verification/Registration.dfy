/**
 * Agent handlers against system deletion: admit, register, recheck, accept, interleaved with
 * deleting the row, dropping the map entry and closing the link. A section under the hub's
 * mutex, a store access and closing a connection are one step each.
 *
 * The store may give the id of a deleted system to a new one, so a system is an id and an
 * incarnation: the number of the row, counted over all rows ever made.
 */
module Registration {
  import opened Wrappers

  /** Where a handler's goroutine is. A handler and its link share one number. */
  datatype Phase =
    | Admitted
    | Replacing(prior: Option<nat>) // registered; the link it replaced is still to be closed
    | Registered
    | Accepted
    | Refusing                    // found no row; its map entry is still to be dropped
    | Dropped                     // refused; the deferred unregister and close are to come
    | Unregistered                // the deferred close of its own link is to come
    | Gone

  /** What the recheck found; a handler is accepted unless the row is known to be missing. */
  datatype Verdict = Unasked | Row(inc: nat) | ReadError | NoRow

  datatype Handler = Handler(
    sys: nat,
    inc: nat,      // the incarnation that admitted it
    phase: Phase,
    verdict: Verdict,
    late: bool)    // registered after a deletion of its incarnation had dropped the entry

  datatype DeleterPhase = Found | RowGone | Dropping(link: Option<nat>) | Finished

  /** bound: rows of the system made before this one's delete are gone. */
  datatype Deleter = Deleter(sys: nat, bound: nat, phase: DeleterPhase)

  datatype Net = Net(
    reuse: bool,            // whether the store may give a deleted system's id to a new one
    rows: map<nat, nat>,    // systems in the store: id to incarnation
    used: set<nat>,         // ids ever given out
    next: nat,              // rows ever made
    agents: map<nat, nat>,  // the hub's map: system id to link
    handlers: map<nat, Handler>,
    deleters: map<nat, Deleter>,
    closed: set<nat>)

  datatype Action =
    | Enroll(sys: nat)
    | Admit(h: nat, sys: nat)
    | Register(h: nat)
    | CloseOld(h: nat)
    | Recheck(h: nat)
    | RecheckFails(h: nat) // the store answers with an error other than "not found"
    | DropOwn(h: nat)
    | Unregister(h: nat)
    | CloseSelf(h: nat)
    | Lookup(d: nat, sys: nat)
    | DeleteRow(d: nat)
    | DropLink(d: nat)
    | CloseLink(d: nat)

  function Initial(reuse: bool): Net {
    Net(reuse, map[], {}, 0, map[], map[], map[], {})
  }

  predicate At(s: Net, h: nat, p: Phase) {
    h in s.handlers && s.handlers[h].phase == p
  }

  predicate IsAccepted(c: Handler) {
    c.verdict.Row? || c.verdict.ReadError?
  }

  predicate DeleterAt(s: Net, d: nat, p: DeleterPhase) {
    d in s.deleters && s.deleters[d].phase == p
  }

  /** Some deletion of this incarnation has removed the map entry of its id. */
  ghost predicate Deleted(s: Net, sys: nat, inc: nat) {
    exists d :: DropDone(s, d, sys, inc)
  }

  predicate DropDone(s: Net, d: nat, sys: nat, inc: nat) {
    d in s.deleters && s.deleters[d].sys == sys && inc < s.deleters[d].bound &&
    (s.deleters[d].phase.Dropping? || s.deleters[d].phase.Finished?)
  }

  predicate Enabled(s: Net, a: Action) {
    match a
    case Enroll(sys) => sys !in s.rows && (s.reuse || sys !in s.used)
    case Admit(h, sys) => h !in s.handlers && sys in s.rows
    case Register(h) => At(s, h, Admitted)
    case CloseOld(h) => h in s.handlers && s.handlers[h].phase.Replacing?
    case Recheck(h) => At(s, h, Registered)
    case RecheckFails(h) => At(s, h, Registered)
    case DropOwn(h) => At(s, h, Refusing)
    case Unregister(h) => At(s, h, Accepted) || At(s, h, Dropped)
    case CloseSelf(h) => At(s, h, Unregistered)
    case Lookup(d, sys) => d !in s.deleters && sys in s.rows
    case DeleteRow(d) => DeleterAt(s, d, Found)
    case DropLink(d) => DeleterAt(s, d, RowGone)
    case CloseLink(d) => d in s.deleters && s.deleters[d].phase.Dropping?
  }

  function SetPhase(s: Net, h: nat, p: Phase): Net
    requires h in s.handlers
  {
    s.(handlers := s.handlers[h := s.handlers[h].(phase := p)])
  }

  function SetVerdict(s: Net, h: nat, v: Verdict, p: Phase): Net
    requires h in s.handlers
  {
    s.(handlers := s.handlers[h := s.handlers[h].(phase := p, verdict := v)])
  }

  function SetDeleter(s: Net, d: nat, p: DeleterPhase): Net
    requires d in s.deleters
  {
    s.(deleters := s.deleters[d := s.deleters[d].(phase := p)])
  }

  /** Removes the map entry of h's system if it is still h's. */
  function WithoutOwn(agents: map<nat, nat>, sys: nat, h: nat): map<nat, nat> {
    if Get(agents, sys) == Some(h) then agents - {sys} else agents
  }

  function CloseIf(closed: set<nat>, link: Option<nat>): set<nat> {
    if link.Some? then closed + {link.value} else closed
  }

  ghost function Next(s: Net, a: Action): Net {
    if !Enabled(s, a) then s else
    match a
    case Enroll(sys) => s.(rows := s.rows[sys := s.next], used := s.used + {sys}, next := s.next + 1)
    case Admit(h, sys) => s.(handlers := s.handlers[h := Handler(sys, s.rows[sys], Admitted, Unasked, false)])
    case Register(h) =>
      var c := s.handlers[h];
      s.(agents := s.agents[c.sys := h],
         handlers := s.handlers[h := c.(phase := Replacing(Get(s.agents, c.sys)), late := Deleted(s, c.sys, c.inc))])
    case CloseOld(h) => SetPhase(s, h, Registered).(closed := CloseIf(s.closed, s.handlers[h].phase.prior))
    case Recheck(h) =>
      var c := s.handlers[h];
      if c.sys in s.rows then SetVerdict(s, h, Row(s.rows[c.sys]), Accepted) else SetVerdict(s, h, NoRow, Refusing)
    case RecheckFails(h) => SetVerdict(s, h, ReadError, Accepted)
    case DropOwn(h) => SetPhase(s, h, Dropped).(agents := WithoutOwn(s.agents, s.handlers[h].sys, h))
    case Unregister(h) => SetPhase(s, h, Unregistered).(agents := WithoutOwn(s.agents, s.handlers[h].sys, h))
    case CloseSelf(h) => SetPhase(s, h, Gone).(closed := s.closed + {h})
    case Lookup(d, sys) => s.(deleters := s.deleters[d := Deleter(sys, 0, Found)])
    case DeleteRow(d) =>
      s.(rows := s.rows - {s.deleters[d].sys},
         deleters := s.deleters[d := s.deleters[d].(bound := s.next, phase := RowGone)])
    case DropLink(d) =>
      var sys := s.deleters[d].sys;
      SetDeleter(s, d, Dropping(Get(s.agents, sys))).(agents := s.agents - {sys})
    case CloseLink(d) => SetDeleter(s, d, Finished).(closed := CloseIf(s.closed, s.deleters[d].phase.link))
  }

  ghost function Run(s: Net, actions: seq<Action>): Net {
    if actions == [] then s else Next(Run(s, actions[..|actions| - 1]), actions[|actions| - 1])
  }

  // ---- Safety ----

  /** A thread that displaced h, or h's own on its way out, is about to close it. */
  ghost predicate Owed(s: Net, h: nat) {
    || At(s, h, Dropped) || At(s, h, Unregistered)
    || (exists g :: At(s, g, Replacing(Some(h))))
    || (exists d :: DeleterAt(s, d, Dropping(Some(h))))
  }

  predicate Current(s: Net, h: nat) {
    h in s.handlers && Get(s.agents, s.handlers[h].sys) == Some(h)
  }

  /** Every link that was registered is current, closed, or about to be closed. */
  ghost predicate NoLeak(s: Net) {
    forall h :: h in s.handlers && !At(s, h, Admitted) ==> Current(s, h) || h in s.closed || Owed(s, h)
  }

  /** The handler was accepted on the row of another system than the one that admitted it. */
  predicate IsMistaken(c: Handler) {
    c.verdict.Row? && c.verdict.inc != c.inc
  }

  ghost predicate EntriesOk(s: Net) {
    forall sys :: sys in s.agents ==>
      var h := s.agents[sys];
      h in s.handlers && s.handlers[h].sys == sys && s.handlers[h].phase != Admitted
  }

  predicate HandlerOk(s: Net, h: nat)
    requires h in s.handlers
  {
    var c := s.handlers[h];
    && c.sys in s.used && c.inc < s.next
    && (IsAccepted(c) ==> c.phase in {Accepted, Unregistered, Gone})
    && (c.phase in {Dropped, Unregistered, Gone} ==> !Current(s, h))
    && (c.phase == Gone ==> h in s.closed)
    && (c.late ==> c.verdict != Row(c.inc) && Get(s.rows, c.sys) != Some(c.inc))
    && (!s.reuse ==> !IsMistaken(c) && (c.sys in s.rows ==> s.rows[c.sys] == c.inc))
  }

  /** Rows that were deleted are gone; a later row of the same id has a higher number. */
  ghost predicate RowsOk(s: Net) {
    && s.rows.Keys <= s.used && (forall sys :: sys in s.rows ==> s.rows[sys] < s.next)
    && forall d :: d in s.deleters ==> DeleterOk(s, s.deleters[d])
  }

  predicate DeleterOk(s: Net, d: Deleter) {
    d.bound <= s.next && (d.phase != Found && d.sys in s.rows ==> d.bound <= s.rows[d.sys])
  }

  /** A link accepted on a row is not current once a deletion of that row has dropped the entry. */
  ghost predicate DropsOk(s: Net) {
    forall h, d :: Current(s, h) && s.handlers[h].verdict.Row? ==>
      !DropDone(s, d, s.handlers[h].sys, s.handlers[h].verdict.inc)
  }

  /** A link registered before a deletion of its incarnation dropped the entry is not current after. */
  ghost predicate OnTimeOk(s: Net) {
    forall h, d :: Current(s, h) && !s.handlers[h].late ==> !DropDone(s, d, s.handlers[h].sys, s.handlers[h].inc)
  }

  ghost predicate Inv(s: Net) {
    && EntriesOk(s) && RowsOk(s) && DropsOk(s) && OnTimeOk(s) && NoLeak(s)
    && forall h :: h in s.handlers ==> HandlerOk(s, h)
  }

  // ---- Every step keeps the invariant ----

  /** The handler whose goroutine takes the step. */
  predicate ActsFor(a: Action, h: nat) {
    match a
    case Admit(g, _) => g == h
    case Register(g) => g == h
    case CloseOld(g) => g == h
    case Recheck(g) => g == h
    case RecheckFails(g) => g == h
    case DropOwn(g) => g == h
    case Unregister(g) => g == h
    case CloseSelf(g) => g == h
    case _ => false
  }

  lemma OthersStay(s: Net, a: Action, h: nat)
    requires !ActsFor(a, h)
    ensures Get(Next(s, a).handlers, h) == Get(s.handlers, h)
  {
  }

  /** A handler keeps its system, does not become admitted again, and asks once. */
  lemma HandlerMovesOn(s: Net, a: Action, h: nat)
    requires h in s.handlers
    ensures h in Next(s, a).handlers
    ensures var c, d := s.handlers[h], Next(s, a).handlers[h];
            && d.sys == c.sys && d.inc == c.inc && (d.phase == Admitted ==> c.phase == Admitted)
            && (d.verdict == c.verdict || a == Recheck(h) || (a == RecheckFails(h) && d.verdict == ReadError))
  {
    if !ActsFor(a, h) {
      OthersStay(s, a, h);
    }
  }

  /** Only registering, which a handler does once, says whether it was late. */
  lemma LateStays(s: Net, a: Action, h: nat)
    requires h in s.handlers && !(a == Register(h) && At(s, h, Admitted))
    ensures h in Next(s, a).handlers && Next(s, a).handlers[h].late == s.handlers[h].late
  {
    if !ActsFor(a, h) {
      OthersStay(s, a, h);
    }
  }

  /** The map changes only by a registration or by losing an entry. */
  lemma EntryFrom(s: Net, a: Action, sys: nat)
    requires sys in Next(s, a).agents
    ensures var h := Next(s, a).agents[sys];
            || (a == Register(h) && At(s, h, Admitted) && s.handlers[h].sys == sys)
            || (sys in s.agents && s.agents[sys] == h)
  {
  }

  lemma OnlyGrows(s: Net, a: Action)
    ensures var t := Next(s, a);
            s.used <= t.used && s.next <= t.next && s.closed <= t.closed && t.reuse == s.reuse
  {
  }

  /** A row that is new has the next number, and a new id unless ids are reused. */
  lemma RowFrom(s: Net, a: Action, sys: nat)
    requires sys in Next(s, a).rows
    ensures var t := Next(s, a);
            || (sys in s.rows && t.rows[sys] == s.rows[sys])
            || (t.rows[sys] == s.next < t.next && (s.reuse || sys !in s.used))
  {
  }

  lemma EntriesKept(s: Net, a: Action)
    requires EntriesOk(s)
    ensures EntriesOk(Next(s, a))
  {
    forall sys | sys in Next(s, a).agents
      ensures var h := Next(s, a).agents[sys];
              h in Next(s, a).handlers && Next(s, a).handlers[h].sys == sys && Next(s, a).handlers[h].phase != Admitted
    {
      EntryFrom(s, a, sys);
      HandlerMovesOn(s, a, Next(s, a).agents[sys]);
    }
  }

  lemma CurrentFrom(s: Net, a: Action, h: nat)
    requires h in s.handlers && !(a == Register(h) && At(s, h, Admitted)) && Current(Next(s, a), h)
    ensures Current(s, h)
  {
    HandlerMovesOn(s, a, h);
    EntryFrom(s, a, s.handlers[h].sys);
  }

  /** What was true of a handler stays true if neither it nor anything it depends on went back. */
  lemma HandlerFramed(s: Net, t: Net, h: nat)
    requires h in s.handlers && HandlerOk(s, h) && h in t.handlers && t.handlers[h] == s.handlers[h]
    requires s.used <= t.used && s.next <= t.next && s.closed <= t.closed && t.reuse == s.reuse
    requires Current(t, h) ==> Current(s, h)
    requires var sys := s.handlers[h].sys;
             sys in t.rows ==> || (sys in s.rows && t.rows[sys] == s.rows[sys])
                               || (t.rows[sys] == s.next && (s.reuse || sys !in s.used))
    ensures HandlerOk(t, h)
  {
  }

  lemma RegisterKept(s: Net, h: nat)
    requires Inv(s) && At(s, h, Admitted)
    ensures HandlerOk(Next(s, Register(h)), h)
  {
    assert HandlerOk(s, h);
    if d :| DropDone(s, d, s.handlers[h].sys, s.handlers[h].inc) {
      assert DeleterOk(s, s.deleters[d]);
    }
  }

  lemma OwnStepKept(s: Net, a: Action, h: nat)
    requires Inv(s) && ActsFor(a, h) && h in Next(s, a).handlers
    ensures HandlerOk(Next(s, a), h)
  {
    if a == Register(h) && At(s, h, Admitted) {
      RegisterKept(s, h);
    } else if h in s.handlers {
      assert HandlerOk(s, h);
    }
  }

  lemma HandlersKept(s: Net, a: Action, h: nat)
    requires Inv(s) && h in Next(s, a).handlers
    ensures HandlerOk(Next(s, a), h)
  {
    if ActsFor(a, h) {
      OwnStepKept(s, a, h);
    } else {
      OthersStay(s, a, h);
      OthersKept(s, a, h);
    }
  }

  lemma OthersKept(s: Net, a: Action, h: nat)
    requires Inv(s) && !ActsFor(a, h) && h in s.handlers
    ensures h in Next(s, a).handlers && HandlerOk(Next(s, a), h)
  {
    OthersStay(s, a, h);
    OnlyGrows(s, a);
    if s.handlers[h].sys in Next(s, a).rows {
      RowFrom(s, a, s.handlers[h].sys);
    }
    if Current(Next(s, a), h) {
      CurrentFrom(s, a, h);
    }
    HandlerFramed(s, Next(s, a), h);
  }

  lemma RowsKept(s: Net, a: Action)
    requires Inv(s)
    ensures RowsOk(Next(s, a))
  {
    var t := Next(s, a);
    OnlyGrows(s, a);
    forall sys | sys in t.rows ensures t.rows[sys] < t.next {
      RowFrom(s, a, sys);
    }
    forall d | d in t.deleters ensures DeleterOk(t, t.deleters[d]) {
      DeleterKept(s, a, d);
    }
  }

  lemma DeleterKept(s: Net, a: Action, d: nat)
    requires RowsOk(s) && d in Next(s, a).deleters
    ensures DeleterOk(Next(s, a), Next(s, a).deleters[d])
  {
    assert d in s.deleters ==> DeleterOk(s, s.deleters[d]);
  }

  /** A deletion has dropped its entry if it had before, or if this is the step. */
  lemma DropFrom(s: Net, a: Action, d: nat, sys: nat, inc: nat)
    requires DropDone(Next(s, a), d, sys, inc)
    ensures DropDone(s, d, sys, inc) || (a == DropLink(d) && sys !in Next(s, a).agents)
  {
  }

  lemma RecheckFinds(s: Net, h: nat, d: nat)
    requires Inv(s) && At(s, h, Registered) && s.handlers[h].sys in s.rows
    ensures !DropDone(s, d, s.handlers[h].sys, s.rows[s.handlers[h].sys])
  {
    assert d in s.deleters ==> DeleterOk(s, s.deleters[d]);
  }

  lemma DropsKept(s: Net, a: Action)
    requires Inv(s)
    ensures DropsOk(Next(s, a))
  {
    forall h, d | Current(Next(s, a), h) && Next(s, a).handlers[h].verdict.Row?
      ensures !DropDone(Next(s, a), d, Next(s, a).handlers[h].sys, Next(s, a).handlers[h].verdict.inc)
    {
      DropKept(s, a, h, d);
    }
  }

  lemma RegisteredAsksLater(s: Net, h: nat)
    requires Inv(s) && At(s, h, Admitted)
    ensures !Next(s, Register(h)).handlers[h].verdict.Row?
  {
    assert HandlerOk(s, h);
  }

  lemma DropKept(s: Net, a: Action, h: nat, d: nat)
    requires Inv(s) && Current(Next(s, a), h) && Next(s, a).handlers[h].verdict.Row?
    ensures !DropDone(Next(s, a), d, Next(s, a).handlers[h].sys, Next(s, a).handlers[h].verdict.inc)
  {
    var t := Next(s, a);
    var c := t.handlers[h];
    EntryFrom(s, a, c.sys);
    if a == Register(h) && At(s, h, Admitted) {
      RegisteredAsksLater(s, h);
    } else {
      HandlerMovesOn(s, a, h);
      CurrentFrom(s, a, h);
      if DropDone(t, d, c.sys, c.verdict.inc) {
        DropFrom(s, a, d, c.sys, c.verdict.inc);
        if a == Recheck(h) && At(s, h, Registered) && c.sys in s.rows {
          RecheckFinds(s, h, d);
        }
      }
    }
  }

  lemma OnTimeKept(s: Net, a: Action, h: nat, d: nat)
    requires Inv(s) && Current(Next(s, a), h) && !Next(s, a).handlers[h].late
    ensures !DropDone(Next(s, a), d, Next(s, a).handlers[h].sys, Next(s, a).handlers[h].inc)
  {
    var t := Next(s, a);
    var c := t.handlers[h];
    EntryFrom(s, a, c.sys);
    HandlerMovesOn(s, a, h);
    if DropDone(t, d, c.sys, c.inc) {
      DropFrom(s, a, d, c.sys, c.inc);
      if !(a == Register(h) && At(s, h, Admitted)) {
        CurrentFrom(s, a, h);
        LateStays(s, a, h);
      }
    }
  }

  lemma ReplacerPays(s: Net, a: Action, g: nat, h: nat)
    requires At(s, g, Replacing(Some(h)))
    ensures At(Next(s, a), g, Replacing(Some(h))) || h in Next(s, a).closed
  {
    if !ActsFor(a, g) {
      OthersStay(s, a, g);
    }
  }

  lemma DeleterPays(s: Net, a: Action, d: nat, h: nat)
    requires DeleterAt(s, d, Dropping(Some(h)))
    ensures DeleterAt(Next(s, a), d, Dropping(Some(h))) || h in Next(s, a).closed
  {
  }

  lemma LeaverPays(s: Net, a: Action, h: nat)
    requires At(s, h, Dropped) || At(s, h, Unregistered)
    ensures At(Next(s, a), h, Dropped) || At(Next(s, a), h, Unregistered) || h in Next(s, a).closed
  {
    if !ActsFor(a, h) {
      OthersStay(s, a, h);
    }
  }

  lemma DebtKept(s: Net, a: Action, h: nat)
    requires h in s.handlers && Owed(s, h)
    ensures h in Next(s, a).closed || Owed(Next(s, a), h)
  {
    if g :| At(s, g, Replacing(Some(h))) {
      ReplacerPays(s, a, g, h);
    } else if d :| DeleterAt(s, d, Dropping(Some(h))) {
      DeleterPays(s, a, d, h);
    } else {
      LeaverPays(s, a, h);
    }
  }

  /**
   * A current link is displaced only by a newer registration of its system, a deletion of its
   * system, or its own handler, and whoever displaces it then owes its close. In particular a
   * displaced handler's unregister never removes a newer link.
   */
  lemma DisplacedByWhom(s: Net, a: Action, h: nat)
    requires Current(s, h) && !Current(Next(s, a), h)
    ensures || (a.Register? && a.h in s.handlers && s.handlers[a.h].sys == s.handlers[h].sys
                && At(Next(s, a), a.h, Replacing(Some(h))))
            || (a.DropLink? && DeleterAt(Next(s, a), a.d, Dropping(Some(h))))
            || ((a == DropOwn(h) || a == Unregister(h)) && Owed(Next(s, a), h))
  {
    var t := Next(s, a);
    match a
    case Register(g) => assert At(t, g, Replacing(Some(h)));
    case DropLink(d) => assert DeleterAt(t, d, Dropping(Some(h)));
    case DropOwn(g) => assert g == h && At(t, h, Dropped);
    case Unregister(g) => assert g == h && At(t, h, Unregistered);
    case _ =>
  }

  lemma WasRegistered(s: Net, a: Action, h: nat)
    requires a != Register(h) && h in Next(s, a).handlers && !At(Next(s, a), h, Admitted)
    ensures h in s.handlers && !At(s, h, Admitted)
  {
    if !ActsFor(a, h) {
      OthersStay(s, a, h);
    }
  }

  lemma LinksKept(s: Net, a: Action, h: nat)
    requires Inv(s) && h in Next(s, a).handlers && !At(Next(s, a), h, Admitted)
    ensures var t := Next(s, a); Current(t, h) || h in t.closed || Owed(t, h)
  {
    if a != Register(h) {
      WasRegistered(s, a, h);
      if Current(s, h) {
        if !Current(Next(s, a), h) {
          DisplacedByWhom(s, a, h);
        }
      } else if Owed(s, h) {
        DebtKept(s, a, h);
      }
    }
  }

  lemma NextKeeps(s: Net, a: Action)
    requires Inv(s)
    ensures Inv(Next(s, a))
  {
    EntriesKept(s, a);
    RowsKept(s, a);
    DropsKept(s, a);
    var t := Next(s, a);
    forall h, d | Current(t, h) && !t.handlers[h].late ensures !DropDone(t, d, t.handlers[h].sys, t.handlers[h].inc) {
      OnTimeKept(s, a, h, d);
    }
    forall h | h in t.handlers ensures HandlerOk(t, h) {
      HandlersKept(s, a, h);
    }
    forall h | h in t.handlers && !At(t, h, Admitted) ensures Current(t, h) || h in t.closed || Owed(t, h) {
      LinksKept(s, a, h);
    }
  }

  lemma {:induction false} ReachableInv(reuse: bool, actions: seq<Action>)
    ensures Inv(Run(Initial(reuse), actions)) && Run(Initial(reuse), actions).reuse == reuse
    decreases |actions|
  {
    if actions != [] {
      ReachableInv(reuse, actions[..|actions| - 1]);
      NextKeeps(Run(Initial(reuse), actions[..|actions| - 1]), actions[|actions| - 1]);
      OnlyGrows(Run(Initial(reuse), actions[..|actions| - 1]), actions[|actions| - 1]);
    }
  }

  // ---- Theorems over every interleaving, ids reused or not ----

  /**
   * Once a deletion of a row has dropped the map entry, every link that was accepted on that row
   * is out of the map, and closed or about to be. So is every link of a system whose deletion
   * has dropped the entry, accepted or not, whatever the store answered, unless it registered
   * only after that.
   */
  lemma DeletionSafe(reuse: bool, actions: seq<Action>, h: nat)
    requires h in Run(Initial(reuse), actions).handlers
    ensures var s := Run(Initial(reuse), actions);
            var c := s.handlers[h];
            || (c.verdict.Row? && Deleted(s, c.sys, c.verdict.inc))
            || (c.phase != Admitted && !c.late && Deleted(s, c.sys, c.inc))
            ==> !Current(s, h) && (h in s.closed || Owed(s, h))
  {
    ReachableInv(reuse, actions);
    var s := Run(Initial(reuse), actions);
    var c := s.handlers[h];
    assert HandlerOk(s, h);
    if c.verdict.Row? && Deleted(s, c.sys, c.verdict.inc) {
      var d :| DropDone(s, d, c.sys, c.verdict.inc);
    } else if c.phase != Admitted && !c.late && Deleted(s, c.sys, c.inc) {
      var d :| DropDone(s, d, c.sys, c.inc);
    }
  }

  /** The recheck lets the handler in although its own row is gone: another has its id, or no answer came. */
  predicate LetsIn(s: Net, a: Action, h: nat) {
    At(s, h, Registered) &&
    var c := s.handlers[h];
    a == RecheckFails(h) || (a == Recheck(h) && c.sys in s.rows && s.rows[c.sys] != c.inc)
  }

  ghost predicate WasLetIn(reuse: bool, actions: seq<Action>, h: nat) {
    actions != [] &&
    var init := actions[..|actions| - 1];
    WasLetIn(reuse, init, h) || LetsIn(Run(Initial(reuse), init), actions[|actions| - 1], h)
  }

  lemma {:induction false} LetInIsAccepted(reuse: bool, actions: seq<Action>, h: nat)
    requires WasLetIn(reuse, actions, h)
    ensures var s := Run(Initial(reuse), actions); h in s.handlers && IsAccepted(s.handlers[h])
    decreases |actions|
  {
    var init, a := actions[..|actions| - 1], actions[|actions| - 1];
    var s := Run(Initial(reuse), init);
    if WasLetIn(reuse, init, h) {
      LetInIsAccepted(reuse, init, h);
      ReachableInv(reuse, init);
      assert HandlerOk(s, h);
      StaysAccepted(s, a, h);
    }
  }

  lemma StaysAccepted(s: Net, a: Action, h: nat)
    requires h in s.handlers && HandlerOk(s, h) && IsAccepted(s.handlers[h])
    ensures h in Next(s, a).handlers && IsAccepted(Next(s, a).handlers[h])
  {
    if !ActsFor(a, h) {
      OthersStay(s, a, h);
    }
  }

  lemma {:induction false} AcceptedWasLetIn(reuse: bool, actions: seq<Action>, h: nat)
    requires var s := Run(Initial(reuse), actions); h in s.handlers && s.handlers[h].late && IsAccepted(s.handlers[h])
    ensures WasLetIn(reuse, actions, h)
    decreases |actions|
  {
    var init, a := actions[..|actions| - 1], actions[|actions| - 1];
    var s := Run(Initial(reuse), init);
    ReachableInv(reuse, init);
    if h in s.handlers {
      assert HandlerOk(s, h);
      HandlerMovesOn(s, a, h);
      if IsAccepted(s.handlers[h]) {
        LateStays(s, a, h);
        AcceptedWasLetIn(reuse, init, h);
      }
    }
    if !ActsFor(a, h) {
      OthersStay(s, a, h);
    }
  }

  /**
   * A handler that registers after its system's deletion has dropped the entry is accepted in a
   * run if and only if at some point of it, at its recheck, the id had the row of another
   * system, or the store could not answer.
   */
  lemma LateHandlersAcceptedExactly(reuse: bool, actions: seq<Action>, h: nat)
    requires var s := Run(Initial(reuse), actions); h in s.handlers && s.handlers[h].late
    ensures IsAccepted(Run(Initial(reuse), actions).handlers[h]) <==> WasLetIn(reuse, actions, h)
  {
    if WasLetIn(reuse, actions, h) {
      LetInIsAccepted(reuse, actions, h);
    } else if IsAccepted(Run(Initial(reuse), actions).handlers[h]) {
      AcceptedWasLetIn(reuse, actions, h);
    }
  }

  /** The recheck of such a handler: what it finds in the store decides. */
  lemma LateRecheck(reuse: bool, actions: seq<Action>, h: nat)
    requires var s := Run(Initial(reuse), actions); At(s, h, Registered) && s.handlers[h].late
    ensures var s := Run(Initial(reuse), actions);
            var t := Next(s, Recheck(h));
            if s.handlers[h].sys in s.rows then At(t, h, Accepted) && IsMistaken(t.handlers[h]) else At(t, h, Refusing)
  {
    ReachableInv(reuse, actions);
    assert HandlerOk(Run(Initial(reuse), actions), h);
  }

  /** No registered link is ever left open and forgotten, deleted system or not. */
  lemma NoLinkLeaks(reuse: bool, actions: seq<Action>)
    ensures NoLeak(Run(Initial(reuse), actions))
  {
    ReachableInv(reuse, actions);
  }

  // ---- Everyone gets to the end ----

  function HandlerRank(p: Phase): nat {
    match p
    case Admitted => 7
    case Replacing(_) => 6
    case Registered => 5
    case Refusing => 4
    case Accepted => 3
    case Dropped => 2
    case Unregistered => 1
    case Gone => 0
  }

  /** A handler's goroutine can always take its next step, which brings it nearer to its end. */
  lemma HandlerMoves(s: Net, h: nat) returns (a: Action)
    requires h in s.handlers && s.handlers[h].phase != Gone
    ensures ActsFor(a, h) && h in Next(s, a).handlers
    ensures HandlerRank(Next(s, a).handlers[h].phase) < HandlerRank(s.handlers[h].phase)
  {
    match s.handlers[h].phase
    case Admitted => a := Register(h);
    case Replacing(_) => a := CloseOld(h);
    case Registered => a := Recheck(h);
    case Refusing => a := DropOwn(h);
    case Accepted => a := Unregister(h);
    case Dropped => a := Unregister(h);
    case Unregistered => a := CloseSelf(h);
  }

  lemma {:induction false} RunFirst(s: Net, a: Action, xs: seq<Action>)
    ensures Run(s, [a] + xs) == Run(Next(s, a), xs)
    decreases |xs|
  {
    if xs == [] {
      RunOne(s, [], a);
      assert [] + [a] == [a] + xs;
    } else {
      RunFirst(s, a, xs[..|xs| - 1]);
      assert ([a] + xs)[..|xs|] == [a] + xs[..|xs| - 1];
    }
  }

  /** By its own steps alone it gets to the end, and its link is closed and out of the map then. */
  lemma {:induction false} HandlerEnds(s: Net, h: nat) returns (actions: seq<Action>)
    requires Inv(s) && h in s.handlers
    ensures forall i :: 0 <= i < |actions| ==> ActsFor(actions[i], h)
    ensures var r := Run(s, actions); At(r, h, Gone) && h in r.closed && !Current(r, h)
    decreases HandlerRank(s.handlers[h].phase)
  {
    if s.handlers[h].phase == Gone {
      actions := [];
      assert HandlerOk(s, h);
    } else {
      var a := HandlerMoves(s, h);
      NextKeeps(s, a);
      var rest := HandlerEnds(Next(s, a), h);
      RunFirst(s, a, rest);
      actions := [a] + rest;
    }
  }

  /** By its own steps alone a deletion gets to the end: the row and the entry are gone, the link is closed. */
  lemma DeletionEnds(s: Net, d: nat)
    requires DeleterAt(s, d, Found)
    ensures var r, sys := Next(Next(Next(s, DeleteRow(d)), DropLink(d)), CloseLink(d)), s.deleters[d].sys;
            && DeleterAt(r, d, Finished) && sys !in r.rows && sys !in r.agents
            && r.rows == s.rows - {sys} && r.agents == s.agents - {sys} && r.handlers == s.handlers
            && (sys in s.agents ==> s.agents[sys] in r.closed)
  {
  }

  // ---- Reused ids ----

  ghost predicate NoneMistaken(s: Net) {
    forall h :: h in s.handlers ==> !IsMistaken(s.handlers[h])
  }

  lemma RunOne(s: Net, xs: seq<Action>, a: Action)
    ensures Run(s, xs + [a]) == Next(Run(s, xs), a)
  {
    assert (xs + [a])[..|xs|] == xs;
  }

  /** A system is admitted and then deleted before its handler registers. */
  const BEFORE := [Enroll(1), Admit(0, 1), Lookup(0, 1), DeleteRow(0), DropLink(0)]

  lemma DeletedBeforeRegistering()
    ensures DeletedAt(Run(Initial(true), BEFORE))
  {
    var s0 := Initial(true);
    RunFour(s0, Enroll(1), Admit(0, 1), Lookup(0, 1), DeleteRow(0));
    assert BEFORE == [Enroll(1), Admit(0, 1), Lookup(0, 1), DeleteRow(0)] + [DropLink(0)];
    RunOne(s0, [Enroll(1), Admit(0, 1), Lookup(0, 1), DeleteRow(0)], DropLink(0));
    AdmittedAndLookedUp();
    DeletedThen(Next(Next(Next(s0, Enroll(1)), Admit(0, 1)), Lookup(0, 1)));
  }

  /** System 1 is deleted, and its handler 0 is admitted but not registered. */
  predicate DeletedAt(s: Net) {
    && s.reuse && 1 !in s.rows && s.agents == map[] && s.next == 1
    && At(s, 0, Admitted) && s.handlers[0].sys == 1 && s.handlers[0].inc == 0 && DropDone(s, 0, 1, 0)
  }

  lemma AdmittedAndLookedUp()
    ensures var s := Next(Next(Next(Initial(true), Enroll(1)), Admit(0, 1)), Lookup(0, 1));
            && s.reuse && s.rows == map[1 := 0] && s.agents == map[] && s.next == 1
            && At(s, 0, Admitted) && s.handlers[0].sys == 1 && s.handlers[0].inc == 0
            && DeleterAt(s, 0, Found) && s.deleters[0].sys == 1
  {
    var s1 := Next(Initial(true), Enroll(1));
    assert s1.rows == map[1 := 0] && s1.handlers == map[] && s1.deleters == map[];
  }

  lemma DeletedThen(s: Net)
    requires s.reuse && s.rows == map[1 := 0] && s.agents == map[] && s.next == 1
    requires At(s, 0, Admitted) && s.handlers[0].sys == 1 && s.handlers[0].inc == 0
    requires DeleterAt(s, 0, Found) && s.deleters[0].sys == 1
    ensures DeletedAt(Next(Next(s, DeleteRow(0)), DropLink(0)))
  {
    var s1 := Next(s, DeleteRow(0));
    assert 1 !in s1.rows && DeleterAt(s1, 0, RowGone) && s1.deleters[0].sys == 1 && s1.deleters[0].bound == 1;
    assert At(s1, 0, Admitted);
  }

  lemma RunFour(s: Net, a: Action, b: Action, c: Action, d: Action)
    ensures Run(s, [a, b, c, d]) == Next(Next(Next(Next(s, a), b), c), d)
  {
    RunOne(s, [], a);
    assert [] + [a] == [a] && [a] + [b] == [a, b] && [a, b] + [c] == [a, b, c] && [a, b, c] + [d] == [a, b, c, d];
    RunOne(s, [a], b);
    RunOne(s, [a, b], c);
    RunOne(s, [a, b, c], d);
  }

  /** Its id goes to a new system, and the handler is accepted, late, on that one's row. */
  lemma AcceptedAfterReuse(s: Net)
    requires DeletedAt(s)
    ensures var t := Next(Next(Next(Next(s, Enroll(1)), Register(0)), CloseOld(0)), Recheck(0));
            At(t, 0, Accepted) && t.handlers[0].late && IsMistaken(t.handlers[0]) && Current(t, 0)
  {
    var s1 := Next(s, Enroll(1));
    assert DropDone(s1, 0, 1, 0) && s1.rows[1] == 1;
    var s2 := Next(s1, Register(0));
    assert At(s2, 0, Replacing(None)) && s2.handlers[0].late;
    var s3 := Next(s2, CloseOld(0));
    assert At(s3, 0, Registered);
  }

  /**
   * A handler is never accepted for another system than the one that admitted it, in any
   * interleaving, if and only if the store never gives a deleted system's id to a new one. The
   * systems table declares its id INTEGER PRIMARY KEY without AUTOINCREMENT, and SQLite then
   * reuses the largest id once its row is gone.
   */
  lemma NeverMistakenIffIdsAreNotReused(reuse: bool)
    ensures (forall actions :: NoneMistaken(Run(Initial(reuse), actions))) <==> !reuse
  {
    if reuse {
      DeletedBeforeRegistering();
      AcceptedAfterReuse(Run(Initial(true), BEFORE));
      var s0, three := Initial(true), BEFORE + [Enroll(1)] + [Register(0)] + [CloseOld(0)];
      RunOne(s0, BEFORE, Enroll(1));
      RunOne(s0, BEFORE + [Enroll(1)], Register(0));
      RunOne(s0, BEFORE + [Enroll(1)] + [Register(0)], CloseOld(0));
      RunOne(s0, three, Recheck(0));
      assert !NoneMistaken(Run(Initial(reuse), three + [Recheck(0)]));
    } else {
      forall actions ensures NoneMistaken(Run(Initial(reuse), actions)) {
        ReachableInv(reuse, actions);
        var s := Run(Initial(reuse), actions);
        forall h | h in s.handlers ensures !IsMistaken(s.handlers[h]) {
          assert HandlerOk(s, h);
        }
      }
    }
  }

  /** Without reuse and with a store that answers, whoever registers after a deletion is refused. */
  lemma LateHandlersAreRefused(actions: seq<Action>, h: nat)
    requires var s := Run(Initial(false), actions); h in s.handlers && s.handlers[h].late
    requires RecheckFails(h) !in actions
    ensures !IsAccepted(Run(Initial(false), actions).handlers[h])
  {
    ReachableInv(false, actions);
    assert HandlerOk(Run(Initial(false), actions), h);
    AnswersOnly(false, actions, h);
  }

  lemma {:induction false} AnswersOnly(reuse: bool, actions: seq<Action>, h: nat)
    requires RecheckFails(h) !in actions
    ensures var s := Run(Initial(reuse), actions); h in s.handlers ==> !s.handlers[h].verdict.ReadError?
    decreases |actions|
  {
    if actions != [] {
      var s, a := Run(Initial(reuse), actions[..|actions| - 1]), actions[|actions| - 1];
      AnswersOnly(reuse, actions[..|actions| - 1], h);
      if h in s.handlers {
        HandlerMovesOn(s, a, h);
      }
      NoErrorFrom(s, a, h);
    }
  }

  lemma NoErrorFrom(s: Net, a: Action, h: nat)
    requires a != RecheckFails(h) && (h in s.handlers ==> !s.handlers[h].verdict.ReadError?)
    ensures h in Next(s, a).handlers ==> !Next(s, a).handlers[h].verdict.ReadError?
  {
    if !ActsFor(a, h) {
      OthersStay(s, a, h);
    }
  }

  // ---- The object ----

  /**
   * The hub's map of links with the ids in the store; a method is one step of a goroutine. Where
   * a goroutine is, and which row of an id it saw, is in the ghost field.
   */
  class Gateway {
    var rows: set<nat>
    var agents: map<nat, nat>
    var closed: set<nat>
    ghost var trace: seq<Action> // the steps so far
    ghost var net: Net

    ghost predicate Valid()
      reads this
    {
      rows == net.rows.Keys && agents == net.agents && closed == net.closed && net == Run(Initial(true), trace)
    }

    /** The handler serves the system and is at this point. */
    ghost predicate Serves(h: nat, sys: nat, p: Phase)
      reads this
    {
      At(net, h, p) && net.handlers[h].sys == sys
    }

    ghost predicate Deletes(d: nat, sys: nat, p: DeleterPhase)
      reads this
    {
      DeleterAt(net, d, p) && net.deleters[d].sys == sys
    }

    constructor ()
      ensures Valid() && trace == []
    {
      rows, agents, closed := {}, map[], {};
      trace, net := [], Initial(true);
    }

    /** A system is enrolled under an id the store chooses, one without a row. */
    method EnrollSystem(sys: nat)
      requires Valid() && sys !in rows
      modifies this`rows, this`trace, this`net
      ensures Valid() && trace == old(trace) + [Enroll(sys)] && rows == old(rows) + {sys}
    {
      ReachableInv(true, trace);
      RunOne(Initial(true), trace, Enroll(sys));
      rows := rows + {sys};
      trace, net := trace + [Enroll(sys)], Next(net, Enroll(sys));
    }

    /** admit: an agent of a system without a row is turned away. */
    method AdmitAgent(h: nat, sys: nat) returns (admitted: bool)
      requires Valid() && h !in net.handlers
      modifies this`trace, this`net
      ensures Valid() && trace == old(trace) + [Admit(h, sys)]
      ensures admitted == (sys in rows) && (if admitted then Serves(h, sys, Admitted) else net == old(net))
    {
      RunOne(Initial(true), trace, Admit(h, sys));
      admitted := sys in rows;
      trace, net := trace + [Admit(h, sys)], Next(net, Admit(h, sys));
    }

    /** register under the mutex: the new link takes the entry; the replaced one is returned. */
    method RegisterLink(h: nat, sys: nat) returns (prior: Option<nat>)
      requires Valid() && Serves(h, sys, Admitted)
      modifies this`agents, this`trace, this`net
      ensures Valid() && trace == old(trace) + [Register(h)] && Serves(h, sys, Replacing(prior))
      ensures prior == Get(old(agents), sys) && agents == old(agents)[sys := h]
    {
      RunOne(Initial(true), trace, Register(h));
      prior := if sys in agents then Some(agents[sys]) else None;
      agents := agents[sys := h];
      trace, net := trace + [Register(h)], Next(net, Register(h));
    }

    /** The rest of register: the replaced link is closed. */
    method CloseReplaced(h: nat, sys: nat, prior: Option<nat>)
      requires Valid() && Serves(h, sys, Replacing(prior))
      modifies this`closed, this`trace, this`net
      ensures Valid() && trace == old(trace) + [CloseOld(h)] && Serves(h, sys, Registered)
      ensures closed == CloseIf(old(closed), prior)
    {
      RunOne(Initial(true), trace, CloseOld(h));
      if prior.Some? {
        closed := closed + {prior.value};
      }
      trace, net := trace + [CloseOld(h)], Next(net, CloseOld(h));
    }

    /** The recheck after registering: only an answer that the row is missing refuses the agent. */
    method RecheckRow(h: nat, sys: nat, answers: bool) returns (accepted: bool)
      requires Valid() && Serves(h, sys, Registered)
      modifies this`trace, this`net
      ensures Valid() && trace == old(trace) + [if answers then Recheck(h) else RecheckFails(h)]
      ensures accepted == (answers ==> sys in rows) && Serves(h, sys, if accepted then Accepted else Refusing)
      ensures accepted == IsAccepted(net.handlers[h])
    {
      ghost var a := if answers then Recheck(h) else RecheckFails(h);
      RunOne(Initial(true), trace, a);
      accepted := !answers || sys in rows;
      trace, net := trace + [a], Next(net, a);
    }

    /** A refused handler takes its own entry back out. */
    method DropRefused(h: nat, sys: nat)
      requires Valid() && Serves(h, sys, Refusing)
      modifies this`agents, this`trace, this`net
      ensures Valid() && trace == old(trace) + [DropOwn(h)] && Serves(h, sys, Dropped)
      ensures agents == WithoutOwn(old(agents), sys, h)
    {
      RunOne(Initial(true), trace, DropOwn(h));
      if sys in agents && agents[sys] == h {
        agents := agents - {sys};
      }
      trace, net := trace + [DropOwn(h)], Next(net, DropOwn(h));
    }

    method UnregisterLink(h: nat, sys: nat) returns (current: bool)
      requires Valid() && (Serves(h, sys, Accepted) || Serves(h, sys, Dropped))
      modifies this`agents, this`trace, this`net
      ensures Valid() && trace == old(trace) + [Unregister(h)] && Serves(h, sys, Unregistered)
      ensures current == old(Current(net, h)) && agents == WithoutOwn(old(agents), sys, h)
    {
      RunOne(Initial(true), trace, Unregister(h));
      current := sys in agents && agents[sys] == h;
      if current {
        agents := agents - {sys};
      }
      trace, net := trace + [Unregister(h)], Next(net, Unregister(h));
    }

    /** The handler's last step: it closes its own link. */
    method CloseOwn(h: nat)
      requires Valid() && At(net, h, Unregistered)
      modifies this`closed, this`trace, this`net
      ensures Valid() && trace == old(trace) + [CloseSelf(h)] && At(net, h, Gone) && closed == old(closed) + {h}
    {
      RunOne(Initial(true), trace, CloseSelf(h));
      closed := closed + {h};
      trace, net := trace + [CloseSelf(h)], Next(net, CloseSelf(h));
    }

    /** deleteSystem looks the system up; a missing one ends it. */
    method LookUpSystem(d: nat, sys: nat) returns (found: bool)
      requires Valid() && d !in net.deleters
      modifies this`trace, this`net
      ensures Valid() && trace == old(trace) + [Lookup(d, sys)]
      ensures found == (sys in rows) && (if found then Deletes(d, sys, Found) else net == old(net))
    {
      RunOne(Initial(true), trace, Lookup(d, sys));
      found := sys in rows;
      trace, net := trace + [Lookup(d, sys)], Next(net, Lookup(d, sys));
    }

    /** deleteSystem's first change; a row already gone is no error. */
    method DeleteSystemRow(d: nat, sys: nat)
      requires Valid() && Deletes(d, sys, Found)
      modifies this`rows, this`trace, this`net
      ensures Valid() && trace == old(trace) + [DeleteRow(d)] && Deletes(d, sys, RowGone) && rows == old(rows) - {sys}
    {
      RunOne(Initial(true), trace, DeleteRow(d));
      rows := rows - {sys};
      trace, net := trace + [DeleteRow(d)], Next(net, DeleteRow(d));
    }

    /** deleteSystem's second change, under the mutex. */
    method DropSystemLink(d: nat, sys: nat) returns (link: Option<nat>)
      requires Valid() && Deletes(d, sys, RowGone)
      modifies this`agents, this`trace, this`net
      ensures Valid() && trace == old(trace) + [DropLink(d)] && Deletes(d, sys, Dropping(link))
      ensures link == Get(old(agents), sys) && agents == old(agents) - {sys}
    {
      RunOne(Initial(true), trace, DropLink(d));
      link := if sys in agents then Some(agents[sys]) else None;
      agents := agents - {sys};
      trace, net := trace + [DropLink(d)], Next(net, DropLink(d));
    }

    method CloseDropped(d: nat, sys: nat, link: Option<nat>)
      requires Valid() && Deletes(d, sys, Dropping(link))
      modifies this`closed, this`trace, this`net
      ensures Valid() && trace == old(trace) + [CloseLink(d)] && Deletes(d, sys, Finished)
      ensures closed == CloseIf(old(closed), link)
    {
      RunOne(Initial(true), trace, CloseLink(d));
      if link.Some? {
        closed := closed + {link.value};
      }
      trace, net := trace + [CloseLink(d)], Next(net, CloseLink(d));
    }

    /** The whole of deleteSystem when nothing comes between its steps. */
    method DeleteSystem(d: nat, sys: nat) returns (found: bool)
      requires Valid() && d !in net.deleters
      modifies this
      ensures Valid() && found == (sys in old(rows)) && rows == old(rows) - {sys}
      ensures found ==> agents == old(agents) - {sys} && closed == CloseIf(old(closed), Get(old(agents), sys))
      ensures !found ==> agents == old(agents) && closed == old(closed)
    {
      found := LookUpSystem(d, sys);
      if found {
        DeleteSystemRow(d, sys);
        var link := DropSystemLink(d, sys);
        CloseDropped(d, sys, link);
      }
    }

    /** From admission to the answer to the agent, when nothing comes between the steps. */
    method JoinAgent(h: nat, sys: nat, answers: bool) returns (accepted: bool)
      requires Valid() && Serves(h, sys, Admitted)
      modifies this
      ensures Valid() && rows == old(rows) && agents == old(agents)[sys := h]
      ensures closed == CloseIf(old(closed), Get(old(agents), sys))
      ensures accepted == (answers ==> sys in rows) && Serves(h, sys, if accepted then Accepted else Refusing)
    {
      var prior := RegisterLink(h, sys);
      CloseReplaced(h, sys, prior);
      accepted := RecheckRow(h, sys, answers);
    }

    /** The end of a handler, refused or not, when nothing comes between the steps. */
    method LeaveAgent(h: nat, sys: nat, accepted: bool)
      requires Valid() && Serves(h, sys, if accepted then Accepted else Refusing)
      modifies this
      ensures Valid() && At(net, h, Gone) && rows == old(rows)
      ensures agents == WithoutOwn(old(agents), sys, h) && closed == old(closed) + {h}
    {
      if !accepted {
        DropRefused(h, sys);
      }
      var current := UnregisterLink(h, sys);
      CloseOwn(h);
    }
  }
}
