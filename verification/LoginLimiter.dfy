/**
 * The login limiter. Records and attempts are reached through pointers in the source: an
 * attempt keeps its record even when the map no longer does. Here a pointer is a number, and
 * `recs` and `atts` are the memory behind it. Every operation is one section under the mutex.
 */
module LoginLimiter {
  import opened Wrappers

  const LOGIN_FAILURES: int := 5
  const LOGIN_LOCKOUT: int := 5 * 60 * 1_000_000_000 // nanoseconds
  const MAX_TRACKED_CLIENTS: nat := 10000

  /** What the limiter counts: an IPv4 address or the /64 of an IPv6 address, numbered. */
  type Client = nat

  /** key never changes; the source's record does not store it. */
  datatype Record = Record(key: Client, count: int, first: int)

  datatype Attempt = Attempt(key: Client, rec: nat, failed: bool, ended: bool)

  datatype Limiter = Limiter(fails: map<Client, nat>, recs: map<nat, Record>, atts: map<nat, Attempt>, next: nat)

  datatype Op =
    | Begin(key: Client, now: int, victim: Client) // victim: whom an eviction picks, should one be needed
    | Check(key: Client, now: int)
    | Fail(att: nat)
    | End(att: nat)

  const EMPTY := Limiter(map[], map[], map[], 0)

  predicate Expired(r: Record, now: int) {
    now - r.first > LOGIN_LOCKOUT
  }

  predicate Locked(r: Record) {
    r.count >= LOGIN_FAILURES
  }

  ghost predicate Pointed(fails: map<Client, nat>, recs: map<nat, Record>) {
    forall k :: k in fails ==> fails[k] in recs
  }

  /** The map without the record of key if that has expired. */
  ghost function WithoutExpired(fails: map<Client, nat>, recs: map<nat, Record>, key: Client, now: int)
    : (r: map<Client, nat>)
    requires Pointed(fails, recs)
    ensures Pointed(r, recs)
  {
    if key in fails && Expired(recs[fails[key]], now) then fails - {key} else fails
  }

  /** The part of the map that has not expired. */
  ghost function Unexpired(fails: map<Client, nat>, recs: map<nat, Record>, now: int): map<Client, nat>
    requires Pointed(fails, recs)
  {
    map k | k in fails && !Expired(recs[fails[k]], now) :: fails[k]
  }

  ghost predicate AllLocked(fails: map<Client, nat>, recs: map<nat, Record>)
    requires Pointed(fails, recs)
  {
    forall k :: k in fails ==> Locked(recs[fails[k]])
  }

  /** v is the oldest of those not locked out, or of all if everyone is. */
  ghost predicate IsVictim(fails: map<Client, nat>, recs: map<nat, Record>, v: Client)
    requires Pointed(fails, recs)
  {
    && v in fails
    && (AllLocked(fails, recs) || !Locked(recs[fails[v]]))
    && forall k :: k in fails && Locked(recs[fails[k]]) == Locked(recs[fails[v]]) ==>
         recs[fails[v]].first <= recs[fails[k]].first
  }

  /** Whether making room for a record at this time has to evict a record that has not expired. */
  ghost predicate MustEvict(fails: map<Client, nat>, recs: map<nat, Record>, now: int)
    requires Pointed(fails, recs)
  {
    |fails| >= MAX_TRACKED_CLIENTS && |Unexpired(fails, recs, now)| >= MAX_TRACKED_CLIENTS
  }

  ghost function MakeRoom(fails: map<Client, nat>, recs: map<nat, Record>, now: int, victim: Client): map<Client, nat>
    requires Pointed(fails, recs)
  {
    if |fails| < MAX_TRACKED_CLIENTS then fails
    else if MustEvict(fails, recs, now) then Unexpired(fails, recs, now) - {victim}
    else Unexpired(fails, recs, now)
  }

  /** A picked victim is one the search over the map, in some order, would pick. */
  ghost predicate Enabled(l: Limiter, op: Op)
    requires Pointed(l.fails, l.recs)
  {
    match op
    case Begin(key, now, victim) =>
      var fails := WithoutExpired(l.fails, l.recs, key, now);
      key in fails || !MustEvict(fails, l.recs, now) || IsVictim(Unexpired(fails, l.recs, now), l.recs, victim)
    case Check(_, _) => true
    case Fail(a) => a in l.atts && !l.atts[a].ended
    case End(a) => a in l.atts && !l.atts[a].ended
  }

  ghost function BeginAt(l: Limiter, rec: nat, key: Client): Limiter
    requires rec in l.recs
  {
    if Locked(l.recs[rec]) then l
    else Limiter(l.fails, l.recs[rec := l.recs[rec].(count := l.recs[rec].count + 1)],
                 l.atts[l.next := Attempt(key, rec, false, false)], l.next + 1)
  }

  /** A first attempt gets a new record, which counts it. */
  ghost function BeginNew(l: Limiter, room: map<Client, nat>, key: Client, now: int): Limiter {
    Limiter(room[key := l.next], l.recs[l.next := Record(key, 1, now)],
            l.atts[l.next + 1 := Attempt(key, l.next, false, false)], l.next + 2)
  }

  ghost function WithNew(l: Limiter, room: map<Client, nat>, key: Client, now: int): Limiter {
    Limiter(room[key := l.next], l.recs[l.next := Record(key, 0, now)], l.atts, l.next + 1)
  }

  lemma BeginNewIsBegin(l: Limiter, room: map<Client, nat>, key: Client, now: int)
    ensures BeginNew(l, room, key, now) == BeginAt(WithNew(l, room, key, now), l.next, key)
  {
    var one := Record(key, 1, now);
    assert l.recs[l.next := Record(key, 0, now)][l.next := one] == l.recs[l.next := one];
  }

  ghost function EndOf(l: Limiter, a: nat): Limiter
    requires a in l.atts && l.atts[a].rec in l.recs
  {
    var att := l.atts[a];
    var r := l.recs[att.rec];
    var l1 := l.(atts := l.atts[a := att.(ended := true)]);
    if att.failed then l1
    else l1.(recs := l.recs[att.rec := r.(count := r.count - 1)],
             fails := if r.count == 1 && Get(l.fails, att.key) == Some(att.rec) then l.fails - {att.key} else l.fails)
  }

  ghost function Next(l: Limiter, op: Op): Limiter {
    if !Pointed(l.fails, l.recs) || !Enabled(l, op) then l else
    match op
    case Begin(key, now, victim) =>
      var fails := WithoutExpired(l.fails, l.recs, key, now);
      if key in fails then BeginAt(l.(fails := fails), fails[key], key)
      else BeginNew(l, MakeRoom(fails, l.recs, now, victim), key, now)
    case Check(key, now) => l.(fails := WithoutExpired(l.fails, l.recs, key, now))
    case Fail(a) => l.(atts := l.atts[a := l.atts[a].(failed := true)])
    case End(a) => if l.atts[a].rec in l.recs then EndOf(l, a) else l
  }

  // ---- Invariant ----

  predicate Counts(a: Attempt, rec: nat) {
    a.rec == rec && (a.failed || !a.ended)
  }

  /** The attempts a record should count: those that failed or have not ended. */
  ghost function Holding(atts: map<nat, Attempt>, rec: nat): set<nat> {
    set a | a in atts && Counts(atts[a], rec)
  }

  /** Every record's count is the number of attempts it holds, and at most five. */
  ghost predicate Counted(recs: map<nat, Record>, atts: map<nat, Attempt>) {
    forall r :: CountRight(recs, atts, r)
  }

  ghost predicate CountRight(recs: map<nat, Record>, atts: map<nat, Attempt>, r: nat) {
    r in recs ==> recs[r].count == |Holding(atts, r)| <= LOGIN_FAILURES
  }

  /** Every attempt keeps a record of its client. */
  ghost predicate Linked(recs: map<nat, Record>, atts: map<nat, Attempt>) {
    forall a :: a in atts ==> atts[a].rec in recs && recs[atts[a].rec].key == atts[a].key
  }

  ghost predicate Below<T>(m: map<nat, T>, next: nat) {
    forall i :: i in m ==> i < next
  }

  ghost predicate Balanced(recs: map<nat, Record>, atts: map<nat, Attempt>, next: nat) {
    Counted(recs, atts) && Linked(recs, atts) && Below(recs, next) && Below(atts, next)
  }

  /** The map leads every key to a record of its own that counts something, and is bounded. */
  ghost predicate Tracked(fails: map<Client, nat>, recs: map<nat, Record>) {
    && (forall k :: k in fails ==> fails[k] in recs && recs[fails[k]].key == k && recs[fails[k]].count >= 1)
    && |fails| <= MAX_TRACKED_CLIENTS
  }

  ghost predicate Inv(l: Limiter) {
    Balanced(l.recs, l.atts, l.next) && Tracked(l.fails, l.recs)
  }

  // ---- Every operation keeps it ----

  ghost predicate PartOf(part: map<Client, nat>, whole: map<Client, nat>) {
    part.Keys <= whole.Keys && forall k :: k in part ==> part[k] == whole[k]
  }

  lemma FewerTracked(part: map<Client, nat>, whole: map<Client, nat>, recs: map<nat, Record>)
    requires Tracked(whole, recs) && PartOf(part, whole)
    ensures Tracked(part, recs)
  {
    SubsetSize(part.Keys, whole.Keys);
  }

  /** Room is made for one more. */
  lemma RoomMade(fails: map<Client, nat>, recs: map<nat, Record>, now: int, victim: Client)
    requires Tracked(fails, recs)
    requires MustEvict(fails, recs, now) ==> IsVictim(Unexpired(fails, recs, now), recs, victim)
    ensures var room := MakeRoom(fails, recs, now, victim); |room| < MAX_TRACKED_CLIENTS && PartOf(room, fails)
  {
    var live := Unexpired(fails, recs, now);
    SubsetSize(live.Keys, fails.Keys);
    if MustEvict(fails, recs, now) {
      assert (live - {victim}).Keys == live.Keys - {victim};
    }
  }

  /** Adding or changing one attempt changes what a record holds by that attempt only. */
  lemma HoldingAfter(atts: map<nat, Attempt>, a: nat, att: Attempt, r: nat)
    ensures Holding(atts[a := att], r) == if Counts(att, r) then Holding(atts, r) + {a} else Holding(atts, r) - {a}
    ensures |Holding(atts[a := att], r)| ==
            |Holding(atts, r)| - (if a in Holding(atts, r) then 1 else 0) + (if Counts(att, r) then 1 else 0)
  {
    var h := Holding(atts, r);
    assert Holding(atts[a := att], r) == if Counts(att, r) then h + {a} else h - {a};
    if a in h {
      assert h + {a} == h;
    } else {
      assert h - {a} == h;
    }
  }

  lemma ReserveCounted(recs: map<nat, Record>, atts: map<nat, Attempt>, next: nat, rec: nat, att: Attempt)
    requires Counted(recs, atts) && next !in atts && rec in recs && !Locked(recs[rec])
    requires att == Attempt(recs[rec].key, rec, false, false)
    ensures Counted(recs[rec := recs[rec].(count := recs[rec].count + 1)], atts[next := att])
  {
    var recs2, atts2 := recs[rec := recs[rec].(count := recs[rec].count + 1)], atts[next := att];
    forall r ensures CountRight(recs2, atts2, r) {
      assert CountRight(recs, atts, r);
      HoldingAfter(atts, next, att, r);
    }
  }

  /** Reserving adds a new attempt and counts it. */
  lemma ReserveKeeps(recs: map<nat, Record>, atts: map<nat, Attempt>, next: nat, rec: nat)
    requires Balanced(recs, atts, next) && rec in recs && !Locked(recs[rec])
    ensures Balanced(recs[rec := recs[rec].(count := recs[rec].count + 1)],
                     atts[next := Attempt(recs[rec].key, rec, false, false)], next + 1)
  {
    ReserveCounted(recs, atts, next, rec, Attempt(recs[rec].key, rec, false, false));
  }

  lemma NewRecordCounted(recs: map<nat, Record>, atts: map<nat, Attempt>, next: nat, key: Client, now: int)
    requires Balanced(recs, atts, next)
    ensures Counted(recs[next := Record(key, 1, now)], atts[next + 1 := Attempt(key, next, false, false)])
  {
    var att := Attempt(key, next, false, false);
    assert Holding(atts, next) == {};
    var recs2, atts2 := recs[next := Record(key, 1, now)], atts[next + 1 := att];
    forall r ensures CountRight(recs2, atts2, r) {
      assert CountRight(recs, atts, r);
      HoldingAfter(atts, next + 1, att, r);
    }
  }

  /** A new record holds nothing but the attempt it is made for. */
  lemma NewRecordKeeps(recs: map<nat, Record>, atts: map<nat, Attempt>, next: nat, key: Client, now: int)
    requires Balanced(recs, atts, next)
    ensures Balanced(recs[next := Record(key, 1, now)], atts[next + 1 := Attempt(key, next, false, false)], next + 2)
  {
    NewRecordCounted(recs, atts, next, key, now);
  }

  lemma BeginKnownKeeps(l: Limiter, key: Client)
    requires Inv(l) && key in l.fails
    ensures Inv(BeginAt(l, l.fails[key], key))
  {
    var rec := l.fails[key];
    if !Locked(l.recs[rec]) {
      ReserveKeeps(l.recs, l.atts, l.next, rec);
      TrackCounted(l.fails, l.recs, rec);
      assert l.recs[rec].key == key;
    }
  }

  lemma TrackCounted(fails: map<Client, nat>, recs: map<nat, Record>, rec: nat)
    requires Tracked(fails, recs) && rec in recs
    ensures Tracked(fails, recs[rec := recs[rec].(count := recs[rec].count + 1)])
  {
  }

  lemma TrackNew(room: map<Client, nat>, recs: map<nat, Record>, rec: nat, key: Client, now: int)
    requires Tracked(room, recs) && |room| < MAX_TRACKED_CLIENTS && rec !in recs
    ensures Tracked(room[key := rec], recs[rec := Record(key, 1, now)])
  {
    assert room[key := rec].Keys == room.Keys + {key};
  }

  lemma BeginNewKeeps(l: Limiter, room: map<Client, nat>, key: Client, now: int)
    requires Balanced(l.recs, l.atts, l.next) && Tracked(room, l.recs) && |room| < MAX_TRACKED_CLIENTS
    ensures Inv(BeginNew(l, room, key, now))
  {
    var t := BeginNew(l, room, key, now);
    assert Tracked(t.fails, t.recs) by {
      FreshRecord(l.recs, l.atts, l.next);
      TrackNew(room, l.recs, l.next, key, now);
    }
    assert Balanced(t.recs, t.atts, t.next) by {
      NewRecordKeeps(l.recs, l.atts, l.next, key, now);
    }
  }

  lemma FreshRecord(recs: map<nat, Record>, atts: map<nat, Attempt>, next: nat)
    requires Balanced(recs, atts, next)
    ensures next !in recs
  {
  }

  lemma BeginKeeps(l: Limiter, key: Client, now: int, victim: Client)
    requires Inv(l) && Enabled(l, Begin(key, now, victim))
    ensures Inv(Next(l, Begin(key, now, victim)))
  {
    var fails := WithoutExpired(l.fails, l.recs, key, now);
    FewerTracked(fails, l.fails, l.recs);
    if key in fails {
      BeginKnownKeeps(l.(fails := fails), key);
    } else {
      MakeRoomKeeps(fails, l.recs, now, victim);
      BeginNewKeeps(l, MakeRoom(fails, l.recs, now, victim), key, now);
    }
  }

  lemma MakeRoomKeeps(fails: map<Client, nat>, recs: map<nat, Record>, now: int, victim: Client)
    requires Tracked(fails, recs)
    requires MustEvict(fails, recs, now) ==> IsVictim(Unexpired(fails, recs, now), recs, victim)
    ensures var room := MakeRoom(fails, recs, now, victim); Tracked(room, recs) && |room| < MAX_TRACKED_CLIENTS
  {
    RoomMade(fails, recs, now, victim);
    FewerTracked(MakeRoom(fails, recs, now, victim), fails, recs);
  }

  lemma FailKeeps(l: Limiter, a: nat)
    requires Inv(l) && Enabled(l, Fail(a))
    ensures Inv(Next(l, Fail(a)))
  {
    var atts2 := l.atts[a := l.atts[a].(failed := true)];
    forall r ensures CountRight(l.recs, atts2, r) {
      assert CountRight(l.recs, l.atts, r);
      HoldingAfter(l.atts, a, l.atts[a].(failed := true), r);
    }
  }

  lemma GiveBackCounted(recs: map<nat, Record>, atts: map<nat, Attempt>, next: nat, a: nat)
    requires Balanced(recs, atts, next) && a in atts && !atts[a].ended && !atts[a].failed
    ensures var rec := atts[a].rec;
            Counted(recs[rec := recs[rec].(count := recs[rec].count - 1)], atts[a := atts[a].(ended := true)])
  {
    var att := atts[a].(ended := true);
    var recs2, atts2 := recs[att.rec := recs[att.rec].(count := recs[att.rec].count - 1)], atts[a := att];
    forall r ensures CountRight(recs2, atts2, r) {
      assert CountRight(recs, atts, r);
      HoldingAfter(atts, a, att, r);
    }
  }

  /** Ending an attempt that did not fail gives its reservation back. */
  lemma GiveBackKeeps(recs: map<nat, Record>, atts: map<nat, Attempt>, next: nat, a: nat)
    requires Balanced(recs, atts, next) && a in atts && !atts[a].ended && !atts[a].failed
    ensures var rec := atts[a].rec;
            Balanced(recs[rec := recs[rec].(count := recs[rec].count - 1)], atts[a := atts[a].(ended := true)], next)
  {
    GiveBackCounted(recs, atts, next, a);
  }

  lemma EndFailedKeeps(recs: map<nat, Record>, atts: map<nat, Attempt>, next: nat, a: nat)
    requires Balanced(recs, atts, next) && a in atts && !atts[a].ended && atts[a].failed
    ensures Balanced(recs, atts[a := atts[a].(ended := true)], next)
  {
    var atts2 := atts[a := atts[a].(ended := true)];
    forall r ensures CountRight(recs, atts2, r) {
      assert CountRight(recs, atts, r);
      HoldingAfter(atts, a, atts[a].(ended := true), r);
    }
  }

  lemma TrackedAfterEnd(l: Limiter, a: nat)
    requires Inv(l) && Enabled(l, End(a))
    ensures Tracked(EndOf(l, a).fails, EndOf(l, a).recs)
  {
    SubsetSize(EndOf(l, a).fails.Keys, l.fails.Keys);
  }

  lemma EndKeeps(l: Limiter, a: nat)
    requires Inv(l) && Enabled(l, End(a))
    ensures Inv(Next(l, End(a)))
  {
    TrackedAfterEnd(l, a);
    if l.atts[a].failed {
      EndFailedKeeps(l.recs, l.atts, l.next, a);
    } else {
      GiveBackKeeps(l.recs, l.atts, l.next, a);
    }
  }

  lemma NextKeeps(l: Limiter, op: Op)
    requires Inv(l)
    ensures Inv(Next(l, op))
  {
    if Enabled(l, op) {
      match op
      case Begin(key, now, victim) => BeginKeeps(l, key, now, victim);
      case Check(key, now) => FewerTracked(WithoutExpired(l.fails, l.recs, key, now), l.fails, l.recs);
      case Fail(a) => FailKeeps(l, a);
      case End(a) => EndKeeps(l, a);
    }
  }

  ghost function Run(l: Limiter, ops: seq<Op>): Limiter {
    if ops == [] then l else Next(Run(l, ops[..|ops| - 1]), ops[|ops| - 1])
  }

  lemma {:induction false} RunInv(l: Limiter, ops: seq<Op>)
    requires Inv(l)
    ensures Inv(Run(l, ops))
    decreases |ops|
  {
    if ops != [] {
      RunInv(l, ops[..|ops| - 1]);
      NextKeeps(Run(l, ops[..|ops| - 1]), ops[|ops| - 1]);
    }
  }

  // ---- Theorems over every interleaving ----

  /**
   * In every interleaving a record counts exactly its attempts that failed or have not ended,
   * a tracked record counts between one and five, and the map is bounded.
   */
  lemma Accounting(ops: seq<Op>)
    ensures var l := Run(EMPTY, ops);
            && (forall r :: r in l.recs ==>
                  l.recs[r].count ==
                    |set a | a in l.atts && l.atts[a].rec == r && (l.atts[a].failed || !l.atts[a].ended)|)
            && (forall k :: k in l.fails ==> l.fails[k] in l.recs && 1 <= l.recs[l.fails[k]].count <= 5)
            && |l.fails| <= 10000
  {
    assert forall r :: CountRight(EMPTY.recs, EMPTY.atts, r);
    RunInv(EMPTY, ops);
    var l := Run(EMPTY, ops);
    forall k | k in l.fails ensures l.recs[l.fails[k]].count <= LOGIN_FAILURES {
      assert CountRight(l.recs, l.atts, l.fails[k]);
    }
    forall r | r in l.recs
      ensures l.recs[r].count == |set a | a in l.atts && l.atts[a].rec == r && (l.atts[a].failed || !l.atts[a].ended)|
    {
      assert CountRight(l.recs, l.atts, r);
      assert Holding(l.atts, r) == set a | a in l.atts && l.atts[a].rec == r && (l.atts[a].failed || !l.atts[a].ended);
    }
  }

  /** A record is out of date five minutes after its first attempt. */
  predicate IsRecent(r: Record, now: int) {
    now - r.first <= 5 * 60 * 1_000_000_000
  }

  /** The clients whose records are not out of date. */
  ghost function RecentClients(l: Limiter, now: int): set<Client>
    requires Pointed(l.fails, l.recs)
  {
    set k | k in l.fails && IsRecent(l.recs[l.fails[k]], now)
  }

  /** The oldest of the clients who still have attempts left, or of all if nobody has. */
  ghost predicate IsOldest(l: Limiter, clients: set<Client>, v: Client)
    requires Pointed(l.fails, l.recs) && clients <= l.fails.Keys
  {
    v in clients &&
    forall k :: k in clients ==>
      var r, w := l.recs[l.fails[v]], l.recs[l.fails[k]];
      if r.count < 5 then w.count < 5 ==> r.first <= w.first else w.count >= 5 && r.first <= w.first
  }

  /**
   * A first attempt makes room by dropping records that are out of date and, only if 10000
   * others are not, one more: the oldest of the clients who still have attempts left. Everyone
   * else keeps their record.
   */
  lemma BeginDropsOnly(l: Limiter, key: Client, now: int, victim: Client, k: Client)
    requires Inv(l) && Enabled(l, Begin(key, now, victim)) && k in l.fails && k != key
    ensures var t, recent := Next(l, Begin(key, now, victim)), RecentClients(l, now);
            && (k in t.fails ==> t.fails[k] == l.fails[k] && t.recs[t.fails[k]] == l.recs[l.fails[k]])
            && (key in recent || |l.fails| < 10000 ==> k in t.fails)
            && (k in recent && k !in t.fails ==>
                  key !in recent && |recent| >= 10000 && k == victim && IsOldest(l, recent, k))
  {
    var fails := WithoutExpired(l.fails, l.recs, key, now);
    if key !in fails {
      var live := Unexpired(fails, l.recs, now);
      assert live.Keys == RecentClients(l, now);
      SubsetSize(fails.Keys, l.fails.Keys);
    }
    assert l.next !in l.recs;
  }

  /** There is always a record that can go, so a client who may try is never kept waiting. */
  lemma CanBegin(l: Limiter, key: Client, now: int) returns (victim: Client)
    requires Inv(l)
    ensures Enabled(l, Begin(key, now, victim))
  {
    victim := 0;
    var fails := WithoutExpired(l.fails, l.recs, key, now);
    var live := Unexpired(fails, l.recs, now);
    if key !in fails && MustEvict(fails, l.recs, now) {
      victim := PickVictim(live, l.recs);
    }
  }

  lemma {:induction false} PickVictim(fails: map<Client, nat>, recs: map<nat, Record>) returns (v: Client)
    requires Pointed(fails, recs) && |fails| > 0
    ensures IsVictim(fails, recs, v)
    decreases |fails|
  {
    var k: Client :| k in fails;
    var rest := fails - {k};
    assert rest[k := fails[k]] == fails && rest.Keys == fails.Keys - {k};
    if |rest| == 0 {
      v := k;
      assert fails.Keys == {k};
    } else {
      v := PickVictim(rest, recs);
      VictimStep(rest, recs, v, k, fails[k]);
      v := if Better(recs[fails[k]], recs[rest[v]]) then k else v;
    }
  }

  /** An attempt of a client with a recent record is counted on it, unless five are counted already. */
  lemma BeginCounts(l: Limiter, key: Client, now: int, victim: Client)
    requires Inv(l) && key in l.fails && IsRecent(l.recs[l.fails[key]], now)
    ensures var t, rec := Next(l, Begin(key, now, victim)), l.fails[key];
            var r := l.recs[rec];
            if r.count >= 5 then t == l
            else
              && t.fails == l.fails && t.recs == l.recs[rec := r.(count := r.count + 1)]
              && l.next !in l.atts && t.atts == l.atts[l.next := Attempt(key, rec, false, false)]
  {
  }

  /** Anyone else's is counted on a new record that begins with it. */
  lemma BeginStartsAnew(l: Limiter, key: Client, now: int, victim: Client)
    requires Inv(l) && Enabled(l, Begin(key, now, victim))
    requires key !in l.fails || !IsRecent(l.recs[l.fails[key]], now)
    ensures var t := Next(l, Begin(key, now, victim));
            && key in t.fails && t.fails[key] !in l.recs && t.recs == l.recs[t.fails[key] := Record(key, 1, now)]
            && l.next + 1 !in l.atts && t.atts == l.atts[l.next + 1 := Attempt(key, t.fails[key], false, false)]
  {
    assert l.next !in l.recs;
  }

  /** Looking at a client's record drops it if it is out of date, and changes nothing else. */
  lemma CheckDropsOnly(l: Limiter, key: Client, now: int)
    requires Inv(l)
    ensures var t := Next(l, Check(key, now));
            && t.recs == l.recs && t.atts == l.atts
            && forall k :: k in t.fails <==> k in l.fails && (k != key || IsRecent(l.recs[l.fails[k]], now))
  {
  }

  /** A failure stays: the attempt counts on its record for good, whatever happens next. */
  lemma {:induction false} FailureStays(l: Limiter, ops: seq<Op>, a: nat)
    requires Inv(l) && a in l.atts && !l.atts[a].ended
    ensures var r := Run(Next(l, Fail(a)), ops);
            a in r.atts && r.atts[a].failed && r.atts[a].rec == l.atts[a].rec && a in FailedOn(r, l.atts[a].rec)
    decreases |ops|
  {
    NextKeeps(l, Fail(a));
    if ops != [] {
      var init := ops[..|ops| - 1];
      FailureStays(l, init, a);
      RunInv(Next(l, Fail(a)), init);
      AttemptStays(Run(Next(l, Fail(a)), init), ops[|ops| - 1], a);
    }
  }

  lemma AttemptStays(l: Limiter, op: Op, a: nat)
    requires Inv(l) && a in l.atts && l.atts[a].failed
    ensures var t := Next(l, op); a in t.atts && t.atts[a].failed && t.atts[a].rec == l.atts[a].rec
  {
  }

  /** Ending an attempt that did not fail gives back exactly its own reservation. */
  lemma EndGivesBackItsOwn(l: Limiter, a: nat)
    requires Inv(l) && a in l.atts && !l.atts[a].ended
    ensures var t, att := Next(l, End(a)), l.atts[a];
            && t.recs.Keys == l.recs.Keys
            && forall r :: r in l.recs ==>
                 t.recs[r] ==
                   if r == att.rec && !att.failed then l.recs[r].(count := l.recs[r].count - 1) else l.recs[r]
  {
    assert Next(l, End(a)) == EndOf(l, a);
  }

  /**
   * If the attempt's record has been replaced in the map, the map stays as it is; otherwise the
   * client stays tracked exactly while something is still counted.
   */
  lemma EndLeavesOthers(l: Limiter, a: nat)
    requires Inv(l) && a in l.atts && !l.atts[a].ended
    ensures var t, att := Next(l, End(a)), l.atts[a];
            && (forall k :: k != att.key ==> Get(t.fails, k) == Get(l.fails, k))
            && (Get(l.fails, att.key) != Some(att.rec) ==> t.fails == l.fails)
            && (Get(l.fails, att.key) == Some(att.rec) ==> (att.key in t.fails <==> t.recs[att.rec].count > 0))
  {
    assert Next(l, End(a)) == EndOf(l, a);
  }

  /** Five attempts on the record have failed. */
  ghost predicate FiveFailures(l: Limiter, rec: nat) {
    |FailedOn(l, rec)| >= 5
  }

  ghost function FailedOn(l: Limiter, rec: nat): set<nat> {
    set a | a in l.atts && l.atts[a].rec == rec && l.atts[a].failed
  }

  /** Five failures fill the record: nothing else is counted on it any more. */
  lemma FiveFailuresLock(l: Limiter, rec: nat)
    requires Inv(l) && rec in l.recs && FiveFailures(l, rec)
    ensures Locked(l.recs[rec]) && l.recs[rec].count == 5 && Holding(l.atts, rec) == FailedOn(l, rec)
  {
    assert CountRight(l.recs, l.atts, rec);
    var failed, holding := FailedOn(l, rec), Holding(l.atts, rec);
    assert failed <= holding;
    SubsetSize(failed, holding);
    if failed != holding {
      SubsetSize(failed, holding - {PickOutside(failed, holding)});
    }
  }

  ghost function PickOutside(a: set<nat>, b: set<nat>): (x: nat)
    requires a <= b && a != b
    ensures x in b && x !in a
  {
    var x :| x in b && x !in a; x
  }

  /** The operation's clock reading, if it has one, is within the record's lockout. */
  predicate Within(op: Op, r: Record) {
    (op.Begin? || op.Check?) ==> IsRecent(r, op.now)
  }

  /** The operation evicts although every unexpired record is locked out. */
  ghost predicate EvictsLocked(l: Limiter, op: Op) {
    Pointed(l.fails, l.recs) && op.Begin? &&
    var fails := WithoutExpired(l.fails, l.recs, op.key, op.now);
    op.key !in fails && MustEvict(fails, l.recs, op.now) && AllLocked(Unexpired(fails, l.recs, op.now), l.recs)
  }

  /** Making room spares a locked-out record while someone else can go. */
  lemma RoomSpares(fails: map<Client, nat>, recs: map<nat, Record>, now: int, victim: Client, k: Client)
    requires Pointed(fails, recs) && k in fails && Locked(recs[fails[k]]) && !Expired(recs[fails[k]], now)
    requires MustEvict(fails, recs, now) ==>
               IsVictim(Unexpired(fails, recs, now), recs, victim) && !AllLocked(Unexpired(fails, recs, now), recs)
    ensures Get(MakeRoom(fails, recs, now, victim), k) == Some(fails[k])
  {
    assert k in Unexpired(fails, recs, now);
  }

  /** The record is still there, with its start and its failures. */
  ghost predicate Spared(l: Limiter, t: Limiter, k: Client, rec: nat) {
    && Get(t.fails, k) == Some(rec) && rec in l.recs && rec in t.recs && t.recs[rec].first == l.recs[rec].first
    && FailedOn(l, rec) <= FailedOn(t, rec)
  }

  lemma BeginSpares(l: Limiter, op: Op, k: Client, rec: nat)
    requires Pointed(l.fails, l.recs) && Below(l.recs, l.next) && Below(l.atts, l.next)
    requires Get(l.fails, k) == Some(rec) && Locked(l.recs[rec])
    requires op.Begin? && op.key != k && !Expired(l.recs[rec], op.now) && !EvictsLocked(l, op)
    ensures Spared(l, Next(l, op), k, rec)
  {
    if Enabled(l, op) {
      var fails := WithoutExpired(l.fails, l.recs, op.key, op.now);
      if op.key !in fails {
        RoomSpares(fails, l.recs, op.now, op.victim, k);
      }
    }
  }

  /** While the record is there, its client is refused. */
  lemma BeginRefused(l: Limiter, k: Client, rec: nat, now: int, victim: Client)
    requires Pointed(l.fails, l.recs) && Get(l.fails, k) == Some(rec)
    requires Locked(l.recs[rec]) && !Expired(l.recs[rec], now)
    ensures Next(l, Begin(k, now, victim)) == l
  {
  }

  lemma EndSpares(l: Limiter, a: nat, k: Client, rec: nat)
    requires Pointed(l.fails, l.recs) && Linked(l.recs, l.atts)
    requires Get(l.fails, k) == Some(rec) && a in l.atts && (l.atts[a].rec != rec || l.atts[a].failed)
    ensures Spared(l, Next(l, End(a)), k, rec)
  {
  }

  lemma SurvivesOne(l: Limiter, op: Op, k: Client, rec: nat)
    requires Inv(l) && Get(l.fails, k) == Some(rec) && FiveFailures(l, rec)
    requires Within(op, l.recs[rec]) && !EvictsLocked(l, op)
    ensures Spared(l, Next(l, op), k, rec)
  {
    FiveFailuresLock(l, rec);
    match op
    case Begin(key, now, victim) =>
      if key == k {
        BeginRefused(l, k, rec, now, victim);
      } else {
        BeginSpares(l, op, k, rec);
      }
    case Check(_, _) =>
    case Fail(_) =>
    case End(a) =>
      if Enabled(l, op) {
        assert Counts(l.atts[a], l.atts[a].rec);
        assert a in Holding(l.atts, l.atts[a].rec);
        EndSpares(l, a, k, rec);
      }
  }

  ghost predicate Calm(l: Limiter, ops: seq<Op>, r: Record) {
    forall i :: 0 <= i < |ops| ==> Within(ops[i], r) && !EvictsLocked(Run(l, ops[..i]), ops[i])
  }

  /**
   * A record with five failures survives until its lockout passes, unless every unexpired
   * record was locked out at an eviction.
   */
  lemma {:induction false} LockedOutSurvives(l: Limiter, ops: seq<Op>, k: Client, rec: nat)
    requires Inv(l) && Get(l.fails, k) == Some(rec) && FiveFailures(l, rec) && Calm(l, ops, l.recs[rec])
    ensures Spared(l, Run(l, ops), k, rec)
    decreases |ops|
  {
    if ops != [] {
      var init, op := ops[..|ops| - 1], ops[|ops| - 1];
      CalmBefore(l, ops, l.recs[rec]);
      LockedOutSurvives(l, init, k, rec);
      RunInv(l, init);
      SubsetSize(FailedOn(l, rec), FailedOn(Run(l, init), rec));
      SurvivesOne(Run(l, init), op, k, rec);
    }
  }

  lemma CalmBefore(l: Limiter, ops: seq<Op>, r: Record)
    requires Calm(l, ops, r) && ops != []
    ensures Calm(l, ops[..|ops| - 1], r)
    ensures Within(ops[|ops| - 1], r) && !EvictsLocked(Run(l, ops[..|ops| - 1]), ops[|ops| - 1])
  {
    var init := ops[..|ops| - 1];
    forall i | 0 <= i < |init| ensures Within(init[i], r) && !EvictsLocked(Run(l, init[..i]), init[i]) {
      assert init[..i] == ops[..i];
    }
  }

  /** Until then its client cannot begin an attempt. */
  lemma LockedOutIsRefused(l: Limiter, ops: seq<Op>, k: Client, rec: nat, now: int, victim: Client)
    requires Inv(l) && Get(l.fails, k) == Some(rec) && FiveFailures(l, rec) && Calm(l, ops, l.recs[rec])
    requires IsRecent(l.recs[rec], now)
    ensures Next(Run(l, ops), Begin(k, now, victim)) == Run(l, ops)
  {
    LockedOutSurvives(l, ops, k, rec);
    RunInv(l, ops);
    SubsetSize(FailedOn(l, rec), FailedOn(Run(l, ops), rec));
    FiveFailuresLock(Run(l, ops), rec);
    BeginRefused(Run(l, ops), k, rec, now, victim);
  }

  // ---- The object ----

  /** Whether a record replaces the victim found so far. */
  predicate Better(rec: Record, victim: Record) {
    var locked, victimLocked := rec.count >= LOGIN_FAILURES, victim.count >= LOGIN_FAILURES;
    (victimLocked && !locked) || (locked == victimLocked && rec.first < victim.first)
  }

  /** One more record is looked at: the better of it and the best so far is the best so far. */
  lemma VictimStep(seen: map<Client, nat>, recs: map<nat, Record>, v: Client, k: Client, r: nat)
    requires r in recs && Pointed(seen, recs) && k !in seen && IsVictim(seen, recs, v)
    ensures IsVictim(seen[k := r], recs, if Better(recs[r], recs[seen[v]]) then k else v)
  {
  }

  class Guard {
    var fails: map<Client, nat>
    var recs: map<nat, Record>
    var atts: map<nat, Attempt>
    var next: nat

    ghost function View(): Limiter
      reads this
    {
      Limiter(fails, recs, atts, next)
    }

    constructor ()
      ensures View() == EMPTY
    {
      fails, recs, atts, next := map[], map[], map[], 0;
    }

    /** Drops the expired records and finds the victim, in one pass over the map in any order. */
    method FindVictim(now: int) returns (victim: Option<Client>)
      requires Tracked(fails, recs)
      modifies this`fails
      ensures fails == Unexpired(old(fails), recs, now)
      ensures if victim.None? then fails == map[] else IsVictim(fails, recs, victim.value)
    {
      victim := None;
      var todo := fails.Keys;
      ghost var seen: map<Client, nat> := map[];
      while todo != {}
        invariant todo <= old(fails).Keys
        invariant fails == map k | k in old(fails) && (k in todo || !Expired(recs[old(fails)[k]], now)) :: old(fails)[k]
        invariant seen == map k | k in old(fails) && k !in todo && !Expired(recs[old(fails)[k]], now) :: old(fails)[k]
        invariant if victim.None? then seen == map[] else IsVictim(seen, recs, victim.value)
        decreases todo
      {
        var k :| k in todo;
        todo := todo - {k};
        var rec := recs[fails[k]];
        if now - rec.first > LOGIN_LOCKOUT {
          fails := fails - {k};
        } else {
          if victim.Some? {
            VictimStep(seen, recs, victim.value, k, fails[k]);
          }
          seen := seen[k := fails[k]];
          if victim.None? || Better(rec, recs[fails[victim.value]]) {
            victim := Some(k);
          }
        }
      }
      assert fails == seen;
    }

    /** Leaves the map with space for one more entry. */
    method EvictLocked(now: int) returns (ghost picked: Client)
      requires Tracked(fails, recs) && |fails| >= MAX_TRACKED_CLIENTS
      modifies this`fails
      ensures MustEvict(old(fails), recs, now) ==> IsVictim(Unexpired(old(fails), recs, now), recs, picked)
      ensures fails == MakeRoom(old(fails), recs, now, picked)
      ensures |fails| < 10000 && forall k :: k in fails ==> k in old(fails) && fails[k] == old(fails)[k]
      ensures forall k :: k in old(fails) && IsRecent(recs[old(fails)[k]], now) ==> k in fails || k == picked
    {
      var victim := FindVictim(now);
      picked := if victim.Some? then victim.value else 0;
      if |fails| >= MAX_TRACKED_CLIENTS {
        fails := fails - {victim.value};
      }
      RoomMade(old(fails), recs, now, picked);
    }

    method DropExpired(key: Client, now: int)
      requires Pointed(fails, recs)
      modifies this`fails
      ensures fails == WithoutExpired(old(fails), recs, key, now)
    {
      if key in fails && now - recs[fails[key]].first > LOGIN_LOCKOUT {
        fails := fails - {key};
      }
    }

    /** The record of a client, dropping an expired one and creating one if asked to. */
    method RecordLocked(key: Client, now: int, create: bool) returns (rec: Option<nat>, ghost picked: Client)
      requires Tracked(fails, recs)
      modifies this`fails, this`recs, this`next
      ensures var kept := WithoutExpired(old(fails), old(recs), key, now);
              if key in kept || !create then
                fails == kept && recs == old(recs) && next == old(next) && rec == Get(kept, key)
              else
                && (MustEvict(kept, old(recs), now) ==> IsVictim(Unexpired(kept, old(recs), now), old(recs), picked))
                && fails == MakeRoom(kept, old(recs), now, picked)[key := old(next)]
                && recs == old(recs)[old(next) := Record(key, 0, now)]
                && next == old(next) + 1 && rec == Some(old(next))
    {
      picked := 0;
      FewerTracked(WithoutExpired(fails, recs, key, now), fails, recs);
      DropExpired(key, now);
      rec := if key in fails then Some(fails[key]) else None;
      if rec.None? && create {
        if |fails| >= MAX_TRACKED_CLIENTS {
          picked := EvictLocked(now);
        }
        rec := Some(next);
        recs := recs[next := Record(key, 0, now)];
        fails := fails[key := next];
        next := next + 1;
      }
    }

    /** Performs the step Begin; no attempt is returned to a client whose record is full. */
    method BeginAttempt(key: Client, now: int) returns (att: Option<nat>, ghost op: Op)
      requires Inv(View())
      modifies this
      ensures op.Begin? && op == Begin(key, now, op.victim) && Enabled(old(View()), op)
      ensures View() == Next(old(View()), op) && Inv(View())
      ensures key in fails && fails[key] in recs
      ensures if att.None? then Locked(recs[fails[key]]) && atts == old(atts)
              else att.value !in old(atts) && atts == old(atts)[att.value := Attempt(key, fails[key], false, false)]
    {
      att, op := BeginLocked(key, now);
      NextKeeps(old(View()), op);
    }

    method BeginLocked(key: Client, now: int) returns (att: Option<nat>, ghost op: Op)
      requires Tracked(fails, recs) && Below(recs, next) && Below(atts, next)
      modifies this
      ensures op.Begin? && op == Begin(key, now, op.victim) && Enabled(old(View()), op)
      ensures View() == Next(old(View()), op)
      ensures key in fails && fails[key] in recs
      ensures if att.None? then Locked(recs[fails[key]]) && atts == old(atts)
              else att.value !in old(atts) && atts == old(atts)[att.value := Attempt(key, fails[key], false, false)]
    {
      ghost var l, kept := View(), WithoutExpired(fails, recs, key, now);
      var rec, picked := RecordLocked(key, now, true);
      op := Begin(key, now, picked);
      ghost var l1 := View();
      att := Reserve(rec.value, key);
      if key !in kept {
        BeginNewIsBegin(l, MakeRoom(kept, l.recs, now, picked), key, now);
        assert l1 == WithNew(l, MakeRoom(kept, l.recs, now, picked), key, now);
      } else {
        assert l1 == l.(fails := kept);
      }
    }

    method Reserve(rec: nat, key: Client) returns (att: Option<nat>)
      requires rec in recs
      modifies this`recs, this`atts, this`next
      ensures View() == BeginAt(old(View()), rec, key)
      ensures att == if Locked(old(recs)[rec]) then None else Some(old(next))
    {
      att := None;
      if recs[rec].count < LOGIN_FAILURES {
        recs := recs[rec := recs[rec].(count := recs[rec].count + 1)];
        atts := atts[next := Attempt(key, rec, false, false)];
        att := Some(next);
        next := next + 1;
      }
    }

    /** Looks at the record of a client and counts nothing. */
    method IsLocked(key: Client, now: int) returns (locked: bool)
      requires Inv(View())
      modifies this
      ensures View() == Next(old(View()), Check(key, now)) && Inv(View())
      ensures locked <==> key in fails && fails[key] in recs && Locked(recs[fails[key]])
    {
      var rec, picked := RecordLocked(key, now, false);
      locked := rec.Some? && recs[rec.value].count >= LOGIN_FAILURES;
      NextKeeps(old(View()), Check(key, now));
    }

    method FailAttempt(a: nat)
      requires Inv(View()) && a in atts && !atts[a].ended
      modifies this`atts
      ensures View() == Next(old(View()), Fail(a)) && Inv(View())
    {
      NextKeeps(View(), Fail(a));
      atts := atts[a := atts[a].(failed := true)];
    }

    /** Performs the step End. */
    method EndAttempt(a: nat)
      requires Inv(View()) && a in atts && !atts[a].ended
      modifies this
      ensures View() == Next(old(View()), End(a)) && Inv(View())
    {
      NextKeeps(View(), End(a));
      EndLocked(a);
    }

    method EndLocked(a: nat)
      requires a in atts && atts[a].rec in recs
      modifies this
      ensures View() == EndOf(old(View()), a)
    {
      var att := atts[a];
      atts := atts[a := att.(ended := true)];
      if att.failed {
        return;
      }
      recs := recs[att.rec := recs[att.rec].(count := recs[att.rec].count - 1)];
      if recs[att.rec].count == 0 && att.key in fails && fails[att.key] == att.rec {
        fails := fails - {att.key};
      }
    }
  }
}
