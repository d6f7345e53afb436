/**
 * The order of a table that refreshes by itself. Between two sorts it is held: a refresh does
 * not move the rows that were there before, and what is new comes after them.
 */
module RowOrder {
  import opened Wrappers

  /** A JavaScript number used as an epoch: NaN equals nothing, not even itself. */
  datatype Epoch = NaN | Num(n: int)

  predicate StrictEqual(a: Epoch, b: Epoch) {
    a.Num? && a == b
  }

  /** What the closure remembers between calls. */
  datatype Memory<K> = Memory(prev: seq<K>, epoch: Epoch, stale: bool)

  datatype Call<!T> = Call(items: seq<T>, compare: (T, T) -> int, hold: bool, epoch: Epoch)

  /** The table: how a row is identified, and which rows JavaScript counts as true. */
  datatype Table<!T, !K> = Table(key: T -> K, truthy: T -> bool)

  // ---- Sorting ----

  ghost predicate TotalPreorder<T(!new)>(cmp: (T, T) -> int) {
    && (forall x, y :: cmp(x, y) < 0 <==> cmp(y, x) > 0)
    && (forall x, y, z :: cmp(x, y) <= 0 && cmp(y, z) <= 0 ==> cmp(x, z) <= 0)
  }

  ghost predicate Sorted<T>(s: seq<T>, cmp: (T, T) -> int) {
    forall i, j :: 0 <= i < j < |s| ==> cmp(s[i], s[j]) <= 0
  }

  function Insert<T>(s: seq<T>, x: T, cmp: (T, T) -> int): seq<T> {
    if s == [] || cmp(s[|s| - 1], x) <= 0 then s + [x]
    else Insert(s[..|s| - 1], x, cmp) + [s[|s| - 1]]
  }

  /** A stable sort, as JavaScript's is. */
  function Sort<T>(s: seq<T>, cmp: (T, T) -> int): seq<T> {
    if s == [] then [] else Insert(Sort(s[..|s| - 1], cmp), s[|s| - 1], cmp)
  }

  lemma {:induction false} InsertAdds<T>(s: seq<T>, x: T, cmp: (T, T) -> int)
    ensures multiset(Insert(s, x, cmp)) == multiset(s) + multiset{x}
  {
    if s != [] && cmp(s[|s| - 1], x) > 0 {
      assert s == s[..|s| - 1] + [s[|s| - 1]];
      InsertAdds(s[..|s| - 1], x, cmp);
    }
  }

  lemma AppendSorted<T(!new)>(s: seq<T>, x: T, cmp: (T, T) -> int)
    requires Sorted(s, cmp) && forall e :: e in s ==> cmp(e, x) <= 0
    ensures Sorted(s + [x], cmp)
  {
    var r := s + [x];
    forall i, j | 0 <= i < j < |r| ensures cmp(r[i], r[j]) <= 0 {
      assert r[i] in s;
    }
  }

  lemma {:induction false} InsertSorted<T(!new)>(s: seq<T>, x: T, cmp: (T, T) -> int)
    requires TotalPreorder(cmp) && Sorted(s, cmp)
    ensures Sorted(Insert(s, x, cmp), cmp)
  {
    if s == [] {
    } else if cmp(s[|s| - 1], x) <= 0 {
      forall e | e in s ensures cmp(e, x) <= 0 {
        assert cmp(e, s[|s| - 1]) <= 0;
      }
      AppendSorted(s, x, cmp);
    } else {
      var init, last := s[..|s| - 1], s[|s| - 1];
      InsertSorted(init, x, cmp);
      InsertAdds(init, x, cmp);
      var r := Insert(init, x, cmp);
      forall e | e in r ensures cmp(e, last) <= 0 {
        assert e in multiset(r);
        assert e in init || e == x;
      }
      AppendSorted(r, last, cmp);
    }
  }

  lemma {:induction false} SortKeeps<T(!new)>(s: seq<T>, cmp: (T, T) -> int)
    ensures multiset(Sort(s, cmp)) == multiset(s)
    ensures TotalPreorder(cmp) ==> Sorted(Sort(s, cmp), cmp)
  {
    if s != [] {
      assert s == s[..|s| - 1] + [s[|s| - 1]];
      SortKeeps(s[..|s| - 1], cmp);
      InsertAdds(Sort(s[..|s| - 1], cmp), s[|s| - 1], cmp);
      if TotalPreorder(cmp) {
        InsertSorted(Sort(s[..|s| - 1], cmp), s[|s| - 1], cmp);
      }
    }
  }

  /** The elements that compare equal to y, in their order. */
  function EqualTo<T>(s: seq<T>, y: T, cmp: (T, T) -> int): seq<T> {
    if s == [] then []
    else EqualTo(s[..|s| - 1], y, cmp) + if cmp(s[|s| - 1], y) == 0 then [s[|s| - 1]] else []
  }

  lemma EqualToOne<T>(s: seq<T>, x: T, y: T, cmp: (T, T) -> int)
    ensures EqualTo(s + [x], y, cmp) == EqualTo(s, y, cmp) + if cmp(x, y) == 0 then [x] else []
  {
    assert (s + [x])[..|s|] == s;
  }

  lemma {:induction false} InsertIsStable<T(!new)>(s: seq<T>, x: T, y: T, cmp: (T, T) -> int)
    requires TotalPreorder(cmp)
    ensures EqualTo(Insert(s, x, cmp), y, cmp) == EqualTo(s + [x], y, cmp)
  {
    if s != [] && cmp(s[|s| - 1], x) > 0 {
      var init, last := s[..|s| - 1], s[|s| - 1];
      InsertIsStable(init, x, y, cmp);
      EqualToOne(Insert(init, x, cmp), last, y, cmp);
      EqualToOne(init, x, y, cmp);
      EqualToOne(s, x, y, cmp);
      assert cmp(last, y) == 0 && cmp(y, x) <= 0 ==> cmp(last, x) <= 0;
    }
  }

  /** Sorting keeps the order of what compares equal. */
  lemma {:induction false} SortIsStable<T(!new)>(s: seq<T>, y: T, cmp: (T, T) -> int)
    requires TotalPreorder(cmp)
    ensures EqualTo(Sort(s, cmp), y, cmp) == EqualTo(s, y, cmp)
  {
    if s != [] {
      var init, last := s[..|s| - 1], s[|s| - 1];
      SortIsStable(init, y, cmp);
      InsertIsStable(Sort(init, cmp), last, y, cmp);
      EqualToOne(Sort(init, cmp), last, y, cmp);
    }
  }

  // ---- JavaScript's Map: entries in insertion order ----

  type Entries<K, T> = seq<(K, T)>

  function Find<K(==), T>(es: Entries<K, T>, k: K): (i: nat)
    ensures i <= |es| && (i < |es| ==> es[i].0 == k)
    ensures forall j :: 0 <= j < i ==> es[j].0 != k
  {
    if es == [] || es[0].0 == k then 0 else 1 + Find(es[1..], k)
  }

  function Put<K(==), T>(es: Entries<K, T>, k: K, v: T): Entries<K, T> {
    var i := Find(es, k);
    if i < |es| then es[i := (k, v)] else es + [(k, v)]
  }

  function Without<K(==), T>(es: Entries<K, T>, i: nat): Entries<K, T>
    requires i < |es|
  {
    es[..i] + es[i + 1..]
  }

  function MapOf<T, K(==)>(t: Table<T, K>, items: seq<T>): Entries<K, T> {
    if items == [] then []
    else
      var last := items[|items| - 1];
      Put(MapOf(t, items[..|items| - 1]), t.key(last), last)
  }

  function Values<K, T>(es: Entries<K, T>): (vs: seq<T>)
    ensures |vs| == |es|
    ensures forall i :: 0 <= i < |es| ==> vs[i] == es[i].1
  {
    seq(|es|, i requires 0 <= i < |es| => es[i].1)
  }

  function KeysOf<T, K>(t: Table<T, K>, rows: seq<T>): (ks: seq<K>)
    ensures |ks| == |rows|
    ensures forall i :: 0 <= i < |rows| ==> ks[i] == t.key(rows[i])
  {
    seq(|rows|, i requires 0 <= i < |rows| => t.key(rows[i]))
  }

  // ---- One call ----

  /** The rows that keep their place, in the old order, and the entries left over. */
  function Hold<T, K(==)>(t: Table<T, K>, prev: seq<K>, es: Entries<K, T>): (seq<T>, Entries<K, T>) {
    if prev == [] then ([], es)
    else
      var (rows, rest) := Hold(t, prev[..|prev| - 1], es);
      var i := Find(rest, prev[|prev| - 1]);
      if i < |rest| && t.truthy(rest[i].1) then (rows + [rest[i].1], Without(rest, i)) else (rows, rest)
  }

  predicate IsHeld<T, K>(m: Memory<K>, c: Call<T>) {
    c.hold && StrictEqual(c.epoch, m.epoch)
  }

  function Rows<T, K(==)>(t: Table<T, K>, m: Memory<K>, c: Call<T>): seq<T> {
    if IsHeld(m, c) then
      var (held, rest) := Hold(t, m.prev, MapOf(t, c.items));
      held + Sort(Values(rest), c.compare)
    else Sort(c.items, c.compare)
  }

  ghost predicate OutOfOrder<T>(rows: seq<T>, cmp: (T, T) -> int) {
    exists i :: 0 < i < |rows| && cmp(rows[i - 1], rows[i]) > 0
  }

  ghost function Next<T, K>(t: Table<T, K>, m: Memory<K>, c: Call<T>): Memory<K> {
    var rows := Rows(t, m, c);
    Memory(KeysOf(t, rows), c.epoch, IsHeld(m, c) && (m.stale || OutOfOrder(rows, c.compare)))
  }

  function Initial<K>(): Memory<K> {
    Memory([], NaN, false)
  }

  ghost function Run<T, K>(t: Table<T, K>, m: Memory<K>, calls: seq<Call<T>>): Memory<K> {
    if calls == [] then m else Next(t, Run(t, m, calls[..|calls| - 1]), calls[|calls| - 1])
  }

  // ---- Distinct keys ----

  ghost predicate Distinct<A>(s: seq<A>) {
    forall i, j :: 0 <= i < j < |s| ==> s[i] != s[j]
  }

  ghost predicate DistinctRows<T, K>(t: Table<T, K>, items: seq<T>) {
    forall i, j :: 0 <= i < j < |items| ==> t.key(items[i]) != t.key(items[j])
  }

  /** Every entry is under its row's key, and no two share one. */
  ghost predicate WellKeyed<T, K>(t: Table<T, K>, es: Entries<K, T>) {
    && (forall i :: 0 <= i < |es| ==> es[i].0 == t.key(es[i].1))
    && (forall i, j :: 0 <= i < j < |es| ==> es[i].0 != es[j].0)
  }

  lemma PutKeeps<T, K>(t: Table<T, K>, es: Entries<K, T>, v: T)
    requires WellKeyed(t, es)
    ensures WellKeyed(t, Put(es, t.key(v), v)) && HasKey(Put(es, t.key(v), v), t.key(v))
    ensures forall k :: HasKey(es, k) ==> HasKey(Put(es, t.key(v), v), k)
  {
    var i, r := Find(es, t.key(v)), Put(es, t.key(v), v);
    assert r[i].0 == t.key(v);
    forall k | HasKey(es, k) ensures HasKey(r, k) {
      var j :| 0 <= j < |es| && es[j].0 == k;
      assert r[j].0 == k;
    }
  }

  ghost predicate HasKey<K, T>(es: Entries<K, T>, k: K) {
    exists i :: 0 <= i < |es| && es[i].0 == k
  }

  lemma {:induction false} MapOfKeys<T, K>(t: Table<T, K>, items: seq<T>)
    ensures WellKeyed(t, MapOf(t, items)) && |MapOf(t, items)| <= |items|
    ensures forall i :: 0 <= i < |items| ==> HasKey(MapOf(t, items), t.key(items[i]))
  {
    if items != [] {
      var init, last := items[..|items| - 1], items[|items| - 1];
      MapOfKeys(t, init);
      PutKeeps(t, MapOf(t, init), last);
      forall i | 0 <= i < |items| ensures HasKey(MapOf(t, items), t.key(items[i])) {
        if i < |init| {
          assert HasKey(MapOf(t, init), t.key(init[i]));
        }
      }
    }
  }

  /** With distinct keys the map holds the items as they are. */
  lemma {:induction false} MapOfDistinct<T, K>(t: Table<T, K>, items: seq<T>)
    requires DistinctRows(t, items)
    ensures Values(MapOf(t, items)) == items
  {
    if items != [] {
      var init, last := items[..|items| - 1], items[|items| - 1];
      MapOfDistinct(t, init);
      MapOfKeys(t, init);
      var es := MapOf(t, init);
      assert forall i :: 0 <= i < |es| ==> es[i].0 == t.key(Values(es)[i]);
    }
  }

  /** With a key used twice it holds fewer. */
  lemma {:induction false} MapOfDuplicates<T, K>(t: Table<T, K>, items: seq<T>)
    requires !DistinctRows(t, items)
    ensures |MapOf(t, items)| < |items|
  {
    var init, last := items[..|items| - 1], items[|items| - 1];
    var es := MapOf(t, init);
    MapOfKeys(t, init);
    if DistinctRows(t, init) {
      var a, b :| 0 <= a < b < |items| && t.key(items[a]) == t.key(items[b]);
      assert t.key(init[a]) == t.key(last);
      assert HasKey(es, t.key(last));
    } else {
      MapOfDuplicates(t, init);
    }
  }

  // ---- What a held call does ----

  function Lookup<K(==), T>(es: Entries<K, T>, k: K): Option<T> {
    var i := Find(es, k);
    if i < |es| then Some(es[i].1) else None
  }

  /** The old order without the rows that are gone. */
  function Kept<T, K(==)>(t: Table<T, K>, prev: seq<K>, es: Entries<K, T>): seq<K> {
    if prev == [] then []
    else
      var v := Lookup(es, prev[|prev| - 1]);
      Kept(t, prev[..|prev| - 1], es) + if v.Some? && t.truthy(v.value) then [prev[|prev| - 1]] else []
  }

  lemma {:induction false} KeptIsPart<T, K>(t: Table<T, K>, prev: seq<K>, es: Entries<K, T>, k: K)
    ensures k in Kept(t, prev, es) <==> k in prev && Lookup(es, k).Some? && t.truthy(Lookup(es, k).value)
  {
    if prev != [] {
      KeptIsPart(t, prev[..|prev| - 1], es, k);
      assert prev == prev[..|prev| - 1] + [prev[|prev| - 1]];
    }
  }

  lemma FindIs<K, T>(es: Entries<K, T>, i: nat)
    requires i < |es| && forall a, b :: 0 <= a < b < |es| ==> es[a].0 != es[b].0
    ensures Find(es, es[i].0) == i
  {
  }

  lemma WithoutKeyed<T, K>(t: Table<T, K>, es: Entries<K, T>, i: nat)
    requires WellKeyed(t, es) && i < |es|
    ensures WellKeyed(t, Without(es, i))
  {
    var r := Without(es, i);
    assert forall j :: 0 <= j < |r| ==> r[j] == if j < i then es[j] else es[j + 1];
  }

  /** Deleting an entry takes away that key and nothing else. */
  lemma WithoutMeaning<T, K>(t: Table<T, K>, es: Entries<K, T>, i: nat, k: K)
    requires WellKeyed(t, es) && i < |es|
    ensures Lookup(Without(es, i), k) == if k == es[i].0 then None else Lookup(es, k)
  {
    WithoutKeyed(t, es, i);
    var r, a := Without(es, i), Find(es, k);
    if k == es[i].0 || a == |es| {
      assert forall j :: 0 <= j < |r| ==> r[j].0 != k;
    } else {
      var p := if a < i then a else a - 1;
      assert r[p] == es[a];
      FindIs(r, p);
    }
  }

  lemma WithoutValues<K, T>(es: Entries<K, T>, i: nat)
    requires i < |es|
    ensures multiset(Values(Without(es, i))) + multiset{es[i].1} == multiset(Values(es))
  {
    var vs := Values(es);
    assert Values(Without(es, i)) == vs[..i] + vs[i + 1..];
    assert vs == vs[..i] + [vs[i]] + vs[i + 1..];
  }

  /** No row is lost or doubled by the loop over the old order. */
  lemma {:induction false} HoldConserves<T, K>(t: Table<T, K>, prev: seq<K>, es: Entries<K, T>)
    ensures var (rows, rest) := Hold(t, prev, es); multiset(rows) + multiset(Values(rest)) == multiset(Values(es))
  {
    if prev != [] {
      HoldConserves(t, prev[..|prev| - 1], es);
      var (rows, rest) := Hold(t, prev[..|prev| - 1], es);
      var i := Find(rest, prev[|prev| - 1]);
      if i < |rest| && t.truthy(rest[i].1) {
        WithoutValues(rest, i);
      }
    }
  }

  lemma {:induction false} HoldMeaning<T(!new), K(!new)>(t: Table<T, K>, prev: seq<K>, es: Entries<K, T>)
    requires Distinct(prev) && WellKeyed(t, es)
    ensures var (rows, rest) := Hold(t, prev, es);
            && KeysOf(t, rows) == Kept(t, prev, es) && WellKeyed(t, rest)
            && forall k :: Lookup(rest, k) == if k in Kept(t, prev, es) then None else Lookup(es, k)
  {
    if prev != [] {
      var init, last := prev[..|prev| - 1], prev[|prev| - 1];
      HoldMeaning(t, init, es);
      var (rows, rest) := Hold(t, init, es);
      var i := Find(rest, last);
      KeptIsPart(t, init, es, last);
      assert last !in init;
      if i < |rest| && t.truthy(rest[i].1) {
        assert t.key(rest[i].1) == last;
        assert KeysOf(t, rows + [rest[i].1]) == KeysOf(t, rows) + [last];
        forall k ensures Lookup(Without(rest, i), k) == if k in Kept(t, prev, es) then None else Lookup(es, k) {
          WithoutMeaning(t, rest, i, k);
        }
        WithoutKeyed(t, rest, i);
      }
    }
  }

  // ---- Order over any number of refreshes ----

  /** a stands before b. */
  ghost predicate Before<K>(s: seq<K>, a: K, b: K) {
    exists i, j :: 0 <= i < j < |s| && s[i] == a && s[j] == b
  }

  lemma {:induction false} KeptOrder<T, K>(t: Table<T, K>, prev: seq<K>, es: Entries<K, T>, a: K, b: K)
    requires Before(prev, a, b) && Lookup(es, a).Some? && t.truthy(Lookup(es, a).value)
    requires Lookup(es, b).Some? && t.truthy(Lookup(es, b).value)
    ensures Before(Kept(t, prev, es), a, b)
  {
    var init, last := prev[..|prev| - 1], prev[|prev| - 1];
    var ks := Kept(t, init, es);
    var i, j :| 0 <= i < j < |prev| && prev[i] == a && prev[j] == b;
    if j < |prev| - 1 {
      assert init[i] == a && init[j] == b;
      KeptOrder(t, init, es, a, b);
      var x, y :| 0 <= x < y < |ks| && ks[x] == a && ks[y] == b;
      assert Kept(t, prev, es)[x] == a && Kept(t, prev, es)[y] == b;
    } else {
      assert init[i] == a;
      KeptIsPart(t, init, es, a);
      var x :| 0 <= x < |ks| && ks[x] == a;
      assert Kept(t, prev, es)[x] == a && Kept(t, prev, es)[|ks|] == b;
    }
  }

  /** A row with this key is among the items, and counts as true. */
  ghost predicate Contains<T, K>(t: Table<T, K>, items: seq<T>, k: K) {
    exists i :: 0 <= i < |items| && t.key(items[i]) == k && t.truthy(items[i])
  }

  lemma LookupItem<T, K>(t: Table<T, K>, items: seq<T>, k: K)
    requires DistinctRows(t, items) && Contains(t, items, k)
    ensures var v := Lookup(MapOf(t, items), k); v.Some? && t.truthy(v.value)
  {
    MapOfKeys(t, items);
    MapOfDistinct(t, items);
    var es := MapOf(t, items);
    var i :| 0 <= i < |items| && t.key(items[i]) == k && t.truthy(items[i]);
    assert es[i].1 == Values(es)[i] == items[i];
    FindIs(es, i);
  }

  /** The keys of a permutation of rows with distinct keys are distinct. */
  lemma PermutedDistinct<T, K>(t: Table<T, K>, items: seq<T>, rows: seq<T>)
    requires DistinctRows(t, items) && multiset(rows) == multiset(items)
    ensures Distinct(KeysOf(t, rows))
  {
    forall i, j | 0 <= i < j < |rows| ensures t.key(rows[i]) != t.key(rows[j]) {
      assert rows[i] in multiset(items) && rows[j] in multiset(items);
      if t.key(rows[i]) == t.key(rows[j]) {
        assert rows[i] == rows[j];
        TwiceIn(rows, i, j);
        OnceIn(t, items, rows[i]);
      }
    }
  }

  lemma TwiceIn<T>(s: seq<T>, i: nat, j: nat)
    requires i < j < |s| && s[i] == s[j]
    ensures multiset(s)[s[i]] >= 2
  {
    assert s == s[..j] + [s[j]] + s[j + 1..];
    assert s[i] in s[..j];
  }

  lemma {:induction false} OnceIn<T, K>(t: Table<T, K>, s: seq<T>, x: T)
    requires DistinctRows(t, s)
    ensures multiset(s)[x] <= 1
  {
    if s != [] {
      var init, last := s[..|s| - 1], s[|s| - 1];
      assert s == init + [last];
      OnceIn(t, init, x);
      assert forall i :: 0 <= i < |init| ==> t.key(s[i]) != t.key(last);
      assert last !in init;
    }
  }

  // ---- Theorems ----

  /** A call returns a permutation of its items, exactly when it sorts or their keys are distinct. */
  lemma PermutationIffDistinct<T(!new), K>(t: Table<T, K>, m: Memory<K>, c: Call<T>)
    ensures multiset(Rows(t, m, c)) == multiset(c.items) <==> !IsHeld(m, c) || DistinctRows(t, c.items)
  {
    if IsHeld(m, c) {
      var es := MapOf(t, c.items);
      var (held, rest) := Hold(t, m.prev, es);
      HoldConserves(t, m.prev, es);
      SortKeeps(Values(rest), c.compare);
      if DistinctRows(t, c.items) {
        MapOfDistinct(t, c.items);
      } else {
        MapOfDuplicates(t, c.items);
        assert |multiset(Values(es))| < |multiset(c.items)|;
      }
    } else {
      SortKeeps(c.items, c.compare);
    }
  }

  /**
   * A held call keeps the rows it knows in their old order, without those that are gone, and
   * the rows that are new follow all of them, sorted.
   */
  lemma HeldThenNew<T(!new), K(!new)>(t: Table<T, K>, m: Memory<K>, c: Call<T>)
    requires IsHeld(m, c) && DistinctRows(t, c.items) && Distinct(m.prev) && TotalPreorder(c.compare)
    requires forall i :: 0 <= i < |c.items| ==> t.truthy(c.items[i])
    ensures var rows, kept := Rows(t, m, c), Kept(t, m.prev, MapOf(t, c.items));
            && |kept| <= |rows| && KeysOf(t, rows[..|kept|]) == kept
            && (forall i :: |kept| <= i < |rows| ==> t.key(rows[i]) !in m.prev)
            && Sorted(rows[|kept|..], c.compare)
  {
    var es := MapOf(t, c.items);
    var (held, rest) := Hold(t, m.prev, es);
    var rows := Rows(t, m, c);
    MapOfKeys(t, c.items);
    MapOfDistinct(t, c.items);
    HoldMeaning(t, m.prev, es);
    SortKeeps(Values(rest), c.compare);
    assert rows[..|held|] == held && rows[|held|..] == Sort(Values(rest), c.compare);
    forall i | |held| <= i < |rows| ensures t.key(rows[i]) !in m.prev {
      assert rows[|held|..][i - |held|] == rows[i];
      assert rows[i] in multiset(Values(rest));
      var j :| 0 <= j < |rest| && Values(rest)[j] == rows[i];
      LeftOverIsNew(t, m.prev, es, j);
    }
  }

  lemma LeftOverIsNew<T(!new), K(!new)>(t: Table<T, K>, prev: seq<K>, es: Entries<K, T>, j: nat)
    requires Distinct(prev) && WellKeyed(t, es) && forall i :: 0 <= i < |es| ==> t.truthy(Values(es)[i])
    requires j < |Hold(t, prev, es).1|
    ensures t.key(Hold(t, prev, es).1[j].1) !in prev
  {
    HoldMeaning(t, prev, es);
    var rest := Hold(t, prev, es).1;
    var k := t.key(rest[j].1);
    FindIs(rest, j);
    assert Lookup(rest, k).Some? && Lookup(es, k).Some?;
    assert Values(es)[Find(es, k)] == Lookup(es, k).value;
    KeptIsPart(t, prev, es, k);
  }

  /** A refresh: the order is held, keys are distinct and both rows are present. */
  ghost predicate Refresh<T, K>(t: Table<T, K>, epoch: Epoch, c: Call<T>, a: K, b: K) {
    && c.hold && StrictEqual(c.epoch, epoch) && DistinctRows(t, c.items)
    && Contains(t, c.items, a) && Contains(t, c.items, b)
  }

  lemma RefreshKeepsOrder<T(!new), K(!new)>(t: Table<T, K>, m: Memory<K>, c: Call<T>, a: K, b: K)
    requires Distinct(m.prev) && Before(m.prev, a, b) && Refresh(t, m.epoch, c, a, b)
    ensures var n := Next(t, m, c); Distinct(n.prev) && Before(n.prev, a, b) && n.epoch == m.epoch
  {
    var es := MapOf(t, c.items);
    MapOfKeys(t, c.items);
    LookupItem(t, c.items, a);
    LookupItem(t, c.items, b);
    KeptOrder(t, m.prev, es, a, b);
    HoldMeaning(t, m.prev, es);
    PermutationIffDistinct(t, m, c);
    PermutedDistinct(t, c.items, Rows(t, m, c));
    var kept := Kept(t, m.prev, es);
    var x, y :| 0 <= x < y < |kept| && kept[x] == a && kept[y] == b;
    assert Next(t, m, c).prev[x] == a && Next(t, m, c).prev[y] == b;
  }

  /** Asked not to hold, or in a new epoch, a call sorts from scratch and clears the hint. */
  lemma SortsAfresh<T(!new), K>(t: Table<T, K>, m: Memory<K>, c: Call<T>)
    requires !c.hold || c.epoch == NaN || c.epoch != m.epoch
    ensures var rows, n := Rows(t, m, c), Next(t, m, c);
            && multiset(rows) == multiset(c.items) && (TotalPreorder(c.compare) ==> Sorted(rows, c.compare))
            && !n.stale && n.epoch == c.epoch && n.prev == KeysOf(t, rows)
  {
    SortKeeps(c.items, c.compare);
  }

  /** Otherwise it holds, and remembers the order it returns. */
  lemma HoldsOtherwise<T, K>(t: Table<T, K>, m: Memory<K>, c: Call<T>)
    requires c.hold && c.epoch != NaN && c.epoch == m.epoch
    ensures var n := Next(t, m, c);
            && IsHeld(m, c) && n.epoch == c.epoch && n.prev == KeysOf(t, Rows(t, m, c))
            && (n.stale <==> m.stale || OutOfOrder(Rows(t, m, c), c.compare))
  {
  }

  /** Two rows present in every refresh since the last sort keep their relative order. */
  lemma {:induction false} RowsKeepTheirOrder<T(!new), K(!new)>(
    t: Table<T, K>, m: Memory<K>, calls: seq<Call<T>>, a: K, b: K)
    requires Distinct(m.prev) && Before(m.prev, a, b)
    requires forall i :: 0 <= i < |calls| ==> Refresh(t, m.epoch, calls[i], a, b)
    ensures var n := Run(t, m, calls); Distinct(n.prev) && Before(n.prev, a, b) && n.epoch == m.epoch
    decreases |calls|
  {
    if calls != [] {
      RowsKeepTheirOrder(t, m, calls[..|calls| - 1], a, b);
      RefreshKeepsOrder(t, Run(t, m, calls[..|calls| - 1]), calls[|calls| - 1], a, b);
    }
  }

  /** Neighbours in order are enough for everything to be in order. */
  lemma {:induction false} NeighboursSuffice<T(!new)>(s: seq<T>, cmp: (T, T) -> int, i: nat, j: nat)
    requires TotalPreorder(cmp) && !OutOfOrder(s, cmp) && i < j < |s|
    ensures cmp(s[i], s[j]) <= 0
    decreases j
  {
    assert cmp(s[j - 1], s[j]) <= 0;
    if i < j - 1 {
      NeighboursSuffice(s, cmp, i, j - 1);
    }
  }

  /** Under a total preorder, some neighbours are out of order exactly if the rows are not sorted. */
  lemma OutOfOrderMeaning<T(!new)>(s: seq<T>, cmp: (T, T) -> int)
    requires TotalPreorder(cmp)
    ensures OutOfOrder(s, cmp) <==> !Sorted(s, cmp)
  {
    if !OutOfOrder(s, cmp) {
      forall i, j | 0 <= i < j < |s| ensures cmp(s[i], s[j]) <= 0 {
        NeighboursSuffice(s, cmp, i, j);
      }
    }
  }

  /** While the table is not called stale, its rows are sorted. */
  lemma NotStaleIsSorted<T(!new), K>(t: Table<T, K>, m: Memory<K>, c: Call<T>)
    requires TotalPreorder(c.compare) && !Next(t, m, c).stale
    ensures Sorted(Rows(t, m, c), c.compare)
  {
    var rows := Rows(t, m, c);
    if IsHeld(m, c) {
      forall i, j | 0 <= i < j < |rows| ensures c.compare(rows[i], rows[j]) <= 0 {
        NeighboursSuffice(rows, c.compare, i, j);
      }
    } else {
      SortKeeps(c.items, c.compare);
    }
  }

  /** Some refresh of a run was out of order. */
  ghost predicate EverOutOfOrder<T, K>(t: Table<T, K>, m: Memory<K>, calls: seq<Call<T>>) {
    calls != [] &&
    var init, c := calls[..|calls| - 1], calls[|calls| - 1];
    EverOutOfOrder(t, m, init) || OutOfOrder(Rows(t, Run(t, m, init), c), c.compare)
  }

  /** The hint is set exactly when some refresh since the last sort was out of order. */
  lemma {:induction false} StaleMeaning<T, K>(t: Table<T, K>, m: Memory<K>, calls: seq<Call<T>>)
    requires !m.stale && forall i :: 0 <= i < |calls| ==> calls[i].hold && StrictEqual(calls[i].epoch, m.epoch)
    ensures Run(t, m, calls).epoch == m.epoch
    ensures Run(t, m, calls).stale <==> EverOutOfOrder(t, m, calls)
    decreases |calls|
  {
    if calls != [] {
      StaleMeaning(t, m, calls[..|calls| - 1]);
    }
  }

  // ---- The closure ----

  class Orderer<T, K(==)> {
    const table: Table<T, K>
    var prev: seq<K>
    var prevEpoch: Epoch
    var stale: bool

    ghost function View(): Memory<K>
      reads this
    {
      Memory(prev, prevEpoch, stale)
    }

    constructor (table: Table<T, K>)
      ensures this.table == table && View() == Initial()
    {
      this.table := table;
      prev, prevEpoch, stale := [], NaN, false;
    }

    method Order(items: seq<T>, compare: (T, T) -> int, hold: bool, epoch: Epoch) returns (rows: seq<T>, isStale: bool)
      modifies this
      ensures var c := Call(items, compare, hold, epoch);
              rows == Rows(table, old(View()), c) && View() == Next(table, old(View()), c) && isStale == stale
    {
      if hold && StrictEqual(epoch, prevEpoch) {
        rows := HeldRows(items, compare);
        var moved := AnyOutOfOrder(rows, compare);
        stale := stale || moved;
      } else {
        rows := Sort(items, compare);
        stale := false;
      }
      prev := KeysOf(table, rows);
      prevEpoch := epoch;
      isStale := stale;
    }

    method HeldRows(items: seq<T>, compare: (T, T) -> int) returns (rows: seq<T>)
      ensures var (held, rest) := Hold(table, prev, MapOf(table, items)); rows == held + Sort(Values(rest), compare)
    {
      var byKey: Entries<K, T> := [];
      for i := 0 to |items|
        invariant byKey == MapOf(table, items[..i])
      {
        assert items[..i + 1][..i] == items[..i];
        byKey := Put(byKey, table.key(items[i]), items[i]);
      }
      assert items[..|items|] == items;
      rows := [];
      for n := 0 to |prev|
        invariant (rows, byKey) == Hold(table, prev[..n], MapOf(table, items))
      {
        assert prev[..n + 1][..n] == prev[..n];
        var i := Find(byKey, prev[n]);
        if i < |byKey| && table.truthy(byKey[i].1) {
          rows := rows + [byKey[i].1];
          byKey := Without(byKey, i);
        }
      }
      assert prev[..|prev|] == prev;
      rows := rows + Sort(Values(byKey), compare);
    }

    method AnyOutOfOrder(rows: seq<T>, compare: (T, T) -> int) returns (r: bool)
      ensures r <==> OutOfOrder(rows, compare)
    {
      for i := 0 to |rows|
        invariant forall j :: 0 < j < i ==> compare(rows[j - 1], rows[j]) <= 0
      {
        if i > 0 && compare(rows[i - 1], rows[i]) > 0 {
          return true;
        }
      }
      return false;
    }
  }
}
