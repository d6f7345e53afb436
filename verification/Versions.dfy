/**
 * Version parsing and order, and the chain of updates an agent accepts.
 */
module Versions {
  import opened Wrappers
  import opened Text

  /** core has three numbers; no pre-release identifiers for a release. */
  datatype SemVer = SemVer(core: seq<int>, pre: seq<string>)

  // ---- Parsing ----

  /** A part of the core: a number that is not negative and has no leading zero. */
  function CorePart(p: string): (r: Option<int>)
    ensures r.Some? ==> 0 <= r.value <= MAX_INT64
  {
    var n := Atoi(p);
    if n.None? || n.value < 0 || (|p| > 1 && p[0] == '0') then None else n
  }

  function CoreParts(parts: seq<string>): (r: Option<seq<int>>)
    ensures r.Some? ==> |r.value| == |parts|
  {
    if parts == [] then Some([])
    else
      var init, last := CoreParts(parts[..|parts| - 1]), CorePart(parts[|parts| - 1]);
      if init.None? || last.None? then None else Some(init.value + [last.value])
  }

  function TrimV(s: string): string {
    if s != "" && s[0] == 'v' then s[1..] else s
  }

  function Parse(s: string): (r: Option<SemVer>)
    ensures r.Some? ==> |r.value.core| == 3
  {
    var (plain, _, _) := Cut(TrimV(s), '+');
    var (core, pre, hasPre) := Cut(plain, '-');
    var parts := Split(core, '.');
    var nums := CoreParts(parts);
    if |parts| != 3 || nums.None? || (hasPre && pre == "") then None
    else Some(SemVer(nums.value, if hasPre then Split(pre, '.') else []))
  }

  lemma CorePartsFail(parts: seq<string>, i: nat)
    requires i < |parts| && CorePart(parts[i]).None?
    ensures CoreParts(parts).None?
    decreases |parts|
  {
    if i < |parts| - 1 {
      CorePartsFail(parts[..|parts| - 1], i);
    }
  }

  /** The source's parser, with its loop over the parts of the core. */
  method ParseVersion(s: string) returns (r: Option<SemVer>)
    ensures r == Parse(s)
  {
    var (plain, _, _) := Cut(TrimV(s), '+');
    var (core, pre, hasPre) := Cut(plain, '-');
    var parts := Split(core, '.');
    if |parts| != 3 {
      return None;
    }
    var v: seq<int> := [];
    for i := 0 to |parts|
      invariant CoreParts(parts[..i]) == Some(v)
    {
      var p := parts[i];
      var n := Atoi(p);
      assert parts[..i + 1][..i] == parts[..i];
      if n.None? || n.value < 0 || (|p| > 1 && p[0] == '0') {
        CorePartsFail(parts, i);
        return None;
      }
      v := v + [n.value];
    }
    assert parts[..|parts|] == parts;
    if hasPre {
      if pre == "" {
        return None;
      }
      return Some(SemVer(v, Split(pre, '.')));
    }
    return Some(SemVer(v, []));
  }

  // ---- Order ----

  function CmpInt(a: int, b: int): int {
    if a < b then -1 else if a > b then 1 else 0
  }

  /** Bytewise, as Go compares strings. */
  function CmpString(a: string, b: string): int {
    if a == "" && b == "" then 0
    else if a == "" then -1
    else if b == "" then 1
    else if a[0] != b[0] then (if a[0] < b[0] then -1 else 1)
    else CmpString(a[1..], b[1..])
  }

  /** Numeric identifiers by value, before alphanumeric ones, which go by their bytes. */
  function CmpIdent(x: string, y: string): int {
    var xn, yn := Atoi(x), Atoi(y);
    if xn.Some? && yn.Some? then CmpInt(xn.value, yn.value)
    else if xn.Some? then -1
    else if yn.Some? then 1
    else CmpString(x, y)
  }

  /** Identifier by identifier; a prefix comes first. */
  function CmpIdents(a: seq<string>, b: seq<string>): int {
    if a == [] && b == [] then 0
    else if a == [] then -1
    else if b == [] then 1
    else if CmpIdent(a[0], b[0]) != 0 then CmpIdent(a[0], b[0])
    else CmpIdents(a[1..], b[1..])
  }

  /** A release comes after its pre-releases. */
  function CmpPre(a: seq<string>, b: seq<string>): int {
    if a == [] && b == [] then 0
    else if a == [] then 1
    else if b == [] then -1
    else CmpIdents(a, b)
  }

  function CmpCore(a: seq<int>, b: seq<int>): int
    requires |a| == |b|
  {
    if a == [] then 0
    else if a[0] != b[0] then CmpInt(a[0], b[0])
    else CmpCore(a[1..], b[1..])
  }

  function Cmp(a: SemVer, b: SemVer): int
    requires |a.core| == |b.core|
  {
    var c := CmpCore(a.core, b.core);
    if c != 0 then c else CmpPre(a.pre, b.pre)
  }

  /** The source's comparison, with its loops and early returns. */
  method Compare(a: SemVer, b: SemVer) returns (r: int)
    requires |a.core| == |b.core|
    ensures r == Cmp(a, b)
  {
    for i := 0 to |a.core|
      invariant CmpCore(a.core, b.core) == CmpCore(a.core[i..], b.core[i..])
    {
      if a.core[i] != b.core[i] {
        if a.core[i] < b.core[i] {
          return -1;
        }
        return 1;
      }
      assert a.core[i..][1..] == a.core[i + 1..] && b.core[i..][1..] == b.core[i + 1..];
    }
    if |a.pre| == 0 && |b.pre| == 0 {
      return 0;
    } else if |a.pre| == 0 {
      return 1;
    } else if |b.pre| == 0 {
      return -1;
    }
    r := CompareIdents(a.pre, b.pre);
  }

  method CompareIdents(a: seq<string>, b: seq<string>) returns (r: int)
    ensures r == CmpIdents(a, b)
  {
    var i := 0;
    while i < |a| && i < |b|
      invariant 0 <= i <= |a| && i <= |b|
      invariant CmpIdents(a, b) == CmpIdents(a[i..], b[i..])
    {
      var c := CompareIdent(a[i], b[i]);
      if c != 0 {
        return c;
      }
      assert a[i..][1..] == a[i + 1..] && b[i..][1..] == b[i + 1..];
      i := i + 1;
    }
    return if |a| < |b| then -1 else if |a| > |b| then 1 else 0;
  }

  /** The switch in the loop; 0 goes on to the next identifier. */
  method CompareIdent(x: string, y: string) returns (r: int)
    ensures r == CmpIdent(x, y)
  {
    var xn, yn := Atoi(x), Atoi(y);
    if xn.Some? && yn.Some? {
      return if xn.value == yn.value then 0 else if xn.value < yn.value then -1 else 1;
    } else if xn.Some? {
      return -1;
    } else if yn.Some? {
      return 1;
    }
    CmpStringLaws(x, y, "");
    return if x == y then 0 else if CmpString(x, y) < 0 then -1 else 1;
  }

  // ---- Order laws ----

  predicate Sign(c: int) {
    -1 <= c <= 1
  }

  lemma {:induction false} CmpStringLaws(a: string, b: string, c: string)
    ensures Sign(CmpString(a, b)) && CmpString(a, b) == -CmpString(b, a)
    ensures CmpString(a, b) == 0 <==> a == b
    ensures CmpString(a, b) <= 0 && CmpString(b, c) <= 0 ==> CmpString(a, c) <= 0
    decreases |a| + |b| + |c|
  {
    if a != "" && b != "" {
      CmpStringLaws(a[1..], b[1..], if c == "" then "" else c[1..]);
      assert a == [a[0]] + a[1..] && b == [b[0]] + b[1..];
    }
  }

  lemma CmpIdentLaws(x: string, y: string, z: string)
    ensures Sign(CmpIdent(x, y)) && CmpIdent(x, y) == -CmpIdent(y, x) && CmpIdent(x, x) == 0
    ensures CmpIdent(x, y) <= 0 && CmpIdent(y, z) <= 0 ==> CmpIdent(x, z) <= 0
    ensures CmpIdent(x, y) <= 0 && CmpIdent(y, z) <= 0 && CmpIdent(x, z) == 0 ==>
              CmpIdent(x, y) == 0 && CmpIdent(y, z) == 0
  {
    CmpStringLaws(x, y, z);
    CmpStringLaws(y, z, x);
    CmpStringLaws(z, x, y);
    CmpStringLaws(x, x, x);
  }

  lemma {:induction false} CmpIdentsLaws(a: seq<string>, b: seq<string>, c: seq<string>)
    ensures Sign(CmpIdents(a, b)) && CmpIdents(a, b) == -CmpIdents(b, a) && CmpIdents(a, a) == 0
    ensures CmpIdents(a, b) <= 0 && CmpIdents(b, c) <= 0 ==> CmpIdents(a, c) <= 0
    decreases |a| + |b| + |c|
  {
    if a != [] {
      CmpIdentLaws(a[0], a[0], a[0]);
      CmpIdentsLaws(a[1..], [], []);
      if b != [] {
        CmpIdentLaws(a[0], b[0], if c == [] then "" else c[0]);
        CmpIdentsLaws(a[1..], b[1..], if c == [] then [] else c[1..]);
      }
    }
  }

  lemma {:induction false} CmpCoreLaws(a: seq<int>, b: seq<int>, c: seq<int>)
    requires |a| == |b| == |c|
    ensures Sign(CmpCore(a, b)) && CmpCore(a, b) == -CmpCore(b, a) && CmpCore(a, a) == 0
    ensures CmpCore(a, b) <= 0 && CmpCore(b, c) <= 0 ==> CmpCore(a, c) <= 0
    ensures CmpCore(a, b) <= 0 && CmpCore(b, c) <= 0 && CmpCore(a, c) == 0 ==> CmpCore(a, b) == 0 && CmpCore(b, c) == 0
  {
    if a != [] {
      CmpCoreLaws(a[1..], b[1..], c[1..]);
    }
  }

  /**
   * The comparison is a total preorder on everything the parser accepts: antisymmetric in
   * sign, reflexive, and transitive through the mixed identifier rules.
   */
  lemma CmpIsTotalPreorder(a: SemVer, b: SemVer, c: SemVer)
    requires |a.core| == |b.core| == |c.core|
    ensures Sign(Cmp(a, b)) && Cmp(a, b) == -Cmp(b, a) && Cmp(a, a) == 0
    ensures Cmp(a, b) <= 0 && Cmp(b, c) <= 0 ==> Cmp(a, c) <= 0
  {
    CmpCoreLaws(a.core, b.core, c.core);
    CmpIdentsLaws(a.pre, b.pre, c.pre);
  }

  /** Versions that compare equal differ only in how their numeric identifiers are written. */
  lemma {:induction false} EqualIdents(a: seq<string>, b: seq<string>)
    ensures CmpIdents(a, b) == 0 <==> |a| == |b| && forall i :: 0 <= i < |a| ==> SameIdent(a[i], b[i])
  {
    if a != [] && b != [] {
      EqualIdents(a[1..], b[1..]);
      CmpStringLaws(a[0], b[0], "");
      if CmpIdents(a, b) == 0 {
        forall i | 0 <= i < |a| ensures SameIdent(a[i], b[i]) {
          assert i > 0 ==> a[i] == a[1..][i - 1] && b[i] == b[1..][i - 1];
        }
      }
      if |a| == |b| && forall i :: 0 <= i < |a| ==> SameIdent(a[i], b[i]) {
        assert forall i :: 0 <= i < |a[1..]| ==> a[1..][i] == a[i + 1] && b[1..][i] == b[i + 1];
      }
    }
  }

  predicate SameIdent(x: string, y: string) {
    x == y || (Atoi(x).Some? && Atoi(x) == Atoi(y))
  }

  /** Semantic precedence, stated without a comparison function. */
  ghost predicate Precedes(a: SemVer, b: SemVer)
    requires |a.core| == |b.core|
  {
    || (exists i :: 0 <= i < |a.core| && a.core[..i] == b.core[..i] && a.core[i] < b.core[i])
    || (a.core == b.core && a.pre != [] && b.pre == [])
    || (a.core == b.core && a.pre != [] && b.pre != [] && IdentsPrecede(a.pre, b.pre))
  }

  /** At the first identifiers that are not the same, or because there are fewer of them. */
  ghost predicate IdentsPrecede(a: seq<string>, b: seq<string>) {
    exists i :: 0 <= i <= |a| && i < |b| && SamePrefix(a, b, i) && (i == |a| || IdentPrecedes(a[i], b[i]))
  }

  ghost predicate SamePrefix(a: seq<string>, b: seq<string>, n: nat) {
    n <= |a| && n <= |b| && forall j :: 0 <= j < n ==> SameIdent(a[j], b[j])
  }

  /** Numbers by value and before everything else, which goes by its first different byte. */
  ghost predicate IdentPrecedes(x: string, y: string) {
    var xn, yn := Atoi(x), Atoi(y);
    if xn.Some? then yn.None? || xn.value < yn.value else yn.None? && StringPrecedes(x, y)
  }

  ghost predicate StringPrecedes(x: string, y: string) {
    exists i :: 0 <= i <= |x| && i < |y| && x[..i] == y[..i] && (i == |x| || x[i] < y[i])
  }

  lemma {:induction false} CmpStringMeaning(x: string, y: string)
    ensures CmpString(x, y) < 0 <==> StringPrecedes(x, y)
  {
    if x == "" || y == "" {
      if y != "" {
        assert x[..0] == y[..0];
      }
    } else if x[0] != y[0] {
      assert forall i :: 0 < i <= |x| && i < |y| ==> x[..i][0] != y[..i][0];
      assert x[..0] == y[..0];
    } else {
      CmpStringMeaning(x[1..], y[1..]);
      var p, q := x[1..], y[1..];
      if StringPrecedes(p, q) {
        var i :| 0 <= i <= |p| && i < |q| && p[..i] == q[..i] && (i == |p| || p[i] < q[i]);
        assert x[..i + 1] == [x[0]] + p[..i] && y[..i + 1] == [y[0]] + q[..i];
      }
      if StringPrecedes(x, y) {
        var i :| 0 <= i <= |x| && i < |y| && x[..i] == y[..i] && (i == |x| || x[i] < y[i]);
        assert i > 0 && x[1..][..i - 1] == x[..i][1..] && y[1..][..i - 1] == y[..i][1..];
      }
    }
  }

  lemma CmpIdentMeaning(x: string, y: string)
    ensures CmpIdent(x, y) < 0 <==> IdentPrecedes(x, y)
    ensures CmpIdent(x, y) == 0 <==> SameIdent(x, y)
  {
    CmpStringMeaning(x, y);
    CmpStringLaws(x, y, "");
  }

  lemma {:induction false} CmpIdentsMeaning(a: seq<string>, b: seq<string>)
    ensures CmpIdents(a, b) < 0 <==> IdentsPrecede(a, b)
  {
    if b == [] {
    } else if a == [] {
      assert SamePrefix(a, b, 0);
    } else {
      CmpIdentMeaning(a[0], b[0]);
      CmpIdentsMeaning(a[1..], b[1..]);
      if SameIdent(a[0], b[0]) {
        TailsPrecede(a, b);
      } else {
        assert SamePrefix(a, b, 0);
        assert forall i: nat :: SamePrefix(a, b, i) ==> i == 0;
      }
    }
  }

  lemma TailsPrecede(a: seq<string>, b: seq<string>)
    requires a != [] && b != [] && SameIdent(a[0], b[0]) && !IdentPrecedes(a[0], b[0])
    ensures IdentsPrecede(a, b) <==> IdentsPrecede(a[1..], b[1..])
  {
    if i :| 0 <= i <= |a| && i < |b| && SamePrefix(a, b, i) && (i == |a| || IdentPrecedes(a[i], b[i])) {
      assert i > 0;
      assert SamePrefix(a[1..], b[1..], i - 1);
      assert i < |a| ==> a[1..][i - 1] == a[i] && b[1..][i - 1] == b[i];
    }
    var p, q := a[1..], b[1..];
    if i :| 0 <= i <= |p| && i < |q| && SamePrefix(p, q, i) && (i == |p| || IdentPrecedes(p[i], q[i])) {
      forall j | 0 <= j < i + 1 ensures SameIdent(a[j], b[j]) {
        assert j > 0 ==> a[j] == a[1..][j - 1] && b[j] == b[1..][j - 1];
      }
      assert SamePrefix(a, b, i + 1);
      assert i < |a[1..]| ==> a[1..][i] == a[i + 1] && b[1..][i] == b[i + 1];
    }
  }

  lemma {:induction false} CmpCoreMeaning(a: seq<int>, b: seq<int>)
    requires |a| == |b|
    ensures CmpCore(a, b) < 0 <==> exists i :: 0 <= i < |a| && a[..i] == b[..i] && a[i] < b[i]
    ensures CmpCore(a, b) == 0 <==> a == b
  {
    if a != [] {
      CmpCoreMeaning(a[1..], b[1..]);
      assert a == [a[0]] + a[1..] && b == [b[0]] + b[1..];
      if a[0] != b[0] {
        assert forall i :: 0 < i < |a| ==> a[..i][0] != b[..i][0];
        assert a[..0] == b[..0];
      } else {
        if i :| 0 <= i < |a[1..]| && a[1..][..i] == b[1..][..i] && a[1..][i] < b[1..][i] {
          assert a[..i + 1] == [a[0]] + a[1..][..i] && b[..i + 1] == [b[0]] + b[1..][..i];
          assert a[i + 1] < b[i + 1];
        }
        if i :| 0 <= i < |a| && a[..i] == b[..i] && a[i] < b[i] {
          assert i > 0 && a[1..][..i - 1] == a[..i][1..] && b[1..][..i - 1] == b[..i][1..];
          assert a[1..][i - 1] < b[1..][i - 1];
        }
      }
    }
  }

  /** The comparison computes semantic precedence. */
  lemma CmpMeaning(a: SemVer, b: SemVer)
    requires |a.core| == |b.core|
    ensures Cmp(a, b) < 0 <==> Precedes(a, b)
    ensures Cmp(a, b) > 0 <==> Precedes(b, a)
  {
    CmpOneWay(a, b);
    CmpOneWay(b, a);
    CmpIsTotalPreorder(a, b, a);
  }

  lemma CmpOneWay(a: SemVer, b: SemVer)
    requires |a.core| == |b.core|
    ensures Cmp(a, b) < 0 <==> Precedes(a, b)
  {
    CmpCoreMeaning(a.core, b.core);
    CmpCoreMeaning(b.core, a.core);
    CmpIdentsMeaning(a.pre, b.pre);
    CmpCoreLaws(a.core, b.core, a.core);
  }

  // ---- Updates ----

  predicate IsRelease(v: string) {
    Parse(v).Some?
  }

  /** A text that is not a version is below every version. */
  predicate Newer(candidate: string, current: string) {
    IsRelease(candidate) && (!IsRelease(current) || Cmp(Parse(candidate).value, Parse(current).value) > 0)
  }

  lemma NewerIsStrictOrder(a: string, b: string, c: string)
    ensures !Newer(a, a)
    ensures Newer(a, b) ==> !Newer(b, a)
    ensures Newer(a, b) && Newer(b, c) ==> Newer(a, c)
  {
    if IsRelease(a) {
      var x := Parse(a).value;
      CmpIsTotalPreorder(x, x, x);
      if IsRelease(b) {
        var y := Parse(b).value;
        CmpIsTotalPreorder(x, y, x);
        if IsRelease(c) {
          var z := Parse(c).value;
          CmpIsTotalPreorder(z, y, x);
          CmpIsTotalPreorder(x, y, z);
          CmpIsTotalPreorder(y, x, z);
          CmpIsTotalPreorder(x, z, y);
        }
      }
    }
  }

  /** A candidate is newer if it is a version that the current one precedes, or the current one is none. */
  lemma NewerMeaning(candidate: string, current: string)
    ensures Newer(candidate, current) <==>
              && Parse(candidate).Some?
              && (Parse(current).None? || Precedes(Parse(current).value, Parse(candidate).value))
    ensures Newer(candidate, current) <==> !AtOrBelow(candidate, current)
  {
    if IsRelease(candidate) && IsRelease(current) {
      CmpMeaning(Parse(candidate).value, Parse(current).value);
    }
  }

  /** x is at or below y: not newer, or not a release at all. */
  predicate AtOrBelow(x: string, y: string) {
    !IsRelease(x) || (IsRelease(y) && Cmp(Parse(x).value, Parse(y).value) <= 0)
  }

  /**
   * Along any chain of accepted updates whose binaries run as their manifest's version, no
   * version at or below an earlier one ever runs again.
   */
  lemma NoDowngrade(chain: seq<string>, i: nat, j: nat)
    requires IsUpdateChain(chain) && i < j < |chain|
    ensures Newer(chain[j], chain[i]) && !AtOrBelow(chain[j], chain[i]) && chain[j] != chain[i]
  {
    var newer := (x, y) => Newer(x, y);
    forall a, b, c | newer(a, b) && newer(b, c) ensures newer(a, c) {
      NewerIsStrictOrder(a, b, c);
    }
    LaterIsRelated(newer, chain, i, j);
    NewerIsAbove(chain[j], chain[i]);
  }

  /** Each version was accepted by an agent that ran the one before it. */
  ghost predicate IsUpdateChain(chain: seq<string>) {
    IsChain((x, y) => Newer(x, y), chain)
  }

  /** Each element is related to the one before it. */
  ghost predicate IsChain<T>(r: (T, T) -> bool, chain: seq<T>) {
    forall i, j :: 0 <= i < j < |chain| && j == i + 1 ==> r(chain[j], chain[i])
  }

  lemma {:induction false} LaterIsRelated<T(!new)>(r: (T, T) -> bool, chain: seq<T>, i: nat, j: nat)
    requires forall a, b, c :: r(a, b) && r(b, c) ==> r(a, c)
    requires IsChain(r, chain) && i < j < |chain|
    ensures r(chain[j], chain[i])
    decreases j
  {
    if i < j - 1 {
      LaterIsRelated(r, chain, i, j - 1);
    }
  }

  lemma NewerIsAbove(x: string, y: string)
    ensures Newer(x, y) ==> !AtOrBelow(x, y) && x != y
  {
    NewerIsStrictOrder(x, y, x);
  }
}
