/**
 * The parts of Go's strings and strconv packages that versions and manifests use. A string is
 * its bytes, one char each.
 */
module Text {
  import opened Wrappers

  const MAX_INT64: int := 0x7FFF_FFFF_FFFF_FFFF
  const MIN_INT64: int := -0x8000_0000_0000_0000

  // ---- strings ----

  /** The position of the first sep, or the length. */
  function IndexOf(s: string, sep: char): (i: nat)
    ensures i <= |s| && (i < |s| ==> s[i] == sep)
    ensures forall j :: 0 <= j < i ==> s[j] != sep
  {
    if s == "" || s[0] == sep then 0 else 1 + IndexOf(s[1..], sep)
  }

  /** What is before and after the first sep, and whether there is one. */
  function Cut(s: string, sep: char): (string, string, bool) {
    var i := IndexOf(s, sep);
    if i < |s| then (s[..i], s[i + 1..], true) else (s, "", false)
  }

  function Split(s: string, sep: char): (parts: seq<string>)
    ensures |parts| >= 1
    decreases |s|
  {
    var i := IndexOf(s, sep);
    if i < |s| then [s[..i]] + Split(s[i + 1..], sep) else [s]
  }

  function Join(parts: seq<string>, sep: char): string
    requires parts != []
  {
    if |parts| == 1 then parts[0] else parts[0] + [sep] + Join(parts[1..], sep)
  }

  lemma IndexAfter(x: string, rest: string, sep: char)
    requires sep !in x
    ensures IndexOf(x + [sep] + rest, sep) == |x|
    ensures IndexOf(x, sep) == |x|
  {
    var s := x + [sep] + rest;
    assert s[|x|] == sep;
    assert forall j :: 0 <= j < |x| ==> s[j] == x[j];
  }

  lemma SplitFirst(x: string, rest: string, sep: char)
    requires sep !in x
    ensures Split(x + [sep] + rest, sep) == [x] + Split(rest, sep)
  {
    var s := x + [sep] + rest;
    IndexAfter(x, rest, sep);
    assert s[..|x|] == x && s[|x| + 1..] == rest;
  }

  /** Splitting loses nothing, and no part contains the separator. */
  lemma {:induction false} JoinSplit(s: string, sep: char)
    ensures Join(Split(s, sep), sep) == s
    ensures forall i :: 0 <= i < |Split(s, sep)| ==> sep !in Split(s, sep)[i]
    decreases |s|
  {
    var i := IndexOf(s, sep);
    if i < |s| {
      JoinSplit(s[i + 1..], sep);
      assert Split(s, sep)[1..] == Split(s[i + 1..], sep);
      assert s == s[..i] + [sep] + s[i + 1..];
    }
  }

  /** Joined parts split back into the same parts. */
  lemma {:induction false} SplitJoin(l: seq<string>, sep: char)
    requires l != [] && forall i :: 0 <= i < |l| ==> sep !in l[i]
    ensures Split(Join(l, sep), sep) == l
  {
    if |l| == 1 {
      IndexAfter(l[0], "", sep);
    } else {
      SplitJoin(l[1..], sep);
      SplitFirst(l[0], Join(l[1..], sep), sep);
    }
  }

  lemma CutAt(x: string, rest: string, sep: char)
    requires sep !in x
    ensures Cut(x + [sep] + rest, sep) == (x, rest, true)
    ensures Cut(x, sep) == (x, "", false)
  {
    IndexAfter(x, rest, sep);
    var s := x + [sep] + rest;
    assert s[..|x|] == x && s[|x| + 1..] == rest;
  }

  lemma CutMeaning(s: string, sep: char)
    ensures var (x, rest, found) := Cut(s, sep); sep !in x && s == if found then x + [sep] + rest else x
  {
  }

  /** A joined text contains a character exactly if it is the separator used or in a part. */
  lemma {:induction false} InJoin(parts: seq<string>, sep: char, c: char)
    requires parts != [] && c != sep
    ensures c in Join(parts, sep) <==> exists i :: 0 <= i < |parts| && c in parts[i]
  {
    if |parts| > 1 {
      InJoin(parts[1..], sep, c);
      if c in Join(parts[1..], sep) {
        var i :| 0 <= i < |parts[1..]| && c in parts[1..][i];
        assert c in parts[i + 1];
      }
      if i :| 0 <= i < |parts| && c in parts[i] {
        assert i > 0 ==> parts[i] == parts[1..][i - 1];
      }
    } else {
      assert c in Join(parts, sep) ==> c in parts[0];
    }
  }

  // ---- strconv ----

  predicate Digit(c: char) {
    '0' <= c <= '9'
  }

  predicate Digits(s: string) {
    s != "" && forall i :: 0 <= i < |s| ==> Digit(s[i])
  }

  function Value(s: string): nat
    requires forall i :: 0 <= i < |s| ==> Digit(s[i])
  {
    if s == "" then 0
    else
      assert Digit(s[|s| - 1]);
      Value(s[..|s| - 1]) * 10 + (s[|s| - 1] - '0') as nat
  }

  /** Atoi: an optional sign and digits, within 64 bits; None is any error. */
  function Atoi(s: string): (r: Option<int>)
    ensures r.Some? ==> MIN_INT64 <= r.value <= MAX_INT64
  {
    if s == "" then None
    else
      var signed := s[0] == '-' || s[0] == '+';
      var d := if signed then s[1..] else s;
      if !Digits(d) then None
      else
        var n: int := Value(d);
        var v := if s[0] == '-' then -n else n;
        if MIN_INT64 <= v <= MAX_INT64 then Some(v) else None
  }

  /** The digits of a number, most significant first. */
  lemma ValueMeaning(s: string, d: char)
    requires (forall i :: 0 <= i < |s| ==> Digit(s[i])) && Digit(d)
    ensures forall i :: 0 <= i < |s + [d]| ==> Digit((s + [d])[i])
    ensures Value(s + [d]) == Value(s) * 10 + (d as int - '0' as int) && Value("") == 0
  {
    assert (s + [d])[..|s|] == s;
  }

  /** What Atoi reads: digits after an optional sign, within 64 bits, and nothing else. */
  lemma AtoiMeaning(s: string, n: int)
    ensures Atoi(s) == Some(n) <==>
              && -0x8000_0000_0000_0000 <= n <= 0x7FFF_FFFF_FFFF_FFFF
              && exists d :: Digits(d) && Spells(s, d, n)
  {
    if Atoi(s) == Some(n) {
      var d := if s[0] == '-' || s[0] == '+' then s[1..] else s;
      assert s == (if s[0] == '-' || s[0] == '+' then [s[0]] + d else d);
      assert Spells(s, d, n);
    }
    if d :| Digits(d) && Spells(s, d, n) {
      assert Digit(d[0]);
      assert s != d ==> s[1..] == d;
    }
  }

  predicate Spells(s: string, d: string, n: int)
    requires Digits(d)
  {
    ((s == d || s == "+" + d) && n == Value(d)) || (s == "-" + d && n + Value(d) == 0)
  }

  /** Formats a positive number the way %d does. */
  function Decimal(n: nat): (s: string)
    ensures Digits(s)
    ensures n > 0 ==> s[0] != '0'
  {
    if n < 10 then [Char(n)] else Decimal(n / 10) + [Char(n % 10)]
  }

  function Char(d: nat): (c: char)
    requires d < 10
    ensures Digit(c) && (c - '0') as nat == d && (d > 0 ==> c != '0')
  {
    '0' + d as char
  }

  lemma {:induction false} ValueOfDecimal(n: nat)
    ensures Value(Decimal(n)) == n
  {
    var s := Decimal(n);
    if n >= 10 {
      ValueOfDecimal(n / 10);
      assert s[..|s| - 1] == Decimal(n / 10);
    } else {
      assert s[..0] == "";
    }
  }

  lemma {:induction false} ValuePositive(s: string)
    requires Digits(s) && s[0] != '0'
    ensures Value(s) > 0
  {
    if |s| > 1 {
      assert s[..|s| - 1][0] == s[0];
      ValuePositive(s[..|s| - 1]);
    } else {
      assert s[..0] == "";
    }
  }

  /** Without a leading zero there is only one way to write a number. */
  lemma {:induction false} DecimalOfValue(s: string)
    requires Digits(s) && s[0] != '0'
    ensures Decimal(Value(s)) == s
  {
    var init, d := s[..|s| - 1], (s[|s| - 1] - '0') as nat;
    assert Char(d) == s[|s| - 1];
    if |s| == 1 {
      assert init == "";
      assert s == [Char(d)];
    } else {
      assert init[0] == s[0];
      ValuePositive(init);
      DecimalOfValue(init);
      assert Value(s) == Value(init) * 10 + d;
      assert Value(s) / 10 == Value(init) && Value(s) % 10 == d;
      assert s == init + [s[|s| - 1]];
    }
  }
}
