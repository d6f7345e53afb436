/**
 * Bytes, UTF-8 and the hold-back of incomplete characters.
 *
 * `Size`, `Lowest`, `Highest`, `RuneStart` and `FullRune` follow Go's unicode/utf8 tables.
 * `IsChar` and `WellFormed` follow the grammar in section 4 of RFC 3629 and do not
 * mention them; the lemmas below connect the two.
 */
module Utf8 {

  newtype Byte = x: int | 0 <= x < 0x100

  const UTF_MAX: int := 4

  // ---- Go's view ----

  /** A byte that is not a continuation byte. */
  predicate RuneStart(b: Byte) {
    !(0x80 <= b < 0xC0)
  }

  /** The encoded length announced by a first byte; 1 for bytes that start nothing. */
  function Size(b: Byte): int {
    if b < 0xC2 then 1 else if b < 0xE0 then 2 else if b < 0xF0 then 3 else if b < 0xF5 then 4 else 1
  }

  function Lowest(b: Byte): Byte {
    if b == 0xE0 then 0xA0 else if b == 0xF0 then 0x90 else 0x80
  }

  function Highest(b: Byte): Byte {
    if b == 0xED then 0x9F else if b == 0xF4 then 0x8F else 0xBF
  }

  /** Whether p begins with a full encoding; an invalid beginning counts as full. */
  predicate FullRune(p: seq<Byte>) {
    |p| > 0 &&
    (|p| >= Size(p[0]) ||
     (|p| > 1 && !(Lowest(p[0]) <= p[1] <= Highest(p[0]))) ||
     (|p| > 2 && !(0x80 <= p[2] <= 0xBF)))
  }

  // ---- RFC 3629 ----

  predicate Tail(b: Byte) {
    0x80 <= b <= 0xBF
  }

  /** UTF8-char in section 4 of RFC 3629. */
  predicate IsChar(c: seq<Byte>) {
    || (|c| == 1 && c[0] <= 0x7F)
    || (|c| == 2 && 0xC2 <= c[0] <= 0xDF && Tail(c[1]))
    || (|c| == 3 && Tail(c[2]) &&
        (|| (c[0] == 0xE0 && 0xA0 <= c[1] <= 0xBF)
         || (0xE1 <= c[0] <= 0xEC && Tail(c[1]))
         || (c[0] == 0xED && 0x80 <= c[1] <= 0x9F)
         || (0xEE <= c[0] <= 0xEF && Tail(c[1]))))
    || (|c| == 4 && Tail(c[2]) && Tail(c[3]) &&
        (|| (c[0] == 0xF0 && 0x90 <= c[1] <= 0xBF)
         || (0xF1 <= c[0] <= 0xF3 && Tail(c[1]))
         || (c[0] == 0xF4 && 0x80 <= c[1] <= 0x8F)))
  }

  /** The grammar leaves no choice: a character is as long as its first byte announces. */
  lemma CharLength(c: seq<Byte>)
    requires IsChar(c)
    ensures |c| == Size(c[0]) && RuneStart(c[0])
    ensures forall j :: 1 <= j < |c| ==> !RuneStart(c[j])
  {
  }

  /** A character that has begun and is not finished. */
  ghost predicate IsCut(p: seq<Byte>) {
    p != [] && exists c :: IsChar(c) && p < c
  }

  /** Go's FullRune says no exactly for a character that can still be finished, whatever the bytes. */
  lemma FullRuneMeaning(p: seq<Byte>)
    requires p != []
    ensures FullRune(p) <==> !IsCut(p)
  {
    if !FullRune(p) {
      var c := Completion(p);
      assert IsChar(c) && p < c;
    }
    if c :| IsChar(c) && p < c {
      CharLength(c);
    }
  }

  /** The character with the lowest bytes that begins with p. */
  function Completion(p: seq<Byte>): (c: seq<Byte>)
    requires p != [] && !FullRune(p)
    ensures IsChar(c) && p < c
  {
    var rest: seq<Byte> := [Lowest(p[0]), 0x80, 0x80];
    p + rest[|p| - 1..Size(p[0]) - 1]
  }

  /** Go's RuneStart says no exactly for the bytes that follow the first one of some character. */
  lemma RuneStartMeaning(b: Byte)
    ensures RuneStart(b) <==> forall c, j :: IsChar(c) && 1 <= j < |c| ==> c[j] != b
  {
    if RuneStart(b) {
      forall c, j | IsChar(c) && 1 <= j < |c| ensures c[j] != b {
        CharLength(c);
      }
    } else {
      var c: seq<Byte> := [0xC2, b];
      assert IsChar(c) && c[1] == b;
    }
  }

  /** UTF8-octets: any number of characters, one after the other. */
  ghost predicate WellFormed(s: seq<Byte>) {
    s == [] || (Size(s[0]) <= |s| && IsChar(s[..Size(s[0])]) && WellFormed(s[Size(s[0])..]))
  }

  /** The beginning of some well-formed text, possibly cut inside a character. */
  ghost predicate Beginning(s: seq<Byte>) {
    exists rest :: WellFormed(s + rest)
  }

  lemma FirstChar(w: seq<Byte>) returns (n: int)
    requires WellFormed(w) && w != []
    ensures n == Size(w[0]) && 1 <= n <= 4 && n <= |w|
    ensures IsChar(w[..n]) && WellFormed(w[n..])
    ensures RuneStart(w[0])
    ensures forall j :: 1 <= j < n ==> !RuneStart(w[j])
  {
    n := Size(w[0]);
    var c := w[..n];
    CharLength(c);
    assert forall j :: 0 <= j < n ==> c[j] == w[j];
  }

  lemma Prepend(c: seq<Byte>, s: seq<Byte>)
    requires IsChar(c) && WellFormed(s)
    ensures WellFormed(c + s)
  {
    CharLength(c);
    assert (c + s)[..|c|] == c && (c + s)[|c|..] == s;
  }

  lemma FirstCharOfPrefix(s: seq<Byte>, rest: seq<Byte>)
    requires s != [] && WellFormed(s + rest) && Size(s[0]) <= |s|
    ensures IsChar(s[..Size(s[0])]) && WellFormed(s[Size(s[0])..] + rest)
  {
    var n := Size(s[0]);
    assert (s + rest)[..n] == s[..n] && (s + rest)[n..] == s[n..] + rest;
  }

  lemma SplitPrefix<T>(w: seq<T>, n: int, i: int)
    requires 0 <= n <= i <= |w|
    ensures w[..i] == w[..n] + w[n..][..i - n]
  {
  }

  /** Characters are decoded one way only: a whole-character prefix can be taken off. */
  lemma {:induction false} Cancel(a: seq<Byte>, b: seq<Byte>)
    requires WellFormed(a) && WellFormed(a + b)
    ensures WellFormed(b)
  {
    if a == [] {
      assert a + b == b;
    } else {
      FirstCharOfPrefix(a, b);
      Cancel(a[Size(a[0])..], b);
    }
  }

  /** In well-formed text a byte starts a character exactly when Go's RuneStart says so. */
  lemma {:induction false} BoundaryIffRuneStart(w: seq<Byte>, i: int)
    requires WellFormed(w) && 0 <= i < |w|
    ensures RuneStart(w[i]) <==> WellFormed(w[..i])
  {
    if i > 0 {
      var n := FirstChar(w);
      if i < n {
        if WellFormed(w[..i]) {
          var m := FirstChar(w[..i]);
        }
      } else {
        BoundaryIffRuneStart(w[n..], i - n);
        assert w[n..][i - n] == w[i];
        SplitPrefix(w, n, i);
        if WellFormed(w[n..][..i - n]) {
          Prepend(w[..n], w[n..][..i - n]);
        }
        if WellFormed(w[..i]) {
          var m := FirstChar(w[..i]);
          assert w[..i][n..] == w[n..][..i - n];
        }
      }
    }
  }

  /** What lies between two character boundaries is whole characters. */
  lemma BetweenBoundaries(s: seq<Byte>, i: int, j: int)
    requires 0 <= i <= j <= |s| && WellFormed(s[..i]) && WellFormed(s[..j])
    ensures WellFormed(s[i..j])
  {
    assert s[..j] == s[..i] + s[i..j];
    Cancel(s[..i], s[i..j]);
  }

  /** Any four bytes in a row of well-formed text contain the start of a character. */
  lemma {:induction false} StartWithinFour(w: seq<Byte>, i: int) returns (j: int)
    requires WellFormed(w) && 0 <= i && i + 4 <= |w|
    ensures i <= j < i + 4 && RuneStart(w[j])
  {
    var n := FirstChar(w);
    if i == 0 {
      j := 0;
    } else if i < n {
      var m := FirstChar(w[n..]);
      j := n;
    } else {
      j := StartWithinFour(w[n..], i - n);
      assert w[n..][j] == w[j + n];
      j := j + n;
    }
  }

  // ---- Holding back an incomplete character ----

  /** An incomplete character begins at i: the last character start of b, not yet full. */
  ghost predicate HeldAt(b: seq<Byte>, i: int) {
    0 <= i < |b| && RuneStart(b[i]) && !FullRune(b[i..]) &&
    forall j :: i < j < |b| ==> !RuneStart(b[j])
  }

  /** How much of b can be shown: all of it, or up to the incomplete character at its end. */
  ghost function Complete(b: seq<Byte>): (n: int)
    ensures 0 <= n <= |b|
  {
    if i :| HeldAt(b, i) then i else |b|
  }

  /** The cut is at the incomplete character at the end, if there is one: at most three bytes. */
  lemma CompleteMeaning(b: seq<Byte>)
    ensures Complete(b) < |b| ==> HeldAt(b, Complete(b)) && |b| - Complete(b) <= 3
    ensures Complete(b) == |b| ==> forall i :: !HeldAt(b, i)
  {
  }

  lemma CompleteIs(b: seq<Byte>, i: int)
    requires HeldAt(b, i)
    ensures Complete(b) == i
  {
  }

  /** An incomplete character begins at i exactly if the rest of b is a cut character. */
  lemma HeldIffCut(b: seq<Byte>, i: int)
    requires 0 <= i < |b|
    ensures HeldAt(b, i) <==> IsCut(b[i..])
  {
    FullRuneMeaning(b[i..]);
    if IsCut(b[i..]) {
      var c :| IsChar(c) && b[i..] < c;
      CharLength(c);
      forall j | i <= j < |b| ensures b[j] == c[j - i] {
        assert b[i..][j - i] == b[j];
      }
    }
  }

  /**
   * For arbitrary bytes: something is held back exactly if b ends in a cut character, and the
   * cut is where that begins.
   */
  lemma CompleteExactly(b: seq<Byte>)
    ensures Complete(b) < |b| ==> IsCut(b[Complete(b)..])
    ensures forall i :: 0 <= i < |b| && IsCut(b[i..]) ==> Complete(b) == i
  {
    CompleteMeaning(b);
    if Complete(b) < |b| {
      HeldIffCut(b, Complete(b));
    }
    forall i | 0 <= i < |b| && IsCut(b[i..]) ensures Complete(b) == i {
      HeldIffCut(b, i);
      CompleteIs(b, i);
    }
  }

  /** The source's backward scan over the last four bytes. */
  method CompleteUTF8(b: seq<Byte>) returns (n: int)
    ensures n == Complete(b)
    ensures 0 <= n <= |b| && (n < |b| ==> IsCut(b[n..]))
    ensures forall i :: 0 <= i < |b| && IsCut(b[i..]) ==> n == i
  {
    CompleteMeaning(b);
    CompleteExactly(b);
    var i := |b| - 1;
    while i >= 0 && i >= |b| - UTF_MAX
      invariant -1 <= i < |b| && i >= |b| - UTF_MAX - 1
      invariant forall j :: i < j < |b| ==> !RuneStart(b[j])
    {
      if RuneStart(b[i]) {
        if FullRune(b[i..]) {
          assert forall j :: !HeldAt(b, j);
          return |b|;
        }
        CompleteIs(b, i);
        return i;
      }
      i := i - 1;
    }
    return |b|;
  }

  /** Once enough bytes to decide have arrived, more bytes do not change the answer. */
  lemma FullRuneGrows(p: seq<Byte>, q: seq<Byte>)
    requires FullRune(p)
    ensures FullRune(p + q)
  {
  }

  /**
   * Scanning only the held-back bytes and the new chunk gives the same cut as scanning
   * the whole stream, for arbitrary bytes.
   */
  lemma ChunkingStep(s: seq<Byte>, p: seq<Byte>)
    ensures Complete(s) + Complete(s[Complete(s)..] + p) == Complete(s + p)
  {
    var k := Complete(s);
    var live := s[k..] + p;
    var n := Complete(live);
    var m := Complete(s + p);
    CompleteMeaning(s);
    CompleteMeaning(live);
    CompleteMeaning(s + p);
    if n < |live| {
      HeldShift(s, p, k, k + n);
    } else if m < |s + p| {
      if m < k {
        HeldInPrefix(s, p, m);
      } else {
        HeldShift(s, p, k, m);
      }
    }
  }

  lemma HeldShift(s: seq<Byte>, p: seq<Byte>, k: int, i: int)
    requires 0 <= k <= |s| && k <= i < |s + p|
    ensures HeldAt(s + p, i) <==> HeldAt(s[k..] + p, i - k)
  {
    var live := s[k..] + p;
    assert (s + p)[i..] == live[i - k..];
    assert forall j :: k <= j < |s + p| ==> (s + p)[j] == live[j - k];
    assert forall j :: 0 <= j < |live| ==> live[j] == (s + p)[j + k];
  }

  lemma HeldInPrefix(s: seq<Byte>, p: seq<Byte>, i: int)
    requires 0 <= i < |s| && HeldAt(s + p, i)
    ensures HeldAt(s, i)
  {
    assert (s + p)[i..] == s[i..] + p;
    if FullRune(s[i..]) {
      FullRuneGrows(s[i..], p);
    }
    assert forall j :: 0 <= j < |s| ==> s[j] == (s + p)[j];
  }

  /** In the beginning of well-formed text, exactly the cut-off character is held back. */
  lemma {:induction false} CompleteIsBoundary(s: seq<Byte>, rest: seq<Byte>)
    requires WellFormed(s + rest)
    ensures WellFormed(s[..Complete(s)])
    decreases |s|
  {
    if s != [] {
      var n := FirstChar(s + rest);
      if |s| < n {
        assert (s + rest)[..n][..|s|] == s;
        CutCharIsHeld((s + rest)[..n], |s|);
      } else {
        FirstCharOfPrefix(s, rest);
        CompleteIsBoundary(s[n..], rest);
        SkipChar(s, n);
      }
    }
  }

  /** Nothing is held back that could be shown: the cut is the last character boundary. */
  lemma CompleteIsLastBoundary(s: seq<Byte>, rest: seq<Byte>, j: int)
    requires WellFormed(s + rest) && 0 <= j <= |s| && WellFormed(s[..j])
    ensures j <= Complete(s)
  {
    if j == |s| {
      assert s[..j] == s;
      WholeIsComplete(s);
    } else {
      CompleteMeaning(s);
      assert (s + rest)[..j] == s[..j];
      BoundaryIffRuneStart(s + rest, j);
    }
  }

  lemma {:induction false} WholeIsComplete(s: seq<Byte>)
    requires WellFormed(s)
    ensures Complete(s) == |s|
  {
    if s != [] {
      var n := FirstChar(s);
      WholeIsComplete(s[n..]);
      assert s == s[..n] + s[n..];
      CompleteAfterChar(s[..n], s[n..]);
    }
  }

  lemma SkipChar(s: seq<Byte>, n: int)
    requires 0 <= n <= |s| && IsChar(s[..n])
    requires WellFormed(s[n..][..Complete(s[n..])])
    ensures WellFormed(s[..Complete(s)])
  {
    var k := Complete(s[n..]);
    assert s == s[..n] + s[n..];
    CompleteAfterChar(s[..n], s[n..]);
    SplitPrefix(s, n, n + k);
    Prepend(s[..n], s[n..][..k]);
  }

  lemma CompleteAfterChar(c: seq<Byte>, rest: seq<Byte>)
    requires IsChar(c)
    ensures Complete(c + rest) == |c| + Complete(rest)
  {
    CharIsComplete(c);
    ChunkingStep(c, rest);
    assert c[|c|..] + rest == rest;
  }

  lemma CutCharIsHeld(c: seq<Byte>, m: int)
    requires IsChar(c) && 0 < m < |c|
    ensures Complete(c[..m]) == 0
  {
    CharLength(c);
    var b := c[..m];
    CompleteMeaning(b);
    assert b[0..] == b;
    assert HeldAt(b, 0);
  }

  lemma CharIsComplete(c: seq<Byte>)
    requires IsChar(c)
    ensures Complete(c) == |c|
  {
    CharLength(c);
    CompleteMeaning(c);
    assert c[0..] == c;
  }
}
