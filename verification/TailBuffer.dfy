/**
 * The ring that keeps the newest bytes of a script's output.
 */
module TailBuffers {
  import opened Utf8

  /** The last min(|s|, max) bytes of s. */
  function Last(s: seq<Byte>, max: nat): seq<Byte> {
    if |s| <= max then s else s[|s| - max..]
  }

  /** How many bytes the loop in Bytes skips to start on a character; 0 if none starts early. */
  function Skip(out: seq<Byte>, i: nat): (k: nat)
    requires i <= |out|
    ensures k <= |out|
    decreases |out| - i
  {
    if i >= |out| || i >= UTF_MAX then 0 else if RuneStart(out[i]) then i else Skip(out, i + 1)
  }

  /** What is visible of a stream: its end, from a character start once older bytes are gone. */
  function Visible(stream: seq<Byte>, max: nat): (out: seq<Byte>)
    ensures |out| <= |stream|
  {
    var kept := Last(stream, max);
    if |stream| <= max then stream else kept[Skip(kept, 0)..]
  }

  lemma VisibleIsSuffix(stream: seq<Byte>, max: nat)
    ensures var out := Visible(stream, max); out == stream[|stream| - |out|..]
  {
  }

  /** The first character start among the first four bytes, if there is one. */
  lemma {:induction false} SkipMeaning(out: seq<Byte>, i: nat)
    requires i <= |out| && forall j :: 0 <= j < i ==> !RuneStart(out[j])
    ensures var k := Skip(out, i);
            if k < |out| && k < 4 && RuneStart(out[k])
            then forall j :: 0 <= j < k ==> !RuneStart(out[j])
            else k == 0 && forall j :: 0 <= j < |out| && j < 4 ==> !RuneStart(out[j])
    decreases |out| - i
  {
    if i < |out| && i < UTF_MAX && !RuneStart(out[i]) {
      SkipMeaning(out, i + 1);
    }
  }

  /**
   * All of a stream that fits is visible. Of a longer one, the last max bytes are, without up to
   * three bytes at their front that follow the first byte of a character that is gone.
   */
  lemma VisibleMeaning(stream: seq<Byte>, max: nat)
    ensures var out := Visible(stream, max);
            if |stream| <= max then out == stream
            else
              && max - 3 <= |out| <= max && out == stream[|stream| - |out|..]
              && (forall i :: |stream| - max <= i < |stream| - |out| ==> !RuneStart(stream[i]))
              && (|out| > 0 && !RuneStart(out[0]) ==>
                    |out| == max && forall i :: 0 <= i < 4 && i < max ==> !RuneStart(out[i]))
  {
    if |stream| > max {
      var kept := stream[|stream| - max..];
      SkippedMeaning(kept);
      VisibleIsSuffix(stream, max);
      forall i | |stream| - max <= i < |stream| - |Visible(stream, max)| ensures !RuneStart(stream[i]) {
        assert stream[i] == kept[i - (|stream| - max)];
      }
    }
  }

  /** What is left of a full buffer after the bytes that follow a first byte that is gone. */
  lemma SkippedMeaning(kept: seq<Byte>)
    ensures var k := Skip(kept, 0);
            && k <= 3 && k <= |kept| && (forall i :: 0 <= i < k ==> !RuneStart(kept[i]))
            && (k < |kept| && !RuneStart(kept[k]) ==>
                  k == 0 && forall i :: 0 <= i < 4 && i < |kept| ==> !RuneStart(kept[i]))
  {
    SkipMeaning(kept, 0);
  }

  /**
   * For the beginning of well-formed text and a buffer of at least one character, what is
   * visible is the longest kept suffix that starts on a character.
   */
  lemma VisibleStartsOnCharacter(stream: seq<Byte>, rest: seq<Byte>, max: nat)
    requires WellFormed(stream + rest) && max >= UTF_MAX
    ensures WellFormed(stream[..|stream| - |Visible(stream, max)|])
    ensures forall i :: |stream| - |Last(stream, max)| <= i < |stream| - |Visible(stream, max)|
              ==> !WellFormed(stream[..i])
  {
    var out := Visible(stream, max);
    if |stream| > max {
      var kept := Last(stream, max);
      var from := |stream| - max;
      SkipMeaning(kept, 0);
      var j := StartWithinFour(stream + rest, from);
      assert kept[j - from] == (stream + rest)[j];
      assert |stream| - |out| == from + (|kept| - |out|);
      forall i | from <= i < |stream|
        ensures RuneStart(kept[i - from]) <==> WellFormed(stream[..i])
      {
        BoundaryIffRuneStart(stream + rest, i);
        assert (stream + rest)[..i] == stream[..i];
      }
    } else {
      assert stream[..0] == [];
    }
  }

  class TailBuffer {
    const max: nat
    var buf: seq<Byte>
    var start: nat
    var dropped: bool
    ghost var stream: seq<Byte> // everything ever written

    ghost predicate Valid()
      reads this
    {
      && |buf| <= max
      && (|buf| < max ==> start == 0)
      && (if max == 0 then start == 0 else start < max)
      && start <= |buf|
      && Unroll(buf, start) == Last(stream, max)
      && (dropped <==> |stream| > max)
    }

    constructor (max: nat)
      ensures Valid() && this.max == max && stream == []
    {
      this.max := max;
      buf, start, dropped, stream := [], 0, false, [];
    }

    method Write(p: seq<Byte>)
      requires Valid()
      modifies this
      ensures Valid() && stream == old(stream) + p
    {
      if |p| >= max {
        Replace(p);
        return;
      }
      var n := Fill(p);
      OverwriteOldest(p[n..]);
      MoveOver(old(stream), p, n);
    }

    /** A chunk as large as the buffer leaves nothing of what was there before. */
    method Replace(p: seq<Byte>)
      requires Valid() && |p| >= max
      modifies this
      ensures Valid() && stream == old(stream) + p
    {
      assert |buf| == |Last(stream, max)| by {
        assert |Unroll(buf, start)| == |buf|;
      }
      dropped := dropped || |buf| > 0 || |p| > max;
      var kept := p[|p| - max..];
      ReplaceKeepsLast(p, stream, max);
      stream := stream + p;
      buf, start := kept, 0;
    }

    /** The first half of Write: as much as still fits, which is everything unless the buffer is full then. */
    method Fill(p: seq<Byte>) returns (n: nat)
      requires Valid() && |p| < max
      modifies this
      ensures n <= |p| && Valid() && stream == old(stream) + p[..n] && (n < |p| ==> |buf| == max)
    {
      n := if max - |buf| < |p| then max - |buf| else |p|;
      if n > 0 {
        FillKeepsLast(buf, p[..n], stream, max);
        buf := buf + p[..n];
        stream := stream + p[..n];
      }
    }

    /** The second half of Write, once the buffer is full. */
    method OverwriteOldest(q: seq<Byte>)
      requires Valid() && |q| < max && (q != [] ==> |buf| == max)
      modifies this
      ensures Valid() && stream == old(stream) + q
    {
      var p := q;
      while |p| > 0
        invariant Valid() && |p| < max && (p != [] ==> |buf| == max)
        invariant stream + p == old(stream) + q
      {
        dropped := true;
        var n := if max - start < |p| then max - start else |p|;
        OverwriteKeepsLast(buf, start, p[..n], stream);
        MoveOver(stream, p, n);
        var (buf2, start2) := Overwritten(buf, start, p[..n]);
        buf, start := buf2, start2;
        stream := stream + p[..n];
        p := p[n..];
      }
    }

    method Bytes() returns (out: seq<Byte>)
      requires Valid()
      ensures out == Visible(stream, max)
    {
      var all := Unroll(buf, start);
      out := all;
      if dropped {
        var i := 0;
        while i < |all| && i < UTF_MAX
          invariant 0 <= i <= |all|
          invariant Skip(all, 0) == Skip(all, i)
        {
          if RuneStart(all[i]) {
            return all[i..];
          }
          i := i + 1;
        }
      }
    }
  }

  /** The ring after q is copied over its oldest bytes, and where its oldest byte is then. */
  function Overwritten(buf: seq<Byte>, start: nat, q: seq<Byte>): (r: (seq<Byte>, nat))
    requires start < |buf| && start + |q| <= |buf|
    ensures |r.0| == |buf| && r.1 < |buf|
  {
    (buf[..start] + q + buf[start + |q|..], (start + |q|) % |buf|)
  }

  function Unroll(buf: seq<Byte>, start: nat): (r: seq<Byte>)
    requires start <= |buf|
    ensures |r| == |buf|
  {
    buf[start..] + buf[..start]
  }

  /** Overwriting in place appends to the unrolled contents and drops as much at the front. */
  lemma OverwriteAppends(buf: seq<Byte>, start: nat, q: seq<Byte>)
    requires start < |buf| && start + |q| <= |buf|
    ensures var (buf2, start2) := Overwritten(buf, start, q);
            Unroll(buf2, start2) == Unroll(buf, start)[|q|..] + q
  {
    var head, tail := buf[..start], buf[start + |q|..];
    DropFront(buf[start..], head, |q|);
    assert buf[start..][|q|..] == tail;
    if start + |q| == |buf| {
      assert tail == [] && (start + |q|) % |buf| == 0;
      assert Overwritten(buf, start, q) == (head + q + [], 0);
      Rotate([], head + q);
      assert [] + (head + q) == head + q + [];
    } else {
      assert Overwritten(buf, start, q) == (head + q + tail, |head + q|);
      Rotate(head + q, tail);
      assert tail + (head + q) == tail + head + q;
    }
  }

  lemma OverwriteKeepsLast(buf: seq<Byte>, start: nat, q: seq<Byte>, done: seq<Byte>)
    requires start < |buf| && start + |q| <= |buf|
    requires Unroll(buf, start) == Last(done, |buf|)
    ensures var (buf2, start2) := Overwritten(buf, start, q);
            Unroll(buf2, start2) == Last(done + q, |buf|)
    ensures |done| >= |buf|
  {
    assert |Unroll(buf, start)| == |buf|;
    OverwriteAppends(buf, start, q);
    LastAppend(done, q, |buf|);
  }

  lemma ReplaceKeepsLast(p: seq<Byte>, done: seq<Byte>, max: nat)
    requires |p| >= max
    ensures Unroll(p[|p| - max..], 0) == Last(done + p, max)
  {
    Rotate([], p[|p| - max..]);
    if |done + p| > max {
      assert (done + p)[|done + p| - max..] == p[|p| - max..];
    }
  }

  lemma FillKeepsLast(buf: seq<Byte>, q: seq<Byte>, done: seq<Byte>, max: nat)
    requires |buf| + |q| <= max && |buf| < max && Unroll(buf, 0) == Last(done, max)
    ensures |done| < max && Unroll(buf + q, 0) == Last(done + q, max)
  {
    Rotate([], buf);
    Rotate([], buf + q);
  }

  lemma Rotate(a: seq<Byte>, b: seq<Byte>)
    ensures Unroll(a + b, |a|) == b + a
    ensures Unroll(b, 0) == b
  {
  }

  lemma DropFront(a: seq<Byte>, b: seq<Byte>, n: nat)
    requires n <= |a|
    ensures (a + b)[n..] == a[n..] + b
  {
  }

  lemma MoveOver(done: seq<Byte>, p: seq<Byte>, n: nat)
    requires n <= |p|
    ensures (done + p[..n]) + p[n..] == done + p
  {
  }

  lemma LastAppend(done: seq<Byte>, q: seq<Byte>, max: nat)
    requires |q| <= max <= |done|
    ensures Last(done + q, max) == Last(done, max)[|q|..] + q
  {
  }
}
