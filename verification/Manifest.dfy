/**
 * The text of an update manifest that gets signed, and a decoder that recovers its fields.
 */
module Manifests {
  import opened Wrappers
  import opened Text
  import opened Versions

  const SIGNED_PREFIX := "lotse-agent-update-v1"

  /** size is a 64-bit integer. The signature is not part of what is signed. */
  datatype Manifest = Manifest(file: string, version: string, size: int, sha256: string)

  predicate FieldOk(f: string) {
    f != "" && '\n' !in f && '\r' !in f
  }

  /** What the source checks before it builds the message; a size fits 64 bits by its type. */
  predicate Signable(m: Manifest) {
    && FieldOk(m.file) && FieldOk(m.version) && FieldOk(m.sha256)
    && IsRelease(m.version) && 0 < m.size <= MAX_INT64
  }

  /** What gets signed; None for a manifest the source refuses. */
  function Message(m: Manifest): Option<string> {
    if Signable(m)
    then
      var end := Decimal(m.size) + "\n" + (m.sha256 + "\n");
      Some(SIGNED_PREFIX + "\n" + (m.file + "\n" + (m.version + "\n" + end)))
    else None
  }

  /** Reads a message back: six lines, the last one empty, the size in its one canonical form. */
  function Decode(b: string): Option<Manifest> {
    var l := Split(b, '\n');
    if |l| != 6 || l[0] != SIGNED_PREFIX || l[5] != "" || !Digits(l[3]) || l[3][0] == '0' then None
    else
      var m := Manifest(l[1], l[2], Value(l[3]), l[4]);
      if Signable(m) then Some(m) else None
  }

  function Lines(m: Manifest): seq<string>
    requires m.size > 0
  {
    [SIGNED_PREFIX, m.file, m.version, Decimal(m.size), m.sha256, ""]
  }

  /** A manifest is refused exactly if a field is empty or breaks its line, or the version or size is none. */
  lemma RefusedIff(m: Manifest)
    ensures Message(m) == None <==>
              || (exists i :: 0 <= i < 3 &&
                    var f := [m.file, m.version, m.sha256][i]; f == "" || '\n' in f || '\r' in f)
              || Parse(m.version) == None || m.size <= 0 || m.size > 0x7FFF_FFFF_FFFF_FFFF
  {
    var fields := [m.file, m.version, m.sha256];
    assert fields[0] == m.file && fields[1] == m.version && fields[2] == m.sha256;
  }

  /** The signed text: one line each for the purpose, the file, the version, the size and the hash. */
  lemma MessageText(m: Manifest)
    requires Signable(m)
    ensures Message(m) == Some(Join(["lotse-agent-update-v1", m.file, m.version, Decimal(m.size), m.sha256, ""], '\n'))
  {
    JoinLines(m);
  }

  lemma JoinLines(m: Manifest)
    requires Signable(m)
    ensures Message(m) == Some(Join(Lines(m), '\n'))
  {
    JoinSix(Lines(m), '\n');
    assert m.sha256 + "\n" + "" == m.sha256 + "\n";
  }

  lemma JoinSix(l: seq<string>, sep: char)
    requires |l| == 6
    ensures Join(l, sep) == l[0] + [sep] + (l[1] + [sep] + (l[2] + [sep] + (l[3] + [sep] + (l[4] + [sep] + l[5]))))
  {
    assert l[4..][1..] == [l[5]] && Join(l[4..], sep) == l[4] + [sep] + l[5];
    assert l[3..][1..] == l[4..] && Join(l[3..], sep) == l[3] + [sep] + Join(l[4..], sep);
    assert l[2..][1..] == l[3..] && Join(l[2..], sep) == l[2] + [sep] + Join(l[3..], sep);
    assert l[1..][1..] == l[2..] && Join(l[1..], sep) == l[1] + [sep] + Join(l[2..], sep);
  }

  lemma NoNewline(m: Manifest)
    requires Signable(m)
    ensures forall i :: 0 <= i < 6 ==> '\n' !in Lines(m)[i]
  {
    PrefixHasNoNewline();
    DigitsHaveNoNewline(Decimal(m.size));
  }

  lemma PrefixHasNoNewline()
    ensures '\n' !in SIGNED_PREFIX
  {
  }

  lemma DigitsHaveNoNewline(d: string)
    requires Digits(d)
    ensures '\n' !in d
  {
  }

  /** The decoder recovers all four fields of what was signed. */
  lemma DecodeMessage(m: Manifest)
    requires Signable(m)
    ensures Decode(Message(m).value) == Some(m)
  {
    JoinLines(m);
    NoNewline(m);
    SplitJoin(Lines(m), '\n');
    ValueOfDecimal(m.size);
  }

  /** And it accepts nothing but messages: what it reads signs to the same bytes. */
  lemma MessageDecode(b: string)
    requires Decode(b).Some?
    ensures Message(Decode(b).value) == Some(b)
  {
    DecodedLines(b);
    JoinSplit(b, '\n');
    JoinLines(Decode(b).value);
  }

  lemma DecodedLines(b: string)
    requires Decode(b).Some?
    ensures Signable(Decode(b).value) && Split(b, '\n') == Lines(Decode(b).value)
  {
    DecimalOfValue(Split(b, '\n')[3]);
  }

  /** Two manifests with the same bytes are the same file, version, size and hash. */
  lemma MessageInjective(m: Manifest, n: Manifest)
    requires Message(m).Some? && Message(m) == Message(n)
    ensures m == n
  {
    DecodeMessage(m);
    DecodeMessage(n);
  }

  // ---- What an agent accepts ----

  const MAX_UPDATE_SIZE: int := 200 * 1024 * 1024

  /** The agent's checks on a manifest whose signature verifies, up to the download. */
  predicate Accepts(m: Manifest, want: string, current: string) {
    Signable(m) && m.file == want && Newer(m.version, current) && m.size <= MAX_UPDATE_SIZE
  }

  /** An agent takes a manifest that can be signed, for its own file, newer, and of at most 200 MiB. */
  lemma AcceptsIff(m: Manifest, want: string, current: string)
    ensures Accepts(m, want, current) <==>
              && Message(m).Some? && m.file == want && !AtOrBelow(m.version, current) && m.size <= 209_715_200
  {
    NewerMeaning(m.version, current);
  }

  /** The versions an agent runs: the installed one, then that of every manifest it accepted. */
  function Running(start: string, ms: seq<Manifest>): seq<string> {
    [start] + seq(|ms|, k requires 0 <= k < |ms| => ms[k].version)
  }

  /** Whatever signed manifests a hub sends and in whatever order, an agent only moves forward. */
  lemma UpdatesOnlyMoveForward(start: string, ms: seq<Manifest>, want: string, i: nat, j: nat)
    requires forall k :: 0 <= k < |ms| ==> Accepts(ms[k], want, Running(start, ms)[k])
    requires i < j <= |ms|
    ensures !AtOrBelow(Running(start, ms)[j], Running(start, ms)[i])
    ensures forall k :: 0 <= k < |ms| ==> ms[k].file == want && 0 < ms[k].size <= 200 * 1024 * 1024
  {
    var newer := (x, y) => Newer(x, y);
    forall k | 0 <= k < |ms| ensures newer(ms[k].version, Running(start, ms)[k]) {
      AcceptedIsNewer(ms[k], want, Running(start, ms)[k]);
    }
    RunningIsChain(newer, start, ms);
    NoDowngrade(Running(start, ms), i, j);
  }

  lemma AcceptedIsNewer(m: Manifest, want: string, current: string)
    requires Accepts(m, want, current)
    ensures Newer(m.version, current)
  {
  }

  lemma RunningIsChain(r: (string, string) -> bool, start: string, ms: seq<Manifest>)
    requires forall k :: 0 <= k < |ms| ==> r(ms[k].version, Running(start, ms)[k])
    ensures IsChain(r, Running(start, ms))
  {
    var chain := Running(start, ms);
    forall a, b | 0 <= a < b < |chain| && b == a + 1 ensures r(chain[b], chain[a]) {
      assert chain[b] == ms[a].version;
    }
  }
}
