/**
 * What texts the version parser accepts, and what it reads from them: an optional "v", three
 * numbers, optional pre-release identifiers, and optional build metadata that is ignored.
 */
module VersionText {
  import opened Wrappers
  import opened Text
  import opened Versions

  /** The versions that can be written down. */
  ghost predicate VersionOk(v: SemVer) {
    && |v.core| == 3 && (forall i :: 0 <= i < 3 ==> 0 <= v.core[i] <= MAX_INT64)
    && (forall i :: 0 <= i < |v.pre| ==> '.' !in v.pre[i] && '+' !in v.pre[i])
    && v.pre != [""]
  }

  function Decimals(core: seq<int>): seq<string>
    requires forall i :: 0 <= i < |core| ==> core[i] >= 0
  {
    seq(|core|, i requires 0 <= i < |core| => Decimal(core[i]))
  }

  function CoreText(v: SemVer): string
    requires |v.core| == 3 && forall i :: 0 <= i < 3 ==> v.core[i] >= 0
  {
    Join(Decimals(v.core), '.')
  }

  function Render(v: SemVer): string
    requires |v.core| == 3 && forall i :: 0 <= i < 3 ==> v.core[i] >= 0
  {
    if v.pre == [] then CoreText(v) else CoreText(v) + "-" + Join(v.pre, '.')
  }

  /** t is v written out, with or without build metadata. */
  ghost predicate Writes(t: string, v: SemVer)
    requires |v.core| == 3 && forall i :: 0 <= i < 3 ==> v.core[i] >= 0
  {
    t == Render(v) || exists meta :: t == Render(v) + "+" + meta
  }

  // ---- From the version to the text ----

  lemma CorePartOfDecimal(n: nat)
    requires n <= MAX_INT64
    ensures CorePart(Decimal(n)) == Some(n)
  {
    var p := Decimal(n);
    ValueOfDecimal(n);
    assert Digit(p[0]);
  }

  lemma {:induction false} CorePartsOfDecimals(core: seq<int>)
    requires forall i :: 0 <= i < |core| ==> 0 <= core[i] <= MAX_INT64
    ensures CoreParts(Decimals(core)) == Some(core)
  {
    if core != [] {
      var init, last := core[..|core| - 1], core[|core| - 1];
      CorePartsOfDecimals(init);
      CorePartOfDecimal(last);
      assert Decimals(core)[..|core| - 1] == Decimals(init);
      assert core == init + [last];
    }
  }

  lemma DigitsLack(s: string, c: char)
    requires Digits(s) && !Digit(c)
    ensures c !in s
  {
  }

  lemma CoreTextLacks(v: SemVer, c: char)
    requires |v.core| == 3 && (forall i :: 0 <= i < 3 ==> v.core[i] >= 0) && !Digit(c) && c != '.'
    ensures c !in CoreText(v)
  {
    forall i | 0 <= i < 3 ensures c !in Decimals(v.core)[i] {
      DigitsLack(Decimal(v.core[i]), c);
    }
    InJoin(Decimals(v.core), '.', c);
  }

  lemma SplitCoreText(v: SemVer)
    requires |v.core| == 3 && forall i :: 0 <= i < 3 ==> v.core[i] >= 0
    ensures Split(CoreText(v), '.') == Decimals(v.core)
  {
    forall i | 0 <= i < 3 ensures '.' !in Decimals(v.core)[i] {
      DigitsLack(Decimal(v.core[i]), '.');
    }
    SplitJoin(Decimals(v.core), '.');
  }

  lemma RenderLacksPlus(v: SemVer)
    requires VersionOk(v)
    ensures '+' !in Render(v)
  {
    CoreTextLacks(v, '+');
    if v.pre != [] {
      InJoin(v.pre, '.', '+');
    }
  }

  lemma {:induction false} JoinEmpty(parts: seq<string>, sep: char)
    requires parts != []
    ensures Join(parts, sep) == "" <==> parts == [""]
  {
  }

  /** The plain part of the text, without build metadata. */
  lemma ParsePlain(v: SemVer)
    requires VersionOk(v)
    ensures Cut(Render(v), '-') == (CoreText(v), if v.pre == [] then "" else Join(v.pre, '.'), v.pre != [])
  {
    CoreTextLacks(v, '-');
    CutAt(CoreText(v), if v.pre == [] then "" else Join(v.pre, '.'), '-');
  }

  lemma ParseWritten(s: string, v: SemVer)
    requires VersionOk(v) && Writes(TrimV(s), v)
    ensures Parse(s) == Some(v)
  {
    RenderLacksPlus(v);
    if TrimV(s) == Render(v) {
      CutAt(Render(v), "", '+');
    } else {
      var meta :| TrimV(s) == Render(v) + "+" + meta;
      CutAt(Render(v), meta, '+');
    }
    assert Cut(TrimV(s), '+').0 == Render(v);
    ParsePlain(v);
    SplitCoreText(v);
    CorePartsOfDecimals(v.core);
    if v.pre != [] {
      JoinEmpty(v.pre, '.');
      SplitJoin(v.pre, '.');
    }
  }

  // ---- From the text to the version ----

  lemma DecimalOfCorePart(p: string)
    requires CorePart(p).Some? && '-' !in p && '+' !in p
    ensures p == Decimal(CorePart(p).value)
  {
    assert p[0] in p;
    if p[0] == '0' {
      assert p == "0" && p[..0] == "";
      assert Value(p) == 0;
    } else {
      DecimalOfValue(p);
    }
  }

  lemma {:induction false} DecimalsOfCoreParts(parts: seq<string>)
    requires CoreParts(parts).Some? && forall i :: 0 <= i < |parts| ==> '-' !in parts[i] && '+' !in parts[i]
    ensures forall i :: 0 <= i < |parts| ==> 0 <= CoreParts(parts).value[i] <= MAX_INT64
    ensures Decimals(CoreParts(parts).value) == parts
  {
    if parts != [] {
      var init, last := parts[..|parts| - 1], parts[|parts| - 1];
      DecimalsOfCoreParts(init);
      DecimalOfCorePart(last);
      var nums, n := CoreParts(init).value, CorePart(last).value;
      assert CoreParts(parts).value == nums + [n];
      DecimalsOne(nums, n);
      assert parts == init + [last];
    }
  }

  lemma DecimalsOne(nums: seq<int>, n: int)
    requires n >= 0 && forall i :: 0 <= i < |nums| ==> nums[i] >= 0
    ensures Decimals(nums + [n]) == Decimals(nums) + [Decimal(n)]
  {
  }

  lemma CoreOfText(core: string)
    requires '-' !in core && '+' !in core && CoreParts(Split(core, '.')).Some?
    ensures var nums := CoreParts(Split(core, '.')).value;
            (forall i :: 0 <= i < |nums| ==> 0 <= nums[i] <= MAX_INT64) && Join(Decimals(nums), '.') == core
  {
    var parts := Split(core, '.');
    JoinSplit(core, '.');
    InJoin(parts, '.', '-');
    InJoin(parts, '.', '+');
    DecimalsOfCoreParts(parts);
  }

  lemma PreOfText(pre: string)
    requires pre != "" && '+' !in pre
    ensures var ids := Split(pre, '.');
            && ids != [] && ids != [""] && Join(ids, '.') == pre
            && forall i :: 0 <= i < |ids| ==> '.' !in ids[i] && '+' !in ids[i]
  {
    JoinSplit(pre, '.');
    InJoin(Split(pre, '.'), '.', '+');
    JoinEmpty(Split(pre, '.'), '.');
  }

  lemma WrittenIfParsed(s: string)
    requires Parse(s).Some?
    ensures VersionOk(Parse(s).value) && Writes(TrimV(s), Parse(s).value)
  {
    var v := Parse(s).value;
    var (plain, meta, hasMeta) := Cut(TrimV(s), '+');
    var (core, pre, hasPre) := Cut(plain, '-');
    CutMeaning(TrimV(s), '+');
    CutMeaning(plain, '-');
    assert '+' !in core && '+' !in pre;
    CoreOfText(core);
    if hasPre {
      PreOfText(pre);
    }
    assert plain == Render(v);
  }

  /**
   * The parser accepts exactly the texts that write a version out, and reads that version; so
   * a version that is written out, with or without "v" and metadata, is read back unchanged.
   */
  lemma ParseMeaning(s: string, v: SemVer)
    ensures Parse(s) == Some(v) <==> VersionOk(v) && Writes(TrimV(s), v)
  {
    if Parse(s) == Some(v) {
      WrittenIfParsed(s);
    }
    if VersionOk(v) && Writes(TrimV(s), v) {
      ParseWritten(s, v);
    }
  }

  /** A different version is written differently. */
  lemma RenderInjective(v: SemVer, w: SemVer)
    requires VersionOk(v) && VersionOk(w) && Render(v) == Render(w)
    ensures v == w
  {
    var s := "v" + Render(v);
    assert TrimV(s) == Render(v);
    ParseWritten(s, v);
    ParseWritten(s, w);
  }
}
