/** Stand-ins for the text utilities the renderer calls but does not define:
    cell-width measurement (utf8_length, utf8_width, utf8_width_max), tab expansion
    (string_expand) and decimal formatting into a fixed buffer (string_format).
    They are given one concrete definition each, with the properties the renderer
    relies on proved about it. Strings are sequences of characters: one element
    stands for one encoded character, so a byte offset is taken as a character
    index; the two agree for single-byte text. */
module Text {
  import opened Types

  /** SIZEOF_STR: the size of the renderer's staging buffers. */
  const SizeofStr: nat := 1024

  /** Characters that take two terminal cells (East Asian wide ranges). */
  predicate IsWide(c: char)
  {
    var u := c as int;
    0x1100 <= u &&
      (u <= 0x115f || u == 0x2329 || u == 0x232a
       || (0x2e80 <= u <= 0xa4cf && u != 0x303f)
       || (0xac00 <= u <= 0xd7a3) || (0xf900 <= u <= 0xfaff)
       || (0xfe30 <= u <= 0xfe6f) || (0xff00 <= u <= 0xff60)
       || (0xffe0 <= u <= 0xffe6) || (0x20000 <= u <= 0x2fffd)
       || (0x30000 <= u <= 0x3fffd))
  }

  /** Cells taken by one character; a tab takes `tab` cells. */
  function CharWidth(c: char, tab: Positive): (w: nat)
    ensures w >= 1
    ensures c == ' ' ==> w == 1
  {
    if c == '\t' then tab else if IsWide(c) then 2 else 1
  }

  /** Cells taken by a whole string. */
  function Width(s: string, tab: Positive): nat
  {
    if s == [] then 0 else Width(s[..|s| - 1], tab) + CharWidth(s[|s| - 1], tab)
  }

  lemma WidthSnoc(s: string, k: nat, tab: Positive)
    requires k < |s|
    ensures Width(s[..k + 1], tab) == Width(s[..k], tab) + CharWidth(s[k], tab)
  {
    assert s[..k + 1][..k] == s[..k];
  }

  lemma {:induction false} WidthMono(s: string, j: nat, k: nat, tab: Positive)
    requires j <= k <= |s|
    ensures Width(s[..j], tab) + (k - j) <= Width(s[..k], tab)
    decreases k
  {
    if j < k {
      WidthMono(s, j, k - 1, tab);
      WidthSnoc(s, k - 1, tab);
    }
  }

  lemma WidthAll(s: string, tab: Positive)
    ensures Width(s[..|s|], tab) == Width(s, tab)
  {
    assert s[..|s|] == s;
  }

  /** A run of `n` blanks. */
  function Spaces(n: nat): (s: string)
    ensures |s| == n
  {
    seq(n, _ => ' ')
  }

  lemma {:induction false} WidthSpaces(n: nat, tab: Positive)
    ensures Width(Spaces(n), tab) == n
  {
    if n > 0 {
      assert Spaces(n)[..n - 1] == Spaces(n - 1);
      WidthSpaces(n - 1, tab);
    }
  }

  lemma WidthSpacesPrefix(n: nat, k: nat, tab: Positive)
    requires k <= n
    ensures Width(Spaces(n)[..k], tab) == k
  {
    assert Spaces(n)[..k] == Spaces(k);
    WidthSpaces(k, tab);
  }

  function FitFrom(s: string, max: int, tab: Positive, k: nat): (r: nat)
    requires k <= |s|
    ensures k <= r <= |s|
    decreases |s| - k
  {
    if k < |s| && Width(s[..k + 1], tab) <= max then FitFrom(s, max, tab, k + 1) else k
  }

  lemma {:induction false} FitFromSpec(s: string, max: int, tab: Positive, k: nat)
    requires k <= |s|
    requires Width(s[..k], tab) <= max
    ensures Width(s[..FitFrom(s, max, tab, k)], tab) <= max
    ensures FitFrom(s, max, tab, k) < |s| ==> Width(s[..FitFrom(s, max, tab, k) + 1], tab) > max
    decreases |s| - k
  {
    if k < |s| && Width(s[..k + 1], tab) <= max {
      FitFromSpec(s, max, tab, k + 1);
    }
  }

  /** The length of the longest prefix of `s` that fits in `max` cells. */
  function Fit(s: string, max: int, tab: Positive): (k: nat)
    ensures k <= |s|
    ensures max >= 0 ==> Width(s[..k], tab) <= max
    ensures k < |s| ==> Width(s[..k + 1], tab) > max
  {
    if max < 0 then
      assert Width(s[..0], tab) == 0;
      if 0 < |s| then WidthSnoc(s, 0, tab); 0 else 0
    else
      assert Width(s[..0], tab) == 0;
      FitFromSpec(s, max, tab, 0);
      FitFrom(s, max, tab, 0)
  }

  /** Everything fits exactly when the whole width fits. */
  lemma FitWhole(s: string, max: int, tab: Positive)
    ensures Width(s, tab) <= max ==> Fit(s, max, tab) == |s|
    ensures Fit(s, max, tab) == |s| && max >= 0 ==> Width(s, tab) <= max
  {
    var k := Fit(s, max, tab);
    WidthAll(s, tab);
    if k < |s| {
      WidthMono(s, k + 1, |s|, tab);
    }
  }

  function SkipFrom(s: string, skip: nat, tab: Positive, j: nat): (r: nat)
    requires j <= |s|
    ensures j <= r <= |s|
    decreases |s| - j
  {
    if j < |s| && Width(s[..j], tab) < skip then SkipFrom(s, skip, tab, j + 1) else j
  }

  /** How many leading characters a horizontal skip of `skip` cells consumes. */
  function SkipCount(s: string, skip: nat, tab: Positive): (j: nat)
    ensures j <= |s|
  {
    SkipFrom(s, skip, tab, 0)
  }

  lemma {:induction false} SkipFromSpaces(n: nat, skip: nat, tab: Positive, j: nat)
    requires j <= n && j <= skip
    ensures SkipFrom(Spaces(n), skip, tab, j) == Min(skip, n)
    decreases n - j
  {
    WidthSpacesPrefix(n, j, tab);
    if j < n && j < skip {
      SkipFromSpaces(n, skip, tab, j + 1);
    }
  }

  /** The reference utf8_length: the longest prefix of `s` that fits in `max` cells;
      with `reserve`, when that prefix fills `max` exactly and more text follows, its
      last character is given up so that a one-cell marker fits; the characters that
      a horizontal skip of `skip` cells consumes are not shown, but their cells count. */
  function Utf8Length(s: string, skip: nat, max: int, reserve: bool, tab: Positive): (c: Clip)
    ensures 0 <= c.width <= (if max < 0 then 0 else max)
    ensures reserve && c.trimmed && max > 0 ==> c.width < max
    ensures max >= 0 ==> (c.trimmed <==> Width(s, tab) > max)
  {
    var k := Fit(s, max, tab);
    FitWhole(s, max, tab);
    var trimmed := k < |s|;
    var k2 := if reserve && trimmed && k > 0 && Width(s[..k], tab) == max then k - 1 else k;
    var start := Min(SkipCount(s, skip, tab), k2);
    assert k2 < k ==> Width(s[..k2], tab) < max by {
      if k2 < k { WidthSnoc(s, k2, tab); }
    }
    assert max < 0 ==> k2 == 0;
    Clip(s[start..k2], Width(s[..k2], tab), trimmed)
  }

  /** Every character takes one cell. */
  predicate UnitWidth(s: string, tab: Positive)
  {
    forall i :: 0 <= i < |s| ==> CharWidth(s[i], tab) == 1
  }

  /** What utf8_length must give for text of single-cell characters. */
  function UnitClip(s: string, skip: nat, max: int, reserve: bool): Clip
  {
    var k := Min(|s|, if max < 0 then 0 else max);
    var trimmed := |s| > max;
    var k2 := if reserve && trimmed && k > 0 then k - 1 else k;
    var start := Min(skip, k2);
    Clip(s[start..k2], k2, trimmed)
  }

  /** The contract of one utf8_length result, for a positive budget `max`: the width
      is within the budget, a reserved cell is kept free when text was cut short,
      text is cut short exactly when it is wider than the budget, text that fits
      with no skip is shown whole, and single-cell text is measured by counting. */
  predicate ClipOk(c: Clip, s: string, skip: nat, max: int, reserve: bool, tab: Positive)
  {
    && 0 <= c.width <= max
    && (reserve && c.trimmed ==> c.width < max)
    && (c.trimmed <==> Width(s, tab) > max)
    && (skip == 0 && Width(s, tab) <= max ==> c == Clip(s, Width(s, tab), false))
    && (UnitWidth(s, tab) ==> c == UnitClip(s, skip, max, reserve))
  }

  /** The contract draw.c relies on from utf8_length. */
  ghost predicate MeasureOk(f: (string, nat, int, bool, Positive) -> Clip)
  {
    forall s, skip, max, reserve, tab {:trigger ClipOk(f(s, skip, max, reserve, tab), s, skip, max, reserve, tab)} :: max > 0 ==> ClipOk(f(s, skip, max, reserve, tab), s, skip, max, reserve, tab)
  }

  /** The contract draw.c relies on from utf8_width_max: never negative, and the
      whole width when the text fits. */
  ghost predicate WidthMaxOk(f: (string, int) -> int, tab: Positive)
  {
    forall s, max :: 0 <= f(s, max) && (Width(s, tab) <= max ==> f(s, max) == Width(s, tab))
  }

  lemma {:induction false} UnitWidthPrefix(s: string, k: nat, tab: Positive)
    requires k <= |s| && UnitWidth(s, tab)
    ensures Width(s[..k], tab) == k
  {
    if k > 0 {
      UnitWidthPrefix(s, k - 1, tab);
      WidthSnoc(s, k - 1, tab);
    }
  }

  lemma {:induction false} UnitSkipFrom(s: string, skip: nat, tab: Positive, j: nat)
    requires UnitWidth(s, tab) && j <= |s| && j <= skip
    ensures SkipFrom(s, skip, tab, j) == Min(skip, |s|)
    decreases |s| - j
  {
    UnitWidthPrefix(s, j, tab);
    if j < |s| && j < skip {
      UnitSkipFrom(s, skip, tab, j + 1);
    }
  }

  /** The reference measurement counts single-cell text. */
  lemma UnitReference(s: string, skip: nat, max: int, reserve: bool, tab: Positive)
    requires max > 0 && UnitWidth(s, tab)
    ensures Utf8Length(s, skip, max, reserve, tab) == UnitClip(s, skip, max, reserve)
  {
    var k := Fit(s, max, tab);
    UnitWidthPrefix(s, k, tab);
    if k < |s| { UnitWidthPrefix(s, k + 1, tab); }
    assert k == Min(|s|, max);
    UnitSkipFrom(s, skip, tab, 0);
    var k2 := if reserve && k < |s| && k > 0 && Width(s[..k], tab) == max then k - 1 else k;
    UnitWidthPrefix(s, k2, tab);
  }

  /** The reference measurement meets the contract, so the contract can be met. */
  lemma ReferenceMeasureOk()
    ensures MeasureOk(Utf8Length)
  {
    forall s, skip, max, reserve, tab | max > 0
      ensures ClipOk(Utf8Length(s, skip, max, reserve, tab), s, skip, max, reserve, tab)
    {
      FitWhole(s, max, tab);
      WidthAll(s, tab);
      if skip == 0 && Width(s, tab) <= max {
        assert SkipCount(s, 0, tab) == 0;
      }
      if UnitWidth(s, tab) {
        UnitReference(s, skip, max, reserve, tab);
      }
    }
  }

  /** The reference utf8_width_max: the cells of the longest prefix that fits in
      `max` cells. */
  function WidthMax(s: string, max: int, tab: Positive): (w: nat)
    ensures w <= (if max < 0 then 0 else max)
    ensures w <= Width(s, tab)
    ensures Width(s, tab) <= max ==> w == Width(s, tab)
  {
    var k := Fit(s, max, tab);
    FitWhole(s, max, tab);
    WidthMono(s, k, |s|, tab);
    WidthAll(s, tab);
    Width(s[..k], tab)
  }

  lemma ReferenceWidthMaxOk(tab: Positive)
    ensures WidthMaxOk((s, max) => WidthMax(s, max, tab), tab)
  {
  }

  function ExpandFrom(src: string, cap: nat, tab: Positive, pos: nat, acc: string): (r: (string, nat))
    requires pos <= |src| && |acc| < cap
    ensures pos <= r.1 <= |src|
    ensures |acc| <= |r.0| < cap
    ensures pos < |src| && |acc| + 1 < cap ==> r.1 > pos
    decreases |src| - pos
  {
    if pos == |src| || |acc| + 1 >= cap then (acc, pos)
    else if src[pos] == '\t' then
      var n := tab - |acc| % tab;
      var fill := Min(n, cap - 1 - |acc|);
      ExpandFrom(src, cap, tab, pos + 1, acc + Spaces(fill))
    else
      ExpandFrom(src, cap, tab, pos + 1, acc + [src[pos]])
  }

  /** string_expand: copies `src` into a buffer of `cap` bytes, turning each tab into
      blanks up to the next tab stop; gives the expanded text and how many source
      characters it consumed. */
  function Expand(src: string, cap: nat, tab: Positive): (r: (string, nat))
    requires cap >= 2
    ensures r.1 <= |src| && |r.0| < cap
    ensures |src| > 0 ==> r.1 > 0
  {
    ExpandFrom(src, cap, tab, 0, [])
  }

  function DigitChar(d: nat): char
    requires d < 10
  {
    (('0' as int) + d) as char
  }

  predicate IsDigit(c: char) { '0' <= c <= '9' }

  function NatDecimal(n: nat): (s: string)
    ensures |s| >= 1
    ensures forall i :: 0 <= i < |s| ==> IsDigit(s[i])
  {
    if n < 10 then [DigitChar(n)] else NatDecimal(n / 10) + [DigitChar(n % 10)]
  }

  function Pow10(k: nat): (r: nat)
    ensures r >= 1
  {
    if k == 0 then 1 else 10 * Pow10(k - 1)
  }

  /** A number below `10^k` takes at most `k` digits. */
  lemma {:induction false} NatDecimalLength(n: nat, k: nat)
    requires 1 <= k && n < Pow10(k)
    ensures |NatDecimal(n)| <= k
    decreases k
  {
    if n >= 10 {
      NatDecimalLength(n / 10, k - 1);
    }
  }

  function DigitValue(c: char): nat
    requires IsDigit(c)
  {
    (c as int) - ('0' as int)
  }

  lemma Pow10Nine()
    ensures Pow10(9) == 1_000_000_000
  {
    assert Pow10(3) == 1000;
    assert Pow10(6) == 1000 * Pow10(3) by {
      assert Pow10(6) == 10 * Pow10(5) == 100 * Pow10(4) == 1000 * Pow10(3);
    }
    assert Pow10(9) == 1000 * Pow10(6) by {
      assert Pow10(9) == 10 * Pow10(8) == 100 * Pow10(7) == 1000 * Pow10(6);
    }
  }

  /** Digits and blanks take one cell each. */
  lemma DecimalUnitWidth(s: string, tab: Positive)
    requires forall i :: 0 <= i < |s| ==> IsDigit(s[i]) || s[i] == ' '
    ensures UnitWidth(s, tab) && Width(s, tab) == |s|
  {
    forall i | 0 <= i < |s| ensures CharWidth(s[i], tab) == 1 {
      assert !IsWide(s[i]);
    }
    UnitWidthPrefix(s, |s|, tab);
    WidthAll(s, tab);
  }

  /** The value of a run of decimal digits. */
  function DecimalValue(s: string): nat
    requires forall i :: 0 <= i < |s| ==> IsDigit(s[i])
  {
    if s == [] then 0 else 10 * DecimalValue(s[..|s| - 1]) + DigitValue(s[|s| - 1])
  }

  /** Reading the digits back gives the number. */
  lemma {:induction false} NatDecimalValue(n: nat)
    ensures DecimalValue(NatDecimal(n)) == n
  {
    if n >= 10 {
      var s := NatDecimal(n);
      assert s[..|s| - 1] == NatDecimal(n / 10);
      NatDecimalValue(n / 10);
    }
  }

  function IntDecimal(v: int): (s: string)
    ensures |s| >= 1
  {
    if v < 0 then "-" + NatDecimal(-v) else NatDecimal(v)
  }

  /** Right-aligns `s` in a field of at least `w` characters. */
  function PadLeft(s: string, w: int): (r: string)
    ensures |r| == if |s| >= w then |s| else w
    ensures r[|r| - |s|..] == s
    ensures forall i :: 0 <= i < |r| - |s| ==> r[i] == ' '
  {
    if |s| >= w then s else Spaces(w - |s|) + s
  }

  /** string_format(buf, "%<w>d", v) into a `size`-byte buffer: the text, or None
      when it does not fit with its terminator. */
  function FormatInt(v: int, w: int, size: nat): (r: Option<string>)
    ensures r.Some? ==> |r.value| < size && |r.value| >= 1
  {
    var s := PadLeft(IntDecimal(v), w);
    if |s| < size then Some(s) else None
  }
}
