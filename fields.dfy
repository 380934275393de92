/** The fixed-stride field writer of draw.c and the column renderers built on it:
    date, author, id, file name, file size, mode, line number and the ref list. */
module Fields {
  import opened Types
  import opened Text
  import opened Cells

  datatype Align = AlignLeft | AlignRight

  /** The second half of draw_field, once any left pad is drawn: the content in at
      most `max - 1` cells, then blanks up to `max` cells past `col0`. */
  function FieldBody(e: Env, p: Pen, t: LineType, s: string, max: int, col0: int, trim: bool): Drawn
  {
    var d := DrawChars(e, p, t, s, max - 1, trim);
    if d.exhausted then d
    else DrawSpace(e, d.pen, LineDefault, max - (d.pen.col - col0), max)
  }

  /** The right-aligned case of draw_field: a left pad of `max - textlen - 1` blanks
      when that is positive, then the content in the rest of the field. */
  function RightField(e: Env, p: Pen, t: LineType, s: string, max: int, trim: bool): Drawn
  {
    var leftpad := max - e.g.ext.widthMax(s, max) - 1;
    if leftpad > 0 then PaddedField(e, p, t, s, max, leftpad, trim)
    else FieldBody(e, p, t, s, max, p.col, trim)
  }

  /** The left pad, then the content in the remaining `max - leftpad` cells. */
  function PaddedField(e: Env, p: Pen, t: LineType, s: string, max: int, leftpad: int, trim: bool): Drawn
  {
    var d := DrawSpace(e, p, t, leftpad, leftpad);
    if d.exhausted then d
    else FieldBody(e, d.pen, t, s, max - leftpad, p.col + leftpad, trim)
  }

  /** draw_field: a field of `width` cells plus one separating blank, capped by the
      budget; no text means blanks only, and right alignment pads on the left. */
  function DrawField(e: Env, p: Pen, t: LineType, text: Option<string>, width: int, align: Align, trim: bool): Drawn
  {
    var max := UMin(MaxLen(e, p), width + 1);
    if text.None? then DrawSpace(e, p, t, max, max)
    else if align == AlignRight then RightField(e, p, t, text.value, max, trim)
    else FieldBody(e, p, t, text.value, max, p.col, trim)
  }

  const DateWidth: nat := 16
  const DateShortWidth: nat := 10

  /** draw_date */
  function DrawDate(e: Env, p: Pen, time: Option<Time>): Drawn
  {
    var style := e.g.opts.showDate;
    var date := e.g.ext.mkdate(time, style);
    var cols := if style == DateShort then DateShortWidth else DateWidth;
    if style == DateNo then Drawn(p, false)
    else DrawField(e, p, LineDate, date, cols, AlignLeft, false)
  }

  /** draw_author */
  function DrawAuthor(e: Env, p: Pen, author: Option<Ident>, width: int): Drawn
  {
    var trim := e.g.ext.authorTrim(width);
    var text := e.g.ext.mkauthor(author, width, e.g.opts.showAuthor);
    if e.g.opts.showAuthor == AuthorNo then Drawn(p, false)
    else DrawField(e, p, LineAuthor, text, width, AlignLeft, trim)
  }

  /** draw_id_custom */
  function DrawIdCustom(e: Env, p: Pen, t: LineType, id: Option<string>, width: int): Drawn
  {
    DrawField(e, p, t, id, width, AlignLeft, false)
  }

  /** draw_id */
  function DrawId(e: Env, p: Pen, id: Option<string>): Drawn
  {
    if !e.g.opts.showId then Drawn(p, false)
    else DrawIdCustom(e, p, LineId, id, e.g.opts.idWidth)
  }

  /** S_ISDIR: the file-type bits (mask 0170000) are those of a directory (0040000). */
  predicate IsDir(mode: nat)
  {
    (mode / 0x1000) % 0x10 == 4
  }

  /** draw_filename */
  function DrawFilename(e: Env, p: Pen, filename: Option<string>, autoEnabled: bool, mode: nat, width: int): Drawn
  {
    var trim := filename.Some? && Width(filename.value, e.g.opts.tabSize) >= width;
    var t := if IsDir(mode) then LineDirectory else LineFile;
    if e.g.opts.showFilename == FilenameNo then Drawn(p, false)
    else if e.g.opts.showFilename == FilenameAuto && !autoEnabled then Drawn(p, false)
    else DrawField(e, p, t, filename, width, AlignLeft, trim)
  }

  /** draw_file_size: right-aligned; `pad` leaves the field blank. */
  function DrawFileSize(e: Env, p: Pen, size: nat, width: int, pad: bool): Drawn
  {
    var str := if pad then None else e.g.ext.mkfilesize(size, e.g.opts.showFileSize);
    if width == 0 || e.g.opts.showFileSize == FileSizeNo then Drawn(p, false)
    else DrawField(e, p, LineFileSize, str, width, AlignRight, false)
  }

  /** STRING_SIZE("-rw-r--r--") */
  const ModeWidth: nat := 10

  /** draw_mode */
  function DrawMode(e: Env, p: Pen, mode: nat): Drawn
  {
    DrawField(e, p, LineMode, e.g.ext.mkmode(mode), ModeWidth, AlignLeft, false)
  }

  /** The size of draw_lineno_custom's `number` buffer. */
  const NumberSize: nat := 10

  /** An `unsigned int` read back through a `%d` conversion. */
  function S32(x: UInt): int
  {
    if x >= 0x8000_0000 then x - 0x1_0000_0000 else x
  }

  /** The field width of the line-number column: at least three cells. */
  function Digits3(e: Env): int
  {
    if e.g.digits < 3 then 3 else e.g.digits
  }

  /** Whether draw_lineno_custom's `lineno % interval` is defined: the interval is
      converted to `unsigned`, and only consulted for lines other than 1. */
  predicate LinenoDefined(lineno: UInt, show: bool, interval: int)
  {
    !show || lineno == 1 || U32(interval) != 0
  }

  /** The digits draw_lineno_custom writes, or None for a blank field: a label for
      line 1 and every `interval`-th line, formatted by "%<w>d" into ten bytes. */
  function LinenoLabel(e: Env, lineno: UInt, interval: int): Option<string>
    requires lineno == 1 || U32(interval) != 0
  {
    if lineno == 1 || lineno % U32(interval) == 0 then
      FormatInt(S32(lineno), if e.g.digits <= 9 then Digits3(e) else 1, NumberSize)
    else None
  }

  /** The separator glyph: a vertical line unless the ASCII graphics are chosen. */
  function LinenoSeparator(e: Env): Glyph
  {
    if e.g.opts.lineGraphics == GraphicAscii then Ch('|') else AcsVLine
  }

  /** draw_lineno_custom */
  function DrawLinenoCustom(e: Env, p: Pen, lineno: UInt, show: bool, interval: int): Drawn
    requires LinenoDefined(lineno, show, interval)
  {
    var digits3 := Digits3(e);
    var max := UMin(MaxLen(e, p), digits3);
    if !show then Drawn(p, false)
    else
      var text := LinenoLabel(e, lineno, interval);
      var p1 := if text.Some? then DrawChars(e, p, LineLineNumber, text.value, max, true).pen
                else DrawSpace(e, p, LineLineNumber, max, digits3).pen;
      DrawGraphic(e, p1, LineDefault, [LinenoSeparator(e)], 1, true)
  }

  /** The number draw_lineno shows for screen row `lineno`, in `unsigned` arithmetic. */
  function DisplayedLineno(e: Env, lineno: UInt): UInt
  {
    U32(lineno + e.g.offset + 1)
  }

  /** draw_lineno */
  function DrawLineno(e: Env, p: Pen, lineno: UInt): Drawn
    requires LinenoDefined(DisplayedLineno(e, lineno), e.g.opts.showLineNumbers, e.g.opts.lineNumberInterval)
  {
    DrawLinenoCustom(e, p, DisplayedLineno(e, lineno), e.g.opts.showLineNumbers, e.g.opts.lineNumberInterval)
  }

  /** One pass of draw_refs' loop: "[name]" in the ref's attribute, then a blank,
      stopping as soon as a write exhausts the budget. */
  function RefOne(e: Env, p: Pen, r: Ref): Drawn
  {
    var d := DrawFormatted(e, p, r.kind, e.g.ext.formatRef(r.name));
    if d.exhausted then d else DrawText(e, d.pen, LineDefault, " ")
  }

  /** The loop of draw_refs from ref `i` on: until the list ends (FALSE) or a write
      exhausts the budget (TRUE). */
  function RefsFrom(e: Env, p: Pen, refs: seq<Ref>, i: nat): Drawn
    requires i <= |refs|
    decreases |refs| - i
  {
    if i == |refs| then Drawn(p, false)
    else
      var d := RefOne(e, p, refs[i]);
      if d.exhausted then d else RefsFrom(e, d.pen, refs, i + 1)
  }

  /** draw_refs */
  function DrawRefs(e: Env, p: Pen, refs: Option<seq<Ref>>): Drawn
  {
    if !e.g.opts.showRefs || refs.None? then Drawn(p, false)
    else RefsFrom(e, p, refs.value, 0)
  }

  // ---------------------------------------------------------------------------
  // Properties

  // Proof plumbing: BodySteps and PaddedSteps only unfold FieldBody and PaddedField
  // into their two steps; they state no property of their own.

  /** The end of draw_field, step by step: the content, then blanks unless the
      content exhausted the budget. */
  lemma BodySteps(e: Env, p: Pen, t: LineType, s: string, max: int, col0: int, trim: bool, d: Drawn, r: Drawn)
    requires d == DrawChars(e, p, t, s, max - 1, trim)
    requires r == if d.exhausted then d else DrawSpace(e, d.pen, LineDefault, max - (d.pen.col - col0), max)
    ensures FieldBody(e, p, t, s, max, col0, trim) == r
  {
  }

  /** The padded field, step by step: the left pad, then the content unless the pad
      exhausted the budget. */
  lemma PaddedSteps(e: Env, p: Pen, t: LineType, s: string, max: int, leftpad: int, trim: bool, d: Drawn, r: Drawn)
    requires d == DrawSpace(e, p, t, leftpad, leftpad)
    requires r == if d.exhausted then d else FieldBody(e, d.pen, t, s, max - leftpad, p.col + leftpad, trim)
    ensures PaddedField(e, p, t, s, max, leftpad, trim) == r
  {
  }

  lemma FieldBodyStride(e: Env, p: Pen, t: LineType, s: string, max: int, col0: int, trim: bool)
    requires Measures(e)
    requires Fits(e, p, max) && col0 == p.col
    ensures var d := FieldBody(e, p, t, s, max, col0, trim);
      && d.pen.col == p.col + (if max <= 0 then 0 else max)
      && d.exhausted == (MaxLen(e, d.pen) == 0)
      && Extends(p, d.pen)
  {
    var d := DrawChars(e, p, t, s, max - 1, trim);
    DrawCharsBounds(e, p, t, s, max - 1, trim);
    if !d.exhausted {
      var n := max - (d.pen.col - col0);
      SpaceBounds(e, d.pen, LineDefault, n, max);
      ExtendsTrans(p, d.pen, DrawSpace(e, d.pen, LineDefault, n, max).pen);
    }
  }

  /** draw_space within the budget, without the log contents: the cursor moves by
      the clamped count, and only appends are made. */
  lemma SpaceBounds(e: Env, p: Pen, t: LineType, max: int, spaces: int)
    requires Measures(e)
    requires Min(max, spaces) <= 0 || Fits(e, p, Min(max, spaces))
    ensures var d := DrawSpace(e, p, t, max, spaces); var n := Min(max, spaces);
      && d.pen.col == p.col + (if n <= 0 then 0 else n)
      && d.exhausted == (MaxLen(e, d.pen) == 0)
      && Extends(p, d.pen)
  {
    DrawSpaceExact(e, p, t, max, spaces);
    var n := Min(max, spaces);
    if n > 0 {
      var d := DrawSpace(e, p, t, max, spaces);
      var p1 := SetViewAttr(e, p, t);
      SetViewAttrOnChange(e, p, t);
      assert p1.out == p.out + (if !e.selected && p.curtype != t then [SetAttr(t)] else []);
      ExtendsAppend(p, d.pen, d.pen.out[|p.out|..]);
    } else {
      ExtendsAppend(p, p, []);
    }
  }

  /** The fixed stride of draw_field: whatever the text and the alignment, the cursor
      ends exactly `min(VIEW_MAX_LEN, width + 1)` cells on (none when that is not
      positive), and the answer is "exhausted" exactly when no budget is left. */
  lemma DrawFieldStride(e: Env, p: Pen, t: LineType, text: Option<string>, width: int, align: Align, trim: bool)
    requires Measures(e)
    ensures var d := DrawField(e, p, t, text, width, align, trim);
      var max := UMin(MaxLen(e, p), width + 1);
      && d.pen.col == p.col + (if max <= 0 then 0 else max)
      && d.exhausted == (MaxLen(e, d.pen) == 0)
      && Extends(p, d.pen)
  {
    var max := UMin(MaxLen(e, p), width + 1);
    if text.None? {
      SpaceBounds(e, p, t, max, max);
    } else if align == AlignRight {
      RightFieldStride(e, p, t, text.value, max, trim);
    } else {
      FieldBodyStride(e, p, t, text.value, max, p.col, trim);
    }
  }

  /** Once the cursor is past the edge, VIEW_MAX_LEN has wrapped to a huge unsigned
      value, so MIN(VIEW_MAX_LEN, width + 1) is `width + 1`: the field still takes
      its full stride, and it never answers TRUE, since the budget cannot come back
      to zero. */
  lemma DrawFieldPastEdge(e: Env, p: Pen, t: LineType, text: Option<string>, width: int, align: Align, trim: bool)
    requires Measures(e)
    requires MaxLen(e, p) < 0 && 0 <= width
    ensures var d := DrawField(e, p, t, text, width, align, trim);
      && d.pen.col == p.col + width + 1
      && !d.exhausted
  {
    DrawFieldStride(e, p, t, text, width, align, trim);
  }

  /** The right-aligned case keeps the stride. */
  lemma RightFieldStride(e: Env, p: Pen, t: LineType, s: string, max: int, trim: bool)
    requires Measures(e)
    requires Fits(e, p, max)
    ensures var d := RightField(e, p, t, s, max, trim);
      && d.pen.col == p.col + (if max <= 0 then 0 else max)
      && d.exhausted == (MaxLen(e, d.pen) == 0)
      && Extends(p, d.pen)
  {
    var textlen := e.g.ext.widthMax(s, max);
    assert textlen >= 0;
    var leftpad := max - textlen - 1;
    if leftpad > 0 {
      PaddedStride(e, p, t, s, max, leftpad, trim);
    } else {
      FieldBodyStride(e, p, t, s, max, p.col, trim);
    }
  }

  /** A left pad shorter than the field leaves budget for the rest of it. */
  lemma PaddedStride(e: Env, p: Pen, t: LineType, s: string, max: int, leftpad: int, trim: bool)
    requires Measures(e)
    requires 0 < leftpad < max && Fits(e, p, max)
    ensures var d := PaddedField(e, p, t, s, max, leftpad, trim);
      && d.pen.col == p.col + max
      && d.exhausted == (MaxLen(e, d.pen) == 0)
      && Extends(p, d.pen)
  {
    var d1 := DrawSpace(e, p, t, leftpad, leftpad);
    SpaceBounds(e, p, t, leftpad, leftpad);
    assert !d1.exhausted && d1.pen.col == p.col + leftpad;
    var r := FieldBody(e, d1.pen, t, s, max - leftpad, p.col + leftpad, trim);
    FieldBodyStride(e, d1.pen, t, s, max - leftpad, p.col + leftpad, trim);
    ExtendsTrans(p, d1.pen, r.pen);
    PaddedSteps(e, p, t, s, max, leftpad, trim, d1, r);
  }

  /** A field whose text fits in `max - 1` cells, with nothing scrolled off, shows the
      text and then blanks up to `max` cells. */
  lemma FieldBodyContent(e: Env, p: Pen, t: LineType, s: string, max: int, col0: int, trim: bool)
    requires Measures(e)
    requires e.g.posCol <= p.col && col0 == p.col
    requires Width(s, e.g.opts.tabSize) < max && Fits(e, p, max)
    ensures var d := FieldBody(e, p, t, s, max, col0, trim);
      && Shown(d.pen.out) == Shown(p.out) + AsGlyphs(s) + AsGlyphs(Spaces(max - Width(s, e.g.opts.tabSize)))
      && d.pen.col == p.col + max
  {
    var w := Width(s, e.g.opts.tabSize);
    var d := DrawChars(e, p, t, s, max - 1, trim);
    FieldHeadShown(e, p, t, s, max, trim);
    var q := d.pen;
    var n := max - (q.col - col0);
    var d2 := DrawSpace(e, q, LineDefault, n, max);
    BodySteps(e, p, t, s, max, col0, trim, d, d2);
    assert Min(n, max) == max - w;
    DrawSpaceShown(e, q, LineDefault, n, max);
    ShownChain(p, q, d2.pen, AsGlyphs(s), AsGlyphs(Spaces(max - w)));
  }

  /** The text of a field that fits is drawn whole, without exhausting the budget. */
  lemma FieldHeadShown(e: Env, p: Pen, t: LineType, s: string, max: int, trim: bool)
    requires Measures(e)
    requires e.g.posCol <= p.col
    requires Width(s, e.g.opts.tabSize) < max && Fits(e, p, max)
    ensures var d := DrawChars(e, p, t, s, max - 1, trim);
      && !d.exhausted && d.pen.col == p.col + Width(s, e.g.opts.tabSize)
      && Shown(d.pen.out) == Shown(p.out) + AsGlyphs(s)
  {
    var d := DrawChars(e, p, t, s, max - 1, trim);
    if max == 1 {
      WidthMono(s, 0, |s|, e.g.opts.tabSize);
      WidthAll(s, e.g.opts.tabSize);
      assert s == [];
      assert d == Drawn(p, false);
    } else {
      DrawCharsShown(e, p, t, s, max - 1, trim);
    }
  }

  /** What a field shows when its text fits and nothing is scrolled off: the text
      followed by blanks when left-aligned; blanks, the text and one blank when
      right-aligned; blanks only when there is no text. */
  lemma DrawFieldContent(e: Env, p: Pen, t: LineType, text: Option<string>, width: int, align: Align, trim: bool)
    requires Measures(e)
    requires e.g.posCol <= p.col
    requires var max := UMin(MaxLen(e, p), width + 1);
      max > 0 && (text.Some? ==> Width(text.value, e.g.opts.tabSize) < max)
    ensures var d := DrawField(e, p, t, text, width, align, trim); var max := UMin(MaxLen(e, p), width + 1);
      text.None? ==> Shown(d.pen.out) == Shown(p.out) + AsGlyphs(Spaces(max))
    ensures var d := DrawField(e, p, t, text, width, align, trim); var max := UMin(MaxLen(e, p), width + 1);
      text.Some? && align == AlignLeft ==>
        var w := Width(text.value, e.g.opts.tabSize);
        Shown(d.pen.out) == Shown(p.out) + AsGlyphs(text.value) + AsGlyphs(Spaces(max - w))
    ensures var d := DrawField(e, p, t, text, width, align, trim); var max := UMin(MaxLen(e, p), width + 1);
      text.Some? && align == AlignRight ==>
        var w := Width(text.value, e.g.opts.tabSize);
        Shown(d.pen.out) == Shown(p.out) + AsGlyphs(Spaces(max - w - 1)) + AsGlyphs(text.value) + AsGlyphs(Spaces(1))
  {
    var max := UMin(MaxLen(e, p), width + 1);
    var d := DrawField(e, p, t, text, width, align, trim);
    if text.None? {
      assert d == DrawSpace(e, p, t, max, max);
      DrawSpaceShown(e, p, t, max, max);
    } else if align == AlignLeft {
      assert d == FieldBody(e, p, t, text.value, max, p.col, trim);
      FieldBodyContent(e, p, t, text.value, max, p.col, trim);
    } else {
      assert d == RightField(e, p, t, text.value, max, trim);
      RightFieldContent(e, p, t, text.value, max, trim);
    }
  }

  lemma RightFieldContent(e: Env, p: Pen, t: LineType, s: string, max: int, trim: bool)
    requires Measures(e)
    requires e.g.posCol <= p.col
    requires Width(s, e.g.opts.tabSize) < max && Fits(e, p, max)
    ensures var w := Width(s, e.g.opts.tabSize);
      Shown(RightField(e, p, t, s, max, trim).pen.out) ==
        Shown(p.out) + AsGlyphs(Spaces(max - w - 1)) + AsGlyphs(s) + AsGlyphs(Spaces(1))
  {
    var w := Width(s, e.g.opts.tabSize);
    var leftpad := max - e.g.ext.widthMax(s, max) - 1;
    assert leftpad == max - w - 1;
    if leftpad > 0 {
      PaddedContent(e, p, t, s, max, leftpad, trim);
    } else {
      assert Spaces(0) == [];
      FieldBodyContent(e, p, t, s, max, p.col, trim);
    }
  }

  lemma PaddedContent(e: Env, p: Pen, t: LineType, s: string, max: int, leftpad: int, trim: bool)
    requires Measures(e)
    requires e.g.posCol <= p.col
    requires leftpad > 0 && leftpad == max - Width(s, e.g.opts.tabSize) - 1 && Fits(e, p, max)
    ensures Shown(PaddedField(e, p, t, s, max, leftpad, trim).pen.out) ==
              Shown(p.out) + AsGlyphs(Spaces(leftpad)) + AsGlyphs(s) + AsGlyphs(Spaces(1))
  {
    var d1 := DrawSpace(e, p, t, leftpad, leftpad);
    DrawSpaceShown(e, p, t, leftpad, leftpad);
    assert !d1.exhausted;
    FieldBodyContent(e, d1.pen, t, s, max - leftpad, p.col + leftpad, trim);
  }

  /** The fixed stride of a field `width` cells wide: the cursor ends
      `min(VIEW_MAX_LEN, width + 1)` cells on (none when that is not positive), the
      answer is "exhausted" exactly when no budget is left, and the log only grows. */
  predicate FieldStrides(e: Env, p: Pen, d: Drawn, width: int)
  {
    var max := UMin(MaxLen(e, p), width + 1);
    && d.pen.col == p.col + (if max <= 0 then 0 else max)
    && d.exhausted == (MaxLen(e, d.pen) == 0)
    && Extends(p, d.pen)
  }

  /** A field with at least two cells of budget opens with its own attribute. */
  lemma DrawFieldOpens(e: Env, p: Pen, t: LineType, text: Option<string>, width: int, align: Align, trim: bool)
    requires Measures(e)
    requires UMin(MaxLen(e, p), width + 1) >= 2
    ensures Extends(SetViewAttr(e, p, t), DrawField(e, p, t, text, width, align, trim).pen)
  {
    var max := UMin(MaxLen(e, p), width + 1);
    var d := DrawField(e, p, t, text, width, align, trim);
    if text.None? {
      DrawSpaceOpens(e, p, t, max, max);
    } else if align == AlignLeft {
      assert d == FieldBody(e, p, t, text.value, max, p.col, trim);
      FieldBodyOpens(e, p, t, text.value, max, p.col, trim);
    } else {
      assert d == RightField(e, p, t, text.value, max, trim);
      var leftpad := max - e.g.ext.widthMax(text.value, max) - 1;
      if leftpad > 0 {
        var d1 := DrawSpace(e, p, t, leftpad, leftpad);
        assert leftpad < max;
        DrawSpaceOpens(e, p, t, leftpad, leftpad);
        PaddedStride(e, p, t, text.value, max, leftpad, trim);
        PaddedExtends(e, p, t, text.value, max, leftpad, trim);
        ExtendsTrans(SetViewAttr(e, p, t), d1.pen, d.pen);
      } else {
        FieldBodyOpens(e, p, t, text.value, max, p.col, trim);
      }
    }
  }

  lemma FieldBodyOpens(e: Env, p: Pen, t: LineType, s: string, max: int, col0: int, trim: bool)
    requires Measures(e)
    requires 2 <= max && Fits(e, p, max) && col0 == p.col
    ensures Extends(SetViewAttr(e, p, t), FieldBody(e, p, t, s, max, col0, trim).pen)
  {
    var d := DrawChars(e, p, t, s, max - 1, trim);
    DrawCharsOpens(e, p, t, s, max - 1, trim);
    DrawCharsBounds(e, p, t, s, max - 1, trim);
    if !d.exhausted {
      var n := max - (d.pen.col - col0);
      SpaceBounds(e, d.pen, LineDefault, n, max);
      ExtendsTrans(SetViewAttr(e, p, t), d.pen, DrawSpace(e, d.pen, LineDefault, n, max).pen);
    }
  }

  /** The padded field extends what its left pad wrote. */
  lemma PaddedExtends(e: Env, p: Pen, t: LineType, s: string, max: int, leftpad: int, trim: bool)
    requires Measures(e)
    requires 0 < leftpad < max && Fits(e, p, max)
    ensures Extends(DrawSpace(e, p, t, leftpad, leftpad).pen, PaddedField(e, p, t, s, max, leftpad, trim).pen)
  {
    var d1 := DrawSpace(e, p, t, leftpad, leftpad);
    SpaceBounds(e, p, t, leftpad, leftpad);
    FieldBodyStride(e, d1.pen, t, s, max - leftpad, p.col + leftpad, trim);
  }

  /** draw_date: nothing and FALSE when dates are hidden; otherwise a field of 16
      cells, or 10 for the short style. */
  lemma DrawDateLayout(e: Env, p: Pen, time: Option<Time>)
    requires Measures(e)
    ensures var d := DrawDate(e, p, time); var style := e.g.opts.showDate;
      && (style == DateNo ==> d == Drawn(p, false))
      && (style != DateNo ==> FieldStrides(e, p, d, if style == DateShort then 10 else 16))
  {
    var style := e.g.opts.showDate;
    if style != DateNo {
      var cols := if style == DateShort then DateShortWidth else DateWidth;
      DrawFieldStride(e, p, LineDate, e.g.ext.mkdate(time, style), cols, AlignLeft, false);
    }
  }

  /** draw_author: nothing and FALSE when authors are hidden; otherwise a field of the
      given width. */
  lemma DrawAuthorLayout(e: Env, p: Pen, author: Option<Ident>, width: int)
    requires Measures(e)
    ensures var d := DrawAuthor(e, p, author, width);
      && (e.g.opts.showAuthor == AuthorNo ==> d == Drawn(p, false))
      && (e.g.opts.showAuthor != AuthorNo ==> FieldStrides(e, p, d, width))
  {
    if e.g.opts.showAuthor != AuthorNo {
      DrawFieldStride(e, p, LineAuthor, e.g.ext.mkauthor(author, width, e.g.opts.showAuthor), width,
                      AlignLeft, e.g.ext.authorTrim(width));
    }
  }

  /** draw_id: nothing and FALSE unless ids are shown; otherwise a field of the
      configured id width. */
  lemma DrawIdLayout(e: Env, p: Pen, id: Option<string>)
    requires Measures(e)
    ensures var d := DrawId(e, p, id);
      && (!e.g.opts.showId ==> d == Drawn(p, false))
      && (e.g.opts.showId ==> FieldStrides(e, p, d, e.g.opts.idWidth))
  {
    if e.g.opts.showId {
      DrawFieldStride(e, p, LineId, id, e.g.opts.idWidth, AlignLeft, false);
    }
  }

  /** draw_filename: nothing and FALSE when file names are hidden, or shown only on
      demand and not asked for; otherwise a field of the given width in the directory
      attribute for a directory and the file attribute for anything else. */
  lemma DrawFilenameLayout(e: Env, p: Pen, filename: Option<string>, autoEnabled: bool, mode: nat, width: int)
    requires Measures(e)
    ensures var d := DrawFilename(e, p, filename, autoEnabled, mode, width); var style := e.g.opts.showFilename;
      var drawn := style == FilenameAlways || (style == FilenameAuto && autoEnabled);
      && (!drawn ==> d == Drawn(p, false))
      && (drawn ==> FieldStrides(e, p, d, width))
      && (drawn && UMin(MaxLen(e, p), width + 1) >= 2 ==>
            Extends(SetViewAttr(e, p, if IsDir(mode) then LineDirectory else LineFile), d.pen))
  {
    var style := e.g.opts.showFilename;
    if style == FilenameAlways || (style == FilenameAuto && autoEnabled) {
      var trim := filename.Some? && Width(filename.value, e.g.opts.tabSize) >= width;
      var t := if IsDir(mode) then LineDirectory else LineFile;
      DrawFieldStride(e, p, t, filename, width, AlignLeft, trim);
      if UMin(MaxLen(e, p), width + 1) >= 2 {
        DrawFieldOpens(e, p, t, filename, width, AlignLeft, trim);
      }
    }
  }

  /** A file name of single-cell characters wider than its column is cut one cell
      short and marked with `~`, then followed by the separating blank. */
  lemma DrawFilenameTrimmed(e: Env, p: Pen, s: string, autoEnabled: bool, mode: nat, width: int)
    requires Measures(e)
    requires e.g.opts.showFilename == FilenameAlways && e.g.posCol <= p.col
    requires 2 <= width < |s| && width + 1 <= MaxLen(e, p) && UnitWidth(s, e.g.opts.tabSize)
    ensures var d := DrawFilename(e, p, Some(s), autoEnabled, mode, width);
      Shown(d.pen.out) == Shown(p.out) + AsGlyphs(s[..width - 1]) + [Ch('~'), Ch(' ')]
  {
    var t := if IsDir(mode) then LineDirectory else LineFile;
    var d := DrawFilename(e, p, Some(s), autoEnabled, mode, width);
    assert Width(s, e.g.opts.tabSize) >= width by {
      UnitWidthPrefix(s, |s|, e.g.opts.tabSize);
      WidthAll(s, e.g.opts.tabSize);
    }
    assert d == DrawField(e, p, t, Some(s), width, AlignLeft, true);
    assert UMin(MaxLen(e, p), width + 1) == width + 1;
    assert d == FieldBody(e, p, t, s, width + 1, p.col, true);
    FieldBodyTrimmed(e, p, t, s, width + 1, width, p.col);
  }

  lemma FieldBodyTrimmed(e: Env, p: Pen, t: LineType, s: string, max: int, w: int, col0: int)
    requires Measures(e)
    requires e.g.posCol <= p.col && col0 == p.col
    requires max == w + 1 && 2 <= w < |s| && max <= MaxLen(e, p) && UnitWidth(s, e.g.opts.tabSize)
    ensures Shown(FieldBody(e, p, t, s, max, col0, true).pen.out) ==
              Shown(p.out) + AsGlyphs(s[..w - 1]) + [Ch('~'), Ch(' ')]
  {
    var d := DrawChars(e, p, t, s, max - 1, true);
    DrawCharsTrimmedShown(e, p, t, s, max - 1);
    assert s[..max - 1 - 1] == s[..w - 1];
    assert !d.exhausted;
    var n := max - (d.pen.col - col0);
    var d2 := DrawSpace(e, d.pen, LineDefault, n, max);
    BodySteps(e, p, t, s, max, col0, true, d, d2);
    assert Shown(d2.pen.out) == Shown(d.pen.out) + [Ch(' ')] by {
      assert Min(n, max) == 1;
      DrawSpaceShown(e, d.pen, LineDefault, n, max);
      assert AsGlyphs(Spaces(1)) == [Ch(' ')];
    }
    ShownChain(p, d.pen, d2.pen, AsGlyphs(s[..w - 1]) + [Ch('~')], [Ch(' ')]);
  }

  /** draw_file_size: nothing and FALSE for a zero width or hidden sizes; otherwise a
      right-aligned field of the given width, blank when `pad` is set. */
  lemma DrawFileSizeLayout(e: Env, p: Pen, size: nat, width: int, pad: bool)
    requires Measures(e)
    ensures var d := DrawFileSize(e, p, size, width, pad);
      var drawn := width != 0 && e.g.opts.showFileSize != FileSizeNo;
      && (!drawn ==> d == Drawn(p, false))
      && (drawn ==> FieldStrides(e, p, d, width))
      && (drawn && pad && e.g.posCol <= p.col && UMin(MaxLen(e, p), width + 1) > 0 ==>
            Shown(d.pen.out) == Shown(p.out) + AsGlyphs(Spaces(UMin(MaxLen(e, p), width + 1))))
  {
    if width != 0 && e.g.opts.showFileSize != FileSizeNo {
      var str := if pad then None else e.g.ext.mkfilesize(size, e.g.opts.showFileSize);
      DrawFieldStride(e, p, LineFileSize, str, width, AlignRight, false);
      if pad && e.g.posCol <= p.col && UMin(MaxLen(e, p), width + 1) > 0 {
        DrawFieldContent(e, p, LineFileSize, None, width, AlignRight, false);
      }
    }
  }

  /** draw_mode: always a field of ten cells, the width of "-rw-r--r--". */
  lemma DrawModeLayout(e: Env, p: Pen, mode: nat)
    requires Measures(e)
    ensures FieldStrides(e, p, DrawMode(e, p, mode), 10)
  {
    DrawFieldStride(e, p, LineMode, e.g.ext.mkmode(mode), ModeWidth, AlignLeft, false);
  }

  /** Line numbers below a billion, with at most nine digits configured, are written
      in decimal, blank-padded on the left to the column width; only line 1 and every
      `interval`-th line get a label. */
  lemma LinenoLabelDecimal(e: Env, lineno: UInt, interval: int)
    requires 1 <= lineno < 1_000_000_000 && e.g.digits <= 9
    requires lineno == 1 || U32(interval) != 0
    ensures var text := LinenoLabel(e, lineno, interval);
      && (text.Some? <==> lineno == 1 || lineno % U32(interval) == 0)
      && (text.Some? ==> text.value == PadLeft(NatDecimal(lineno), Digits3(e)))
  {
    Pow10Nine();
    NatDecimalLength(lineno, 9);
    assert S32(lineno) == lineno;
    assert IntDecimal(S32(lineno)) == NatDecimal(lineno);
  }

  /** draw_lineno_custom: nothing and FALSE when hidden; otherwise, with room for the
      column and its separator and nothing scrolled off, the label (or blanks) over
      `digits3` cells, the separator glyph and a blank. */
  lemma DrawLinenoLayout(e: Env, p: Pen, lineno: UInt, show: bool, interval: int)
    requires Measures(e)
    requires LinenoDefined(lineno, show, interval)
    requires 1 <= lineno < 1_000_000_000 && e.g.digits <= 9 && |NatDecimal(lineno)| <= Digits3(e)
    requires e.g.posCol <= p.col && Digits3(e) + 2 <= MaxLen(e, p)
    ensures var d := DrawLinenoCustom(e, p, lineno, show, interval);
      && (!show ==> d == Drawn(p, false))
      && (show ==>
            var labelled := lineno == 1 || lineno % U32(interval) == 0;
            && Shown(d.pen.out) == Shown(p.out)
                 + AsGlyphs(if labelled then PadLeft(NatDecimal(lineno), Digits3(e)) else Spaces(Digits3(e)))
                 + [LinenoSeparator(e), Ch(' ')]
            && d.pen.col == p.col + Digits3(e) + 2
            && d.exhausted == (MaxLen(e, d.pen) == 0))
  {
    if show {
      var digits3 := Digits3(e);
      var max := UMin(MaxLen(e, p), digits3);
      assert max == digits3;
      var text := LinenoLabel(e, lineno, interval);
      LinenoLabelDecimal(e, lineno, interval);
      var p1 := if text.Some? then DrawChars(e, p, LineLineNumber, text.value, max, true).pen
                else DrawSpace(e, p, LineLineNumber, max, digits3).pen;
      if text.Some? {
        var s := text.value;
        assert forall i :: 0 <= i < |s| ==> IsDigit(s[i]) || s[i] == ' ' by {
          var n := NatDecimal(lineno);
          forall i | 0 <= i < |s| ensures IsDigit(s[i]) || s[i] == ' ' {
            if i >= |s| - |n| {
              assert s[i] == s[|s| - |n|..][i - (|s| - |n|)];
            }
          }
        }
        DecimalUnitWidth(s, e.g.opts.tabSize);
        DrawCharsShown(e, p, LineLineNumber, s, max, true);
      } else {
        DrawSpaceShown(e, p, LineLineNumber, max, digits3);
      }
      assert p1.col == p.col + digits3;
      DrawGraphicSeparatorShown(e, p1, LineDefault, LinenoSeparator(e));
    }
  }

  /** draw_lineno labels screen row `lineno` with its line number in the whole view. */
  lemma DrawLinenoRow(e: Env, p: Pen, lineno: UInt)
    requires e.g.offset + lineno + 1 < 0x1_0000_0000
    ensures DisplayedLineno(e, lineno) == e.g.offset + lineno + 1
  {
  }

  /** draw_refs: FALSE when refs are hidden or there are none to show. */
  lemma DrawRefsHidden(e: Env, p: Pen, refs: Option<seq<Ref>>)
    requires !e.g.opts.showRefs || refs.None? || refs.value == []
    ensures DrawRefs(e, p, refs) == Drawn(p, false)
  {
  }

  /** One ref answers "exhausted" exactly when no budget is left, and only appends. */
  lemma RefOneAnswer(e: Env, p: Pen, r: Ref)
    requires Measures(e)
    ensures var d := RefOne(e, p, r);
      d.exhausted == (MaxLen(e, d.pen) == 0) && Extends(p, d.pen)
  {
    var f := e.g.ext.formatRef(r.name);
    var d := DrawFormatted(e, p, r.kind, f);
    if f.Some? {
      DrawTextExpandedAnswer(e, p, r.kind, f.value, MaxLen(e, p), true);
    } else {
      ExtendsAppend(p, p, []);
    }
    if !d.exhausted {
      DrawTextExpandedAnswer(e, d.pen, LineDefault, " ", MaxLen(e, d.pen), true);
      ExtendsTrans(p, d.pen, DrawText(e, d.pen, LineDefault, " ").pen);
    }
  }

  /** The ref loop with at least one ref left answers "exhausted" exactly when no
      budget is left, and only ever appends to the log. */
  lemma {:induction false} RefsAnswer(e: Env, p: Pen, refs: seq<Ref>, i: nat)
    requires Measures(e)
    requires i < |refs|
    ensures var d := RefsFrom(e, p, refs, i);
      d.exhausted == (MaxLen(e, d.pen) == 0) && Extends(p, d.pen)
    decreases |refs| - i
  {
    var d := RefOne(e, p, refs[i]);
    RefOneAnswer(e, p, refs[i]);
    if !d.exhausted && i + 1 < |refs| {
      RefsAnswer(e, d.pen, refs, i + 1);
      ExtendsTrans(p, d.pen, RefsFrom(e, d.pen, refs, i + 1).pen);
    }
  }

  /** "[name]" for one ref, as the collaborator formats it when it fits. */
  function RefLabel(r: Ref): string
  {
    "[" + r.name + "]"
  }

  /** What the ref loop writes from ref `i` on when every label fits: each label and
      a blank. */
  function RefsText(refs: seq<Ref>, i: nat): string
    requires i <= |refs|
    decreases |refs| - i
  {
    if i == |refs| then [] else RefLabel(refs[i]) + " " + RefsText(refs, i + 1)
  }

  /** A ref label formatted as "[name]", with no tab and no wide character, that fits
      one staging buffer. */
  predicate PlainRef(e: Env, r: Ref)
  {
    && e.g.ext.formatRef(r.name) == Some(RefLabel(r))
    && |RefLabel(r)| < SizeofStr
    && UnitWidth(RefLabel(r), e.g.opts.tabSize)
    && (forall k :: 0 <= k < |RefLabel(r)| ==> RefLabel(r)[k] != '\t')
  }

  predicate PlainRefs(e: Env, refs: seq<Ref>, i: nat)
    requires i <= |refs|
  {
    forall j :: i <= j < |refs| ==> PlainRef(e, refs[j])
  }

  /** One plain ref with room to spare shows "[name] ". */
  lemma RefOneShown(e: Env, p: Pen, r: Ref)
    requires Measures(e)
    requires PlainRef(e, r)
    requires e.g.posCol <= p.col && |RefLabel(r)| + 1 < MaxLen(e, p)
    ensures Shows(p, RefOne(e, p, r), RefLabel(r) + " ")
  {
    var tab := e.g.opts.tabSize;
    var s := RefLabel(r);
    var d := DrawFormatted(e, p, r.kind, e.g.ext.formatRef(r.name));
    assert Shows(p, d, s) by {
      UnitWidthPrefix(s, |s|, tab);
      WidthAll(s, tab);
      DrawTextSingleChunk(e, p, r.kind, s);
      DrawCharsShown(e, p, r.kind, s, MaxLen(e, p), true);
      assert d == DrawChars(e, p, r.kind, s, MaxLen(e, p), true);
    }
    var d2 := DrawText(e, d.pen, LineDefault, " ");
    assert Shows(d.pen, d2, " ") by {
      assert Width(" ", tab) == 1 by { assert " "[..0] == []; }
      DrawTextSingleChunk(e, d.pen, LineDefault, " ");
      DrawCharsShown(e, d.pen, LineDefault, " ", MaxLen(e, d.pen), true);
    }
    ShowsTrans(p, d, d2, s, " ");
  }

  /** One turn of draw_refs' loop: unless the ref exhausted the budget, the loop goes
      on from the next ref. */
  lemma RefsStep(e: Env, p: Pen, refs: seq<Ref>, i: nat)
    requires i < |refs|
    ensures var d := RefOne(e, p, refs[i]);
      RefsFrom(e, p, refs, i) == if d.exhausted then d else RefsFrom(e, d.pen, refs, i + 1)
  {
  }

  /** With room for every label and its blank and nothing scrolled off, the ref loop
      shows "[name] " for each ref in order, and ends with budget left. */
  lemma {:induction false} RefsShown(e: Env, p: Pen, refs: seq<Ref>, i: nat)
    requires Measures(e)
    requires i <= |refs| && PlainRefs(e, refs, i)
    requires e.g.posCol <= p.col && |RefsText(refs, i)| < MaxLen(e, p)
    ensures Shows(p, RefsFrom(e, p, refs, i), RefsText(refs, i))
    decreases |refs| - i
  {
    if i == |refs| {
      assert RefsText(refs, i) == [];
      assert RefsFrom(e, p, refs, i) == Drawn(p, false);
    } else {
      var s := RefLabel(refs[i]) + " ";
      var rest := RefsText(refs, i + 1);
      assert RefsText(refs, i) == s + rest;
      var d := RefOne(e, p, refs[i]);
      assert Shows(p, d, s) by {
        assert PlainRef(e, refs[i]);
        RefOneShown(e, p, refs[i]);
      }
      var r := RefsFrom(e, d.pen, refs, i + 1);
      assert Shows(d.pen, r, rest) by {
        assert PlainRefs(e, refs, i + 1);
        RefsShown(e, d.pen, refs, i + 1);
      }
      ShowsTrans(p, d, r, s, rest);
      RefsStep(e, p, refs, i);
    }
  }
}
