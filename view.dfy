/** The view as draw.c changes it: the cursor column, the last applied attribute,
    the output log and the current row are fields that every drawing routine updates
    in place, and the rows' flags live in the view's line array. Each routine is
    proved to leave exactly the state its specification function computes. */
module Draw {
  import opened Types
  import opened Text
  import opened Cells
  import opened Fields
  import opened Graph
  import opened Rows
  import opened Redraw

  // Proof plumbing: the lemmas below (and LineStart) only unfold one specification
  // function into the steps its method takes, so that each method's proof stays
  // small. They state no property of draw.c of their own.

  /** draw_graphic's result, step by step as the method takes it. */
  lemma GraphicSteps(e: Env, p: Pen, t: LineType, graphic: seq<Glyph>, size: nat, separator: bool, q: Pen)
    requires size <= |graphic|
    requires var skip := Skip(e, p); var max := MaxLen(e, p);
      var n := if 0 <= max < size then max else size;
      var p1 := Cells.SetViewAttr(e, p, t);
      var p2 := Pen(p1.col + n, p1.curtype, p1.out + (if skip < n then Glyphs(graphic[skip..n]) else []));
      q == if separator then Pen(p2.col + 1, p2.curtype, p2.out + (if (max < 0 || n < max) && skip <= n then [Put(Ch(' '))] else [])) else p2
    ensures Cells.DrawGraphic(e, p, t, graphic, size, separator) == Drawn(q, MaxLen(e, q) == 0)
  {
  }

  /** draw_text_overflow, step by step as the method takes it. */
  lemma OverflowSteps(e: Env, p: Pen, text: string, overflow: int, t: LineType, d: Drawn, r: Drawn)
    requires overflow >= 0
    requires d == Cells.DrawTextExpanded(e, p, t, text, UMin(MaxLen(e, p), overflow), UMin(MaxLen(e, p), overflow) < overflow)
    requires r == if d.exhausted then d else DrawRest(e, d.pen, LineOverflow, if |text| > overflow then text[overflow..] else "")
    ensures Cells.DrawTextOverflow(e, p, text, true, overflow, t) == r
  {
  }

  /** One schema column, case by case as the method takes it. */
  lemma ColumnSteps(e: Env, p: Pen, kind: LineType, c: Columns, lineno: nat, column: Column, title: Title, r: Drawn)
    requires ColumnsOk(c) && LinenoReady(e, lineno)
    requires var width := column.width;
      match column.kind
      case ColDate => r == Fields.DrawDate(e, p, c.date)
      case ColAuthor =>
        r == Fields.DrawAuthor(e, p, c.author, if e.g.opts.authorWidth != 0 then e.g.opts.authorWidth else width)
      case ColRef => r == Fields.DrawField(e, p, RefType(c.ref), RefName(c.ref), width, AlignLeft, false)
      case ColId => r == IdColumn(e, p, c.id, width)
      case ColLineNumber => r == Fields.DrawLineno(e, p, lineno)
      case ColMode => r == Fields.DrawMode(e, p, ModeOf(c))
      case ColFileSize =>
        r == Fields.DrawFileSize(e, p, if c.fileSize.Some? then c.fileSize.value else 0, width,
                                 c.mode.None? || IsDir(c.mode.value))
      case ColCommitTitle => r == CommitTitleColumn(e, p, c, title)
      case ColFileName =>
        r == Fields.DrawFilename(e, p, c.fileName, true, ModeOf(c),
                                 if e.g.opts.filenameWidth != 0 then e.g.opts.filenameWidth else width)
      case ColText => r == Cells.DrawText(e, p, kind, c.text)
    ensures ColumnStep(e, p, kind, c, lineno, column, title) == r
  {
  }

  /** The drawing state once draw_view_line has moved to screen row `lineno`. */
  ghost function LineStart(g: Geometry, s: Screen, lineno: nat): Pen
    requires g.offset + lineno < |s.rows|
  {
    var k := g.offset + lineno;
    var p0 := Pen(0, LineNone, s.pen.out + [Move(lineno)] + (if s.rows[k].cleareol then [ClearToEol] else []));
    var p1 := if k == g.cursor then Cells.SetViewAttr(Env(g, false), p0, LineCursor) else p0;
    if k == g.cursor then p1.(out := p1.out + [Select(k)]) else p1
  }

  /** draw_view_line, step by step as the method takes it. */
  lemma LineSteps(g: Geometry, title: Title, s: Screen, lineno: nat, d: Drawn)
    requires ScreenOk(g, s) && LinenoReady(Env(g, false), lineno) && g.offset + lineno < g.lines
    requires var k := g.offset + lineno; var sel := k == g.cursor;
      d == Rows.ViewColumnsDraw(Env(g, sel), LineStart(g, s, lineno), CleanRow(s.rows[k], sel), lineno, title)
    ensures var k := g.offset + lineno;
      Redraw.DrawViewLine(g, title, s, lineno) ==
        Step(Screen(d.pen, s.rows[k := CleanRow(s.rows[k], k == g.cursor)], k), d.exhausted)
  {
  }

  class View {
    const g: Geometry
    const title: Title
    const line: array<Row>
    var col: int
    var curtype: LineType
    var out: seq<Event>
    var curline: nat

    constructor (g: Geometry, title: Title, rows: seq<Row>)
      ensures this.g == g && this.title == title && fresh(line) && line[..] == rows
      ensures col == 0 && curtype == LineNone && out == [] && curline == 0
    {
      this.g := g;
      this.title := title;
      line := new Row[|rows|](i requires 0 <= i < |rows| => rows[i]);
      col := 0;
      curtype := LineNone;
      out := [];
      curline := 0;
    }

    /** The drawing state. */
    function State(): Pen
      reads this`col, this`curtype, this`out
    {
      Pen(col, curtype, out)
    }

    /** What the primitives read: the geometry and `curline->selected`. */
    function E(): Env
      reads this`curline, line
    {
      Env(g, curline < line.Length && line[curline].selected)
    }

    /** The whole view, rows included. */
    function Scr(): Screen
      reads this`col, this`curtype, this`out, this`curline, line
    {
      Screen(State(), line[..], curline)
    }

    // -------------------------------------------------------------------------
    // Cell writers

    /** set_view_attr */
    method SetViewAttr(t: LineType)
      modifies this`curtype, this`out
      ensures State() == Cells.SetViewAttr(E(), old(State()), t)
    {
      if !(curline < line.Length && line[curline].selected) && curtype != t {
        out := out + [SetAttr(t)];
        curtype := t;
      }
    }

    /** The writing part of draw_chars, once utf8_length has measured the text. */
    method Emit(t: LineType, c: Clip, tilde: bool)
      modifies this`col, this`curtype, this`out
      ensures State() == Cells.Emit(E(), old(State()), t, c, tilde)
    {
      var col0 := col;
      var width := c.width;
      SetViewAttr(t);
      ghost var p1 := State();
      if |c.shown| > 0 {
        out := out + Puts(c.shown);
        ghost var p2 := State();
        assert p2 == p1.(out := p1.out + Puts(c.shown));
        if c.trimmed && tilde {
          SetViewAttr(LineDelimiter);
          out := out + [Put(Ch('~'))];
          width := width + 1;
        }
      }
      col := col0 + width;
    }

    /** draw_chars */
    method DrawChars(t: LineType, s: string, maxLen: int, tilde: bool) returns (full: bool)
      modifies this`col, this`curtype, this`out
      ensures Drawn(State(), full) == Cells.DrawChars(E(), old(State()), t, s, maxLen, tilde)
    {
      if maxLen <= 0 {
        return MaxLen(E(), State()) == 0;
      }
      var c := g.ext.utf8(s, Skip(E(), State()), maxLen, tilde, g.opts.tabSize);
      assert c == Measure(E(), State(), s, maxLen, tilde);
      Emit(t, c, tilde);
      full := MaxLen(E(), State()) == 0;
    }

    /** draw_space: blanks in chunks of at most twenty. */
    method DrawSpace(t: LineType, max: int, spaces: int) returns (full: bool)
      modifies this`col, this`curtype, this`out
      ensures Drawn(State(), full) == Cells.DrawSpace(E(), old(State()), t, max, spaces)
    {
      var n := Min(max, spaces);
      while n > 0
        invariant SpaceLoop(E(), State(), t, n) == SpaceLoop(E(), old(State()), t, Min(max, spaces))
        decreases n
      {
        var len := Min(n, ChunkSize);
        full := DrawChars(t, Blanks(), len, false);
        if full {
          return;
        }
        n := n - len;
      }
      full := MaxLen(E(), State()) == 0;
    }

    /** draw_text_expanded: one staging buffer of expanded text per pass. */
    method DrawTextExpanded(t: LineType, s: string, maxLen: int, tilde: bool) returns (full: bool)
      modifies this`col, this`curtype, this`out
      ensures Drawn(State(), full) == Cells.DrawTextExpanded(E(), old(State()), t, s, maxLen, tilde)
    {
      var rest := s;
      while true
        invariant Cells.DrawTextExpanded(E(), State(), t, rest, maxLen, tilde) ==
                  Cells.DrawTextExpanded(E(), old(State()), t, s, maxLen, tilde)
        decreases |rest|
      {
        var x := Expand(rest, SizeofStr, g.opts.tabSize);
        full := DrawChars(t, x.0, maxLen, tilde);
        if full {
          return;
        }
        if x.1 == |rest| {
          break;
        }
        rest := rest[x.1..];
      }
      full := MaxLen(E(), State()) == 0;
    }

    /** draw_text */
    method DrawText(t: LineType, s: string) returns (full: bool)
      modifies this`col, this`curtype, this`out
      ensures Drawn(State(), full) == Cells.DrawText(E(), old(State()), t, s)
    {
      full := DrawTextExpanded(t, s, MaxLen(E(), State()), true);
    }

    /** draw_text_overflow */
    method DrawTextOverflow(text: string, on: bool, overflow: int, t: LineType) returns (full: bool)
      requires on ==> overflow >= 0
      modifies this`col, this`curtype, this`out
      ensures Drawn(State(), full) == Cells.DrawTextOverflow(E(), old(State()), text, on, overflow, t)
    {
      if on {
        ghost var e0, p0 := E(), State();
        var max := UMin(MaxLen(E(), State()), overflow);
        full := DrawTextExpanded(t, text, max, max < overflow);
        ghost var d := Drawn(State(), full);
        if !full {
          full := DrawRest(LineOverflow, if |text| > overflow then text[overflow..] else "");
        }
        OverflowSteps(e0, p0, text, overflow, t, d, Drawn(State(), full));
      } else {
        full := DrawRest(t, text);
      }
    }

    /** The tail of draw_text_overflow: the rest of the text, if any. */
    method DrawRest(t: LineType, s: string) returns (full: bool)
      modifies this`col, this`curtype, this`out
      ensures Drawn(State(), full) == Cells.DrawRest(E(), old(State()), t, s)
    {
      full := false;
      if |s| > 0 {
        full := DrawText(t, s);
      }
      if !full {
        full := MaxLen(E(), State()) == 0;
      }
    }

    /** draw_formatted, given what the bounded formatting produced. */
    method DrawFormatted(t: LineType, formatted: Option<string>) returns (full: bool)
      modifies this`col, this`curtype, this`out
      ensures Drawn(State(), full) == Cells.DrawFormatted(E(), old(State()), t, formatted)
    {
      if formatted.Some? {
        full := DrawText(t, formatted.value);
      } else {
        full := MaxLen(E(), State()) == 0;
      }
    }

    /** draw_graphic: one glyph at a time, then the optional separator. */
    method DrawGraphic(t: LineType, graphic: seq<Glyph>, size: nat, separator: bool) returns (full: bool)
      requires size <= |graphic|
      modifies this`col, this`curtype, this`out
      ensures Drawn(State(), full) == Cells.DrawGraphic(E(), old(State()), t, graphic, size, separator)
    {
      ghost var e0, p0 := E(), State();
      var skip := Skip(E(), State());
      var max := MaxLen(E(), State());
      var n := if 0 <= max < size then max else size;
      SetViewAttr(t);
      ghost var p1 := State();
      if skip < n {
        PutGlyphs(graphic, skip, n);
      }
      col := col + n;
      ghost var p2 := Pen(p1.col + n, p1.curtype, p1.out + (if skip < n then Glyphs(graphic[skip..n]) else []));
      assert State() == p2;
      if separator {
        var blank := (max < 0 || n < max) && skip <= n;
        if blank {
          out := out + [Put(Ch(' '))];
        }
        col := col + 1;
        assert State() == Pen(p2.col + 1, p2.curtype, p2.out + (if blank then [Put(Ch(' '))] else []));
      }
      assert E() == e0;
      full := MaxLen(E(), State()) == 0;
      GraphicSteps(e0, p0, t, graphic, size, separator, State());
    }

    /** draw_graphic's loop: one waddch per glyph from `from` up to `to`. */
    method PutGlyphs(graphic: seq<Glyph>, from: nat, to: nat)
      requires from <= to <= |graphic|
      modifies this`out
      ensures out == old(out) + Glyphs(graphic[from..to])
    {
      var i := from;
      while i < to
        invariant from <= i <= to
        invariant out == old(out) + Glyphs(graphic[from..i])
      {
        assert Glyphs(graphic[from..i + 1]) == Glyphs(graphic[from..i]) + [Put(graphic[i])];
        out := out + [Put(graphic[i])];
        i := i + 1;
      }
    }

    // -------------------------------------------------------------------------
    // Fields

    /** draw_field */
    method DrawField(t: LineType, text: Option<string>, width: int, align: Align, trim: bool) returns (full: bool)
      modifies this`col, this`curtype, this`out
      ensures Drawn(State(), full) == Fields.DrawField(E(), old(State()), t, text, width, align, trim)
    {
      var max := UMin(MaxLen(E(), State()), width + 1);
      if text.None? {
        full := DrawSpace(t, max, max);
      } else if align == AlignRight {
        full := DrawRightField(t, text.value, max, trim);
      } else {
        full := DrawFieldBody(t, text.value, max, col, trim);
      }
    }

    /** The right-aligned case of draw_field: the left pad when it is positive. */
    method DrawRightField(t: LineType, s: string, max: int, trim: bool) returns (full: bool)
      modifies this`col, this`curtype, this`out
      ensures Drawn(State(), full) == RightField(E(), old(State()), t, s, max, trim)
    {
      var leftpad := max - g.ext.widthMax(s, max) - 1;
      if leftpad > 0 {
        full := DrawPaddedField(t, s, max, leftpad, trim);
      } else {
        full := DrawFieldBody(t, s, max, col, trim);
      }
    }

    /** The left pad, then the content in the rest of the field. */
    method DrawPaddedField(t: LineType, s: string, max: int, leftpad: int, trim: bool) returns (full: bool)
      modifies this`col, this`curtype, this`out
      ensures Drawn(State(), full) == PaddedField(E(), old(State()), t, s, max, leftpad, trim)
    {
      ghost var e0, p0 := E(), State();
      var col0 := col;
      full := DrawSpace(t, leftpad, leftpad);
      ghost var d := Drawn(State(), full);
      assert d == Cells.DrawSpace(e0, p0, t, leftpad, leftpad);
      if !full {
        full := DrawFieldBody(t, s, max - leftpad, col0 + leftpad, trim);
        assert Drawn(State(), full) == FieldBody(e0, d.pen, t, s, max - leftpad, p0.col + leftpad, trim);
      }
      assert E() == e0;
      PaddedSteps(e0, p0, t, s, max, leftpad, trim, d, Drawn(State(), full));
    }

    /** The end of draw_field: the content, then blanks up to `max` cells past `col0`. */
    method DrawFieldBody(t: LineType, s: string, max: int, col0: int, trim: bool) returns (full: bool)
      modifies this`col, this`curtype, this`out
      ensures Drawn(State(), full) == FieldBody(E(), old(State()), t, s, max, col0, trim)
    {
      ghost var e0, p0 := E(), State();
      full := DrawChars(t, s, max - 1, trim);
      ghost var d := Drawn(State(), full);
      assert d == Cells.DrawChars(e0, p0, t, s, max - 1, trim);
      if !full {
        full := DrawSpace(LineDefault, max - (col - col0), max);
        assert Drawn(State(), full) == Cells.DrawSpace(e0, d.pen, LineDefault, max - (d.pen.col - col0), max);
      }
      assert E() == e0;
      BodySteps(e0, p0, t, s, max, col0, trim, d, Drawn(State(), full));
    }

    /** draw_date */
    method DrawDate(time: Option<Time>) returns (full: bool)
      modifies this`col, this`curtype, this`out
      ensures Drawn(State(), full) == Fields.DrawDate(E(), old(State()), time)
    {
      var date := g.ext.mkdate(time, g.opts.showDate);
      var cols := if g.opts.showDate == DateShort then DateShortWidth else DateWidth;
      if g.opts.showDate == DateNo {
        return false;
      }
      full := DrawField(LineDate, date, cols, AlignLeft, false);
    }

    /** draw_author */
    method DrawAuthor(author: Option<Ident>, width: int) returns (full: bool)
      modifies this`col, this`curtype, this`out
      ensures Drawn(State(), full) == Fields.DrawAuthor(E(), old(State()), author, width)
    {
      var trim := g.ext.authorTrim(width);
      var text := g.ext.mkauthor(author, width, g.opts.showAuthor);
      if g.opts.showAuthor == AuthorNo {
        return false;
      }
      full := DrawField(LineAuthor, text, width, AlignLeft, trim);
    }

    /** draw_id_custom */
    method DrawIdCustom(t: LineType, id: Option<string>, width: int) returns (full: bool)
      modifies this`col, this`curtype, this`out
      ensures Drawn(State(), full) == Fields.DrawIdCustom(E(), old(State()), t, id, width)
    {
      full := DrawField(t, id, width, AlignLeft, false);
    }

    /** draw_id */
    method DrawId(id: Option<string>) returns (full: bool)
      modifies this`col, this`curtype, this`out
      ensures Drawn(State(), full) == Fields.DrawId(E(), old(State()), id)
    {
      if !g.opts.showId {
        return false;
      }
      full := DrawIdCustom(LineId, id, g.opts.idWidth);
    }

    /** draw_filename */
    method DrawFilename(filename: Option<string>, autoEnabled: bool, mode: nat, width: int) returns (full: bool)
      modifies this`col, this`curtype, this`out
      ensures Drawn(State(), full) == Fields.DrawFilename(E(), old(State()), filename, autoEnabled, mode, width)
    {
      var trim := filename.Some? && Width(filename.value, g.opts.tabSize) >= width;
      var t := if IsDir(mode) then LineDirectory else LineFile;
      if g.opts.showFilename == FilenameNo {
        return false;
      }
      if g.opts.showFilename == FilenameAuto && !autoEnabled {
        return false;
      }
      full := DrawField(t, filename, width, AlignLeft, trim);
    }

    /** draw_file_size */
    method DrawFileSize(size: nat, width: int, pad: bool) returns (full: bool)
      modifies this`col, this`curtype, this`out
      ensures Drawn(State(), full) == Fields.DrawFileSize(E(), old(State()), size, width, pad)
    {
      var str := if pad then None else g.ext.mkfilesize(size, g.opts.showFileSize);
      if width == 0 || g.opts.showFileSize == FileSizeNo {
        return false;
      }
      full := DrawField(LineFileSize, str, width, AlignRight, false);
    }

    /** draw_mode */
    method DrawMode(mode: nat) returns (full: bool)
      modifies this`col, this`curtype, this`out
      ensures Drawn(State(), full) == Fields.DrawMode(E(), old(State()), mode)
    {
      full := DrawField(LineMode, g.ext.mkmode(mode), ModeWidth, AlignLeft, false);
    }

    /** draw_lineno_custom */
    method DrawLinenoCustom(lineno: UInt, show: bool, interval: int) returns (full: bool)
      requires LinenoDefined(lineno, show, interval)
      modifies this`col, this`curtype, this`out
      ensures Drawn(State(), full) == Fields.DrawLinenoCustom(E(), old(State()), lineno, show, interval)
    {
      var digits3 := if g.digits < 3 then 3 else g.digits;
      var max := UMin(MaxLen(E(), State()), digits3);
      var separator := LinenoSeparator(E());
      if !show {
        return false;
      }
      var text := LinenoLabel(E(), lineno, interval);
      if text.Some? {
        var _ := DrawChars(LineLineNumber, text.value, max, true);
      } else {
        var _ := DrawSpace(LineLineNumber, max, digits3);
      }
      full := DrawGraphic(LineDefault, [separator], 1, true);
    }

    /** draw_lineno */
    method DrawLineno(lineno: UInt) returns (full: bool)
      requires LinenoDefined(DisplayedLineno(E(), lineno), g.opts.showLineNumbers, g.opts.lineNumberInterval)
      modifies this`col, this`curtype, this`out
      ensures Drawn(State(), full) == Fields.DrawLineno(E(), old(State()), lineno)
    {
      var shown := DisplayedLineno(E(), lineno);
      full := DrawLinenoCustom(shown, g.opts.showLineNumbers, g.opts.lineNumberInterval);
    }

    /** draw_refs */
    method DrawRefs(refs: Option<seq<Ref>>) returns (full: bool)
      modifies this`col, this`curtype, this`out
      ensures Drawn(State(), full) == Fields.DrawRefs(E(), old(State()), refs)
    {
      if !g.opts.showRefs || refs.None? {
        return false;
      }
      var list := refs.value;
      var i := 0;
      while i < |list|
        invariant i <= |list|
        invariant RefsFrom(E(), State(), list, i) == RefsFrom(E(), old(State()), list, 0)
        decreases |list| - i
      {
        var ref := list[i];
        full := DrawFormatted(ref.kind, g.ext.formatRef(ref.name));
        if full {
          return;
        }
        full := DrawText(LineDefault, " ");
        if full {
          return;
        }
        i := i + 1;
      }
      full := false;
    }

    // -------------------------------------------------------------------------
    // Revision graph

    /** draw_graph_ascii, draw_graph_utf8 and draw_graph_chtype, as `opt_line_graphics`
        selects them. */
    method DrawSymbol(s: GraphSymbol, color: LineType, first: bool) returns (full: bool)
      requires SymbolOk(s)
      modifies this`col, this`curtype, this`out
      ensures Drawn(State(), full) == Graph.DrawSymbol(E(), old(State()), s, color, first)
    {
      if g.opts.lineGraphics == GraphicDefault {
        var chars := s.glyphs;
        full := DrawGraphic(color, if first then chars[1..] else chars, if first then 1 else 2, false);
      } else {
        var chars := SymbolText(E(), s);
        full := DrawText(color, if first then chars[1..] else chars);
      }
    }

    /** draw_graph */
    method DrawGraph(symbols: seq<GraphSymbol>) returns (full: bool)
      requires SymbolsOk(symbols)
      modifies this`col, this`curtype, this`out
      ensures Drawn(State(), full) == Graph.DrawGraph(E(), old(State()), symbols)
    {
      ghost var e0, p0 := E(), State();
      ghost var target := GraphFrom(e0, p0, symbols, 0);
      var i := 0;
      while i < |symbols|
        invariant i <= |symbols| && E() == e0
        invariant i == 0 ==> State() == p0
        invariant 0 < i ==> GraphFrom(e0, State(), symbols, i) == target
        decreases |symbols| - i
      {
        full := DrawGraphTurn(symbols, i);
        if full {
          return;
        }
        i := i + 1;
      }
      full := DrawText(LineDefault, " ");
    }

    /** One turn of draw_graph's loop: symbol `i` in its colour. When that exhausts
        the budget, the loop's answer is reached; otherwise the loop goes on. */
    method DrawGraphTurn(symbols: seq<GraphSymbol>, i: nat) returns (full: bool)
      requires i < |symbols| && SymbolsOk(symbols)
      modifies this`col, this`curtype, this`out
      ensures full ==> Drawn(State(), full) == GraphFrom(E(), old(State()), symbols, i)
      ensures !full ==> GraphFrom(E(), State(), symbols, i + 1) == GraphFrom(E(), old(State()), symbols, i)
    {
      ghost var e0, p := E(), State();
      var color := GetGraphColor(symbols[i]);
      full := DrawSymbol(symbols[i], color, i == 0);
      ghost var d := Drawn(State(), full);
      assert d == Graph.DrawSymbol(e0, p, symbols[i], color, i == 0);
      assert E() == e0;
      GraphStep(e0, p, symbols, i);
    }

    // -------------------------------------------------------------------------
    // Rows

    /** draw_commit_title, the collaborator, applied to the view. */
    method DrawCommitTitle(text: string) returns (full: bool)
      modifies this`col, this`curtype, this`out
      ensures Drawn(State(), full) == title(E(), old(State()), text)
    {
      var d := title(E(), State(), text);
      col, curtype, out := d.pen.col, d.pen.curtype, d.pen.out;
      full := d.exhausted;
    }

    /** The commit-title case of the column switch. */
    method DrawCommitTitleColumn(c: Columns) returns (full: bool)
      requires ColumnsOk(c)
      modifies this`col, this`curtype, this`out
      ensures Drawn(State(), full) == CommitTitleColumn(E(), old(State()), c, title)
    {
      if c.graph.Some? {
        full := DrawGraph(c.graph.value);
        if full {
          return;
        }
      }
      if c.refs.Some? {
        full := DrawRefs(c.refs);
        if full {
          return;
        }
      }
      full := DrawCommitTitle(c.commitTitle);
    }

    /** One pass of view_columns_draw's switch. */
    method DrawColumn(kind: LineType, c: Columns, lineno: nat, column: Column) returns (full: bool)
      requires ColumnsOk(c) && LinenoReady(E(), lineno)
      modifies this`col, this`curtype, this`out
      ensures Drawn(State(), full) == ColumnStep(E(), old(State()), kind, c, lineno, column, title)
    {
      ghost var e0, p0 := E(), State();
      var width := column.width;
      match column.kind {
        case ColDate =>
          full := DrawDate(c.date);
        case ColAuthor =>
          full := DrawAuthor(c.author, if g.opts.authorWidth != 0 then g.opts.authorWidth else width);
        case ColRef =>
          full := DrawField(RefType(c.ref), RefName(c.ref), width, AlignLeft, false);
        case ColId =>
          full := DrawIdColumn(c.id, width);
        case ColLineNumber =>
          full := DrawLineno(lineno);
        case ColMode =>
          full := DrawMode(ModeOf(c));
        case ColFileSize =>
          full := DrawFileSize(if c.fileSize.Some? then c.fileSize.value else 0, width,
                               c.mode.None? || IsDir(c.mode.value));
        case ColCommitTitle =>
          full := DrawCommitTitleColumn(c);
        case ColFileName =>
          full := DrawFilename(c.fileName, true, ModeOf(c),
                               if g.opts.filenameWidth != 0 then g.opts.filenameWidth else width);
        case ColText =>
          full := DrawText(kind, c.text);
      }
      ColumnSteps(e0, p0, kind, c, lineno, column, title, Drawn(State(), full));
    }

    /** The id column: draw_id first when the schema width is zero, then
        draw_id_custom when ids are shown. */
    method DrawIdColumn(id: Option<string>, width: int) returns (full: bool)
      modifies this`col, this`curtype, this`out
      ensures Drawn(State(), full) == IdColumn(E(), old(State()), id, width)
    {
      full := false;
      if width == 0 {
        full := DrawId(id);
      }
      if !full && g.opts.showId {
        full := DrawIdCustom(LineId, id, width);
      }
    }

    /** view_columns_draw */
    method ViewColumnsDraw(row: Row, lineno: nat) returns (full: bool)
      requires RowOk(row) && LinenoReady(E(), lineno)
      modifies this`col, this`curtype, this`out
      ensures Drawn(State(), full) == Rows.ViewColumnsDraw(E(), old(State()), row, lineno, title)
    {
      if row.columns.None? {
        return true;
      }
      var c := row.columns.value;
      var i := 0;
      while i < |g.schema|
        invariant i <= |g.schema|
        invariant ColumnsFrom(E(), State(), row.kind, c, lineno, title, i).pen ==
                  ColumnsFrom(E(), old(State()), row.kind, c, lineno, title, 0).pen
        decreases |g.schema| - i
      {
        var stop := DrawColumn(row.kind, c, lineno, g.schema[i]);
        if stop {
          return true;
        }
        i := i + 1;
      }
      full := true;
    }

    /** draw_view_line */
    method DrawViewLine(lineno: nat) returns (drawn: bool)
      requires line.Length == g.lines && RowsOk(line[..]) && LinenoReady(Env(g, false), lineno)
      modifies this, line
      ensures Step(Scr(), drawn) == Redraw.DrawViewLine(g, title, old(Scr()), lineno)
    {
      var k := g.offset + lineno;
      if k >= g.lines {
        return false;
      }
      ghost var s0 := Scr();
      BeginLine(lineno);
      assert RowOk(line[k]) by {
        assert RowOk(s0.rows[k]);
      }
      ghost var rows := line[..];
      drawn := ViewColumnsDraw(line[k], lineno);
      assert line[..] == rows;
      LineSteps(g, title, s0, lineno, Drawn(State(), drawn));
    }

    /** The start of draw_view_line: the move, the optional clear, the reset drawing
        state, the row's flags and, for the cursor row, its attribute and selection. */
    method BeginLine(lineno: nat)
      requires line.Length == g.lines && g.offset + lineno < g.lines
      modifies this, line
      ensures var k := g.offset + lineno;
        && State() == LineStart(g, old(Scr()), lineno)
        && line[..] == old(line[..])[k := CleanRow(old(line[k]), k == g.cursor)]
        && curline == k
    {
      var k := g.offset + lineno;
      var selected := k == g.cursor;
      var row := line[k];
      out := out + [Move(lineno)];
      if row.cleareol {
        out := out + [ClearToEol];
      }
      col := 0;
      curline := k;
      curtype := LineNone;
      line[k] := row.(selected := false, dirty := false, cleareol := false);
      assert E() == Env(g, false);
      if selected {
        SetViewAttr(LineCursor);
        line[k] := line[k].(selected := true);
        out := out + [Select(k)];
      }
    }

    // -------------------------------------------------------------------------
    // Redraw drivers

    /** redraw_view_dirty */
    method RedrawViewDirty()
      requires line.Length == g.lines && RowsOk(line[..]) && ViewReady(g)
      modifies this, line
      ensures Scr() == Redraw.RedrawViewDirty(g, title, old(Scr()))
    {
      ghost var target := DirtyFrom(g, title, old(Scr()), 0, false);
      var dirty := false;
      var lineno := 0;
      while lineno < g.height
        invariant ScreenOk(g, Scr())
        invariant DirtyFrom(g, title, Scr(), lineno, dirty) == target
        decreases g.height - lineno
      {
        if g.offset + lineno >= g.lines {
          break;
        }
        if !line[g.offset + lineno].dirty {
          lineno := lineno + 1;
          continue;
        }
        dirty := true;
        assert LinenoReady(Env(g, false), lineno);
        ghost var before := Scr();
        var ok := DrawViewLine(lineno);
        DrawViewLineRows(g, title, before, lineno);
        if !ok {
          break;
        }
        lineno := lineno + 1;
      }
      if !dirty {
        return;
      }
      out := out + [Refresh];
    }

    /** redraw_view_from */
    method RedrawViewFrom(lineno: nat)
      requires line.Length == g.lines && RowsOk(line[..]) && ViewReady(g)
      requires lineno < g.height
      modifies this, line
      ensures Scr() == Redraw.RedrawViewFrom(g, title, old(Scr()), lineno)
    {
      if g.layoutChanged {
        LayoutRecompute();
      }
      ghost var start := Scr();
      assert start == if g.layoutChanged then Append(old(Scr()), LayoutEvents(g.lines)) else old(Scr());
      ghost var target := FromLoop(g, title, start, lineno);
      var n := lineno;
      while n < g.height
        invariant ScreenOk(g, Scr())
        invariant FromLoop(g, title, Scr(), n) == target
        decreases g.height - n
      {
        assert LinenoReady(Env(g, false), n);
        ghost var before := Scr();
        var ok := DrawViewLine(n);
        DrawViewLineRows(g, title, before, n);
        if !ok {
          break;
        }
        n := n + 1;
      }
      out := out + [Refresh];
    }

    /** view_columns_info_init, then view_columns_info_update for every row. */
    method LayoutRecompute()
      modifies this`out
      ensures out == old(out) + LayoutEvents(g.lines)
    {
      out := out + [LayoutInit];
      var i := 0;
      while i < g.lines
        invariant i <= g.lines
        invariant out == old(out) + [LayoutInit] + seq(i, j requires 0 <= j < i => LayoutUpdate(j))
      {
        out := out + [LayoutUpdate(i)];
        i := i + 1;
      }
    }

    /** redraw_view */
    method RedrawView()
      requires line.Length == g.lines && RowsOk(line[..]) && ViewReady(g)
      requires 0 < g.height
      modifies this, line
      ensures Scr() == Redraw.RedrawView(g, title, old(Scr()))
    {
      out := out + [Erase];
      RedrawViewFrom(0);
    }
  }
}
