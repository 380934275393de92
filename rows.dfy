/** view_columns_draw: the row renderer that walks the view's column schema in order
    and hands each column to its field renderer, stopping once one of them reports
    that the viewport is exhausted. */
module Rows {
  import opened Types
  import opened Text
  import opened Cells
  import opened Fields
  import opened Graph

  /** draw_commit_title, defined outside draw.c: an opaque renderer of the title. */
  type Title = (Env, Pen, string) -> Drawn

  /** What every renderer of draw.c keeps, and what the title renderer must keep too:
      the log only grows, and "exhausted" is only answered once no budget is left. */
  predicate Answers(e: Env, p: Pen, d: Drawn)
  {
    (d.exhausted ==> MaxLen(e, d.pen) == 0) && Extends(p, d.pen)
  }

  ghost predicate TitleOk(title: Title)
  {
    forall e: Env, p: Pen, s: string :: Answers(e, p, title(e, p, s))
  }

  /** Whether the row's line number can be drawn: it is an `unsigned int`, and the
      modulo by the interval is defined whenever line numbers are shown. */
  predicate LinenoReady(e: Env, lineno: nat)
  {
    lineno < 0x1_0000_0000 &&
    LinenoDefined(DisplayedLineno(e, lineno), e.g.opts.showLineNumbers, e.g.opts.lineNumberInterval)
  }

  /** The attribute of the ref column: the default one for no ref or an invalid ref. */
  function RefType(ref: Option<Ref>): LineType
  {
    if ref.None? || !ref.value.valid then LineDefault else ref.value.kind
  }

  function RefName(ref: Option<Ref>): Option<string>
  {
    if ref.Some? then Some(ref.value.name) else None
  }

  /** `columns.mode ? *columns.mode : 0` */
  function ModeOf(c: Columns): nat
  {
    if c.mode.Some? then c.mode.value else 0
  }

  /** The id column: with a zero schema width draw_id is tried first; unless that
      exhausted the budget, draw_id_custom follows whenever ids are shown, with the
      schema width, even when it is zero. */
  function IdColumn(e: Env, p: Pen, id: Option<string>, width: int): Drawn
  {
    var d := if width == 0 then DrawId(e, p, id) else Drawn(p, false);
    if d.exhausted then d
    else if e.g.opts.showId then DrawIdCustom(e, d.pen, LineId, id, width)
    else d
  }

  /** The commit-title column: the graph, the refs, then the title itself. */
  function CommitTitleColumn(e: Env, p: Pen, c: Columns, title: Title): Drawn
    requires ColumnsOk(c)
  {
    var d1 := if c.graph.Some? then DrawGraph(e, p, c.graph.value) else Drawn(p, false);
    if d1.exhausted then d1
    else
      var d2 := if c.refs.Some? then DrawRefs(e, d1.pen, c.refs) else Drawn(d1.pen, false);
      if d2.exhausted then d2 else title(e, d2.pen, c.commitTitle)
  }

  /** One pass of the column switch. */
  function ColumnStep(e: Env, p: Pen, kind: LineType, c: Columns, lineno: nat, column: Column, title: Title): Drawn
    requires ColumnsOk(c) && LinenoReady(e, lineno)
  {
    var width := column.width;
    match column.kind
    case ColDate => DrawDate(e, p, c.date)
    case ColAuthor =>
      DrawAuthor(e, p, c.author, if e.g.opts.authorWidth != 0 then e.g.opts.authorWidth else width)
    case ColRef => DrawField(e, p, RefType(c.ref), RefName(c.ref), width, AlignLeft, false)
    case ColId => IdColumn(e, p, c.id, width)
    case ColLineNumber => DrawLineno(e, p, lineno)
    case ColMode => DrawMode(e, p, ModeOf(c))
    case ColFileSize =>
      DrawFileSize(e, p, if c.fileSize.Some? then c.fileSize.value else 0, width,
                   c.mode.None? || IsDir(c.mode.value))
    case ColCommitTitle => CommitTitleColumn(e, p, c, title)
    case ColFileName =>
      DrawFilename(e, p, c.fileName, true, ModeOf(c),
                   if e.g.opts.filenameWidth != 0 then e.g.opts.filenameWidth else width)
    case ColText => DrawText(e, p, kind, c.text)
  }

  /** The column loop from schema entry `i` on: the answer is that of the column that
      exhausted the budget, or FALSE once the schema is done. */
  function ColumnsFrom(e: Env, p: Pen, kind: LineType, c: Columns, lineno: nat, title: Title, i: nat): Drawn
    requires i <= |e.g.schema| && ColumnsOk(c) && LinenoReady(e, lineno)
    decreases |e.g.schema| - i
  {
    if i == |e.g.schema| then Drawn(p, false)
    else
      var d := ColumnStep(e, p, kind, c, lineno, e.g.schema[i], title);
      if d.exhausted then d else ColumnsFrom(e, d.pen, kind, c, lineno, title, i + 1)
  }

  /** view_columns_draw: nothing for a row without columns; the answer is always TRUE. */
  function ViewColumnsDraw(e: Env, p: Pen, row: Row, lineno: nat, title: Title): (r: Drawn)
    requires RowOk(row) && LinenoReady(e, lineno)
    ensures r.exhausted
  {
    if row.columns.None? then Drawn(p, true)
    else Drawn(ColumnsFrom(e, p, row.kind, row.columns.value, lineno, title, 0).pen, true)
  }

  // ---------------------------------------------------------------------------
  // Properties

  lemma AnswersSame(e: Env, p: Pen)
    ensures Answers(e, p, Drawn(p, false))
  {
    ExtendsAppend(p, p, []);
  }

  lemma FieldAnswers(e: Env, p: Pen, t: LineType, text: Option<string>, width: int, align: Align, trim: bool)
    requires Measures(e)
    ensures Answers(e, p, DrawField(e, p, t, text, width, align, trim))
  {
    DrawFieldStride(e, p, t, text, width, align, trim);
  }

  /** The id column, including its fall-through, keeps the renderers' answer. */
  lemma IdAnswers(e: Env, p: Pen, id: Option<string>, width: int)
    requires Measures(e)
    ensures Answers(e, p, IdColumn(e, p, id, width))
  {
    var d := if width == 0 then DrawId(e, p, id) else Drawn(p, false);
    DrawIdLayout(e, p, id);
    AnswersSame(e, p);
    assert Answers(e, p, d);
    if !d.exhausted && e.g.opts.showId {
      FieldAnswers(e, d.pen, LineId, id, width, AlignLeft, false);
      ExtendsTrans(p, d.pen, DrawIdCustom(e, d.pen, LineId, id, width).pen);
    }
  }

  /** draw_graphic with a separator only appends. */
  lemma SeparatorExtends(e: Env, p: Pen, t: LineType, g: seq<Glyph>, size: nat)
    requires size <= |g|
    ensures Extends(p, DrawGraphic(e, p, t, g, size, true).pen)
  {
    var d := DrawGraphic(e, p, t, g, size, true);
    var p1 := SetViewAttr(e, p, t);
    SetViewAttrOnChange(e, p, t);
    assert p1.out == p.out + (if !e.selected && p.curtype != t then [SetAttr(t)] else []);
    ExtendsAppend(p, d.pen, d.pen.out[|p.out|..]);
  }

  /** The line-number column answers "exhausted" exactly when no budget is left. */
  lemma LinenoAnswers(e: Env, p: Pen, lineno: UInt, show: bool, interval: int)
    requires Measures(e) && LinenoDefined(lineno, show, interval)
    ensures Answers(e, p, DrawLinenoCustom(e, p, lineno, show, interval))
  {
    if show {
      var digits3 := Digits3(e);
      var max := UMin(MaxLen(e, p), digits3);
      var text := LinenoLabel(e, lineno, interval);
      var p1 := if text.Some? then DrawChars(e, p, LineLineNumber, text.value, max, true).pen
                else DrawSpace(e, p, LineLineNumber, max, digits3).pen;
      assert Extends(p, p1) by {
        if text.Some? {
          DrawCharsBounds(e, p, LineLineNumber, text.value, max, true);
        } else {
          SpaceBounds(e, p, LineLineNumber, max, digits3);
        }
      }
      SeparatorExtends(e, p1, LineDefault, [LinenoSeparator(e)], 1);
      ExtendsTrans(p, p1, DrawGraphic(e, p1, LineDefault, [LinenoSeparator(e)], 1, true).pen);
    } else {
      AnswersSame(e, p);
    }
  }

  lemma RefsAnswers(e: Env, p: Pen, refs: Option<seq<Ref>>)
    requires Measures(e)
    ensures Answers(e, p, DrawRefs(e, p, refs))
  {
    if !e.g.opts.showRefs || refs.None? || refs.value == [] {
      AnswersSame(e, p);
    } else {
      RefsAnswer(e, p, refs.value, 0);
    }
  }

  /** The graph, the refs and the title each keep the answer, and so does the column. */
  lemma CommitTitleAnswers(e: Env, p: Pen, c: Columns, title: Title)
    requires Measures(e) && ColumnsOk(c) && TitleOk(title)
    ensures Answers(e, p, CommitTitleColumn(e, p, c, title))
  {
    var d1 := if c.graph.Some? then DrawGraph(e, p, c.graph.value) else Drawn(p, false);
    assert Answers(e, p, d1) by {
      if c.graph.Some? {
        GraphAnswer(e, p, c.graph.value, 0);
      } else {
        AnswersSame(e, p);
      }
    }
    if !d1.exhausted {
      var d2 := if c.refs.Some? then DrawRefs(e, d1.pen, c.refs) else Drawn(d1.pen, false);
      assert Answers(e, d1.pen, d2) by {
        RefsAnswers(e, d1.pen, c.refs);
        AnswersSame(e, d1.pen);
      }
      ExtendsTrans(p, d1.pen, d2.pen);
      if !d2.exhausted {
        var d3 := title(e, d2.pen, c.commitTitle);
        assert Answers(e, d2.pen, d3);
        ExtendsTrans(p, d2.pen, d3.pen);
      }
    }
  }

  /** Every column renderer keeps the answer: the log only grows, and a column reports
      exhaustion only once the budget is gone. */
  lemma ColumnStepAnswers(e: Env, p: Pen, kind: LineType, c: Columns, lineno: nat, column: Column, title: Title)
    requires Measures(e) && ColumnsOk(c) && LinenoReady(e, lineno) && TitleOk(title)
    ensures Answers(e, p, ColumnStep(e, p, kind, c, lineno, column, title))
  {
    var d := ColumnStep(e, p, kind, c, lineno, column, title);
    var width := column.width;
    match column.kind
    case ColDate =>
      assert d == DrawDate(e, p, c.date);
      DrawDateLayout(e, p, c.date);
      AnswersSame(e, p);
    case ColAuthor =>
      var w := if e.g.opts.authorWidth != 0 then e.g.opts.authorWidth else width;
      assert d == DrawAuthor(e, p, c.author, w);
      DrawAuthorLayout(e, p, c.author, w);
      AnswersSame(e, p);
    case ColRef =>
      FieldAnswers(e, p, RefType(c.ref), RefName(c.ref), width, AlignLeft, false);
    case ColId =>
      IdAnswers(e, p, c.id, width);
    case ColLineNumber =>
      assert d == DrawLineno(e, p, lineno);
      LinenoAnswers(e, p, DisplayedLineno(e, lineno), e.g.opts.showLineNumbers, e.g.opts.lineNumberInterval);
    case ColMode =>
      assert d == DrawMode(e, p, ModeOf(c));
      DrawModeLayout(e, p, ModeOf(c));
    case ColFileSize =>
      var size := if c.fileSize.Some? then c.fileSize.value else 0;
      var pad := c.mode.None? || IsDir(c.mode.value);
      assert d == DrawFileSize(e, p, size, width, pad);
      DrawFileSizeLayout(e, p, size, width, pad);
      AnswersSame(e, p);
    case ColCommitTitle =>
      CommitTitleAnswers(e, p, c, title);
    case ColFileName =>
      var w := if e.g.opts.filenameWidth != 0 then e.g.opts.filenameWidth else width;
      assert d == DrawFilename(e, p, c.fileName, true, ModeOf(c), w);
      DrawFilenameLayout(e, p, c.fileName, true, ModeOf(c), w);
      AnswersSame(e, p);
    case ColText =>
      DrawTextExpandedAnswer(e, p, kind, c.text, MaxLen(e, p), true);
  }

  /** The column loop stops early only once the budget is gone, and only appends. */
  lemma {:induction false} ColumnsAnswer(e: Env, p: Pen, kind: LineType, c: Columns, lineno: nat, title: Title, i: nat)
    requires Measures(e) && ColumnsOk(c) && LinenoReady(e, lineno) && TitleOk(title)
    requires i <= |e.g.schema|
    ensures Answers(e, p, ColumnsFrom(e, p, kind, c, lineno, title, i))
    decreases |e.g.schema| - i
  {
    if i == |e.g.schema| {
      AnswersSame(e, p);
    } else {
      var d := ColumnStep(e, p, kind, c, lineno, e.g.schema[i], title);
      assert Answers(e, p, d) by {
        ColumnStepAnswers(e, p, kind, c, lineno, e.g.schema[i], title);
      }
      if !d.exhausted {
        var r := ColumnsFrom(e, d.pen, kind, c, lineno, title, i + 1);
        assert ColumnsFrom(e, p, kind, c, lineno, title, i) == r;
        assert Answers(e, d.pen, r) by {
          ColumnsAnswer(e, d.pen, kind, c, lineno, title, i + 1);
        }
        ExtendsTrans(p, d.pen, r.pen);
      }
    }
  }

  /** view_columns_draw always answers TRUE and only appends to the log. */
  lemma ViewColumnsDrawAnswer(e: Env, p: Pen, row: Row, lineno: nat, title: Title)
    requires Measures(e) && RowOk(row) && LinenoReady(e, lineno) && TitleOk(title)
    ensures var d := ViewColumnsDraw(e, p, row, lineno, title);
      d.exhausted && Extends(p, d.pen)
  {
    if row.columns.Some? {
      ColumnsAnswer(e, p, row.kind, row.columns.value, lineno, title, 0);
    } else {
      ExtendsAppend(p, p, []);
    }
  }

  /** A row without columns draws nothing. */
  lemma NoColumnsNothing(e: Env, p: Pen, row: Row, lineno: nat, title: Title)
    requires RowOk(row) && LinenoReady(e, lineno) && row.columns.None?
    ensures ViewColumnsDraw(e, p, row, lineno, title).pen == p
  {
  }

  /** The id column's fall-through: with a zero schema width and ids shown, draw_id
      lays out a field of the configured id width and, when that leaves budget,
      draw_id_custom follows with a second field of width zero, i.e. one more blank. */
  lemma IdFallThrough(e: Env, p: Pen, id: Option<string>)
    requires Measures(e) && e.g.opts.showId
    requires 0 <= e.g.opts.idWidth && e.g.opts.idWidth + 2 < MaxLen(e, p)
    ensures var d := IdColumn(e, p, id, 0);
      d.pen.col == p.col + e.g.opts.idWidth + 2 && !d.exhausted
  {
    var d1 := DrawId(e, p, id);
    DrawIdLayout(e, p, id);
    assert d1.pen.col == p.col + e.g.opts.idWidth + 1;
    DrawFieldStride(e, d1.pen, LineId, id, 0, AlignLeft, false);
  }

  /** With a positive schema width the id column is a single field of that width, or
      nothing at all when ids are hidden. */
  lemma IdSchemaWidth(e: Env, p: Pen, id: Option<string>, width: int)
    requires Measures(e) && width != 0
    ensures var d := IdColumn(e, p, id, width);
      && (!e.g.opts.showId ==> d == Drawn(p, false))
      && (e.g.opts.showId ==> FieldStrides(e, p, d, width))
  {
    if e.g.opts.showId {
      DrawFieldStride(e, p, LineId, id, width, AlignLeft, false);
    }
  }
}
