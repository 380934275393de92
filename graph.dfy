/** The revision-graph column of draw.c: one cell pair per graph symbol, in the
    symbol's colour, through one of three glyph tables. */
module Graph {
  import opened Types
  import opened Text
  import opened Cells

  /** get_graph_color: the commit colour for the commit's own symbol, otherwise the
      palette entry the symbol names (the source asserts it is one of seven). */
  function GetGraphColor(s: GraphSymbol): (t: LineType)
    requires s.commit || s.color < PaletteSize
    ensures s.commit <==> t == LineGraphCommit
    ensures !s.commit ==> t.LinePalette? && t.index == s.color && t.index < PaletteSize
  {
    if s.commit then LineGraphCommit else LinePalette(s.color)
  }

  /** The text the ASCII or UTF-8 table gives for a symbol. */
  function SymbolText(e: Env, s: GraphSymbol): string
  {
    if e.g.opts.lineGraphics == GraphicAscii then s.ascii else s.utf8
  }

  /** draw_graph_ascii and draw_graph_utf8: the symbol's text in its colour, without
      its first character for the first symbol of the row; draw_graph_chtype: two
      glyph cells, or only the second for the first symbol of the row. The table is
      the one `opt_line_graphics` selects. */
  function DrawSymbol(e: Env, p: Pen, s: GraphSymbol, color: LineType, first: bool): Drawn
    requires SymbolOk(s)
  {
    if e.g.opts.lineGraphics == GraphicDefault then
      DrawGraphic(e, p, color, if first then s.glyphs[1..] else s.glyphs, if first then 1 else 2, false)
    else
      var chars := SymbolText(e, s);
      DrawText(e, p, color, if first then chars[1..] else chars)
  }

  predicate SymbolsOk(symbols: seq<GraphSymbol>)
  {
    forall i :: 0 <= i < |symbols| ==> SymbolOk(symbols[i])
  }

  /** The loop of draw_graph from symbol `i` on, then the separating blank. */
  function GraphFrom(e: Env, p: Pen, symbols: seq<GraphSymbol>, i: nat): Drawn
    requires i <= |symbols| && SymbolsOk(symbols)
    decreases |symbols| - i
  {
    if i == |symbols| then DrawText(e, p, LineDefault, " ")
    else
      var d := DrawSymbol(e, p, symbols[i], GetGraphColor(symbols[i]), i == 0);
      if d.exhausted then d else GraphFrom(e, d.pen, symbols, i + 1)
  }

  /** draw_graph */
  function DrawGraph(e: Env, p: Pen, symbols: seq<GraphSymbol>): Drawn
    requires SymbolsOk(symbols)
  {
    GraphFrom(e, p, symbols, 0)
  }

  // ---------------------------------------------------------------------------
  // Properties

  /** Every symbol is drawn in its own colour: with budget left, its write opens by
      applying that attribute. */
  lemma DrawSymbolColour(e: Env, p: Pen, s: GraphSymbol, first: bool)
    requires Measures(e) && SymbolOk(s)
    requires 0 < MaxLen(e, p)
    ensures Extends(SetViewAttr(e, p, GetGraphColor(s)), DrawSymbol(e, p, s, GetGraphColor(s), first).pen)
  {
    var color := GetGraphColor(s);
    if e.g.opts.lineGraphics == GraphicDefault {
      var g := if first then s.glyphs[1..] else s.glyphs;
      var size := if first then 1 else 2;
      DrawGraphicLayout(e, p, color, g, size, false);
      var d := DrawGraphic(e, p, color, g, size, false);
      var p1 := SetViewAttr(e, p, color);
      ExtendsAppend(p1, d.pen, d.pen.out[|p1.out|..]);
    } else {
      var chars := SymbolText(e, s);
      var text := if first then chars[1..] else chars;
      DrawTextOpens(e, p, color, text);
    }
  }

  /** draw_text with budget opens by applying its attribute. */
  lemma DrawTextOpens(e: Env, p: Pen, t: LineType, s: string)
    requires Measures(e) && 0 < MaxLen(e, p)
    ensures Extends(SetViewAttr(e, p, t), DrawText(e, p, t, s).pen)
  {
    var x := Expand(s, SizeofStr, e.g.opts.tabSize);
    var d := DrawChars(e, p, t, x.0, MaxLen(e, p), true);
    DrawCharsOpens(e, p, t, x.0, MaxLen(e, p), true);
    if !d.exhausted && x.1 != |s| {
      DrawTextExpandedAnswer(e, d.pen, t, s[x.1..], MaxLen(e, p), true);
      ExtendsTrans(SetViewAttr(e, p, t), d.pen, DrawTextExpanded(e, d.pen, t, s[x.1..], MaxLen(e, p), true).pen);
    }
  }

  /** The graph column answers "exhausted" exactly when no budget is left, and only
      appends to the log. */
  lemma GraphAnswer(e: Env, p: Pen, symbols: seq<GraphSymbol>, i: nat)
    requires Measures(e)
    requires i <= |symbols| && SymbolsOk(symbols)
    ensures var d := GraphFrom(e, p, symbols, i);
      d.exhausted == (MaxLen(e, d.pen) == 0) && Extends(p, d.pen)
  {
    if 0 < i {
      GraphRestAnswer(e, p, symbols, i);
    } else if |symbols| == 0 {
      DrawTextExpandedAnswer(e, p, LineDefault, " ", MaxLen(e, p), true);
    } else {
      var s := symbols[0];
      assert SymbolOk(s);
      var d := DrawSymbol(e, p, s, GetGraphColor(s), true);
      assert d.exhausted == (MaxLen(e, d.pen) == 0) && Extends(p, d.pen) by {
        SymbolAnswer(e, p, s, true);
      }
      if !d.exhausted {
        var r := GraphFrom(e, d.pen, symbols, 1);
        assert r.exhausted == (MaxLen(e, r.pen) == 0) && Extends(d.pen, r.pen) by {
          GraphRestAnswer(e, d.pen, symbols, 1);
        }
        ExtendsTrans(p, d.pen, r.pen);
      }
    }
  }

  /** The same for the symbols after the row's first. */
  lemma {:induction false} GraphRestAnswer(e: Env, p: Pen, symbols: seq<GraphSymbol>, i: nat)
    requires Measures(e)
    requires 0 < i <= |symbols| && SymbolsOk(symbols)
    ensures var d := GraphFrom(e, p, symbols, i);
      d.exhausted == (MaxLen(e, d.pen) == 0) && Extends(p, d.pen)
    decreases |symbols| - i
  {
    if i == |symbols| {
      DrawTextExpandedAnswer(e, p, LineDefault, " ", MaxLen(e, p), true);
    } else {
      var s := symbols[i];
      assert SymbolOk(s);
      var d := DrawSymbol(e, p, s, GetGraphColor(s), false);
      assert d.exhausted == (MaxLen(e, d.pen) == 0) && Extends(p, d.pen) by {
        SymbolAnswer(e, p, s, false);
      }
      if !d.exhausted {
        var r := GraphFrom(e, d.pen, symbols, i + 1);
        assert r.exhausted == (MaxLen(e, r.pen) == 0) && Extends(d.pen, r.pen) by {
          GraphRestAnswer(e, d.pen, symbols, i + 1);
        }
        ExtendsTrans(p, d.pen, r.pen);
      }
    }
  }

  lemma SymbolAnswer(e: Env, p: Pen, s: GraphSymbol, first: bool)
    requires Measures(e) && SymbolOk(s)
    ensures var d := DrawSymbol(e, p, s, GetGraphColor(s), first);
      d.exhausted == (MaxLen(e, d.pen) == 0) && Extends(p, d.pen)
  {
    var color := GetGraphColor(s);
    if e.g.opts.lineGraphics == GraphicDefault {
      var g := if first then s.glyphs[1..] else s.glyphs;
      var size := if first then 1 else 2;
      var d := DrawGraphic(e, p, color, g, size, false);
      GraphicExtends(e, p, color, g, size);
    } else {
      var chars := SymbolText(e, s);
      DrawTextExpandedAnswer(e, p, color, if first then chars[1..] else chars, MaxLen(e, p), true);
    }
  }

  /** draw_graphic without a separator only appends. */
  lemma GraphicExtends(e: Env, p: Pen, t: LineType, g: seq<Glyph>, size: nat)
    requires size <= |g|
    ensures Extends(p, DrawGraphic(e, p, t, g, size, false).pen)
  {
    var d := DrawGraphic(e, p, t, g, size, false);
    var p1 := SetViewAttr(e, p, t);
    SetViewAttrOnChange(e, p, t);
    assert p1.out == p.out + (if !e.selected && p.curtype != t then [SetAttr(t)] else []);
    ExtendsAppend(p, d.pen, d.pen.out[|p.out|..]);
  }

  /** The glyph cells the line-drawing table shows for symbols `i..`: the second
      cell only of the row's first symbol, both cells of every other one. */
  function GraphGlyphs(symbols: seq<GraphSymbol>, i: nat): seq<Glyph>
    requires i <= |symbols| && SymbolsOk(symbols)
    decreases |symbols| - i
  {
    if i == |symbols| then []
    else (if i == 0 then symbols[0].glyphs[1..2] else symbols[i].glyphs[..2]) + GraphGlyphs(symbols, i + 1)
  }

  /** With the line-drawing table, enough budget and nothing scrolled off, one
      symbol shows its glyph cells. */
  lemma ChtypeSymbolShown(e: Env, p: Pen, s: GraphSymbol, first: bool)
    requires SymbolOk(s) && e.g.opts.lineGraphics == GraphicDefault
    requires e.g.posCol <= p.col && 2 <= MaxLen(e, p)
    ensures var d := DrawSymbol(e, p, s, GetGraphColor(s), first);
      var cells := if first then s.glyphs[1..2] else s.glyphs[..2];
      && Shown(d.pen.out) == Shown(p.out) + cells
      && d.pen.col == p.col + |cells|
      && d.exhausted == (MaxLen(e, d.pen) == 0)
  {
    var color := GetGraphColor(s);
    var g := if first then s.glyphs[1..] else s.glyphs;
    var size := if first then 1 else 2;
    var d := DrawGraphic(e, p, color, g, size, false);
    assert DrawSymbol(e, p, s, color, first) == d;
    var cells := g[0..size];
    assert cells == if first then s.glyphs[1..2] else s.glyphs[..2];
    assert Shown(d.pen.out) == Shown(p.out) + cells && d.pen.col == p.col + size
           && d.exhausted == (MaxLen(e, d.pen) == 0) by {
      DrawGraphicLayout(e, p, color, g, size, false);
      var p1 := SetViewAttr(e, p, color);
      ShownSetViewAttr(e, p, color);
      ShownAppend(p1.out, Glyphs(cells));
      ShownGlyphs(cells);
    }
  }

  /** With the line-drawing table, room for the whole graph and nothing scrolled
      off, draw_graph shows the graph's glyph cells and a blank: `2n` cells for `n`
      symbols, since the first symbol takes one. */
  lemma {:induction false} ChtypeGraphShown(e: Env, p: Pen, symbols: seq<GraphSymbol>, i: nat)
    requires Measures(e)
    requires i <= |symbols| && SymbolsOk(symbols) && e.g.opts.lineGraphics == GraphicDefault
    requires e.g.posCol <= p.col && |GraphGlyphs(symbols, i)| + 2 <= MaxLen(e, p)
    ensures var d := GraphFrom(e, p, symbols, i);
      && Shown(d.pen.out) == Shown(p.out) + GraphGlyphs(symbols, i) + [Ch(' ')]
      && d.pen.col == p.col + |GraphGlyphs(symbols, i)| + 1
    decreases |symbols| - i
  {
    if i == |symbols| {
      BlankShown(e, p);
    } else {
      var cells := if i == 0 then symbols[0].glyphs[1..2] else symbols[i].glyphs[..2];
      var rest := GraphGlyphs(symbols, i + 1);
      assert GraphGlyphs(symbols, i) == cells + rest;
      var d := DrawSymbol(e, p, symbols[i], GetGraphColor(symbols[i]), i == 0);
      var q := d.pen;
      assert Shown(q.out) == Shown(p.out) + cells && q.col == p.col + |cells| && !d.exhausted by {
        assert SymbolOk(symbols[i]);
        ChtypeSymbolShown(e, p, symbols[i], i == 0);
      }
      var r := GraphFrom(e, q, symbols, i + 1);
      assert GraphFrom(e, p, symbols, i) == r by {
        GraphStep(e, p, symbols, i);
      }
      assert Shown(r.pen.out) == Shown(q.out) + rest + [Ch(' ')] && r.pen.col == q.col + |rest| + 1 by {
        ChtypeGraphShown(e, q, symbols, i + 1);
      }
      Regroup(Shown(p.out), cells, rest, [Ch(' ')]);
    }
  }

  lemma Regroup<T>(a: seq<T>, b: seq<T>, c: seq<T>, d: seq<T>)
    ensures a + b + c + d == a + (b + c) + d
  {
  }

  /** One turn of draw_graph's loop: unless the symbol exhausted the budget, the
      loop goes on from the next symbol. */
  lemma GraphStep(e: Env, p: Pen, symbols: seq<GraphSymbol>, i: nat)
    requires i < |symbols| && SymbolsOk(symbols)
    ensures var d := DrawSymbol(e, p, symbols[i], GetGraphColor(symbols[i]), i == 0);
      GraphFrom(e, p, symbols, i) == if d.exhausted then d else GraphFrom(e, d.pen, symbols, i + 1)
  {
  }

  /** The closing blank of draw_graph. */
  lemma BlankShown(e: Env, p: Pen)
    requires Measures(e) && e.g.posCol <= p.col && 1 < MaxLen(e, p)
    ensures var d := DrawText(e, p, LineDefault, " ");
      Shown(d.pen.out) == Shown(p.out) + [Ch(' ')] && d.pen.col == p.col + 1 && !d.exhausted
  {
    assert DrawText(e, p, LineDefault, " ") == DrawChars(e, p, LineDefault, " ", MaxLen(e, p), true) by {
      DrawTextSingleChunk(e, p, LineDefault, " ");
    }
    assert Width(" ", e.g.opts.tabSize) == 1 by { assert " "[..0] == []; }
    DrawCharsShown(e, p, LineDefault, " ", MaxLen(e, p), true);
    assert AsGlyphs(" ") == [Ch(' ')];
  }

  /** A count of the cells the line-drawing table uses: two per symbol, less one for
      the first. */
  lemma {:induction false} GraphGlyphsCount(symbols: seq<GraphSymbol>, i: nat)
    requires i <= |symbols| && SymbolsOk(symbols)
    ensures |GraphGlyphs(symbols, i)| == 2 * (|symbols| - i) - (if i == 0 && |symbols| > 0 then 1 else 0)
    decreases |symbols| - i
  {
    if i < |symbols| {
      assert SymbolOk(symbols[i]);
      GraphGlyphsCount(symbols, i + 1);
    }
  }

  /** The text a character table shows for symbol `i`: without its first character
      for the row's first symbol. */
  function SymbolCells(e: Env, symbols: seq<GraphSymbol>, i: nat): string
    requires i < |symbols| && SymbolsOk(symbols)
  {
    assert SymbolOk(symbols[i]);
    var chars := SymbolText(e, symbols[i]);
    if i == 0 then chars[1..] else chars
  }

  /** The text the ASCII or UTF-8 table shows for symbols `i..`. */
  function GraphText(e: Env, symbols: seq<GraphSymbol>, i: nat): string
    requires i <= |symbols| && SymbolsOk(symbols)
    decreases |symbols| - i
  {
    if i == |symbols| then [] else SymbolCells(e, symbols, i) + GraphText(e, symbols, i + 1)
  }

  /** Symbol texts with no tab and no wide character, each fitting one staging
      buffer. */
  predicate PlainSymbols(e: Env, symbols: seq<GraphSymbol>)
  {
    forall i :: 0 <= i < |symbols| ==>
      var s := SymbolText(e, symbols[i]);
      && |s| < SizeofStr
      && UnitWidth(s, e.g.opts.tabSize)
      && (forall k :: 0 <= k < |s| ==> s[k] != '\t')
  }

  /** One symbol through a character table, with room and nothing scrolled off. */
  lemma TextSymbolShown(e: Env, p: Pen, symbols: seq<GraphSymbol>, i: nat)
    requires Measures(e) && SymbolsOk(symbols) && PlainSymbols(e, symbols)
    requires i < |symbols| && e.g.opts.lineGraphics != GraphicDefault
    requires e.g.posCol <= p.col && |SymbolCells(e, symbols, i)| < MaxLen(e, p)
    ensures var d := DrawSymbol(e, p, symbols[i], GetGraphColor(symbols[i]), i == 0);
      var cells := SymbolCells(e, symbols, i);
      && Shown(d.pen.out) == Shown(p.out) + AsGlyphs(cells)
      && d.pen.col == p.col + |cells|
      && !d.exhausted
  {
    var tab := e.g.opts.tabSize;
    var s := symbols[i];
    var color := GetGraphColor(s);
    var chars := SymbolText(e, s);
    var cells := SymbolCells(e, symbols, i);
    assert UnitWidth(chars, tab) && forall k :: 0 <= k < |chars| ==> chars[k] != '\t';
    assert cells == if i == 0 then chars[1..] else chars;
    assert UnitWidth(cells, tab) && forall k :: 0 <= k < |cells| ==> cells[k] != '\t';
    assert DrawSymbol(e, p, s, color, i == 0) == DrawText(e, p, color, cells);
    assert DrawText(e, p, color, cells) == DrawChars(e, p, color, cells, MaxLen(e, p), true) by {
      DrawTextSingleChunk(e, p, color, cells);
    }
    UnitWidthPrefix(cells, |cells|, tab);
    WidthAll(cells, tab);
    DrawCharsShown(e, p, color, cells, MaxLen(e, p), true);
  }

  /** With a character table, room for the whole graph and nothing scrolled off,
      draw_graph shows the symbols' texts, the first without its first character,
      and a blank. */
  lemma {:induction false} TextGraphShown(e: Env, p: Pen, symbols: seq<GraphSymbol>, i: nat)
    requires Measures(e)
    requires i <= |symbols| && SymbolsOk(symbols) && PlainSymbols(e, symbols)
    requires e.g.opts.lineGraphics != GraphicDefault
    requires e.g.posCol <= p.col && |GraphText(e, symbols, i)| + 1 < MaxLen(e, p)
    ensures var d := GraphFrom(e, p, symbols, i);
      && Shown(d.pen.out) == Shown(p.out) + AsGlyphs(GraphText(e, symbols, i)) + [Ch(' ')]
      && d.pen.col == p.col + |GraphText(e, symbols, i)| + 1
    decreases |symbols| - i
  {
    if i == |symbols| {
      BlankShown(e, p);
    } else {
      var cells := SymbolCells(e, symbols, i);
      var rest := GraphText(e, symbols, i + 1);
      assert GraphText(e, symbols, i) == cells + rest;
      var d := DrawSymbol(e, p, symbols[i], GetGraphColor(symbols[i]), i == 0);
      var q := d.pen;
      assert Shown(q.out) == Shown(p.out) + AsGlyphs(cells) && q.col == p.col + |cells| && !d.exhausted by {
        TextSymbolShown(e, p, symbols, i);
      }
      var r := GraphFrom(e, q, symbols, i + 1);
      assert GraphFrom(e, p, symbols, i) == r by {
        GraphStep(e, p, symbols, i);
      }
      assert Shown(r.pen.out) == Shown(q.out) + AsGlyphs(rest) + [Ch(' ')] && r.pen.col == q.col + |rest| + 1 by {
        TextGraphShown(e, q, symbols, i + 1);
      }
      AsGlyphsConcat(cells, rest);
      Regroup(Shown(p.out), AsGlyphs(cells), AsGlyphs(rest), [Ch(' ')]);
    }
  }
}
