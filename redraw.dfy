/** The vertical side of draw.c: drawing one screen row of the view (draw_view_line)
    and the three redraw drivers that walk the visible rows. The state is the
    drawing state, the view's rows with their flags, and the current row. */
module Redraw {
  import opened Types
  import opened Cells
  import opened Rows

  datatype Screen = Screen(pen: Pen, rows: seq<Row>, curline: nat)

  /** A screen after a step, with the step's answer: draw_view_line's return value,
      or whether redraw_view_dirty's walk met a dirty row. */
  datatype Step = Step(screen: Screen, flag: bool)

  predicate RowsOk(rows: seq<Row>)
  {
    forall i :: 0 <= i < |rows| ==> RowOk(rows[i])
  }

  /** The view holds `lines` rows, each with well-formed columns. */
  predicate ScreenOk(g: Geometry, s: Screen)
  {
    |s.rows| == g.lines && RowsOk(s.rows)
  }

  /** Every screen row of the window can have its line number drawn. */
  predicate ViewReady(g: Geometry)
  {
    forall lineno: nat :: lineno < g.height ==> LinenoReady(Env(g, false), lineno)
  }

  /** Row `j` of the view is on screen at or below screen row `from`. */
  predicate Visible(g: Geometry, from: nat, j: nat)
  {
    g.offset + from <= j < g.offset + g.height && j < g.lines
  }

  /** A row once draw_view_line has reset its flags. */
  function CleanRow(r: Row, selected: bool): (c: Row)
    ensures !c.dirty && !c.cleareol && c.selected == selected
    ensures c.kind == r.kind && c.columns == r.columns
  {
    r.(dirty := false, cleareol := false, selected := selected)
  }

  function Append(s: Screen, events: seq<Event>): Screen
  {
    s.(pen := s.pen.(out := s.pen.out + events))
  }

  /** What draw_view_line writes before the columns: the move to the screen row, a
      clear to the end of the line when the row asks for it, and for the cursor row
      the cursor attribute and the select callback. */
  function RowPrologue(g: Geometry, r: Row, k: nat, lineno: nat): seq<Event>
  {
    [Move(lineno)] + (if r.cleareol then [ClearToEol] else [])
    + (if k == g.cursor then [SetAttr(LineCursor), Select(k)] else [])
  }

  /** draw_view_line: FALSE past the last row; otherwise the row is reset (cursor at
      column 0, no attribute applied, flags cleared, selected only for the cursor
      row) and drawn by the view's draw callback, whose answer it returns. */
  function DrawViewLine(g: Geometry, title: Title, s: Screen, lineno: nat): Step
    requires ScreenOk(g, s) && LinenoReady(Env(g, false), lineno)
  {
    var k := g.offset + lineno;
    if k >= g.lines then Step(s, false)
    else
      var row := s.rows[k];
      var sel := k == g.cursor;
      var row1 := CleanRow(row, sel);
      var p0 := Pen(0, LineNone, s.pen.out + [Move(lineno)] + (if row.cleareol then [ClearToEol] else []));
      var p1 := if sel then SetViewAttr(Env(g, false), p0, LineCursor) else p0;
      var p2 := if sel then p1.(out := p1.out + [Select(k)]) else p1;
      var d := ViewColumnsDraw(Env(g, sel), p2, row1, lineno, title);
      Step(Screen(d.pen, s.rows[k := row1], k), d.exhausted)
  }

  /** The loop of redraw_view_dirty from screen row `lineno` on; `dirty` records
      whether a dirty row was met so far. */
  function DirtyFrom(g: Geometry, title: Title, s: Screen, lineno: nat, dirty: bool): Step
    requires ScreenOk(g, s) && ViewReady(g)
    decreases g.height - lineno
  {
    if lineno >= g.height then Step(s, dirty)
    else if g.offset + lineno >= g.lines then Step(s, dirty)
    else if !s.rows[g.offset + lineno].dirty then DirtyFrom(g, title, s, lineno + 1, dirty)
    else
      assert LinenoReady(Env(g, false), lineno);
      var r := DrawViewLine(g, title, s, lineno);
      assert ScreenOk(g, r.screen) by {
        DrawViewLineRows(g, title, s, lineno);
      }
      if !r.flag then Step(r.screen, true) else DirtyFrom(g, title, r.screen, lineno + 1, true)
  }

  /** redraw_view_dirty: redraw the dirty rows on screen, and refresh only when
      there was one. */
  function RedrawViewDirty(g: Geometry, title: Title, s: Screen): Screen
    requires ScreenOk(g, s) && ViewReady(g)
  {
    var r := DirtyFrom(g, title, s, 0, false);
    if r.flag then Append(r.screen, [Refresh]) else r.screen
  }

  /** The loop of redraw_view_from: draw screen rows until the window or the rows
      run out. */
  function FromLoop(g: Geometry, title: Title, s: Screen, lineno: nat): Screen
    requires ScreenOk(g, s) && ViewReady(g)
    decreases g.height - lineno
  {
    if lineno >= g.height then s
    else
      assert LinenoReady(Env(g, false), lineno);
      var r := DrawViewLine(g, title, s, lineno);
      assert ScreenOk(g, r.screen) by {
        DrawViewLineRows(g, title, s, lineno);
      }
      if !r.flag then r.screen else FromLoop(g, title, r.screen, lineno + 1)
  }

  /** view_columns_info_init followed by view_columns_info_update for every row. */
  function LayoutEvents(n: nat): (r: seq<Event>)
    ensures |r| == n + 1
  {
    [LayoutInit] + seq(n, i requires 0 <= i < n => LayoutUpdate(i))
  }

  /** redraw_view_from: recompute the layout when it changed, draw from screen row
      `lineno` to the bottom, and refresh. */
  function RedrawViewFrom(g: Geometry, title: Title, s: Screen, lineno: nat): Screen
    requires ScreenOk(g, s) && ViewReady(g)
    requires lineno < g.height
  {
    var s1 := if g.layoutChanged then Append(s, LayoutEvents(g.lines)) else s;
    Append(FromLoop(g, title, s1, lineno), [Refresh])
  }

  /** redraw_view: erase the window and redraw it from the top. */
  function RedrawView(g: Geometry, title: Title, s: Screen): Screen
    requires ScreenOk(g, s) && ViewReady(g)
    requires 0 < g.height
  {
    RedrawViewFrom(g, title, Append(s, [Erase]), 0)
  }

  // ---------------------------------------------------------------------------
  // Properties

  /** draw_view_line answers FALSE exactly past the last row, and then changes
      nothing; otherwise it answers TRUE, resets the row's flags (selected exactly
      when it is the cursor row), makes it the current row, and leaves every other
      row alone. */
  lemma DrawViewLineRows(g: Geometry, title: Title, s: Screen, lineno: nat)
    requires ScreenOk(g, s) && LinenoReady(Env(g, false), lineno)
    ensures var r := DrawViewLine(g, title, s, lineno); var k := g.offset + lineno;
      && (r.flag <==> k < g.lines)
      && (!r.flag ==> r.screen == s)
      && (r.flag ==> r.screen.rows == s.rows[k := CleanRow(s.rows[k], k == g.cursor)] && r.screen.curline == k)
      && ScreenOk(g, r.screen)
  {
    var k := g.offset + lineno;
    if k < g.lines {
      var rows := s.rows[k := CleanRow(s.rows[k], k == g.cursor)];
      assert forall i :: 0 <= i < |rows| ==> RowOk(rows[i]) by {
        forall i | 0 <= i < |rows| ensures RowOk(rows[i]) {
          assert RowOk(s.rows[i]);
        }
      }
    }
  }

  /** The log after draw_view_line: the row's prologue, then what its columns wrote;
      nothing written before is touched. */
  lemma DrawViewLineLog(g: Geometry, title: Title, s: Screen, lineno: nat)
    requires ScreenOk(g, s) && LinenoReady(Env(g, false), lineno)
    requires Measures(Env(g, false)) && TitleOk(title)
    requires g.offset + lineno < g.lines
    ensures var r := DrawViewLine(g, title, s, lineno); var k := g.offset + lineno;
      var before := s.pen.out + RowPrologue(g, s.rows[k], k, lineno);
      |before| <= |r.screen.pen.out| && r.screen.pen.out[..|before|] == before
  {
    var k := g.offset + lineno;
    var row := s.rows[k];
    var sel := k == g.cursor;
    var p0 := Pen(0, LineNone, s.pen.out + [Move(lineno)] + (if row.cleareol then [ClearToEol] else []));
    var p1 := if sel then SetViewAttr(Env(g, false), p0, LineCursor) else p0;
    var p2 := if sel then p1.(out := p1.out + [Select(k)]) else p1;
    assert p2.out == s.pen.out + RowPrologue(g, row, k, lineno);
    var d := ViewColumnsDraw(Env(g, sel), p2, CleanRow(row, sel), lineno, title);
    assert Extends(p2, d.pen) by {
      assert Measures(Env(g, sel));
      ViewColumnsDrawAnswer(Env(g, sel), p2, CleanRow(row, sel), lineno, title);
    }
  }

  /** Where draw_view_line leaves the state does not depend on where the previous row
      left the cursor, the attribute or the current row: all three are reset. */
  lemma DrawViewLineResets(g: Geometry, title: Title, s: Screen, lineno: nat, col: int, t: LineType, cur: nat)
    requires ScreenOk(g, s) && LinenoReady(Env(g, false), lineno)
    requires g.offset + lineno < g.lines
    ensures DrawViewLine(g, title, s, lineno) ==
            DrawViewLine(g, title, Screen(Pen(col, t, s.pen.out), s.rows, cur), lineno)
  {
  }

  /** Whether some row on screen at or below `from` is dirty. */
  predicate SomeDirty(g: Geometry, rows: seq<Row>, from: nat)
  {
    exists j :: 0 <= j < |rows| && Visible(g, from, j) && rows[j].dirty
  }

  /** redraw_view_dirty's walk from screen row `lineno`: exactly the dirty rows on
      screen are redrawn (and so reset), the others keep their flags, the walk
      reports a dirty row exactly when it met one, and without one nothing at all
      happens. */
  lemma {:induction false} DirtyFromRows(g: Geometry, title: Title, s: Screen, lineno: nat, dirty: bool)
    requires ScreenOk(g, s) && ViewReady(g)
    ensures var r := DirtyFrom(g, title, s, lineno, dirty);
      && |r.screen.rows| == |s.rows|
      && (forall j :: 0 <= j < |s.rows| ==>
            r.screen.rows[j] == if Visible(g, lineno, j) && s.rows[j].dirty then CleanRow(s.rows[j], j == g.cursor) else s.rows[j])
      && (r.flag <==> dirty || SomeDirty(g, s.rows, lineno))
      && (!SomeDirty(g, s.rows, lineno) ==> r.screen == s)
    decreases g.height - lineno
  {
    var k := g.offset + lineno;
    if lineno >= g.height || k >= g.lines {
      assert !SomeDirty(g, s.rows, lineno);
    } else if !s.rows[k].dirty {
      DirtyFromRows(g, title, s, lineno + 1, dirty);
      assert SomeDirty(g, s.rows, lineno) == SomeDirty(g, s.rows, lineno + 1) by {
        if SomeDirty(g, s.rows, lineno) {
          var j :| 0 <= j < |s.rows| && Visible(g, lineno, j) && s.rows[j].dirty;
          assert Visible(g, lineno + 1, j);
        }
      }
    } else {
      assert LinenoReady(Env(g, false), lineno);
      var r := DrawViewLine(g, title, s, lineno);
      DrawViewLineRows(g, title, s, lineno);
      DirtyFromRows(g, title, r.screen, lineno + 1, true);
      assert SomeDirty(g, s.rows, lineno) by {
        assert Visible(g, lineno, k);
      }
      var rows1 := r.screen.rows;
      var res := DirtyFrom(g, title, r.screen, lineno + 1, true);
      assert DirtyFrom(g, title, s, lineno, dirty) == res;
      forall j | 0 <= j < |s.rows|
        ensures res.screen.rows[j] ==
                  if Visible(g, lineno, j) && s.rows[j].dirty then CleanRow(s.rows[j], j == g.cursor) else s.rows[j]
      {
        if j == k {
          assert !Visible(g, lineno + 1, j);
        } else {
          assert rows1[j] == s.rows[j];
        }
      }
    }
  }

  /** redraw_view_dirty redraws exactly the dirty rows on screen and refreshes only
      when there was one; with none it changes nothing at all. */
  lemma RedrawViewDirtyRows(g: Geometry, title: Title, s: Screen)
    requires ScreenOk(g, s) && ViewReady(g)
    ensures var r := RedrawViewDirty(g, title, s);
      && |r.rows| == |s.rows|
      && (forall j :: 0 <= j < |s.rows| ==>
            r.rows[j] == if Visible(g, 0, j) && s.rows[j].dirty then CleanRow(s.rows[j], j == g.cursor) else s.rows[j])
      && (!SomeDirty(g, s.rows, 0) ==> r == s)
      && (SomeDirty(g, s.rows, 0) ==> |r.pen.out| > 0 && r.pen.out[|r.pen.out| - 1] == Refresh)
  {
    DirtyFromRows(g, title, s, 0, false);
  }

  /** redraw_view_from's loop: every row on screen at or below `lineno` is redrawn
      (and so reset), every other row keeps its flags. */
  lemma {:induction false} FromLoopRows(g: Geometry, title: Title, s: Screen, lineno: nat)
    requires ScreenOk(g, s) && ViewReady(g)
    ensures var r := FromLoop(g, title, s, lineno);
      && |r.rows| == |s.rows|
      && (forall j :: 0 <= j < |s.rows| ==>
            r.rows[j] == if Visible(g, lineno, j) then CleanRow(s.rows[j], j == g.cursor) else s.rows[j])
    decreases g.height - lineno
  {
    var k := g.offset + lineno;
    if lineno >= g.height {
    } else {
      assert LinenoReady(Env(g, false), lineno);
      var r := DrawViewLine(g, title, s, lineno);
      DrawViewLineRows(g, title, s, lineno);
      if r.flag {
        FromLoopRows(g, title, r.screen, lineno + 1);
        var res := FromLoop(g, title, r.screen, lineno + 1);
        assert FromLoop(g, title, s, lineno) == res;
        forall j | 0 <= j < |s.rows|
          ensures res.rows[j] == if Visible(g, lineno, j) then CleanRow(s.rows[j], j == g.cursor) else s.rows[j]
        {
          if j == k {
            assert !Visible(g, lineno + 1, j);
          } else {
            assert r.screen.rows[j] == s.rows[j];
          }
        }
      } else {
        assert forall j :: 0 <= j < |s.rows| ==> !Visible(g, lineno, j);
      }
    }
  }

  /** The loop only appends to the log. */
  lemma {:induction false} FromLoopLog(g: Geometry, title: Title, s: Screen, lineno: nat)
    requires ScreenOk(g, s) && ViewReady(g) && Measures(Env(g, false)) && TitleOk(title)
    ensures Extends(s.pen, FromLoop(g, title, s, lineno).pen)
    decreases g.height - lineno
  {
    if lineno >= g.height {
      ExtendsAppend(s.pen, s.pen, []);
    } else {
      assert LinenoReady(Env(g, false), lineno);
      var r := DrawViewLine(g, title, s, lineno);
      DrawViewLineRows(g, title, s, lineno);
      if r.flag {
        DrawViewLineLog(g, title, s, lineno);
        var before := s.pen.out + RowPrologue(g, s.rows[g.offset + lineno], g.offset + lineno, lineno);
        assert r.screen.pen.out[..|s.pen.out|] == r.screen.pen.out[..|before|][..|s.pen.out|];
        FromLoopLog(g, title, r.screen, lineno + 1);
        ExtendsTrans(s.pen, r.screen.pen, FromLoop(g, title, r.screen, lineno + 1).pen);
      } else {
        ExtendsAppend(s.pen, s.pen, []);
      }
    }
  }

  /** redraw_view_from redraws every row on screen from `lineno` down, keeps what
      was written before, announces a layout recompute to every row first when the
      layout changed, and ends with a refresh. */
  lemma RedrawViewFromLog(g: Geometry, title: Title, s: Screen, lineno: nat)
    requires ScreenOk(g, s) && ViewReady(g) && Measures(Env(g, false)) && TitleOk(title)
    requires lineno < g.height
    ensures var r := RedrawViewFrom(g, title, s, lineno); var n := |s.pen.out|;
      && |r.rows| == |s.rows|
      && (forall j :: 0 <= j < |s.rows| ==>
            r.rows[j] == if Visible(g, lineno, j) then CleanRow(s.rows[j], j == g.cursor) else s.rows[j])
      && n < |r.pen.out| && r.pen.out[..n] == s.pen.out
      && r.pen.out[|r.pen.out| - 1] == Refresh
      && (g.layoutChanged ==> n + g.lines + 1 < |r.pen.out| && r.pen.out[n..n + g.lines + 1] == LayoutEvents(g.lines))
  {
    var s1 := if g.layoutChanged then Append(s, LayoutEvents(g.lines)) else s;
    var f := FromLoop(g, title, s1, lineno);
    FromLoopRows(g, title, s1, lineno);
    FromLoopLog(g, title, s1, lineno);
    var n := |s.pen.out|;
    var out := f.pen.out + [Refresh];
    assert out[..n] == f.pen.out[..|s1.pen.out|][..n];
    if g.layoutChanged {
      assert out[n..n + g.lines + 1] == f.pen.out[..|s1.pen.out|][n..n + g.lines + 1];
    }
  }

  /** After redraw_view every row on screen is clean and selected exactly when it is
      the cursor row, so a following redraw_view_dirty changes nothing. */
  lemma RedrawViewThenDirty(g: Geometry, title: Title, s: Screen)
    requires ScreenOk(g, s) && ViewReady(g) && 0 < g.height
    ensures var r := RedrawView(g, title, s);
      && ScreenOk(g, r)
      && (forall j :: 0 <= j < |r.rows| && Visible(g, 0, j) ==> !r.rows[j].dirty && (r.rows[j].selected <==> j == g.cursor))
      && RedrawViewDirty(g, title, r) == r
  {
    var s0 := Append(s, [Erase]);
    var s1 := if g.layoutChanged then Append(s0, LayoutEvents(g.lines)) else s0;
    FromLoopRows(g, title, s1, 0);
    var r := RedrawView(g, title, s);
    assert ScreenOk(g, r) by {
      forall i | 0 <= i < |r.rows| ensures RowOk(r.rows[i]) {
        assert RowOk(s.rows[i]);
      }
    }
    assert !SomeDirty(g, r.rows, 0);
    RedrawViewDirtyRows(g, title, r);
  }

  /** redraw_view starts by erasing the window. */
  lemma RedrawViewErases(g: Geometry, title: Title, s: Screen)
    requires ScreenOk(g, s) && ViewReady(g) && 0 < g.height
    requires Measures(Env(g, false)) && TitleOk(title)
    ensures var r := RedrawView(g, title, s);
      |s.pen.out| < |r.pen.out| && r.pen.out[|s.pen.out|] == Erase && r.pen.out[..|s.pen.out|] == s.pen.out
  {
    var s0 := Append(s, [Erase]);
    RedrawViewFromLog(g, title, s0, 0);
    var r := RedrawView(g, title, s);
    assert r.pen.out[..|s0.pen.out|] == s0.pen.out;
    assert r.pen.out[|s.pen.out|] == r.pen.out[..|s0.pen.out|][|s.pen.out|];
    assert r.pen.out[..|s.pen.out|] == r.pen.out[..|s0.pen.out|][..|s.pen.out|];
  }
}
