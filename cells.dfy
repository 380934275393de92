/** The cell writer and the text primitives of draw.c, as functions from the drawing
    state before a call to the state after it and the "viewport exhausted" answer. */
module Cells {
  import opened Types
  import opened Text

  /** VIEW_MAX_LEN: cells left before the right edge, in scrolled coordinates, as a
      signed number. The macro's own value is unsigned (it adds the unsigned
      `pos.col`), so it wraps round once the cursor has passed the edge: its `<= 0`
      test holds only at exactly zero (`MaxLen(e, p) == 0`), and a conversion to
      `int` gives back this signed value. */
  function MaxLen(e: Env, p: Pen): int
  {
    e.g.width + e.g.posCol - p.col
  }

  /** `MIN(VIEW_MAX_LEN(view), n)` stored in an `int`: the comparison is done on
      unsigned values, where a negative number is larger than every non-negative one. */
  function UMin(a: int, b: int): (r: int)
    ensures r == a || r == b
    ensures (a < 0) == (b < 0) ==> r == Min(a, b)
    ensures (a < 0) != (b < 0) ==> r >= 0
  {
    if (a < 0) == (b < 0) then Min(a, b) else if a < 0 then b else a
  }

  /** Writing `n` cells from `p` meets the edge at the last cell at the earliest: they
      fit the budget, or the edge has already been passed. */
  predicate Fits(e: Env, p: Pen, n: int)
  {
    n <= MaxLen(e, p) || MaxLen(e, p) < 0
  }

  /** Cells of the next write that are scrolled off to the left. */
  function Skip(e: Env, p: Pen): nat
  {
    if e.g.posCol > p.col then e.g.posCol - p.col else 0
  }

  function Puts(s: string): (r: seq<Event>)
    ensures |r| == |s|
  {
    seq(|s|, i requires 0 <= i < |s| => Put(Ch(s[i])))
  }

  function Glyphs(gs: seq<Glyph>): (r: seq<Event>)
    ensures |r| == |gs|
  {
    seq(|gs|, i requires 0 <= i < |gs| => Put(gs[i]))
  }

  /** set_view_attr: issue `t` unless the row is selected or `t` is already applied. */
  function SetViewAttr(e: Env, p: Pen, t: LineType): Pen
  {
    if !e.selected && p.curtype != t then Pen(p.col, t, p.out + [SetAttr(t)]) else p
  }

  /** The writing part of draw_chars, once the text has been measured: the attribute,
      the measured characters, and the marker when text was written and cut short. */
  function Emit(e: Env, p: Pen, t: LineType, c: Clip, tilde: bool): Pen
  {
    var marker := |c.shown| > 0 && c.trimmed && tilde;
    var p1 := SetViewAttr(e, p, t);
    var p2 := if |c.shown| > 0 then p1.(out := p1.out + Puts(c.shown)) else p1;
    var p3 := if marker then (var a := SetViewAttr(e, p2, LineDelimiter); a.(out := a.out + [Put(Ch('~'))])) else p2;
    p3.(col := p.col + c.width + (if marker then 1 else 0))
  }

  /** utf8_length as the view's collaborator provides it. */
  function Measure(e: Env, p: Pen, s: string, maxLen: int, tilde: bool): Clip
  {
    e.g.ext.utf8(s, Skip(e, p), maxLen, tilde, e.g.opts.tabSize)
  }

  /** The collaborators keep the contracts draw.c relies on. */
  ghost predicate Measures(e: Env)
  {
    MeasureOk(e.g.ext.utf8) && WidthMaxOk(e.g.ext.widthMax, e.g.opts.tabSize)
  }

  /** draw_chars: a clipped write of `s` in at most `maxLen` cells, with a `~` marker
      in the delimiter attribute when text was cut short and `tilde` is set. */
  function DrawChars(e: Env, p: Pen, t: LineType, s: string, maxLen: int, tilde: bool): Drawn
  {
    if maxLen <= 0 then Drawn(p, MaxLen(e, p) == 0)
    else
      var q := Emit(e, p, t, Measure(e, p, s, maxLen, tilde), tilde);
      Drawn(q, MaxLen(e, q) == 0)
  }

  /** The static buffer of twenty blanks draw_space writes from. */
  const ChunkSize: nat := 20

  function Blanks(): string { Spaces(ChunkSize) }

  /** The loop of draw_space: chunks of at most twenty blanks until `spaces` are
      written or a chunk exhausts the viewport. */
  function SpaceLoop(e: Env, p: Pen, t: LineType, spaces: int): Drawn
    decreases spaces
  {
    if spaces <= 0 then Drawn(p, MaxLen(e, p) == 0)
    else
      var len := Min(spaces, ChunkSize);
      var d := DrawChars(e, p, t, Blanks(), len, false);
      if d.exhausted then d else SpaceLoop(e, d.pen, t, spaces - len)
  }

  /** draw_space */
  function DrawSpace(e: Env, p: Pen, t: LineType, max: int, spaces: int): Drawn
  {
    SpaceLoop(e, p, t, Min(max, spaces))
  }

  /** draw_text_expanded: expand tabs a staging buffer at a time and write each buffer
      with the same `maxLen`, until the text ends or the viewport is exhausted. */
  function DrawTextExpanded(e: Env, p: Pen, t: LineType, s: string, maxLen: int, tilde: bool): Drawn
    decreases |s|
  {
    var x := Expand(s, SizeofStr, e.g.opts.tabSize);
    var d := DrawChars(e, p, t, x.0, maxLen, tilde);
    if d.exhausted then d
    else if x.1 == |s| then d
    else DrawTextExpanded(e, d.pen, t, s[x.1..], maxLen, tilde)
  }

  /** draw_text */
  function DrawText(e: Env, p: Pen, t: LineType, s: string): Drawn
  {
    DrawTextExpanded(e, p, t, s, MaxLen(e, p), true)
  }

  /** The tail of draw_text_overflow: the rest of the text, if any, as plain text. */
  function DrawRest(e: Env, p: Pen, t: LineType, s: string): Drawn
  {
    if |s| > 0 then
      var d := DrawText(e, p, t, s);
      if d.exhausted then d else Drawn(d.pen, MaxLen(e, d.pen) == 0)
    else Drawn(p, MaxLen(e, p) == 0)
  }

  /** draw_text_overflow: with `on`, the first `overflow` cells in `t`, then the text
      from offset `overflow` on in the overflow attribute (a byte offset in draw.c,
      a character index here; the two agree for single-byte text). */
  function DrawTextOverflow(e: Env, p: Pen, text: string, on: bool, overflow: int, t: LineType): Drawn
    requires on ==> overflow >= 0
  {
    if on then
      var max := UMin(MaxLen(e, p), overflow);
      var d := DrawTextExpanded(e, p, t, text, max, max < overflow);
      if d.exhausted then d
      else DrawRest(e, d.pen, LineOverflow, if |text| > overflow then text[overflow..] else "")
    else DrawRest(e, p, t, text)
  }

  /** draw_formatted, given what the bounded formatting produced (None: it failed). */
  function DrawFormatted(e: Env, p: Pen, t: LineType, formatted: Option<string>): Drawn
  {
    if formatted.Some? then DrawText(e, p, t, formatted.value) else Drawn(p, MaxLen(e, p) == 0)
  }

  /** draw_graphic: writes `graphic[skip..size]` with `size` clamped to the budget
      (the comparison is done unsigned, so a negative budget does not clamp), then
      optionally one separator cell. */
  function DrawGraphic(e: Env, p: Pen, t: LineType, graphic: seq<Glyph>, size: nat, separator: bool): Drawn
    requires size <= |graphic|
  {
    var skip := Skip(e, p);
    var max := MaxLen(e, p);
    var n := if 0 <= max < size then max else size;
    var p1 := SetViewAttr(e, p, t);
    var p2 := Pen(p1.col + n, p1.curtype, p1.out + (if skip < n then Glyphs(graphic[skip..n]) else []));
    var p3 := if separator then
                Pen(p2.col + 1, p2.curtype,
                    p2.out + (if (max < 0 || n < max) && skip <= n then [Put(Ch(' '))] else []))
              else p2;
    Drawn(p3, MaxLen(e, p3) == 0)
  }

  // ---------------------------------------------------------------------------
  // Properties

  predicate Extends(p: Pen, q: Pen)
  {
    |p.out| <= |q.out| && q.out[..|p.out|] == p.out
  }

  lemma ExtendsTrans(p: Pen, q: Pen, r: Pen)
    requires Extends(p, q) && Extends(q, r)
    ensures Extends(p, r)
  {
    assert r.out[..|q.out|][..|p.out|] == r.out[..|p.out|];
  }

  lemma ExtendsAppend(p: Pen, q: Pen, extra: seq<Event>)
    requires q.out == p.out + extra
    ensures Extends(p, q)
  {
    assert q.out[..|p.out|] == p.out;
  }

  lemma PutsConcat(a: string, b: string)
    ensures Puts(a + b) == Puts(a) + Puts(b)
  {
    assert Puts(a + b) == Puts(a) + Puts(b);
  }

  lemma PutsSpaces(a: nat, b: nat)
    ensures Puts(Spaces(a)) + Puts(Spaces(b)) == Puts(Spaces(a + b))
  {
    assert Spaces(a) + Spaces(b) == Spaces(a + b);
    PutsConcat(Spaces(a), Spaces(b));
  }

  /** What the writing part of draw_chars appends, and where it leaves the cursor. */
  lemma EmitShape(e: Env, p: Pen, t: LineType, c: Clip, tilde: bool)
    ensures var q := Emit(e, p, t, c, tilde); var marker := |c.shown| > 0 && c.trimmed && tilde;
      var p1 := SetViewAttr(e, p, t);
      && q.col == p.col + c.width + (if marker then 1 else 0)
      && q.out == p1.out + (if |c.shown| > 0 then Puts(c.shown) else [])
                 + (if marker && !e.selected && p1.curtype != LineDelimiter then [SetAttr(LineDelimiter)] else [])
                 + (if marker then [Put(Ch('~'))] else [])
      && q.curtype == (if marker then SetViewAttr(e, p1, LineDelimiter).curtype else p1.curtype)
  {
  }

  /** An attribute is issued, and `curtype` changed, exactly when the row is not
      selected and the attribute differs; the cursor never moves. */
  lemma SetViewAttrOnChange(e: Env, p: Pen, t: LineType)
    ensures SetViewAttr(e, p, t).col == p.col
    ensures SetViewAttr(e, p, t) != p <==> !e.selected && p.curtype != t
    ensures SetViewAttr(e, p, t) != p ==>
              SetViewAttr(e, p, t).out == p.out + [SetAttr(t)] && SetViewAttr(e, p, t).curtype == t
    ensures SetViewAttr(e, SetViewAttr(e, p, t), t) == SetViewAttr(e, p, t)
  {
    if !e.selected && p.curtype != t {
      assert |SetViewAttr(e, p, t).out| == |p.out| + 1;
    }
  }

  /** The cursor movement of draw_chars: nothing at all for a non-positive `maxLen`;
      otherwise the measured width, plus one for a marker, and never past `maxLen`. */
  lemma DrawCharsAdvance(e: Env, p: Pen, t: LineType, s: string, maxLen: int, tilde: bool)
    requires Measures(e)
    ensures var d := DrawChars(e, p, t, s, maxLen, tilde);
      && d.exhausted == (MaxLen(e, d.pen) == 0)
      && Extends(p, d.pen)
      && (maxLen <= 0 ==> d.pen == p)
      && (maxLen > 0 ==>
            var c := Measure(e, p, s, maxLen, tilde);
            && d.pen.col == p.col + c.width + (if |c.shown| > 0 && c.trimmed && tilde then 1 else 0)
            && p.col <= d.pen.col <= p.col + maxLen)
  {
    if maxLen > 0 {
      var c := Measure(e, p, s, maxLen, tilde);
      assert ClipOk(c, s, Skip(e, p), maxLen, tilde, e.g.opts.tabSize);
      var q := Emit(e, p, t, c, tilde);
      EmitShape(e, p, t, c, tilde);
      var p1 := SetViewAttr(e, p, t);
      SetViewAttrOnChange(e, p, t);
      assert p1.out == p.out + (if !e.selected && p.curtype != t then [SetAttr(t)] else []);
      ExtendsAppend(p, q, q.out[|p.out|..]);
    } else {
      ExtendsAppend(p, p, []);
    }
  }

  /** The cursor movement of draw_chars without the measurement: none for a
      non-positive `maxLen`, otherwise at most `maxLen` cells. */
  lemma DrawCharsBounds(e: Env, p: Pen, t: LineType, s: string, maxLen: int, tilde: bool)
    requires Measures(e)
    ensures var d := DrawChars(e, p, t, s, maxLen, tilde);
      && d.exhausted == (MaxLen(e, d.pen) == 0)
      && Extends(p, d.pen)
      && (maxLen <= 0 ==> d.pen == p)
      && p.col <= d.pen.col <= p.col + (if maxLen <= 0 then 0 else maxLen)
  {
    DrawCharsAdvance(e, p, t, s, maxLen, tilde);
  }

  /** Text that fits, with nothing scrolled off, is written whole in `t` and moves the
      cursor by its width, with no marker. */
  lemma DrawCharsFits(e: Env, p: Pen, t: LineType, s: string, maxLen: int, tilde: bool)
    requires Measures(e)
    requires e.g.posCol <= p.col
    requires 0 < maxLen && Width(s, e.g.opts.tabSize) <= maxLen
    ensures DrawChars(e, p, t, s, maxLen, tilde).pen ==
              SetViewAttr(e, p, t).(col := p.col + Width(s, e.g.opts.tabSize),
                                    out := SetViewAttr(e, p, t).out + (if |s| > 0 then Puts(s) else []))
  {
    var w := Width(s, e.g.opts.tabSize);
    var c := Measure(e, p, s, maxLen, tilde);
    assert Skip(e, p) == 0;
    assert c == Clip(s, w, false) by {
      assert ClipOk(c, s, 0, maxLen, tilde, e.g.opts.tabSize);
    }
    EmitUntrimmed(e, p, t, c, tilde);
  }

  /** A write that was not cut short draws no marker. */
  lemma EmitUntrimmed(e: Env, p: Pen, t: LineType, c: Clip, tilde: bool)
    requires !c.trimmed
    ensures Emit(e, p, t, c, tilde) ==
              SetViewAttr(e, p, t).(col := p.col + c.width,
                                    out := SetViewAttr(e, p, t).out + (if |c.shown| > 0 then Puts(c.shown) else []))
  {
  }

  /** Text of single-cell characters that is longer than `maxLen` (at least two) cells
      fills exactly `maxLen` cells, the last one the `~` marker. */
  lemma DrawCharsTrimmed(e: Env, p: Pen, t: LineType, s: string, maxLen: int)
    requires Measures(e)
    requires e.g.posCol <= p.col
    requires 2 <= maxLen < |s| && UnitWidth(s, e.g.opts.tabSize)
    ensures var d := DrawChars(e, p, t, s, maxLen, true);
      && d.pen.col == p.col + maxLen
      && d.pen.out == SetViewAttr(e, p, t).out + Puts(s[..maxLen - 1])
                      + (if !e.selected && SetViewAttr(e, p, t).curtype != LineDelimiter
                         then [SetAttr(LineDelimiter)] else [])
                      + [Put(Ch('~'))]
      && d.pen.out[|d.pen.out| - 1] == Put(Ch('~'))
  {
    var c := Measure(e, p, s, maxLen, true);
    assert ClipOk(c, s, 0, maxLen, true, e.g.opts.tabSize);
    assert c == Clip(s[0..maxLen - 1], maxLen - 1, true);
    assert s[0..maxLen - 1] == s[..maxLen - 1];
    EmitShape(e, p, t, c, true);
  }

  /** With a one-cell budget, text that does not fit writes nothing and leaves the
      cursor where it was: utf8_length gives the one cell up to the marker, and the
      marker is only drawn after written text. */
  lemma DrawCharsTrimmedOneCell(e: Env, p: Pen, t: LineType, s: string)
    requires Measures(e)
    requires e.g.posCol <= p.col
    requires 1 < |s| && UnitWidth(s, e.g.opts.tabSize)
    ensures DrawChars(e, p, t, s, 1, true).pen == SetViewAttr(e, p, t)
  {
    var c := Measure(e, p, s, 1, true);
    assert ClipOk(c, s, 0, 1, true, e.g.opts.tabSize);
    assert c == Clip([], 0, true);
  }

  lemma BlanksUnit(tab: Positive)
    ensures UnitWidth(Blanks(), tab)
  {
  }

  /** A chunk of `len` blanks moves the cursor by exactly `len` and writes the ones not
      scrolled off. */
  lemma BlankChunk(e: Env, p: Pen, t: LineType, len: nat)
    requires Measures(e)
    requires 0 < len <= ChunkSize
    ensures var d := DrawChars(e, p, t, Blanks(), len, false);
      && d.pen.col == p.col + len
      && d.exhausted == (MaxLen(e, d.pen) == 0)
      && d.pen.curtype == SetViewAttr(e, p, t).curtype
      && d.pen.out == SetViewAttr(e, p, t).out + Puts(Spaces(len - Min(Skip(e, p), len)))
  {
    var tab := e.g.opts.tabSize;
    var s := Blanks();
    BlanksUnit(tab);
    var c := Measure(e, p, s, len, false);
    assert ClipOk(c, s, Skip(e, p), len, false, tab);
    assert c == UnitClip(s, Skip(e, p), len, false);
    assert c.shown == Spaces(len - Min(Skip(e, p), len));
    EmitShape(e, p, t, c, false);
    if |c.shown| == 0 { assert Spaces(0) == []; }
  }

  /** draw_space's loop with `n` blanks that fit the budget advances the cursor by
      exactly `n`, and reports exhaustion exactly when it reached the edge. */
  lemma {:induction false} SpaceLoopAdvance(e: Env, p: Pen, t: LineType, n: int)
    requires Measures(e)
    requires 0 < n && Fits(e, p, n)
    ensures var d := SpaceLoop(e, p, t, n);
      d.pen.col == p.col + n && d.exhausted == (MaxLen(e, d.pen) == 0)
    decreases n
  {
    var len := Min(n, ChunkSize);
    var d := DrawChars(e, p, t, Blanks(), len, false);
    BlankChunk(e, p, t, len);
    SpaceLoopUnfold(e, p, t, n);
    if !d.exhausted && n - len > 0 {
      SpaceLoopAdvance(e, d.pen, t, n - len);
    } else {
      assert n == len;
      assert SpaceLoop(e, d.pen, t, 0) == d;
      assert SpaceLoop(e, p, t, n) == d;
    }
  }

  /** The same loop issues the attribute at most once and writes the blanks that are
      not scrolled off, as one run. */
  lemma {:induction false} SpaceLoopWrites(e: Env, p: Pen, t: LineType, n: int)
    requires Measures(e)
    requires 0 < n && Fits(e, p, n)
    ensures var d := SpaceLoop(e, p, t, n);
      && d.pen.curtype == SetViewAttr(e, p, t).curtype
      && d.pen.out == SetViewAttr(e, p, t).out + Puts(Spaces(n - Min(Skip(e, p), n)))
    decreases n
  {
    var len := Min(n, ChunkSize);
    var d := DrawChars(e, p, t, Blanks(), len, false);
    BlankChunk(e, p, t, len);
    SpaceLoopUnfold(e, p, t, n);
    if !d.exhausted && n - len > 0 {
      SpaceLoopWrites(e, d.pen, t, n - len);
      SpaceLoopAdvance(e, d.pen, t, n - len);
      SetViewAttrOnChange(e, p, t);
      var r := SpaceLoop(e, d.pen, t, n - len);
      assert SpaceLoop(e, p, t, n) == r;
      SpaceLoopStep(e, p, t, n, len, d.pen, r.pen);
    } else {
      SpaceLoopAdvance(e, p, t, n);
      assert n == len;
      assert SpaceLoop(e, d.pen, t, 0) == d;
      assert SpaceLoop(e, p, t, n) == d;
    }
  }

  /** Two consecutive blank writes compose: the cursor moves by their sum, the
      attribute is the one the first write issued, the blanks are concatenated. */
  lemma SpaceLoopStep(e: Env, p: Pen, t: LineType, n: int, len: nat, p1: Pen, r: Pen)
    requires 0 < len < n
    requires p1.col == p.col + len
    requires p1.curtype == SetViewAttr(e, p, t).curtype
    requires p1.out == SetViewAttr(e, p, t).out + Puts(Spaces(len - Min(Skip(e, p), len)))
    requires r.col == p1.col + (n - len)
    requires r.curtype == SetViewAttr(e, p1, t).curtype
    requires r.out == SetViewAttr(e, p1, t).out + Puts(Spaces((n - len) - Min(Skip(e, p1), n - len)))
    requires SetViewAttr(e, p1, t) == p1
    ensures r.col == p.col + n
    ensures r.curtype == SetViewAttr(e, p, t).curtype
    ensures r.out == SetViewAttr(e, p, t).out + Puts(Spaces(n - Min(Skip(e, p), n)))
  {
    var a := len - Min(Skip(e, p), len);
    var b := (n - len) - Min(Skip(e, p1), n - len);
    assert a + b == n - Min(Skip(e, p), n);
    PutsSpaces(a, b);
    var x := SetViewAttr(e, p, t).out;
    assert (x + Puts(Spaces(a))) + Puts(Spaces(b)) == x + (Puts(Spaces(a)) + Puts(Spaces(b)));
  }

  lemma SpaceLoopUnfold(e: Env, p: Pen, t: LineType, n: int)
    requires n > 0
    ensures var d := DrawChars(e, p, t, Blanks(), Min(n, ChunkSize), false);
      SpaceLoop(e, p, t, n) == if d.exhausted then d else SpaceLoop(e, d.pen, t, n - Min(n, ChunkSize))
  {
  }

  /** draw_space with its clamp: exactly `min(max, spaces)` cells when they fit, and
      nothing at all when that count is not positive. */
  lemma DrawSpaceExact(e: Env, p: Pen, t: LineType, max: int, spaces: int)
    requires Measures(e)
    requires Min(max, spaces) <= 0 || Fits(e, p, Min(max, spaces))
    ensures var n := Min(max, spaces); var d := DrawSpace(e, p, t, max, spaces);
      && d.pen.col == p.col + (if n <= 0 then 0 else n)
      && d.exhausted == (MaxLen(e, d.pen) == 0)
      && (n <= 0 ==> d.pen == p)
      && (n > 0 ==> d.pen.curtype == SetViewAttr(e, p, t).curtype
                    && d.pen.out == SetViewAttr(e, p, t).out + Puts(Spaces(n - Min(Skip(e, p), n))))
  {
    if Min(max, spaces) > 0 {
      SpaceLoopAdvance(e, p, t, Min(max, spaces));
      SpaceLoopWrites(e, p, t, Min(max, spaces));
    }
  }

  lemma {:induction false} ExpandPlain(src: string, cap: nat, tab: Positive, pos: nat)
    requires pos <= |src| < cap
    requires forall i :: 0 <= i < |src| ==> src[i] != '\t'
    ensures ExpandFrom(src, cap, tab, pos, src[..pos]) == (src, |src|)
    decreases |src| - pos
  {
    if pos < |src| {
      assert src[..pos] + [src[pos]] == src[..pos + 1];
      ExpandPlain(src, cap, tab, pos + 1);
    } else {
      assert src[..pos] == src;
    }
  }

  /** Text without tabs that fits one staging buffer is written by draw_text as one
      clipped write over the whole remaining budget, with the marker enabled. */
  lemma DrawTextSingleChunk(e: Env, p: Pen, t: LineType, s: string)
    requires |s| < SizeofStr
    requires forall i :: 0 <= i < |s| ==> s[i] != '\t'
    ensures DrawText(e, p, t, s) == DrawChars(e, p, t, s, MaxLen(e, p), true)
  {
    assert s[..0] == [];
    ExpandPlain(s, SizeofStr, e.g.opts.tabSize, 0);
  }

  /** draw_text_expanded answers "exhausted" exactly when no budget is left, and only
      ever appends to the log. */
  lemma {:induction false} DrawTextExpandedAnswer(e: Env, p: Pen, t: LineType, s: string, maxLen: int, tilde: bool)
    requires Measures(e)
    ensures var d := DrawTextExpanded(e, p, t, s, maxLen, tilde);
      d.exhausted == (MaxLen(e, d.pen) == 0) && Extends(p, d.pen) && p.col <= d.pen.col
    decreases |s|
  {
    var x := Expand(s, SizeofStr, e.g.opts.tabSize);
    var d := DrawChars(e, p, t, x.0, maxLen, tilde);
    DrawCharsAdvance(e, p, t, x.0, maxLen, tilde);
    if !d.exhausted && x.1 != |s| {
      DrawTextExpandedAnswer(e, d.pen, t, s[x.1..], maxLen, tilde);
      ExtendsTrans(p, d.pen, DrawTextExpanded(e, d.pen, t, s[x.1..], maxLen, tilde).pen);
    }
  }

  /** A text that one staging buffer holds is a single clipped write. */
  lemma DrawTextExpandedOneBuffer(e: Env, p: Pen, t: LineType, s: string, maxLen: int, tilde: bool)
    requires Expand(s, SizeofStr, e.g.opts.tabSize).1 == |s|
    ensures DrawTextExpanded(e, p, t, s, maxLen, tilde) ==
              DrawChars(e, p, t, Expand(s, SizeofStr, e.g.opts.tabSize).0, maxLen, tilde)
  {
  }

  /** draw_text_overflow with `on`: the head is drawn in `t` within
      `MIN(VIEW_MAX_LEN, overflow)` cells for each staging buffer; unless it
      exhausted the viewport, the text from offset `overflow` on, if any, is then
      drawn as plain text in `LINE_OVERFLOW`, and otherwise nothing more is drawn.
      Both parts only append, and the answer is the exhaustion test. */
  lemma DrawTextOverflowParts(e: Env, p: Pen, text: string, overflow: int, t: LineType)
    requires Measures(e) && overflow >= 0
    ensures var max := UMin(MaxLen(e, p), overflow);
      var h := DrawTextExpanded(e, p, t, text, max, max < overflow);
      var d := DrawTextOverflow(e, p, text, true, overflow, t);
      && d.exhausted == (MaxLen(e, d.pen) == 0)
      && Extends(p, h.pen) && Extends(h.pen, d.pen)
      && p.col <= h.pen.col <= d.pen.col
      && (Expand(text, SizeofStr, e.g.opts.tabSize).1 == |text| ==>
            h.pen.col <= p.col + (if max <= 0 then 0 else max))
      && (h.exhausted ==> d == h)
      && (!h.exhausted && |text| <= overflow ==> d.pen == h.pen)
      && (!h.exhausted && |text| > overflow ==> d.pen == DrawText(e, h.pen, LineOverflow, text[overflow..]).pen)
  {
    var max := UMin(MaxLen(e, p), overflow);
    var h := DrawTextExpanded(e, p, t, text, max, max < overflow);
    DrawTextExpandedAnswer(e, p, t, text, max, max < overflow);
    if Expand(text, SizeofStr, e.g.opts.tabSize).1 == |text| {
      DrawTextExpandedOneBuffer(e, p, t, text, max, max < overflow);
      DrawCharsAdvance(e, p, t, Expand(text, SizeofStr, e.g.opts.tabSize).0, max, max < overflow);
    }
    if !h.exhausted && |text| > overflow {
      DrawTextExpandedAnswer(e, h.pen, LineOverflow, text[overflow..], MaxLen(e, h.pen), true);
      ExtendsTrans(p, h.pen, DrawText(e, h.pen, LineOverflow, text[overflow..]).pen);
    }
  }

  /** A tab-free rest that fits the budget is shown whole and moves the cursor by its
      width. */
  lemma DrawRestShown(e: Env, q: Pen, t: LineType, s: string)
    requires Measures(e)
    requires e.g.posCol <= q.col && Width(s, e.g.opts.tabSize) <= MaxLen(e, q) && |s| < SizeofStr
    requires forall i :: 0 <= i < |s| ==> s[i] != '\t'
    ensures var d := DrawRest(e, q, t, s);
      && Shown(d.pen.out) == Shown(q.out) + AsGlyphs(s)
      && d.pen.col == q.col + Width(s, e.g.opts.tabSize)
  {
    if s != [] {
      DrawTextSingleChunk(e, q, t, s);
      WidthMono(s, 0, |s|, e.g.opts.tabSize);
      WidthAll(s, e.g.opts.tabSize);
      DrawCharsShown(e, q, t, s, MaxLen(e, q), true);
    }
  }

  /** The spill-over part of draw_text_overflow starts at offset `overflow` of the
      text, not at cell `overflow`: with a tab of at least two cells in front, the
      first two cells are blanks of the tab, the text is then drawn from offset 2 in
      `LINE_OVERFLOW`, and `a` is never drawn. (draw.c counts the offset in bytes;
      the model takes it as a character index, and the two agree for single-byte
      text such as this.) */
  lemma OverflowSpillsFromOffset(e: Env, p: Pen, a: char, b: char)
    requires Measures(e)
    requires e.g.posCol <= p.col && 3 <= MaxLen(e, p)
    requires !e.selected && p.curtype == LineDefault
    requires 2 <= e.g.opts.tabSize && e.g.opts.tabSize + 2 < SizeofStr
    requires a != '\t' && b != '\t' && !IsWide(a) && !IsWide(b)
    ensures DrawTextOverflow(e, p, ['\t', a, b], true, 2, LineDefault).pen.out ==
              p.out + Puts("  ") + [SetAttr(LineOverflow), Put(Ch(b))]
  {
    var q := Pen(p.col + 2, LineDefault, p.out + Puts("  "));
    OverflowHead(e, p, a, b);
    assert ['\t', a, b][2..] == [b];
    OverflowTail(e, q, b);
  }

  /** The first part of the example above: the two cells hold blanks of the tab. */
  lemma OverflowHead(e: Env, p: Pen, a: char, b: char)
    requires Measures(e)
    requires e.g.posCol <= p.col && 3 <= MaxLen(e, p)
    requires !e.selected && p.curtype == LineDefault
    requires 2 <= e.g.opts.tabSize && e.g.opts.tabSize + 2 < SizeofStr
    requires a != '\t' && b != '\t' && !IsWide(a) && !IsWide(b)
    ensures DrawTextExpanded(e, p, LineDefault, ['\t', a, b], 2, false)
              == Drawn(Pen(p.col + 2, LineDefault, p.out + Puts("  ")), false)
  {
    var tab := e.g.opts.tabSize;
    var s := ['\t', a, b];
    var x0 := Spaces(tab) + [a, b];
    assert Expand(s, SizeofStr, tab) == (x0, 3) by {
      var none: string := [];
      assert Min(tab - |none| % tab, SizeofStr - 1 - |none|) == tab;
      assert none + Spaces(tab) == Spaces(tab);
      assert ExpandFrom(s, SizeofStr, tab, 0, none) == ExpandFrom(s, SizeofStr, tab, 1, Spaces(tab));
      assert ExpandFrom(s, SizeofStr, tab, 1, Spaces(tab)) == ExpandFrom(s, SizeofStr, tab, 2, Spaces(tab) + [a]);
      assert Spaces(tab) + [a] + [b] == x0;
    }
    assert UnitWidth(x0, tab) by {
      forall i | 0 <= i < |x0| ensures CharWidth(x0[i], tab) == 1 {
        if i < tab { assert x0[i] == ' '; }
      }
    }
    var m := Measure(e, p, x0, 2, false);
    assert ClipOk(m, x0, 0, 2, false, tab);
    assert m == Clip("  ", 2, true) by {
      assert x0[0..2] == "  ";
    }
    EmitShape(e, p, LineDefault, m, false);
  }

  /** The second part of the example above: `b`, in the overflow attribute. */
  lemma OverflowTail(e: Env, q: Pen, b: char)
    requires Measures(e)
    requires e.g.posCol <= q.col && 1 <= MaxLen(e, q)
    requires !e.selected && q.curtype == LineDefault
    requires b != '\t' && !IsWide(b)
    ensures DrawRest(e, q, LineOverflow, [b]).pen.out == q.out + [SetAttr(LineOverflow), Put(Ch(b))]
  {
    DrawTextSingleChunk(e, q, LineOverflow, [b]);
    assert Width([b], e.g.opts.tabSize) == 1 by { assert [b][..0] == []; }
    DrawCharsFits(e, q, LineOverflow, [b], MaxLen(e, q), true);
  }

  /** draw_graphic with budget left: `size` is clamped to the budget, the glyphs past
      the scrolled-off prefix are written, and a separator always takes one more cell
      but is written only when it lies inside the budget and is not scrolled off. */
  lemma DrawGraphicLayout(e: Env, p: Pen, t: LineType, graphic: seq<Glyph>, size: nat, separator: bool)
    requires size <= |graphic| && MaxLen(e, p) >= 0
    ensures var d := DrawGraphic(e, p, t, graphic, size, separator);
      var n := Min(size, MaxLen(e, p)); var skip := Skip(e, p);
      && d.pen.col == p.col + n + (if separator then 1 else 0)
      && d.pen.curtype == SetViewAttr(e, p, t).curtype
      && d.pen.out == SetViewAttr(e, p, t).out
                      + (if skip < n then Glyphs(graphic[skip..n]) else [])
                      + (if separator && size < MaxLen(e, p) && skip <= size then [Put(Ch(' '))] else [])
      && d.exhausted == (MaxLen(e, d.pen) == 0)
  {
  }

  // ---------------------------------------------------------------------------
  // What the log shows: the glyphs written, in order, attributes set aside.

  function Shown(out: seq<Event>): seq<Glyph>
  {
    if out == [] then []
    else Shown(out[..|out| - 1]) + (if out[|out| - 1].Put? then [out[|out| - 1].g] else [])
  }

  /** The characters of `s` as terminal cells. */
  function AsGlyphs(s: string): (r: seq<Glyph>)
    ensures |r| == |s|
  {
    seq(|s|, i requires 0 <= i < |s| => Ch(s[i]))
  }

  lemma {:induction false} ShownAppend(a: seq<Event>, b: seq<Event>)
    ensures Shown(a + b) == Shown(a) + Shown(b)
    decreases |b|
  {
    if b == [] {
      assert a + b == a;
    } else {
      var b' := b[..|b| - 1];
      assert (a + b)[..|a + b| - 1] == a + b';
      ShownAppend(a, b');
    }
  }

  lemma {:induction false} ShownPuts(s: string)
    ensures Shown(Puts(s)) == AsGlyphs(s)
    decreases |s|
  {
    if s != [] {
      var s' := s[..|s| - 1];
      assert Puts(s)[..|s| - 1] == Puts(s');
      ShownPuts(s');
      assert AsGlyphs(s) == AsGlyphs(s') + [Ch(s[|s| - 1])];
    }
  }

  lemma {:induction false} ShownGlyphs(gs: seq<Glyph>)
    ensures Shown(Glyphs(gs)) == gs
    decreases |gs|
  {
    if gs != [] {
      var gs' := gs[..|gs| - 1];
      assert Glyphs(gs)[..|gs| - 1] == Glyphs(gs');
      ShownGlyphs(gs');
    }
  }

  /** Issuing an attribute shows nothing. */
  lemma ShownSetViewAttr(e: Env, p: Pen, t: LineType)
    ensures Shown(SetViewAttr(e, p, t).out) == Shown(p.out)
  {
    if !e.selected && p.curtype != t {
      ShownAppend(p.out, [SetAttr(t)]);
      assert Shown([SetAttr(t)]) == [];
    }
  }

  /** What draw_space shows when nothing is scrolled off: `min(max, spaces)` blanks. */
  lemma DrawSpaceShown(e: Env, p: Pen, t: LineType, max: int, spaces: int)
    requires Measures(e)
    requires e.g.posCol <= p.col && 0 < Min(max, spaces) && Fits(e, p, Min(max, spaces))
    ensures var d := DrawSpace(e, p, t, max, spaces);
      && Shown(d.pen.out) == Shown(p.out) + AsGlyphs(Spaces(Min(max, spaces)))
      && d.pen.col == p.col + Min(max, spaces)
      && d.exhausted == (MaxLen(e, d.pen) == 0)
  {
    var n := Min(max, spaces);
    DrawSpaceExact(e, p, t, max, spaces);
    var p1 := SetViewAttr(e, p, t);
    ShownAppend(p1.out, Puts(Spaces(n)));
    ShownSetViewAttr(e, p, t);
    ShownPuts(Spaces(n));
  }

  /** What draw_chars shows of text that fits, when nothing is scrolled off: all of it. */
  lemma DrawCharsShown(e: Env, p: Pen, t: LineType, s: string, maxLen: int, tilde: bool)
    requires Measures(e)
    requires e.g.posCol <= p.col && 0 < maxLen && Width(s, e.g.opts.tabSize) <= maxLen
    ensures var d := DrawChars(e, p, t, s, maxLen, tilde);
      && Shown(d.pen.out) == Shown(p.out) + AsGlyphs(s)
      && d.pen.col == p.col + Width(s, e.g.opts.tabSize)
      && d.exhausted == (MaxLen(e, d.pen) == 0)
  {
    DrawCharsFits(e, p, t, s, maxLen, tilde);
    var p1 := SetViewAttr(e, p, t);
    ShownSetViewAttr(e, p, t);
    if |s| > 0 {
      ShownAppend(p1.out, Puts(s));
      ShownPuts(s);
    }
  }

  /** A write with budget begins by applying its attribute. */
  lemma DrawCharsOpens(e: Env, p: Pen, t: LineType, s: string, maxLen: int, tilde: bool)
    requires 0 < maxLen
    ensures Extends(SetViewAttr(e, p, t), DrawChars(e, p, t, s, maxLen, tilde).pen)
  {
    var c := Measure(e, p, s, maxLen, tilde);
    var q := Emit(e, p, t, c, tilde);
    EmitShape(e, p, t, c, tilde);
    var p1 := SetViewAttr(e, p, t);
    ExtendsAppend(p1, q, q.out[|p1.out|..]);
  }

  /** So does a run of blanks. */
  lemma DrawSpaceOpens(e: Env, p: Pen, t: LineType, max: int, spaces: int)
    requires Measures(e)
    requires 0 < Min(max, spaces) && Fits(e, p, Min(max, spaces))
    ensures Extends(SetViewAttr(e, p, t), DrawSpace(e, p, t, max, spaces).pen)
  {
    DrawSpaceExact(e, p, t, max, spaces);
    var d := DrawSpace(e, p, t, max, spaces);
    var p1 := SetViewAttr(e, p, t);
    ExtendsAppend(p1, d.pen, d.pen.out[|p1.out|..]);
  }

  /** What draw_chars shows of single-cell text that is cut short: the first
      `maxLen - 1` characters and the marker. */
  lemma DrawCharsTrimmedShown(e: Env, p: Pen, t: LineType, s: string, maxLen: int)
    requires Measures(e)
    requires e.g.posCol <= p.col
    requires 2 <= maxLen < |s| && UnitWidth(s, e.g.opts.tabSize)
    ensures var d := DrawChars(e, p, t, s, maxLen, true);
      && Shown(d.pen.out) == Shown(p.out) + AsGlyphs(s[..maxLen - 1]) + [Ch('~')]
      && d.pen.col == p.col + maxLen
  {
    DrawCharsTrimmed(e, p, t, s, maxLen);
    var p1 := SetViewAttr(e, p, t);
    ShownSetViewAttr(e, p, t);
    ShownMarked(p1.out, s[..maxLen - 1], if !e.selected && p1.curtype != LineDelimiter then [SetAttr(LineDelimiter)] else []);
  }

  lemma ShownMarked(o: seq<Event>, s: string, a: seq<Event>)
    requires a == [] || a == [SetAttr(LineDelimiter)]
    ensures Shown(o + Puts(s) + a + [Put(Ch('~'))]) == Shown(o) + AsGlyphs(s) + [Ch('~')]
  {
    var x := o + Puts(s);
    ShownAppend(o, Puts(s));
    ShownPuts(s);
    ShownAppend(x, a);
    assert Shown(a) == [] by {
      if a != [] { assert a[..0] == []; }
    }
    ShownAppend(x + a, [Put(Ch('~'))]);
    assert Shown([Put(Ch('~'))]) == [Ch('~')] by {
      assert [Put(Ch('~'))][..0] == [];
    }
  }

  /** One glyph with a separator, with two cells of budget and nothing scrolled off:
      the glyph and a blank. */
  lemma DrawGraphicSeparatorShown(e: Env, p: Pen, t: LineType, g: Glyph)
    requires e.g.posCol <= p.col && 2 <= MaxLen(e, p)
    ensures var d := DrawGraphic(e, p, t, [g], 1, true);
      && Shown(d.pen.out) == Shown(p.out) + [g, Ch(' ')]
      && d.pen.col == p.col + 2
      && d.exhausted == (MaxLen(e, d.pen) == 0)
  {
    DrawGraphicLayout(e, p, t, [g], 1, true);
    var p1 := SetViewAttr(e, p, t);
    assert [g][0..1] == [g];
    ShownSetViewAttr(e, p, t);
    ShownAppend(p1.out, Glyphs([g]));
    ShownGlyphs([g]);
    ShownAppend(p1.out + Glyphs([g]), [Put(Ch(' '))]);
    assert Shown([Put(Ch(' '))]) == [Ch(' ')] by {
      assert [Put(Ch(' '))][..0] == [];
    }
  }

  /** A separator asked for with no budget left still takes its cell: the column
      moves one past the edge, nothing is written, and since VIEW_MAX_LEN is then
      not zero the call does not answer TRUE, so the caller goes on drawing. */
  lemma DrawGraphicPastEdge(e: Env, p: Pen, t: LineType, graphic: seq<Glyph>, size: nat)
    requires size <= |graphic| && MaxLen(e, p) == 0
    ensures var d := DrawGraphic(e, p, t, graphic, size, true);
      && d.pen.col == p.col + 1
      && MaxLen(e, d.pen) == -1 && !d.exhausted
      && Shown(d.pen.out) == Shown(p.out)
  {
    DrawGraphicLayout(e, p, t, graphic, size, true);
    ShownSetViewAttr(e, p, t);
    assert DrawGraphic(e, p, t, graphic, size, true).pen.out == SetViewAttr(e, p, t).out;
  }

  lemma AsGlyphsConcat(a: string, b: string)
    ensures AsGlyphs(a + b) == AsGlyphs(a) + AsGlyphs(b)
  {
  }

  /** Two writes in a row show their cells one after the other. */
  lemma ShownChain(p: Pen, q: Pen, r: Pen, a: seq<Glyph>, b: seq<Glyph>)
    requires Shown(q.out) == Shown(p.out) + a && Shown(r.out) == Shown(q.out) + b
    ensures Shown(r.out) == Shown(p.out) + a + b
  {
  }

  /** A write that shows exactly the characters of `s`, moves the cursor by `|s|`
      and leaves budget. */
  predicate Shows(p: Pen, d: Drawn, s: string)
  {
    && Shown(d.pen.out) == Shown(p.out) + AsGlyphs(s)
    && d.pen.col == p.col + |s|
    && !d.exhausted
  }

  /** Two such writes in a row show the two texts one after the other. */
  lemma ShowsTrans(p: Pen, d1: Drawn, d2: Drawn, s1: string, s2: string)
    requires Shows(p, d1, s1) && Shows(d1.pen, d2, s2)
    ensures Shows(p, d2, s1 + s2)
  {
    AsGlyphsConcat(s1, s2);
  }
}
