# tig's line renderer, modelled in Dafny

This project models `src/draw.c` of tig, the ncurses front end to git. That file
is the layer that paints one row of a view into a curses window. Its parts:

- set_view_attr and the cell writer draw_chars;
- the blank writer draw_space;
- the text writers draw_text_expanded, draw_text, draw_text_overflow and
  draw_formatted;
- the glyph writer draw_graphic;
- the fixed-width field writer draw_field and its column renderers: date,
  author, id, file name, file size, mode, line number and refs;
- the revision-graph renderer draw_graph with its three glyph tables;
- the column walker view_columns_draw;
- the row driver draw_view_line;
- the window redraws redraw_view_dirty, redraw_view_from and redraw_view.

The model has two layers.

- Specification layer (modules `Types`, `Text`, `Cells`, `Fields`, `Graph`,
  `Rows`, `Redraw`).
  - Every renderer is a function from an environment and a pen to a `Drawn`.
    The environment (`Env`) is the view's geometry and options, plus whether the
    current row is selected. The pen (`Pen`) is the cursor column `col`, the last
    applied attribute `curtype`, and the log of curses events written so far.
  - `Drawn` is the new pen together with the renderer's "viewport exhausted" answer,
    the test `VIEW_MAX_LEN(view) <= 0`. The macro's value is unsigned (it adds the
    unsigned `pos.col`), so the test holds exactly when no cell is left
    (`MaxLen(e, p) == 0`). Once the cursor has passed the edge, the value wraps round
    and the test fails again. draw_graphic's separator can do this, since it always
    moves the cursor one cell on (`Cells.DrawGraphicPastEdge`). The `MIN`s of draw_field
    and draw_lineno_custom then compare unsigned values (`Cells.UMin`), so later
    fields are laid out past the edge at full width (`Fields.DrawFieldPastEdge`).
    Below, "no budget left" and "the budget is gone" mean this exact test.
  - The source's loops are recursive functions. The screen of rows (`Screen`) is
    what the redraws transform.
- Imperative layer (module `Draw`, class `View`).
  - The class holds the mutable view fields: `col`, `curtype`, the output log,
    `curline` and the `line` array of rows.
  - Each of its methods does what the C function does, with the same loops (the
    twenty-blank chunks of draw_space, the do-while over staging buffers, the glyph
    index loop, the ref, symbol, column and row loops).
  - Each method's `ensures` ties its new state to the specification function.

The lemmas state what the renderer promises about the specification functions:

- a field always takes its full width;
- the `~` marker appears only on a trimmed write;
- blanks are written in full;
- the graph colour rules;
- the leading-symbol variant;
- the line-number label;
- the column walk stops only once the budget is gone;
- draw_view_line resets exactly the row it draws;
- redraw_view_dirty redraws exactly the dirty rows on screen.

Two of the collaborators draw.c calls but does not define are function-valued
fields of a `Helpers` record. The drawing code relies on contracts from them:

- utf8_length, as `MeasureOk`;
- utf8_width_max, as `WidthMaxOk`.

These contracts are stated as predicates and assumed as preconditions
(`Cells.Measures`). A reference implementation in `Text` is proved to meet them.
Two other text utilities are concrete stand-ins, and the model fixes their
behaviour: string_expand is `Text.Expand` (tabs to blanks up to the next tab stop,
within the staging buffer), and utf8_width is `Text.Width` (one cell per character,
two for East Asian wide characters, `tab` cells for a tab).
The remaining collaborators are uninterpreted: mkdate, mkauthor, author_trim,
mkfilesize, mkmode, the `"[%s]"` formatting of ref names and the glyph tables.
The view's draw callback is taken to be view_columns_draw. draw_commit_title is
an opaque `Rows.Title` callback, which is required to keep the same answer
discipline as the renderers of draw.c (`Rows.TitleOk`).

The curses calls are events appended to a log:

- `SetAttr(t)` stands for wattrset and wchgat;
- `Put(glyph)` stands for one written cell;
- `Move`, `ClearToEol`, `Erase` and `Refresh` stand for wmove, wclrtoeol, werase
  and wnoutrefresh;
- `Select(k)` is the view's select callback;
- `LayoutInit` and `LayoutUpdate(i)` stand for the column-layout recompute.

`Cells.Shown` projects the log onto the cells written.

Some points where draw.c's own code decides, and which the model follows:

- With a one-cell budget, draw_chars writes nothing for text that does not fit, and
  the cursor does not move. utf8_length gives the one cell up to the `~`, and the
  `~` is only written after written text.
- For more than nine configured digits, the line-number format gets width 1, not
  the column width.
- draw_view_line clears `selected` and then sets it again for the cursor row, after
  set_view_attr(LINE_CURSOR). So the cursor attribute is issued, and the cursor row
  ends up selected.
- The id column with a zero schema width falls through from draw_id to
  draw_id_custom.
- The spill-over part of draw_text_overflow starts at byte offset `overflow` of the
  text, not at cell `overflow`. The model takes that offset as a character index;
  the two agree for single-byte text. So with a leading tab, the blanks of the tab
  can fill the overflow cells, and the characters between them and offset
  `overflow` are never drawn.

## Model

| member | source | states |
|---|---|---|
| Cells.SetViewAttrOnChange | src/draw.c:26-30 | an attribute event is appended and `curtype` becomes `t` exactly when the row is not selected and `t` differs from `curtype`; otherwise the pen is unchanged |
| Cells.ShownSetViewAttr | src/draw.c:26-30 | issuing an attribute writes no cell |
| Cells.UMin | src/draw.c:114 | `MIN` of the unsigned `VIEW_MAX_LEN` and a signed bound: one of the two; the ordinary minimum when both have the same sign; otherwise the non-negative one, since a negative value is huge as unsigned |
| Cells.EmitShape | src/draw.c:55-66 | the write appends the attribute, the clipped characters and, only for a trimmed non-empty write with the tilde flag, the `LINE_DELIMITER` attribute and one `~`; the cursor moves by the measured width plus one for that marker |
| Cells.EmitUntrimmed | src/draw.c:59-63 | a write that was not cut short draws no marker |
| Cells.DrawCharsAdvance | src/draw.c:39-67 | with `max_len <= 0` nothing changes and the answer is whether the budget is gone; otherwise the cursor moves by the measured width, plus one exactly for a trimmed, non-empty write with the tilde, and the answer is `VIEW_MAX_LEN <= 0` |
| Cells.DrawCharsBounds | src/draw.c:44-67 | under the measurement contract the cursor moves by at most `max_len` cells, and only appends |
| Cells.DrawCharsFits | src/draw.c:44-67 | text that fits, with nothing scrolled off, is written whole in `t` and moves the cursor by its width |
| Cells.DrawCharsShown | src/draw.c:44-67 | the cells shown for fitting text are exactly its characters |
| Cells.DrawCharsTrimmed | src/draw.c:47-63 | single-cell text longer than `max_len >= 2` cells is cut to `max_len - 1` characters, then `~` in `LINE_DELIMITER`, `max_len` cells in all |
| Cells.DrawCharsTrimmedShown | src/draw.c:47-63 | the cells shown for such a trimmed write are the prefix and `~` |
| Cells.DrawCharsTrimmedOneCell | src/draw.c:47-64 | with a one-cell budget, text that does not fit writes no cell and no marker, and the cursor does not move; only the attribute may be issued |
| Cells.DrawCharsOpens | src/draw.c:55 | a write with budget begins with its own attribute when the row is not selected and the attribute differs |
| Cells.BlankChunk | src/draw.c:78-80 | one chunk of `len <= 20` blanks moves the cursor by `len` and writes the blanks not scrolled off |
| Cells.SpaceLoopAdvance | src/draw.c:77-83 | the chunk loop with `n` blanks within the budget moves the cursor by exactly `n` |
| Cells.SpaceLoopWrites | src/draw.c:77-83 | the chunk loop issues the attribute at most once and writes the blanks not scrolled off |
| Cells.SpaceLoopStep | src/draw.c:77-83 | two consecutive blank writes compose: the cursor moves by their sum |
| Cells.DrawSpaceExact | src/draw.c:75-85 | draw_space moves the cursor by exactly `min(max, spaces)` cells when they fit the budget, and answers whether the budget is gone |
| Cells.DrawSpaceShown | src/draw.c:75-85 | with nothing scrolled off it shows `min(max, spaces)` blanks |
| Cells.DrawSpaceOpens | src/draw.c:77-80 | a run of blanks with budget opens with its attribute |
| Cells.DrawTextSingleChunk | src/draw.c:93-99 | plain text that fits one staging buffer is written by a single draw_chars |
| Cells.DrawTextExpandedAnswer | src/draw.c:93-101 | draw_text_expanded answers "exhausted" exactly when no budget is left, and only appends |
| Cells.DrawTextExpandedOneBuffer | src/draw.c:93-99 | text that one staging buffer holds is written by a single draw_chars of its expansion |
| Cells.DrawTextOverflowParts | src/draw.c:110-128 | with `on`, the head is drawn in `t` and moves the cursor by at most `MIN(VIEW_MAX_LEN, overflow)` cells when one staging buffer holds it; if the head exhausts the viewport that is the answer; otherwise the text from offset `overflow` on is drawn by draw_text in `LINE_OVERFLOW`, or nothing more when the text is no longer than `overflow`; both parts only append, and the answer is the exhaustion test |
| Cells.DrawRestShown | src/draw.c:124-125 | a tab-free rest that fits the budget is shown whole and moves the cursor by its width |
| Cells.OverflowSpillsFromOffset | src/draw.c:113-124 | for the text "\t" `a` `b` with a tab of two or more cells and an overflow of 2, two blanks of the tab are drawn, then `b` in `LINE_OVERFLOW`, and `a` is never drawn |
| Cells.OverflowHead | src/draw.c:114-118 | the first part of that example writes two blanks of the tab in two cells |
| Cells.OverflowTail | src/draw.c:120-125 | the rest, `b`, is drawn in `LINE_OVERFLOW` |
| Cells.DrawGraphicLayout | src/draw.c:143-163 | with budget left, `size` is clamped to the budget and the cursor moves by it, plus one for a separator; the glyphs from the skip on are written; the blank is written only when `size < max` and `skip <= size` |
| Cells.DrawGraphicPastEdge | src/draw.c:143-163 | with no budget left, a separator still moves the cursor one cell past the edge and writes nothing; the unsigned `VIEW_MAX_LEN` is then not zero, so the answer is FALSE |
| Cells.DrawGraphicSeparatorShown | src/draw.c:150-161 | one glyph with a separator and two cells of budget shows the glyph and a blank |
| Fields.DrawFieldStride | src/draw.c:169-188 | whatever the text and the alignment, the cursor ends exactly `MIN(VIEW_MAX_LEN, width + 1)` cells on, that minimum taken on unsigned values (none when it is not positive), the answer is whether the budget is exactly gone, and the log only grows |
| Fields.DrawFieldPastEdge | src/draw.c:169 | past the edge the unsigned minimum is `width + 1`, so the field still takes `width + 1` cells and answers FALSE |
| Fields.RightFieldStride | src/draw.c:175-188 | the right-aligned case keeps that stride |
| Fields.PaddedStride | src/draw.c:179-184 | a left pad shorter than the field leaves budget for the rest of it |
| Fields.FieldBodyStride | src/draw.c:187-188 | the content then the trailing blanks end exactly `max` cells past the field's start |
| Fields.SpaceBounds | src/draw.c:75-85 | within the budget the blank writer moves the cursor by the clamped count and only appends |
| Fields.FieldBodyContent | src/draw.c:187-188 | fitting text shows the text then blanks up to `max` cells |
| Fields.DrawFieldContent | src/draw.c:169-188 | a field shows blanks only for no text, the text then blanks when left-aligned, and `max - textlen - 1` blanks, the text and one blank when right-aligned |
| Fields.RightFieldContent | src/draw.c:175-188 | the right-aligned field shows the left pad, the text and one blank |
| Fields.PaddedContent | src/draw.c:179-188 | a positive left pad of `max - textlen - 1` is drawn before the text |
| Fields.DrawFieldOpens | src/draw.c:172-188 | a field with two cells of budget opens with its own attribute |
| Fields.FieldBodyOpens | src/draw.c:187 | the content part opens with the field's attribute |
| Fields.PaddedExtends | src/draw.c:179-188 | the padded field extends what its left pad wrote |
| Fields.FieldBodyTrimmed | src/draw.c:187-188 | single-cell content wider than the field is cut one cell short and marked with `~` before the trailing blank |
| Fields.DrawDateLayout | src/draw.c:194-200 | nothing and FALSE when dates are hidden; otherwise a left-aligned date field of 16 cells, or 10 for the short style |
| Fields.DrawAuthorLayout | src/draw.c:206-212 | nothing and FALSE when authors are hidden; otherwise an author field of the given width, trimmed by author_trim |
| Fields.DrawIdLayout | src/draw.c:224-227 | nothing and FALSE unless ids are shown; otherwise an id field of the configured width |
| Fields.DrawFilenameLayout | src/draw.c:233-242 | nothing and FALSE when names are hidden, or shown on demand and not asked for; otherwise a field of the given width in the directory attribute for a directory and the file attribute otherwise |
| Fields.DrawFilenameTrimmed | src/draw.c:233-242 | a single-cell name at least as wide as its column is cut one cell short and marked with `~`, then the separating blank |
| Fields.DrawFileSizeLayout | src/draw.c:248-253 | nothing and FALSE for a zero width or hidden sizes; otherwise a right-aligned field of the given width, blank when `pad` is set |
| Fields.DrawModeLayout | src/draw.c:259-261 | always a field of ten cells, the width of "-rw-r--r--" |
| Fields.LinenoLabelDecimal | src/draw.c:276-282 | line 1 and every `interval`-th line get a label, the decimal digits of the number blank-padded on the left to `max(3, digits)`; other lines get none |
| Fields.DrawLinenoLayout | src/draw.c:268-287 | nothing and FALSE when hidden; otherwise, with room and nothing scrolled off, the label or `digits3` blanks, then the one-cell separator glyph and a blank |
| Fields.DrawLinenoRow | src/draw.c:293-295 | draw_lineno labels screen row `lineno` with `lineno + offset + 1` |
| Fields.DrawRefsHidden | src/draw.c:303-304 | FALSE and nothing written when refs are hidden or absent |
| Fields.RefOneAnswer | src/draw.c:307-314 | one ref answers "exhausted" exactly when no budget is left, and only appends |
| Fields.RefsAnswer | src/draw.c:306-317 | the ref loop answers "exhausted" exactly when no budget is left, and only appends |
| Fields.RefOneShown | src/draw.c:307-314 | a plain ref with room shows "[name] " |
| Fields.RefsShown | src/draw.c:306-317 | with room for all, the ref loop shows "[name] " for each ref in order and answers FALSE |
| Graph.GetGraphColor | src/draw.c:324-340 | a commit symbol gets `LINE_GRAPH_COMMIT`; any other symbol the palette entry its colour index names, which must be below seven |
| Graph.DrawSymbolColour | src/draw.c:342-364 | with budget left, each symbol's write opens with its own colour |
| Graph.DrawTextOpens | src/draw.c:104-108 | draw_text with budget opens with its attribute |
| Graph.SymbolAnswer | src/draw.c:342-364 | every glyph table answers "exhausted" exactly when no budget is left, and only appends |
| Graph.GraphAnswer | src/draw.c:379-387 | the graph column answers "exhausted" exactly when no budget is left, and only appends |
| Graph.GraphRestAnswer | src/draw.c:379-387 | from the second symbol on, the loop answers "exhausted" exactly when no budget is left, and only appends |
| Graph.GraphicExtends | src/draw.c:140-164 | draw_graphic without a separator only appends |
| Graph.GraphStep | src/draw.c:379-385 | unless a symbol exhausts the budget, the loop goes on from the next one |
| Graph.ChtypeSymbolShown | src/draw.c:358-364 | the line-drawing table shows both glyph cells of a symbol, only the second for the row's first symbol |
| Graph.ChtypeGraphShown | src/draw.c:368-388 | with the line-drawing table and room, the graph shows the symbols' cells and one trailing blank |
| Graph.GraphGlyphsCount | src/draw.c:363 | that is `2n - 1` cells for `n > 0` symbols |
| Graph.BlankShown | src/draw.c:387 | the trailing blank of the graph |
| Graph.TextSymbolShown | src/draw.c:342-356 | a character table shows a symbol's text, without its first character for the row's first symbol |
| Graph.TextGraphShown | src/draw.c:368-388 | with a character table and room, the graph shows those texts and one trailing blank |
| Rows.ViewColumnsDraw | src/draw.c:390-471 | view_columns_draw always answers TRUE |
| Rows.ViewColumnsDrawAnswer | src/draw.c:390-471 | it always answers TRUE and only appends to the log |
| Rows.ColumnsAnswer | src/draw.c:399-468 | the column loop visits the schema in order and stops early only once the budget is gone; it only appends |
| Rows.ColumnStepAnswers | src/draw.c:403-467 | every column renderer, the title callback's column included, only appends and reports exhaustion only once the budget is gone |
| Rows.CommitTitleAnswers | src/draw.c:447-454 | the graph, the refs and the title keep that answer discipline |
| Rows.IdAnswers | src/draw.c:425-430 | the id column, with its fall-through, keeps it too |
| Rows.LinenoAnswers | src/draw.c:432-435 | so does the line-number column |
| Rows.SeparatorExtends | src/draw.c:157-161 | draw_graphic with a separator only appends |
| Rows.FieldAnswers | src/draw.c:166-189 | a field keeps the answer discipline |
| Rows.RefsAnswers | src/draw.c:298-318 | so does draw_refs |
| Rows.NoColumnsNothing | src/draw.c:396-397 | a row without columns draws nothing and answers TRUE |
| Rows.IdFallThrough | src/draw.c:426-429 | with a zero schema width and ids shown, draw_id lays out the configured id width and draw_id_custom then adds a zero-width field, i.e. one more blank |
| Rows.IdSchemaWidth | src/draw.c:426-429 | with a non-zero schema width the id column is one field of that width, or nothing when ids are hidden |
| Redraw.CleanRow | src/draw.c:494-499 | the row keeps its type and columns, is no longer dirty nor marked to clear, and is selected as given |
| Redraw.DrawViewLineRows | src/draw.c:477-503 | FALSE exactly past the last row and then nothing changes; otherwise TRUE, the row becomes current with its flags reset and selected exactly when it is the cursor row, and every other row is kept |
| Redraw.DrawViewLineLog | src/draw.c:488-503 | the log is the old log, the move, the clear when asked for, the cursor attribute and the select event for the cursor row, then what the columns wrote |
| Redraw.DrawViewLineResets | src/draw.c:491-493 | the result does not depend on the previous cursor column, attribute or current row |
| Redraw.DirtyFromRows | src/draw.c:512-520 | the walk redraws exactly the dirty rows on screen, keeps the flags of the others, reports a dirty row exactly when it met one, and changes nothing without one |
| Redraw.RedrawViewDirtyRows | src/draw.c:506-525 | redraw_view_dirty redraws exactly the dirty rows on screen and ends with a refresh only when there was one; with none it changes nothing at all |
| Redraw.FromLoopRows | src/draw.c:541-544 | every row on screen from `lineno` down is redrawn and reset; the others keep their flags |
| Redraw.FromLoopLog | src/draw.c:541-544 | the loop only appends |
| Redraw.LayoutEvents | src/draw.c:535-538 | one init then one update per row, in row order |
| Redraw.RedrawViewFromLog | src/draw.c:527-547 | the rows on screen from `lineno` down are redrawn; the old log is kept; the layout events follow it first when the layout changed; the log ends with a refresh |
| Redraw.RedrawViewErases | src/draw.c:549-554 | redraw_view first erases the window |
| Redraw.RedrawViewThenDirty | src/draw.c:549-554 | after redraw_view every row on screen is clean and selected exactly when it is the cursor row, so redraw_view_dirty then changes nothing |
| Text.ReferenceMeasureOk | src/draw.c:47 | the reference measurement meets the contract draw_chars relies on from utf8_length |
| Text.ReferenceWidthMaxOk | src/draw.c:176 | the reference utf8_width_max meets the contract draw_field relies on |
| Text.NatDecimalValue | src/draw.c:279-280 | the decimal digits of a line number read back to the number |
| Text.NatDecimalLength | src/draw.c:267-280 | a number below `10^k` takes at most `k` digits, so nine-digit numbers fit the ten-byte buffer |
| Text.DecimalUnitWidth | src/draw.c:284 | the padded label takes one cell per character |
| Draw.View.SetViewAttr | src/draw.c:23-31 | the new attribute and log are those of `Cells.SetViewAttr` |
| Draw.View.DrawChars | src/draw.c:35-68 | the new state and the answer are those of `Cells.DrawChars` |
| Draw.View.Emit | src/draw.c:55-66 | the attribute, the clipped text, the `~` marker and the cursor advance are those of `Cells.Emit` |
| Draw.View.DrawSpace | src/draw.c:70-86 | the chunk loop's state and answer are those of `Cells.DrawSpace` |
| Draw.View.DrawTextExpanded | src/draw.c:88-102 | the buffer loop's state and answer are those of `Cells.DrawTextExpanded` |
| Draw.View.DrawText | src/draw.c:104-108 | as `Cells.DrawText` |
| Draw.View.DrawTextOverflow | src/draw.c:110-128 | as `Cells.DrawTextOverflow` |
| Draw.View.DrawRest | src/draw.c:124-127 | as `Cells.DrawRest` |
| Draw.View.DrawFormatted | src/draw.c:130-138 | as `Cells.DrawFormatted` |
| Draw.View.DrawGraphic | src/draw.c:140-164 | the glyph loop's state and answer are those of `Cells.DrawGraphic` |
| Draw.View.PutGlyphs | src/draw.c:153-154 | the log gains exactly the glyphs from `from` up to `to`, in order |
| Draw.View.DrawField | src/draw.c:166-189 | as `Fields.DrawField` |
| Draw.View.DrawRightField | src/draw.c:175-188 | as `Fields.RightField` |
| Draw.View.DrawPaddedField | src/draw.c:179-188 | as `Fields.PaddedField` |
| Draw.View.DrawFieldBody | src/draw.c:187-188 | as `Fields.FieldBody` |
| Draw.View.DrawDate | src/draw.c:191-201 | as `Fields.DrawDate` |
| Draw.View.DrawAuthor | src/draw.c:203-213 | as `Fields.DrawAuthor` |
| Draw.View.DrawIdCustom | src/draw.c:215-219 | as `Fields.DrawIdCustom` |
| Draw.View.DrawId | src/draw.c:221-228 | as `Fields.DrawId` |
| Draw.View.DrawFilename | src/draw.c:230-243 | as `Fields.DrawFilename` |
| Draw.View.DrawFileSize | src/draw.c:245-254 | as `Fields.DrawFileSize` |
| Draw.View.DrawMode | src/draw.c:256-262 | as `Fields.DrawMode` |
| Draw.View.DrawLinenoCustom | src/draw.c:264-288 | as `Fields.DrawLinenoCustom` |
| Draw.View.DrawLineno | src/draw.c:290-296 | as `Fields.DrawLineno` |
| Draw.View.DrawRefs | src/draw.c:298-318 | the ref loop's state and answer are those of `Fields.DrawRefs` |
| Draw.View.DrawSymbol | src/draw.c:342-364 | as `Graph.DrawSymbol` |
| Draw.View.DrawGraph | src/draw.c:368-388 | the symbol loop's state and answer are those of `Graph.DrawGraph` |
| Draw.View.DrawGraphTurn | src/draw.c:380-384 | a symbol that exhausts the budget gives the loop's answer; otherwise the loop from the next symbol gives the same result as from this one |
| Draw.View.DrawCommitTitle | src/draw.c:452 | the state and answer the title callback gives |
| Draw.View.DrawCommitTitleColumn | src/draw.c:447-454 | as `Rows.CommitTitleColumn` |
| Draw.View.DrawColumn | src/draw.c:403-467 | as `Rows.ColumnStep` |
| Draw.View.DrawIdColumn | src/draw.c:425-430 | as `Rows.IdColumn` |
| Draw.View.ViewColumnsDraw | src/draw.c:390-471 | the column loop's state and answer are those of `Rows.ViewColumnsDraw` |
| Draw.View.DrawViewLine | src/draw.c:473-504 | the new screen (rows, log, current row) and the answer are those of `Redraw.DrawViewLine` |
| Draw.View.BeginLine | src/draw.c:486-501 | the move, the optional clear, the reset state, the cursor row's attribute and select event, and the row's reset flags, with only that row changed |
| Draw.View.RedrawViewDirty | src/draw.c:506-525 | the row loop leaves the screen `Redraw.RedrawViewDirty` gives |
| Draw.View.RedrawViewFrom | src/draw.c:527-547 | the layout loop and the row loop leave the screen `Redraw.RedrawViewFrom` gives |
| Draw.View.LayoutRecompute | src/draw.c:535-538 | the log gains the layout reset and one update per line |
| Draw.View.RedrawView | src/draw.c:549-554 | the screen `Redraw.RedrawView` gives |

## Left out

- Output conversion through iconv (`opt_iconv_out`) is not modelled; the output encoding is taken to be the identity, so the failure path at draw.c:49-53 does not occur.
- utf8_length and utf8_width_max are defined elsewhere. They are collaborators with assumed contracts, plus a reference implementation for single- and double-cell characters. No claim is made about tig's own implementations.
- string_expand and utf8_width are also defined elsewhere. The model gives each one concrete definition (`Text.Expand`, `Text.Width`), so results that depend on them hold for those definitions only.
- Cells.MaxLen: a conversion of the unsigned VIEW_MAX_LEN to `int` (draw.c:107, 114, 144, 169, 269) is read as its signed value. Two's-complement truncation gives exactly that while the value's magnitude is below 2^31; wider views and columns are not modelled.
- Text is a sequence of characters, not of UTF-8 bytes. Byte offsets (`text + overflow` in draw_text_overflow) are taken as character indices, which agree with them for single-byte text. `chars + !!first` in the graph tables is taken as dropping the first character.
- The formatting helpers mkdate, mkauthor, author_trim, mkfilesize and mkmode, the `"[%s]"` formatting of ref names, and get_line_type_from_ref are uninterpreted. FORMAT_BUFFER's failure is a `None` result.
- The glyph tables graph_symbol_to_ascii/utf8/chtype are data carried by each symbol.
- get_columns is modelled as the row's resolved columns (`None` when it reports nothing). select is an event, and draw is view_columns_draw.
- The layout recompute view_columns_info_changed/init/update is modelled as the layout events only. Whether the layout changed is a flag of the geometry, and the column widths are fixed.
- draw_commit_title is defined outside draw.c. It is an opaque callback required to keep the renderers' answer discipline; what it writes is not modelled.
- Curses is an event log. The cells' final contents after overwrites, colours and attributes are not modelled.
- The line-number interval is required to give a defined modulo (non-zero as `unsigned`) whenever line numbers are shown.
- Draw.View.DrawViewLine: the `unsigned` wrap-around of `pos.offset + lineno` is not modelled; offsets are naturals.
- Fields.DrawFilenameTrimmed: only stated for text of single-cell characters.
- Cells.DrawCharsTrimmed: only stated for text of single-cell characters.
- The assertion `view_is_displayed(view)` at draw.c:479-481 is disabled in the source and is not modelled.
- A further redraw writing the same cells was not proved; only that `redraw_view_dirty` after `redraw_view` changes nothing.
