/** Data model of tig's line renderer: attribute classes, the abstract terminal log,
    display options, the collaborators' formatting helpers, row content and the
    drawing state that every primitive threads through. */
module Types {

  datatype Option<T> = None | Some(value: T)

  /** Unsigned 32-bit values (the renderer's `unsigned int` line numbers). */
  type UInt = x: int | 0 <= x < 0x1_0000_0000

  type Positive = x: int | x >= 1 witness 1

  /** `enum line_type`: the attribute classes draw.c names, plus the ones chosen by
      collaborators (ref types, the row's own type), which this layer never inspects. */
  datatype LineType =
    | LineNone
    | LineDefault
    | LineCursor
    | LineDelimiter
    | LineDate
    | LineAuthor
    | LineId
    | LineDirectory
    | LineFile
    | LineFileSize
    | LineMode
    | LineLineNumber
    | LineOverflow
    | LineGraphCommit
    | LinePalette(index: nat)
    | LineOther(name: string)

  /** A terminal cell value: a character, the line-drawing vertical bar, or any other
      curses `chtype` produced by the chtype glyph table. */
  datatype Glyph = Ch(c: char) | AcsVLine | AcsGlyph(code: nat)

  /** One entry of the abstract terminal log. */
  datatype Event =
    | SetAttr(t: LineType)      // wattrset + wchgat
    | Put(g: Glyph)             // one character of waddnstr, or one waddch
    | Move(row: nat)            // wmove(win, row, 0)
    | ClearToEol                // wclrtoeol
    | Erase                     // werase
    | Refresh                   // wnoutrefresh
    | Select(index: nat)        // the view's select callback for row `index`
    | LayoutInit                // view_columns_info_init
    | LayoutUpdate(index: nat)  // view_columns_info_update for row `index`

  /** Display styles; only the members draw.c tests for are significant here. */
  datatype DateStyle = DateNo | DateDefault | DateLocal | DateRelative | DateShort
  datatype AuthorStyle = AuthorNo | AuthorFull | AuthorAbbreviated | AuthorEmail | AuthorEmailUser
  datatype FilenameStyle = FilenameNo | FilenameAlways | FilenameAuto
  datatype FileSizeStyle = FileSizeNo | FileSizeDefault | FileSizeUnits
  datatype Graphics = GraphicAscii | GraphicDefault | GraphicUtf8

  /** The `opt_*` globals the renderer reads. */
  datatype Options = Options(
    tabSize: Positive,
    showDate: DateStyle,
    showAuthor: AuthorStyle,
    authorWidth: int,
    showId: bool,
    idWidth: int,
    showFilename: FilenameStyle,
    filenameWidth: int,
    showFileSize: FileSizeStyle,
    lineGraphics: Graphics,
    showLineNumbers: bool,
    lineNumberInterval: int,
    showRefs: bool)

  datatype Time = Time(sec: int, tz: int)
  datatype Ident = Ident(name: string, email: string)

  /** What utf8_length reports for one clipped write: the characters to write (those
      after the horizontally scrolled-off prefix), the cells consumed counting the
      scrolled-off ones, and whether the text was cut short. */
  datatype Clip = Clip(shown: string, width: int, trimmed: bool)

  /** The collaborators draw.c calls, left uninterpreted: the UTF-8 measurement
      (utf8_length with its skip, budget, reserve-a-cell flag and tab size, and
      utf8_width_max) and the formatting helpers, where a `None` result
      is a NULL string. */
  datatype Helpers = Helpers(
    utf8: (string, nat, int, bool, Positive) -> Clip,
    widthMax: (string, int) -> int,
    mkdate: (Option<Time>, DateStyle) -> Option<string>,
    mkauthor: (Option<Ident>, int, AuthorStyle) -> Option<string>,
    authorTrim: int -> bool,
    mkfilesize: (nat, FileSizeStyle) -> Option<string>,
    mkmode: nat -> Option<string>,
    formatRef: string -> Option<string>)   // FORMAT_BUFFER of "[%s]"; None when it fails

  /** A ref; `kind` is what the collaborator's get_line_type_from_ref gives for it. */
  datatype Ref = Ref(name: string, valid: bool, kind: LineType)

  /** One revision-graph cell, with what each of the three glyph tables makes of it. */
  datatype GraphSymbol = GraphSymbol(commit: bool, color: nat, ascii: string, utf8: string, glyphs: seq<Glyph>)

  /** What the view's get_columns callback resolves for one row. */
  datatype Columns = Columns(
    date: Option<Time>,
    author: Option<Ident>,
    ref: Option<Ref>,
    id: Option<string>,
    mode: Option<nat>,
    fileSize: Option<nat>,
    graph: Option<seq<GraphSymbol>>,
    refs: Option<seq<Ref>>,
    commitTitle: string,
    fileName: Option<string>,
    text: string)

  datatype ColumnKind =
    | ColDate | ColAuthor | ColRef | ColId | ColLineNumber | ColMode
    | ColFileSize | ColCommitTitle | ColFileName | ColText

  /** One schema entry: the column kind and its laid-out width. */
  datatype Column = Column(kind: ColumnKind, width: int)

  /** `struct line`: the row's type, its three transient flags, and its resolved content
      (`None` when get_columns reports nothing to draw). */
  datatype Row = Row(kind: LineType, dirty: bool, selected: bool, cleareol: bool, columns: Option<Columns>)

  /** The view's fixed geometry and configuration during a redraw. */
  datatype Geometry = Geometry(
    width: int,
    height: nat,
    posCol: nat,
    offset: nat,
    cursor: nat,        // pos.lineno
    lines: nat,
    digits: int,
    opts: Options,
    ext: Helpers,
    schema: seq<Column>,
    layoutChanged: bool)

  /** What a primitive may read: the geometry and whether the current row is selected. */
  datatype Env = Env(g: Geometry, selected: bool)

  /** What a primitive changes: the cursor column, the last applied attribute, the log. */
  datatype Pen = Pen(col: int, curtype: LineType, out: seq<Event>)

  /** A primitive's new state and its "viewport exhausted" answer. */
  datatype Drawn = Drawn(pen: Pen, exhausted: bool)

  const PaletteSize: nat := 7

  predicate SymbolOk(s: GraphSymbol)
  {
    (s.commit || s.color < PaletteSize) && |s.ascii| >= 1 && |s.utf8| >= 1 && |s.glyphs| >= 2
  }

  predicate ColumnsOk(c: Columns)
  {
    c.graph.Some? ==> forall i :: 0 <= i < |c.graph.value| ==> SymbolOk(c.graph.value[i])
  }

  predicate RowOk(r: Row)
  {
    r.columns.Some? ==> ColumnsOk(r.columns.value)
  }

  /** The source's `unsigned` conversions. */
  function U32(x: int): UInt { x % 0x1_0000_0000 }

  function Min(a: int, b: int): int { if a < b then a else b }
}
