/** `runtime/tty_input.py`: the line editor's redraws against a small terminal. */
module LineEditor {
  import opened Outcomes
  import opened Folds

  /** What the terminal shows as one unit, one or two columns wide. */
  datatype Glyph = Glyph(text: string, width: nat)

  predicate Drawable(g: Glyph) {
    g.width == 1 || g.width == 2
  }

  // ---------------------------------------------------------------- the terminal

  datatype Output = Put(glyph: Glyph) | CarriageReturn | LineFeed | CursorUp(n: nat) | EraseBelow

  datatype Cell = Lead(glyph: Glyph) | Trail(glyph: Glyph)

  /** A terminal of fixed width with rows without end. `pendingWrap` is the state after the
      last column was written: the cursor stays there and the next glyph wraps. */
  datatype Screen = Screen(width: nat, cells: map<(nat, nat), Cell>, row: nat, col: nat, pendingWrap: bool)

  /** Where the next glyph of that width goes. */
  function Target(s: Screen, width: nat): (nat, nat) {
    if s.pendingWrap || s.col + width > s.width then (s.row + 1, 0) else (s.row, s.col)
  }

  function Write(s: Screen, g: Glyph): Screen {
    var at := Target(s, g.width);
    var drawn := s.cells[at := Lead(g)];
    var cells := if g.width == 2 then drawn[(at.0, at.1 + 1) := Trail(g)] else drawn;
    var next := at.1 + g.width;
    Screen(s.width, cells, at.0, if next >= s.width && s.width > 0 then s.width - 1 else next, next >= s.width)
  }

  /** CR, LF, CUU (section 8.3.22 of ECMA-48: a parameter 0 counts as 1) and ED to the end
      (section 8.3.39). */
  function Emulate(s: Screen, o: Output): Screen {
    match o
    case Put(g) => Write(s, g)
    case CarriageReturn => s.(col := 0, pendingWrap := false)
    case LineFeed => s.(row := s.row + 1, pendingWrap := false)
    case CursorUp(n) =>
      var up := if n == 0 then 1 else n;
      s.(row := if up <= s.row then s.row - up else 0, pendingWrap := false)
    case EraseBelow =>
      s.(cells := map k | k in s.cells && (k.0 < s.row || (k.0 == s.row && k.1 < s.col)) :: s.cells[k])
  }

  function EmulateAll(s: Screen, os: seq<Output>): Screen {
    if os == [] then s else Emulate(EmulateAll(s, os[..|os| - 1]), os[|os| - 1])
  }

  lemma {:induction false} EmulateConcat(s: Screen, a: seq<Output>, b: seq<Output>)
    ensures EmulateAll(s, a + b) == EmulateAll(EmulateAll(s, a), b)
  {
    if b == [] {
      assert a + b == a;
    } else {
      assert (a + b)[..|a + b| - 1] == a + b[..|b| - 1];
      EmulateConcat(s, a, b[..|b| - 1]);
    }
  }

  // ---------------------------------------------------------------- the edit buffer and its picture

  /** What a malformed sequence leaves in one entry. */
  type Characters = gs: seq<Glyph> | |gs| >= 2 witness [Glyph("", 0), Glyph("", 0)]

  /** One entry of the buffer. */
  datatype Item = Text(glyph: Glyph) | Malformed(glyphs: Characters) | Newline

  function GlyphsOf(item: Item): seq<Glyph> {
    match item
    case Text(g) => [g]
    case Malformed(gs) => gs
    case Newline => []
  }

  /** The entries of a line, joined. */
  function TextOf(line: seq<Item>): seq<Glyph> {
    if line == [] then [] else TextOf(line[..|line| - 1]) + GlyphsOf(line[|line| - 1])
  }

  function Show(items: seq<Item>): seq<Output> {
    if items == [] then []
    else
      var last := items[|items| - 1];
      Show(items[..|items| - 1]) + Shown(last)
  }

  function Puts(gs: seq<Glyph>): seq<Output> {
    seq(|gs|, i requires 0 <= i < |gs| => Put(gs[i]))
  }

  /** What the editor echoes for one entry. */
  function Shown(item: Item): seq<Output> {
    if item.Newline? then [CarriageReturn, LineFeed] else Puts(GlyphsOf(item))
  }

  lemma {:induction false} ShowOne(item: Item)
    ensures Show([item]) == Shown(item)
  {
    assert [item][..0] == [];
  }

  /** The screen of a buffer: what printing all of it from `origin` shows. */
  function Picture(origin: Screen, items: seq<Item>): Screen {
    EmulateAll(origin, Show(items))
  }

  lemma {:induction false} ShowConcat(a: seq<Item>, b: seq<Item>)
    ensures Show(a + b) == Show(a) + Show(b)
  {
    if b == [] {
      assert a + b == a;
    } else {
      assert (a + b)[..|a + b| - 1] == a + b[..|b| - 1];
      ShowConcat(a, b[..|b| - 1]);
      Joined(Show(a), Show(b[..|b| - 1]), Shown(b[|b| - 1]));
    }
  }

  lemma {:induction false} PictureConcat(origin: Screen, a: seq<Item>, b: seq<Item>)
    ensures Picture(origin, a + b) == Picture(Picture(origin, a), b)
  {
    ShowConcat(a, b);
    EmulateConcat(origin, Show(a), Show(b));
  }

  predicate DrawableItem(item: Item) {
    forall i | 0 <= i < |GlyphsOf(item)| :: Drawable(GlyphsOf(item)[i])
  }

  predicate DrawableItems(items: seq<Item>) {
    forall i | 0 <= i < |items| :: DrawableItem(items[i])
  }

  predicate OneLine(items: seq<Item>) {
    forall i | 0 <= i < |items| :: !items[i].Newline?
  }

  /** Where a logical line can start: column 0, and nothing at or below the cursor's row. */
  predicate LineStart(s: Screen) {
    s.width >= 2 && s.col == 0 && !s.pendingWrap && forall k | k in s.cells :: k.0 < s.row
  }

  // ---------------------------------------------------------------- the layout of one line

  /** The row and the column after one more glyph, where column `width` means a full row. */
  function Advance(at: (nat, nat), g: Glyph, width: nat): (nat, nat) {
    if g.width == 0 then at
    else if at.1 + g.width <= width then (at.0, at.1 + g.width)
    else (at.0 + 1, g.width)
  }

  function AdvanceAll(at: (nat, nat), gs: seq<Glyph>, width: nat): (nat, nat) {
    if gs == [] then at else Advance(AdvanceAll(at, gs[..|gs| - 1], width), gs[|gs| - 1], width)
  }

  /** Where a line ends, entry by entry. */
  function Layout(line: seq<Item>, width: nat): (nat, nat) {
    if line == [] then (0, 0)
    else AdvanceAll(Layout(line[..|line| - 1], width), GlyphsOf(line[|line| - 1]), width)
  }

  lemma {:induction false} AdvanceConcat(at: (nat, nat), a: seq<Glyph>, b: seq<Glyph>, width: nat)
    ensures AdvanceAll(at, a + b, width) == AdvanceAll(AdvanceAll(at, a, width), b, width)
  {
    if b == [] {
      assert a + b == a;
    } else {
      assert (a + b)[..|a + b| - 1] == a + b[..|b| - 1];
      AdvanceConcat(at, a, b[..|b| - 1], width);
    }
  }

  /** The entries of a line and its joined text end in the same place. */
  lemma {:induction false} LayoutOfText(line: seq<Item>, width: nat)
    ensures Layout(line, width) == AdvanceAll((0, 0), TextOf(line), width)
  {
    if line != [] {
      LayoutOfText(line[..|line| - 1], width);
      AdvanceConcat((0, 0), TextOf(line[..|line| - 1]), GlyphsOf(line[|line| - 1]), width);
    }
  }

  method LineLayout(text: seq<Glyph>, width: nat) returns (rows: nat, row: nat, column: nat)
    ensures (row, column) == AdvanceAll((0, 0), text, width) && rows == row + 1
  {
    row, column := 0, 0;
    for i := 0 to |text|
      invariant (row, column) == AdvanceAll((0, 0), text[..i], width)
    {
      assert text[..i + 1][..i] == text[..i];
      var w := text[i].width;
      if w == 0 {
        continue;
      }
      if column + w <= width {
        column := column + w;
      } else {
        row := row + 1;
        column := w;
      }
    }
    assert text[..|text|] == text;
    rows := row + 1;
  }

  /** The editor's column of a terminal cursor. */
  function Column(s: Screen): nat {
    if s.pendingWrap then s.width else s.col
  }

  predicate CursorOk(s: Screen) {
    s.width >= 2 && s.col < s.width && (s.pendingWrap ==> s.col == s.width - 1)
  }

  ghost predicate SameAbove(row: nat, a: map<(nat, nat), Cell>, b: map<(nat, nat), Cell>) {
    forall k: (nat, nat) | k.0 < row :: (k in a <==> k in b) && (k in a ==> a[k] == b[k])
  }

  /** What printing a line does to the terminal it starts on: only cells from its first row on
      change, nothing is below the cursor, and the cursor is where the layout says. */
  ghost predicate LineShown(start: Screen, line: seq<Item>, s: Screen) {
    ShownTo(start, Layout(line, start.width), s)
  }

  ghost predicate ShownTo(start: Screen, at: (nat, nat), s: Screen) {
    && s.width == start.width && CursorOk(s)
    && s.row == start.row + at.0 && Column(s) == at.1
    && SameAbove(start.row, s.cells, start.cells)
    && (forall k | k in s.cells :: k.0 <= s.row)
  }

  lemma {:induction false} WriteKeeps(start: Screen, s: Screen, g: Glyph)
    requires CursorOk(s) && Drawable(g) && start.row <= s.row
    requires forall k | k in s.cells :: k.0 <= s.row
    ensures var t := Write(s, g);
            && t.width == s.width && CursorOk(t) && s.row <= t.row
            && (if Column(s) + g.width <= s.width then t.row == s.row && Column(t) == Column(s) + g.width
                else t.row == s.row + 1 && Column(t) == g.width)
            && SameAbove(start.row, t.cells, s.cells)
            && (forall k | k in t.cells :: k.0 <= t.row)
  {
  }

  lemma {:induction false} PrintGlyph(start: Screen, at: (nat, nat), s: Screen, g: Glyph)
    requires ShownTo(start, at, s) && Drawable(g)
    ensures ShownTo(start, Advance(at, g, start.width), Write(s, g))
  {
    WriteKeeps(start, s, g);
  }

  lemma {:induction false} PrintGlyphs(start: Screen, at: (nat, nat), s: Screen, gs: seq<Glyph>)
    requires ShownTo(start, at, s) && forall i | 0 <= i < |gs| :: Drawable(gs[i])
    ensures ShownTo(start, AdvanceAll(at, gs, start.width), EmulateAll(s, Puts(gs)))
  {
    if gs != [] {
      var n := |gs| - 1;
      PrintGlyphs(start, at, s, gs[..n]);
      assert Puts(gs)[..n] == Puts(gs[..n]);
      PrintGlyph(start, AdvanceAll(at, gs[..n], start.width), EmulateAll(s, Puts(gs[..n])), gs[n]);
    }
  }

  lemma {:induction false} PrintLine(start: Screen, line: seq<Item>)
    requires LineStart(start) && OneLine(line) && DrawableItems(line)
    ensures LineShown(start, line, Picture(start, line))
  {
    if line != [] {
      var n := |line| - 1;
      PrintLine(start, line[..n]);
      PictureConcat(start, line[..n], [line[n]]);
      assert line == line[..n] + [line[n]];
      var s := Picture(start, line[..n]);
      OneItem(s, line[n]);
      PrintGlyphs(start, Layout(line[..n], start.width), s, GlyphsOf(line[n]));
    }
  }

  lemma {:induction false} EmulateOne(s: Screen, o: Output)
    ensures EmulateAll(s, [o]) == Emulate(s, o)
  {
    assert [o][..0] == [];
  }

  lemma {:induction false} OneItem(s: Screen, item: Item)
    ensures Picture(s, [item]) == if item.Newline? then Emulate(Emulate(s, CarriageReturn), LineFeed) else EmulateAll(s, Puts(GlyphsOf(item)))
  {
    ShowOne(item);
    if item.Newline? {
      assert Show([item]) == [CarriageReturn] + [LineFeed];
      EmulateConcat(s, [CarriageReturn], [LineFeed]);
      EmulateOne(s, CarriageReturn);
      EmulateOne(Emulate(s, CarriageReturn), LineFeed);
    }
  }

  /** After a line end the terminal is at the start of a line again. */
  lemma {:induction false} NewlineStarts(start: Screen, line: seq<Item>, s: Screen)
    requires LineStart(start) && LineShown(start, line, s)
    ensures var t := Emulate(Emulate(s, CarriageReturn), LineFeed);
            LineStart(t) && t.row == s.row + 1 && t.cells == s.cells && t.width == s.width
  {
  }

  /** Going back to the start of the line and erasing restores the screen before the line. */
  lemma {:induction false} RewindErases(start: Screen, s: Screen, up: nat)
    requires LineStart(start) && s.width == start.width && s.row == start.row + up
    requires SameAbove(start.row, s.cells, start.cells)
    ensures var returned := Emulate(s, CarriageReturn);
            var raised := if up > 0 then Emulate(returned, CursorUp(up)) else returned;
            Emulate(raised, EraseBelow) == start
  {
    var returned := Emulate(s, CarriageReturn);
    var raised := if up > 0 then Emulate(returned, CursorUp(up)) else returned;
    var erased := Emulate(raised, EraseBelow);
    assert raised.row == start.row && raised.col == 0;
    forall k ensures k in erased.cells <==> k in start.cells {}
    assert erased.cells == start.cells;
  }

  // ---------------------------------------------------------------- the current line

  /** Where the current logical line starts. */
  function StartOfLine(items: seq<Item>): (start: nat)
    ensures start <= |items| && (start > 0 ==> items[start - 1].Newline?) && OneLine(items[start..])
  {
    if items == [] || items[|items| - 1].Newline? then |items|
    else
      var start := StartOfLine(items[..|items| - 1]);
      assert items[start..] == items[..|items| - 1][start..] + [items[|items| - 1]];
      start
  }

  /** What a redraw from `start` needs to know about the screen it replaces. */
  ghost predicate Replaceable(start: Screen, rows: nat, s: Screen) {
    LineStart(start) && s.width == start.width && s.row == start.row + rows && SameAbove(start.row, s.cells, start.cells)
  }

  lemma {:induction false} LineEndReplaceable(start: Screen, line: seq<Item>, s: Screen)
    requires LineStart(start) && LineShown(start, line, s)
    ensures Replaceable(start, Layout(line, start.width).0 + 1, Emulate(Emulate(s, CarriageReturn), LineFeed))
  {
  }

  /** A whole line and its end, from one line start to the next. */
  lemma {:induction false} LineAndEnd(s0: Screen, line: seq<Item>)
    requires LineStart(s0) && OneLine(line) && DrawableItems(line)
    ensures var t := Picture(s0, line + [Newline]);
            && LineStart(t) && t.width == s0.width
            && Replaceable(s0, Layout(line, s0.width).0 + 1, t)
  {
    PrintLine(s0, line);
    PictureConcat(s0, line, [Newline]);
    OneItem(Picture(s0, line), Newline);
    NewlineStarts(s0, line, Picture(s0, line));
    LineEndReplaceable(s0, line, Picture(s0, line));
  }

  /** A buffer that ends a line is what comes before that line, the line, and its end. */
  lemma {:induction false} SplitLine(items: seq<Item>, start: nat)
    requires items != [] && items[|items| - 1].Newline? && start == StartOfLine(items[..|items| - 1])
    ensures var n := |items| - 1;
            && start <= n && items == items[..start] + (items[start..n] + [Newline]) && items[..n] == items[..start] + items[start..n]
            && OneLine(items[start..n]) && (items[..start] == [] || items[..start][start - 1].Newline?)
            && (DrawableItems(items) ==> DrawableItems(items[..start]) && DrawableItems(items[start..n]))
  {
    var n := |items| - 1;
    assert items[..n][start..] == items[start..n];
  }

  /** From a line start, every prefix that ends a line leaves a line start. */
  lemma {:induction false} LinesStart(origin: Screen, items: seq<Item>)
    requires LineStart(origin) && DrawableItems(items) && (items == [] || items[|items| - 1].Newline?)
    ensures LineStart(Picture(origin, items)) && Picture(origin, items).width == origin.width
    decreases |items|
  {
    if items != [] {
      var n := |items| - 1;
      var start := StartOfLine(items[..n]);
      SplitLine(items, start);
      LinesStart(origin, items[..start]);
      NextLineStart(origin, items[..start], items[start..n]);
    }
  }

  lemma {:induction false} NextLineStart(origin: Screen, before: seq<Item>, line: seq<Item>)
    requires OneLine(line) && DrawableItems(line) && LineStart(Picture(origin, before)) && Picture(origin, before).width == origin.width
    ensures var t := Picture(origin, before + (line + [Newline])); LineStart(t) && t.width == origin.width
  {
    LineAndEnd(Picture(origin, before), line);
    PictureConcat(origin, before, line + [Newline]);
  }

  lemma {:induction false} LinePart(origin: Screen, items: seq<Item>, start: nat, k: nat)
    requires start <= k <= |items|
    ensures Picture(origin, items[..k]) == Picture(Picture(origin, items[..start]), items[start..k])
  {
    assert items[..k] == items[..start] + items[start..k];
    PictureConcat(origin, items[..start], items[start..k]);
  }

  lemma {:induction false} LineWhole(origin: Screen, items: seq<Item>, start: nat)
    requires start <= |items|
    ensures Picture(origin, items) == Picture(Picture(origin, items[..start]), items[start..])
  {
    LinePart(origin, items, start, |items|);
    assert items[..|items|] == items && items[start..|items|] == items[start..];
  }

  /** The picture of a buffer is the picture of its current line on the screen it started on. */
  lemma {:induction false} CurrentLine(origin: Screen, items: seq<Item>, start: nat)
    requires LineStart(origin) && DrawableItems(items) && start <= |items|
    requires (start > 0 ==> items[start - 1].Newline?) && OneLine(items[start..])
    ensures var s0 := Picture(origin, items[..start]);
            LineStart(s0) && s0.width == origin.width && LineShown(s0, items[start..], Picture(origin, items))
  {
    LinesStart(origin, items[..start]);
    LineWhole(origin, items, start);
    PrintLine(Picture(origin, items[..start]), items[start..]);
  }

  lemma {:induction false} BeforeBackspace(origin: Screen, items: seq<Item>, start: nat)
    requires LineStart(origin) && DrawableItems(items) && start < |items|
    requires (start > 0 ==> items[start - 1].Newline?) && OneLine(items[start..])
    ensures Replaceable(Picture(origin, items[..start]), Layout(items[start..], origin.width).0, Picture(origin, items))
  {
    CurrentLine(origin, items, start);
  }

  /** The screen after a line end, seen from the line before it. */
  lemma {:induction false} AfterLineEnd(origin: Screen, before: seq<Item>, line: seq<Item>)
    requires LineStart(origin) && DrawableItems(before) && DrawableItems(line) && OneLine(line)
    requires before == [] || before[|before| - 1].Newline?
    ensures var s0 := Picture(origin, before);
            && Replaceable(s0, Layout(line, origin.width).0 + 1, Picture(origin, before + (line + [Newline])))
            && Picture(origin, before + line) == Picture(s0, line)
  {
    LinesStart(origin, before);
    LineAndEnd(Picture(origin, before), line);
    PictureConcat(origin, before, line + [Newline]);
    PictureConcat(origin, before, line);
  }

  lemma {:induction false} BeforeJoin(origin: Screen, items: seq<Item>, start: nat)
    requires LineStart(origin) && DrawableItems(items) && items != [] && items[|items| - 1].Newline?
    requires start == StartOfLine(items[..|items| - 1])
    ensures var n := |items| - 1;
            var s0, line := Picture(origin, items[..start]), items[start..n];
            && OneLine(line) && DrawableItems(items[..n]) && Picture(origin, items).width == origin.width
            && Replaceable(s0, Layout(line, origin.width).0 + 1, Picture(origin, items))
            && Picture(origin, items[..n]) == Picture(s0, line)
  {
    SplitLine(items, start);
    SameWidth(origin, items);
    AfterLineEnd(origin, items[..start], items[start..|items| - 1]);
  }

  lemma {:induction false} SameWidth(origin: Screen, items: seq<Item>)
    ensures Picture(origin, items).width == origin.width
  {
    WidthKept(origin, Show(items));
  }

  lemma {:induction false} WidthKept(s: Screen, os: seq<Output>)
    ensures EmulateAll(s, os).width == s.width
  {
    if os != [] {
      WidthKept(s, os[..|os| - 1]);
    }
  }

  // ---------------------------------------------------------------- what the keys are for

  /** A decoded character or escape sequence. The characters that mean something outside a
      paste still have a glyph, for inside a paste they are typed like any other. A malformed
      sequence arrives as several characters in one string. */
  datatype Key =
    | Char(glyph: Glyph, printable: bool)
    | Garbled(glyphs: Characters, printable: bool)
    | Enter
    | LineBreak
    | Erase(glyph: Glyph)
    | EndOfInput(glyph: Glyph)
    | ShiftEnter
    | PasteStart
    | PasteEnd
    | Ignored

  /** The buffer, the paste mode and the lines handed in. */
  datatype EditState = EditState(buffer: seq<Item>, paste: bool, results: seq<Option<seq<Item>>>)

  function Submitted(e: EditState): EditState {
    EditState([], e.paste, e.results + [Some(e.buffer)])
  }

  /** What a key adds to the buffer, if it adds to it. */
  function Typed(paste: bool, key: Key): Option<Item> {
    match key
    case Char(g, printable) => if paste || printable then Some(Text(g)) else None
    case Garbled(gs, printable) => if paste || printable then Some(Malformed(gs)) else None
    case Enter => if paste then Some(Newline) else None
    case LineBreak => Some(Newline)
    case Erase(g) => if paste then Some(Text(g)) else None
    case EndOfInput(g) => if paste then Some(Text(g)) else None
    case ShiftEnter => if paste then None else Some(Newline)
    case _ => None
  }

  /** `unicodedata.category` takes one character: several, of which one is not printable, end
      `_handle_char` with a TypeError, unless they are pasted. */
  predicate Raises(paste: bool, key: Key) {
    key.Garbled? && !key.printable && !paste
  }

  /** The character count of the line tells the entries apart only when each is one character. */
  predicate Plain(line: seq<Item>) {
    forall i | 0 <= i < |line| :: !line[i].Malformed?
  }

  /** The buffer after a backspace: a line with an entry of several characters stays as it is,
      because the place of its last character is past its last entry. */
  function Erased(items: seq<Item>): seq<Item>
    requires items != []
  {
    var n := |items| - 1;
    if items[n].Newline? || Plain(items[StartOfLine(items)..]) then items[..n] else items
  }

  predicate Submits(e: EditState, key: Key) {
    !e.paste && (key.Enter? || (key.EndOfInput? && e.buffer != []))
  }

  function Edits(e: EditState, key: Key): EditState {
    if Typed(e.paste, key).Some? then e.(buffer := e.buffer + [Typed(e.paste, key).value])
    else if Submits(e, key) then Submitted(e)
    else match key
      case PasteStart => e.(paste := true)
      case PasteEnd => e.(paste := false)
      case Erase(_) => if e.buffer == [] then e else e.(buffer := Erased(e.buffer))
      case EndOfInput(_) => e.(results := e.results + [None])
      case _ => e
  }

  function EditsAll(e: EditState, keys: seq<Key>): EditState {
    Final(Edits, e, keys)
  }

  // ---------------------------------------------------------------- what the keys echo

  /** Back to the start of the logical line, erase to the end of the screen, draw the line. */
  function Redraw(oldRow: nat, line: seq<Item>): seq<Output> {
    [CarriageReturn] + (if oldRow > 0 then [CursorUp(oldRow)] else []) + [EraseBelow] + Show(line)
  }

  /** The echo of deleting the last entry: its line, or the line it ended, is drawn again. */
  function Deleted(items: seq<Item>, width: nat): seq<Output>
    requires items != []
  {
    var n := |items| - 1;
    if items[n].Newline? then
      var start := StartOfLine(items[..n]);
      Redraw(Layout(items[start..n], width).0 + 1, items[start..n])
    else
      var start := StartOfLine(items);
      Redraw(Layout(items[start..], width).0, Erased(items)[start..])
  }

  function EchoOf(e: EditState, key: Key, width: nat): seq<Output> {
    if Typed(e.paste, key).Some? then Shown(Typed(e.paste, key).value)
    else if Submits(e, key) then [CarriageReturn, LineFeed]
    else if key.Erase? && e.buffer != [] then Deleted(e.buffer, width)
    else []
  }

  function Echoing(width: nat): (EditState, Key) -> seq<Output> {
    (e, key) => EchoOf(e, key, width)
  }

  function EchoAll(e: EditState, keys: seq<Key>, width: nat): seq<Output> {
    PutOut(Edits, Echoing(width), e, keys)
  }

  /** What is typed can be drawn: glyphs of width 1 or 2, and no control characters, which only
      a paste can type. */
  predicate Draws(paste: bool, key: Key) {
    var item := Typed(paste, key); item.Some? ==> DrawableItem(item.value)
  }

  predicate DrawsAll(e: EditState, keys: seq<Key>) {
    forall i | 0 <= i < |keys| :: Draws(EditsAll(e, keys[..i]).paste, keys[i])
  }

  // ---------------------------------------------------------------- the echo draws the picture

  /** The refinement: the screen and its cursor are the picture of the buffer. */
  ghost predicate Drawn(origin: Screen, buffer: seq<Item>, screen: Screen) {
    LineStart(origin) && DrawableItems(buffer) && screen == Picture(origin, buffer)
  }

  /** Where the next buffer starts: nothing moves it but a submission, which leaves all that
      was shown and goes to the next row. */
  function OriginAfter(origin: Screen, e: EditState, key: Key): Screen {
    if Submits(e, key) then Emulate(Emulate(Picture(origin, e.buffer), CarriageReturn), LineFeed) else origin
  }

  function OriginAll(origin: Screen, e: EditState, keys: seq<Key>): Screen {
    if keys == [] then origin
    else OriginAfter(OriginAll(origin, e, keys[..|keys| - 1]), EditsAll(e, keys[..|keys| - 1]), keys[|keys| - 1])
  }

  lemma {:induction false} RedrawDraws(start: Screen, s: Screen, oldRow: nat, line: seq<Item>)
    requires Replaceable(start, oldRow, s)
    ensures EmulateAll(s, Redraw(oldRow, line)) == Picture(start, line)
  {
    var up := if oldRow > 0 then [CursorUp(oldRow)] else [];
    RewindErases(start, s, oldRow);
    EmulateOne(s, CarriageReturn);
    var returned := Emulate(s, CarriageReturn);
    EmulateConcat(s, [CarriageReturn], up);
    if oldRow > 0 {
      EmulateOne(returned, CursorUp(oldRow));
    }
    var raised := EmulateAll(returned, up);
    EmulateConcat(s, [CarriageReturn] + up, [EraseBelow]);
    EmulateOne(raised, EraseBelow);
    EmulateConcat(s, [CarriageReturn] + up + [EraseBelow], Show(line));
  }

  lemma {:induction false} DeletedDraws(origin: Screen, items: seq<Item>)
    requires LineStart(origin) && DrawableItems(items) && items != []
    ensures EmulateAll(Picture(origin, items), Deleted(items, origin.width)) == Picture(origin, Erased(items))
  {
    if items[|items| - 1].Newline? {
      LineEndDeleted(origin, items);
    } else {
      LastDeleted(origin, items, StartOfLine(items));
    }
  }

  lemma {:induction false} LineEndDeleted(origin: Screen, items: seq<Item>)
    requires LineStart(origin) && DrawableItems(items) && items != [] && items[|items| - 1].Newline?
    ensures EmulateAll(Picture(origin, items), Deleted(items, origin.width)) == Picture(origin, items[..|items| - 1])
  {
    var n := |items| - 1;
    var start := StartOfLine(items[..n]);
    BeforeJoin(origin, items, start);
    RedrawDraws(Picture(origin, items[..start]), Picture(origin, items), Layout(items[start..n], origin.width).0 + 1, items[start..n]);
  }

  lemma {:induction false} LastDeleted(origin: Screen, items: seq<Item>, start: nat)
    requires LineStart(origin) && DrawableItems(items) && items != [] && !items[|items| - 1].Newline? && start == StartOfLine(items)
    ensures EmulateAll(Picture(origin, items), Deleted(items, origin.width)) == Picture(origin, Erased(items))
  {
    BeforeBackspace(origin, items, start);
    RedrawDraws(Picture(origin, items[..start]), Picture(origin, items), Layout(items[start..], origin.width).0, Erased(items)[start..]);
    ErasedLine(origin, items, start);
  }

  lemma {:induction false} ErasedLine(origin: Screen, items: seq<Item>, start: nat)
    requires items != [] && start < |items|
    ensures Picture(origin, Erased(items)) == Picture(Picture(origin, items[..start]), Erased(items)[start..])
  {
    assert Erased(items)[..start] == items[..start];
    LineWhole(origin, Erased(items), start);
  }

  lemma {:induction false} SubmissionDraws(origin: Screen, buffer: seq<Item>)
    requires LineStart(origin) && DrawableItems(buffer)
    ensures var s := Picture(origin, buffer);
            var next := Emulate(Emulate(s, CarriageReturn), LineFeed);
            EmulateAll(s, [CarriageReturn, LineFeed]) == next && LineStart(next) && next.cells == s.cells && next.width == s.width
  {
    var s := Picture(origin, buffer);
    PictureConcat(origin, buffer, [Newline]);
    OneItem(s, Newline);
    LinesStart(origin, buffer + [Newline]);
    EmulateConcat(s, [CarriageReturn], [LineFeed]);
    EmulateOne(s, CarriageReturn);
    EmulateOne(Emulate(s, CarriageReturn), LineFeed);
    assert [CarriageReturn] + [LineFeed] == [CarriageReturn, LineFeed];
  }

  lemma {:induction false} TypedDraws(origin: Screen, buffer: seq<Item>, item: Item)
    ensures EmulateAll(Picture(origin, buffer), Shown(item)) == Picture(origin, buffer + [item])
  {
    PictureConcat(origin, buffer, [item]);
    ShowOne(item);
  }

  lemma {:induction false} EditsDrawable(e: EditState, key: Key)
    requires DrawableItems(e.buffer) && Draws(e.paste, key)
    ensures DrawableItems(Edits(e, key).buffer)
  {
  }

  lemma {:induction false} EchoedPicture(origin: Screen, e: EditState, key: Key)
    requires LineStart(origin) && DrawableItems(e.buffer)
    ensures EmulateAll(Picture(origin, e.buffer), EchoOf(e, key, origin.width)) == Picture(OriginAfter(origin, e, key), Edits(e, key).buffer)
  {
    if Typed(e.paste, key).Some? {
      TypedDraws(origin, e.buffer, Typed(e.paste, key).value);
    } else if Submits(e, key) {
      SubmissionDraws(origin, e.buffer);
    } else if key.Erase? && e.buffer != [] {
      DeletedDraws(origin, e.buffer);
    }
  }

  lemma {:induction false} OriginStarts(origin: Screen, e: EditState, key: Key)
    requires LineStart(origin) && DrawableItems(e.buffer)
    ensures LineStart(OriginAfter(origin, e, key)) && OriginAfter(origin, e, key).width == origin.width
  {
    SubmissionDraws(origin, e.buffer);
    SameWidth(origin, e.buffer);
  }

  /** One key: its echo turns the picture of the buffer into the picture of the edited buffer. */
  lemma {:induction false} EchoDraws(origin: Screen, e: EditState, key: Key, screen: Screen)
    requires Drawn(origin, e.buffer, screen) && Draws(e.paste, key)
    ensures Drawn(OriginAfter(origin, e, key), Edits(e, key).buffer, EmulateAll(screen, EchoOf(e, key, screen.width)))
    ensures OriginAfter(origin, e, key).width == origin.width == screen.width
  {
    SameWidth(origin, e.buffer);
    EchoedPicture(origin, e, key);
    OriginStarts(origin, e, key);
    EditsDrawable(e, key);
  }

  /** Any keys: the screen after the whole echo is the picture of the buffer after all of them. */
  lemma {:induction false} EchoDrawsAll(origin: Screen, e: EditState, keys: seq<Key>, screen: Screen)
    requires Drawn(origin, e.buffer, screen) && DrawsAll(e, keys)
    ensures Drawn(OriginAll(origin, e, keys), EditsAll(e, keys).buffer, EmulateAll(screen, EchoAll(e, keys, screen.width)))
    ensures OriginAll(origin, e, keys).width == origin.width == screen.width
  {
    SameWidth(origin, e.buffer);
    if keys != [] {
      var front, last := keys[..|keys| - 1], keys[|keys| - 1];
      KeyStep(e, keys, |keys| - 1, screen.width);
      assert keys[..|keys|] == keys;
      DrawsFront(e, keys);
      EchoDrawsAll(origin, e, front, screen);
      var s := EmulateAll(screen, EchoAll(e, front, screen.width));
      SameWidth(OriginAll(origin, e, front), EditsAll(e, front).buffer);
      EchoDraws(OriginAll(origin, e, front), EditsAll(e, front), last, s);
      EmulateConcat(screen, EchoAll(e, front, screen.width), EchoOf(EditsAll(e, front), last, screen.width));
    }
  }

  lemma {:induction false} DrawsFront(e: EditState, keys: seq<Key>)
    requires keys != [] && DrawsAll(e, keys)
    ensures DrawsAll(e, keys[..|keys| - 1]) && Draws(EditsAll(e, keys[..|keys| - 1]).paste, keys[|keys| - 1])
  {
    var front := keys[..|keys| - 1];
    forall i | 0 <= i < |front| ensures Draws(EditsAll(e, front[..i]).paste, front[i]) {
      assert front[..i] == keys[..i];
      assert Draws(EditsAll(e, keys[..i]).paste, keys[i]);
    }
  }

  // ---------------------------------------------------------------- the editor

  class TtyLineEditor {
    var buffer: seq<Item>
    var pasteMode: bool
    var results: seq<Option<seq<Item>>>
    /** The terminal on the other side of stdout, as it was, as it is, and the stream between. */
    const start: Screen
    var screen: Screen
    var echoed: seq<Output>

    ghost predicate Valid()
      reads this
    {
      screen == EmulateAll(start, echoed)
    }

    constructor (screen: Screen)
      ensures Valid() && Edited() == EditState([], false, []) && start == screen && echoed == []
    {
      buffer, pasteMode, results, echoed := [], false, [], [];
      start := screen;
      this.screen := screen;
    }

    function Edited(): EditState
      reads this
    {
      EditState(buffer, pasteMode, results)
    }

    method Echo(os: seq<Output>)
      requires Valid()
      modifies this`screen, this`echoed
      ensures Valid() && echoed == old(echoed) + os
    {
      assert os[..0] == [];
      for i := 0 to |os|
        invariant screen == EmulateAll(old(screen), os[..i])
        invariant echoed == old(echoed)
      {
        assert os[..i + 1][..i] == os[..i];
        screen := Emulate(screen, os[i]);
      }
      assert os[..|os|] == os;
      EmulateConcat(start, echoed, os);
      echoed := echoed + os;
    }

    method Append(item: Item)
      requires Valid()
      modifies this`buffer, this`screen, this`echoed
      ensures Valid() && buffer == old(buffer) + [item] && echoed == old(echoed) + Shown(item)
    {
      buffer := buffer + [item];
      Echo(Shown(item));
    }

    method Submit()
      requires Valid()
      modifies this`buffer, this`results, this`screen, this`echoed
      ensures Valid() && Edited() == Submitted(old(Edited())) && echoed == old(echoed) + [CarriageReturn, LineFeed]
    {
      results := results + [Some(buffer)];
      buffer := [];
      Echo([CarriageReturn, LineFeed]);
    }

    method RedrawCurrentLine(oldRow: nat, line: seq<Item>)
      requires Valid()
      modifies this`screen, this`echoed
      ensures Valid() && echoed == old(echoed) + Redraw(oldRow, line)
    {
      ghost var up := if oldRow > 0 then [CursorUp(oldRow)] else [];
      RedrawIs(echoed, up, line);
      Echo([CarriageReturn]);
      if oldRow > 0 {
        Echo([CursorUp(oldRow)]);
      }
      Echo([EraseBelow]);
      Echo(Show(line));
    }

    method Backspace()
      requires Valid()
      modifies this`buffer, this`screen, this`echoed
      ensures Valid() && buffer == if old(buffer) == [] then [] else Erased(old(buffer))
      ensures echoed == old(echoed) + if old(buffer) == [] then [] else Deleted(old(buffer), start.width)
    {
      if buffer == [] {
        return;
      }
      if buffer[|buffer| - 1].Newline? {
        DeleteNewline();
        return;
      }
      var lineStart := StartOfLine(buffer);
      var text := TextOf(buffer[lineStart..]);
      TextLength(buffer[lineStart..]);
      LayoutOfText(buffer[lineStart..], start.width);
      WidthKept(start, echoed);
      var _, oldRow, _ := LineLayout(text, screen.width);
      var last := lineStart + |text| - 1;
      if last < |buffer| {
        buffer := buffer[..last] + buffer[last + 1..];
      }
      assert buffer == Erased(old(buffer));
      RedrawCurrentLine(oldRow, buffer[lineStart..]);
    }

    /** The line break goes and the empty line joins the line before it. */
    method DeleteNewline()
      requires Valid() && buffer != [] && buffer[|buffer| - 1].Newline?
      modifies this`buffer, this`screen, this`echoed
      ensures Valid() && buffer == old(buffer)[..|old(buffer)| - 1] && echoed == old(echoed) + Deleted(old(buffer), start.width)
    {
      var newlineIndex := |buffer| - 1;
      var prevStart := StartOfLine(buffer[..newlineIndex]);
      var prevLine := buffer[prevStart..newlineIndex];
      assert prevLine == buffer[..newlineIndex][prevStart..];
      WidthKept(start, echoed);
      LayoutOfText(prevLine, start.width);
      var prevRows, _, _ := LineLayout(TextOf(prevLine), screen.width);
      buffer := buffer[..newlineIndex];
      RedrawCurrentLine(prevRows, prevLine);
    }

    /** One decoded character or escape sequence: the edit and the echo, for every key, and
        whether it raises. */
    method Handle(key: Key) returns (raised: bool)
      requires Valid()
      modifies this`buffer, this`pasteMode, this`results, this`screen, this`echoed
      ensures raised == Raises(old(pasteMode), key)
      ensures Valid() && Edited() == Edits(old(Edited()), key) && echoed == old(echoed) + EchoOf(old(Edited()), key, start.width)
    {
      raised := false;
      match key
      case PasteStart => pasteMode := true;
      case PasteEnd => pasteMode := false;
      case Ignored =>
      case ShiftEnter =>
        if !pasteMode {
          Append(Newline);
        }
      case Char(g, printable) =>
        if pasteMode || printable {
          Append(Text(g));
        }
      case Garbled(gs, printable) =>
        if pasteMode || printable {
          Append(Malformed(gs));
        } else {
          raised := true;
        }
      case LineBreak => Append(Newline);
      case Enter =>
        if pasteMode {
          Append(Newline);
        } else {
          Submit();
        }
      case Erase(g) =>
        if pasteMode {
          Append(Text(g));
        } else {
          Backspace();
        }
      case EndOfInput(g) =>
        if pasteMode {
          Append(Text(g));
        } else if buffer != [] {
          Submit();
        } else {
          results := results + [None];
        }
    }
  }

  /** As many characters as entries, unless an entry has several. */
  lemma {:induction false} TextLength(line: seq<Item>)
    requires OneLine(line)
    ensures |TextOf(line)| >= |line| && (|TextOf(line)| == |line| <==> Plain(line))
  {
    if line != [] {
      TextLength(line[..|line| - 1]);
    }
  }

  lemma {:induction false} Joined(a: seq<Output>, b: seq<Output>, c: seq<Output>)
    ensures (a + b) + c == a + (b + c)
  {
  }

  lemma {:induction false} RedrawIs(out: seq<Output>, up: seq<Output>, line: seq<Item>)
    ensures out + [CarriageReturn] + [EraseBelow] + Show(line) == out + ([CarriageReturn] + [] + [EraseBelow] + Show(line))
    ensures out + [CarriageReturn] + up + [EraseBelow] + Show(line) == out + ([CarriageReturn] + up + [EraseBelow] + Show(line))
  {
  }

  lemma {:induction false} DrawnAfter(start: Screen, before: seq<Output>, e: EditState, keys: seq<Key>)
    ensures var s, echo := EmulateAll(start, before), EchoAll(e, keys, start.width);
            forall origin | Drawn(origin, e.buffer, s) && DrawsAll(e, keys) ::
              Drawn(OriginAll(origin, e, keys), EditsAll(e, keys).buffer, EmulateAll(start, before + echo))
  {
    ScreenStep(start, before, EchoAll(e, keys, start.width));
    DrawnByAll(e, keys, EmulateAll(start, before));
  }

  lemma {:induction false} ScreenStep(s: Screen, before: seq<Output>, more: seq<Output>)
    ensures EmulateAll(s, before + more) == EmulateAll(EmulateAll(s, before), more) && EmulateAll(s, before).width == s.width
  {
    EmulateConcat(s, before, more);
    WidthKept(s, before);
  }

  lemma {:induction false} DrawnByAll(e: EditState, keys: seq<Key>, s: Screen)
    ensures forall origin | Drawn(origin, e.buffer, s) && DrawsAll(e, keys) ::
              Drawn(OriginAll(origin, e, keys), EditsAll(e, keys).buffer, EmulateAll(s, EchoAll(e, keys, s.width)))
  {
    forall origin | Drawn(origin, e.buffer, s) && DrawsAll(e, keys)
      ensures Drawn(OriginAll(origin, e, keys), EditsAll(e, keys).buffer, EmulateAll(s, EchoAll(e, keys, s.width)))
    {
      EchoDrawsAll(origin, e, keys, s);
    }
  }

  lemma {:induction false} KeyStep(e: EditState, keys: seq<Key>, i: nat, width: nat)
    requires i < |keys|
    ensures EditsAll(e, keys[..i + 1]) == Edits(EditsAll(e, keys[..i]), keys[i])
    ensures EchoAll(e, keys[..i + 1], width) == EchoAll(e, keys[..i], width) + EchoOf(EditsAll(e, keys[..i]), keys[i], width)
  {
    assert keys[..i + 1] == keys[..i] + [keys[i]];
    OneMoreKey(Edits, Echoing(width), e, keys[..i], keys[i]);
  }
}
