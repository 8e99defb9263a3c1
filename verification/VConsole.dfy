/**
 * The terminal screen of kernel/vconsole.cpp: an in-place buffer of cells that scrolls,
 * against an unbounded page, and the drawing calls it makes along the way.
 */
module VConsole {

  datatype Cell = Cell(c: char, attr: nat)

  const ATTR := 7
  const BLANK := Cell(' ', ATTR)

  type Row = seq<Cell>

  function BlankRow(cols: nat): (r: Row)
    ensures |r| == cols && forall k :: 0 <= k < cols ==> r[k] == BLANK
  {
    seq(cols, _ => BLANK)
  }

  // -------------------------------------------------------------------------
  // The unbounded page

  /** Rows never leave the page; the cursor may stand one past the end of its row. */
  datatype Page = Page(lines: seq<Row>, x: nat, y: nat)

  predicate Formed(p: Page, cols: nat, rows: nat) {
    && 1 <= rows <= |p.lines| && 1 <= cols && p.x <= cols
    && |p.lines| - rows <= p.y < |p.lines|
    && forall r :: r in p.lines ==> |r| == cols
  }

  function Blank(cols: nat, rows: nat): Page { Page(seq(rows, _ => BlankRow(cols)), 0, 0) }

  /** Down one row, adding one at the bottom of the page. */
  function Down(p: Page, cols: nat): Page {
    p.(y := p.y + 1, lines := if p.y + 1 < |p.lines| then p.lines else p.lines + [BlankRow(cols)])
  }

  function Set(p: Page, x: nat, cell: Cell): Page
    requires p.y < |p.lines| && x < |p.lines[p.y]|
  {
    p.(lines := p.lines[p.y := p.lines[p.y][x := cell]])
  }

  function Fill(p: Page, c: char): Page
    requires p.y < |p.lines| && p.x < |p.lines[p.y]|
  {
    Set(p, p.x, Cell(c, ATTR)).(x := p.x + 1)
  }

  predicate Printable(c: char) { 31 as char < c < 127 as char }

  /** One typed character, outside escape sequences. */
  function Type(p: Page, cols: nat, rows: nat, c: char): Page
    requires Formed(p, cols, rows)
  {
    if Printable(c) then
      var q := if p.x >= cols then Down(p, cols).(x := 0) else p;
      Fill(q, c)
    else if c == '\n' then Down(p, cols).(x := 0)
    else if c == '\r' then p.(x := 0)
    else if c == 127 as char && p.x > 0 then Set(p, p.x - 1, BLANK).(x := p.x - 1)
    else if c == 8 as char && p.x > 0 then p.(x := p.x - 1)
    else if c == '\t' then
      var x := p.x + 8 - p.x % 8;
      if x > cols then Down(p, cols).(x := x - cols) else p.(x := x)
    else p
  }

  lemma TypeFormed(p: Page, cols: nat, rows: nat, c: char)
    requires Formed(p, cols, rows) && (c == '\t' ==> cols >= 8)
    ensures Formed(Type(p, cols, rows, c), cols, rows)
    ensures var q := Type(p, cols, rows, c);
            |p.lines| <= |q.lines| && forall i :: 0 <= i < |p.lines| - rows ==> q.lines[i] == p.lines[i]
  {
  }

  /** A character lands in the cell at the cursor, or in the first of the next row, in grey on
      black, and changes no other. */
  lemma PrintsAt(p: Page, cols: nat, rows: nat, c: char)
    requires Formed(p, cols, rows) && 32 as char <= c <= 126 as char
    ensures var q := Type(p, cols, rows, c);
            var y, x := if p.x < cols then p.y else p.y + 1, if p.x < cols then p.x else 0;
            && q.y == y < |q.lines| && q.x == x + 1 && x < |q.lines[y]| && q.lines[y][x] == Cell(c, 0x07)
            && forall i, k :: 0 <= i < |p.lines| && 0 <= k < cols && !(i == y && k == x) ==>
                 q.lines[i][k] == p.lines[i][k]
  {
  }

  /** Return, newline, backspace and delete. */
  lemma ControlKeys(p: Page, cols: nat, rows: nat)
    requires Formed(p, cols, rows)
    ensures Type(p, cols, rows, 13 as char) == p.(x := 0)
    ensures var q := Type(p, cols, rows, 10 as char); q.x == 0 && q.y == p.y + 1 && p.lines <= q.lines
    ensures Type(p, cols, rows, 8 as char) == p.(x := if p.x == 0 then 0 else p.x - 1)
    ensures p.x == 0 ==> Type(p, cols, rows, 127 as char) == p
    ensures p.x > 0 ==>
              var row := p.lines[p.y][p.x - 1 := Cell(' ', 0x07)];
              Type(p, cols, rows, 127 as char) == Page(p.lines[p.y := row], p.x - 1, p.y)
  {
  }

  /** A tab goes to the next multiple of eight, counted on into the next row. */
  lemma TabStops(p: Page, cols: nat, rows: nat)
    requires Formed(p, cols, rows)
    ensures exists stop :: p.x < stop <= p.x + 8 && stop % 8 == 0 &&
              var q := Type(p, cols, rows, 9 as char);
              && p.lines <= q.lines
              && if stop <= cols then q.y == p.y && q.x == stop else q.y == p.y + 1 && q.x == stop - cols
  {
    var stop := (p.x / 8 + 1) * 8;
    assert p.x < stop <= p.x + 8 && stop % 8 == 0;
  }

  /** Deleting what was just typed over a blank gives the page back. */
  lemma DeleteUndoes(p: Page, cols: nat, rows: nat, c: char)
    requires Formed(p, cols, rows) && Printable(c) && p.x < cols && p.lines[p.y][p.x] == BLANK
    ensures Formed(Type(p, cols, rows, c), cols, rows)
    ensures Type(Type(p, cols, rows, c), cols, rows, 127 as char) == p
  {
    var q := Type(p, cols, rows, c);
    TypeFormed(p, cols, rows, c);
    assert q.lines[p.y][p.x := BLANK] == p.lines[p.y];
    assert q.lines[p.y := p.lines[p.y]] == p.lines;
  }

  // -------------------------------------------------------------------------
  // Rows end to end

  function Flat(ls: seq<Row>): Row {
    if ls == [] then [] else ls[0] + Flat(ls[1..])
  }

  lemma {:induction false} FlatAdd(ls: seq<Row>, r: Row)
    ensures Flat(ls + [r]) == Flat(ls) + r
  {
    if ls == [] {
      assert [r][1..] == [];
    } else {
      assert (ls + [r])[1..] == ls[1..] + [r];
      FlatAdd(ls[1..], r);
    }
  }

  lemma {:induction false} FlatSet(ls: seq<Row>, cols: nat, x: nat, y: nat, cell: Cell)
    requires (forall r :: r in ls ==> |r| == cols) && x < cols && y < |ls|
    ensures 0 <= y * cols + x < |Flat(ls)|
    ensures Flat(ls[y := ls[y][x := cell]]) == Flat(ls)[y * cols + x := cell]
  {
    var ls' := ls[y := ls[y][x := cell]];
    if y == 0 {
      assert ls'[1..] == ls[1..];
    } else {
      assert ls'[1..] == ls[1..][y - 1 := ls[1..][y - 1][x := cell]];
      FlatSet(ls[1..], cols, x, y - 1, cell);
      assert y * cols + x == cols + ((y - 1) * cols + x);
    }
  }

  // -------------------------------------------------------------------------
  // Drawing calls

  datatype Scribe = Scribe(x: nat, y: nat, cell: Cell)

  /** What a display shows after the calls, from a blank screen. */
  function Replay(log: seq<Scribe>, cols: nat, rows: nat): (s: Row)
    ensures |s| == cols * rows
  {
    if log == [] then BlankRow(cols * rows)
    else
      var s, e := Replay(log[..|log| - 1], cols, rows), log[|log| - 1];
      if e.y * cols + e.x < |s| then s[e.y * cols + e.x := e.cell] else s
  }

  /** Where a row starts. */
  function Offset(y: nat, cols: nat): nat { y * cols }

  lemma OffsetNext(y: nat, cols: nat)
    ensures Offset(y + 1, cols) == Offset(y, cols) + cols
  {
  }

  lemma Position(p: nat, cols: nat)
    requires cols > 0
    ensures p / cols * cols + p % cols == p
  {
  }

  /** The first cells replaced by those one row further down. */
  function Shifted(was: Row, cols: nat, i: nat): (r: Row)
    requires i + cols <= |was|
    ensures |r| == |was|
  {
    was[cols..cols + i] + was[i..]
  }

  lemma ShiftedNone(was: Row, cols: nat)
    requires cols <= |was|
    ensures Shifted(was, cols, 0) == was
  {
  }

  lemma ShiftedNext(was: Row, cols: nat, i: nat)
    requires i + cols < |was|
    ensures Shifted(was, cols, i)[i + cols] == was[i + cols]
    ensures Shifted(was, cols, i)[i := was[i + cols]] == Shifted(was, cols, i + 1)
  {
  }

  /** The cursor stands behind the last cell of the page. */
  predicate AtEnd(p: Page, cols: nat) { p.x == cols && p.y == |p.lines| - 1 }

  lemma Corner(x: nat, y: nat, cols: nat, rows: nat)
    requires y < rows && x <= cols && 1 <= cols
    ensures Offset(y, cols) + x <= cols * rows
    ensures Offset(y, cols) + x == cols * rows <==> y == rows - 1 && x == cols
  {
    if y < rows - 1 {
      Below(y + 1, rows - 1, cols);
      assert (y + 1) * cols == y * cols + cols && rows * cols == (rows - 1) * cols + cols;
    }
  }

  lemma Below(a: nat, b: nat, cols: nat)
    requires a <= b
    ensures a * cols <= b * cols
  {
  }

  lemma FlatPut(ls: seq<Row>, cols: nat, x: nat, y: nat, cell: Cell)
    requires (forall r :: r in ls ==> |r| == cols) && x < cols && y < |ls|
    ensures Offset(y, cols) + x < |Flat(ls)|
    ensures Flat(ls[y := ls[y][x := cell]]) == Flat(ls)[Offset(y, cols) + x := cell]
  {
    FlatSet(ls, cols, x, y, cell);
  }

  class Console {
    const cols: nat
    const rows: nat
    const buf: array<Cell>
    var x: nat
    var y: nat
    var pos: nat
    var log: seq<Scribe>

    /** A display that followed the drawing calls shows the buffer. */
    ghost predicate Sized()
      reads this`log, buf
    {
      1 <= cols && 1 <= rows && buf.Length == cols * rows && Replay(log, cols, rows) == buf[..]
    }

    /** The buffer is the last rows of the page. */
    ghost predicate Drawn(lines: seq<Row>)
      reads this`log, buf
    {
      && Sized() && rows <= |lines| && (forall r :: r in lines ==> |r| == cols)
      && buf[..] == Flat(lines[|lines| - rows..])
    }

    /** The cursor is the page's cursor. */
    ghost predicate Cursor(p: Page)
      reads this`x, this`y, this`pos
    {
      Formed(p, cols, rows) && x == p.x && y == p.y - (|p.lines| - rows) && pos == Offset(y, cols) + x
    }

    ghost predicate Shows(p: Page)
      reads this, buf
    {
      Drawn(p.lines) && Cursor(p)
    }

    constructor (cols: nat, rows: nat)
      requires 1 <= cols && 1 <= rows
      ensures this.cols == cols && this.rows == rows && fresh(buf) && log == []
      ensures Shows(Blank(cols, rows))
    {
      hide Flat, Offset, Replay, Formed, Blank;
      this.cols, this.rows := cols, rows;
      x, y, pos, log := 0, 0, 0, [];
      buf := new Cell[cols * rows](_ => BLANK);
      new;
      BlankShown(cols, rows);
      assert buf[..] == BlankRow(cols * rows);
    }

    /** Draws only what changes, unless forced. */
    method Write(p: nat, cell: Cell, force: bool)
      requires Sized()
      modifies this`log, buf
      ensures Sized()
      ensures buf[..] == if p < buf.Length then old(buf[..])[p := cell] else old(buf[..])
      ensures log == old(log) || (p < buf.Length && log == old(log) + [Scribe(p % cols, p / cols, cell)])
      ensures log == old(log) <==> p >= buf.Length || (!force && old(buf[..])[p] == cell)
    {
      if p >= cols * rows { return; }
      if force || buf[p] != cell {
        Position(p, cols);
        buf[p] := cell;
        log := log + [Scribe(p % cols, p / cols, cell)];
      }
    }

    /** Redraws a cell. `outside` tells that there is no such cell: the source reads it all the
        same, and then draws nothing. */
    method Update(p: nat, ghost lines: seq<Row>) returns (outside: bool)
      requires Drawn(lines)
      modifies this`log, buf
      ensures Drawn(lines) && buf[..] == old(buf[..])
      ensures outside <==> p >= buf.Length
    {
      outside := p >= buf.Length;
      if !outside { Write(p, buf[p], true); }
    }

    /** The cursor's position is a cell of the buffer unless it stands behind the last one. */
    lemma PastEnd(p: Page)
      requires Shows(p)
      ensures pos <= buf.Length
      ensures pos == buf.Length <==> y == rows - 1 && x == cols
      ensures pos == buf.Length <==> AtEnd(p, cols)
    {
      hide Drawn;
      DrawnSize(p.lines);
      Corner(x, y, cols, rows);
    }

    lemma DrawnSize(lines: seq<Row>)
      requires Drawn(lines)
      ensures buf.Length == cols * rows
    {
    }

    /** Moves the screen up by one row, leaving the last row as it was. */
    method Shift(n: nat)
      requires Sized() && n + cols == buf.Length
      modifies this`log, buf
      ensures Sized() && buf[..] == Shifted(old(buf[..]), cols, n)
    {
      hide Sized, Shifted;
      ghost var was := buf[..];
      var i := 0;
      ShiftedNone(was, cols);
      while i < n
        invariant 0 <= i <= n && Sized()
        invariant buf[..] == Shifted(was, cols, i)
      {
        ShiftedNext(was, cols, i);
        assert buf[i + cols] == buf[..][i + cols];
        Write(i, buf[i + cols], false);
        i := i + 1;
      }
    }

    method ClearLast(n: nat)
      requires Sized() && n + cols == buf.Length
      modifies this`log, buf
      ensures Sized()
      ensures forall k :: 0 <= k < n ==> buf[k] == old(buf[..])[k]
      ensures forall k :: n <= k < buf.Length ==> buf[k] == BLANK
    {
      hide Sized;
      var i := n;
      while i < n + cols
        invariant n <= i <= n + cols && Sized()
        invariant forall k :: 0 <= k < n ==> buf[k] == old(buf[..])[k]
        invariant forall k :: n <= k < i ==> buf[k] == BLANK
      {
        ghost var was := buf[..];
        Write(i, BLANK, false);
        assert forall k :: 0 <= k < buf.Length ==> buf[k] == buf[..][k] && (k != i ==> buf[k] == was[k]);
        i := i + 1;
      }
    }

    method ScrollUp(ghost lines: seq<Row>)
      requires Drawn(lines)
      modifies this`log, buf
      ensures Drawn(lines + [BlankRow(cols)])
    {
      hide Replay, Flat;
      var n := cols * (rows - 1);
      assert cols * rows == n + cols;
      ghost var was, view := buf[..], lines[|lines| - rows..];
      Shift(n);
      ghost var mid := buf[..];
      ClearLast(n);
      forall k | 0 <= k < buf.Length ensures buf[..][k] == (was[cols..] + BlankRow(cols))[k] {
        if k < n { assert buf[k] == mid[k] == was[k + cols]; }
      }
      assert view[0] in lines;
      FlatTail(view, cols);
      FlatAdd(view[1..], BlankRow(cols));
      ghost var lines' := lines + [BlankRow(cols)];
      assert lines'[|lines'| - rows..] == view[1..] + [BlankRow(cols)];
    }

    method LineFeed(ghost p: Page)
      requires Shows(p)
      modifies this`y, this`pos, this`log, buf
      ensures Shows(Down(p, cols))
    {
      hide Drawn, Offset;
      if y + 1 < rows {
        OffsetNext(y, cols);
        y, pos := y + 1, pos + cols;
        return;
      }
      ScrollUp(p.lines);
    }

    /** One character. The redrawing at the end reads outside the buffer exactly when the cursor
        moved to or from the place behind the last cell. */
    method Feed(c: char, ghost p: Page) returns (outside: bool)
      requires Shows(p) && (c == '\t' ==> cols >= 8) && c != 27 as char
      modifies this, buf
      ensures Shows(Type(p, cols, rows, c))
      ensures outside <==> pos != old(pos) && (AtEnd(p, cols) || AtEnd(Type(p, cols, rows, c), cols))
    {
      hide Drawn, Offset, AtEnd;
      outside := false;
      PastEnd(p);
      var oldPos := pos;
      ghost var q := Type(p, cols, rows, c);
      if Printable(c) {
        Print(c, p);
      } else if c == '\n' {
        LineFeed(p);
        CarriageReturn();
      } else if c == '\r' {
        CarriageReturn();
      } else if c == 127 as char {
        Delete(p);
      } else if c == 8 as char {
        if x > 0 { x, pos := x - 1, pos - 1; }
      } else if c == '\t' {
        Tab(p);
      }
      if oldPos != pos {
        PastEnd(q);
        var a := Update(oldPos, q.lines);
        var b := Update(pos, q.lines);
        outside := a || b;
      }
    }

    method Print(c: char, ghost p: Page)
      requires Shows(p) && Printable(c)
      modifies this, buf
      ensures Shows(Type(p, cols, rows, c))
    {
      hide Drawn, Offset;
      ghost var q := p;
      if x >= cols {
        CarriageReturn();
        q := p.(x := 0);
        LineFeed(q);
        q := Down(q, cols);
      }
      Put(x, Cell(c, ATTR), q);
      x, pos := x + 1, pos + 1;
    }

    /** A cell of the cursor's row. */
    method Put(at: nat, cell: Cell, ghost p: Page)
      requires Shows(p) && at < cols
      modifies this`log, buf
      ensures Shows(Set(p, at, cell))
    {
      hide Sized, Flat, Offset;
      ghost var top := |p.lines| - rows;
      FlatPut(p.lines[top..], cols, at, y, cell);
      assert Set(p, at, cell).lines[top..] == p.lines[top..][y := p.lines[top..][y][at := cell]];
      Write(Offset(y, cols) + at, cell, false);
    }

    method Delete(ghost p: Page)
      requires Shows(p)
      modifies this, buf
      ensures Shows(Type(p, cols, rows, 127 as char))
    {
      hide Drawn, Offset;
      if x > 0 {
        Put(x - 1, BLANK, p);
        x, pos := x - 1, pos - 1;
      }
    }

    method Tab(ghost p: Page)
      requires Shows(p) && cols >= 8
      modifies this, buf
      ensures Shows(Type(p, cols, rows, '\t'))
    {
      hide Drawn, Offset;
      var c := 8 - x % 8;
      x, pos := x + c, pos + c;
      if x > cols {
        x, pos := x - cols, pos - cols;
        LineFeed(p.(x := x));
      }
    }

    method CarriageReturn()
      modifies this`x, this`pos
      requires x <= pos
      ensures x == 0 && pos == old(pos) - old(x)
    {
      pos := pos - x;
      x := 0;
    }
  }

  lemma {:induction false} BlankFlat(cols: nat, rows: nat)
    ensures Flat(Blank(cols, rows).lines) == BlankRow(cols * rows)
  {
    var ls := Blank(cols, rows).lines;
    if rows == 0 {
      assert cols * rows == 0;
    } else {
      assert ls[1..] == Blank(cols, rows - 1).lines;
      BlankFlat(cols, rows - 1);
      assert cols * rows == cols + cols * (rows - 1);
      assert Flat(ls) == BlankRow(cols) + BlankRow(cols * (rows - 1));
    }
  }

  lemma BlankShown(cols: nat, rows: nat)
    requires 1 <= cols && 1 <= rows
    ensures var p := Blank(cols, rows);
            && Formed(p, cols, rows) && |p.lines| == rows && p.x == p.y == Offset(0, cols) == 0
            && (forall r :: r in p.lines ==> |r| == cols)
            && Flat(p.lines[0..]) == BlankRow(cols * rows) == Replay([], cols, rows)
  {
    hide Flat;
    BlankFlat(cols, rows);
    assert Blank(cols, rows).lines[0..] == Blank(cols, rows).lines;
  }

  lemma FlatTail(ls: seq<Row>, cols: nat)
    requires ls != [] && |ls[0]| == cols
    ensures cols <= |Flat(ls)| && Flat(ls)[cols..] == Flat(ls[1..])
  {
  }

  // -------------------------------------------------------------------------
  // What the page of a text looks like

  /** The lines of a text. */
  function Split(text: string): (ls: seq<string>)
    ensures ls != []
  {
    if text == "" then [""]
    else
      var n, ls := |text| - 1, Split(text[..|text| - 1]);
      if text[n] == '\n' then ls + [""] else ls[..|ls| - 1] + [ls[|ls| - 1] + [text[n]]]
  }

  /** One line cut into rows: all but the last are full, and none is empty unless the line is. */
  function Rows(line: string, cols: nat): (rs: seq<string>)
    requires cols >= 1
    ensures rs != [] && forall r :: r in rs ==> |r| <= cols
  {
    if |line| <= cols then [line] else [line[..cols]] + Rows(line[cols..], cols)
  }

  function Wrapped(lines: seq<string>, cols: nat): (rs: seq<string>)
    requires cols >= 1
    ensures (lines != [] ==> rs != []) && forall r :: r in rs ==> |r| <= cols
  {
    if lines == [] then [] else Wrapped(lines[..|lines| - 1], cols) + Rows(lines[|lines| - 1], cols)
  }

  /** The rows of a text: every line cut by itself. */
  function Layout(text: string, cols: nat): (rs: seq<string>)
    requires cols >= 1
    ensures rs != [] && forall r :: r in rs ==> |r| <= cols
  {
    Wrapped(Split(text), cols)
  }

  function Extend(rs: seq<string>, c: char): seq<string>
    requires rs != []
  {
    rs[..|rs| - 1] + [rs[|rs| - 1] + [c]]
  }

  /** Typing a character onto rows: a new row when the last one is full. */
  function Onto(rs: seq<string>, c: char, cols: nat): seq<string>
    requires rs != []
  {
    if |rs[|rs| - 1]| < cols then Extend(rs, c) else rs + [[c]]
  }

  lemma OntoOne(r: string, c: char, cols: nat)
    ensures Onto([r], c, cols) == if |r| < cols then [r + [c]] else [r, [c]]
  {
  }

  lemma CutOnto(line: string, c: char, k: nat)
    requires k <= |line|
    ensures (line + [c])[..k] == line[..k] && (line + [c])[k..] == line[k..] + [c]
    ensures k == |line| ==> line[..k] == line && line[k..] + [c] == [c]
  {
  }

  lemma {:induction false} RowsOnto(line: string, c: char, cols: nat)
    requires cols >= 1
    ensures Rows(line + [c], cols) == Onto(Rows(line, cols), c, cols)
    decreases |line|
  {
    hide Onto;
    if |line| > cols {
      CutOnto(line, c, cols);
      RowsOnto(line[cols..], c, cols);
      OntoAfter([line[..cols]], Rows(line[cols..], cols), c, cols);
    } else {
      OntoOne(line, c, cols);
      CutOnto(line, c, |line|);
    }
  }

  lemma OntoAfter(before: seq<string>, last: seq<string>, c: char, cols: nat)
    requires last != []
    ensures Onto(before + last, c, cols) == before + Onto(last, c, cols)
  {
    assert (before + last)[..|before + last| - 1] == before + last[..|last| - 1];
  }

  lemma SplitOnto(text: string, c: char)
    requires c != '\n'
    ensures var ls, n := Split(text), |Split(text)| - 1;
            var ls' := Split(text + [c]);
            |ls'| == n + 1 && ls'[..n] == ls[..n] && ls'[n] == ls[n] + [c]
  {
    assert (text + [c])[..|text|] == text;
  }

  lemma LayoutOnto(text: string, c: char, cols: nat)
    requires cols >= 1 && c != '\n'
    ensures Layout(text + [c], cols) == Onto(Layout(text, cols), c, cols)
  {
    hide Split, Rows, Onto;
    var ls := Split(text);
    var n := |ls| - 1;
    SplitOnto(text, c);
    RowsOnto(ls[n], c, cols);
    OntoAfter(Wrapped(ls[..n], cols), Rows(ls[n], cols), c, cols);
  }

  lemma LayoutNothing(cols: nat)
    requires cols >= 1
    ensures Layout("", cols) == [""]
  {
    var ls := Split("");
    assert ls == [""] && ls[..0] == [] && Wrapped(ls, cols) == Wrapped([], cols) + Rows("", cols);
  }

  lemma LayoutNewline(text: string, cols: nat)
    requires cols >= 1
    ensures Layout(text + ['\n'], cols) == Layout(text, cols) + [""]
  {
    var ls := Split(text);
    assert (text + ['\n'])[..|text|] == text;
    assert (ls + [""])[..|ls|] == ls;
  }

  function Padded(r: string, cols: nat): (row: Row)
    requires |r| <= cols
    ensures |row| == cols
  {
    seq(cols, k requires 0 <= k < cols => if k < |r| then Cell(r[k], ATTR) else BLANK)
  }

  /** The page holds the rows, then blank ones, with the cursor behind the last character. */
  ghost predicate Holds(p: Page, rs: seq<string>, cols: nat, rows: nat)
    requires forall r :: r in rs ==> |r| <= cols
  {
    && rs != [] && p.y == |rs| - 1 && p.x == |rs[p.y]|
    && |p.lines| == (if |rs| < rows then rows else |rs|)
    && (forall i :: 0 <= i < |rs| ==> p.lines[i] == Padded(rs[i], cols))
    && (forall i :: |rs| <= i < |p.lines| ==> p.lines[i] == BlankRow(cols))
  }

  lemma BlankHolds(cols: nat, rows: nat)
    requires 1 <= rows
    ensures Holds(Blank(cols, rows), [""], cols, rows)
  {
    assert Padded("", cols) == BlankRow(cols);
  }

  lemma HoldsNewline(p: Page, rs: seq<string>, cols: nat, rows: nat)
    requires (forall r :: r in rs ==> |r| <= cols) && Formed(p, cols, rows) && Holds(p, rs, cols, rows)
    ensures Holds(Down(p, cols).(x := 0), rs + [""], cols, rows)
    ensures Holds(Type(p, cols, rows, '\n'), rs + [""], cols, rows)
  {
    assert Padded("", cols) == BlankRow(cols);
  }

  lemma HoldsFill(p: Page, rs: seq<string>, c: char, cols: nat, rows: nat)
    requires (forall r :: r in rs ==> |r| <= cols) && Formed(p, cols, rows) && Holds(p, rs, cols, rows)
    requires p.x < cols
    ensures (forall r :: r in Extend(rs, c) ==> |r| <= cols) && Holds(Fill(p, c), Extend(rs, c), cols, rows)
  {
    assert Padded(rs[p.y] + [c], cols) == Padded(rs[p.y], cols)[|rs[p.y]| := Cell(c, ATTR)];
  }

  lemma NewRow(rs: seq<string>, c: char)
    ensures Extend(rs + [""], c) == rs + [[c]]
  {
    assert "" + [c] == [c];
  }

  lemma HoldsCursor(p: Page, rs: seq<string>, cols: nat, rows: nat)
    requires (forall r :: r in rs ==> |r| <= cols) && Holds(p, rs, cols, rows)
    ensures rs != [] && p.y == |rs| - 1 && p.x == |rs[p.y]| && p.y < |p.lines|
  {
  }

  lemma HoldsOnto(p: Page, rs: seq<string>, c: char, cols: nat, rows: nat)
    requires (forall r :: r in rs ==> |r| <= cols) && Formed(p, cols, rows) && Holds(p, rs, cols, rows)
    requires Printable(c)
    ensures forall r :: r in Onto(rs, c, cols) ==> |r| <= cols
    ensures Holds(Type(p, cols, rows, c), Onto(rs, c, cols), cols, rows)
  {
    hide Holds, Down, Fill, Extend;
    HoldsCursor(p, rs, cols, rows);
    if p.x < cols {
      HoldsFill(p, rs, c, cols, rows);
    } else {
      var q := Down(p, cols).(x := 0);
      DownFormed(p, cols, rows);
      HoldsNewline(p, rs, cols, rows);
      HoldsCursor(q, rs + [""], cols, rows);
      HoldsFill(q, rs + [""], c, cols, rows);
      NewRow(rs, c);
    }
  }

  lemma DownFormed(p: Page, cols: nat, rows: nat)
    requires Formed(p, cols, rows)
    ensures Formed(Down(p, cols).(x := 0), cols, rows)
  {
  }

  predicate Text(text: string) { forall c :: c in text ==> Printable(c) || c == '\n' }

  /** The page after typing a whole text on a blank screen. */
  function Typed(text: string, cols: nat, rows: nat): (p: Page)
    requires 1 <= cols && 1 <= rows && (cols >= 8 || '\t' !in text)
    ensures Formed(p, cols, rows)
  {
    if text == "" then Blank(cols, rows)
    else
      var p, c := Typed(text[..|text| - 1], cols, rows), text[|text| - 1];
      TypeFormed(p, cols, rows, c);
      Type(p, cols, rows, c)
  }

  /** Printable text and newlines leave exactly the wrapped lines of the text on the page. */
  lemma {:induction false} PageIsLayout(text: string, cols: nat, rows: nat)
    requires 1 <= cols && 1 <= rows && Text(text)
    ensures Holds(Typed(text, cols, rows), Layout(text, cols), cols, rows)
  {
    hide Layout, Onto, Type, Holds;
    if text == "" {
      LayoutNothing(cols);
      BlankHolds(cols, rows);
    } else {
      var init, c := text[..|text| - 1], text[|text| - 1];
      assert text == init + [c];
      assert c in text && forall d :: d in init ==> d in text;
      PageIsLayout(init, cols, rows);
      var p, rs := Typed(init, cols, rows), Layout(init, cols);
      if c == '\n' {
        LayoutNewline(init, cols);
        HoldsNewline(p, rs, cols, rows);
      } else {
        LayoutOnto(init, c, cols);
        HoldsOnto(p, rs, c, cols, rows);
      }
    }
  }

  lemma {:induction false} FullRows(line: string, cols: nat, rows: nat)
    requires 1 <= cols && 1 <= rows && |line| == cols * rows
    ensures |Rows(line, cols)| == rows && |Rows(line, cols)[rows - 1]| == cols
    decreases rows
  {
    assert cols * rows == cols + cols * (rows - 1);
    if rows > 1 {
      assert cols * (rows - 1) >= 1;
      FullRows(line[cols..], cols, rows - 1);
    } else {
      assert cols * (rows - 1) == 0;
    }
  }

  lemma {:induction false} OneLine(text: string)
    requires '\n' !in text
    ensures Split(text) == [text]
  {
    if text != "" {
      var n := |text| - 1;
      OneLine(text[..n]);
      assert text[n] in text && text[..n] + [text[n]] == text;
    }
  }

  lemma OneLineLayout(text: string, cols: nat)
    requires 1 <= cols && '\n' !in text
    ensures Layout(text, cols) == Rows(text, cols)
  {
    hide Rows;
    OneLine(text);
    assert [text][..0] == [];
    assert Wrapped([text], cols) == Wrapped([], cols) + Rows(text, cols);
  }

  lemma HoldsEnd(p: Page, rs: seq<string>, cols: nat, rows: nat)
    requires (forall r :: r in rs ==> |r| <= cols) && Holds(p, rs, cols, rows)
    requires |rs| == rows && |rs[rows - 1]| == cols
    ensures AtEnd(p, cols)
  {
  }

  /** On every screen a text of printable characters, as many as there are cells, ends there. */
  lemma FilledAtEnd(text: string, cols: nat, rows: nat)
    requires 1 <= cols && 1 <= rows && |text| == cols * rows && Text(text) && '\n' !in text
    ensures AtEnd(Typed(text, cols, rows), cols)
  {
    hide Typed, Rows, Holds, Layout, AtEnd;
    PageIsLayout(text, cols, rows);
    OneLineLayout(text, cols);
    FullRows(text, cols, rows);
    HoldsEnd(Typed(text, cols, rows), Layout(text, cols), cols, rows);
  }

  lemma TypedNothing(cols: nat, rows: nat)
    requires 1 <= cols && 1 <= rows
    ensures Typed("", cols, rows) == Blank(cols, rows)
  {
  }

  lemma TypedNext(text: string, i: nat, cols: nat, rows: nat)
    requires 1 <= cols && 1 <= rows && (cols >= 8 || '\t' !in text) && i < |text|
    ensures text[i] in text && Formed(Typed(text[..i], cols, rows), cols, rows)
    ensures Typed(text[..i + 1], cols, rows) == Type(Typed(text[..i], cols, rows), cols, rows, text[i])
  {
    assert text[..i + 1][..i] == text[..i];
  }

  /** A blank screen fed a text: the buffer is the last rows of the text's page, and a display
      that followed the drawing calls shows the same. */
  method Run(cols: nat, rows: nat, text: string) returns (v: Console)
    requires 1 <= cols && 1 <= rows && (cols >= 8 || '\t' !in text) && 27 as char !in text
    ensures fresh(v) && fresh(v.buf) && v.cols == cols && v.rows == rows
    ensures v.Shows(Typed(text, cols, rows))
  {
    hide Type, Typed, Console.Drawn;
    v := new Console(cols, rows);
    var i := 0;
    TypedNothing(cols, rows);
    assert text[..0] == "";
    while i < |text|
      invariant 0 <= i <= |text| && fresh(v) && fresh(v.buf) && v.cols == cols && v.rows == rows
      invariant v.Shows(Typed(text[..i], cols, rows))
    {
      TypedNext(text, i, cols, rows);
      var outside := v.Feed(text[i], Typed(text[..i], cols, rows));
      i := i + 1;
    }
    assert text[..i] == text;
  }
}
