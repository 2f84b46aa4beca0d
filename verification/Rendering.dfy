/** The text of a grid and of the list of events, and the ways it is produced: Part 1 collects it in
    a buffer that is flushed when nearly full, Part 2's client prints it piece by piece. */
module Rendering {
  import opened Seating
  import opened Decimal

  const BUFSIZ := 8192
  const BUFFER_FLUSH_THOLD := 20

  ghost predicate Printable(data: seq<nat>) {
    forall k :: 0 <= k < |data| ==> data[k] < UINT_RANGE
  }

  lemma CellInGrid(rows: nat, cols: nat, i: nat, j: nat)
    requires i < rows && j < cols
    ensures i * cols + j < rows * cols
  {
    IndexInRange(rows, cols, Seat(i + 1, j + 1));
  }

  /** Cell `j` of row `i`, counted from 0, with the space after it unless it ends the row. */
  function CellText(cols: nat, v: nat, j: nat): string {
    Digits(v) + if j + 1 < cols then " " else ""
  }

  /** The first `j` cells of row `i`. */
  function CellsText(rows: nat, cols: nat, data: seq<nat>, i: nat, j: nat): string
    requires |data| == rows * cols && i < rows && j <= cols
  {
    if j == 0 then ""
    else
      CellInGrid(rows, cols, i, j - 1);
      CellsText(rows, cols, data, i, j - 1) + CellText(cols, data[i * cols + (j - 1)], j - 1)
  }

  /** The first `i` rows, each ended by a newline: the text of the grid, for `i == rows`. */
  function RowsText(rows: nat, cols: nat, data: seq<nat>, i: nat): string
    requires |data| == rows * cols && i <= rows
  {
    if i == 0 then "" else RowsText(rows, cols, data, i - 1) + CellsText(rows, cols, data, i - 1, cols) + "\n"
  }

  function LineText(id: nat): string { "Event: " + Digits(id) + "\n" }

  function LinesText(ids: seq<nat>): string {
    if ids == [] then "" else LinesText(ids[..|ids| - 1]) + LineText(ids[|ids| - 1])
  }

  function ListText(ids: seq<nat>): string {
    if ids == [] then "No events\n" else LinesText(ids)
  }

  lemma Appended(a: string, b: string, c: string)
    ensures a + (b + c) == (a + b) + c
  {
  }

  // ----- How full the buffer is -----

  /** What is left in the buffer of `n` bytes after the test that may flush it. */
  function AfterFlush(n: nat): nat {
    if BUFSIZ - n <= BUFFER_FLUSH_THOLD then 0 else n
  }

  /** Bytes in the buffer when SHOW has reached cell `j` of row `i`. */
  function Pending(rows: nat, cols: nat, data: seq<nat>, i: nat, j: nat): nat
    requires |data| == rows * cols && i <= rows && j <= cols && (j > 0 ==> i < rows)
    decreases i, j
  {
    if j > 0 then
      CellInGrid(rows, cols, i, j - 1);
      AfterFlush(Pending(rows, cols, data, i, j - 1) + |CellText(cols, data[i * cols + (j - 1)], j - 1)|)
    else if i > 0 then Pending(rows, cols, data, i - 1, cols) + 1
    else 0
  }

  /** At cell `j` of row `i` the digits with their closing NUL, and the space, find room. */
  ghost predicate CellFits(rows: nat, cols: nat, data: seq<nat>, i: nat, j: nat)
    requires |data| == rows * cols && i < rows && j < cols
  {
    CellInGrid(rows, cols, i, j);
    Pending(rows, cols, data, i, j) + |Digits(data[i * cols + j])| + 1 <= BUFSIZ
  }

  /** No write of SHOW falls outside the buffer and no number is cut off. */
  ghost predicate ShowFits(rows: nat, cols: nat, data: seq<nat>)
    requires |data| == rows * cols
  {
    && (forall i, j :: 0 <= i < rows && 0 <= j < cols ==> CellFits(rows, cols, data, i, j))
    && forall i :: 0 <= i < rows ==> Pending(rows, cols, data, i, cols) < BUFSIZ
  }

  lemma {:induction false} PendingBound(rows: nat, cols: nat, data: seq<nat>, i: nat, j: nat)
    requires |data| == rows * cols && Printable(data) && cols >= 1
    requires i <= rows && j <= cols && (j > 0 ==> i < rows)
    ensures Pending(rows, cols, data, i, j) <= BUFSIZ - BUFFER_FLUSH_THOLD
    ensures j > 0 ==> Pending(rows, cols, data, i, j) < BUFSIZ - BUFFER_FLUSH_THOLD
    decreases i, j
  {
    if j > 0 {
      CellInGrid(rows, cols, i, j - 1);
    } else if i > 0 {
      PendingBound(rows, cols, data, i - 1, cols);
    }
  }

  lemma {:induction false} PendingNoColumns(rows: nat, data: seq<nat>, i: nat)
    requires |data| == rows * 0 && i <= rows
    ensures Pending(rows, 0, data, i, 0) == i
  {
    if i > 0 {
      PendingNoColumns(rows, data, i - 1);
    }
  }

  /** The buffer is never overrun exactly when the grid has a column, or few enough empty rows: the
      test that flushes sits inside the loop over columns. */
  lemma ShowFitsIff(rows: nat, cols: nat, data: seq<nat>)
    requires |data| == rows * cols && Printable(data)
    ensures ShowFits(rows, cols, data) <==> cols >= 1 || rows <= BUFSIZ
  {
    if cols >= 1 {
      forall i, j | 0 <= i < rows && 0 <= j < cols
        ensures CellFits(rows, cols, data, i, j)
      {
        PendingBound(rows, cols, data, i, j);
        CellInGrid(rows, cols, i, j);
        UintDigits(data[i * cols + j]);
      }
      forall i | 0 <= i < rows
        ensures Pending(rows, cols, data, i, cols) < BUFSIZ
      {
        PendingBound(rows, cols, data, i, cols);
      }
    } else {
      forall i: nat | i <= rows
        ensures Pending(rows, 0, data, i, 0) == i
      {
        PendingNoColumns(rows, data, i);
      }
      if rows > BUFSIZ {
        assert Pending(rows, 0, data, BUFSIZ, 0) == BUFSIZ;
      }
    }
  }

  /** The smallest grid that overruns it: one row more than the buffer has room, and no columns. */
  lemma NoColumnsOverrun()
    ensures !ShowFits(BUFSIZ + 1, 0, []) && ShowFits(BUFSIZ, 0, [])
  {
    ShowFitsIff(BUFSIZ + 1, 0, []);
    ShowFitsIff(BUFSIZ, 0, []);
  }

  // ----- Part 1 -----

  /** snprintf into the room that is left: cuts the text off where the closing NUL must go. */
  method Snprintf(buffer: array<char>, at: nat, text: string) returns (length: nat)
    requires at < buffer.Length
    modifies buffer
    ensures length == |text| && buffer[..at] == old(buffer[..at])
    ensures at + |text| < buffer.Length ==> buffer[at..at + |text|] == text
  {
    var room := buffer.Length - at - 1;
    var n := if |text| <= room then |text| else room;
    for i := 0 to n
      invariant buffer[..at] == old(buffer[..at])
      invariant buffer[at..at + i] == text[..i]
    {
      buffer[at + i] := text[i];
    }
    buffer[at + n] := '\0';
    return |text|;
  }

  /** snprintf of a text that fits: it stands behind what was in the buffer. */
  method Add(buffer: array<char>, at: nat, text: string) returns (n: nat)
    requires at + |text| < buffer.Length
    modifies buffer
    ensures n == at + |text| && buffer[..n] == old(buffer[..at]) + text
  {
    var added := Snprintf(buffer, at, text);
    n := at + added;
    assert buffer[..n] == buffer[..at] + buffer[at..n];
  }

  /** The flush when the buffer is nearly full, in both loops. */
  method FlushNearlyFull(out: Sink, buffer: array<char>, n: nat) returns (k: nat)
    requires n <= buffer.Length == BUFSIZ
    modifies out
    ensures k == AfterFlush(n) && k <= n
    ensures out.text + buffer[..k] == old(out.text) + buffer[..n]
  {
    k := n;
    if BUFSIZ - k <= BUFFER_FLUSH_THOLD {
      out.PrintStr(buffer[..k]);
      k := 0;
      assert out.text + buffer[..0] == out.text;
    }
  }

  /** Put one cell into the buffer and flush if it is nearly full. */
  method PutCell(out: Sink, buffer: array<char>, pending: nat, cols: nat, v: nat, j: nat)
    returns (n: nat)
    requires buffer.Length == BUFSIZ && pending + |Digits(v)| + 1 <= BUFSIZ
    modifies out, buffer
    ensures n == AfterFlush(pending + |CellText(cols, v, j)|) && n <= BUFSIZ
    ensures out.text + buffer[..n] == old(out.text + buffer[..pending]) + CellText(cols, v, j)
  {
    n := Add(buffer, pending, Digits(v));
    if j + 1 < cols {
      buffer[n] := ' ';
      n := n + 1;
      assert buffer[..n] == buffer[..n - 1] + " ";
    }
    assert buffer[..n] == old(buffer[..pending]) + CellText(cols, v, j);
    Appended(out.text, old(buffer[..pending]), CellText(cols, v, j));
    n := FlushNearlyFull(out, buffer, n);
  }

  /** One row into the buffer, flushed as often as needed, and its newline. */
  method PutRow(out: Sink, buffer: array<char>, pending: nat, rows: nat, cols: nat, data: seq<nat>, i: nat)
    returns (n: nat)
    requires buffer.Length == BUFSIZ && |data| == rows * cols && i < rows && ShowFits(rows, cols, data)
    requires pending == Pending(rows, cols, data, i, 0) <= BUFSIZ
    modifies out, buffer
    ensures n == Pending(rows, cols, data, i + 1, 0) <= BUFSIZ
    ensures out.text + buffer[..n] == old(out.text + buffer[..pending]) + CellsText(rows, cols, data, i, cols) + "\n"
  {
    n := pending;
    ghost var before := out.text + buffer[..pending];
    for j := 0 to cols
      invariant n == Pending(rows, cols, data, i, j) <= BUFSIZ
      invariant out.text + buffer[..n] == before + CellsText(rows, cols, data, i, j)
    {
      CellInGrid(rows, cols, i, j);
      assert CellFits(rows, cols, data, i, j);
      Appended(before, CellsText(rows, cols, data, i, j), CellText(cols, data[i * cols + j], j));
      n := PutCell(out, buffer, n, cols, data[i * cols + j], j);
    }
    ghost var row := out.text + buffer[..n];
    buffer[n] := '\n';
    n := n + 1;
    Appended(out.text, buffer[..n - 1], "\n");
    assert buffer[..n] == buffer[..n - 1] + "\n";
    assert out.text + buffer[..n] == row + "\n";
  }

  /** SHOW's loops: the chunks flushed, together, are the row by row text of the grid. */
  method ShowGrid(out: Sink, rows: nat, cols: nat, data: seq<nat>)
    requires |data| == rows * cols && Printable(data)
    requires cols >= 1 || rows <= BUFSIZ
    modifies out
    ensures out.text == old(out.text) + RowsText(rows, cols, data, rows)
  {
    var buffer := new char[BUFSIZ];
    var n: nat := 0;
    ShowFitsIff(rows, cols, data);
    for i := 0 to rows
      invariant n == Pending(rows, cols, data, i, 0) <= BUFSIZ
      invariant out.text + buffer[..n] == old(out.text) + RowsText(rows, cols, data, i)
    {
      ghost var sofar := RowsText(rows, cols, data, i);
      Appended(old(out.text), sofar, CellsText(rows, cols, data, i, cols));
      Appended(old(out.text), sofar + CellsText(rows, cols, data, i, cols), "\n");
      n := PutRow(out, buffer, n, rows, cols, data, i);
    }
    out.PrintStr(buffer[..n]);
  }

  lemma LineLength(id: nat)
    requires id < UINT_RANGE
    ensures 9 <= |LineText(id)| <= 18
  {
    UintDigits(id);
  }

  /** One line of LIST into the buffer, flushed if nearly full. */
  method PutLine(out: Sink, buffer: array<char>, pending: nat, id: nat) returns (n: nat)
    requires buffer.Length == BUFSIZ && pending < BUFSIZ - BUFFER_FLUSH_THOLD && id < UINT_RANGE
    modifies out, buffer
    ensures n < BUFSIZ - BUFFER_FLUSH_THOLD
    ensures out.text + buffer[..n] == old(out.text + buffer[..pending]) + LineText(id)
  {
    LineLength(id);
    n := Add(buffer, pending, LineText(id));
    Appended(out.text, old(buffer[..pending]), LineText(id));
    n := FlushNearlyFull(out, buffer, n);
  }

  /** LIST: 18 characters at most a line, so the same threshold keeps the buffer from filling up. */
  method ShowList(out: Sink, ids: seq<nat>)
    requires Printable(ids)
    modifies out
    ensures out.text == old(out.text) + ListText(ids)
  {
    if |ids| == 0 {
      out.PrintStr("No events\n");
      return;
    }
    var buffer := new char[BUFSIZ];
    var n: nat := 0;
    for i := 0 to |ids|
      invariant n < BUFSIZ - BUFFER_FLUSH_THOLD
      invariant out.text + buffer[..n] == old(out.text) + LinesText(ids[..i])
    {
      n := PutLine(out, buffer, n, ids[i]);
      assert ids[..i + 1][..i] == ids[..i];
    }
    assert ids[..|ids|] == ids;
    out.PrintStr(buffer[..n]);
  }

  // ----- The client of Part 2 -----

  /** sprintf into a 16-byte buffer, then print_str: a number of at most ten digits, what follows it
      and the closing NUL fit. */
  method PrintBuffered(out: Sink, v: nat, tail: string)
    requires v < UINT_RANGE && |tail| <= 1
    modifies out
    ensures out.text == old(out.text) + Digits(v) + tail
  {
    UintDigits(v);
    var buffer := new char[16];
    var length := Snprintf(buffer, 0, Digits(v) + tail);
    assert buffer[..length] == buffer[0..length];
    out.PrintStr(buffer[..length]);
  }

  method ClientRow(out: Sink, rows: nat, cols: nat, seats: seq<nat>, i: nat)
    requires |seats| == rows * cols && Printable(seats) && i < rows
    modifies out
    ensures out.text == old(out.text) + CellsText(rows, cols, seats, i, cols) + "\n"
  {
    for j := 0 to cols
      invariant out.text == old(out.text) + CellsText(rows, cols, seats, i, j)
    {
      CellInGrid(rows, cols, i, j);
      Appended(old(out.text), CellsText(rows, cols, seats, i, j), CellText(cols, seats[i * cols + j], j));
      PrintBuffered(out, seats[i * cols + j], "");
      if j + 1 < cols {
        out.PrintStr(" ");
      }
    }
    out.PrintStr("\n");
  }

  /** The client prints the same text from the grid it receives. */
  method ClientShow(out: Sink, rows: nat, cols: nat, seats: seq<nat>)
    requires |seats| == rows * cols && Printable(seats)
    modifies out
    ensures out.text == old(out.text) + RowsText(rows, cols, seats, rows)
  {
    for i := 0 to rows
      invariant out.text == old(out.text) + RowsText(rows, cols, seats, i)
    {
      ClientRow(out, rows, cols, seats, i);
    }
  }

  method ClientLine(out: Sink, id: nat)
    requires id < UINT_RANGE
    modifies out
    ensures out.text == old(out.text) + LineText(id)
  {
    out.PrintStr("Event: ");
    PrintBuffered(out, id, "\n");
  }

  method ClientList(out: Sink, ids: seq<nat>)
    requires Printable(ids)
    modifies out
    ensures out.text == old(out.text) + ListText(ids)
  {
    if |ids| == 0 {
      out.PrintStr("No events\n");
      return;
    }
    for i := 0 to |ids|
      invariant out.text == old(out.text) + LinesText(ids[..i])
    {
      ClientLine(out, ids[i]);
      assert ids[..i + 1][..i] == ids[..i];
    }
    assert ids[..|ids|] == ids;
  }
}
