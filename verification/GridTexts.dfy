/** Reading the printed texts back: what stands in which line and column, so that a reader of an output
    knows the grid, or the ids, it was made from. */
module GridTexts {
  import opened Seating
  import opened Decimal
  import opened Rendering

  /** The pieces between the separators `c`: one more than there are separators. */
  function Split(c: char, s: string): (ps: seq<string>)
    ensures ps != []
  {
    if s == "" then [""]
    else
      var ps, d := Split(c, s[..|s| - 1]), s[|s| - 1];
      if d == c then ps + [""] else Longer(ps, [d])
  }

  function Longer(ps: seq<string>, w: string): seq<string>
    requires ps != []
  {
    ps[..|ps| - 1] + [ps[|ps| - 1] + w]
  }

  /** The number a word is, written without superfluous zeros. */
  function NumberIn(w: string): Option<nat> {
    if w != "" && AllDigits(w) && (w == "0" || w[0] != '0') then Some(Value(w)) else None
  }

  lemma NumberOfDigits(n: nat)
    ensures NumberIn(Digits(n)) == Some(n)
    ensures ' ' !in Digits(n) && '\n' !in Digits(n)
  {
    ValueOfDigits(n);
    NoLeadingZero(n);
  }

  /** One character more. */
  lemma SplitSnoc(c: char, a: string, d: char)
    ensures Split(c, a + [d]) == if d == c then Split(c, a) + [""] else Longer(Split(c, a), [d])
  {
    assert (a + [d])[..|a|] == a;
  }

  lemma LongerTwice(ps: seq<string>, v: string, d: char)
    requires ps != []
    ensures Longer(Longer(ps, v), [d]) == Longer(ps, v + [d])
  {
    assert (ps[|ps| - 1] + v) + [d] == ps[|ps| - 1] + (v + [d]);
  }

  /** More text behind, with no separator in it, belongs to the last piece. */
  lemma {:induction false} SplitExtends(c: char, a: string, w: string)
    requires c !in w
    ensures Split(c, a + w) == Longer(Split(c, a), w)
    decreases |w|
  {
    var ps := Split(c, a);
    if w == "" {
      assert a + w == a && ps[|ps| - 1] + w == ps[|ps| - 1];
    } else {
      var v, d := w[..|w| - 1], w[|w| - 1];
      assert w == v + [d] && a + w == (a + v) + [d];
      SplitExtends(c, a, v);
      SplitSnoc(c, a + v, d);
      LongerTwice(ps, v, d);
    }
  }

  /** A piece and a separator behind complete the last piece. */
  lemma SplitPiece(c: char, a: string, ps: seq<string>, w: string)
    requires c !in w && Split(c, a) == ps + [""]
    ensures Split(c, a + w) == ps + [w] && Split(c, a + w + [c]) == ps + [w] + [""]
  {
    SplitExtends(c, a, w);
    assert "" + w == w;
    SplitSnoc(c, a + w, c);
  }

  // ----- Grids -----

  ghost predicate WordsAre(ws: seq<string>, cols: nat, data: seq<nat>, i: nat) {
    forall j :: 0 <= j < |ws| ==> 0 <= i * cols + j < |data| && NumberIn(ws[j]) == Some(data[i * cols + j])
  }

  lemma NoBreak(a: string, w: string, v: string)
    requires '\n' !in a && '\n' !in w && '\n' !in v
    ensures '\n' !in a + (w + v)
  {
  }

  /** One cell more, with the space after it unless it ends the row. */
  lemma WordStep(a: string, before: seq<string>, w: string, ends: bool)
    requires Split(' ', a) == before + [""] && ' ' !in w && '\n' !in a && '\n' !in w
    ensures var s := a + (w + if ends then "" else " ");
      '\n' !in s && Split(' ', s) == if ends then before + [w] else before + [w] + [""]
  {
    SplitPiece(' ', a, before, w);
    NoBreak(a, w, if ends then "" else " ");
    if ends {
      assert w + "" == w;
    } else {
      assert a + (w + " ") == a + w + [' '];
    }
  }

  lemma WordsSnoc(ws: seq<string>, cols: nat, data: seq<nat>, i: nat, w: string)
    requires WordsAre(ws, cols, data, i) && 0 <= i * cols + |ws| < |data| && NumberIn(w) == Some(data[i * cols + |ws|])
    ensures WordsAre(ws + [w], cols, data, i)
  {
  }

  lemma CellsStep(rows: nat, cols: nat, data: seq<nat>, i: nat, j: nat)
    requires |data| == rows * cols && i < rows && 0 < j <= cols
    ensures 0 <= i * cols + (j - 1) < |data|
    ensures CellsText(rows, cols, data, i, j) ==
      CellsText(rows, cols, data, i, j - 1) + (Digits(data[i * cols + (j - 1)]) + if j == cols then "" else " ")
  {
    CellInGrid(rows, cols, i, j - 1);
  }

  lemma RowWordsStep(rows: nat, cols: nat, data: seq<nat>, i: nat, j: nat, before: seq<string>, w: string)
    requires |data| == rows * cols && i < rows && 0 < j <= cols && |before| == j - 1
    requires WordsAre(before, cols, data, i)
    requires var a := CellsText(rows, cols, data, i, j - 1); '\n' !in a && Split(' ', a) == before + [""]
    requires CellAt(rows, cols, data, i, j - 1, w)
    ensures WordsAre(before + [w], cols, data, i)
    ensures var s := CellsText(rows, cols, data, i, j);
      '\n' !in s && Split(' ', s) == if j == cols then before + [w] else before + [w] + [""]
  {
    CellsStep(rows, cols, data, i, j);
    NumberOfDigits(data[i * cols + (j - 1)]);
    WordStep(CellsText(rows, cols, data, i, j - 1), before, w, j == cols);
    WordsSnoc(before, cols, data, i, w);
  }

  /** `w` is the text of the number in row `i`, column `j`, counted from 0. */
  ghost predicate CellAt(rows: nat, cols: nat, data: seq<nat>, i: nat, j: nat, w: string) {
    0 <= i * cols + j < |data| && w == Digits(data[i * cols + j])
  }

  /** The words of the first `j` cells of a row. */
  lemma {:induction false} RowWords(rows: nat, cols: nat, data: seq<nat>, i: nat, j: nat) returns (ws: seq<string>)
    requires |data| == rows * cols && i < rows && j <= cols
    ensures |ws| == j && WordsAre(ws, cols, data, i)
    ensures var s := CellsText(rows, cols, data, i, j);
      '\n' !in s && Split(' ', s) == if 0 < j == cols then ws else ws + [""]
  {
    if j == 0 {
      ws := [];
    } else {
      var before := RowWords(rows, cols, data, i, j - 1);
      CellInGrid(rows, cols, i, j - 1);
      var w := Digits(data[i * cols + (j - 1)]);
      ws := before + [w];
      RowWordsStep(rows, cols, data, i, j, before, w);
    }
  }

  /** Line `i` of a grid's text holds row `i` of the grid, its numbers separated by one space each. */
  ghost predicate LineIs(line: string, cols: nat, data: seq<nat>, i: nat) {
    if cols == 0 then line == ""
    else |Split(' ', line)| == cols && WordsAre(Split(' ', line), cols, data, i)
  }

  lemma RowLine(rows: nat, cols: nat, data: seq<nat>, i: nat)
    requires |data| == rows * cols && i < rows
    ensures var line := CellsText(rows, cols, data, i, cols); LineIs(line, cols, data, i) && '\n' !in line
  {
    var ws := RowWords(rows, cols, data, i, cols);
  }

  ghost predicate LinesAre(lines: seq<string>, cols: nat, data: seq<nat>) {
    forall k :: 0 <= k < |lines| ==> LineIs(lines[k], cols, data, k)
  }

  lemma LinesSnoc(lines: seq<string>, cols: nat, data: seq<nat>, line: string)
    requires LinesAre(lines, cols, data) && LineIs(line, cols, data, |lines|)
    ensures LinesAre(lines + [line], cols, data)
  {
  }

  lemma LineStep(text: string, next: string, before: seq<string>, line: string, cols: nat, data: seq<nat>)
    requires Split('\n', text) == before + [""] && '\n' !in line && next == text + line + "\n"
    requires LinesAre(before, cols, data) && LineIs(line, cols, data, |before|)
    ensures LinesAre(before + [line], cols, data) && Split('\n', next) == before + [line] + [""]
  {
    LinesSnoc(before, cols, data, line);
    SplitPiece('\n', text, before, line);
    assert next == text + line + ['\n'];
  }

  lemma RowsStep(rows: nat, cols: nat, data: seq<nat>, i: nat)
    requires |data| == rows * cols && 0 < i <= rows
    ensures RowsText(rows, cols, data, i) ==
      RowsText(rows, cols, data, i - 1) + CellsText(rows, cols, data, i - 1, cols) + "\n"
  {
  }

  /** The lines `lines` are those of the first `|lines|` rows. */
  ghost predicate RowsAre(lines: seq<string>, rows: nat, cols: nat, data: seq<nat>) {
    && |data| == rows * cols && |lines| <= rows && LinesAre(lines, cols, data)
    && Split('\n', RowsText(rows, cols, data, |lines|)) == lines + [""]
  }

  lemma RowLinesNext(rows: nat, cols: nat, data: seq<nat>, before: seq<string>) returns (lines: seq<string>)
    requires RowsAre(before, rows, cols, data) && |before| < rows
    ensures RowsAre(lines, rows, cols, data) && |lines| == |before| + 1
  {
    var i := |before|;
    var line := CellsText(rows, cols, data, i, cols);
    RowLine(rows, cols, data, i);
    RowsStep(rows, cols, data, i + 1);
    LineStep(RowsText(rows, cols, data, i), RowsText(rows, cols, data, i + 1), before, line, cols, data);
    lines := before + [line];
  }

  lemma {:induction false} RowLines(rows: nat, cols: nat, data: seq<nat>, i: nat) returns (lines: seq<string>)
    requires |data| == rows * cols && i <= rows
    ensures RowsAre(lines, rows, cols, data) && |lines| == i
  {
    if i == 0 {
      lines := [];
    } else {
      var before := RowLines(rows, cols, data, i - 1);
      lines := RowLinesNext(rows, cols, data, before);
    }
  }

  /** Text `s` shows the grid: as many lines as rows, each ended by a newline, and in line `r`, as word
      `c`, both counted from 1, the number in that row and column. */
  ghost predicate ShowsGrid(s: string, rows: nat, cols: nat, data: seq<nat>) {
    var lines := Split('\n', s);
    |lines| == rows + 1 && lines[rows] == "" && LinesAre(lines[..rows], cols, data)
  }

  lemma GridReadBack(rows: nat, cols: nat, data: seq<nat>)
    requires |data| == rows * cols
    ensures ShowsGrid(RowsText(rows, cols, data, rows), rows, cols, data)
  {
    var lines := RowLines(rows, cols, data, rows);
    assert (lines + [""])[..rows] == lines;
  }

  /** The cell of row `r`, column `c` as printed. */
  function PrintedAt(s: string, r: nat, c: nat): Option<nat> {
    var lines := Split('\n', s);
    if 1 <= r < |lines| && 1 <= c <= |Split(' ', lines[r - 1])| then NumberIn(Split(' ', lines[r - 1])[c - 1]) else None
  }

  lemma PrintedCell(s: string, rows: nat, cols: nat, data: seq<nat>, r: nat, c: nat)
    requires |data| == rows * cols && ShowsGrid(s, rows, cols, data) && 1 <= r <= rows && 1 <= c <= cols
    ensures 0 <= (r - 1) * cols + (c - 1) < |data| && PrintedAt(s, r, c) == Some(data[(r - 1) * cols + (c - 1)])
  {
    assert LineIs(Split('\n', s)[..rows][r - 1], cols, data, r - 1);
    var ws := Split(' ', Split('\n', s)[r - 1]);
    assert NumberIn(ws[c - 1]) == Some(data[(r - 1) * cols + (c - 1)]);
  }

  /** So different grids are never printed as one text, whatever their sizes. */
  lemma GridTextInjective(rows: nat, cols: nat, data: seq<nat>, rows': nat, cols': nat, data': seq<nat>)
    requires |data| == rows * cols && |data'| == rows' * cols' && cols > 0 && cols' > 0
    requires RowsText(rows, cols, data, rows) == RowsText(rows', cols', data', rows')
    ensures rows' == rows && data' == data && (rows > 0 ==> cols' == cols)
  {
    var s := RowsText(rows, cols, data, rows);
    GridReadBack(rows, cols, data);
    GridReadBack(rows', cols', data');
    if rows > 0 {
      assert LineIs(Split('\n', s)[..rows][0], cols, data, 0) && LineIs(Split('\n', s)[..rows][0], cols', data', 0);
      SameNumbers(s, rows, cols, data, data');
    }
  }

  lemma SameNumbers(s: string, rows: nat, cols: nat, data: seq<nat>, data': seq<nat>)
    requires |data| == |data'| == rows * cols && ShowsGrid(s, rows, cols, data) && ShowsGrid(s, rows, cols, data')
    ensures data == data'
  {
    forall i | 0 <= i < |data|
      ensures data[i] == data'[i]
    {
      var seat := IndexOnto(rows, cols, i);
      CellOf(rows, cols, seat.x, seat.y);
      PrintedCell(s, rows, cols, data, seat.x, seat.y);
      PrintedCell(s, rows, cols, data', seat.x, seat.y);
    }
  }

  // ----- Lists -----

  /** Text `s` lists the ids: one line each, in order; a line of its own says that there are none. */
  ghost predicate ShowsList(s: string, ids: seq<nat>) {
    if ids == [] then s == "No events\n"
    else
      var lines := Split('\n', s);
      |lines| == |ids| + 1 && lines[|ids|] == "" && NameEvents(lines[..|ids|], ids)
  }

  ghost predicate NamesEvent(line: string, id: nat) {
    |line| > 7 && line[..7] == "Event: " && NumberIn(line[7..]) == Some(id)
  }

  lemma EventLine(id: nat)
    ensures var line := "Event: " + Digits(id); NamesEvent(line, id) && '\n' !in line
  {
    NumberOfDigits(id);
    assert ("Event: " + Digits(id))[7..] == Digits(id);
  }

  ghost predicate NameEvents(lines: seq<string>, ids: seq<nat>) {
    |lines| == |ids| && forall i :: 0 <= i < |ids| ==> NamesEvent(lines[i], ids[i])
  }

  lemma NameOneMore(lines: seq<string>, ids: seq<nat>, line: string, id: nat)
    requires NameEvents(lines, ids) && NamesEvent(line, id)
    ensures NameEvents(lines + [line], ids + [id])
  {
  }

  lemma ListLinesStep(front: seq<nat>, id: nat, before: seq<string>)
    requires Split('\n', LinesText(front)) == before + [""] && NameEvents(before, front)
    ensures var lines := before + ["Event: " + Digits(id)];
      NameEvents(lines, front + [id]) && Split('\n', LinesText(front + [id])) == lines + [""]
  {
    var line := "Event: " + Digits(id);
    EventLine(id);
    NameOneMore(before, front, line, id);
    SplitPiece('\n', LinesText(front), before, line);
    assert (front + [id])[..|front|] == front;
    assert LinesText(front) + (line + "\n") == LinesText(front) + line + ['\n'];
  }

  lemma {:induction false} ListLines(ids: seq<nat>) returns (lines: seq<string>)
    ensures NameEvents(lines, ids) && Split('\n', LinesText(ids)) == lines + [""]
  {
    if ids == [] {
      lines := [];
    } else {
      var front, id := ids[..|ids| - 1], ids[|ids| - 1];
      var before := ListLines(front);
      ListLinesStep(front, id, before);
      assert front + [id] == ids;
      lines := before + ["Event: " + Digits(id)];
    }
  }

  lemma ListReadBack(ids: seq<nat>)
    ensures ShowsList(ListText(ids), ids)
  {
    if ids != [] {
      var lines := ListLines(ids);
      assert (lines + [""])[..|ids|] == lines;
    }
  }

  /** Different lists of ids are never printed as one text. */
  lemma ListTextInjective(ids: seq<nat>, ids': seq<nat>)
    requires ListText(ids) == ListText(ids')
    ensures ids == ids'
  {
    NotNoEvents(ids);
    NotNoEvents(ids');
    if ids != [] && ids' != [] {
      SameNames(ListText(ids), ids, ids');
    }
  }

  lemma SameNames(s: string, ids: seq<nat>, ids': seq<nat>)
    requires s == ListText(ids) == ListText(ids') && ids != [] && ids' != []
    ensures ids == ids'
  {
    ListReadBack(ids);
    ListReadBack(ids');
    var lines := Split('\n', s)[..|ids|];
    forall i | 0 <= i < |ids|
      ensures ids[i] == ids'[i]
    {
      assert NamesEvent(lines[i], ids[i]) && NamesEvent(lines[i], ids'[i]);
    }
  }

  /** The text of a list that is not empty does not say that it is. */
  lemma NotNoEvents(ids: seq<nat>)
    ensures ListText(ids) == "No events\n" <==> ids == []
  {
    if ids != [] {
      ListReadBack(ids);
      assert NamesEvent(Split('\n', ListText(ids))[..|ids|][0], ids[0]);
      NoEventsLine();
    }
  }

  lemma NoEventsLine()
    ensures Split('\n', "No events\n")[0] == "No events"
    ensures "No events"[..7] != "Event: "
  {
    SplitPiece('\n', "", [], "No events");
    assert "" + "No events" + ['\n'] == "No events\n";
    assert "No events"[..7][0] != "Event: "[0];
  }
}
