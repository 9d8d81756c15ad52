/**
 * Markdown tables (markdown_to_word.py:946-998): the run of table rows is collected,
 * the first row gives the header, the second is skipped as the separator, and the
 * cells are written into a grid of `len(rows) + 1` by `len(header)` cells.
 */
module Tables {
  import opened Wrappers
  import opened Strings
  import Blocks

  /** `[cell.strip() for cell in line.strip('|').split('|')]`. The '|' are stripped from
      the line as it is, not from the stripped line the row test looked at. */
  function Cells(line: string): (cells: seq<string>)
    ensures |cells| >= 1
  {
    var pieces := Split(StripChars(line, {'|'}), "|");
    seq(|pieces|, k requires 0 <= k < |pieces| => Strip(pieces[k]))
  }

  /** A cell without '|' and without whitespace around it. */
  predicate Written(cell: string)
  {
    '|' !in cell && Strip(cell) == cell
  }

  /** Writing a row as `|c1|c2|...|` and reading it back gives the cells, when they are
      already stripped, hold no '|', and the outer two are not empty (inner cells may
      be). */
  lemma {:induction false} RowRoundTrip(cs: seq<string>)
    requires |cs| >= 1 && |cs[0]| >= 1 && |cs[|cs| - 1]| >= 1
    requires forall k :: 0 <= k < |cs| ==> Written(cs[k])
    ensures Cells("|" + Join(cs, "|") + "|") == cs
  {
    var j := Join(cs, "|");
    var line := "|" + j + "|";
    JoinFirst(cs, "|");
    JoinLast(cs, "|");
    assert line[1..|line| - 1] == j;
    assert SkipFrom(line, {'|'}, 0) == 1 by {
      assert line[1] == j[0];
    }
    assert TrimEndAt(line, {'|'}, |line|) == |line| - 1 by {
      assert line[|line| - 2] == j[|j| - 1];
    }
    assert StripChars(line, {'|'}) == j;
    SplitJoinChar(cs, '|');
  }

  /** A joined string begins with its first piece's first character... */
  lemma {:induction false} JoinFirst(cs: seq<string>, sep: string)
    requires |cs| >= 1 && |cs[0]| >= 1
    ensures |Join(cs, sep)| >= 1 && Join(cs, sep)[0] == cs[0][0]
  {
  }

  /** ...and ends with its last piece's last character. */
  lemma {:induction false} JoinLast(cs: seq<string>, sep: string)
    requires |cs| >= 1 && |cs[|cs| - 1]| >= 1
    ensures |Join(cs, sep)| >= 1
    ensures Join(cs, sep)[|Join(cs, sep)| - 1] == cs[|cs| - 1][|cs[|cs| - 1]| - 1]
    decreases |cs|
  {
    if |cs| > 1 {
      JoinLast(cs[1..], sep);
    }
  }

  /** A row indented by whitespace gains an empty first cell, because the '|' are
      stripped from the line as it is and not from the stripped line. */
  lemma {:induction false} IndentedRowGainsEmptyCell(line: string)
    requires Blocks.IsTableLine(line) && Blocks.Indentation(line) > 0
    ensures Cells(line)[0] == ""
  {
    var w := Blocks.Indentation(line);
    Blocks.TableOpener(line);
    assert w < |line| && line[w] == '|';
    assert IsSpace(line[0]);
    var u := StripChars(line, {'|'});
    StripCharsAt(line, {'|'});
    var e := TrimEndAt(line, {'|'}, |line|);
    assert u == line[..e];
    var piece := Split(u, "|")[0];
    FirstPieceIsPrefix(u, "|");
    SplitPiecesLackSeparator(u, "|");
    forall k | 0 <= k < |piece| ensures piece[k] != '|' {
      assert piece[k] == '|' ==> OccursAt(piece, "|", k) by {
        assert |piece[k..k + 1]| == 1 && piece[k..k + 1][0] == piece[k];
      }
    }
    assert forall k :: 0 <= k < |piece| ==> piece[k] == u[k];
    assert |piece| <= |u|;
    assert w < |u| ==> u[w] == '|';
    assert |piece| <= w;
    forall k | 0 <= k < |piece| ensures piece[k] in Whitespace {
      assert piece[k] == u[k] == line[k];
    }
    StripCharsMeaning(piece, Whitespace);
  }

  // ---------------------------------------------------------------------------
  // Collecting the rows

  /** Where the run of rows that starts at `i` ends: every line before it passes the row
      test and the line there does not (or there is none). */
  function TableEnd(lines: seq<string>, i: nat): (j: nat)
    requires i <= |lines|
    ensures i <= j <= |lines|
    ensures forall k :: i <= k < j ==> Blocks.IsTableLine(lines[k])
    ensures j == |lines| || !Blocks.IsTableLine(lines[j])
    decreases |lines| - i
  {
    if i < |lines| && Blocks.IsTableLine(lines[i]) then TableEnd(lines, i + 1) else i
  }

  /** The loop at markdown_to_word.py:949-951: from `start`, the longest run of lines that
      pass the row test. */
  method CollectTableLines(lines: seq<string>, start: nat) returns (block: seq<string>, next: nat)
    requires start <= |lines|
    ensures next == TableEnd(lines, start) && block == lines[start..next]
  {
    block := [];
    next := start;
    while next < |lines| && Blocks.IsTableLine(lines[next])
      invariant start <= next <= |lines| && block == lines[start..next]
      invariant TableEnd(lines, next) == TableEnd(lines, start)
      decreases |lines| - next
    {
      block := block + [lines[next]];
      next := next + 1;
    }
  }

  /** The rows the collected run turns into: the header, then every row after the
      separator. */
  function HeaderOf(block: seq<string>): seq<string>
    requires |block| >= 3
  {
    Cells(block[0])
  }

  /** The data rows: every row of the block after the header and the separator, split
      into cells, in order. */
  function DataOf(block: seq<string>): (rows: seq<seq<string>>)
    requires |block| >= 3
    ensures |rows| == |block| - 2
    ensures forall r :: 0 <= r < |rows| ==> rows[r] == Cells(block[r + 2])
  {
    seq(|block| - 2, r requires 0 <= r < |block| - 2 => Cells(block[r + 2]))
  }

  // ---------------------------------------------------------------------------
  // Filling the grid

  /** A data row as the grid holds it: the cells beyond the header's width are dropped
      (`if col_idx < num_cols`), and missing ones keep the empty text of a new cell. */
  function Fit(row: seq<string>, n: nat): (cells: seq<string>)
    ensures |cells| == n
    ensures n <= |row| ==> cells == row[..n]
    ensures |row| <= n ==> cells[..|row|] == row && forall c :: |row| <= c < n ==> cells[c] == ""
  {
    seq(n, c requires 0 <= c < n => if c < |row| then row[c] else "")
  }

  /** The text of every cell of the table `doc.add_table` makes and the loops fill. */
  function TableGrid(header: seq<string>, rows: seq<seq<string>>): (grid: seq<seq<string>>)
    ensures |grid| == |rows| + 1
    ensures forall r :: 0 <= r < |grid| ==> |grid[r]| == |header|
  {
    [header] + seq(|rows|, r requires 0 <= r < |rows| => Fit(rows[r], |header|))
  }

  /** The header row holds the header; a data cell holds its row's cell in that column,
      or the empty text when the row is shorter; a row as wide as the header or wider
      keeps its first cells, one narrower is padded. */
  lemma {:induction false} TableGridCells(header: seq<string>, rows: seq<seq<string>>, r: nat, c: nat)
    requires r < |rows| && c < |header|
    ensures TableGrid(header, rows)[0] == header
    ensures TableGrid(header, rows)[r + 1][c] == if c < |rows[r]| then rows[r][c] else ""
    ensures |rows[r]| >= |header| ==> TableGrid(header, rows)[r + 1] == rows[r][..|header|]
    ensures |rows[r]| <= |header| ==> TableGrid(header, rows)[r + 1][..|rows[r]|] == rows[r]
  {
    var g := TableGrid(header, rows);
    assert g[r + 1] == Fit(rows[r], |header|);
  }

  /** The grid the converter fills: a fresh table of empty cells, then the header row,
      then each data row cell by cell while its column is within the header's width. */
  method FillTable(header: seq<string>, rows: seq<seq<string>>) returns (grid: array2<string>)
    ensures fresh(grid)
    ensures grid.Length0 == |rows| + 1 && grid.Length1 == |header|
    ensures forall r, c :: 0 <= r < grid.Length0 && 0 <= c < grid.Length1 ==>
      grid[r, c] == TableGrid(header, rows)[r][c]
  {
    var numCols := |header|;
    grid := new string[|rows| + 1, numCols]((_, _) => "");
    for j := 0 to numCols
      invariant forall c :: 0 <= c < j ==> grid[0, c] == header[c]
      invariant forall c :: j <= c < numCols ==> grid[0, c] == ""
      invariant forall r, c :: 1 <= r <= |rows| && 0 <= c < numCols ==> grid[r, c] == ""
    {
      grid[0, j] := header[j];
    }
    for rowIdx := 0 to |rows|
      invariant forall c :: 0 <= c < numCols ==> grid[0, c] == header[c]
      invariant forall r, c :: 1 <= r <= rowIdx && 0 <= c < numCols ==> grid[r, c] == Fit(rows[r - 1], numCols)[c]
      invariant forall r, c :: rowIdx < r <= |rows| && 0 <= c < numCols ==> grid[r, c] == ""
    {
      FillRow(grid, rowIdx + 1, rows[rowIdx]);
    }
    forall r, c | 0 <= r < grid.Length0 && 0 <= c < grid.Length1
      ensures grid[r, c] == TableGrid(header, rows)[r][c]
    {
      if r > 0 {
        assert TableGrid(header, rows)[r] == Fit(rows[r - 1], numCols);
      }
    }
  }

  /** The inner loop over one data row (markdown_to_word.py:985-988). */
  method FillRow(grid: array2<string>, r: nat, row: seq<string>)
    requires r < grid.Length0
    requires forall c :: 0 <= c < grid.Length1 ==> grid[r, c] == ""
    modifies grid
    ensures forall c :: 0 <= c < grid.Length1 ==> grid[r, c] == Fit(row, grid.Length1)[c]
    ensures forall r2, c :: 0 <= r2 < grid.Length0 && r2 != r && 0 <= c < grid.Length1 ==> grid[r2, c] == old(grid[r2, c])
  {
    for colIdx := 0 to |row|
      invariant forall c :: 0 <= c < grid.Length1 ==> grid[r, c] == (if c < colIdx && c < |row| then row[c] else "")
      invariant forall r2, c :: 0 <= r2 < grid.Length0 && r2 != r && 0 <= c < grid.Length1 ==> grid[r2, c] == old(grid[r2, c])
    {
      if colIdx < grid.Length1 {
        grid[r, colIdx] := row[colIdx];
      }
    }
  }
}
